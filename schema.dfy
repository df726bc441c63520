/** The tables of the booking directory (app.py:37-130) as values, the integrity the schema
    enforces, and the `.one()` lookups the handlers run against them. */
module Schema {

  datatype Option<T> = None | Some(value: T)

  /** A nullable string column; `None` is SQL NULL. */
  type Text = Option<string>

  datatype Genre = Genre(id: int, name: Text)

  /** The contact and location record shared by venues and artists. */
  datatype Details = Details(
    id: int,
    city: Text,
    state: Text,
    address: Text,
    phone: Text,
    website: Text,
    imageLink: Text,
    facebookLink: Text)

  /** A Venue row; `genres` holds its rows of the venue_genres association table, in order. */
  datatype Venue = Venue(
    id: int,
    detailsId: int,
    name: Text,
    seekingTalent: bool,
    seekingText: Text,
    genres: seq<int>)

  /** An Artist row; `genres` holds its rows of the artist_genres association table, in order. */
  datatype Artist = Artist(
    id: int,
    detailsId: int,
    name: Text,
    seekingVenue: bool,
    seekingText: Text,
    genres: seq<int>)

  /** A Show row; `startTime` is a timestamp on any fixed clock scale. */
  datatype Show = Show(id: int, artistId: int, venueId: int, upcoming: bool, startTime: int)

  /** The database contents. Rows of the keyed tables are found by primary key; the Show table,
      which the application only ever appends to, keeps its rows in storage order. */
  datatype Tables = Tables(
    genres: map<int, Genre>,
    details: map<int, Details>,
    venues: map<int, Venue>,
    artists: map<int, Artist>,
    shows: seq<Show>)

  predicate Distinct<T(==)>(s: seq<T>) {
    forall i, j :: 0 <= i < j < |s| ==> s[i] != s[j]
  }

  /** An association list: existing Genre rows, none twice (the association tables' primary key
      is the pair of genre and owner). */
  predicate GenresIn(ids: seq<int>, genres: map<int, Genre>) {
    Distinct(ids) && forall i :: 0 <= i < |ids| ==> ids[i] in genres
  }

  /** What the schema enforces: primary keys, the non-null foreign keys of Venue, Artist and Show,
      and the foreign keys and composite primary keys of the association tables. */
  ghost predicate Consistent(t: Tables) {
    && (forall k :: k in t.genres ==> t.genres[k].id == k)
    && (forall k :: k in t.details ==> t.details[k].id == k)
    && (forall k :: k in t.venues ==>
          t.venues[k].id == k && t.venues[k].detailsId in t.details && GenresIn(t.venues[k].genres, t.genres))
    && (forall k :: k in t.artists ==>
          t.artists[k].id == k && t.artists[k].detailsId in t.details && GenresIn(t.artists[k].genres, t.genres))
    && (forall s :: s in t.shows ==> s.artistId in t.artists && s.venueId in t.venues)
    && (forall i, j :: 0 <= i < j < |t.shows| ==> t.shows[i].id != t.shows[j].id)
  }

  /** A non-empty set has an element. */
  lemma NonEmpty(matches: set<int>)
    requires matches != {}
    ensures exists k :: k in matches
  {
    if forall k :: k !in matches {
      assert false;
    }
  }

  /** A set of one element is that element's singleton. */
  lemma SingletonOf(matches: set<int>)
    requires |matches| == 1
    ensures exists k :: matches == {k}
  {
    NonEmpty(matches);
    var k :| k in matches;
    assert |matches - {k}| == |matches| - 1;
    assert matches == {k};
  }

  /** A subset is no larger than its superset. */
  lemma SubsetCard(a: set<int>, b: set<int>)
    requires a <= b
    ensures |a| <= |b|
  {
    assert b == a + (b - a);
  }

  /** SQLAlchemy's `.one()`: the single row a query matched, or failure when it matched none
      or several. */
  ghost function One(matches: set<int>): (r: Option<int>)
    ensures r.Some? <==> |matches| == 1
    ensures r.Some? ==> matches == {r.value}
  {
    if |matches| == 1 then
      SingletonOf(matches);
      var k :| matches == {k};
      Some(k)
    else
      None
  }

  /** Running `.one()` on a query that matched `matches`. */
  method RunOne(matches: set<int>) returns (r: Option<int>)
    ensures r == One(matches)
  {
    if |matches| == 1 {
      NonEmpty(matches);
      var k :| k in matches;
      r := Some(k);
    } else {
      r := None;
    }
  }

  /** The rows of `Genre.query.filter_by(name=name)`. */
  function GenresNamed(genres: map<int, Genre>, name: string): set<int> {
    set k | k in genres && genres[k].name == Some(name)
  }

  /** The rows of `Details.query.filter_by(facebook_link=link)`. */
  function DetailsLinked(details: map<int, Details>, link: string): set<int> {
    set k | k in details && details[k].facebookLink == Some(link)
  }

  /** The Genre rows `Genre.query.filter_by(name=n).one()` returns for each submitted name `n`,
      in submitted order, or None as soon as one of these lookups fails. */
  ghost function LookUpGenres(genres: map<int, Genre>, names: seq<string>): (r: Option<seq<int>>)
    ensures r.Some? <==> forall i :: 0 <= i < |names| ==> One(GenresNamed(genres, names[i])).Some?
    ensures r.Some? ==>
      && |r.value| == |names|
      && forall i :: 0 <= i < |names| ==> One(GenresNamed(genres, names[i])) == Some(r.value[i])
  {
    if names == [] then Some([])
    else
      var front := LookUpGenres(genres, names[..|names| - 1]);
      var last := One(GenresNamed(genres, names[|names| - 1]));
      if front.Some? && last.Some? then Some(front.value + [last.value]) else None
  }

  /** Looked-up rows repeat exactly when submitted names repeat: a name matches one row, and a
      row carries one name. */
  lemma DistinctLookups(genres: map<int, Genre>, names: seq<string>, ids: seq<int>)
    requires LookUpGenres(genres, names) == Some(ids)
    ensures Distinct(ids) <==> Distinct(names)
  {
  }

  /** A list with every repetition after the first occurrence dropped. */
  function Unique<T(==)>(s: seq<T>): (r: seq<T>)
    ensures Distinct(r)
    ensures forall i :: 0 <= i < |s| ==> s[i] in r
    ensures forall i :: 0 <= i < |r| ==> r[i] in s
  {
    if s == [] then []
    else
      var front := Unique(s[..|s| - 1]);
      if s[|s| - 1] in s[..|s| - 1] then front else front + [s[|s| - 1]]
  }

  /** The lookups of one more name: those of the names before it, then its own. */
  lemma LookUpOneMore(genres: map<int, Genre>, names: seq<string>, name: string)
    ensures LookUpGenres(genres, names + [name]) ==
      var front := LookUpGenres(genres, names);
      var last := One(GenresNamed(genres, name));
      if front.Some? && last.Some? then Some(front.value + [last.value]) else None
  {
    assert (names + [name])[..|names|] == names;
  }

  /** A looked-up row repeats an earlier one exactly when its name repeats an earlier name. */
  lemma RepeatedLookup(genres: map<int, Genre>, names: seq<string>, ids: seq<int>)
    requires LookUpGenres(genres, names) == Some(ids) && names != []
    ensures names[|names| - 1] in names[..|names| - 1] <==> ids[|ids| - 1] in ids[..|ids| - 1]
  {
    var n := |names| - 1;
    if names[n] in names[..n] {
      var j :| 0 <= j < n && names[..n][j] == names[n];
      assert ids[..n][j] == ids[n];
    }
    if ids[n] in ids[..n] {
      var j :| 0 <= j < n && ids[..n][j] == ids[n];
      assert ids[j] in GenresNamed(genres, names[j]) && ids[n] in GenresNamed(genres, names[n]);
      assert names[..n][j] == names[n];
    }
  }

  /** Dropping repeated names before the lookups drops exactly the repeated rows after them:
      a name matches one row, and a row carries one name. */
  lemma {:induction false} UniqueLookups(genres: map<int, Genre>, names: seq<string>, ids: seq<int>)
    requires LookUpGenres(genres, names) == Some(ids)
    ensures LookUpGenres(genres, Unique(names)) == Some(Unique(ids))
  {
    if names != [] {
      var n := |names| - 1;
      var front, fids := names[..n], ids[..n];
      LookUpOneMore(genres, front, names[n]);
      assert names == front + [names[n]];
      assert LookUpGenres(genres, front) == Some(fids);
      UniqueLookups(genres, front, fids);
      RepeatedLookup(genres, names, ids);
      if names[n] !in front {
        LookUpOneMore(genres, Unique(front), names[n]);
      }
    }
  }

  /** The genre list a successful edit or create stores for the submitted names. It exists exactly
      when every name matches one Genre row. Each lookup appends its row to the owner's genre
      collection, and the next lookup flushes the collection first; appending a row the collection
      already holds then adds no second association row. So the stored list is the lookup of the
      submitted names with repeats dropped: existing rows, none twice, in first-submitted order. */
  ghost function AssociationFor(genres: map<int, Genre>, names: seq<string>): (r: Option<seq<int>>)
    ensures r.Some? <==> forall i :: 0 <= i < |names| ==> |GenresNamed(genres, names[i])| == 1
    ensures r.Some? ==> GenresIn(r.value, genres)
  {
    var found := LookUpGenres(genres, names);
    if found.Some? then
      assert forall i :: 0 <= i < |names| ==> found.value[i] in GenresNamed(genres, names[i]);
      Some(Unique(found.value))
    else
      None
  }

  /** The stored list is the lookup of the submitted names with repeats dropped: one row per
      distinct name, carrying that name, in first-submitted order. */
  lemma AssociationLooksUp(genres: map<int, Genre>, names: seq<string>)
    requires AssociationFor(genres, names).Some?
    ensures LookUpGenres(genres, Unique(names)) == AssociationFor(genres, names)
  {
    UniqueLookups(genres, names, LookUpGenres(genres, names).value);
  }

  /** The genre loop's outcome decides the stored list: the looked-up rows with repeats dropped
      when every lookup succeeded, nothing otherwise. */
  lemma AssociationOfLookup(genres: map<int, Genre>, names: seq<string>, found: Option<seq<int>>)
    requires found == LookUpGenres(genres, names)
    ensures AssociationFor(genres, names) == if found.Some? then Some(Unique(found.value)) else None
  {
  }

  /** Submitting again the names a stored list reads back as stores the same list. */
  lemma {:induction false} ResubmitShownNames(genres: map<int, Genre>, names: seq<string>)
    ensures AssociationFor(genres, Unique(names)) == AssociationFor(genres, names)
  {
    UniqueOfDistinct(Unique(names));
    var found := LookUpGenres(genres, names);
    if found.Some? {
      UniqueLookups(genres, names, found.value);
      UniqueOfDistinct(Unique(found.value));
      assert AssociationFor(genres, Unique(names)) == Some(Unique(Unique(found.value)));
    } else {
      var i :| 0 <= i < |names| && One(GenresNamed(genres, names[i])).None?;
      assert names[i] in Unique(names);
    }
  }

  /** A list without repeats is its own de-duplication. */
  lemma {:induction false} UniqueOfDistinct<T>(s: seq<T>)
    requires Distinct(s)
    ensures Unique(s) == s
  {
    if s != [] {
      var n := |s| - 1;
      UniqueOfDistinct(s[..n]);
      assert s == s[..n] + [s[n]];
    }
  }
}
