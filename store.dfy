/** The database session and the request handlers of app.py that read or write it. Each handler
    works on the five tables in place; a failed transaction restores the state of the last commit. */
module Store {
  import opened Schema
  import opened Strings
  import opened Views

  /** How a submission ended. */
  datatype Outcome =
    | Committed   // every write of the try block was committed
    | RolledBack  // an exception inside the try block; the session was rolled back
    | Aborted     // an exception before the try block; nothing was written

  /** The fields of the venue form that the create handler reads; the edit handler reads the same
      fields except `address`. */
  datatype VenueForm = VenueForm(
    name: string,
    city: string,
    state: string,
    address: string,
    phone: string,
    facebookLink: string,
    genres: seq<string>)

  /** The fields of the artist form that the create and edit handlers read. */
  datatype ArtistForm = ArtistForm(
    name: string,
    city: string,
    state: string,
    phone: string,
    facebookLink: string,
    genres: seq<string>)

  // ---------------------------------------------------------------------------------------------
  // What a committed submission leaves in the tables
  // ---------------------------------------------------------------------------------------------

  /** The tables after `edit_venue_submission` commits: the venue's name and the city, state,
      phone and Facebook link of its Details row replaced by the trimmed form values, and its genre
      list replaced by the rows of the submitted names. Address, website and image are kept. */
  ghost function VenueEdited(t: Tables, venueId: int, form: VenueForm): Tables
    requires Consistent(t) && venueId in t.venues && AssociationFor(t.genres, form.genres).Some?
  {
    var v := t.venues[venueId];
    var d := t.details[v.detailsId];
    t.(venues := t.venues[venueId := v.(name := Some(Strip(form.name)), genres := AssociationFor(t.genres, form.genres).value)],
       details := t.details[v.detailsId := d.(city := Some(Strip(form.city)), state := Some(Strip(form.state)),
                                             phone := Some(Strip(form.phone)), facebookLink := Some(Strip(form.facebookLink)))])
  }

  /** The tables after `edit_artist_submission` commits: as for a venue, except that the phone
      number is stored as submitted, without trimming. */
  ghost function ArtistEdited(t: Tables, artistId: int, form: ArtistForm): Tables
    requires Consistent(t) && artistId in t.artists && AssociationFor(t.genres, form.genres).Some?
  {
    var a := t.artists[artistId];
    var d := t.details[a.detailsId];
    t.(artists := t.artists[artistId := a.(name := Some(Strip(form.name)), genres := AssociationFor(t.genres, form.genres).value)],
       details := t.details[a.detailsId := d.(city := Some(Strip(form.city)), state := Some(Strip(form.state)),
                                             phone := Some(form.phone), facebookLink := Some(Strip(form.facebookLink)))])
  }

  /** The Details row the first commit of `create_venue_submission` inserts. */
  function VenueDetails(detailsId: int, form: VenueForm): Details {
    Details(detailsId, Some(Strip(form.city)), Some(Strip(form.state)), Some(Strip(form.address)),
            Some(Strip(form.phone)), None, None, Some(Strip(form.facebookLink)))
  }

  /** The Details row the first commit of `create_artist_submission` inserts; it has no address. */
  function ArtistDetails(detailsId: int, form: ArtistForm): Details {
    Details(detailsId, Some(Strip(form.city)), Some(Strip(form.state)), None,
            Some(Strip(form.phone)), None, None, Some(Strip(form.facebookLink)))
  }

  /** The tables after both commits of `create_venue_submission`: the new Details row and a new
      venue that is not seeking talent, with the rows of the submitted genre names. */
  ghost function VenueCreated(t: Tables, form: VenueForm, detailsId: int, venueId: int): Tables
    requires AssociationFor(t.genres, form.genres).Some?
  {
    t.(details := t.details[detailsId := VenueDetails(detailsId, form)],
       venues := t.venues[venueId := Venue(venueId, detailsId, Some(Strip(form.name)), false, None,
                                           AssociationFor(t.genres, form.genres).value)])
  }

  /** The tables after both commits of `create_artist_submission`. */
  ghost function ArtistCreated(t: Tables, form: ArtistForm, detailsId: int, artistId: int): Tables
    requires AssociationFor(t.genres, form.genres).Some?
  {
    t.(details := t.details[detailsId := ArtistDetails(detailsId, form)],
       artists := t.artists[artistId := Artist(artistId, detailsId, Some(Strip(form.name)), false, None,
                                               AssociationFor(t.genres, form.genres).value)])
  }

  /** The show `create_show_submission` stores: flagged upcoming when it starts after the moment
      of submission, a flag that is never recomputed. */
  function NewShow(showId: int, artistId: int, venueId: int, startTime: int, now: int): (s: Show)
    ensures s.upcoming <==> now < startTime
    ensures s.id == showId && s.artistId == artistId && s.venueId == venueId && s.startTime == startTime
  {
    Show(showId, artistId, venueId, startTime > now, startTime)
  }

  // ---------------------------------------------------------------------------------------------
  // Properties of the committed states
  // ---------------------------------------------------------------------------------------------

  /** Replacing a venue row and its Details row by rows with the same keys and an association
      list of existing genres keeps the schema's integrity. */
  lemma ReplaceVenueKeepsConsistent(t: Tables, v: Venue, d: Details)
    requires Consistent(t) && v.id in t.venues && v.detailsId == t.venues[v.id].detailsId == d.id
    requires GenresIn(v.genres, t.genres)
    ensures Consistent(t.(venues := t.venues[v.id := v], details := t.details[d.id := d]))
  {
  }

  /** Replacing an artist row and its Details row likewise keeps the schema's integrity. */
  lemma ReplaceArtistKeepsConsistent(t: Tables, a: Artist, d: Details)
    requires Consistent(t) && a.id in t.artists && a.detailsId == t.artists[a.id].detailsId == d.id
    requires GenresIn(a.genres, t.genres)
    ensures Consistent(t.(artists := t.artists[a.id := a], details := t.details[d.id := d]))
  {
  }

  /** A venue edit keeps the schema's integrity. */
  lemma VenueEditKeepsConsistent(t: Tables, venueId: int, form: VenueForm)
    requires Consistent(t) && venueId in t.venues && AssociationFor(t.genres, form.genres).Some?
    ensures Consistent(VenueEdited(t, venueId, form))
  {
  }

  /** An artist edit keeps the schema's integrity. */
  lemma ArtistEditKeepsConsistent(t: Tables, artistId: int, form: ArtistForm)
    requires Consistent(t) && artistId in t.artists && AssociationFor(t.genres, form.genres).Some?
    ensures Consistent(ArtistEdited(t, artistId, form))
  {
  }

  /** Creating a venue under fresh ids keeps the schema's integrity. */
  lemma VenueCreateKeepsConsistent(t: Tables, form: VenueForm, detailsId: int, venueId: int)
    requires Consistent(t) && detailsId !in t.details && venueId !in t.venues
    requires AssociationFor(t.genres, form.genres).Some?
    ensures Consistent(VenueCreated(t, form, detailsId, venueId))
  {
  }

  /** Creating an artist under fresh ids keeps the schema's integrity. */
  lemma ArtistCreateKeepsConsistent(t: Tables, form: ArtistForm, detailsId: int, artistId: int)
    requires Consistent(t) && detailsId !in t.details && artistId !in t.artists
    requires AssociationFor(t.genres, form.genres).Some?
    ensures Consistent(ArtistCreated(t, form, detailsId, artistId))
  {
  }

  /** The page of a venue whose row and Details row were replaced shows the new rows' values and
      the show lists it showed before. */
  lemma ReplacedVenuePage(t: Tables, v: Venue, d: Details)
    requires Consistent(t) && v.id in t.venues && v.detailsId == t.venues[v.id].detailsId == d.id
    requires GenresIn(v.genres, t.genres) && d.imageLink == t.details[d.id].imageLink
    ensures Consistent(t.(venues := t.venues[v.id := v], details := t.details[d.id := d]))
    ensures
      var before := VenuePageOf(t, v.id);
      var page := VenuePageOf(t.(venues := t.venues[v.id := v], details := t.details[d.id := d]), v.id);
      && page.name == TextCell(v.name)
      && page.city == TextCell(d.city)
      && page.state == TextCell(d.state)
      && page.phone == TextCell(d.phone)
      && page.facebookLink == TextCell(d.facebookLink)
      && page.address == TextCell(d.address)
      && page.genres == Names(GenreNames(t.genres, v.genres))
      && page.upcomingShows == before.upcomingShows
      && page.pastShows == before.pastShows
  {
    ReplaceVenueKeepsConsistent(t, v, d);
    var t' := t.(venues := t.venues[v.id := v], details := t.details[d.id := d]);
    var mine := VenueShows(t.shows, v.id);
    ArtistCardsUnchanged(t, t', UpcomingOf(mine));
    ArtistCardsUnchanged(t, t', PastOf(mine));
  }

  /** The page of an artist whose row and Details row were replaced shows the new rows' values
      and the show lists it showed before. */
  lemma ReplacedArtistPage(t: Tables, a: Artist, d: Details)
    requires Consistent(t) && a.id in t.artists && a.detailsId == t.artists[a.id].detailsId == d.id
    requires GenresIn(a.genres, t.genres) && d.imageLink == t.details[d.id].imageLink
    ensures Consistent(t.(artists := t.artists[a.id := a], details := t.details[d.id := d]))
    ensures
      var before := ArtistPageOf(t, a.id);
      var page := ArtistPageOf(t.(artists := t.artists[a.id := a], details := t.details[d.id := d]), a.id);
      && page.name == TextCell(a.name)
      && page.city == TextCell(d.city)
      && page.state == TextCell(d.state)
      && page.phone == TextCell(d.phone)
      && page.facebookLink == TextCell(d.facebookLink)
      && page.genres == Names(GenreNames(t.genres, a.genres))
      && page.upcomingShows == before.upcomingShows
      && page.pastShows == before.pastShows
  {
    ReplaceArtistKeepsConsistent(t, a, d);
    var t' := t.(artists := t.artists[a.id := a], details := t.details[d.id := d]);
    var mine := ArtistShows(t.shows, a.id);
    VenueCardsUnchanged(t, t', UpcomingOf(mine));
    VenueCardsUnchanged(t, t', PastOf(mine));
  }

  /** After a venue edit, the venue's page shows the trimmed form values and the submitted genre
      names in submitted order; its address and its show lists are those it had before. */
  lemma EditedVenuePage(t: Tables, venueId: int, form: VenueForm)
    requires Consistent(t) && venueId in t.venues && AssociationFor(t.genres, form.genres).Some?
    ensures Consistent(VenueEdited(t, venueId, form))
    ensures
      var before := VenuePageOf(t, venueId);
      var page := VenuePageOf(VenueEdited(t, venueId, form), venueId);
      && page.name == Str(Strip(form.name))
      && page.city == Str(Strip(form.city))
      && page.state == Str(Strip(form.state))
      && page.phone == Str(Strip(form.phone))
      && page.facebookLink == Str(Strip(form.facebookLink))
      && page.genres == Names(AsShown(Unique(form.genres)))
      && page.address == before.address
      && page.upcomingShows == before.upcomingShows
      && page.pastShows == before.pastShows
  {
    var v := t.venues[venueId];
    var d := t.details[v.detailsId];
    AssociationReadsBack(t.genres, form.genres);
    ReplacedVenuePage(t,
      v.(name := Some(Strip(form.name)), genres := AssociationFor(t.genres, form.genres).value),
      d.(city := Some(Strip(form.city)), state := Some(Strip(form.state)),
         phone := Some(Strip(form.phone)), facebookLink := Some(Strip(form.facebookLink))));
  }

  /** After an artist edit, the artist's page shows the trimmed form values, the phone number as
      submitted, and the submitted genre names in submitted order; its show lists are unchanged. */
  lemma EditedArtistPage(t: Tables, artistId: int, form: ArtistForm)
    requires Consistent(t) && artistId in t.artists && AssociationFor(t.genres, form.genres).Some?
    ensures Consistent(ArtistEdited(t, artistId, form))
    ensures
      var before := ArtistPageOf(t, artistId);
      var page := ArtistPageOf(ArtistEdited(t, artistId, form), artistId);
      && page.name == Str(Strip(form.name))
      && page.city == Str(Strip(form.city))
      && page.state == Str(Strip(form.state))
      && page.phone == Str(form.phone)
      && page.facebookLink == Str(Strip(form.facebookLink))
      && page.genres == Names(AsShown(Unique(form.genres)))
      && page.upcomingShows == before.upcomingShows
      && page.pastShows == before.pastShows
  {
    var a := t.artists[artistId];
    var d := t.details[a.detailsId];
    AssociationReadsBack(t.genres, form.genres);
    ReplacedArtistPage(t,
      a.(name := Some(Strip(form.name)), genres := AssociationFor(t.genres, form.genres).value),
      d.(city := Some(Strip(form.city)), state := Some(Strip(form.state)),
         phone := Some(form.phone), facebookLink := Some(Strip(form.facebookLink))));
  }

  /** Show cards only read names and image links, which no edit changes. */
  lemma ArtistCardsUnchanged(t: Tables, t': Tables, shows: seq<Show>)
    requires Consistent(t) && Consistent(t')
    requires t'.artists.Keys == t.artists.Keys
    requires forall k :: k in t.artists ==> t'.artists[k].name == t.artists[k].name && t'.artists[k].detailsId == t.artists[k].detailsId
    requires forall k :: k in t.details ==> k in t'.details && t'.details[k].imageLink == t.details[k].imageLink
    ensures ArtistCards(t', shows) == ArtistCards(t, shows)
  {
  }

  lemma VenueCardsUnchanged(t: Tables, t': Tables, shows: seq<Show>)
    requires Consistent(t) && Consistent(t')
    requires t'.venues.Keys == t.venues.Keys
    requires forall k :: k in t.venues ==> t'.venues[k].name == t.venues[k].name && t'.venues[k].detailsId == t.venues[k].detailsId
    requires forall k :: k in t.details ==> k in t'.details && t'.details[k].imageLink == t.details[k].imageLink
    ensures VenueCards(t', shows) == VenueCards(t, shows)
  {
  }

  /** Submitting the edit form again with the values a venue edit stored changes nothing:
      trimming is idempotent, and the stored genre list is looked up from the same names. */
  lemma VenueResubmitIsNoOp(t: Tables, venueId: int, form: VenueForm)
    requires Consistent(t) && venueId in t.venues && AssociationFor(t.genres, form.genres).Some?
    ensures Consistent(VenueEdited(t, venueId, form))
    ensures
      var stored := form.(name := Strip(form.name), city := Strip(form.city), state := Strip(form.state),
                          phone := Strip(form.phone), facebookLink := Strip(form.facebookLink));
      VenueEdited(VenueEdited(t, venueId, form), venueId, stored) == VenueEdited(t, venueId, form)
  {
    VenueEditKeepsConsistent(t, venueId, form);
    StripIdempotent(form.name);
    StripIdempotent(form.city);
    StripIdempotent(form.state);
    StripIdempotent(form.phone);
    StripIdempotent(form.facebookLink);
    var v := t.venues[venueId];
    var d := t.details[v.detailsId];
    var v1 := v.(name := Some(Strip(form.name)), genres := AssociationFor(t.genres, form.genres).value);
    var d1 := d.(city := Some(Strip(form.city)), state := Some(Strip(form.state)),
                 phone := Some(Strip(form.phone)), facebookLink := Some(Strip(form.facebookLink)));
    var t1 := t.(venues := t.venues[venueId := v1], details := t.details[v.detailsId := d1]);
    assert t1 == VenueEdited(t, venueId, form);
    assert t1.venues[venueId] == v1 && t1.details[v.detailsId] == d1;
    UpdateTwice(t.venues, venueId, v1);
    UpdateTwice(t.details, v.detailsId, d1);
  }

  /** Submitting the artist edit form again with the stored values changes nothing; the phone
      number, stored as submitted, is resubmitted as it is. */
  lemma ArtistResubmitIsNoOp(t: Tables, artistId: int, form: ArtistForm)
    requires Consistent(t) && artistId in t.artists && AssociationFor(t.genres, form.genres).Some?
    ensures Consistent(ArtistEdited(t, artistId, form))
    ensures
      var stored := form.(name := Strip(form.name), city := Strip(form.city), state := Strip(form.state),
                          facebookLink := Strip(form.facebookLink));
      ArtistEdited(ArtistEdited(t, artistId, form), artistId, stored) == ArtistEdited(t, artistId, form)
  {
    ArtistEditKeepsConsistent(t, artistId, form);
    StripIdempotent(form.name);
    StripIdempotent(form.city);
    StripIdempotent(form.state);
    StripIdempotent(form.facebookLink);
    var a := t.artists[artistId];
    var d := t.details[a.detailsId];
    var a1 := a.(name := Some(Strip(form.name)), genres := AssociationFor(t.genres, form.genres).value);
    var d1 := d.(city := Some(Strip(form.city)), state := Some(Strip(form.state)),
                 phone := Some(form.phone), facebookLink := Some(Strip(form.facebookLink)));
    var t1 := t.(artists := t.artists[artistId := a1], details := t.details[a.detailsId := d1]);
    assert t1 == ArtistEdited(t, artistId, form);
    assert t1.artists[artistId] == a1 && t1.details[a.detailsId] == d1;
    UpdateTwice(t.artists, artistId, a1);
    UpdateTwice(t.details, a.detailsId, d1);
  }

  /** The committed edit of a venue, in the terms the edit handler builds it: the looked-up genre
      rows, each once, become the stored list. */
  lemma VenueEditFrom(t: Tables, venueId: int, form: VenueForm, ids: seq<int>, row: Venue, detail: Details)
    requires Consistent(t) && venueId in t.venues
    requires AssociationFor(t.genres, form.genres) == Some(ids)
    requires row == t.venues[venueId].(name := Some(Strip(form.name)), genres := ids)
    requires detail == t.details[row.detailsId].(city := Some(Strip(form.city)), state := Some(Strip(form.state)),
                                                 phone := Some(Strip(form.phone)), facebookLink := Some(Strip(form.facebookLink)))
    ensures VenueEdited(t, venueId, form) == t.(venues := t.venues[venueId := row], details := t.details[row.detailsId := detail])
    ensures Consistent(t.(venues := t.venues[venueId := row], details := t.details[row.detailsId := detail]))
  {
  }

  /** The committed edit of an artist, in the terms the edit handler builds it. */
  lemma ArtistEditFrom(t: Tables, artistId: int, form: ArtistForm, ids: seq<int>, row: Artist, detail: Details)
    requires Consistent(t) && artistId in t.artists
    requires AssociationFor(t.genres, form.genres) == Some(ids)
    requires row == t.artists[artistId].(name := Some(Strip(form.name)), genres := ids)
    requires detail == t.details[row.detailsId].(city := Some(Strip(form.city)), state := Some(Strip(form.state)),
                                                 phone := Some(form.phone), facebookLink := Some(Strip(form.facebookLink)))
    ensures ArtistEdited(t, artistId, form) == t.(artists := t.artists[artistId := row], details := t.details[row.detailsId := detail])
    ensures Consistent(t.(artists := t.artists[artistId := row], details := t.details[row.detailsId := detail]))
  {
  }

  /** One round of the genre loop: a failed lookup leaves no stored list; a successful one
      appends its row to the collection unless the collection already holds it. */
  lemma GenreRowsStep(genres: map<int, Genre>, names: seq<string>, i: nat)
    requires i < |names| && LookUpGenres(genres, names[..i]).Some?
    ensures
      var genre := One(GenresNamed(genres, names[i]));
      var list := Unique(LookUpGenres(genres, names[..i]).value);
      if genre.None? then AssociationFor(genres, names).None?
      else
        && LookUpGenres(genres, names[..i + 1]).Some?
        && Unique(LookUpGenres(genres, names[..i + 1]).value) == if genre.value in list then list else list + [genre.value]
  {
    LookUpOneMore(genres, names[..i], names[i]);
    assert names[..i + 1] == names[..i] + [names[i]];
    var ids := LookUpGenres(genres, names[..i + 1]);
    if ids.Some? {
      assert ids.value[..i] == LookUpGenres(genres, names[..i]).value;
    }
  }

  /** A second write under a key replaces the first. */
  lemma Overwrite<K, V>(m: map<K, V>, k: K, v: V, w: V)
    ensures m[k := v][k := w] == m[k := w]
  {
  }

  /** Writing the same value twice under a key is writing it once. */
  lemma UpdateTwice<K, V>(m: map<K, V>, k: K, v: V)
    ensures m[k := v][k := v] == m[k := v]
  {
  }

  /** A newly created venue's page shows the trimmed form values, no website, image or seeking
      text, the submitted genre names in order, and no shows. */
  lemma CreatedVenuePage(t: Tables, form: VenueForm, detailsId: int, venueId: int)
    requires Consistent(t) && detailsId !in t.details && venueId !in t.venues
    requires AssociationFor(t.genres, form.genres).Some?
    ensures Consistent(VenueCreated(t, form, detailsId, venueId))
    ensures
      var page := VenuePageOf(VenueCreated(t, form, detailsId, venueId), venueId);
      && page.id == Num(venueId)
      && page.name == Str(Strip(form.name))
      && page.city == Str(Strip(form.city))
      && page.state == Str(Strip(form.state))
      && page.address == Str(Strip(form.address))
      && page.phone == Str(Strip(form.phone))
      && page.facebookLink == Str(Strip(form.facebookLink))
      && page.website == Null && page.imageLink == Null
      && page.seekingTalent == Flag(false) && page.seekingDescription == Null
      && page.genres == Names(AsShown(Unique(form.genres)))
      && page.upcomingShowsCount == Num(0) && page.pastShowsCount == Num(0)
  {
    VenueCreateKeepsConsistent(t, form, detailsId, venueId);
    AssociationReadsBack(t.genres, form.genres);
    NoShowsYet(t.shows, venueId, t.venues);
  }

  /** A newly created artist's page shows the trimmed form values, no website, image or seeking
      text, the submitted genre names in order, and no shows. */
  lemma CreatedArtistPage(t: Tables, form: ArtistForm, detailsId: int, artistId: int)
    requires Consistent(t) && detailsId !in t.details && artistId !in t.artists
    requires AssociationFor(t.genres, form.genres).Some?
    ensures Consistent(ArtistCreated(t, form, detailsId, artistId))
    ensures
      var page := ArtistPageOf(ArtistCreated(t, form, detailsId, artistId), artistId);
      && page.id == Num(artistId)
      && page.name == Str(Strip(form.name))
      && page.city == Str(Strip(form.city))
      && page.state == Str(Strip(form.state))
      && page.phone == Str(Strip(form.phone))
      && page.facebookLink == Str(Strip(form.facebookLink))
      && page.website == Null && page.imageLink == Null
      && page.seekingVenue == Flag(false) && page.seekingDescription == Null
      && page.genres == Names(AsShown(Unique(form.genres)))
      && page.upcomingShowsCount == Num(0) && page.pastShowsCount == Num(0)
  {
    ArtistCreateKeepsConsistent(t, form, detailsId, artistId);
    AssociationReadsBack(t.genres, form.genres);
    NoArtistShowsYet(t.shows, artistId, t.artists);
  }

  /** A venue id not yet in use has no shows. */
  lemma {:induction false} NoShowsYet(shows: seq<Show>, venueId: int, venues: map<int, Venue>)
    requires venueId !in venues && forall s :: s in shows ==> s.venueId in venues
    ensures VenueShows(shows, venueId) == []
  {
    if shows != [] {
      assert shows[|shows| - 1] in shows;
      NoShowsYet(shows[..|shows| - 1], venueId, venues);
    }
  }

  /** An artist id not yet in use has no shows. */
  lemma {:induction false} NoArtistShowsYet(shows: seq<Show>, artistId: int, artists: map<int, Artist>)
    requires artistId !in artists && forall s :: s in shows ==> s.artistId in artists
    ensures ArtistShows(shows, artistId) == []
  {
    if shows != [] {
      assert shows[|shows| - 1] in shows;
      NoArtistShowsYet(shows[..|shows| - 1], artistId, artists);
    }
  }

  /** A created show joins the end of its venue's and its artist's show lists, and no other
      list; it is listed as upcoming exactly when it starts after the moment it was submitted. */
  lemma CreatedShowListed(shows: seq<Show>, s: Show)
    ensures VenueShows(shows + [s], s.venueId) == VenueShows(shows, s.venueId) + [s]
    ensures ArtistShows(shows + [s], s.artistId) == ArtistShows(shows, s.artistId) + [s]
    ensures forall v :: v != s.venueId ==> VenueShows(shows + [s], v) == VenueShows(shows, v)
    ensures forall a :: a != s.artistId ==> ArtistShows(shows + [s], a) == ArtistShows(shows, a)
    ensures UpcomingOf(shows + [s]) == UpcomingOf(shows) + if s.upcoming then [s] else []
    ensures PastOf(shows + [s]) == PastOf(shows) + if s.upcoming then [] else [s]
  {
  }

  /** A new Details row under a fresh key keeps the schema's integrity. */
  lemma InsertDetailsKeepsConsistent(t: Tables, d: Details)
    requires Consistent(t) && d.id !in t.details
    ensures Consistent(t.(details := t.details[d.id := d]))
  {
  }

  /** A new show between an existing artist and venue, under a fresh id, keeps the schema's
      integrity. */
  lemma InsertShowKeepsConsistent(t: Tables, s: Show)
    requires Consistent(t) && s.artistId in t.artists && s.venueId in t.venues
    requires forall x :: x in t.shows ==> x.id != s.id
    ensures Consistent(t.(shows := t.shows + [s]))
  {
  }

  /** After a new Details row is inserted, looking it up by its Facebook link finds exactly that
      row when no earlier row had the same link, and fails with several matches otherwise. */
  lemma LookUpInsertedDetails(details: map<int, Details>, d: Details, link: string)
    requires d.id !in details && d.facebookLink == Some(link)
    ensures One(DetailsLinked(details[d.id := d], link)) == if DetailsLinked(details, link) == {} then Some(d.id) else None
  {
    var before := DetailsLinked(details, link);
    var after := DetailsLinked(details[d.id := d], link);
    assert after == before + {d.id};
    if before == {} {
      assert after == {d.id};
    } else {
      NonEmpty(before);
      var k :| k in before;
      assert {k, d.id} <= after;
      assert |{k, d.id}| == 2;
      assert |after| >= 2 by {
        Schema.SubsetCard({k, d.id}, after);
      }
    }
  }

  class Database {
    var genres: map<int, Genre>
    var details: map<int, Details>
    var venues: map<int, Venue>
    var artists: map<int, Artist>
    var shows: seq<Show>

    function Snapshot(): Tables
      reads this
    {
      Tables(genres, details, venues, artists, shows)
    }

    ghost predicate Valid()
      reads this
    {
      Consistent(Snapshot())
    }

    constructor (seed: Tables)
      requires Consistent(seed)
      ensures Valid() && Snapshot() == seed
    {
      genres, details, venues, artists, shows := seed.genres, seed.details, seed.venues, seed.artists, seed.shows;
    }

    /** `db.session.rollback()`: back to the state of the last commit. */
    method Rollback(saved: Tables)
      modifies this
      ensures Snapshot() == saved
    {
      genres, details, venues, artists, shows := saved.genres, saved.details, saved.venues, saved.artists, saved.shows;
    }

    // -------------------------------------------------------------------------------------------
    // Reads
    // -------------------------------------------------------------------------------------------

    /** The first pass of `venues()`: the set of distinct (city, state) pairs of the listed venues. */
    method PlacesOfListing(listing: seq<int>) returns (places: set<Place>)
      requires Valid() && VenueIds(Snapshot(), listing)
      ensures places == Places(Snapshot(), listing)
    {
      places := {};
      for k := 0 to |listing|
        invariant places == Places(Snapshot(), listing[..k])
      {
        var id := listing[k];
        assert id in listing;
        var venue := venues[id];
        var detail := details[venue.detailsId];
        places := places + {(detail.city, detail.state)};
        assert listing[..k + 1][..k] == listing[..k];
      }
      assert listing[..|listing|] == listing;
    }

    /** The inner pass of `venues()`: the `{id, name}` entries of the listed venues at `place`,
        in listing order. */
    method VenuesOfPlace(listing: seq<int>, place: Place) returns (listOfVenues: seq<VenueRef>)
      requires Valid() && VenueIds(Snapshot(), listing)
      ensures listOfVenues == VenuesAt(Snapshot(), listing, place)
    {
      listOfVenues := [];
      for k := 0 to |listing|
        invariant listOfVenues == VenuesAt(Snapshot(), listing[..k], place)
      {
        var id := listing[k];
        assert id in listing;
        var venue := venues[id];
        var detail := details[venue.detailsId];
        if detail.city == place.0 && detail.state == place.1 {
          listOfVenues := listOfVenues + [VenueRef(venue.id, venue.name)];
        }
        assert listing[..k + 1][..k] == listing[..k];
      }
      assert listing[..|listing|] == listing;
    }

    /** `venues()`: the venue listing grouped by city and state. `listing` is the row order in
        which `Venue.query.all()` returns the venues; the order in which the distinct places
        come out of the set is left open, as Python's set iteration order is. */
    method VenueAreas(listing: seq<int>) returns (areas: seq<Area>)
      requires Valid() && ListsAllVenues(Snapshot(), listing)
      ensures IsGrouping(Snapshot(), listing, areas)
    {
      ghost var t := Snapshot();
      var places := PlacesOfListing(listing);
      areas := [];
      var rest := places;
      while rest != {}
        invariant rest <= places && AreasSoFar(t, listing, places, rest, areas)
        decreases |rest|
      {
        NonEmptyPlaces(rest);
        var place :| place in rest;
        var listOfVenues := VenuesOfPlace(listing, place);
        AreasGrow(t, listing, places, rest, areas, place);
        areas := areas + [Area(place.0, place.1, listOfVenues)];
        rest := rest - {place};
      }
    }

    /** The entry of the venue page's show lists for `show`: the artist's image link, id and
        name, and the start time. */
    method ArtistCardFor(show: Show) returns (card: ShowCard)
      requires Valid() && show in shows
      ensures card == ArtistCardOf(Snapshot(), show)
    {
      var artist := artists[show.artistId];
      var artistDetails := details[artist.detailsId];
      card := ArtistCard(artistDetails.imageLink, artist.id, artist.name, show.startTime);
    }

    /** The entry of the artist page's show lists for `show`: the venue's image link, id and
        name, and the start time. */
    method VenueCardFor(show: Show) returns (card: ShowCard)
      requires Valid() && show in shows
      ensures card == VenueCardOf(Snapshot(), show)
    {
      var venue := venues[show.venueId];
      var venueDetails := details[venue.detailsId];
      card := VenueCard(venueDetails.imageLink, show.venueId, venue.name, show.startTime);
    }

    /** The show pass of the venue page: one card per show of the venue, naming the artists,
        sorted into the upcoming or the past list by the show's stored flag, and counted. */
    method VenueShowLists(venueId: int) returns (showsUpcoming: seq<ShowCard>, showsPast: seq<ShowCard>, numUpcoming: int, numPast: int)
      requires Valid()
      ensures var mine := VenueShows(shows, venueId);
        && showsUpcoming == ArtistCards(Snapshot(), UpcomingOf(mine)) && numUpcoming == |UpcomingOf(mine)|
        && showsPast == ArtistCards(Snapshot(), PastOf(mine)) && numPast == |PastOf(mine)|
    {
      showsUpcoming, showsPast := [], [];
      numUpcoming, numPast := 0, 0;
      ghost var t := Snapshot();
      var mine := VenueShows(shows, venueId);
      for i := 0 to |mine|
        invariant showsUpcoming == ArtistCards(t, UpcomingOf(mine[..i]))
        invariant showsPast == ArtistCards(t, PastOf(mine[..i]))
        invariant numUpcoming == |UpcomingOf(mine[..i])| && numPast == |PastOf(mine[..i])|
      {
        var show := mine[i];
        var card := ArtistCardFor(show);
        ArtistCardsStep(t, mine, i);
        if show.upcoming {
          numUpcoming := numUpcoming + 1;
          showsUpcoming := showsUpcoming + [card];
        } else {
          numPast := numPast + 1;
          showsPast := showsPast + [card];
        }
      }
      assert mine[..|mine|] == mine;
    }

    /** The show pass of the artist page: one card per show of the artist, naming the venues,
        sorted into the upcoming or the past list by the show's stored flag, and counted. */
    method ArtistShowLists(artistId: int) returns (showsUpcoming: seq<ShowCard>, showsPast: seq<ShowCard>, numUpcoming: int, numPast: int)
      requires Valid()
      ensures var mine := ArtistShows(shows, artistId);
        && showsUpcoming == VenueCards(Snapshot(), UpcomingOf(mine)) && numUpcoming == |UpcomingOf(mine)|
        && showsPast == VenueCards(Snapshot(), PastOf(mine)) && numPast == |PastOf(mine)|
    {
      showsUpcoming, showsPast := [], [];
      numUpcoming, numPast := 0, 0;
      ghost var t := Snapshot();
      var mine := ArtistShows(shows, artistId);
      for i := 0 to |mine|
        invariant showsUpcoming == VenueCards(t, UpcomingOf(mine[..i]))
        invariant showsPast == VenueCards(t, PastOf(mine[..i]))
        invariant numUpcoming == |UpcomingOf(mine[..i])| && numPast == |PastOf(mine[..i])|
      {
        var show := mine[i];
        var card := VenueCardFor(show);
        VenueCardsStep(t, mine, i);
        if show.upcoming {
          numUpcoming := numUpcoming + 1;
          showsUpcoming := showsUpcoming + [card];
        } else {
          numPast := numPast + 1;
          showsPast := showsPast + [card];
        }
      }
      assert mine[..|mine|] == mine;
    }

    /** The genre pass of a detail page: the names of an association list's genres, in order. */
    method GenreNamesOf(ids: seq<int>) returns (genresList: seq<Text>)
      requires forall i :: 0 <= i < |ids| ==> ids[i] in genres
      ensures genresList == GenreNames(genres, ids)
    {
      genresList := [];
      for i := 0 to |ids|
        invariant genresList == GenreNames(genres, ids[..i])
      {
        genresList := genresList + [genres[ids[i]].name];
        assert ids[..i + 1][..i] == ids[..i];
      }
      assert ids[..|ids|] == ids;
    }

    /** `show_venue(venue_id)`: the venue's detail page, or the not-found page. */
    method VenuePage(venueId: int) returns (page: VenueData)
      requires Valid()
      ensures page == VenuePageOf(Snapshot(), venueId)
    {
      if venueId !in venues {
        page := VenueNotFound;
        return;
      }
      var venue := venues[venueId];
      var detail := details[venue.detailsId];
      var showsUpcoming, showsPast, numUpcoming, numPast := VenueShowLists(venueId);
      var genresList := GenreNamesOf(venue.genres);
      page := VenueData(
        id := Num(venueId),
        name := TextCell(venue.name),
        genres := Names(genresList),
        state := TextCell(detail.state),
        city := TextCell(detail.city),
        address := TextCell(detail.address),
        phone := TextCell(detail.phone),
        website := TextCell(detail.website),
        facebookLink := TextCell(detail.facebookLink),
        seekingTalent := Flag(venue.seekingTalent),
        seekingDescription := TextCell(venue.seekingText),
        pastShows := Cards(showsPast),
        pastShowsCount := Num(numPast),
        upcomingShows := Cards(showsUpcoming),
        upcomingShowsCount := Num(numUpcoming),
        imageLink := TextCell(detail.imageLink));
    }

    /** `show_artist(artist_id)`: the artist's detail page, or the not-found page. */
    method ArtistPage(artistId: int) returns (page: ArtistData)
      requires Valid()
      ensures page == ArtistPageOf(Snapshot(), artistId)
    {
      if artistId !in artists {
        page := ArtistNotFound;
        return;
      }
      var artist := artists[artistId];
      var detail := details[artist.detailsId];
      var showsUpcoming, showsPast, numUpcoming, numPast := ArtistShowLists(artistId);
      var genresList := GenreNamesOf(artist.genres);
      page := ArtistData(
        id := Num(artistId),
        name := TextCell(artist.name),
        genres := Names(genresList),
        state := TextCell(detail.state),
        city := TextCell(detail.city),
        phone := TextCell(detail.phone),
        website := TextCell(detail.website),
        facebookLink := TextCell(detail.facebookLink),
        seekingVenue := Flag(artist.seekingVenue),
        seekingDescription := TextCell(artist.seekingText),
        pastShows := Cards(showsPast),
        pastShowsCount := Num(numPast),
        upcomingShows := Cards(showsUpcoming),
        upcomingShowsCount := Num(numUpcoming),
        imageLink := TextCell(detail.imageLink));
    }

    // -------------------------------------------------------------------------------------------
    // Writes
    // -------------------------------------------------------------------------------------------

    /** The genre loop of the edit and create handlers: `Genre.query.filter_by(name=genre).one()`
        for each submitted name in turn, stopping at the first lookup that fails, and the row it
        returns appended to the owner's genre collection. The lookup flushes what the previous
        rounds appended, so a row the collection already holds adds no second association row. */
    method GenreRows(names: seq<string>) returns (found: Option<seq<int>>)
      ensures found == AssociationFor(genres, names)
    {
      var list: seq<int> := [];
      for i := 0 to |names|
        invariant LookUpGenres(genres, names[..i]).Some?
        invariant list == Unique(LookUpGenres(genres, names[..i]).value)
      {
        var genre := RunOne(GenresNamed(genres, names[i]));
        GenreRowsStep(genres, names, i);
        if genre.None? {
          return None;
        }
        if genre.value !in list {
          list := list + [genre.value];
        }
      }
      assert names[..|names|] == names;
      AssociationOfLookup(genres, names, LookUpGenres(genres, names));
      found := Some(list);
    }

    /** `edit_venue_submission(venue_id)`. An unknown id fails before the transaction starts and
        changes nothing; a genre name that matches no row or several rolls the whole edit back.
        A name submitted twice stores its genre once. */
    method EditVenue(venueId: int, form: VenueForm) returns (outcome: Outcome)
      requires Valid()
      modifies this
      ensures Valid()
      ensures outcome == Aborted <==> venueId !in old(venues)
      ensures outcome == Committed <==> venueId in old(venues) && AssociationFor(old(genres), form.genres).Some?
      ensures outcome == Committed ==> Snapshot() == VenueEdited(old(Snapshot()), venueId, form)
      ensures outcome != Committed ==> Snapshot() == old(Snapshot())
    {
      var name, city, state := Strip(form.name), Strip(form.city), Strip(form.state);
      var phone, facebookLink := Strip(form.phone), Strip(form.facebookLink);
      if venueId !in venues {
        return Aborted;
      }
      var saved := Snapshot();
      var venue := venues[venueId];
      venues := venues[venueId := venue.(name := Some(name), genres := [])];
      details := details[venue.detailsId := details[venue.detailsId].(city := Some(city), state := Some(state), phone := Some(phone),
                                                                  facebookLink := Some(facebookLink))];
      var found := GenreRows(form.genres);
      if found.None? {
        Rollback(saved);
        return RolledBack;
      }
      var edited := venues[venueId].(genres := found.value);
      Overwrite(saved.venues, venueId, venues[venueId], edited);
      venues := venues[venueId := edited];
      VenueEditFrom(saved, venueId, form, found.value, edited, details[venue.detailsId]);
      return Committed;
    }

    /** `edit_artist_submission(artist_id)`: as for a venue, except that the phone number is
        stored untrimmed. */
    method EditArtist(artistId: int, form: ArtistForm) returns (outcome: Outcome)
      requires Valid()
      modifies this
      ensures Valid()
      ensures outcome == Aborted <==> artistId !in old(artists)
      ensures outcome == Committed <==> artistId in old(artists) && AssociationFor(old(genres), form.genres).Some?
      ensures outcome == Committed ==> Snapshot() == ArtistEdited(old(Snapshot()), artistId, form)
      ensures outcome != Committed ==> Snapshot() == old(Snapshot())
    {
      var name, city, state := Strip(form.name), Strip(form.city), Strip(form.state);
      var phone, facebookLink := form.phone, Strip(form.facebookLink);
      if artistId !in artists {
        return Aborted;
      }
      var saved := Snapshot();
      var artist := artists[artistId];
      artists := artists[artistId := artist.(name := Some(name), genres := [])];
      details := details[artist.detailsId := details[artist.detailsId].(city := Some(city), state := Some(state), phone := Some(phone),
                                                                  facebookLink := Some(facebookLink))];
      var found := GenreRows(form.genres);
      if found.None? {
        Rollback(saved);
        return RolledBack;
      }
      var edited := artists[artistId].(genres := found.value);
      Overwrite(saved.artists, artistId, artists[artistId], edited);
      artists := artists[artistId := edited];
      ArtistEditFrom(saved, artistId, form, found.value, edited, details[artist.detailsId]);
      return Committed;
    }

    /** `create_venue_submission()`. The Details row is committed on its own first, so it stays
        even when the rest fails: when its Facebook link was already in use (the lookup by link
        then matches several rows), or when a genre lookup fails.
        `detailsId` and `venueId` are the keys the database assigns to the new rows. */
    method CreateVenue(form: VenueForm, detailsId: int, venueId: int) returns (outcome: Outcome)
      requires Valid() && detailsId !in details && venueId !in venues
      modifies this
      ensures Valid()
      ensures outcome != Aborted
      ensures outcome == Committed <==>
        DetailsLinked(old(details), Strip(form.facebookLink)) == {} && AssociationFor(old(genres), form.genres).Some?
      ensures outcome == Committed ==> Snapshot() == VenueCreated(old(Snapshot()), form, detailsId, venueId)
      ensures outcome != Committed ==>
        Snapshot() == old(Snapshot()).(details := old(details)[detailsId := VenueDetails(detailsId, form)])
    {
      var name, city, state := Strip(form.name), Strip(form.city), Strip(form.state);
      var address, phone, facebookLink := Strip(form.address), Strip(form.phone), Strip(form.facebookLink);
      ghost var t := Snapshot();
      var newDetail := Details(detailsId, Some(city), Some(state), Some(address), Some(phone), None, None, Some(facebookLink));
      InsertDetailsKeepsConsistent(t, newDetail);
      LookUpInsertedDetails(details, newDetail, facebookLink);
      details := details[detailsId := newDetail];
      var committed := Snapshot();
      var detail := RunOne(DetailsLinked(details, facebookLink));
      if detail.None? {
        Rollback(committed);
        return RolledBack;
      }
      var found := GenreRows(form.genres);
      if found.None? {
        Rollback(committed);
        return RolledBack;
      }
      venues := venues[venueId := Venue(venueId, detail.value, Some(name), false, None, found.value)];
      VenueCreateKeepsConsistent(t, form, detailsId, venueId);
      return Committed;
    }

    /** `create_artist_submission()`: as for a venue; the artist's Details row has no address. */
    method CreateArtist(form: ArtistForm, detailsId: int, artistId: int) returns (outcome: Outcome)
      requires Valid() && detailsId !in details && artistId !in artists
      modifies this
      ensures Valid()
      ensures outcome != Aborted
      ensures outcome == Committed <==>
        DetailsLinked(old(details), Strip(form.facebookLink)) == {} && AssociationFor(old(genres), form.genres).Some?
      ensures outcome == Committed ==> Snapshot() == ArtistCreated(old(Snapshot()), form, detailsId, artistId)
      ensures outcome != Committed ==>
        Snapshot() == old(Snapshot()).(details := old(details)[detailsId := ArtistDetails(detailsId, form)])
    {
      var name, city, state := Strip(form.name), Strip(form.city), Strip(form.state);
      var phone, facebookLink := Strip(form.phone), Strip(form.facebookLink);
      ghost var t := Snapshot();
      var newDetail := Details(detailsId, Some(city), Some(state), None, Some(phone), None, None, Some(facebookLink));
      InsertDetailsKeepsConsistent(t, newDetail);
      LookUpInsertedDetails(details, newDetail, facebookLink);
      details := details[detailsId := newDetail];
      var committed := Snapshot();
      var detail := RunOne(DetailsLinked(details, facebookLink));
      if detail.None? {
        Rollback(committed);
        return RolledBack;
      }
      var found := GenreRows(form.genres);
      if found.None? {
        Rollback(committed);
        return RolledBack;
      }
      artists := artists[artistId := Artist(artistId, detail.value, Some(name), false, None, found.value)];
      ArtistCreateKeepsConsistent(t, form, detailsId, artistId);
      return Committed;
    }

    /** `create_show_submission()`. Whether the show is upcoming is decided once, against the
        clock reading `now`; the commit fails when the artist or the venue does not exist.
        `startTime` is the form's parsed start time, `None` when it did not parse: comparing
        that with the clock raises before the transaction starts, and nothing is written.
        `showId` is the key the database assigns to the new row. */
    method CreateShow(artistId: int, venueId: int, startTime: Option<int>, now: int, showId: int) returns (outcome: Outcome)
      requires Valid() && forall s :: s in shows ==> s.id != showId
      modifies this
      ensures Valid()
      ensures outcome == Aborted <==> startTime.None?
      ensures outcome == Committed <==> startTime.Some? && artistId in old(artists) && venueId in old(venues)
      ensures outcome == Committed ==>
        Snapshot() == old(Snapshot()).(shows := old(shows) + [NewShow(showId, artistId, venueId, startTime.value, now)])
      ensures outcome != Committed ==> Snapshot() == old(Snapshot())
    {
      if startTime.None? {
        return Aborted;
      }
      var upcomingShow := startTime.value > now;
      var saved := Snapshot();
      var newShow := Show(showId, artistId, venueId, upcomingShow, startTime.value);
      shows := shows + [newShow];
      if artistId !in artists || venueId !in venues {
        // the foreign keys of the Show table reject the row at commit
        Rollback(saved);
        return RolledBack;
      }
      InsertShowKeepsConsistent(saved, newShow);
      return Committed;
    }
  }
}
