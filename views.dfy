/** What the read handlers compute from the tables: the venue listing grouped by city and state
    (app.py:157-196) and the venue and artist detail pages (app.py:226-323, app.py:461-553). */
module Views {
  import opened Schema

  // ---------------------------------------------------------------------------------------------
  // Venue listing
  // ---------------------------------------------------------------------------------------------

  /** A (city, state) pair, the key the venue listing groups by. */
  type Place = (Text, Text)

  /** The `{id, name}` entry of a venue in the listing. */
  datatype VenueRef = VenueRef(id: int, name: Text)

  /** The `{city, state, venues}` entry of one area of the listing. */
  datatype Area = Area(city: Text, state: Text, venues: seq<VenueRef>) {
    function Where(): Place {
      (city, state)
    }
  }

  /** `ids` are ids of Venue rows. */
  predicate VenueIds(t: Tables, ids: seq<int>) {
    forall id :: id in ids ==> id in t.venues
  }

  /** `listing` holds every Venue row once, as `Venue.query.all()` returns them. */
  predicate ListsAllVenues(t: Tables, listing: seq<int>) {
    && Distinct(listing)
    && (forall id :: id in listing ==> id in t.venues)
    && (forall id :: id in t.venues ==> id in listing)
  }

  /** The city and state of the Details row of a venue. */
  function PlaceOf(t: Tables, id: int): Place
    requires Consistent(t) && id in t.venues
  {
    var d := t.details[t.venues[id].detailsId];
    (d.city, d.state)
  }

  /** The distinct places of the listed venues. */
  function Places(t: Tables, listing: seq<int>): (r: set<Place>)
    requires Consistent(t) && VenueIds(t, listing)
    ensures forall id :: id in listing ==> PlaceOf(t, id) in r
    ensures forall p :: p in r ==> exists id :: id in listing && PlaceOf(t, id) == p
  {
    if listing == [] then {}
    else Places(t, listing[..|listing| - 1]) + {PlaceOf(t, listing[|listing| - 1])}
  }

  /** A non-empty set of places has an element. */
  lemma NonEmptyPlaces(s: set<Place>)
    requires s != {}
    ensures exists p :: p in s
  {
  }

  /** The entries of the listed venues located at `p`, in listing order. */
  function VenuesAt(t: Tables, listing: seq<int>, p: Place): (r: seq<VenueRef>)
    requires Consistent(t) && VenueIds(t, listing)
    ensures forall v :: v in r ==> v.id in listing && PlaceOf(t, v.id) == p && v.name == t.venues[v.id].name
    ensures forall id :: id in listing && PlaceOf(t, id) == p ==> VenueRef(id, t.venues[id].name) in r
  {
    if listing == [] then []
    else
      var id := listing[|listing| - 1];
      VenuesAt(t, listing[..|listing| - 1], p) + if PlaceOf(t, id) == p then [VenueRef(id, t.venues[id].name)] else []
  }

  /** `areas` groups the listed venues by place: one area per distinct place, each listing, in
      listing order, the venues located there. The order of the areas themselves is free. */
  ghost predicate IsGrouping(t: Tables, listing: seq<int>, areas: seq<Area>)
    requires Consistent(t) && VenueIds(t, listing)
  {
    && (forall i, j :: 0 <= i < j < |areas| ==> areas[i].Where() != areas[j].Where())
    && (forall i :: 0 <= i < |areas| ==> areas[i].Where() in Places(t, listing))
    && (forall p :: p in Places(t, listing) ==> exists i :: 0 <= i < |areas| && areas[i].Where() == p)
    && (forall i :: 0 <= i < |areas| ==> areas[i].venues == VenuesAt(t, listing, areas[i].Where()))
  }

  /** The areas built so far by the grouping loop of `venues()`: one per place of `places` already
      taken out of `rest`, none twice, each holding the venues located there. */
  ghost predicate AreasSoFar(t: Tables, listing: seq<int>, places: set<Place>, rest: set<Place>, areas: seq<Area>)
    requires Consistent(t) && VenueIds(t, listing)
  {
    && (forall i :: 0 <= i < |areas| ==> areas[i].Where() in places && areas[i].Where() !in rest)
    && (forall p :: p in places && p !in rest ==> exists i :: 0 <= i < |areas| && areas[i].Where() == p)
    && (forall i, j :: 0 <= i < j < |areas| ==> areas[i].Where() != areas[j].Where())
    && (forall i :: 0 <= i < |areas| ==> areas[i].venues == VenuesAt(t, listing, areas[i].Where()))
  }

  /** Taking one more place out of `rest` and adding its area keeps AreasSoFar. */
  lemma AreasGrow(t: Tables, listing: seq<int>, places: set<Place>, rest: set<Place>, areas: seq<Area>, place: Place)
    requires Consistent(t) && VenueIds(t, listing)
    requires rest <= places && place in rest && AreasSoFar(t, listing, places, rest, areas)
    ensures AreasSoFar(t, listing, places, rest - {place}, areas + [Area(place.0, place.1, VenuesAt(t, listing, place))])
  {
    var grown := areas + [Area(place.0, place.1, VenuesAt(t, listing, place))];
    var left := rest - {place};
    forall i | 0 <= i < |grown|
      ensures grown[i].Where() in places && grown[i].Where() !in left
      ensures grown[i].venues == VenuesAt(t, listing, grown[i].Where())
    {
      if i < |areas| {
        assert grown[i] == areas[i];
      } else {
        assert grown[i].Where() == place;
      }
    }
    forall i, j | 0 <= i < j < |grown| ensures grown[i].Where() != grown[j].Where() {
      if j < |areas| {
        assert grown[i] == areas[i] && grown[j] == areas[j];
      } else {
        assert grown[i] == areas[i] && areas[i].Where() !in rest;
        assert grown[j].Where() == place;
      }
    }
    forall p | p in places && p !in left
      ensures exists i :: 0 <= i < |grown| && grown[i].Where() == p
    {
      if p == place {
        assert grown[|areas|].Where() == p;
      } else {
        assert p in places && p !in rest;
        var i :| 0 <= i < |areas| && areas[i].Where() == p;
        assert grown[i] == areas[i];
      }
    }
  }

  /** The venue `id` is listed in `area`. */
  predicate InArea(area: Area, id: int) {
    exists v :: v in area.venues && v.id == id
  }

  /** No area of a grouping is empty. */
  lemma AreasNonEmpty(t: Tables, listing: seq<int>, areas: seq<Area>)
    requires Consistent(t) && VenueIds(t, listing) && IsGrouping(t, listing, areas)
    ensures forall i :: 0 <= i < |areas| ==> areas[i].venues != []
  {
  }

  /** Every listed venue is in some area of a grouping. */
  lemma EveryVenueGrouped(t: Tables, listing: seq<int>, areas: seq<Area>)
    requires Consistent(t) && VenueIds(t, listing) && IsGrouping(t, listing, areas)
    ensures forall id :: id in listing ==> exists i :: 0 <= i < |areas| && InArea(areas[i], id)
  {
    forall id | id in listing ensures exists i :: 0 <= i < |areas| && InArea(areas[i], id) {
      assert PlaceOf(t, id) in Places(t, listing);
      assert exists i :: 0 <= i < |areas| && areas[i].Where() == PlaceOf(t, id);
      var i :| 0 <= i < |areas| && areas[i].Where() == PlaceOf(t, id);
      assert VenueRef(id, t.venues[id].name) in areas[i].venues;
    }
  }

  /** A venue is only ever grouped under the city and state of its own Details row. */
  lemma GroupedAtOwnPlace(t: Tables, listing: seq<int>, areas: seq<Area>, i: int, id: int)
    requires Consistent(t) && VenueIds(t, listing) && IsGrouping(t, listing, areas)
    requires 0 <= i < |areas| && InArea(areas[i], id)
    ensures id in listing && areas[i].Where() == PlaceOf(t, id)
  {
  }

  /** A grouping partitions the venues: no area is empty, every listed venue is in exactly one
      area, and that area's city and state are those of the venue's Details row. */
  lemma GroupingIsPartition(t: Tables, listing: seq<int>, areas: seq<Area>)
    requires Consistent(t) && VenueIds(t, listing) && IsGrouping(t, listing, areas)
    ensures forall i :: 0 <= i < |areas| ==> areas[i].venues != []
    ensures forall id :: id in listing ==> exists i :: 0 <= i < |areas| && InArea(areas[i], id)
    ensures forall i, id :: 0 <= i < |areas| && InArea(areas[i], id) ==>
      id in listing && areas[i].Where() == PlaceOf(t, id)
    ensures forall i, j, id :: 0 <= i < |areas| && 0 <= j < |areas| && InArea(areas[i], id) && InArea(areas[j], id) ==>
      i == j
  {
    AreasNonEmpty(t, listing, areas);
    EveryVenueGrouped(t, listing, areas);
    forall i, id | 0 <= i < |areas| && InArea(areas[i], id)
      ensures id in listing && areas[i].Where() == PlaceOf(t, id)
    {
      GroupedAtOwnPlace(t, listing, areas, i, id);
    }
    forall i, j, id | 0 <= i < |areas| && 0 <= j < |areas| && InArea(areas[i], id) && InArea(areas[j], id)
      ensures i == j
    {
      GroupedAtOwnPlace(t, listing, areas, i, id);
      GroupedAtOwnPlace(t, listing, areas, j, id);
    }
  }

  // ---------------------------------------------------------------------------------------------
  // Detail pages
  // ---------------------------------------------------------------------------------------------

  /** The shows of a venue, in Show-table order: the `venue.shows` relationship. */
  function VenueShows(shows: seq<Show>, venueId: int): (r: seq<Show>)
    ensures forall s :: s in r <==> s in shows && s.venueId == venueId
  {
    if shows == [] then []
    else
      var s := shows[|shows| - 1];
      VenueShows(shows[..|shows| - 1], venueId) + if s.venueId == venueId then [s] else []
  }

  /** The shows of an artist, in Show-table order: the `artist.shows` relationship. */
  function ArtistShows(shows: seq<Show>, artistId: int): (r: seq<Show>)
    ensures forall s :: s in r <==> s in shows && s.artistId == artistId
  {
    if shows == [] then []
    else
      var s := shows[|shows| - 1];
      ArtistShows(shows[..|shows| - 1], artistId) + if s.artistId == artistId then [s] else []
  }

  /** The shows whose stored `upcoming` flag is set, in order. */
  function UpcomingOf(shows: seq<Show>): (r: seq<Show>)
    ensures forall s :: s in r <==> s in shows && s.upcoming
  {
    if shows == [] then []
    else
      var s := shows[|shows| - 1];
      UpcomingOf(shows[..|shows| - 1]) + if s.upcoming then [s] else []
  }

  /** The shows whose stored `upcoming` flag is clear, in order. */
  function PastOf(shows: seq<Show>): (r: seq<Show>)
    ensures forall s :: s in r <==> s in shows && !s.upcoming
  {
    if shows == [] then []
    else
      var s := shows[|shows| - 1];
      PastOf(shows[..|shows| - 1]) + if s.upcoming then [] else [s]
  }

  /** One more show of a list goes to the end of exactly one of the two parts. */
  lemma SplitStep(shows: seq<Show>, i: int)
    requires 0 <= i < |shows|
    ensures UpcomingOf(shows[..i + 1]) == UpcomingOf(shows[..i]) + if shows[i].upcoming then [shows[i]] else []
    ensures PastOf(shows[..i + 1]) == PastOf(shows[..i]) + if shows[i].upcoming then [] else [shows[i]]
  {
    assert shows[..i + 1][..i] == shows[..i];
  }

  /** Upcoming and past split a show list: every show lands in exactly one of the two parts,
      so the two counts add up to the number of shows. */
  lemma {:induction false} SplitIsPartition(shows: seq<Show>)
    ensures multiset(UpcomingOf(shows)) + multiset(PastOf(shows)) == multiset(shows)
    ensures |UpcomingOf(shows)| + |PastOf(shows)| == |shows|
  {
    if shows != [] {
      var front := shows[..|shows| - 1];
      var last := shows[|shows| - 1];
      SplitIsPartition(front);
      assert shows == front + [last];
      if last.upcoming {
        assert UpcomingOf(shows) == UpcomingOf(front) + [last];
        assert PastOf(shows) == PastOf(front);
      } else {
        assert UpcomingOf(shows) == UpcomingOf(front);
        assert PastOf(shows) == PastOf(front) + [last];
      }
    }
  }

  /** One entry of `past_shows` or `upcoming_shows`: the other party of the show and its start. */
  datatype ShowCard =
    | ArtistCard(artistImageLink: Text, artistId: int, artistName: Text, startTime: int)
    | VenueCard(venueImageLink: Text, venueId: int, venueName: Text, startTime: int)

  /** A venue page's entry for a show: the artist, with the image link of its Details row.
      Consistent tables have no show without its artist; such a show would get a blank card. */
  function ArtistCardOf(t: Tables, s: Show): ShowCard
    requires Consistent(t)
  {
    if s.artistId in t.artists then
      var a := t.artists[s.artistId];
      ArtistCard(t.details[a.detailsId].imageLink, a.id, a.name, s.startTime)
    else
      ArtistCard(None, s.artistId, None, s.startTime)
  }

  /** An artist page's entry for a show: the venue, with the image link of its Details row.
      Consistent tables have no show without its venue; such a show would get a blank card. */
  function VenueCardOf(t: Tables, s: Show): ShowCard
    requires Consistent(t)
  {
    if s.venueId in t.venues then
      var v := t.venues[s.venueId];
      VenueCard(t.details[v.detailsId].imageLink, s.venueId, v.name, s.startTime)
    else
      VenueCard(None, s.venueId, None, s.startTime)
  }

  function ArtistCards(t: Tables, shows: seq<Show>): (r: seq<ShowCard>)
    requires Consistent(t)
    ensures |r| == |shows| && forall i :: 0 <= i < |shows| ==> r[i] == ArtistCardOf(t, shows[i])
  {
    if shows == [] then []
    else ArtistCards(t, shows[..|shows| - 1]) + [ArtistCardOf(t, shows[|shows| - 1])]
  }

  function VenueCards(t: Tables, shows: seq<Show>): (r: seq<ShowCard>)
    requires Consistent(t)
    ensures |r| == |shows| && forall i :: 0 <= i < |shows| ==> r[i] == VenueCardOf(t, shows[i])
  {
    if shows == [] then []
    else VenueCards(t, shows[..|shows| - 1]) + [VenueCardOf(t, shows[|shows| - 1])]
  }

  /** Appending a show appends its card. */
  lemma ArtistCardsAppend(t: Tables, shows: seq<Show>, s: Show)
    requires Consistent(t)
    ensures ArtistCards(t, shows + [s]) == ArtistCards(t, shows) + [ArtistCardOf(t, s)]
  {
  }

  lemma VenueCardsAppend(t: Tables, shows: seq<Show>, s: Show)
    requires Consistent(t)
    ensures VenueCards(t, shows + [s]) == VenueCards(t, shows) + [VenueCardOf(t, s)]
  {
  }

  /** One more show of a list adds its card to the end of exactly one of the two card lists. */
  lemma ArtistCardsStep(t: Tables, shows: seq<Show>, i: int)
    requires Consistent(t) && 0 <= i < |shows|
    ensures ArtistCards(t, UpcomingOf(shows[..i + 1])) ==
      ArtistCards(t, UpcomingOf(shows[..i])) + if shows[i].upcoming then [ArtistCardOf(t, shows[i])] else []
    ensures ArtistCards(t, PastOf(shows[..i + 1])) ==
      ArtistCards(t, PastOf(shows[..i])) + if shows[i].upcoming then [] else [ArtistCardOf(t, shows[i])]
    ensures |UpcomingOf(shows[..i + 1])| == |UpcomingOf(shows[..i])| + if shows[i].upcoming then 1 else 0
    ensures |PastOf(shows[..i + 1])| == |PastOf(shows[..i])| + if shows[i].upcoming then 0 else 1
  {
    SplitStep(shows, i);
    if shows[i].upcoming {
      assert PastOf(shows[..i + 1]) == PastOf(shows[..i]);
      ArtistCardsAppend(t, UpcomingOf(shows[..i]), shows[i]);
    } else {
      assert UpcomingOf(shows[..i + 1]) == UpcomingOf(shows[..i]);
      ArtistCardsAppend(t, PastOf(shows[..i]), shows[i]);
    }
  }

  lemma VenueCardsStep(t: Tables, shows: seq<Show>, i: int)
    requires Consistent(t) && 0 <= i < |shows|
    ensures VenueCards(t, UpcomingOf(shows[..i + 1])) ==
      VenueCards(t, UpcomingOf(shows[..i])) + if shows[i].upcoming then [VenueCardOf(t, shows[i])] else []
    ensures VenueCards(t, PastOf(shows[..i + 1])) ==
      VenueCards(t, PastOf(shows[..i])) + if shows[i].upcoming then [] else [VenueCardOf(t, shows[i])]
    ensures |UpcomingOf(shows[..i + 1])| == |UpcomingOf(shows[..i])| + if shows[i].upcoming then 1 else 0
    ensures |PastOf(shows[..i + 1])| == |PastOf(shows[..i])| + if shows[i].upcoming then 0 else 1
  {
    SplitStep(shows, i);
    if shows[i].upcoming {
      assert PastOf(shows[..i + 1]) == PastOf(shows[..i]);
      VenueCardsAppend(t, UpcomingOf(shows[..i]), shows[i]);
    } else {
      assert UpcomingOf(shows[..i + 1]) == UpcomingOf(shows[..i]);
      VenueCardsAppend(t, PastOf(shows[..i]), shows[i]);
    }
  }

  /** The names of the genres of an association list, in order. */
  function GenreNames(genres: map<int, Genre>, ids: seq<int>): (r: seq<Text>)
    requires forall i :: 0 <= i < |ids| ==> ids[i] in genres
    ensures |r| == |ids| && forall i :: 0 <= i < |ids| ==> r[i] == genres[ids[i]].name
  {
    if ids == [] then []
    else GenreNames(genres, ids[..|ids| - 1]) + [genres[ids[|ids| - 1]].name]
  }

  /** Names as a detail page lists them: every one a non-null cell. */
  function AsShown(names: seq<string>): (r: seq<Text>)
    ensures |r| == |names| && forall i :: 0 <= i < |names| ==> r[i] == Some(names[i])
  {
    seq(|names|, i requires 0 <= i < |names| => Some(names[i]))
  }

  /** The genre list stored for submitted names reads back, on a detail page, as exactly those
      names in submitted order, each name once. */
  lemma AssociationReadsBack(genres: map<int, Genre>, names: seq<string>)
    requires AssociationFor(genres, names).Some?
    ensures GenreNames(genres, AssociationFor(genres, names).value) == AsShown(Unique(names))
  {
    AssociationLooksUp(genres, names);
  }

  /** A value of a detail page's dictionary. */
  datatype Cell = Str(s: string) | Num(n: int) | Flag(b: bool) | Null | Names(names: seq<Text>) | Cards(cards: seq<ShowCard>)

  /** A nullable column as the page shows it. */
  function TextCell(x: Text): Cell {
    match x
    case Some(s) => Str(s)
    case None => Null
  }

  const NotFoundMarker: string := "ID Error: Not Found!"

  /** The dictionary `show_venue` renders, one field per key. */
  datatype VenueData = VenueData(
    id: Cell,
    name: Cell,
    genres: Cell,
    state: Cell,
    city: Cell,
    address: Cell,
    phone: Cell,
    website: Cell,
    facebookLink: Cell,
    seekingTalent: Cell,
    seekingDescription: Cell,
    pastShows: Cell,
    pastShowsCount: Cell,
    upcomingShows: Cell,
    upcomingShowsCount: Cell,
    imageLink: Cell)

  /** The dictionary `show_artist` renders, one field per key. */
  datatype ArtistData = ArtistData(
    id: Cell,
    name: Cell,
    genres: Cell,
    state: Cell,
    city: Cell,
    phone: Cell,
    website: Cell,
    facebookLink: Cell,
    seekingVenue: Cell,
    seekingDescription: Cell,
    pastShows: Cell,
    pastShowsCount: Cell,
    upcomingShows: Cell,
    upcomingShowsCount: Cell,
    imageLink: Cell)

  /** The venue page rendered for an unknown id: the error marker under `id`, the empty string
      under every other key. */
  const VenueNotFound: VenueData := VenueData(
    Str(NotFoundMarker), Str(""), Str(""), Str(""), Str(""), Str(""), Str(""), Str(""), Str(""),
    Str(""), Str(""), Str(""), Str(""), Str(""), Str(""), Str(""))

  /** The artist page rendered for an unknown id. */
  const ArtistNotFound: ArtistData := ArtistData(
    Str(NotFoundMarker), Str(""), Str(""), Str(""), Str(""), Str(""), Str(""), Str(""),
    Str(""), Str(""), Str(""), Str(""), Str(""), Str(""), Str(""))

  /** The venue detail page of `show_venue(venue_id)` for the tables `t`. */
  function VenuePageOf(t: Tables, venueId: int): (page: VenueData)
    requires Consistent(t)
    ensures venueId !in t.venues <==> page == VenueNotFound
    ensures venueId in t.venues ==> page.id == Num(venueId)
  {
    if venueId !in t.venues then VenueNotFound
    else
      var v := t.venues[venueId];
      var d := t.details[v.detailsId];
      var mine := VenueShows(t.shows, venueId);
      VenueData(
        id := Num(venueId),
        name := TextCell(v.name),
        genres := Names(GenreNames(t.genres, v.genres)),
        state := TextCell(d.state),
        city := TextCell(d.city),
        address := TextCell(d.address),
        phone := TextCell(d.phone),
        website := TextCell(d.website),
        facebookLink := TextCell(d.facebookLink),
        seekingTalent := Flag(v.seekingTalent),
        seekingDescription := TextCell(v.seekingText),
        pastShows := Cards(ArtistCards(t, PastOf(mine))),
        pastShowsCount := Num(|PastOf(mine)|),
        upcomingShows := Cards(ArtistCards(t, UpcomingOf(mine))),
        upcomingShowsCount := Num(|UpcomingOf(mine)|),
        imageLink := TextCell(d.imageLink))
  }

  /** The artist detail page of `show_artist(artist_id)` for the tables `t`. */
  function ArtistPageOf(t: Tables, artistId: int): (page: ArtistData)
    requires Consistent(t)
    ensures artistId !in t.artists <==> page == ArtistNotFound
    ensures artistId in t.artists ==> page.id == Num(artistId)
  {
    if artistId !in t.artists then ArtistNotFound
    else
      var a := t.artists[artistId];
      var d := t.details[a.detailsId];
      var mine := ArtistShows(t.shows, artistId);
      ArtistData(
        id := Num(artistId),
        name := TextCell(a.name),
        genres := Names(GenreNames(t.genres, a.genres)),
        state := TextCell(d.state),
        city := TextCell(d.city),
        phone := TextCell(d.phone),
        website := TextCell(d.website),
        facebookLink := TextCell(d.facebookLink),
        seekingVenue := Flag(a.seekingVenue),
        seekingDescription := TextCell(a.seekingText),
        pastShows := Cards(VenueCards(t, PastOf(mine))),
        pastShowsCount := Num(|PastOf(mine)|),
        upcomingShows := Cards(VenueCards(t, UpcomingOf(mine))),
        upcomingShowsCount := Num(|UpcomingOf(mine)|),
        imageLink := TextCell(d.imageLink))
  }

  /** The cards of a show list are the cards of its shows. */
  lemma ArtistCardsOfShows(t: Tables, shows: seq<Show>)
    requires Consistent(t)
    ensures forall c :: c in ArtistCards(t, shows) <==> exists s :: s in shows && c == ArtistCardOf(t, s)
  {
  }

  lemma VenueCardsOfShows(t: Tables, shows: seq<Show>)
    requires Consistent(t)
    ensures forall c :: c in VenueCards(t, shows) <==> exists s :: s in shows && c == VenueCardOf(t, s)
  {
  }

  /** A venue page lists, under `upcoming_shows`, a card for exactly the venue's shows flagged
      upcoming and, under `past_shows`, for exactly the others; each count is the length of its
      list, and the two counts add up to the venue's number of shows. */
  lemma VenuePageShows(t: Tables, venueId: int)
    requires Consistent(t) && venueId in t.venues
    ensures var page := VenuePageOf(t, venueId);
      && page.upcomingShows.Cards? && page.pastShows.Cards?
      && page.upcomingShowsCount == Num(|page.upcomingShows.cards|)
      && page.pastShowsCount == Num(|page.pastShows.cards|)
      && |page.upcomingShows.cards| + |page.pastShows.cards| == |VenueShows(t.shows, venueId)|
      && (forall c :: c in page.upcomingShows.cards <==>
            exists s :: s in t.shows && s.venueId == venueId && s.upcoming && c == ArtistCardOf(t, s))
      && (forall c :: c in page.pastShows.cards <==>
            exists s :: s in t.shows && s.venueId == venueId && !s.upcoming && c == ArtistCardOf(t, s))
  {
    var mine := VenueShows(t.shows, venueId);
    SplitIsPartition(mine);
    ArtistCardsOfShows(t, UpcomingOf(mine));
    ArtistCardsOfShows(t, PastOf(mine));
  }

  /** An artist page lists, under `upcoming_shows`, a card for exactly the artist's shows flagged
      upcoming and, under `past_shows`, for exactly the others; each count is the length of its
      list, and the two counts add up to the artist's number of shows. */
  lemma ArtistPageShows(t: Tables, artistId: int)
    requires Consistent(t) && artistId in t.artists
    ensures var page := ArtistPageOf(t, artistId);
      && page.upcomingShows.Cards? && page.pastShows.Cards?
      && page.upcomingShowsCount == Num(|page.upcomingShows.cards|)
      && page.pastShowsCount == Num(|page.pastShows.cards|)
      && |page.upcomingShows.cards| + |page.pastShows.cards| == |ArtistShows(t.shows, artistId)|
      && (forall c :: c in page.upcomingShows.cards <==>
            exists s :: s in t.shows && s.artistId == artistId && s.upcoming && c == VenueCardOf(t, s))
      && (forall c :: c in page.pastShows.cards <==>
            exists s :: s in t.shows && s.artistId == artistId && !s.upcoming && c == VenueCardOf(t, s))
  {
    var mine := ArtistShows(t.shows, artistId);
    SplitIsPartition(mine);
    VenueCardsOfShows(t, UpcomingOf(mine));
    VenueCardsOfShows(t, PastOf(mine));
  }
}
