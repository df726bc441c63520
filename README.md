# Fyyur booking directory — a verified model of its request handlers

Fyyur lists music venues and artists and the shows that bring them together. `app.py` is a
Flask application over a SQLAlchemy database of five kinds of record. Genre, Details
(location and contact data shared by venues and artists), Venue and Artist rows are keyed by
primary key. Show rows link an artist to a venue at a start time, with an `upcoming` flag. This
project models, in Dafny, the handlers that read and write those tables:

* the venue listing grouped by city and state (`venues()`);
* the venue and artist detail pages (`show_venue`, `show_artist`);
* the create and edit submissions for venues and artists, and show creation.

The model is split into four modules:

* `Strings` (`strings.dfy`): Python's `str.strip()`, which the submission handlers apply to
  most text fields (the artist edit stores the phone number as submitted).
* `Schema` (`schema.dfy`): the tables as values (`Tables`) and the integrity the schema enforces
  (`Consistent`: primary keys, non-null foreign keys, the association tables' composite keys).
  It also holds SQLAlchemy's `.one()` over a query's matches (`One`, `RunOne`), and the genre
  lookups a submission runs (`LookUpGenres`, `AssociationFor`).
* `Views` (`views.dfy`): what the read handlers compute, as functions of the tables. This
  covers the listing's grouping (`IsGrouping`) and the detail page dictionaries (`VenuePageOf`,
  `ArtistPageOf`, rendered as the records `VenueData` and `ArtistData`).
* `Store` (`store.dfy`): the database session as a class `Database`. Its fields are the five
  tables; the handlers are methods that read or update those fields in place. `Rollback`
  restores the last committed state. Each read method is proved to compute its `Views`
  function. Each write method is proved to leave one of two states:
  * exactly the committed tables described by `VenueEdited`, `ArtistEdited`, `VenueCreated`,
    `ArtistCreated` or `NewShow`;
  * or the previous state, less what a failed transaction does not undo.

  The same module proves what a detail page shows after each committed write.

Outcomes follow the handlers' control flow:

* `Committed`: the try block's commit succeeded.
* `RolledBack`: an exception inside the try block. The cases are:
  * a genre name matching no Genre row or several;
  * a Facebook link that was already in use when a venue or artist is created (the lookup by link
    then matches several rows);
  * a show whose artist or venue does not exist.
* `Aborted`: an exception before the try block, so the request ends in a server error with
  nothing written. The cases are:
  * an edit of an unknown id: `one_or_none()` yields `None` and the next attribute access fails;
  * a show whose start time did not parse: the form yields `None`, and comparing it with the
    clock fails.

A genre name submitted twice stores its genre once, at its first position. This rests on an
assumption about the session: each `Genre.query…one()` in the genre loop first flushes what the
previous rounds appended, and appending a row the collection already holds then adds no second
association row (see `Schema.AssociationFor` under "Left out").

The create handlers commit in two steps. The new Details row is committed on its own first, and
a failure after that point rolls back only the second step, so that row stays in the database.
The comments at app.py:348-349 and app.py:765-766 describe this order: commit the Details row,
then find it again by its Facebook link. `CreateVenue` and `CreateArtist` state that the Details
row is always added.

## Model

| member | source | states |
|---|---|---|
| Strings.StripIsStrip | app.py:340-345 | `Strip(s)` is a slice of `s` with no whitespace at either end, and everything cut off on either side is whitespace (Python's `isspace` set). |
| Strings.StripUnique | app.py:340-345 | Any slice of `s` with that property is `Strip(s)`, so Strip is the one stripping. |
| Strings.StripIdempotent | app.py:340-345 | Stripping a stripped value changes nothing. |
| Strings.StripLeftKeepsSuffix | app.py:340-345 | The left strip keeps a suffix that does not start with whitespace and drops only whitespace. |
| Strings.StripRightKeepsPrefix | app.py:340-345 | The right strip keeps a prefix that does not end with whitespace and drops only whitespace. |
| Schema.One | app.py:355 | `.one()` yields a row exactly when the query matched exactly one, and then it yields that row. |
| Schema.RunOne | app.py:355 | Executing `.one()` returns what `One` specifies. |
| Schema.LookUpGenres | app.py:360-361 | The genre loop succeeds exactly when every submitted name matches exactly one Genre row; it then yields, position by position, that row. |
| Schema.DistinctLookups | app.py:360-361 | The looked-up genre rows repeat exactly when the submitted names repeat. |
| Schema.Unique | app.py:360-361 | Dropping repeats leaves a list with no duplicates holding exactly the elements of the original. |
| Schema.UniqueOfDistinct | app.py:360-361 | A list without repeats is left as it is. |
| Schema.UniqueLookups | app.py:360-361 | Looking up the names with repeats dropped gives the looked-up rows with repeats dropped. |
| Schema.AssociationFor | app.py:45-54 | The stored genre list exists exactly when every name matches one row. It then holds existing rows, none twice, as the association tables' composite keys require. |
| Schema.AssociationLooksUp | app.py:360-361 | The stored genre list is the lookup of the submitted names with repeats dropped: one row per distinct name, carrying that name, in first-submitted order. |
| Schema.ResubmitShownNames | app.py:724-726 | Submitting the names a stored list reads back as (the submitted names with repeats dropped) stores the same list, or fails the same way. |
| Views.Places | app.py:167-169 | The set of places holds the (city, state) of every listed venue and nothing else. |
| Views.VenuesAt | app.py:178-187 | The venue entries of a place are exactly the listed venues located there, each with its id and name. |
| Views.AreasGrow | app.py:175-192 | One more turn of the grouping loop keeps the invariant: areas for exactly the places handled so far, none twice, each holding the venues located there. |
| Views.GroupingIsPartition | app.py:175-192 | In a grouping every area is non-empty and every listed venue appears in exactly one area: the one at its own city and state. |
| Views.EveryVenueGrouped | app.py:175-192 | In a grouping, every listed venue appears in some area. |
| Views.AreasNonEmpty | app.py:175-192 | In a grouping, no area is empty. |
| Views.GroupedAtOwnPlace | app.py:179-181 | A venue listed in an area is located at that area's city and state. |
| Views.VenueShows | app.py:246 | A venue's show list holds exactly the shows whose venue it is. |
| Views.ArtistShows | app.py:480 | An artist's show list holds exactly the shows whose artist it is. |
| Views.UpcomingOf | app.py:253-261 | The upcoming part holds exactly the shows flagged upcoming. |
| Views.PastOf | app.py:263-271 | The past part holds exactly the shows not flagged upcoming. |
| Views.SplitIsPartition | app.py:253-271 | Upcoming and past split a show list: as multisets they add up to the list, and their lengths add up to its length. |
| Views.ArtistCards | app.py:256-261 | One card per show, in order, each the show's artist entry. |
| Views.VenueCards | app.py:490-495 | One card per show, in order, each the show's venue entry. |
| Views.ArtistCardsOfShows | app.py:256-261 | A card is listed exactly when it is the card of one of the shows. |
| Views.VenueCardsOfShows | app.py:490-495 | A card is listed exactly when it is the card of one of the shows. |
| Views.GenreNames | app.py:274-275 | The genre names list the venue's or artist's genres, in order, each by name. |
| Views.AssociationReadsBack | app.py:274-275 | A stored genre list reads back on a page as exactly the submitted names, in submitted order, each name once. |
| Views.VenuePageOf | app.py:231-323 | An unknown id gives the not-found page (error marker under `id`, empty string elsewhere), and only an unknown id gives it; a known id is shown under `id`. |
| Views.ArtistPageOf | app.py:466-553 | An unknown id gives the not-found page, and only an unknown id gives it; a known id is shown under `id`. |
| Views.VenuePageShows | app.py:239-293 | The venue page lists under `upcoming_shows` the cards of exactly the venue's shows flagged upcoming, and under `past_shows` exactly the others. Each count is its list's length, and the two counts add up to the venue's number of shows. |
| Views.ArtistPageShows | app.py:473-526 | The same for an artist page and the artist's shows. |
| Store.NewShow | app.py:848-856 | The new show is flagged upcoming exactly when it starts after the moment of submission, and it carries the submitted artist, venue and start time. |
| Store.VenueEditKeepsConsistent | app.py:714-728 | A committed venue edit keeps the schema's integrity. |
| Store.ArtistEditKeepsConsistent | app.py:622-636 | A committed artist edit keeps the schema's integrity. |
| Store.VenueCreateKeepsConsistent | app.py:350-365 | A committed venue creation keeps the schema's integrity. |
| Store.ArtistCreateKeepsConsistent | app.py:767-782 | A committed artist creation keeps the schema's integrity. |
| Store.InsertDetailsKeepsConsistent | app.py:351-353 | The first commit of a creation, a Details row under a fresh key, keeps integrity. |
| Store.InsertShowKeepsConsistent | app.py:856-858 | A show between an existing artist and an existing venue, under a fresh id, keeps integrity. |
| Store.LookUpInsertedDetails | app.py:353-355 | After the Details row is inserted, the lookup by its Facebook link finds exactly that row when no earlier row had the link, and fails otherwise. |
| Store.EditedVenuePage | app.py:715-728 | After a committed venue edit, the page shows the trimmed name, city, state, phone and Facebook link, and exactly the submitted genre names in order, each once. The address and both show lists are as before. |
| Store.EditedArtistPage | app.py:623-636 | After a committed artist edit, the page shows the trimmed name, city, state and Facebook link, the phone as submitted, and exactly the submitted genre names in order, each once. Both show lists are as before. |
| Store.ReplacedVenuePage | app.py:715-719 | Replacing a venue row and its Details row (same keys, same image) changes the page's fields to the new rows' values and leaves its show lists unchanged. |
| Store.ReplacedArtistPage | app.py:623-627 | The same for an artist. |
| Store.ArtistCardsUnchanged | app.py:256-261 | Show cards depend only on the artists' names and the image links of their Details rows. |
| Store.VenueCardsUnchanged | app.py:490-495 | Show cards depend only on the venues' names and the image links of their Details rows. |
| Store.VenueResubmitIsNoOp | app.py:701-728 | Submitting the venue edit form again with the values just stored changes nothing. |
| Store.ArtistResubmitIsNoOp | app.py:608-636 | Submitting the artist edit form again with the values just stored changes nothing. |
| Store.CreatedVenuePage | app.py:351-365 | A newly created venue's page shows its id, the trimmed fields and address, no website or image, not seeking talent, no seeking text, exactly the submitted genre names in order, each once, and no shows. |
| Store.CreatedArtistPage | app.py:768-782 | A newly created artist's page shows the same for an artist: the trimmed fields, no website or image, the submitted genre names and no shows. |
| Store.NoShowsYet | app.py:246 | A venue id that is not yet in the Venue table has no shows in consistent tables. |
| Store.NoArtistShowsYet | app.py:480 | An artist id that is not yet in the Artist table has no shows. |
| Store.CreatedShowListed | app.py:856-858 | A new show goes to the end of its venue's and its artist's show lists and of exactly one of the upcoming and past parts. Every other venue's and artist's lists are unchanged. |
| Store.Database.constructor | app.py:37-130 | A session over consistent tables, holding exactly those tables. |
| Store.Database.Rollback | app.py:368 | `db.session.rollback()` restores the last committed tables. |
| Store.Database.PlacesOfListing | app.py:167-172 | The first pass of `venues()` computes exactly the places of the listed venues. |
| Store.Database.VenuesOfPlace | app.py:178-187 | The inner loop of `venues()` computes exactly the venue entries of a place. |
| Store.Database.VenueAreas | app.py:157-196 | `venues()` returns a grouping of all venues by city and state. |
| Store.Database.VenueShowLists | app.py:239-271 | The loop over a venue's shows computes exactly the upcoming and past card lists and their counts. |
| Store.Database.ArtistShowLists | app.py:473-505 | The loop over an artist's shows computes exactly the upcoming and past card lists and their counts. |
| Store.Database.GenreNamesOf | app.py:274-275 | The genre loop of a detail page computes exactly the genre names. |
| Store.Database.VenuePage | app.py:226-323 | `show_venue` renders exactly `VenuePageOf` of the current tables. |
| Store.Database.ArtistPage | app.py:461-553 | `show_artist` renders exactly `ArtistPageOf` of the current tables. |
| Store.GenreRowsStep | app.py:725-726 | One round of the genre loop: a failed lookup leaves no stored list; a successful one appends its row unless the collection already holds it. |
| Store.Database.GenreRows | app.py:725-726 | The genre loop computes exactly the stored list `AssociationFor`, failing at the first failed lookup. |
| Store.Database.EditVenue | app.py:695-740 | The outcome is `Aborted` exactly for an unknown id, and `Committed` exactly when the id is known and the genre names give a valid association. A commit leaves exactly `VenueEdited`; any other outcome leaves the tables unchanged. Integrity is kept. |
| Store.Database.EditArtist | app.py:602-648 | The same for an artist, with `ArtistEdited`. |
| Store.Database.CreateVenue | app.py:333-381 | Never aborts. It commits exactly when no earlier Details row has the submitted Facebook link and the genre names give a valid association. A commit leaves exactly `VenueCreated`; otherwise only the new Details row is added. Integrity is kept. |
| Store.Database.CreateArtist | app.py:750-798 | The same for an artist, with `ArtistCreated`. |
| Store.Database.CreateShow | app.py:836-874 | Aborts, writing nothing, exactly when the start time did not parse (the comparison with the clock raises before the try block). Otherwise it commits exactly when the artist and the venue exist; a commit appends exactly `NewShow` to the Show table, otherwise nothing changes. Integrity is kept. |

## Left out

- Searching venues and artists (app.py:198-224, app.py:433-459): not part of this model.
- Deleting a venue (app.py:383-412): not part of this model.
- The date formatting filter (app.py:136-144) and `str(show.start_time)`: start times are plain integers on a fixed clock scale, and pages carry them as such.
- Flask plumbing: routing, templates, `flash`, `redirect`, the error handlers (app.py:876-882) and logging (app.py:884-892). A handler's result is its `Outcome` or the page record.
- The artist and show listings and the GET handlers that pre-fill the edit forms are not part of this model.
- The clock: `datetime.now()` is the parameter `now` of `CreateShow`.
- Primary keys assigned by the database are parameters (`detailsId`, `venueId`, `artistId`, `showId`), required to be fresh.
- The row order of `Venue.query.all()` is the parameter `listing`. The order of the areas, which comes from iterating a Python set, is left free by `IsGrouping`.
- Relationship collections (`venue.shows`, `venue.genres`) are read in storage and insertion order; SQL leaves that order unspecified.
- Column length limits (`String(120)` for city, state, phone and Facebook link; `String(500)` for the image link): an over-long value would make the commit fail. The model stores strings of any length.
- A form field that is missing (`None.strip()` raises before the try block) is not modelled; forms carry strings.
- Store.Database.CreateShow: the show form's artist and venue ids are strings (stripped, then converted by the database); the model takes them as integers, so a non-numeric id is not modelled.
- Views.ArtistCardOf and Views.VenueCardOf: a show whose artist or venue row is missing would make the page's `.one()` raise. Consistent tables exclude that case, and the model gives such a show a blank card instead.
- Schema.AssociationFor: a repeated genre name is modelled as stored once. That rests on SQLAlchemy's default autoflush before each `Genre.query` and on its collection history, which does not count a row the collection already held at the last flush as new. For a creation, it further rests on the new venue or artist entering the session through the `Genre.venues`/`Genre.artists` backref before the next lookup (the backref cascade of SQLAlchemy before 2.0). A session without these would insert the same association row twice, and the commit would fail and roll back.
- Concurrency between requests and session lifetime (`db.session.close()`): each handler runs alone against the committed tables.
