# Movie booking backend — a verified model

This project models the core of a small movie-theater booking backend: four
collections (movie, theater, showtime, booking) in a document store, the
request handlers that write them, and the two listings that join them back
together. The one handler with real rules is `create_booking`, which checks a
booking against a showtime's `seats_available` and then decrements it.

Modules, leaf first:

- `Wrappers` (wrappers.dfy): `Option` (Python's `None`) and `Result`.
- `ObjectIds` (object_ids.dfy): store ids as twelve bytes; `IdString` is `str(oid)`
  (24 lower-case hex digits); `ParseObjectId` is `get_objectid`, and `ValidId(s)`
  is the strings it accepts.
- `Documents` (documents.dfy): schema-less documents as dicts from field names to
  values, Python's `str` of a value, and `str_id`.
- `Schemas` (schemas.py's four models): request bodies whose every field may be
  absent, the typed records the handlers receive, the field constraints as
  predicates, and validation from body to record (or the list of violated
  constraints; FastAPI answers 422).
- `Store`: a collection is a map from `_id` to document plus a listing order.
  The store promises no order for an unsorted `find()`; the model fixes
  insertion order. `Db` holds the four collections.
  The module also defines the store invariants (`Collection.Valid`,
  `ReferencesResolve`, `SeatsNonNegative`) and `Sold`, the seats booked for a
  showtime.
- `Handlers`: each handler is a function from the store before a request to the
  store after it and the reply. `Handle` runs schema validation and then the
  handler. `Run` serves a sequence of requests one after another. The lemmas
  about sequences of requests live here too.
- `Backend`: the class `Database`, with one field per collection. Its methods
  do the handlers' steps in the handlers' order, e.g. the booking insert comes
  before the `$inc`. Each method is proved to reach exactly the state and reply
  that the function in `Handlers` gives. `ShowtimeScenarios` and
  `BookingScenarios` replay end-to-end scenarios against these
  contracts alone.

The driver-generated `_id` of a new document and the `datetime.utcnow()`
readings are parameters (`newId`, `now`). `insert_one` under an `_id` that is
already stored fails, as the store's duplicate-key error does; that error is
unhandled, so the reply is a 500 (`DuplicateKey`). Requests never remove
anything, and listings read `this` without a `modifies` clause, so a listing
cannot change the store.

Main results:

- A failed request writes nothing.
- A successful booking adds exactly one booking, carrying this showtime id,
  customer name and seat count. It lowers exactly that showtime's
  `seats_available` by exactly `seats` and changes no movie, theater or other
  showtime.
- Over any sequence of requests, every showtime keeps these properties:
  - its `seats_available` never goes negative and never grows;
  - `seats_available` plus the seats booked for it stays the same;
  - every reference keeps resolving.

  So in any store reachable from an empty one, the listings never yield `None`
  for an expanded field.

Points where the code is looser than one might expect:

- The schema only checks `seats_available >= 0`, and `create_showtime` stores a
  supplied value as given, so it can exceed `total_seats`. `CapacityKept`
  proves that this is the only request that breaks the upper bound.
- `title` and `customer_name` only need to be present, so `""` is accepted.
- "Not enough seats" answers 400, like every other failed check except the
  missing showtime (404).

## Model

| member | source | states |
|---|---|---|
| `ObjectIds.ParseObjectId` | main.py:32-36 | accepts exactly the strings of 24 hex digits (`ValidId`); the id it yields renders as the input in lower case |
| `ObjectIds.IdString` | main.py:28 | the string form of an id is always a valid, lower-case id string |
| `ObjectIds.ParseIdString` | main.py:32-36 | parsing the string form of an id gives the same id back |
| `ObjectIds.IdStringInjective` | main.py:28 | distinct ids have distinct string forms |
| `ObjectIds.ParseIgnoresCase` | main.py:32-36 | two valid id strings name the same id exactly when they agree up to letter case |
| `Documents.StrId` | main.py:25-29 | a falsy document (None or `{}`) comes back unchanged; a document without `_id` raises KeyError; otherwise `_id` is removed, `id` is `str` of the old `_id`, and every other field is kept |
| `Schemas.ValidateMovie` | schemas.py:14-21 | accepted exactly when `title` is present (empty allowed) and `duration_minutes` is absent or at least 1; the record keeps every field, an absent optional field stays absent; otherwise a non-empty error list |
| `Schemas.ValidateTheater` | schemas.py:23-25 | accepted exactly when `name` and `location` are both present; the record keeps both |
| `Schemas.ValidateShowtime` | schemas.py:27-32 | accepted exactly when all four required fields are present, `total_seats >= 1` and `seats_available` is absent or `>= 0`; no bound ties `seats_available` to `total_seats` |
| `Schemas.ValidateBooking` | schemas.py:34-37 | accepted exactly when all three fields are present and `seats >= 1` |
| `Schemas.ValidRecordsRoundTrip` | schemas.py:14-37 | every record meeting its constraints is what validating its own body yields |
| `Store.Collection.FindOne` | main.py:199 | `find_one` by `_id` returns the stored document exactly when the id is stored; in a well-formed collection these are exactly the ids a `find()` lists |
| `Store.Collection.InsertOne` | main.py:78 | `insert_one` succeeds exactly when the `_id` is unused, adds exactly that document at the end of the listing order, and keeps the collection well formed |
| `Store.Collection.Replace` | main.py:221-223 | an update in place keeps the stored ids and their order |
| `Store.ShowtimeDoc.Inc` | main.py:221-223 | `$inc` of `seats_available` by `delta` (from 0 when the field is missing) and `$set` of `updated_at`; no other field changes |
| `Store.BookingDoc.ToDict` | main.py:211-218 | the stored booking document carries its `_id` |
| `Store.SoldInFrame` | main.py:218 | adding a booking under an id not yet listed leaves the seat count over the listed bookings unchanged |
| `Store.SoldAfterInsert` | main.py:210-218 | inserting a booking adds its seats to its own showtime's booked count and nothing to any other's |
| `Handlers.CreateMovie` | main.py:73-79 | success exactly when the id is fresh; then exactly one movie is added under it and the other collections are untouched; failure leaves the store unchanged |
| `Handlers.CreateTheater` | main.py:114-120 | the same for theaters |
| `Handlers.NewShowtimeDoc` | main.py:139-146 | the stored showtime has `seats_available == total_seats` when none was supplied and the supplied value unchanged otherwise; references are the parsed ids |
| `Handlers.CreateShowtime` | main.py:130-149 | "Invalid ID format" exactly when either id is malformed. "Invalid movie_id or theater_id" exactly when both parse but one names nothing stored. Success exactly when both ids parse, both name stored documents and the new id is fresh. Any failure leaves the store unchanged. Success adds exactly one showtime under the fresh id, other collections untouched. Keeps the store well formed, references resolving and, for a valid showtime, no seat count negative |
| `Handlers.CommitBooking` | main.py:210-223 | the two writes of a checked booking: the insert succeeds exactly when the booking id is fresh, and then the booking is added and the showtime decremented (`BookingCommitted`); a failed insert writes nothing |
| `Handlers.CommittedAccounted` | main.py:210-223 | after a booking, each showtime's seats available plus seats booked is unchanged, and none has more seats than before |
| `Handlers.CommittedInvariants` | main.py:207-223 | a booking that passed the seat check keeps every reference resolving and no seat count negative |
| `Handlers.CreateBooking` | main.py:194-225 | 400 for a malformed id, else 404 for an unknown showtime, else 400 for `seats <= 0`, else 400 when `seats` exceeds the seats available (missing counts as 0), each exactly in its case. Success exactly when all four checks pass and the new booking id is fresh. Every failure writes nothing. Success inserts one booking with this showtime id, name and seats, sets that showtime to `old - seats`, and changes no other showtime, movie or theater |
| `Handlers.ShowtimeEntry` | main.py:168-189 | an entry carries the string ids, start time, total seats and seats available (missing as 0). The movie title and the theater name and location are looked up, each None exactly when its reference dangles |
| `Handlers.BookingEntryFields` | main.py:232-242 | an entry is the booking after `str_id` plus `movie_title` and `theater_name`. Both are None when the showtime is missing. Otherwise each is None exactly when its movie or theater is missing |
| `Handlers.MapIdsRows` | main.py:167-190 | the listing loop yields one row per document, in order |
| `Handlers.ShowtimeListing` | main.py:164-190 | one entry per stored showtime, the i-th expanding the i-th in the collection's listing order |
| `Handlers.BookingListing` | main.py:228-243 | one entry per stored booking, the i-th expanding the i-th in the collection's listing order |
| `Handlers.ExpansionsPresent` | main.py:175-187 | when every reference resolves, no listed showtime or booking lacks its expanded fields |
| `Handlers.Handle` | main.py:194-208 | a request validated by its schema never meets the `seats <= 0` branch. A failed request writes nothing. Every request keeps the store well formed, references resolving and seat counts non-negative. No showtime gains seats, and available plus booked is conserved. The reply is a 422 exactly when the body fails its schema |
| `Handlers.RunInvariants` | main.py:203-223 | over any sequence of requests: no seat count goes negative, none ever grows, available plus booked is conserved for every showtime, references keep resolving |
| `Handlers.RunSeats` | main.py:203-223 | the seat results of `RunInvariants` without referential integrity: even with dangling references, no seat count goes negative or grows and available plus booked is conserved over any sequence of requests |
| `Handlers.CapacityKept` | main.py:139-140 | `seats_available <= total_seats` survives every request except a successful showtime creation with a supplied `seats_available` above `total_seats` |
| `Handlers.ReachableStores` | main.py:134-137 | every store reachable from an empty one satisfies the invariants, so its showtime listing always finds the movie |
| `Backend.Database.CreateMovie` | main.py:73-79 | ends in the state and reply `Handlers.CreateMovie` gives, keeping the object valid |
| `Backend.Database.CreateTheater` | main.py:114-120 | ends in the state and reply `Handlers.CreateTheater` gives |
| `Backend.Database.CreateShowtime` | main.py:130-149 | parses and checks in the handler's order; ends in the state and reply `Handlers.CreateShowtime` gives |
| `Backend.Database.CreateBooking` | main.py:194-225 | checks in the handler's order, inserts the booking, then applies `$inc`; ends in the state and reply `Handlers.CreateBooking` gives |
| `Backend.Database.ListShowtimes` | main.py:164-190 | the loop returns exactly `Handlers.ShowtimeListing` of the current store and modifies nothing |
| `Backend.Database.ListBookings` | main.py:228-243 | the loop returns exactly `Handlers.BookingListing` of the current store and modifies nothing |

## Left out

- FastAPI routing, CORS, the `/` and `/test` endpoints, uvicorn startup and environment variables (main.py:13-21, 39-69, 246-250): framework and I/O plumbing.
- `/movies/upload` (main.py:82-104): it reads an optional file asynchronously and base64-encodes it with library code. It then calls `create_movie` with `poster_image` either None (no file) or a data-URL string. The handler builds the `Movie` itself, so a `duration_minutes` below 1 fails inside the handler with a 500, not a 422. Neither path is modelled.
- `list_movies` and `list_theaters` (main.py:107-110, 123-126): they apply `str_id` to each document of one collection, and `StrId` states what that does.
- The database driver: replaced by in-memory maps. `update_one` with `$inc` is an ordinary sequential update. The atomicity the store gives concurrent callers is not expressed.
- BSON integer width: the store holds at most 8-byte integers, so inserting a `total_seats`, `seats_available` or `duration_minutes` of 2^63 or more raises `OverflowError` (a 500, nothing written). The model stores any `int` and answers success.
- `find()` order: unspecified by the store for an unsorted query. The model lists in insertion order. The source promises only one entry per stored document, so `ShowtimeListing` and `BookingListing` fix an order the program does not guarantee.
- Concurrency: the oversell race (two bookings both passing the seat check) cannot arise in a sequential model.
- Partial failure: a crash between the booking insert and the decrement (main.py:218-223) cannot arise either. The model does keep the two writes in that order.
- Clocks: `datetime.utcnow()` is one opaque `now` per request. The handlers read the clock several times, so `created_at` and `updated_at` may in fact differ by microseconds.
- `start_time`: an opaque value. Pydantic's parsing of datetime strings is not modelled.
- Id generation: ObjectId generation (time, random and counter bytes) is the `newId` parameter.
- Id parsing: `bytes.fromhex`'s tolerance of whitespace inside a 24-character string is not modelled; such strings are rejected here.
- The dead expression at main.py:171 never executes.
- Pydantic details: the coercion of numeric strings (including the `str` to `int` case at main.py:203) is not modelled. The error list gives field names and the violated bound, not pydantic's messages.
- Stored documents: only a missing `seats_available` is representable. The listing's defaults for a missing `movie_id`, `theater_id` or `total_seats` (main.py:180-183) apply only to documents written by other programs.
- Response encoding: FastAPI's serialisation is not modelled, including of the ObjectId left in a booking's `showtime_id` (main.py:212, 242).
- Handlers.ShowtimeEntry: takes the entry's `id` as `IdString` of the key. The source reads it from `str_id(d)["id"]`, which `StrId` shows to be the same string. The in-place `pop`, and with it aliasing of the document `d`, is not modelled.
