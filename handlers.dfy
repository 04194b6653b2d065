/**
 * The request handlers of the booking backend, as functions from the store's
 * state before a request to the state after it and the reply. Generated ids
 * and clock readings come in as the parameters `newId` and `now`.
 */
module Handlers {
  import opened Wrappers
  import opened ObjectIds
  import opened Documents
  import opened Schemas
  import opened Store

  datatype ApiError =
    | Unprocessable(errors: seq<FieldError>)  // the request body failed its schema
    | InvalidIdFormat                         // `get_objectid` rejected a string
    | InvalidReference                        // a showtime's movie or theater does not exist
    | ShowtimeNotFound                        // a booking's showtime does not exist
    | SeatsNotPositive
    | NotEnoughSeats
    | DuplicateKey                            // `insert_one` under an `_id` already stored
  {
    function Status(): int {
      match this
      case Unprocessable(_) => 422
      case ShowtimeNotFound => 404
      case DuplicateKey => 500
      case _ => 400
    }
  }

  /** The store after a request, and either the new document's id (the reply `{"id": str(id)}`) or the error. */
  datatype Reply = Reply(db: Db, result: Result<ObjectId, ApiError>)

  /** For every showtime of `db`: still stored in `db'`, with no more seats available, and seats available plus seats booked unchanged. */
  ghost predicate SeatsAccounted(db: Db, db': Db) {
    forall k | k in db.showtime.docs ::
      && k in db'.showtime.docs
      && db'.showtime.docs[k].Available() <= db.showtime.docs[k].Available()
      && db'.showtime.docs[k].Available() + Sold(db', k) == db.showtime.docs[k].Available() + Sold(db, k)
  }

  // ------------------------------------------------------------ creation

  /** `create_movie`: one new movie under the fresh id; nothing else changes. */
  function CreateMovie(db: Db, m: Movie, newId: ObjectId, now: Timestamp): (r: Reply)
    ensures r.result.Success? <==> newId !in db.movie.docs
    ensures r.result.Failure? ==> r.result.error == DuplicateKey && r.db == db
    ensures r.result.Success? ==>
      && r.result.value == newId
      && r.db.movie.docs == db.movie.docs[newId := MovieDoc(m, now, now)]
      && r.db.movie.order == db.movie.order + [newId]
      && r.db.theater == db.theater && r.db.showtime == db.showtime && r.db.booking == db.booking
    ensures db.Valid() ==> r.db.Valid()
  {
    match db.movie.InsertOne(newId, MovieDoc(m, now, now))
    case None => Reply(db, Failure(DuplicateKey))
    case Some(c) => Reply(db.(movie := c), Success(newId))
  }

  /** `create_theater`: one new theater under the fresh id; nothing else changes. */
  function CreateTheater(db: Db, t: Theater, newId: ObjectId, now: Timestamp): (r: Reply)
    ensures r.result.Success? <==> newId !in db.theater.docs
    ensures r.result.Failure? ==> r.result.error == DuplicateKey && r.db == db
    ensures r.result.Success? ==>
      && r.result.value == newId
      && r.db.theater.docs == db.theater.docs[newId := TheaterDoc(t, now, now)]
      && r.db.theater.order == db.theater.order + [newId]
      && r.db.movie == db.movie && r.db.showtime == db.showtime && r.db.booking == db.booking
    ensures db.Valid() ==> r.db.Valid()
  {
    match db.theater.InsertOne(newId, TheaterDoc(t, now, now))
    case None => Reply(db, Failure(DuplicateKey))
    case Some(c) => Reply(db.(theater := c), Success(newId))
  }

  /** The document `create_showtime` stores: parsed references, `seats_available` defaulted to `total_seats`. */
  function NewShowtimeDoc(s: Showtime, movieId: ObjectId, theaterId: ObjectId, now: Timestamp): (d: ShowtimeDoc)
    ensures d.seatsAvailable == Some(if s.seatsAvailable.None? then s.totalSeats else s.seatsAvailable.value)
    ensures d.movieId == movieId && d.theaterId == theaterId && d.startTime == s.startTime && d.totalSeats == s.totalSeats
    ensures d.createdAt == now && d.updatedAt == now
  {
    var seats := if s.seatsAvailable.None? then s.totalSeats else s.seatsAvailable.value;
    ShowtimeDoc(movieId, theaterId, s.startTime, s.totalSeats, Some(seats), now, now)
  }

  /**
   * `create_showtime`: the movie id is parsed first and the theater id second
   * (either malformed: "Invalid ID format"), then both must name stored
   * documents ("Invalid movie_id or theater_id"), and only then is the
   * showtime inserted.
   */
  function CreateShowtime(db: Db, s: Showtime, newId: ObjectId, now: Timestamp): (r: Reply)
    ensures r.result == Failure(InvalidIdFormat) <==> !ValidId(s.movieId) || !ValidId(s.theaterId)
    ensures r.result == Failure(InvalidReference) <==>
      ValidId(s.movieId) && ValidId(s.theaterId) &&
      (ParseObjectId(s.movieId).value !in db.movie.docs || ParseObjectId(s.theaterId).value !in db.theater.docs)
    ensures r.result.Failure? ==> r.result.error in {InvalidIdFormat, InvalidReference, DuplicateKey} && r.db == db
    ensures r.result.Success? <==>
      ValidId(s.movieId) && ValidId(s.theaterId) &&
      ParseObjectId(s.movieId).value in db.movie.docs && ParseObjectId(s.theaterId).value in db.theater.docs &&
      newId !in db.showtime.docs
    ensures r.result.Success? ==>
      && r.result.value == newId && newId !in db.showtime.docs
      && r.db.showtime.docs == db.showtime.docs[newId := NewShowtimeDoc(s, ParseObjectId(s.movieId).value, ParseObjectId(s.theaterId).value, now)]
      && r.db.showtime.order == db.showtime.order + [newId]
      && r.db.movie == db.movie && r.db.theater == db.theater && r.db.booking == db.booking
      && IdString(r.db.showtime.docs[newId].movieId) == Lower(s.movieId)
      && IdString(r.db.showtime.docs[newId].theaterId) == Lower(s.theaterId)
    ensures db.Valid() ==> r.db.Valid()
    ensures ReferencesResolve(db) ==> ReferencesResolve(r.db)
    ensures ShowtimeValid(s) && SeatsNonNegative(db) ==> SeatsNonNegative(r.db)
  {
    match ParseObjectId(s.movieId)
    case None => Reply(db, Failure(InvalidIdFormat))
    case Some(movieId) =>
      var movieExists := movieId in db.movie.docs;
      match ParseObjectId(s.theaterId)
      case None => Reply(db, Failure(InvalidIdFormat))
      case Some(theaterId) =>
        var theaterExists := theaterId in db.theater.docs;
        if !movieExists || !theaterExists then Reply(db, Failure(InvalidReference))
        else
          match db.showtime.InsertOne(newId, NewShowtimeDoc(s, movieId, theaterId, now))
          case None => Reply(db, Failure(DuplicateKey))
          case Some(c) => Reply(db.(showtime := c), Success(newId))
  }

  // ------------------------------------------------------------- booking

  /** The booking `create_booking` inserts. */
  function NewBookingDoc(sid: ObjectId, b: Booking, now: Timestamp): BookingDoc {
    BookingDoc(sid, b.customerName, b.seats, now, now)
  }

  /** What a successful booking did: one booking added for `sid`, that showtime down by `b.seats`, nothing else touched. */
  ghost predicate BookingCommitted(db: Db, db': Db, sid: ObjectId, b: Booking, newId: ObjectId, now: Timestamp) {
    && sid in db.showtime.docs && newId !in db.booking.docs
    && db'.booking.docs == db.booking.docs[newId := NewBookingDoc(sid, b, now)]
    && db'.booking.order == db.booking.order + [newId]
    && db'.showtime.docs.Keys == db.showtime.docs.Keys
    && db'.showtime.docs[sid].Available() == db.showtime.docs[sid].Available() - b.seats
    && db'.showtime.docs[sid] == db.showtime.docs[sid].Inc(-b.seats, now)
    && (forall k | k in db.showtime.docs && k != sid :: db'.showtime.docs[k] == db.showtime.docs[k])
    && db'.showtime.order == db.showtime.order
    && db'.movie == db.movie && db'.theater == db.theater
  }

  /** A committed booking keeps every showtime's seats available plus seats booked as it was. */
  lemma CommittedAccounted(db: Db, db': Db, sid: ObjectId, b: Booking, newId: ObjectId, now: Timestamp)
    requires BookingCommitted(db, db', sid, b, newId, now) && 0 < b.seats
    ensures db.booking.Valid() ==> SeatsAccounted(db, db')
  {
    forall k | k in db.showtime.docs && db.booking.Valid()
      ensures k in db'.showtime.docs && db'.showtime.docs[k].Available() <= db.showtime.docs[k].Available()
      ensures db'.showtime.docs[k].Available() + Sold(db', k) == db.showtime.docs[k].Available() + Sold(db, k)
    {
      SoldAfterInsert(db, newId, NewBookingDoc(sid, b, now), k);
      assert Sold(db', k) == Sold(db.(booking := db'.booking), k);
    }
  }

  /** A committed booking that passed the seat check keeps every reference resolving and no seat count negative. */
  lemma CommittedInvariants(db: Db, db': Db, sid: ObjectId, b: Booking, newId: ObjectId, now: Timestamp)
    requires BookingCommitted(db, db', sid, b, newId, now) && b.seats <= db.showtime.docs[sid].Available()
    ensures ReferencesResolve(db) ==> ReferencesResolve(db')
    ensures SeatsNonNegative(db) ==> SeatsNonNegative(db')
  {
    if ReferencesResolve(db) {
      forall k | k in db'.booking.docs ensures db'.booking.docs[k].showtimeId in db'.showtime.docs {
        if k != newId { assert db'.booking.docs[k] == db.booking.docs[k]; }
      }
      forall k | k in db'.showtime.docs
        ensures db'.showtime.docs[k].movieId in db'.movie.docs && db'.showtime.docs[k].theaterId in db'.theater.docs
      {
        assert db'.showtime.docs[k].movieId == db.showtime.docs[k].movieId;
      }
    }
  }

  /** The two writes of a booking that passed its checks: insert the booking, then `$inc` the showtime by `-seats`. */
  function CommitBooking(db: Db, sid: ObjectId, b: Booking, newId: ObjectId, now: Timestamp): (r: Reply)
    requires sid in db.showtime.docs && 0 < b.seats <= db.showtime.docs[sid].Available()
    ensures r.result.Success? <==> newId !in db.booking.docs
    ensures r.result.Failure? ==> r.result.error == DuplicateKey && r.db == db
    ensures r.result.Success? ==> r.result.value == newId && BookingCommitted(db, r.db, sid, b, newId, now)
    ensures db.Valid() ==> r.db.Valid()
  {
    var st := db.showtime.docs[sid];
    match db.booking.InsertOne(newId, NewBookingDoc(sid, b, now))
    case None => Reply(db, Failure(DuplicateKey))
    case Some(bookings) =>
      Reply(db.(booking := bookings, showtime := db.showtime.Replace(sid, st.Inc(-b.seats, now))), Success(newId))
  }

  /**
   * `create_booking`: checks, in order, that the showtime id parses (400),
   * that the showtime exists (404), that `seats > 0` and that `seats` does not
   * exceed the seats available (400 each); only then inserts the booking and
   * decrements the showtime's `seats_available` by `seats`.
   */
  function CreateBooking(db: Db, b: Booking, newId: ObjectId, now: Timestamp): (r: Reply)
    ensures r.result == Failure(InvalidIdFormat) <==> !ValidId(b.showtimeId)
    ensures r.result == Failure(ShowtimeNotFound) <==> ValidId(b.showtimeId) && ParseObjectId(b.showtimeId).value !in db.showtime.docs
    ensures r.result == Failure(SeatsNotPositive) <==>
      ValidId(b.showtimeId) && ParseObjectId(b.showtimeId).value in db.showtime.docs && b.seats <= 0
    ensures r.result == Failure(NotEnoughSeats) <==>
      ValidId(b.showtimeId) && ParseObjectId(b.showtimeId).value in db.showtime.docs && 0 < b.seats &&
      b.seats > db.showtime.docs[ParseObjectId(b.showtimeId).value].Available()
    ensures r.result.Failure? ==> !r.result.error.InvalidReference? && !r.result.error.Unprocessable? && r.db == db
    ensures r.result.Success? <==>
      ValidId(b.showtimeId) && ParseObjectId(b.showtimeId).value in db.showtime.docs &&
      0 < b.seats <= db.showtime.docs[ParseObjectId(b.showtimeId).value].Available() &&
      newId !in db.booking.docs
    ensures r.result.Success? ==>
      && r.result.value == newId
      && 0 < b.seats <= db.showtime.docs[ParseObjectId(b.showtimeId).value].Available()
      && BookingCommitted(db, r.db, ParseObjectId(b.showtimeId).value, b, newId, now)
    ensures db.Valid() ==> r.db.Valid() && SeatsAccounted(db, r.db)
    ensures ReferencesResolve(db) ==> ReferencesResolve(r.db)
    ensures SeatsNonNegative(db) ==> SeatsNonNegative(r.db)
  {
    match ParseObjectId(b.showtimeId)
    case None => Reply(db, Failure(InvalidIdFormat))
    case Some(sid) =>
      match db.showtime.FindOne(sid)
      case None => Reply(db, Failure(ShowtimeNotFound))
      case Some(st) =>
        var available := st.Available();
        if b.seats <= 0 then Reply(db, Failure(SeatsNotPositive))
        else if b.seats > available then Reply(db, Failure(NotEnoughSeats))
        else
          var r := CommitBooking(db, sid, b, newId, now);
          if r.result.Success? then
            CommittedInvariants(db, r.db, sid, b, newId, now);
            CommittedAccounted(db, r.db, sid, b, newId, now);
            r
          else r
  }

  // ------------------------------------------------------------- listing

  /** One element of the `GET /showtimes` reply (`ShowtimeOut`). */
  datatype ShowtimeOut = ShowtimeOut(id: string, movieId: string, theaterId: string, startTime: Timestamp,
                                     totalSeats: int, seatsAvailable: int,
                                     movieTitle: Option<string>, theaterName: Option<string>, theaterLocation: Option<string>)

  /**
   * The entry `list_showtimes` builds for the showtime `d` stored under `id`:
   * ids by their string form, and the movie's title and the theater's name
   * and location looked up, None when the reference is dangling.
   */
  function ShowtimeEntry(db: Db, id: ObjectId, d: ShowtimeDoc): (r: ShowtimeOut)
    ensures r.id == IdString(id) && r.movieId == IdString(d.movieId) && r.theaterId == IdString(d.theaterId)
    ensures r.startTime == d.startTime && r.totalSeats == d.totalSeats && r.seatsAvailable == d.Available()
    ensures r.movieTitle == (if d.movieId in db.movie.docs then Some(db.movie.docs[d.movieId].movie.title) else None)
    ensures r.theaterName == (if d.theaterId in db.theater.docs then Some(db.theater.docs[d.theaterId].theater.name) else None)
    ensures r.theaterLocation == (if d.theaterId in db.theater.docs then Some(db.theater.docs[d.theaterId].theater.location) else None)
  {
    var movie := db.movie.FindOne(d.movieId);
    var theater := db.theater.FindOne(d.theaterId);
    ShowtimeOut(IdString(id), IdString(d.movieId), IdString(d.theaterId), d.startTime, d.totalSeats, d.Available(),
                if movie.Some? then Some(movie.value.movie.title) else None,
                if theater.Some? then Some(theater.value.theater.name) else None,
                if theater.Some? then Some(theater.value.theater.location) else None)
  }

  /** `(movie or {}).get("title")` rendered as a dict value. */
  function TitleOf(movie: Option<MovieDoc>): Value {
    if movie.Some? then Text(movie.value.movie.title) else Null
  }

  function NameOf(theater: Option<TheaterDoc>): Value {
    if theater.Some? then Text(theater.value.theater.name) else Null
  }

  /**
   * The entry `list_bookings` builds for the booking `d` stored under `id`:
   * the document after `str_id`, plus `movie_title` and `theater_name` found
   * through its showtime (both None when the showtime is missing).
   */
  function BookingEntry(db: Db, id: ObjectId, d: BookingDoc): Dict
  {
    var sd := StrId(Some(d.ToDict(id))).value.value;
    var st := db.showtime.FindOne(d.showtimeId);
    var movie := if st.Some? then db.movie.FindOne(st.value.movieId) else None;
    var theater := if st.Some? then db.theater.FindOne(st.value.theaterId) else None;
    sd["movie_title" := TitleOf(movie)]["theater_name" := NameOf(theater)]
  }

  /**
   * What a `list_bookings` entry holds: the booking's own fields with `id` in
   * place of `_id`, and `movie_title` and `theater_name` found through its
   * showtime, None when the showtime, movie or theater is missing.
   */
  lemma BookingEntryFields(db: Db, id: ObjectId, d: BookingDoc)
    ensures var r := BookingEntry(db, id, d);
      r.Keys == {"id", "showtime_id", "customer_name", "seats", "created_at", "updated_at", "movie_title", "theater_name"}
    ensures var r := BookingEntry(db, id, d);
      && r["id"] == Text(IdString(id)) && r["showtime_id"] == Id(d.showtimeId)
      && r["customer_name"] == Text(d.customerName) && r["seats"] == Int(d.seats)
      && r["created_at"] == Time(d.createdAt) && r["updated_at"] == Time(d.updatedAt)
    ensures var r := BookingEntry(db, id, d);
      d.showtimeId !in db.showtime.docs ==> r["movie_title"] == Null && r["theater_name"] == Null
    ensures var r := BookingEntry(db, id, d);
      d.showtimeId in db.showtime.docs ==>
      var st := db.showtime.docs[d.showtimeId];
      && r["movie_title"] == (if st.movieId in db.movie.docs then Text(db.movie.docs[st.movieId].movie.title) else Null)
      && r["theater_name"] == (if st.theaterId in db.theater.docs then Text(db.theater.docs[st.theaterId].theater.name) else Null)
  {
    var r := BookingEntry(db, id, d);
  }

  /** The loop `for d in docs: out.append(row(d))` over the ids `ids`. */
  function MapIds<R>(ids: seq<ObjectId>, row: ObjectId --> R): seq<R>
    requires forall i | 0 <= i < |ids| :: row.requires(ids[i])
    decreases |ids|
  {
    if ids == [] then [] else MapIds(ids[..|ids| - 1], row) + [row(ids[|ids| - 1])]
  }

  /** The loop yields one row per id, the i-th for the i-th id. */
  lemma {:induction false} MapIdsRows<R>(ids: seq<ObjectId>, row: ObjectId --> R)
    requires forall i | 0 <= i < |ids| :: row.requires(ids[i])
    ensures |MapIds(ids, row)| == |ids|
    ensures forall i | 0 <= i < |ids| :: MapIds(ids, row)[i] == row(ids[i])
    decreases |ids|
  {
    if ids != [] {
      MapIdsRows(ids[..|ids| - 1], row);
    }
  }

  /** The reply of `list_showtimes`: every stored showtime, expanded, in the collection's listing order. */
  function ShowtimeListing(db: Db): (r: seq<ShowtimeOut>)
    requires db.showtime.Valid()
    ensures |r| == |db.showtime.order|
    ensures forall i | 0 <= i < |r| :: r[i] == ShowtimeEntry(db, db.showtime.order[i], db.showtime.docs[db.showtime.order[i]])
  {
    var row := k requires k in db.showtime.docs => ShowtimeEntry(db, k, db.showtime.docs[k]);
    MapIdsRows(db.showtime.order, row);
    MapIds(db.showtime.order, row)
  }

  /** The reply of `list_bookings`: every stored booking, expanded, in the collection's listing order. */
  function BookingListing(db: Db): (r: seq<Dict>)
    requires db.booking.Valid()
    ensures |r| == |db.booking.order|
    ensures forall i | 0 <= i < |r| :: r[i] == BookingEntry(db, db.booking.order[i], db.booking.docs[db.booking.order[i]])
  {
    var row := k requires k in db.booking.docs => BookingEntry(db, k, db.booking.docs[k]);
    MapIdsRows(db.booking.order, row);
    MapIds(db.booking.order, row)
  }

  /** When every reference resolves, no listed showtime or booking lacks its expanded fields. */
  lemma ExpansionsPresent(db: Db)
    requires ReferencesResolve(db)
    ensures forall k | k in db.showtime.docs ::
      var e := ShowtimeEntry(db, k, db.showtime.docs[k]);
      e.movieTitle.Some? && e.theaterName.Some? && e.theaterLocation.Some?
    ensures forall k | k in db.booking.docs ::
      var e := BookingEntry(db, k, db.booking.docs[k]);
      "movie_title" in e && "theater_name" in e && e["movie_title"].Text? && e["theater_name"].Text?
  {
    forall k | k in db.booking.docs
      ensures var e := BookingEntry(db, k, db.booking.docs[k]);
        "movie_title" in e && "theater_name" in e && e["movie_title"].Text? && e["theater_name"].Text?
    {
      BookingEntryFields(db, k, db.booking.docs[k]);
    }
  }

  // ----------------------------------------------------- request sequence

  /** A write request as it reaches the server: the endpoint and its (not yet validated) body. */
  datatype Request =
    | PostMovie(movie: MovieBody)
    | PostTheater(theater: TheaterBody)
    | PostShowtime(showtime: ShowtimeBody)
    | PostBooking(booking: BookingBody)

  /** A request together with the id the driver generates and the clock reading it meets. */
  datatype Call = Call(request: Request, newId: ObjectId, now: Timestamp)

  /** Whether the request's body passes its schema. */
  predicate Accepted(req: Request) {
    match req
    case PostMovie(body) => ValidateMovie(body).Success?
    case PostTheater(body) => ValidateTheater(body).Success?
    case PostShowtime(body) => ValidateShowtime(body).Success?
    case PostBooking(body) => ValidateBooking(body).Success?
  }

  /** The endpoint: schema validation (422 on failure), then the handler with the validated record. */
  function Handle(db: Db, c: Call): (r: Reply)
    ensures r.result.Failure? ==> r.db == db
    ensures r.result != Failure(SeatsNotPositive)
    ensures (r.result.Failure? && r.result.error.Status() == 422) <==> !Accepted(c.request)
    ensures db.Valid() ==> r.db.Valid() && SeatsAccounted(db, r.db)
    ensures ReferencesResolve(db) ==> ReferencesResolve(r.db)
    ensures SeatsNonNegative(db) ==> SeatsNonNegative(r.db)
  {
    match c.request
    case PostMovie(body) =>
      (match ValidateMovie(body)
       case Failure(e) => Reply(db, Failure(Unprocessable(e)))
       case Success(m) => CreateMovie(db, m, c.newId, c.now))
    case PostTheater(body) =>
      (match ValidateTheater(body)
       case Failure(e) => Reply(db, Failure(Unprocessable(e)))
       case Success(t) => CreateTheater(db, t, c.newId, c.now))
    case PostShowtime(body) =>
      (match ValidateShowtime(body)
       case Failure(e) => Reply(db, Failure(Unprocessable(e)))
       case Success(s) => CreateShowtime(db, s, c.newId, c.now))
    case PostBooking(body) =>
      (match ValidateBooking(body)
       case Failure(e) => Reply(db, Failure(Unprocessable(e)))
       case Success(b) => CreateBooking(db, b, c.newId, c.now))
  }

  /** The store after the calls have been served one after another. */
  function Run(db: Db, calls: seq<Call>): Db
    decreases |calls|
  {
    if calls == [] then db else Run(Handle(db, calls[0]).db, calls[1..])
  }

  lemma SeatsAccountedTransitive(a: Db, b: Db, c: Db)
    requires SeatsAccounted(a, b) && SeatsAccounted(b, c)
    ensures SeatsAccounted(a, c)
  {
  }

  /**
   * Over any sequence of requests the store stays well formed, references keep
   * resolving, no seat count goes negative, no showtime's seats available ever
   * grows, and seats available plus seats booked stays what it was.
   */
  lemma {:induction false} RunInvariants(db: Db, calls: seq<Call>)
    requires db.Valid() && ReferencesResolve(db) && SeatsNonNegative(db)
    ensures var db' := Run(db, calls);
      db'.Valid() && ReferencesResolve(db') && SeatsNonNegative(db') && SeatsAccounted(db, db')
    decreases |calls|
  {
    if calls != [] {
      var mid := Handle(db, calls[0]).db;
      RunInvariants(mid, calls[1..]);
      SeatsAccountedTransitive(db, mid, Run(mid, calls[1..]));
    }
  }

  /**
   * The seat results alone need no referential integrity: even in a store
   * whose references dangle, over any sequence of requests no seat count
   * goes negative or grows, and seats available plus seats booked is kept.
   */
  lemma {:induction false} RunSeats(db: Db, calls: seq<Call>)
    requires db.Valid() && SeatsNonNegative(db)
    ensures var db' := Run(db, calls);
      db'.Valid() && SeatsNonNegative(db') && SeatsAccounted(db, db')
    decreases |calls|
  {
    if calls != [] {
      var mid := Handle(db, calls[0]).db;
      RunSeats(mid, calls[1..]);
      SeatsAccountedTransitive(db, mid, Run(mid, calls[1..]));
    }
  }

  /** No showtime has more seats available than it has seats. */
  ghost predicate WithinCapacity(db: Db) {
    forall k | k in db.showtime.docs :: db.showtime.docs[k].Available() <= db.showtime.docs[k].totalSeats
  }

  /**
   * The capacity bound is kept by every request except a showtime created
   * with a `seats_available` above its `total_seats`, which the schema lets
   * through and the handler stores as given.
   */
  lemma CapacityKept(db: Db, c: Call)
    requires WithinCapacity(db)
    ensures WithinCapacity(Handle(db, c).db) <==>
      !(c.request.PostShowtime? && Handle(db, c).result.Success? &&
        c.request.showtime.seatsAvailable.Some? && c.request.showtime.seatsAvailable.value > c.request.showtime.totalSeats.value)
  {
    var r := Handle(db, c);
    if c.request.PostBooking? && r.result.Success? {
      var b := ValidateBooking(c.request.booking).value;
      var sid := ParseObjectId(b.showtimeId).value;
      assert BookingCommitted(db, r.db, sid, b, c.newId, c.now);
      assert r.db.showtime.docs[sid].totalSeats == db.showtime.docs[sid].totalSeats;
    } else if c.request.PostShowtime? && r.result.Success? {
      assert r.db.showtime.docs[c.newId].Available() == c.request.showtime.seatsAvailable.GetOr(c.request.showtime.totalSeats.value);
    }
  }

  /** Every store reachable from the empty one satisfies the invariants, so its listings expand every reference. */
  lemma ReachableStores(calls: seq<Call>)
    ensures var db := Run(EmptyDb(), calls);
      db.Valid() && ReferencesResolve(db) && SeatsNonNegative(db)
    ensures forall k | k in Run(EmptyDb(), calls).showtime.docs ::
      ShowtimeEntry(Run(EmptyDb(), calls), k, Run(EmptyDb(), calls).showtime.docs[k]).movieTitle.Some?
  {
    RunInvariants(EmptyDb(), calls);
    ExpansionsPresent(Run(EmptyDb(), calls));
  }
}
