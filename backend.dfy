/**
 * The backend's store as an object: one field per collection, updated in
 * place by the write handlers and read by the listing handlers. Each write
 * method performs the handler's steps in the handler's order and is proved
 * to end in the state, and give the reply, that the corresponding function
 * of module Handlers describes.
 */
module Backend {
  import opened Wrappers
  import opened ObjectIds
  import opened Documents
  import opened Schemas
  import opened Store
  import H = Handlers

  class Database {
    var movie: Collection<MovieDoc>
    var theater: Collection<TheaterDoc>
    var showtime: Collection<ShowtimeDoc>
    var booking: Collection<BookingDoc>

    /** The store's contents as a value. */
    function State(): Db
      reads this
    {
      Db(movie, theater, showtime, booking)
    }

    ghost predicate Valid()
      reads this
    {
      State().Valid()
    }

    constructor ()
      ensures Valid() && State() == EmptyDb()
    {
      movie, theater, showtime, booking := EmptyCollection(), EmptyCollection(), EmptyCollection(), EmptyCollection();
    }

    /** `create_movie`: timestamps, then `insert_one` into "movie". */
    method CreateMovie(m: Movie, newId: ObjectId, now: Timestamp) returns (r: Result<ObjectId, H.ApiError>)
      requires Valid()
      modifies this
      ensures Valid()
      ensures H.Reply(State(), r) == H.CreateMovie(old(State()), m, newId, now)
    {
      var data := MovieDoc(m, now, now);
      var inserted := movie.InsertOne(newId, data);
      if inserted.None? {
        return Failure(H.DuplicateKey);
      }
      movie := inserted.value;
      r := Success(newId);
    }

    /** `create_theater`: timestamps, then `insert_one` into "theater". */
    method CreateTheater(t: Theater, newId: ObjectId, now: Timestamp) returns (r: Result<ObjectId, H.ApiError>)
      requires Valid()
      modifies this
      ensures Valid()
      ensures H.Reply(State(), r) == H.CreateTheater(old(State()), t, newId, now)
    {
      var data := TheaterDoc(t, now, now);
      var inserted := theater.InsertOne(newId, data);
      if inserted.None? {
        return Failure(H.DuplicateKey);
      }
      theater := inserted.value;
      r := Success(newId);
    }

    /** `create_showtime`: both references parsed and counted, `seats_available` defaulted, then `insert_one`. */
    method CreateShowtime(s: Showtime, newId: ObjectId, now: Timestamp) returns (r: Result<ObjectId, H.ApiError>)
      requires Valid()
      modifies this
      ensures Valid()
      ensures H.Reply(State(), r) == H.CreateShowtime(old(State()), s, newId, now)
    {
      var movieOid := ParseObjectId(s.movieId);
      if movieOid.None? {
        return Failure(H.InvalidIdFormat);
      }
      var movieExists := movieOid.value in movie.docs;
      var theaterOid := ParseObjectId(s.theaterId);
      if theaterOid.None? {
        return Failure(H.InvalidIdFormat);
      }
      var theaterExists := theaterOid.value in theater.docs;
      if !movieExists || !theaterExists {
        return Failure(H.InvalidReference);
      }
      var data := H.NewShowtimeDoc(s, movieOid.value, theaterOid.value, now);
      var inserted := showtime.InsertOne(newId, data);
      if inserted.None? {
        return Failure(H.DuplicateKey);
      }
      showtime := inserted.value;
      r := Success(newId);
    }

    /**
     * `create_booking`: the four checks in the handler's order, then two
     * writes: the booking is inserted first, and afterwards the showtime's
     * `seats_available` is incremented by `-seats`.
     */
    method CreateBooking(b: Booking, newId: ObjectId, now: Timestamp) returns (r: Result<ObjectId, H.ApiError>)
      requires Valid()
      modifies this
      ensures Valid()
      ensures H.Reply(State(), r) == H.CreateBooking(old(State()), b, newId, now)
    {
      var showtimeOid := ParseObjectId(b.showtimeId);
      if showtimeOid.None? {
        return Failure(H.InvalidIdFormat);
      }
      var sid := showtimeOid.value;
      var st := showtime.FindOne(sid);
      if st.None? {
        return Failure(H.ShowtimeNotFound);
      }
      var seats := b.seats;
      var available := st.value.Available();
      if seats <= 0 {
        return Failure(H.SeatsNotPositive);
      }
      if seats > available {
        return Failure(H.NotEnoughSeats);
      }
      var inserted := booking.InsertOne(newId, H.NewBookingDoc(sid, b, now));
      if inserted.None? {
        return Failure(H.DuplicateKey);
      }
      booking := inserted.value;
      showtime := showtime.Replace(sid, showtime.docs[sid].Inc(-seats, now));
      r := Success(newId);
    }

    /** `list_showtimes`: one expanded entry per stored showtime, in the collection's listing order; nothing is written. */
    method ListShowtimes() returns (out: seq<H.ShowtimeOut>)
      requires Valid()
      ensures out == H.ShowtimeListing(State())
    {
      var db := State();
      var row := k requires k in db.showtime.docs => H.ShowtimeEntry(db, k, db.showtime.docs[k]);
      var docs := showtime.order;
      out := [];
      for i := 0 to |docs|
        invariant out == H.MapIds(docs[..i], row)
      {
        var d := showtime.docs[docs[i]];
        assert docs[..i + 1][..i] == docs[..i];
        out := out + [H.ShowtimeEntry(db, docs[i], d)];
      }
      assert docs[..|docs|] == docs;
    }

    /** `list_bookings`: one expanded entry per stored booking, in the collection's listing order; nothing is written. */
    method ListBookings() returns (out: seq<Dict>)
      requires Valid()
      ensures out == H.BookingListing(State())
    {
      var db := State();
      var row := k requires k in db.booking.docs => H.BookingEntry(db, k, db.booking.docs[k]);
      var docs := booking.order;
      out := [];
      for i := 0 to |docs|
        invariant out == H.MapIds(docs[..i], row)
      {
        var d := booking.docs[docs[i]];
        assert docs[..i + 1][..i] == docs[..i];
        out := out + [H.BookingEntry(db, docs[i], d)];
      }
      assert docs[..|docs|] == docs;
    }
  }

  /**
   * End-to-end scenarios from an empty store: a showtime created without
   * `seats_available` gets `total_seats`, and a showtime naming a movie that
   * does not exist is refused and not stored.
   */
  method ShowtimeScenarios() {
    var db := new Database();
    var m1 := ObjectId([0, 0, 0, 0, 0, 0, 0, 0, 0, 0, 0, 1]);
    var t1 := ObjectId([0, 0, 0, 0, 0, 0, 0, 0, 0, 0, 0, 2]);
    var s1 := ObjectId([0, 0, 0, 0, 0, 0, 0, 0, 0, 0, 0, 3]);
    var unknown := ObjectId([0, 0, 0, 0, 0, 0, 0, 0, 0, 0, 0, 9]);
    var now := Timestamp("2025-01-01 12:00:00");
    ParseIdString(m1);
    ParseIdString(t1);
    ParseIdString(unknown);

    var r := db.CreateMovie(Movie("Dune", None, None, None), m1, now);
    assert r == Success(m1);
    r := db.CreateTheater(Theater("Grand", "Downtown"), t1, now);
    assert r == Success(t1);
    r := db.CreateShowtime(Showtime(IdString(m1), IdString(t1), Timestamp("2025-01-01 18:00:00"), 100, None), s1, now);
    assert r == Success(s1);
    assert db.showtime.docs[s1].Available() == 100;

    r := db.CreateShowtime(Showtime(IdString(unknown), IdString(t1), now, 50, None), unknown, now);
    assert r == Failure(H.InvalidReference);
    assert unknown !in db.showtime.docs;
  }

  /**
   * End-to-end scenarios on a showtime with 100 seats available: booking 30
   * leaves 70, and then booking 200 fails with "Not enough seats available"
   * and leaves 70.
   */
  method BookingScenarios(db: Database, s1: ObjectId, b1: ObjectId, b2: ObjectId, now: Timestamp)
    requires db.Valid()
    requires s1 in db.showtime.docs && db.showtime.docs[s1].Available() == 100
    requires b1 != b2 && b1 !in db.booking.docs && b2 !in db.booking.docs
    modifies db
  {
    ParseIdString(s1);
    var r := db.CreateBooking(Booking(IdString(s1), "Alice", 30), b1, now);
    assert r == Success(b1);
    assert db.showtime.docs[s1].Available() == 70;

    r := db.CreateBooking(Booking(IdString(s1), "Bob", 200), b2, now);
    assert r == Failure(H.NotEnoughSeats);
    assert db.showtime.docs[s1].Available() == 70;
  }
}
