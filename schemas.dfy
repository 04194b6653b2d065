/**
 * The request schemas and their field constraints. A request body is a record
 * whose every field may be absent (None: missing or JSON null); validation
 * turns it into the typed record the handler receives, or into the list of
 * violated constraints (FastAPI answers 422 with that list).
 */
module Schemas {
  import opened Wrappers
  import opened Documents

  datatype FieldError = Missing(field: string) | LessThan(field: string, minimum: int)

  /** `Field(...)`: the field must be present. */
  function Required<T>(v: Option<T>, field: string): seq<FieldError> {
    if v.None? then [Missing(field)] else []
  }

  /** `ge=min` on a present value. */
  function AtLeast(v: Option<int>, field: string, min: int): seq<FieldError> {
    if v.Some? && v.value < min then [LessThan(field, min)] else []
  }

  /** An optional integer that is absent or at least `min`. */
  predicate AbsentOrAtLeast(v: Option<int>, min: int) {
    v.None? || v.value >= min
  }

  // ---------------------------------------------------------------- Movie

  datatype Movie = Movie(title: string, description: Option<string>, durationMinutes: Option<int>, posterImage: Option<string>) {
    function Body(): MovieBody {
      MovieBody(Some(title), description, durationMinutes, posterImage)
    }
  }

  datatype MovieBody = MovieBody(title: Option<string>, description: Option<string>, durationMinutes: Option<int>, posterImage: Option<string>)

  /** The constraints of a `Movie` beyond its types: `duration_minutes` absent or at least 1. */
  predicate MovieValid(m: Movie) {
    AbsentOrAtLeast(m.durationMinutes, 1)
  }

  function ValidateMovie(b: MovieBody): (r: Result<Movie, seq<FieldError>>)
    ensures r.Success? <==> b.title.Some? && AbsentOrAtLeast(b.durationMinutes, 1)
    ensures r.Success? ==> MovieValid(r.value) && r.value.Body() == b
    ensures r.Failure? ==> r.error != []
  {
    var errors := Required(b.title, "title") + AtLeast(b.durationMinutes, "duration_minutes", 1);
    if errors == [] then Success(Movie(b.title.value, b.description, b.durationMinutes, b.posterImage))
    else Failure(errors)
  }

  // -------------------------------------------------------------- Theater

  datatype Theater = Theater(name: string, location: string) {
    function Body(): TheaterBody {
      TheaterBody(Some(name), Some(location))
    }
  }

  datatype TheaterBody = TheaterBody(name: Option<string>, location: Option<string>)

  function ValidateTheater(b: TheaterBody): (r: Result<Theater, seq<FieldError>>)
    ensures r.Success? <==> b.name.Some? && b.location.Some?
    ensures r.Success? ==> r.value.Body() == b
    ensures r.Failure? ==> r.error != []
  {
    var errors := Required(b.name, "name") + Required(b.location, "location");
    if errors == [] then Success(Theater(b.name.value, b.location.value)) else Failure(errors)
  }

  // ------------------------------------------------------------- Showtime

  datatype Showtime = Showtime(movieId: string, theaterId: string, startTime: Timestamp, totalSeats: int, seatsAvailable: Option<int>) {
    function Body(): ShowtimeBody {
      ShowtimeBody(Some(movieId), Some(theaterId), Some(startTime), Some(totalSeats), seatsAvailable)
    }
  }

  datatype ShowtimeBody = ShowtimeBody(movieId: Option<string>, theaterId: Option<string>, startTime: Option<Timestamp>,
                                       totalSeats: Option<int>, seatsAvailable: Option<int>)

  /**
   * `total_seats >= 1` and `seats_available` absent or `>= 0`. Nothing relates
   * the two: a supplied `seats_available` may exceed `total_seats`.
   */
  predicate ShowtimeValid(s: Showtime) {
    s.totalSeats >= 1 && AbsentOrAtLeast(s.seatsAvailable, 0)
  }

  function ValidateShowtime(b: ShowtimeBody): (r: Result<Showtime, seq<FieldError>>)
    ensures r.Success? <==>
      b.movieId.Some? && b.theaterId.Some? && b.startTime.Some? && b.totalSeats.Some? &&
      b.totalSeats.value >= 1 && AbsentOrAtLeast(b.seatsAvailable, 0)
    ensures r.Success? ==> ShowtimeValid(r.value) && r.value.Body() == b
    ensures r.Failure? ==> r.error != []
  {
    var errors := Required(b.movieId, "movie_id") + Required(b.theaterId, "theater_id") + Required(b.startTime, "start_time")
      + Required(b.totalSeats, "total_seats") + AtLeast(b.totalSeats, "total_seats", 1)
      + AtLeast(b.seatsAvailable, "seats_available", 0);
    if errors == [] then
      Success(Showtime(b.movieId.value, b.theaterId.value, b.startTime.value, b.totalSeats.value, b.seatsAvailable))
    else Failure(errors)
  }

  // -------------------------------------------------------------- Booking

  datatype Booking = Booking(showtimeId: string, customerName: string, seats: int) {
    function Body(): BookingBody {
      BookingBody(Some(showtimeId), Some(customerName), Some(seats))
    }
  }

  datatype BookingBody = BookingBody(showtimeId: Option<string>, customerName: Option<string>, seats: Option<int>)

  /** `seats >= 1`. */
  predicate BookingValid(b: Booking) {
    b.seats >= 1
  }

  function ValidateBooking(b: BookingBody): (r: Result<Booking, seq<FieldError>>)
    ensures r.Success? <==> b.showtimeId.Some? && b.customerName.Some? && b.seats.Some? && b.seats.value >= 1
    ensures r.Success? ==> BookingValid(r.value) && r.value.Body() == b
    ensures r.Failure? ==> r.error != []
  {
    var errors := Required(b.showtimeId, "showtime_id") + Required(b.customerName, "customer_name")
      + Required(b.seats, "seats") + AtLeast(b.seats, "seats", 1);
    if errors == [] then Success(Booking(b.showtimeId.value, b.customerName.value, b.seats.value)) else Failure(errors)
  }

  /** Every record that meets its constraints is what validating its own body gives back. */
  lemma ValidRecordsRoundTrip(m: Movie, t: Theater, s: Showtime, k: Booking)
    ensures MovieValid(m) ==> ValidateMovie(m.Body()) == Success(m)
    ensures ValidateTheater(t.Body()) == Success(t)
    ensures ShowtimeValid(s) ==> ValidateShowtime(s.Body()) == Success(s)
    ensures BookingValid(k) ==> ValidateBooking(k.Body()) == Success(k)
  {
  }
}
