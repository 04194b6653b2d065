/**
 * The document store, as an in-memory value: one collection per entity kind
 * ("movie", "theater", "showtime", "booking"), each a map from `_id` to the
 * stored document together with a listing order (insertion order; the store
 * itself promises no order for an unsorted `find()`).
 */
module Store {
  import opened Wrappers
  import opened ObjectIds
  import opened Documents
  import opened Schemas

  datatype Collection<T> = Collection(docs: map<ObjectId, T>, order: seq<ObjectId>) {

    /** `order` lists every stored id exactly once. */
    ghost predicate Valid() {
      && (forall i | 0 <= i < |order| :: order[i] in docs)
      && (forall k | k in docs :: k in order)
      && (forall i, j | 0 <= i < j < |order| :: order[i] != order[j])
    }

    /** `find_one({"_id": id})`: in a well-formed collection it finds exactly the ids a `find()` lists. */
    function FindOne(id: ObjectId): (r: Option<T>)
      ensures r.Some? <==> id in docs
      ensures r.Some? ==> r.value == docs[id]
      ensures Valid() ==> (r.Some? <==> id in order)
    {
      if id in docs then Some(docs[id]) else None
    }

    /** `insert_one` under a given `_id`; None when that `_id` is already taken (duplicate key). */
    function InsertOne(id: ObjectId, doc: T): (r: Option<Collection<T>>)
      ensures r.Some? <==> id !in docs
      ensures r.Some? ==> r.value.docs == docs[id := doc] && r.value.order == order + [id]
      ensures r.Some? && Valid() ==> r.value.Valid()
    {
      if id in docs then None
      else
        var c := Collection(docs[id := doc], order + [id]);
        assert Valid() ==> c.Valid() by {
          if Valid() {
            forall i, j | 0 <= i < j < |c.order| ensures c.order[i] != c.order[j] {
              if j == |order| { assert c.order[i] == order[i] && order[i] in docs; }
            }
          }
        }
        Some(c)
    }

    /** An update of a stored document in place: the set of ids and their order stay as they were. */
    function Replace(id: ObjectId, doc: T): (r: Collection<T>)
      requires id in docs
      ensures r.docs == docs[id := doc] && r.order == order
      ensures Valid() ==> r.Valid()
    {
      Collection(docs[id := doc], order)
    }
  }

  function EmptyCollection<T>(): (c: Collection<T>)
    ensures c.Valid() && c.docs == map[]
  {
    Collection(map[], [])
  }

  datatype MovieDoc = MovieDoc(movie: Movie, createdAt: Timestamp, updatedAt: Timestamp)

  datatype TheaterDoc = TheaterDoc(theater: Theater, createdAt: Timestamp, updatedAt: Timestamp)

  datatype ShowtimeDoc = ShowtimeDoc(movieId: ObjectId, theaterId: ObjectId, startTime: Timestamp, totalSeats: int,
                                     seatsAvailable: Option<int>, createdAt: Timestamp, updatedAt: Timestamp) {
    /** `st.get("seats_available", 0)`: a missing field counts as no seats. */
    function Available(): int {
      seatsAvailable.GetOr(0)
    }

    /** `{"$inc": {"seats_available": delta}, "$set": {"updated_at": now}}`; `$inc` on a missing field starts from 0. */
    function Inc(delta: int, now: Timestamp): (r: ShowtimeDoc)
      ensures r.Available() == Available() + delta && r.seatsAvailable.Some?
      ensures r.updatedAt == now
      ensures r.(seatsAvailable := seatsAvailable, updatedAt := updatedAt) == this
    {
      this.(seatsAvailable := Some(Available() + delta), updatedAt := now)
    }
  }

  datatype BookingDoc = BookingDoc(showtimeId: ObjectId, customerName: string, seats: int,
                                   createdAt: Timestamp, updatedAt: Timestamp) {
    /** The document as the store holds it, `_id` included. */
    function ToDict(id: ObjectId): (d: Dict)
      ensures "_id" in d && d["_id"] == Id(id)
    {
      map["_id" := Id(id), "showtime_id" := Id(showtimeId), "customer_name" := Text(customerName),
          "seats" := Int(seats), "created_at" := Time(createdAt), "updated_at" := Time(updatedAt)]
    }
  }

  datatype Db = Db(movie: Collection<MovieDoc>, theater: Collection<TheaterDoc>,
                   showtime: Collection<ShowtimeDoc>, booking: Collection<BookingDoc>) {
    ghost predicate Valid() {
      movie.Valid() && theater.Valid() && showtime.Valid() && booking.Valid()
    }
  }

  function EmptyDb(): (db: Db)
    ensures db.Valid()
    ensures db.movie.docs == map[] && db.theater.docs == map[] && db.showtime.docs == map[] && db.booking.docs == map[]
  {
    Db(EmptyCollection(), EmptyCollection(), EmptyCollection(), EmptyCollection())
  }

  /** Every stored reference names a stored document. */
  ghost predicate ReferencesResolve(db: Db) {
    && (forall k | k in db.showtime.docs ::
          db.showtime.docs[k].movieId in db.movie.docs && db.showtime.docs[k].theaterId in db.theater.docs)
    && (forall k | k in db.booking.docs :: db.booking.docs[k].showtimeId in db.showtime.docs)
  }

  /** No showtime has a negative seat count. */
  ghost predicate SeatsNonNegative(db: Db) {
    forall k | k in db.showtime.docs :: db.showtime.docs[k].Available() >= 0
  }

  /** The seats booked for showtime `sid` by the bookings listed in `ids`. */
  function SoldIn(ids: seq<ObjectId>, docs: map<ObjectId, BookingDoc>, sid: ObjectId): int
    decreases |ids|
  {
    if ids == [] then 0
    else
      var k := ids[|ids| - 1];
      SoldIn(ids[..|ids| - 1], docs, sid) + (if k in docs && docs[k].showtimeId == sid then docs[k].seats else 0)
  }

  /** The seats booked for showtime `sid` over the whole booking collection. */
  function Sold(db: Db, sid: ObjectId): int {
    SoldIn(db.booking.order, db.booking.docs, sid)
  }

  /** Storing a document under an id the list does not mention leaves the count of the list alone. */
  lemma {:induction false} SoldInFrame(ids: seq<ObjectId>, docs: map<ObjectId, BookingDoc>, id: ObjectId, d: BookingDoc, sid: ObjectId)
    requires id !in ids
    ensures SoldIn(ids, docs[id := d], sid) == SoldIn(ids, docs, sid)
    decreases |ids|
  {
    if ids != [] {
      assert id !in ids[..|ids| - 1];
      SoldInFrame(ids[..|ids| - 1], docs, id, d, sid);
    }
  }

  /** Inserting booking `d` adds its seats to its own showtime's count and nothing to any other. */
  lemma SoldAfterInsert(db: Db, id: ObjectId, d: BookingDoc, sid: ObjectId)
    requires db.booking.Valid() && id !in db.booking.docs
    ensures Sold(db.(booking := Collection(db.booking.docs[id := d], db.booking.order + [id])), sid)
         == Sold(db, sid) + (if d.showtimeId == sid then d.seats else 0)
  {
    var ids := db.booking.order + [id];
    assert ids[..|ids| - 1] == db.booking.order;
    SoldInFrame(db.booking.order, db.booking.docs, id, d, sid);
  }
}
