/**
 * The `/api/services` routes: the caller's service bookings, booking a
 * service and marking one completed.
 */
module Services {
  import opened Wrappers
  import opened Http
  import opened Tables
  import Jwt

  type Cell = Option<string>

  /** The columns a client may set when booking. */
  datatype BookingBody = BookingBody(serviceType: Cell, serviceName: Cell, petName: Cell,
                                     preferredDate: Cell, notes: Cell)

  /**
   * The `status` column: whatever the schema gives a new booking, or the
   * literal "Completed" the PUT route writes.
   */
  datatype Status = AsBooked | Completed

  /** A `service_bookings` row. */
  datatype Booking = Booking(userId: nat, fields: BookingBody, status: Status, createdAt: int)

  /** The 201 reply of `POST /book`. */
  datatype Booked = Booked(message: string, id: nat)

  const Failed := "Server error"
  const ServiceBooked := "Service booked successfully"
  const MarkedCompleted := "Service marked as completed"

  function OwnedBy(uid: nat): Row<Booking> -> bool
  {
    (r: Row<Booking>) => r.data.userId == uid
  }

  function OwnedWithId(id: int, uid: nat): Row<Booking> -> bool
  {
    (r: Row<Booking>) => r.id == id && r.data.userId == uid
  }

  function CreatedAt(r: Row<Booking>): Option<int>
  {
    Some(r.data.createdAt)
  }

  /** `SET status = "Completed"`. */
  function MarkCompleted(b: Booking): Booking
  {
    b.(status := Completed)
  }

  /** `GET /`: exactly the caller's bookings, newest first; 500 when the query fails. */
  function List(rows: seq<Row<Booking>>, user: Jwt.Payload, fault: bool): (r: Response<seq<Row<Booking>>>)
    ensures fault ==> r == Error(500, Failed)
    ensures !fault ==> r.status == 200 && r.body.Json?
    ensures !fault ==> multiset(r.body.value) == multiset(Filter(rows, OwnedBy(user.id)))
    ensures !fault ==> forall i :: 0 <= i < |r.body.value| ==> r.body.value[i] in rows && r.body.value[i].data.userId == user.id
    ensures !fault ==> forall i :: 0 <= i < |rows| && rows[i].data.userId == user.id ==> rows[i] in r.body.value
    ensures !fault ==> Descending(r.body.value, CreatedAt)
  {
    if fault then Error(500, Failed)
    else Response(200, Json(Select(rows, OwnedBy(user.id), CreatedAt)))
  }

  /** `POST /book`: one new booking owned by the caller and its id in the 201 reply. */
  method Book(bookings: Table<Booking>, user: Jwt.Payload, body: BookingBody, now: int, fault: bool)
    returns (res: Response<Booked>)
    requires bookings.Valid()
    modifies bookings
    ensures bookings.Valid()
    ensures fault ==> res == Error(500, Failed) && bookings.rows == old(bookings.rows) && bookings.nextId == old(bookings.nextId)
    ensures !fault ==>
              var id := old(bookings.nextId);
              && bookings.rows == old(bookings.rows) + [Row(id, Booking(user.id, body, AsBooked, now))]
              && bookings.nextId == id + 1
              && res == Response(201, Json(Booked(ServiceBooked, id)))
  {
    if fault {
      return Error(500, Failed);
    }
    var id := bookings.Insert(Booking(user.id, body, AsBooked, now));
    res := Response(201, Json(Booked(ServiceBooked, id)));
  }

  /**
   * `PUT /:id/complete`: marks the caller's booking with that id completed
   * and answers 200 whether or not such a booking exists; 500 and no change
   * when the query fails.
   */
  method Complete(bookings: Table<Booking>, user: Jwt.Payload, id: int, fault: bool)
    returns (res: Response<Message>)
    requires bookings.Valid()
    modifies bookings
    ensures bookings.Valid() && bookings.nextId == old(bookings.nextId)
    ensures fault ==> res == Error(500, Failed) && bookings.rows == old(bookings.rows)
    ensures !fault ==> res == Response(200, Json(Message(MarkedCompleted)))
    ensures !fault ==> bookings.rows == Updated(old(bookings.rows), OwnedWithId(id, user.id), MarkCompleted)
  {
    if fault {
      return Error(500, Failed);
    }
    bookings.UpdateWhere(OwnedWithId(id, user.id), MarkCompleted);
    res := Response(200, Json(Message(MarkedCompleted)));
  }

  /**
   * What completing does to the table: the caller's booking with that id is
   * completed and keeps every other column; every other row is untouched.
   */
  lemma CompleteEffect(rows: seq<Row<Booking>>, id: int, uid: nat)
    ensures var after := Updated(rows, OwnedWithId(id, uid), MarkCompleted);
            && |after| == |rows|
            && forall i :: 0 <= i < |rows| ==>
                 && after[i].id == rows[i].id
                 && after[i].data.userId == rows[i].data.userId
                 && after[i].data.fields == rows[i].data.fields
                 && after[i].data.createdAt == rows[i].data.createdAt
                 && (after[i].data.status == Completed <==> rows[i].data.status == Completed || (rows[i].id == id && rows[i].data.userId == uid))
  {
  }

  /** Completing the same booking twice leaves the table as completing it once. */
  lemma CompleteIdempotent(rows: seq<Row<Booking>>, id: int, uid: nat)
    ensures var once := Updated(rows, OwnedWithId(id, uid), MarkCompleted);
            Updated(once, OwnedWithId(id, uid), MarkCompleted) == once
  {
    var once := Updated(rows, OwnedWithId(id, uid), MarkCompleted);
    var twice := Updated(once, OwnedWithId(id, uid), MarkCompleted);
    assert forall i :: 0 <= i < |once| ==> twice[i] == once[i];
  }
}
