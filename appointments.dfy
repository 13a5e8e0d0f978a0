/**
 * The `/api/appointments` routes: the caller's appointments and booking one.
 */
module Appointments {
  import opened Wrappers
  import opened Http
  import opened Tables
  import Jwt

  type Cell = Option<string>

  /** The body's camel-case fields, as the route reads them. */
  datatype AppointmentBody = AppointmentBody(petName: Cell, service: Cell, date: Cell, time: Cell,
                                             veterinarian: Cell, notes: Cell)

  /** An `appointments` row: the owner and the snake-case columns. */
  datatype Appointment = Appointment(userId: nat, petName: Cell, service: Cell, date: Cell, time: Cell,
                                     veterinarian: Cell, notes: Cell)

  /** The 201 reply of `POST /`. */
  datatype AppointmentBooked = AppointmentBooked(message: string, id: nat)

  const Failed := "Server error"
  const Booked := "Appointment booked"

  function OwnedBy(uid: nat): Row<Appointment> -> bool
  {
    (r: Row<Appointment>) => r.data.userId == uid
  }

  /** The row an appointment body becomes, field by field. */
  function FromBody(uid: nat, body: AppointmentBody): (a: Appointment)
    ensures a.userId == uid
    ensures AppointmentBody(a.petName, a.service, a.date, a.time, a.veterinarian, a.notes) == body
  {
    Appointment(uid, body.petName, body.service, body.date, body.time, body.veterinarian, body.notes)
  }

  /**
   * `GET /`: exactly the caller's appointments. The query has no ORDER BY;
   * they are modelled in table order.
   */
  function List(rows: seq<Row<Appointment>>, user: Jwt.Payload, fault: bool): (r: Response<seq<Row<Appointment>>>)
    ensures fault ==> r == Error(500, Failed)
    ensures !fault ==> r == Response(200, Json(Filter(rows, OwnedBy(user.id))))
    ensures !fault ==> forall i :: 0 <= i < |r.body.value| ==> r.body.value[i] in rows && r.body.value[i].data.userId == user.id
    ensures !fault ==> forall i :: 0 <= i < |rows| && rows[i].data.userId == user.id ==> rows[i] in r.body.value
  {
    if fault then Error(500, Failed)
    else Response(200, Json(Filter(rows, OwnedBy(user.id))))
  }

  /** `POST /`: one new appointment owned by the caller and its id in the 201 reply. */
  method Book(appointments: Table<Appointment>, user: Jwt.Payload, body: AppointmentBody, fault: bool)
    returns (res: Response<AppointmentBooked>)
    requires appointments.Valid()
    modifies appointments
    ensures appointments.Valid()
    ensures fault ==> res == Error(500, Failed) && appointments.rows == old(appointments.rows)
                      && appointments.nextId == old(appointments.nextId)
    ensures !fault ==>
              var id := old(appointments.nextId);
              && appointments.rows == old(appointments.rows) + [Row(id, FromBody(user.id, body))]
              && appointments.nextId == id + 1
              && res == Response(201, Json(AppointmentBooked(Booked, id)))
  {
    if fault {
      return Error(500, Failed);
    }
    var id := appointments.Insert(FromBody(user.id, body));
    res := Response(201, Json(AppointmentBooked(Booked, id)));
  }

  /** A booked appointment is listed to its owner, after the ones booked before it. */
  lemma {:induction false} BookedIsListed(rows: seq<Row<Appointment>>, user: Jwt.Payload, id: nat, body: AppointmentBody)
    ensures List(rows + [Row(id, FromBody(user.id, body))], user, false).body.value
            == List(rows, user, false).body.value + [Row(id, FromBody(user.id, body))]
  {
    FilterAppend(rows, Row(id, FromBody(user.id, body)), OwnedBy(user.id));
  }
}
