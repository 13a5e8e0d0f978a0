/**
 * The `/api/health` routes: a pet's health records and adding one. Neither
 * route looks at the caller: any authenticated user reads and adds records
 * for any pet id.
 */
module Health {
  import opened Wrappers
  import opened Http
  import opened Tables

  type Cell = Option<string>

  /**
   * A `health_records` row, as the body of `POST /add` gives it. `petId` and
   * `dateRecorded` are NULL when the body leaves them out; the date is kept
   * as a number ordered like the column.
   */
  datatype Record = Record(petId: Option<int>, recordType: Cell, title: Cell, value: Cell,
                           dateRecorded: Option<int>, nextDueDate: Cell, notes: Cell)

  const Failed := "Server error"
  const RecordAdded := "Record added successfully"

  /** `WHERE pet_id = ?`; a NULL `pet_id` matches no id. */
  function ForPet(petId: int): Row<Record> -> bool
  {
    (r: Row<Record>) => r.data.petId == Some(petId)
  }

  function DateRecorded(r: Row<Record>): Option<int>
  {
    r.data.dateRecorded
  }

  /**
   * `GET /:petId`: exactly the records of that pet, latest `date_recorded`
   * first and undated ones last; 500 when the query fails.
   */
  function List(rows: seq<Row<Record>>, petId: int, fault: bool): (r: Response<seq<Row<Record>>>)
    ensures fault ==> r == Error(500, Failed)
    ensures !fault ==> r.status == 200 && r.body.Json?
    ensures !fault ==> multiset(r.body.value) == multiset(Filter(rows, ForPet(petId)))
    ensures !fault ==> forall i :: 0 <= i < |r.body.value| ==> r.body.value[i] in rows && r.body.value[i].data.petId == Some(petId)
    ensures !fault ==> forall i :: 0 <= i < |rows| && rows[i].data.petId == Some(petId) ==> rows[i] in r.body.value
    ensures !fault ==> Descending(r.body.value, DateRecorded)
    ensures !fault ==> forall i, j :: 0 <= i < j < |r.body.value| && r.body.value[i].data.dateRecorded.None?
                                      ==> r.body.value[j].data.dateRecorded.None?
  {
    if fault then Error(500, Failed)
    else Response(200, Json(Select(rows, ForPet(petId), DateRecorded)))
  }

  /** `POST /add`: one new record with the seven given columns, and 201; 500 and no change on failure. */
  method Add(records: Table<Record>, body: Record, fault: bool) returns (res: Response<Message>)
    requires records.Valid()
    modifies records
    ensures records.Valid()
    ensures fault ==> res == Error(500, Failed) && records.rows == old(records.rows) && records.nextId == old(records.nextId)
    ensures !fault ==>
              && records.rows == old(records.rows) + [Row(old(records.nextId), body)]
              && records.nextId == old(records.nextId) + 1
              && res == Response(201, Json(Message(RecordAdded)))
  {
    if fault {
      return Error(500, Failed);
    }
    var _ := records.Insert(body);
    res := Response(201, Json(Message(RecordAdded)));
  }

  /** A record added for a pet is listed for that pet id and for no other. */
  lemma {:induction false} AddedIsListed(rows: seq<Row<Record>>, id: nat, body: Record, petId: int)
    ensures var listed := List(rows + [Row(id, body)], petId, false).body.value;
            Row(id, body) in listed <==> body.petId == Some(petId)
  {
    var after := rows + [Row(id, body)];
    assert after[|rows|] == Row(id, body);
    var listed := List(after, petId, false).body.value;
    if Row(id, body) in listed {
      var k :| 0 <= k < |listed| && listed[k] == Row(id, body);
    }
  }
}
