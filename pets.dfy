/**
 * The `/api/pets` routes. Every query is scoped by the authenticated user's
 * id, which comes from the verified token and never from the request body.
 */
module Pets {
  import opened Wrappers
  import opened Http
  import opened Tables
  import Jwt

  /** A body field as the client sent it; an absent one is stored as NULL. */
  type Cell = Option<string>

  /** The columns a client may set when adding a pet. */
  datatype PetBody = PetBody(name: Cell, species: Cell, breed: Cell, ageYears: Cell, ageMonths: Cell,
                             weight: Cell, gender: Cell, color: Cell, location: Cell)

  /** A `pets` row: the owner, the client's columns and `created_at`. */
  datatype Pet = Pet(userId: nat, fields: PetBody, createdAt: int)

  /** The 201 reply of `POST /`. */
  datatype AddedPet = AddedPet(id: nat, userId: nat, name: Cell, species: Cell, breed: Cell, message: string)

  const FetchFailed := "Server error fetching pets"
  const AddFailed := "Server error adding pet"
  const DeleteFailed := "Server error deleting pet"
  const NotFound := "Pet not found or unauthorized"
  const PetAdded := "Pet added successfully"
  const PetDeleted := "Pet deleted successfully"

  /** `WHERE user_id = ?`. */
  function OwnedBy(uid: nat): Row<Pet> -> bool
  {
    (r: Row<Pet>) => r.data.userId == uid
  }

  /** `WHERE id = ? AND user_id = ?`. */
  function OwnedWithId(id: int, uid: nat): Row<Pet> -> bool
  {
    (r: Row<Pet>) => r.id == id && r.data.userId == uid
  }

  /** The `created_at` sort key. */
  function CreatedAt(r: Row<Pet>): Option<int>
  {
    Some(r.data.createdAt)
  }

  /**
   * `GET /`: exactly the caller's pets, newest first, or 500 when the query
   * fails.
   */
  function List(rows: seq<Row<Pet>>, user: Jwt.Payload, fault: bool): (r: Response<seq<Row<Pet>>>)
    ensures fault ==> r == Error(500, FetchFailed)
    ensures !fault ==> r.status == 200 && r.body.Json?
    ensures !fault ==> multiset(r.body.value) == multiset(Filter(rows, OwnedBy(user.id)))
    ensures !fault ==> forall i :: 0 <= i < |r.body.value| ==> r.body.value[i] in rows && r.body.value[i].data.userId == user.id
    ensures !fault ==> forall i :: 0 <= i < |rows| && rows[i].data.userId == user.id ==> rows[i] in r.body.value
    ensures !fault ==> Descending(r.body.value, CreatedAt)
  {
    if fault then Error(500, FetchFailed)
    else Response(200, Json(Select(rows, OwnedBy(user.id), CreatedAt)))
  }

  /** No pet of another user is ever listed to this one. */
  lemma {:induction false} ListIsPrivate(rows: seq<Row<Pet>>, user: Jwt.Payload, other: nat)
    requires other != user.id
    ensures List(rows, user, false).body.value == List(Filter(rows, Not(OwnedBy(other))), user, false).body.value
  {
    FilterOthers(rows, user.id, other);
  }

  /** Dropping another owner's rows leaves this owner's filter as it was. */
  lemma {:induction false} FilterOthers(rows: seq<Row<Pet>>, uid: nat, other: nat)
    requires other != uid
    ensures Filter(Filter(rows, Not(OwnedBy(other))), OwnedBy(uid)) == Filter(rows, OwnedBy(uid))
  {
    if rows != [] {
      FilterOthers(rows[1..], uid, other);
    }
  }

  /**
   * `POST /`: one row owned by the caller, stamped `now`, and the 201 reply
   * echoing its id, owner, name, species and breed; 500 and no change when
   * the insert fails.
   */
  method Add(pets: Table<Pet>, user: Jwt.Payload, body: PetBody, now: int, fault: bool)
    returns (res: Response<AddedPet>)
    requires pets.Valid()
    modifies pets
    ensures pets.Valid()
    ensures fault ==> res == Error(500, AddFailed) && pets.rows == old(pets.rows) && pets.nextId == old(pets.nextId)
    ensures !fault ==>
              var id := old(pets.nextId);
              && pets.rows == old(pets.rows) + [Row(id, Pet(user.id, body, now))]
              && pets.nextId == id + 1
              && res == Response(201, Json(AddedPet(id, user.id, body.name, body.species, body.breed, PetAdded)))
  {
    if fault {
      return Error(500, AddFailed);
    }
    var id := pets.Insert(Pet(user.id, body, now));
    res := Response(201, Json(AddedPet(id, user.id, body.name, body.species, body.breed, PetAdded)));
  }

  /**
   * `DELETE /:id`: removes the caller's pet with that id. When there is none,
   * whether it does not exist or belongs to someone else, the reply is 404
   * and the table is unchanged; 500 and no change when the query fails.
   */
  method Remove(pets: Table<Pet>, user: Jwt.Payload, id: int, fault: bool)
    returns (res: Response<Message>)
    requires pets.Valid()
    modifies pets
    ensures pets.Valid() && pets.nextId == old(pets.nextId)
    ensures fault ==> res == Error(500, DeleteFailed) && pets.rows == old(pets.rows)
    ensures !fault ==> pets.rows == Filter(old(pets.rows), Not(OwnedWithId(id, user.id)))
    ensures !fault ==> |old(pets.rows)| - |pets.rows| <= 1
    ensures !fault ==>
              (res == Error(404, NotFound) <==>
               forall i :: 0 <= i < |old(pets.rows)| ==> !OwnedWithId(id, user.id)(old(pets.rows)[i]))
    ensures !fault && res.status != 404 ==> res == Response(200, Json(Message(PetDeleted)))
    ensures res.status == 404 ==> pets.rows == old(pets.rows)
    ensures forall i :: 0 <= i < |old(pets.rows)| && old(pets.rows)[i].data.userId != user.id ==> old(pets.rows)[i] in pets.rows
  {
    if fault {
      return Error(500, DeleteFailed);
    }
    AtMostOneWithId(pets.rows, if id < 0 then 0 else id, OwnedWithId(id, user.id));
    ghost var before := pets.rows;
    var affected := pets.DeleteWhere(OwnedWithId(id, user.id));
    FilterCount(before, OwnedWithId(id, user.id));
    if affected == 0 {
      return Error(404, NotFound);
    }
    res := Response(200, Json(Message(PetDeleted)));
  }
}
