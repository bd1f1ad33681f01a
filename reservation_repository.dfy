/** An in-memory implementation of the ReservationRepository contract
    (pkg/reservation.go): an id-to-row table with auto-increment ids, and a
    failure that a caller can inject into each operation. `Store` is the
    table as a value and states what each operation answers; `Repository`
    is the object the services hold, whose methods change it in place. */
module ReservationRepo {
  import opened Pkg
  import opened Table

  const SecondsPerDay: int := 86400

  /** The calendar day (UTC) an instant falls on. */
  function Day(t: int): int {
    t / SecondsPerDay
  }

  /** What Insert writes back into the caller's record, and its error. */
  datatype Inserted = Inserted(store: Store, record: Reservation, err: Option<Error>)

  /** The table after an Update or DeleteByID, and the error returned. */
  datatype Written = Written(store: Store, err: Option<Error>)

  datatype Store = Store(rows: map<int, Reservation>, nextID: int, faults: map<Op, Error>)
  {
    /** Every row sits under its own id, and every id is below the next one
        to be assigned. */
    predicate Valid() {
      1 <= nextID && forall k :: k in rows ==> 1 <= k < nextID && rows[k].id == k
    }

    /** Insert: on success the record gets a fresh id, is stored under it and
        nothing else changes; on failure nothing changes at all. */
    function Insert(r: Reservation): (a: Inserted)
      requires Valid()
      ensures a.store.Valid() && a.store.faults == faults
      ensures a.err.Some? <==> InsertOp in faults
      ensures a.err.Some? ==> a.err.value == faults[InsertOp] && a.store == this && a.record == r
      ensures a.err.None? ==>
        && a.record == r.(id := a.record.id)
        && a.record.id !in rows
        && a.store.rows == rows[a.record.id := a.record]
    {
      if InsertOp in faults then Inserted(this, r, Some(faults[InsertOp]))
      else
        var stored := r.(id := nextID);
        Inserted(this.(rows := rows[nextID := stored], nextID := nextID + 1), stored, None)
    }

    /** Update: replaces the row with the record's id; a missing id answers
        the not-found sentinel. */
    function Update(r: Reservation): (w: Written)
      requires Valid()
      ensures w.store.Valid() && w.store.faults == faults && w.store.nextID == nextID
      ensures UpdateOp in faults ==> w == Written(this, Some(faults[UpdateOp]))
      ensures UpdateOp !in faults && r.id in rows ==> w.err.None? && w.store.rows == rows[r.id := r]
      ensures UpdateOp !in faults && r.id !in rows ==> w == Written(this, Some(ReservationNotFound))
    {
      if UpdateOp in faults then Written(this, Some(faults[UpdateOp]))
      else if r.id in rows then Written(this.(rows := rows[r.id := r]), None)
      else Written(this, Some(ReservationNotFound))
    }

    /** DeleteByID: removes the row; a missing id answers the not-found
        sentinel. */
    function DeleteByID(id: int): (w: Written)
      requires Valid()
      ensures w.store.Valid() && w.store.faults == faults && w.store.nextID == nextID
      ensures DeleteByIDOp in faults ==> w == Written(this, Some(faults[DeleteByIDOp]))
      ensures DeleteByIDOp !in faults && id in rows ==> w.err.None? && w.store.rows == rows - {id}
      ensures DeleteByIDOp !in faults && id !in rows ==> w == Written(this, Some(ReservationNotFound))
    {
      if DeleteByIDOp in faults then Written(this, Some(faults[DeleteByIDOp]))
      else if id in rows then Written(this.(rows := rows - {id}), None)
      else Written(this, Some(ReservationNotFound))
    }

    function FindByID(id: int): (r: Result<Reservation>)
      ensures FindByIDOp in faults ==> r == Err(faults[FindByIDOp])
      ensures FindByIDOp !in faults ==> (r.Ok? <==> id in rows)
      ensures FindByIDOp !in faults && id in rows ==> r.value == rows[id]
      ensures FindByIDOp !in faults && id !in rows ==> r == Err(ReservationNotFound)
    {
      if FindByIDOp in faults then Err(faults[FindByIDOp])
      else if id in rows then Ok(rows[id])
      else Err(ReservationNotFound)
    }

    /** The stored rows that satisfy `p`, each once, in ascending id order. */
    function Select(p: Reservation -> bool): (s: seq<Reservation>)
      requires Valid()
      ensures forall i :: 0 <= i < |s| ==> s[i].id in rows && rows[s[i].id] == s[i] && p(s[i])
      ensures forall k :: k in rows && p(rows[k]) ==> rows[k] in s
      ensures forall i, j :: 0 <= i < j < |s| ==> s[i].id < s[j].id
    {
      var ks := KeysWhere(rows, p, 1, nextID);
      var s := RowsAt(rows, ks);
      assert forall i :: 0 <= i < |s| ==> s[i].id == ks[i];
      assert forall k :: k in rows && p(rows[k]) ==> rows[k] in s by {
        forall k | k in rows && p(rows[k]) ensures rows[k] in s {
          var i :| 0 <= i < |ks| && ks[i] == k;
          assert s[i] == rows[k];
        }
      }
      s
    }

    /** Every stored row, in ascending id order. */
    function FindAll(): (r: Result<seq<Reservation>>)
      requires Valid()
      ensures FindAllOp in faults ==> r == Err(faults[FindAllOp])
      ensures FindAllOp !in faults ==> r.Ok?
      ensures r.Ok? ==> forall x :: x in r.value ==> x in rows.Values
      ensures r.Ok? ==> forall k :: k in rows ==> rows[k] in r.value
      ensures r.Ok? ==> forall i, j :: 0 <= i < j < |r.value| ==> r.value[i].id < r.value[j].id
    {
      if FindAllOp in faults then Err(faults[FindAllOp]) else Ok(Select(_ => true))
    }

    /** The reservations of one user (the `user_id` column). */
    function FindByEmployeeID(userID: int): (r: Result<seq<Reservation>>)
      requires Valid()
      ensures FindByEmployeeIDOp in faults ==> r == Err(faults[FindByEmployeeIDOp])
      ensures FindByEmployeeIDOp !in faults ==> r.Ok?
      ensures r.Ok? ==> forall x :: x in r.value ==> x in rows.Values && x.userID == userID
      ensures r.Ok? ==> forall k :: k in rows && rows[k].userID == userID ==> rows[k] in r.value
      ensures r.Ok? ==> forall i, j :: 0 <= i < j < |r.value| ==> r.value[i].id < r.value[j].id
    {
      if FindByEmployeeIDOp in faults then Err(faults[FindByEmployeeIDOp])
      else Ok(Select((x: Reservation) => x.userID == userID))
    }

    /** The reservations whose slot falls on the same calendar day as `date`. */
    function FindByDate(date: int): (r: Result<seq<Reservation>>)
      requires Valid()
      ensures FindByDateOp in faults ==> r == Err(faults[FindByDateOp])
      ensures FindByDateOp !in faults ==> r.Ok?
      ensures r.Ok? ==> forall x :: x in r.value ==> x in rows.Values && Day(x.reservationTime) == Day(date)
      ensures r.Ok? ==> forall k :: k in rows && Day(rows[k].reservationTime) == Day(date) ==> rows[k] in r.value
      ensures r.Ok? ==> forall i, j :: 0 <= i < j < |r.value| ==> r.value[i].id < r.value[j].id
    {
      if FindByDateOp in faults then Err(faults[FindByDateOp])
      else Ok(Select((x: Reservation) => Day(x.reservationTime) == Day(date)))
    }
  }

  /** The repository object: the table lives in its fields. */
  class Repository {
    var rows: map<int, Reservation>
    var nextID: int
    var faults: map<Op, Error>

    function Snapshot(): Store
      reads this
    {
      Store(rows, nextID, faults)
    }

    ghost predicate Valid()
      reads this
    {
      Snapshot().Valid()
    }

    /** An empty table whose operations fail as `faults` says. */
    constructor (faults: map<Op, Error>)
      ensures Valid() && Snapshot() == Store(map[], 1, faults)
    {
      rows := map[];
      nextID := 1;
      this.faults := faults;
    }

    /** Insert writes the assigned id back into the caller's copy, which is
        returned as `stored`. */
    method Insert(r: Reservation) returns (stored: Reservation, err: Option<Error>)
      requires Valid()
      modifies this
      ensures Valid()
      ensures Inserted(Snapshot(), stored, err) == old(Snapshot()).Insert(r)
    {
      if InsertOp in faults {
        return r, Some(faults[InsertOp]);
      }
      stored := r.(id := nextID);
      rows := rows[nextID := stored];
      nextID := nextID + 1;
      err := None;
    }

    method Update(r: Reservation) returns (err: Option<Error>)
      requires Valid()
      modifies this
      ensures Valid()
      ensures Written(Snapshot(), err) == old(Snapshot()).Update(r)
    {
      if UpdateOp in faults {
        err := Some(faults[UpdateOp]);
      } else if r.id in rows {
        rows := rows[r.id := r];
        err := None;
      } else {
        err := Some(ReservationNotFound);
      }
    }

    method DeleteByID(id: int) returns (err: Option<Error>)
      requires Valid()
      modifies this
      ensures Valid()
      ensures Written(Snapshot(), err) == old(Snapshot()).DeleteByID(id)
    {
      if DeleteByIDOp in faults {
        err := Some(faults[DeleteByIDOp]);
      } else if id in rows {
        rows := rows - {id};
        err := None;
      } else {
        err := Some(ReservationNotFound);
      }
    }
  }
}
