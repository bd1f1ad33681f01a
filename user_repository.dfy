/** An in-memory implementation of the UserRepository contract
    (pkg/user.go), extended with the FindByEmployeeID lookup that login
    relies on: an id-to-row table with auto-increment ids and a failure that
    a caller can inject into each operation. */
module UserRepo {
  import opened Pkg
  import opened Table

  /** What Insert writes back into the caller's record, and its error. */
  datatype Inserted = Inserted(store: Store, record: User, err: Option<Error>)

  /** The table after an Update or DeleteByID, and the error returned. */
  datatype Written = Written(store: Store, err: Option<Error>)

  datatype Store = Store(rows: map<int, User>, nextID: int, faults: map<Op, Error>)
  {
    /** Every row sits under its own id, and every id is below the next one
        to be assigned. */
    predicate Valid() {
      1 <= nextID && forall k :: k in rows ==> 1 <= k < nextID && rows[k].id == k
    }

    /** Insert: on success the record gets a fresh id, is stored under it and
        nothing else changes; on failure nothing changes at all. */
    function Insert(u: User): (a: Inserted)
      requires Valid()
      ensures a.store.Valid() && a.store.faults == faults
      ensures a.err.Some? <==> InsertOp in faults
      ensures a.err.Some? ==> a.err.value == faults[InsertOp] && a.store == this && a.record == u
      ensures a.err.None? ==>
        && a.record == u.(id := a.record.id)
        && a.record.id !in rows
        && a.store.rows == rows[a.record.id := a.record]
    {
      if InsertOp in faults then Inserted(this, u, Some(faults[InsertOp]))
      else
        var stored := u.(id := nextID);
        Inserted(this.(rows := rows[nextID := stored], nextID := nextID + 1), stored, None)
    }

    /** Update: replaces the row with the record's id; a missing id answers
        the not-found sentinel. */
    function Update(u: User): (w: Written)
      requires Valid()
      ensures w.store.Valid() && w.store.faults == faults && w.store.nextID == nextID
      ensures UpdateOp in faults ==> w == Written(this, Some(faults[UpdateOp]))
      ensures UpdateOp !in faults && u.id in rows ==> w.err.None? && w.store.rows == rows[u.id := u]
      ensures UpdateOp !in faults && u.id !in rows ==> w == Written(this, Some(UserNotFound))
    {
      if UpdateOp in faults then Written(this, Some(faults[UpdateOp]))
      else if u.id in rows then Written(this.(rows := rows[u.id := u]), None)
      else Written(this, Some(UserNotFound))
    }

    /** DeleteByID: removes the row; a missing id answers the not-found
        sentinel. */
    function DeleteByID(id: int): (w: Written)
      requires Valid()
      ensures w.store.Valid() && w.store.faults == faults && w.store.nextID == nextID
      ensures DeleteByIDOp in faults ==> w == Written(this, Some(faults[DeleteByIDOp]))
      ensures DeleteByIDOp !in faults && id in rows ==> w.err.None? && w.store.rows == rows - {id}
      ensures DeleteByIDOp !in faults && id !in rows ==> w == Written(this, Some(UserNotFound))
    {
      if DeleteByIDOp in faults then Written(this, Some(faults[DeleteByIDOp]))
      else if id in rows then Written(this.(rows := rows - {id}), None)
      else Written(this, Some(UserNotFound))
    }

    function FindByID(id: int): (r: Result<User>)
      ensures FindByIDOp in faults ==> r == Err(faults[FindByIDOp])
      ensures FindByIDOp !in faults ==> (r.Ok? <==> id in rows)
      ensures FindByIDOp !in faults && id in rows ==> r.value == rows[id]
      ensures FindByIDOp !in faults && id !in rows ==> r == Err(UserNotFound)
    {
      if FindByIDOp in faults then Err(faults[FindByIDOp])
      else if id in rows then Ok(rows[id])
      else Err(UserNotFound)
    }

    /** Every stored row, in ascending id order. */
    function FindAll(): (r: Result<seq<User>>)
      requires Valid()
      ensures FindAllOp in faults ==> r == Err(faults[FindAllOp])
      ensures FindAllOp !in faults ==> r.Ok?
      ensures r.Ok? ==> forall x :: x in r.value ==> x in rows.Values
      ensures r.Ok? ==> forall k :: k in rows ==> rows[k] in r.value
      ensures r.Ok? ==> forall i, j :: 0 <= i < j < |r.value| ==> r.value[i].id < r.value[j].id
    {
      if FindAllOp in faults then Err(faults[FindAllOp])
      else
        var ks := KeysWhere(rows, (_: User) => true, 1, nextID);
        var s := RowsAt(rows, ks);
        assert forall k :: k in rows ==> rows[k] in s by {
          forall k | k in rows ensures rows[k] in s {
            var i :| 0 <= i < |ks| && ks[i] == k;
            assert s[i] == rows[k];
          }
        }
        Ok(s)
    }

    /** The user with the given employee id; when several rows share it, the
        one with the lowest id, as a single-row query in key order answers. */
    function FindByEmployeeID(employeeID: string): (r: Result<User>)
      requires Valid()
      ensures FindByEmployeeIDOp in faults ==> r == Err(faults[FindByEmployeeIDOp])
      ensures FindByEmployeeIDOp !in faults ==>
        (r.Ok? <==> exists k :: k in rows && rows[k].employeeID == employeeID)
      ensures FindByEmployeeIDOp !in faults && r.Err? ==> r.error == UserNotFound
      ensures r.Ok? ==> r.value.id in rows && rows[r.value.id] == r.value && r.value.employeeID == employeeID
      ensures r.Ok? ==> forall k :: k in rows && rows[k].employeeID == employeeID ==> r.value.id <= k
    {
      if FindByEmployeeIDOp in faults then Err(faults[FindByEmployeeIDOp])
      else
        var ks := KeysWhere(rows, (x: User) => x.employeeID == employeeID, 1, nextID);
        if ks == [] then Err(UserNotFound)
        else
          assert forall k :: k in rows && rows[k].employeeID == employeeID ==> ks[0] <= k by {
            forall k | k in rows && rows[k].employeeID == employeeID ensures ks[0] <= k {
              var i :| 0 <= i < |ks| && ks[i] == k;
            }
          }
          Ok(rows[ks[0]])
    }
  }

  /** The repository object: the table lives in its fields. */
  class Repository {
    var rows: map<int, User>
    var nextID: int
    var faults: map<Op, Error>

    function Snapshot(): Store
      reads this
    {
      Store(rows, nextID, faults)
    }

    ghost predicate Valid()
      reads this
    {
      Snapshot().Valid()
    }

    /** An empty table whose operations fail as `faults` says. */
    constructor (faults: map<Op, Error>)
      ensures Valid() && Snapshot() == Store(map[], 1, faults)
    {
      rows := map[];
      nextID := 1;
      this.faults := faults;
    }

    /** Insert writes the assigned id back into the caller's copy, which is
        returned as `stored`. */
    method Insert(u: User) returns (stored: User, err: Option<Error>)
      requires Valid()
      modifies this
      ensures Valid()
      ensures Inserted(Snapshot(), stored, err) == old(Snapshot()).Insert(u)
    {
      if InsertOp in faults {
        return u, Some(faults[InsertOp]);
      }
      stored := u.(id := nextID);
      rows := rows[nextID := stored];
      nextID := nextID + 1;
      err := None;
    }

    method Update(u: User) returns (err: Option<Error>)
      requires Valid()
      modifies this
      ensures Valid()
      ensures Written(Snapshot(), err) == old(Snapshot()).Update(u)
    {
      if UpdateOp in faults {
        err := Some(faults[UpdateOp]);
      } else if u.id in rows {
        rows := rows[u.id := u];
        err := None;
      } else {
        err := Some(UserNotFound);
      }
    }

    method DeleteByID(id: int) returns (err: Option<Error>)
      requires Valid()
      modifies this
      ensures Valid()
      ensures Written(Snapshot(), err) == old(Snapshot()).DeleteByID(id)
    {
      if DeleteByIDOp in faults {
        err := Some(faults[DeleteByIDOp]);
      } else if id in rows {
        rows := rows - {id};
        err := None;
      } else {
        err := Some(UserNotFound);
      }
    }
  }
}
