/** The reservation service (pkg/reservations/service.go): thin
    orchestration over the reservation repository with an update-or-insert
    policy and error wrapping. The `*Outcome` functions state what each
    operation returns and leaves in the table; `Service` is the object the
    transport layer calls, and each of its methods is proved to do exactly
    what its outcome function says. */
module Reservations {
  import opened Pkg
  import opened Table
  import opened ReservationRepo

  /** What Save returns and the table it leaves. */
  datatype Saved = Saved(record: Option<Reservation>, err: Option<Error>, store: Store)

  /** What Update returns (record, created flag, error) and the table it leaves. */
  datatype Upserted = Upserted(record: Option<Reservation>, created: bool, err: Option<Error>, store: Store)

  /** What Remove returns and the table it leaves. */
  datatype Removed = Removed(err: Option<Error>, store: Store)

  /** Save inserts the reservation as given: on success the result is the
      input changed only in the id the repository assigned; on failure there
      is no record and the repository's error is wrapped. */
  function SaveOutcome(s: Store, r: Reservation): (o: Saved)
    requires s.Valid()
    ensures o.store.Valid()
    ensures o.err.None? <==> InsertOp !in s.faults
    ensures o.err.None? ==>
      && o.record.Some?
      && o.record.value == r.(id := o.record.value.id)
      && o.record.value.id !in s.rows
      && o.store.rows == s.rows[o.record.value.id := o.record.value]
    ensures o.err.Some? ==>
      && o.record.None?
      && o.err.value == Fresh("could not save reservation: " + s.faults[InsertOp].Message())
      && o.store == s
  {
    var a := s.Insert(r);
    if a.err.Some? then Saved(None, Some(Wrap("could not save reservation: ", a.err.value)), a.store)
    else Saved(Some(a.record), None, a.store)
  }

  /** List returns the repository's list unchanged, or wraps its failure. */
  function ListOutcome(s: Store): (r: Result<seq<Reservation>>)
    requires s.Valid()
    ensures s.FindAll().Ok? ==> r == s.FindAll()
    ensures s.FindAll().Err? ==> r == Err(Fresh("could not list all reservations: " + s.FindAll().error.Message()))
  {
    var list := s.FindAll();
    if list.Err? then Err(Wrap("could not list all reservations: ", list.error)) else list
  }

  /** Update first asks the repository to update. Exactly the not-found
      sentinel makes it insert the same record instead, reporting
      `created`; any other failure is wrapped and nothing is inserted. */
  function UpdateOutcome(s: Store, r: Reservation): (o: Upserted)
    requires s.Valid()
    ensures o.store.Valid()
    ensures o.created ==> o.err.None? && o.record.Some?
    ensures o.err.Some? ==> o.record.None? && !o.created
    // the repository updated the row: the record comes back as given
    ensures s.Update(r).err.None? ==>
      o == Upserted(Some(r), false, None, s.Update(r).store)
    // not found, and the fallback insert succeeded
    ensures s.Update(r).err == Some(ReservationNotFound) && InsertOp !in s.faults ==>
      && o.created && o.err.None?
      && o.record.value == r.(id := o.record.value.id)
      && o.record.value.id !in s.rows
      && o.store.rows == s.rows[o.record.value.id := o.record.value]
    // not found, and the fallback insert failed
    ensures s.Update(r).err == Some(ReservationNotFound) && InsertOp in s.faults ==>
      o == Upserted(None, false, Some(Fresh("could not create reservation: " + s.faults[InsertOp].Message())), s)
    // any other failure: no insert is attempted
    ensures s.Update(r).err.Some? && s.Update(r).err != Some(ReservationNotFound) ==>
      o == Upserted(None, false, Some(Fresh("could not update reservation: " + s.Update(r).err.value.Message())), s)
  {
    var u := s.Update(r);
    if u.err == Some(ReservationNotFound) then
      var a := u.store.Insert(r);
      if a.err.Some? then Upserted(None, false, Some(Wrap("could not create reservation: ", a.err.value)), a.store)
      else Upserted(Some(a.record), true, None, a.store)
    else if u.err.Some? then Upserted(None, false, Some(Wrap("could not update reservation: ", u.err.value)), u.store)
    else Upserted(Some(r), false, None, u.store)
  }

  /** Remove passes the not-found sentinel through unchanged and replaces
      every other failure by a fresh, wrapped error. */
  function RemoveOutcome(s: Store, id: int): (o: Removed)
    requires s.Valid()
    ensures o.store == s.DeleteByID(id).store
    ensures o.err.None? <==> s.DeleteByID(id).err.None?
    ensures s.DeleteByID(id).err == Some(ReservationNotFound) ==> o.err == Some(ReservationNotFound)
    ensures s.DeleteByID(id).err.Some? && s.DeleteByID(id).err != Some(ReservationNotFound) ==>
      && o.err == Some(Fresh("could not remove reservation: " + s.DeleteByID(id).err.value.Message()))
      && o.err != Some(ReservationNotFound)
  {
    var d := s.DeleteByID(id);
    if d.err.Some? then
      if d.err == Some(ReservationNotFound) then Removed(d.err, d.store)
      else Removed(Some(Wrap("could not remove reservation: ", d.err.value)), d.store)
    else Removed(None, d.store)
  }

  /** Save followed by FindByID on the assigned id gives back the input,
      changed only in its id. */
  lemma SaveThenFindByID(s: Store, r: Reservation)
    requires s.Valid() && InsertOp !in s.faults && FindByIDOp !in s.faults
    ensures var o := SaveOutcome(s, r);
      && o.record.Some?
      && o.store.FindByID(o.record.value.id) == Ok(r.(id := o.record.value.id))
  {
  }

  /** An update of an id the table does not hold stores exactly what Save
      would have stored, returns the same record and reports `created`
      exactly when that insert succeeds. */
  lemma UpdateOfMissingIsSave(s: Store, r: Reservation)
    requires s.Valid() && UpdateOp !in s.faults && r.id !in s.rows
    ensures var u, v := UpdateOutcome(s, r), SaveOutcome(s, r);
      && u.record == v.record
      && u.store == v.store
      && u.created == v.err.None?
      && u.err.Some? == v.err.Some?
  {
  }

  /** An update of an id the table holds keeps the id, stores the record
      under it and does not report `created`. */
  lemma UpdateOfExistingKeepsID(s: Store, r: Reservation)
    requires s.Valid() && UpdateOp !in s.faults && r.id in s.rows
    ensures var u := UpdateOutcome(s, r);
      && u.record == Some(r) && !u.created && u.err.None?
      && u.store.rows == s.rows[r.id := r]
      && u.store.rows.Keys == s.rows.Keys
  {
  }

  /** Removing a missing id answers the bare sentinel; removing a present one
      makes a later FindByID of it fail with that sentinel. */
  lemma RemoveThenFindByID(s: Store, id: int)
    requires s.Valid() && DeleteByIDOp !in s.faults && FindByIDOp !in s.faults
    ensures var o := RemoveOutcome(s, id);
      && (o.err.None? <==> id in s.rows)
      && (id !in s.rows ==> o.err == Some(ReservationNotFound))
      && o.store.FindByID(id) == Err(ReservationNotFound)
  {
  }

  /** The service object; it holds the repository and nothing else. */
  class Service {
    const repo: Repository

    constructor (repo: Repository)
      ensures this.repo == repo
    {
      this.repo := repo;
    }

    method Save(r: Reservation) returns (saved: Option<Reservation>, err: Option<Error>)
      requires repo.Valid()
      modifies repo
      ensures repo.Valid()
      ensures Saved(saved, err, repo.Snapshot()) == SaveOutcome(old(repo.Snapshot()), r)
    {
      var stored, e := repo.Insert(r);
      if e.Some? {
        return None, Some(Wrap("could not save reservation: ", e.value));
      }
      return Some(stored), None;
    }

    /** Returned verbatim from the repository. */
    method FindByID(id: int) returns (r: Result<Reservation>)
      ensures r == repo.Snapshot().FindByID(id)
    {
      r := repo.Snapshot().FindByID(id);
    }

    /** Returned verbatim from the repository. */
    method FindByEmployeeID(userID: int) returns (r: Result<seq<Reservation>>)
      requires repo.Valid()
      ensures r == repo.Snapshot().FindByEmployeeID(userID)
    {
      r := repo.Snapshot().FindByEmployeeID(userID);
    }

    /** Returned verbatim from the repository. */
    method FindByDate(date: int) returns (r: Result<seq<Reservation>>)
      requires repo.Valid()
      ensures r == repo.Snapshot().FindByDate(date)
    {
      r := repo.Snapshot().FindByDate(date);
    }

    method List() returns (r: Result<seq<Reservation>>)
      requires repo.Valid()
      ensures r == ListOutcome(repo.Snapshot())
    {
      var list := repo.Snapshot().FindAll();
      if list.Err? {
        return Err(Wrap("could not list all reservations: ", list.error));
      }
      return list;
    }

    method Update(r: Reservation) returns (updated: Option<Reservation>, created: bool, err: Option<Error>)
      requires repo.Valid()
      modifies repo
      ensures repo.Valid()
      ensures Upserted(updated, created, err, repo.Snapshot()) == UpdateOutcome(old(repo.Snapshot()), r)
    {
      var e := repo.Update(r);
      if e == Some(ReservationNotFound) {
        var stored, e2 := repo.Insert(r);
        if e2.Some? {
          return None, false, Some(Wrap("could not create reservation: ", e2.value));
        }
        return Some(stored), true, None;
      }
      if e.Some? {
        return None, false, Some(Wrap("could not update reservation: ", e.value));
      }
      return Some(r), false, None;
    }

    method Remove(id: int) returns (err: Option<Error>)
      requires repo.Valid()
      modifies repo
      ensures repo.Valid()
      ensures Removed(err, repo.Snapshot()) == RemoveOutcome(old(repo.Snapshot()), id)
    {
      var e := repo.DeleteByID(id);
      if e.Some? {
        if e == Some(ReservationNotFound) {
          return e;
        }
        return Some(Wrap("could not remove reservation: ", e.value));
      }
      return None;
    }
  }
}
