/** The user service (pkg/userlist/service.go): Save stamps the creation
    time and the fixed default password before inserting, Update follows the
    same update-or-insert policy as reservations, and Remove passes the
    not-found sentinel through. The clock is the `now` parameter. */
module Userlist {
  import opened Pkg
  import opened Table
  import opened UserRepo

  /** The credential every newly saved user starts with. */
  const DefaultPassword: string := "password@1234"

  datatype Saved = Saved(record: Option<User>, err: Option<Error>, store: Store)

  datatype Upserted = Upserted(record: Option<User>, created: bool, err: Option<Error>, store: Store)

  datatype Removed = Removed(err: Option<Error>, store: Store)

  /** Save overwrites the password and the creation time whatever the input
      holds, keeps every other field, and inserts; on success the result
      carries the id the repository assigned. */
  function SaveOutcome(s: Store, u: User, now: int): (o: Saved)
    requires s.Valid()
    ensures o.store.Valid()
    ensures o.err.None? <==> InsertOp !in s.faults
    ensures o.err.None? ==>
      && o.record.Some?
      && o.record.value == u.(id := o.record.value.id, password := DefaultPassword, createdAt := now)
      && o.record.value.id !in s.rows
      && o.store.rows == s.rows[o.record.value.id := o.record.value]
    ensures o.err.Some? ==>
      && o.record.None?
      && o.err.value == Fresh("could not save user: " + s.faults[InsertOp].Message())
      && o.store == s
  {
    var a := s.Insert(u.(createdAt := now, password := DefaultPassword));
    if a.err.Some? then Saved(None, Some(Wrap("could not save user: ", a.err.value)), a.store)
    else Saved(Some(a.record), None, a.store)
  }

  /** List returns the repository's list unchanged, or wraps its failure. */
  function ListOutcome(s: Store): (r: Result<seq<User>>)
    requires s.Valid()
    ensures s.FindAll().Ok? ==> r == s.FindAll()
    ensures s.FindAll().Err? ==> r == Err(Fresh("could not list all users: " + s.FindAll().error.Message()))
  {
    var list := s.FindAll();
    if list.Err? then Err(Wrap("could not list all users: ", list.error)) else list
  }

  /** Update first asks the repository to update. Exactly the not-found
      sentinel makes it insert the record exactly as given (without Save's
      default password or timestamp), reporting `created`; any other failure
      is wrapped and nothing is inserted. */
  function UpdateOutcome(s: Store, u: User): (o: Upserted)
    requires s.Valid()
    ensures o.store.Valid()
    ensures o.created ==> o.err.None? && o.record.Some?
    ensures o.err.Some? ==> o.record.None? && !o.created
    ensures s.Update(u).err.None? ==>
      o == Upserted(Some(u), false, None, s.Update(u).store)
    ensures s.Update(u).err == Some(UserNotFound) && InsertOp !in s.faults ==>
      && o.created && o.err.None?
      && o.record.value == u.(id := o.record.value.id)
      && o.record.value.id !in s.rows
      && o.store.rows == s.rows[o.record.value.id := o.record.value]
    ensures s.Update(u).err == Some(UserNotFound) && InsertOp in s.faults ==>
      o == Upserted(None, false, Some(Fresh("could not create user: " + s.faults[InsertOp].Message())), s)
    ensures s.Update(u).err.Some? && s.Update(u).err != Some(UserNotFound) ==>
      o == Upserted(None, false, Some(Fresh("could not update user: " + s.Update(u).err.value.Message())), s)
  {
    var w := s.Update(u);
    if w.err == Some(UserNotFound) then
      var a := w.store.Insert(u);
      if a.err.Some? then Upserted(None, false, Some(Wrap("could not create user: ", a.err.value)), a.store)
      else Upserted(Some(a.record), true, None, a.store)
    else if w.err.Some? then Upserted(None, false, Some(Wrap("could not update user: ", w.err.value)), w.store)
    else Upserted(Some(u), false, None, w.store)
  }

  /** Remove passes the not-found sentinel through unchanged and replaces
      every other failure by a fresh, wrapped error. */
  function RemoveOutcome(s: Store, id: int): (o: Removed)
    requires s.Valid()
    ensures o.store == s.DeleteByID(id).store
    ensures o.err.None? <==> s.DeleteByID(id).err.None?
    ensures s.DeleteByID(id).err == Some(UserNotFound) ==> o.err == Some(UserNotFound)
    ensures s.DeleteByID(id).err.Some? && s.DeleteByID(id).err != Some(UserNotFound) ==>
      && o.err == Some(Fresh("could not remove user: " + s.DeleteByID(id).err.value.Message()))
      && o.err != Some(UserNotFound)
  {
    var d := s.DeleteByID(id);
    if d.err.Some? then
      if d.err == Some(UserNotFound) then Removed(d.err, d.store)
      else Removed(Some(Wrap("could not remove user: ", d.err.value)), d.store)
    else Removed(None, d.store)
  }

  /** The upsert's insert path and Save differ: the fallback keeps the
      password and creation time the caller sent, where Save would have
      replaced them. */
  lemma UpdateFallbackKeepsGivenPassword(s: Store, u: User, now: int)
    requires s.Valid() && UpdateOp !in s.faults && InsertOp !in s.faults && u.id !in s.rows
    ensures var o := UpdateOutcome(s, u);
      && o.created
      && o.record.value.password == u.password
      && o.record.value.createdAt == u.createdAt
    ensures u.password != DefaultPassword ==>
      UpdateOutcome(s, u).store != SaveOutcome(s, u, now).store
  {
    var o, v := UpdateOutcome(s, u), SaveOutcome(s, u, now);
    if u.password != DefaultPassword {
      assert o.record.value.id == v.record.value.id == s.nextID;
      assert o.store.rows[s.nextID].password != v.store.rows[s.nextID].password;
    }
  }

  /** A saved user is found again by its id with the default password. */
  lemma SaveThenFindByID(s: Store, u: User, now: int)
    requires s.Valid() && InsertOp !in s.faults && FindByIDOp !in s.faults
    ensures var o := SaveOutcome(s, u, now);
      && o.record.Some?
      && o.store.FindByID(o.record.value.id).Ok?
      && o.store.FindByID(o.record.value.id).value.password == DefaultPassword
      && o.store.FindByID(o.record.value.id).value.createdAt == now
  {
  }

  /** Removing a missing id answers the bare sentinel; removing a present one
      makes a later FindByID of it fail with that sentinel. */
  lemma RemoveThenFindByID(s: Store, id: int)
    requires s.Valid() && DeleteByIDOp !in s.faults && FindByIDOp !in s.faults
    ensures var o := RemoveOutcome(s, id);
      && (o.err.None? <==> id in s.rows)
      && (id !in s.rows ==> o.err == Some(UserNotFound))
      && o.store.FindByID(id) == Err(UserNotFound)
  {
  }

  /** The service object; it holds the repository and nothing else. */
  class Service {
    const repo: Repository

    constructor (repo: Repository)
      ensures this.repo == repo
    {
      this.repo := repo;
    }

    method Save(u: User, now: int) returns (saved: Option<User>, err: Option<Error>)
      requires repo.Valid()
      modifies repo
      ensures repo.Valid()
      ensures Saved(saved, err, repo.Snapshot()) == SaveOutcome(old(repo.Snapshot()), u, now)
    {
      var user := u.(createdAt := now);
      user := user.(password := DefaultPassword);
      var stored, e := repo.Insert(user);
      if e.Some? {
        return None, Some(Wrap("could not save user: ", e.value));
      }
      return Some(stored), None;
    }

    method List() returns (r: Result<seq<User>>)
      requires repo.Valid()
      ensures r == ListOutcome(repo.Snapshot())
    {
      var list := repo.Snapshot().FindAll();
      if list.Err? {
        return Err(Wrap("could not list all users: ", list.error));
      }
      return list;
    }

    method Update(u: User) returns (updated: Option<User>, created: bool, err: Option<Error>)
      requires repo.Valid()
      modifies repo
      ensures repo.Valid()
      ensures Upserted(updated, created, err, repo.Snapshot()) == UpdateOutcome(old(repo.Snapshot()), u)
    {
      var e := repo.Update(u);
      if e == Some(UserNotFound) {
        var stored, e2 := repo.Insert(u);
        if e2.Some? {
          return None, false, Some(Wrap("could not create user: ", e2.value));
        }
        return Some(stored), true, None;
      }
      if e.Some? {
        return None, false, Some(Wrap("could not update user: ", e.value));
      }
      return Some(u), false, None;
    }

    method Remove(id: int) returns (err: Option<Error>)
      requires repo.Valid()
      modifies repo
      ensures repo.Valid()
      ensures Removed(err, repo.Snapshot()) == RemoveOutcome(old(repo.Snapshot()), id)
    {
      var e := repo.DeleteByID(id);
      if e.Some? {
        if e == Some(UserNotFound) {
          return e;
        }
        return Some(Wrap("could not remove user: ", e.value));
      }
      return None;
    }
  }
}
