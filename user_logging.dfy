/** The logging decorator of the user service (pkg/userlist/logging.go).
    Save and Update log the user's name and never the password; Remove logs
    the id; List logs only the method and error. */
module UserlistLogging {
  import opened Pkg
  import opened Logging
  import opened UserRepo
  import opened Userlist

  function SaveEntry(u: User, err: Option<Error>): (e: Entry)
    ensures Keys(e) == ["method", "name", "err"] && LoggedError(e) == Some(err)
    ensures e[0] == Field("method", Text("save"))
    ensures e[1].value == Text(u.name)
  {
    [Field("method", Text("save")), Field("name", Text(u.name)), Field("err", Failure(err))]
  }

  function ListEntry(err: Option<Error>): (e: Entry)
    ensures Keys(e) == ["method", "err"] && LoggedError(e) == Some(err)
    ensures e[0] == Field("method", Text("list"))
  {
    [Field("method", Text("list")), Field("err", Failure(err))]
  }

  function RemoveEntry(id: int, err: Option<Error>): (e: Entry)
    ensures Keys(e) == ["method", "id", "err"] && LoggedError(e) == Some(err)
    ensures e[0] == Field("method", Text("remove"))
    ensures e[1].value == Number(id)
  {
    [Field("method", Text("remove")), Field("id", Number(id)), Field("err", Failure(err))]
  }

  function UpdateEntry(u: User, err: Option<Error>): (e: Entry)
    ensures Keys(e) == ["method", "name", "err"] && LoggedError(e) == Some(err)
    ensures e[0] == Field("method", Text("update"))
    ensures e[1].value == Text(u.name)
  {
    [Field("method", Text("update")), Field("name", Text(u.name)), Field("err", Failure(err))]
  }

  /** The entries Save and Update write depend on the user only through its
      name: changing the password, or any field but the name, logs the same
      entry. */
  lemma EntriesOmitPassword(u: User, password: string, designation: string, employeeID: string, err: Option<Error>)
    ensures var v := u.(password := password, designation := designation, employeeID := employeeID);
      SaveEntry(v, err) == SaveEntry(u, err) && UpdateEntry(v, err) == UpdateEntry(u, err)
  {
  }

  class LoggingMiddleware {
    const next: Service
    var log: seq<Entry>

    constructor (next: Service)
      ensures this.next == next && log == []
    {
      this.next := next;
      log := [];
    }

    method Save(u: User, now: int) returns (saved: Option<User>, err: Option<Error>)
      requires next.repo.Valid()
      modifies this, next.repo
      ensures next.repo.Valid()
      ensures Saved(saved, err, next.repo.Snapshot()) == SaveOutcome(old(next.repo.Snapshot()), u, now)
      ensures log == old(log) + [SaveEntry(u, err)]
    {
      saved, err := next.Save(u, now);
      log := log + [SaveEntry(u, err)];
    }

    method List() returns (list: Result<seq<User>>)
      requires next.repo.Valid()
      modifies this
      ensures list == ListOutcome(next.repo.Snapshot())
      ensures log == old(log) + [ListEntry(ErrorOf(list))]
    {
      list := next.List();
      log := log + [ListEntry(ErrorOf(list))];
    }

    method Remove(id: int) returns (err: Option<Error>)
      requires next.repo.Valid()
      modifies this, next.repo
      ensures next.repo.Valid()
      ensures Removed(err, next.repo.Snapshot()) == RemoveOutcome(old(next.repo.Snapshot()), id)
      ensures log == old(log) + [RemoveEntry(id, err)]
    {
      err := next.Remove(id);
      log := log + [RemoveEntry(id, err)];
    }

    method Update(u: User) returns (updated: Option<User>, created: bool, err: Option<Error>)
      requires next.repo.Valid()
      modifies this, next.repo
      ensures next.repo.Valid()
      ensures Upserted(updated, created, err, next.repo.Snapshot()) == UpdateOutcome(old(next.repo.Snapshot()), u)
      ensures log == old(log) + [UpdateEntry(u, err)]
    {
      updated, created, err := next.Update(u);
      log := log + [UpdateEntry(u, err)];
    }
  }
}
