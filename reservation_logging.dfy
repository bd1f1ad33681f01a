/** The logging decorator of the reservation service
    (pkg/reservations/logging.go). It wraps a service, forwards each call,
    and after the call returns (on the error path too, as a deferred call
    does) appends one entry holding the method name, the key argument and the
    error being returned. FindByID, FindByEmployeeID and FindByDate are not
    overridden: they forward without logging. */
module ReservationsLogging {
  import opened Pkg
  import opened Logging
  import opened ReservationRepo
  import opened Reservations

  function SaveEntry(userID: int, err: Option<Error>): (e: Entry)
    ensures Keys(e) == ["method", "user_id", "err"] && LoggedError(e) == Some(err)
    ensures e[0] == Field("method", Text("save"))
    ensures e[1].value == Number(userID)
  {
    [Field("method", Text("save")), Field("user_id", Number(userID)), Field("err", Failure(err))]
  }

  function ListEntry(err: Option<Error>): (e: Entry)
    ensures Keys(e) == ["method", "err"] && LoggedError(e) == Some(err)
    ensures e[0] == Field("method", Text("list"))
  {
    [Field("method", Text("list")), Field("err", Failure(err))]
  }

  function RemoveEntry(id: int, err: Option<Error>): (e: Entry)
    ensures Keys(e) == ["method", "id", "err"] && LoggedError(e) == Some(err)
    ensures e[0] == Field("method", Text("remove"))
    ensures e[1].value == Number(id)
  {
    [Field("method", Text("remove")), Field("id", Number(id)), Field("err", Failure(err))]
  }

  function UpdateEntry(userID: int, err: Option<Error>): (e: Entry)
    ensures Keys(e) == ["method", "user_id", "err"] && LoggedError(e) == Some(err)
    ensures e[0] == Field("method", Text("update"))
    ensures e[1].value == Number(userID)
  {
    [Field("method", Text("update")), Field("user_id", Number(userID)), Field("err", Failure(err))]
  }

  /** `LoggingMiddleware(logger)(next)`: the log stands for the logger. */
  class LoggingMiddleware {
    const next: Service
    var log: seq<Entry>

    constructor (next: Service)
      ensures this.next == next && log == []
    {
      this.next := next;
      log := [];
    }

    method Save(r: Reservation) returns (saved: Option<Reservation>, err: Option<Error>)
      requires next.repo.Valid()
      modifies this, next.repo
      ensures next.repo.Valid()
      ensures Saved(saved, err, next.repo.Snapshot()) == SaveOutcome(old(next.repo.Snapshot()), r)
      ensures log == old(log) + [SaveEntry(r.userID, err)]
    {
      saved, err := next.Save(r);
      log := log + [SaveEntry(r.userID, err)];
    }

    method List() returns (list: Result<seq<Reservation>>)
      requires next.repo.Valid()
      modifies this
      ensures list == ListOutcome(next.repo.Snapshot())
      ensures log == old(log) + [ListEntry(ErrorOf(list))]
    {
      list := next.List();
      log := log + [ListEntry(ErrorOf(list))];
    }

    method Remove(id: int) returns (err: Option<Error>)
      requires next.repo.Valid()
      modifies this, next.repo
      ensures next.repo.Valid()
      ensures Removed(err, next.repo.Snapshot()) == RemoveOutcome(old(next.repo.Snapshot()), id)
      ensures log == old(log) + [RemoveEntry(id, err)]
    {
      err := next.Remove(id);
      log := log + [RemoveEntry(id, err)];
    }

    method Update(r: Reservation) returns (updated: Option<Reservation>, created: bool, err: Option<Error>)
      requires next.repo.Valid()
      modifies this, next.repo
      ensures next.repo.Valid()
      ensures Upserted(updated, created, err, next.repo.Snapshot()) == UpdateOutcome(old(next.repo.Snapshot()), r)
      ensures log == old(log) + [UpdateEntry(r.userID, err)]
    {
      updated, created, err := next.Update(r);
      log := log + [UpdateEntry(r.userID, err)];
    }

    /** Forwarded through the embedded service; no entry is written. */
    method FindByID(id: int) returns (r: Result<Reservation>)
      ensures r == next.repo.Snapshot().FindByID(id)
    {
      r := next.FindByID(id);
    }

    /** Forwarded through the embedded service; no entry is written. */
    method FindByEmployeeID(userID: int) returns (r: Result<seq<Reservation>>)
      requires next.repo.Valid()
      ensures r == next.repo.Snapshot().FindByEmployeeID(userID)
    {
      r := next.FindByEmployeeID(userID);
    }

    /** Forwarded through the embedded service; no entry is written. */
    method FindByDate(date: int) returns (r: Result<seq<Reservation>>)
      requires next.repo.Valid()
      ensures r == next.repo.Snapshot().FindByDate(date)
    {
      r := next.FindByDate(date);
    }
  }
}
