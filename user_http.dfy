/** The status decisions of the user HTTP transport (pkg/userlist/http.go):
    writeError's mapping, the status paths of the save, remove and update
    handlers, and the status the HTTP logging middleware reads back. */
module UserlistHttp {
  import opened Pkg
  import opened Table
  import opened Http
  import opened UserRepo
  import opened Userlist

  /** writeError's switch: sentinels by identity, then this package's own
      ErrInvalidRequestBody by type, then 500. */
  function ErrorStatus(e: Error): (code: int)
    ensures code == StatusNotFound <==> e == ResourceNotFound(UserlistPkg) || e == UserNotFound
    ensures code == StatusConflict <==> e == UserAlreadyExists
    ensures code == StatusBadRequest <==>
      e == NonNumericUserID || (e.InvalidRequestBody? && e.origin == UserlistPkg)
    ensures code == StatusMethodNotAllowed <==> e == MethodNotAllowed(UserlistPkg)
    ensures code in {StatusNotFound, StatusConflict, StatusBadRequest, StatusMethodNotAllowed, StatusInternalServerError}
  {
    if e == ResourceNotFound(UserlistPkg) || e == UserNotFound then StatusNotFound
    else if e == UserAlreadyExists then StatusConflict
    else if e == NonNumericUserID then StatusBadRequest
    else if e == MethodNotAllowed(UserlistPkg) then StatusMethodNotAllowed
    else if e.InvalidRequestBody? && e.origin == UserlistPkg then StatusBadRequest
    else StatusInternalServerError
  }

  /** Every error a service wraps answers 500, and so does every error of
      another package: the reservation sentinels and the other packages'
      route and body errors. */
  lemma WrappedErrorsAre500(prefix: string, cause: Error)
    ensures ErrorStatus(Wrap(prefix, cause)) == StatusInternalServerError
    ensures ErrorStatus(ReservationNotFound) == StatusInternalServerError
    ensures ErrorStatus(ReservationAlreadyExists) == StatusInternalServerError
    ensures ErrorStatus(NonNumericReservationID) == StatusInternalServerError
    ensures ErrorStatus(InvalidRequestBody(ReservationsPkg, cause.Message())) == StatusInternalServerError
    ensures forall o: Origin :: o != UserlistPkg ==>
      ErrorStatus(ResourceNotFound(o)) == StatusInternalServerError &&
      ErrorStatus(MethodNotAllowed(o)) == StatusInternalServerError
    ensures forall o: Origin, c: string :: o != UserlistPkg ==>
      ErrorStatus(InvalidRequestBody(o, c)) == StatusInternalServerError
  {
  }

  /** The body of a save or an update request. */
  datatype UserRequest = UserRequest(name: string, password: string, designation: string, employeeID: string)

  /** The user the save handler gives the service: no id, no password, no
      creation time. */
  function SaveRecord(req: UserRequest): (u: User)
    ensures u.id == 0 && u.password == "" && u.createdAt == ZeroTime
    ensures u.name == req.name && u.designation == req.designation && u.employeeID == req.employeeID
  {
    User(0, req.name, "", req.designation, req.employeeID, ZeroTime)
  }

  /** The user the update handler gives the service: the id from the path
      and the password from the body. */
  function UpdateRecord(id: int, req: UserRequest): (u: User)
    ensures u.id == id && u.password == req.password && u.createdAt == ZeroTime
    ensures u.name == req.name && u.designation == req.designation && u.employeeID == req.employeeID
  {
    User(id, req.name, req.password, req.designation, req.employeeID, ZeroTime)
  }

  /** The password a client sends to the save endpoint never reaches the
      table: what Save stores does not depend on it, and it is the default. */
  lemma SaveIgnoresBodyPassword(s: Store, req: UserRequest, password: string, now: int)
    requires s.Valid() && InsertOp !in s.faults
    ensures SaveOutcome(s, SaveRecord(req.(password := password)), now) == SaveOutcome(s, SaveRecord(req), now)
    ensures var o := SaveOutcome(s, SaveRecord(req), now);
      && o.record.value.password == DefaultPassword
      && o.record.value.name == req.name
      && o.record.value.employeeID == req.employeeID
  {
  }

  /** The password a client sends to the update endpoint is stored as sent,
      whether the row is replaced or created. */
  lemma UpdateStoresBodyPassword(s: Store, id: int, req: UserRequest)
    requires s.Valid() && UpdateOp !in s.faults && InsertOp !in s.faults
    ensures var o := UpdateOutcome(s, UpdateRecord(id, req));
      && o.record.Some?
      && o.record.value.password == req.password
      && o.store.rows[o.record.value.id] == o.record.value
      && (id in s.rows ==> o.record.value.id == id)
  {
  }

  /** The status the logging middleware records for a save request. */
  function SaveStatus(s: Store, body: Decoded<UserRequest>, now: int): (code: int)
    requires s.Valid()
    ensures body.Undecodable? ==> code == StatusBadRequest
    ensures body.Decoded? ==>
      && (code == StatusOK <==> InsertOp !in s.faults)
      && (code == StatusInternalServerError <==> InsertOp in s.faults)
  {
    if body.Undecodable? then ErrorStatus(InvalidRequestBody(UserlistPkg, body.cause))
    else
      var o := SaveOutcome(s, SaveRecord(body.value), now);
      if o.err.Some? then ErrorStatus(o.err.value) else StatusOK
  }

  /** The status the logging middleware records for a remove request. */
  function RemoveStatus(s: Store, id: Option<int>): (code: int)
    requires s.Valid()
    ensures id.None? ==> code == StatusBadRequest
    ensures id.Some? ==> (code == StatusNoContent <==> RemoveOutcome(s, id.value).err.None?)
    ensures id.Some? && DeleteByIDOp !in s.faults ==>
      (id.value in s.rows ==> code == StatusNoContent) && (id.value !in s.rows ==> code == StatusNotFound)
    ensures id.Some? && DeleteByIDOp in s.faults ==>
      code == ErrorStatus(RemoveOutcome(s, id.value).err.value)
    ensures id.Some? && DeleteByIDOp in s.faults && s.faults[DeleteByIDOp] != UserNotFound ==>
      code == StatusInternalServerError
  {
    if id.None? then ErrorStatus(NonNumericUserID)
    else
      var o := RemoveOutcome(s, id.value);
      if o.err.Some? then ErrorStatus(o.err.value) else StatusNoContent
  }

  /** The status the logging middleware records for an update request; as
      for reservations it is never 404. */
  function UpdateStatus(s: Store, id: Option<int>, body: Decoded<UserRequest>): (code: int)
    requires s.Valid()
    ensures id.None? || body.Undecodable? ==> code == StatusBadRequest
    ensures id.Some? && body.Decoded? ==>
      var o := UpdateOutcome(s, UpdateRecord(id.value, body.value));
      && (code == StatusCreated <==> o.created)
      && (code == StatusOK <==> o.err.None? && !o.created)
      && (code == StatusInternalServerError <==> o.err.Some?)
    ensures code != StatusNotFound
  {
    if id.None? then ErrorStatus(NonNumericUserID)
    else if body.Undecodable? then ErrorStatus(InvalidRequestBody(UserlistPkg, body.cause))
    else
      var o := UpdateOutcome(s, UpdateRecord(id.value, body.value));
      assert o.err.Some? ==> o.err.value.Fresh?;
      if o.err.Some? then ErrorStatus(o.err.value)
      else if o.created then StatusCreated
      else StatusOK
  }

  class Server {
    const service: Service

    constructor (service: Service)
      ensures this.service == service
    {
      this.service := service;
    }

    /** writeError: sets the status from the error and encodes its text. */
    method WriteError(w: LoggingResponseWriter, e: Error)
      modifies w
      ensures w.statusCode == ErrorStatus(e) && w.errorBody == Some(e.Message())
    {
      w.WriteHeader(ErrorStatus(e));
      w.EncodeError(e.Message());
    }

    /** The router's NotFound handler. */
    method NotFound(w: LoggingResponseWriter)
      modifies w
      ensures w.statusCode == StatusNotFound && w.errorBody == Some("resource not found")
    {
      WriteError(w, ResourceNotFound(UserlistPkg));
    }

    /** handleSaveUser; on success no status is written. */
    method HandleSave(w: LoggingResponseWriter, body: Decoded<UserRequest>, now: int)
      requires service.repo.Valid()
      modifies w, service.repo
      ensures service.repo.Valid()
      ensures body.Undecodable? ==>
        && w.statusCode == StatusBadRequest
        && w.errorBody == Some("invalid request body: " + body.cause)
        && service.repo.Snapshot() == old(service.repo.Snapshot())
      ensures body.Decoded? ==>
        var o := SaveOutcome(old(service.repo.Snapshot()), SaveRecord(body.value), now);
        && service.repo.Snapshot() == o.store
        && (o.err.Some? ==> w.statusCode == ErrorStatus(o.err.value) && w.errorBody == Some(o.err.value.Message()))
        && (o.err.None? ==> w.statusCode == old(w.statusCode) && w.errorBody == old(w.errorBody))
    {
      if body.Undecodable? {
        WriteError(w, InvalidRequestBody(UserlistPkg, body.cause));
        return;
      }
      var saved, err := service.Save(SaveRecord(body.value), now);
      if err.Some? {
        WriteError(w, err.value);
        return;
      }
    }

    /** handleRemoveUser */
    method HandleRemove(w: LoggingResponseWriter, id: Option<int>)
      requires service.repo.Valid()
      modifies w, service.repo
      ensures service.repo.Valid()
      ensures id.None? ==>
        && w.statusCode == StatusBadRequest
        && w.errorBody == Some(NonNumericUserID.Message())
        && service.repo.Snapshot() == old(service.repo.Snapshot())
      ensures id.Some? ==>
        var o := RemoveOutcome(old(service.repo.Snapshot()), id.value);
        && service.repo.Snapshot() == o.store
        && (o.err.Some? ==> w.statusCode == ErrorStatus(o.err.value) && w.errorBody == Some(o.err.value.Message()))
        && (o.err.None? ==> w.statusCode == StatusNoContent && w.errorBody == old(w.errorBody))
    {
      if id.None? {
        WriteError(w, NonNumericUserID);
        return;
      }
      var err := service.Remove(id.value);
      if err.Some? {
        WriteError(w, err.value);
        return;
      }
      w.WriteHeader(StatusNoContent);
    }

    /** handleUpdateUser */
    method HandleUpdate(w: LoggingResponseWriter, id: Option<int>, body: Decoded<UserRequest>)
      requires service.repo.Valid()
      modifies w, service.repo
      ensures service.repo.Valid()
      ensures id.None? ==>
        && w.statusCode == StatusBadRequest
        && w.errorBody == Some(NonNumericUserID.Message())
        && service.repo.Snapshot() == old(service.repo.Snapshot())
      ensures id.Some? && body.Undecodable? ==>
        && w.statusCode == StatusBadRequest
        && w.errorBody == Some("invalid request body: " + body.cause)
        && service.repo.Snapshot() == old(service.repo.Snapshot())
      ensures id.Some? && body.Decoded? ==>
        var o := UpdateOutcome(old(service.repo.Snapshot()), UpdateRecord(id.value, body.value));
        && service.repo.Snapshot() == o.store
        && (o.err.Some? ==> w.statusCode == ErrorStatus(o.err.value) && w.errorBody == Some(o.err.value.Message()))
        && (o.created ==> w.statusCode == StatusCreated && w.errorBody == old(w.errorBody))
        && (o.err.None? && !o.created ==> w.statusCode == old(w.statusCode) && w.errorBody == old(w.errorBody))
    {
      if id.None? {
        WriteError(w, NonNumericUserID);
        return;
      }
      if body.Undecodable? {
        WriteError(w, InvalidRequestBody(UserlistPkg, body.cause));
        return;
      }
      var updated, created, err := service.Update(UpdateRecord(id.value, body.value));
      if err.Some? {
        WriteError(w, err.value);
        return;
      }
      if created {
        w.WriteHeader(StatusCreated);
      }
    }

    /** The logging middleware around handleSaveUser. */
    method ServeSave(body: Decoded<UserRequest>, now: int) returns (status: int)
      requires service.repo.Valid()
      modifies service.repo
      ensures service.repo.Valid()
      ensures status == SaveStatus(old(service.repo.Snapshot()), body, now)
      ensures body.Decoded? ==>
        service.repo.Snapshot() == SaveOutcome(old(service.repo.Snapshot()), SaveRecord(body.value), now).store
      ensures body.Undecodable? ==> service.repo.Snapshot() == old(service.repo.Snapshot())
    {
      var lrw := new LoggingResponseWriter();
      HandleSave(lrw, body, now);
      status := lrw.statusCode;
    }

    /** The logging middleware around handleRemoveUser. */
    method ServeRemove(id: Option<int>) returns (status: int)
      requires service.repo.Valid()
      modifies service.repo
      ensures service.repo.Valid()
      ensures status == RemoveStatus(old(service.repo.Snapshot()), id)
      ensures id.Some? ==> service.repo.Snapshot() == RemoveOutcome(old(service.repo.Snapshot()), id.value).store
      ensures id.None? ==> service.repo.Snapshot() == old(service.repo.Snapshot())
    {
      var lrw := new LoggingResponseWriter();
      HandleRemove(lrw, id);
      status := lrw.statusCode;
    }

    /** The logging middleware around handleUpdateUser. */
    method ServeUpdate(id: Option<int>, body: Decoded<UserRequest>) returns (status: int)
      requires service.repo.Valid()
      modifies service.repo
      ensures service.repo.Valid()
      ensures status == UpdateStatus(old(service.repo.Snapshot()), id, body)
      ensures id.Some? && body.Decoded? ==>
        service.repo.Snapshot() == UpdateOutcome(old(service.repo.Snapshot()), UpdateRecord(id.value, body.value)).store
      ensures id.None? || body.Undecodable? ==> service.repo.Snapshot() == old(service.repo.Snapshot())
    {
      var lrw := new LoggingResponseWriter();
      HandleUpdate(lrw, id, body);
      status := lrw.statusCode;
    }
  }
}
