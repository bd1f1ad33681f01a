/** The status decisions of the reservation HTTP transport
    (pkg/reservations/http.go): writeError's mapping from errors to status
    codes, the status paths of the remove and update handlers, and the status
    the HTTP logging middleware reads back. The path parameter reaches a
    handler already parsed (`None` when it is not a number) and the body
    already decoded. */
module ReservationsHttp {
  import opened Pkg
  import opened Table
  import opened Http
  import opened ReservationRepo
  import opened Reservations

  /** writeError's switch: sentinels by identity, then this package's own
      ErrInvalidRequestBody by type, then 500. */
  function ErrorStatus(e: Error): (code: int)
    ensures code == StatusNotFound <==> e == ResourceNotFound(ReservationsPkg) || e == ReservationNotFound
    ensures code == StatusConflict <==> e == ReservationAlreadyExists
    ensures code == StatusBadRequest <==>
      e == NonNumericReservationID || (e.InvalidRequestBody? && e.origin == ReservationsPkg)
    ensures code == StatusMethodNotAllowed <==> e == MethodNotAllowed(ReservationsPkg)
    ensures code in {StatusNotFound, StatusConflict, StatusBadRequest, StatusMethodNotAllowed, StatusInternalServerError}
  {
    if e == ResourceNotFound(ReservationsPkg) || e == ReservationNotFound then StatusNotFound
    else if e == ReservationAlreadyExists then StatusConflict
    else if e == NonNumericReservationID then StatusBadRequest
    else if e == MethodNotAllowed(ReservationsPkg) then StatusMethodNotAllowed
    else if e.InvalidRequestBody? && e.origin == ReservationsPkg then StatusBadRequest
    else StatusInternalServerError
  }

  /** Every error a service wraps with a context prefix answers 500, whatever
      it wraps, and so does every error of another package: the user
      sentinels and the other packages' route and body errors. */
  lemma WrappedErrorsAre500(prefix: string, cause: Error)
    ensures ErrorStatus(Wrap(prefix, cause)) == StatusInternalServerError
    ensures ErrorStatus(UserNotFound) == StatusInternalServerError
    ensures ErrorStatus(UserAlreadyExists) == StatusInternalServerError
    ensures ErrorStatus(NonNumericUserID) == StatusInternalServerError
    ensures ErrorStatus(InvalidRequestBody(UserlistPkg, cause.Message())) == StatusInternalServerError
    ensures forall o: Origin :: o != ReservationsPkg ==>
      ErrorStatus(ResourceNotFound(o)) == StatusInternalServerError &&
      ErrorStatus(MethodNotAllowed(o)) == StatusInternalServerError
    ensures forall o: Origin, c: string :: o != ReservationsPkg ==>
      ErrorStatus(InvalidRequestBody(o, c)) == StatusInternalServerError
  {
  }

  /** The body of a save or an update request. */
  datatype ReservationRequest = ReservationRequest(userID: int, reservationTime: int, kind: ReservationType, noOfGuests: int)

  /** The record the save handler gives the service: no id, an empty name
      and a zero creation time. */
  function SaveRecord(req: ReservationRequest): (r: Reservation)
    ensures r.id == 0 && r.name == "" && r.createdAt == ZeroTime
    ensures r.userID == req.userID && r.reservationTime == req.reservationTime
    ensures r.kind == req.kind && r.noOfGuests == req.noOfGuests
  {
    Reservation(0, req.userID, "", req.reservationTime, req.kind, req.noOfGuests, ZeroTime)
  }

  /** The record the update handler gives the service: the id comes from the
      path, the name is left empty and the creation time zero. */
  function UpdateRecord(id: int, req: ReservationRequest): (r: Reservation)
    ensures r.id == id && r.name == "" && r.createdAt == ZeroTime
    ensures r.userID == req.userID && r.reservationTime == req.reservationTime
    ensures r.kind == req.kind && r.noOfGuests == req.noOfGuests
  {
    Reservation(id, req.userID, "", req.reservationTime, req.kind, req.noOfGuests, ZeroTime)
  }

  /** The status the logging middleware records for a save request: the
      handler writes no status on success. */
  function SaveStatus(s: Store, body: Decoded<ReservationRequest>): (code: int)
    requires s.Valid()
    ensures body.Undecodable? ==> code == StatusBadRequest
    ensures body.Decoded? ==>
      && (code == StatusOK <==> InsertOp !in s.faults)
      && (code == StatusInternalServerError <==> InsertOp in s.faults)
  {
    if body.Undecodable? then ErrorStatus(InvalidRequestBody(ReservationsPkg, body.cause))
    else
      var o := SaveOutcome(s, SaveRecord(body.value));
      if o.err.Some? then ErrorStatus(o.err.value) else StatusOK
  }

  /** The status the logging middleware records for a remove request. */
  function RemoveStatus(s: Store, id: Option<int>): (code: int)
    requires s.Valid()
    ensures id.None? ==> code == StatusBadRequest
    ensures id.Some? ==> (code == StatusNoContent <==> RemoveOutcome(s, id.value).err.None?)
    ensures id.Some? && DeleteByIDOp !in s.faults ==>
      (id.value in s.rows ==> code == StatusNoContent) && (id.value !in s.rows ==> code == StatusNotFound)
    ensures id.Some? && DeleteByIDOp in s.faults ==>
      code == ErrorStatus(RemoveOutcome(s, id.value).err.value)
    ensures id.Some? && DeleteByIDOp in s.faults && s.faults[DeleteByIDOp] != ReservationNotFound ==>
      code == StatusInternalServerError
  {
    if id.None? then ErrorStatus(NonNumericReservationID)
    else
      var o := RemoveOutcome(s, id.value);
      if o.err.Some? then ErrorStatus(o.err.value) else StatusNoContent
  }

  /** The status the logging middleware records for an update request. An
      update never answers 404: the not-found sentinel turns into an insert,
      and every error the service returns is wrapped. */
  function UpdateStatus(s: Store, id: Option<int>, body: Decoded<ReservationRequest>): (code: int)
    requires s.Valid()
    ensures id.None? || body.Undecodable? ==> code == StatusBadRequest
    ensures id.Some? && body.Decoded? ==>
      var o := UpdateOutcome(s, UpdateRecord(id.value, body.value));
      && (code == StatusCreated <==> o.created)
      && (code == StatusOK <==> o.err.None? && !o.created)
      && (code == StatusInternalServerError <==> o.err.Some?)
    ensures code != StatusNotFound
  {
    if id.None? then ErrorStatus(NonNumericReservationID)
    else if body.Undecodable? then ErrorStatus(InvalidRequestBody(ReservationsPkg, body.cause))
    else
      var o := UpdateOutcome(s, UpdateRecord(id.value, body.value));
      assert o.err.Some? ==> o.err.value.Fresh?;
      if o.err.Some? then ErrorStatus(o.err.value)
      else if o.created then StatusCreated
      else StatusOK
  }

  /** An update of an id the table does not hold answers 201 and stores the
      request under a new id; one of an id it holds answers 200 and keeps it. */
  lemma UpdateCreatesOrReplaces(s: Store, id: int, req: ReservationRequest)
    requires s.Valid() && UpdateOp !in s.faults && InsertOp !in s.faults
    ensures id !in s.rows ==> UpdateStatus(s, Some(id), Decoded(req)) == StatusCreated
    ensures id in s.rows ==>
      && UpdateStatus(s, Some(id), Decoded(req)) == StatusOK
      && UpdateOutcome(s, UpdateRecord(id, req)).store.rows == s.rows[id := UpdateRecord(id, req)]
  {
  }

  /** The handlers' server; it holds the service it calls. */
  class Server {
    const service: Service

    constructor (service: Service)
      ensures this.service == service
    {
      this.service := service;
    }

    /** writeError: sets the status from the error and encodes its text. */
    method WriteError(w: LoggingResponseWriter, e: Error)
      modifies w
      ensures w.statusCode == ErrorStatus(e) && w.errorBody == Some(e.Message())
    {
      w.WriteHeader(ErrorStatus(e));
      w.EncodeError(e.Message());
    }

    /** The router's NotFound handler. */
    method NotFound(w: LoggingResponseWriter)
      modifies w
      ensures w.statusCode == StatusNotFound && w.errorBody == Some("resource not found")
    {
      WriteError(w, ResourceNotFound(ReservationsPkg));
    }

    /** handleSaveReservation */
    method HandleSave(w: LoggingResponseWriter, body: Decoded<ReservationRequest>)
      requires service.repo.Valid()
      modifies w, service.repo
      ensures service.repo.Valid()
      ensures body.Undecodable? ==>
        && w.statusCode == StatusBadRequest
        && w.errorBody == Some("invalid request body: " + body.cause)
        && service.repo.Snapshot() == old(service.repo.Snapshot())
      ensures body.Decoded? ==>
        var o := SaveOutcome(old(service.repo.Snapshot()), SaveRecord(body.value));
        && service.repo.Snapshot() == o.store
        && (o.err.Some? ==> w.statusCode == ErrorStatus(o.err.value) && w.errorBody == Some(o.err.value.Message()))
        && (o.err.None? ==> w.statusCode == old(w.statusCode) && w.errorBody == old(w.errorBody))
    {
      if body.Undecodable? {
        WriteError(w, InvalidRequestBody(ReservationsPkg, body.cause));
        return;
      }
      var saved, err := service.Save(SaveRecord(body.value));
      if err.Some? {
        WriteError(w, err.value);
        return;
      }
    }

    /** handleRemoveReservation */
    method HandleRemove(w: LoggingResponseWriter, id: Option<int>)
      requires service.repo.Valid()
      modifies w, service.repo
      ensures service.repo.Valid()
      ensures id.None? ==>
        && w.statusCode == StatusBadRequest
        && w.errorBody == Some(NonNumericReservationID.Message())
        && service.repo.Snapshot() == old(service.repo.Snapshot())
      ensures id.Some? ==>
        var o := RemoveOutcome(old(service.repo.Snapshot()), id.value);
        && service.repo.Snapshot() == o.store
        && (o.err.Some? ==> w.statusCode == ErrorStatus(o.err.value) && w.errorBody == Some(o.err.value.Message()))
        && (o.err.None? ==> w.statusCode == StatusNoContent && w.errorBody == old(w.errorBody))
    {
      if id.None? {
        WriteError(w, NonNumericReservationID);
        return;
      }
      var err := service.Remove(id.value);
      if err.Some? {
        WriteError(w, err.value);
        return;
      }
      w.WriteHeader(StatusNoContent);
    }

    /** handleUpdateReservation */
    method HandleUpdate(w: LoggingResponseWriter, id: Option<int>, body: Decoded<ReservationRequest>)
      requires service.repo.Valid()
      modifies w, service.repo
      ensures service.repo.Valid()
      ensures id.None? ==>
        && w.statusCode == StatusBadRequest
        && w.errorBody == Some(NonNumericReservationID.Message())
        && service.repo.Snapshot() == old(service.repo.Snapshot())
      ensures id.Some? && body.Undecodable? ==>
        && w.statusCode == StatusBadRequest
        && w.errorBody == Some("invalid request body: " + body.cause)
        && service.repo.Snapshot() == old(service.repo.Snapshot())
      ensures id.Some? && body.Decoded? ==>
        var o := UpdateOutcome(old(service.repo.Snapshot()), UpdateRecord(id.value, body.value));
        && service.repo.Snapshot() == o.store
        && (o.err.Some? ==> w.statusCode == ErrorStatus(o.err.value) && w.errorBody == Some(o.err.value.Message()))
        && (o.created ==> w.statusCode == StatusCreated && w.errorBody == old(w.errorBody))
        && (o.err.None? && !o.created ==> w.statusCode == old(w.statusCode) && w.errorBody == old(w.errorBody))
    {
      if id.None? {
        WriteError(w, NonNumericReservationID);
        return;
      }
      if body.Undecodable? {
        WriteError(w, InvalidRequestBody(ReservationsPkg, body.cause));
        return;
      }
      var updated, created, err := service.Update(UpdateRecord(id.value, body.value));
      if err.Some? {
        WriteError(w, err.value);
        return;
      }
      if created {
        w.WriteHeader(StatusCreated);
      }
    }

    /** The logging middleware around handleSaveReservation. */
    method ServeSave(body: Decoded<ReservationRequest>) returns (status: int)
      requires service.repo.Valid()
      modifies service.repo
      ensures service.repo.Valid()
      ensures status == SaveStatus(old(service.repo.Snapshot()), body)
      ensures body.Decoded? ==>
        service.repo.Snapshot() == SaveOutcome(old(service.repo.Snapshot()), SaveRecord(body.value)).store
      ensures body.Undecodable? ==> service.repo.Snapshot() == old(service.repo.Snapshot())
    {
      var lrw := new LoggingResponseWriter();
      HandleSave(lrw, body);
      status := lrw.statusCode;
    }

    /** The logging middleware around handleRemoveReservation: a fresh
        writer at 200, the handler, then the recorded status. */
    method ServeRemove(id: Option<int>) returns (status: int)
      requires service.repo.Valid()
      modifies service.repo
      ensures service.repo.Valid()
      ensures status == RemoveStatus(old(service.repo.Snapshot()), id)
      ensures id.Some? ==> service.repo.Snapshot() == RemoveOutcome(old(service.repo.Snapshot()), id.value).store
      ensures id.None? ==> service.repo.Snapshot() == old(service.repo.Snapshot())
    {
      var lrw := new LoggingResponseWriter();
      HandleRemove(lrw, id);
      status := lrw.statusCode;
    }

    /** The logging middleware around handleUpdateReservation. */
    method ServeUpdate(id: Option<int>, body: Decoded<ReservationRequest>) returns (status: int)
      requires service.repo.Valid()
      modifies service.repo
      ensures service.repo.Valid()
      ensures status == UpdateStatus(old(service.repo.Snapshot()), id, body)
      ensures id.Some? && body.Decoded? ==>
        service.repo.Snapshot() == UpdateOutcome(old(service.repo.Snapshot()), UpdateRecord(id.value, body.value)).store
      ensures id.None? || body.Undecodable? ==> service.repo.Snapshot() == old(service.repo.Snapshot())
    {
      var lrw := new LoggingResponseWriter();
      HandleUpdate(lrw, id, body);
      status := lrw.statusCode;
    }
  }
}
