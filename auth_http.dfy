/** The status decisions of the auth HTTP transport (pkg/auth/http.go).
    Its writeError only tells this package's ErrInvalidRequestBody (400)
    from everything else (500), so even its own not-found error answers 500.
    A failed login answers 401 without an error body. */
module AuthHttp {
  import opened Pkg
  import opened Http
  import opened Table
  import UserRepo
  import opened Auth

  function ErrorStatus(e: Error): (code: int)
    ensures code == StatusBadRequest <==> e.InvalidRequestBody? && e.origin == AuthPkg
    ensures code == StatusInternalServerError <==> !(e.InvalidRequestBody? && e.origin == AuthPkg)
  {
    if e.InvalidRequestBody? && e.origin == AuthPkg then StatusBadRequest
    else StatusInternalServerError
  }

  /** The body of a logout request. */
  datatype LogoutRequest = LogoutRequest(token: string)

  /** The status the logging middleware records for a login request. */
  function LoginStatus(users: UserRepo.Store, body: Decoded<LoginRequest>, now: int, sign: Signer): (code: int)
    requires users.Valid()
    ensures body.Undecodable? ==> code == StatusBadRequest
    ensures body.Decoded? ==>
      && (code == StatusOK <==> LoginOutcome(users, body.value, now, sign).Ok?)
      && (code == StatusUnauthorized <==> LoginOutcome(users, body.value, now, sign).Err?)
  {
    if body.Undecodable? then ErrorStatus(InvalidRequestBody(AuthPkg, body.cause))
    else if LoginOutcome(users, body.value, now, sign).Err? then StatusUnauthorized
    else StatusOK
  }

  /** Neither an unknown employee id nor a wrong password is told apart from
      the other: both answer 401. */
  lemma FailedLoginsLookAlike(users: UserRepo.Store, req: LoginRequest, now: int, sign: Signer)
    requires users.Valid() && FindByEmployeeIDOp !in users.faults
    ensures (forall k :: k in users.rows ==> users.rows[k].employeeID != req.employeeID) ==>
      LoginStatus(users, Decoded(req), now, sign) == StatusUnauthorized
    ensures (exists k :: k in users.rows && users.rows[k].employeeID == req.employeeID
                && users.rows[k].password != req.password
                && forall j :: j in users.rows && users.rows[j].employeeID == req.employeeID ==> j == k) ==>
      LoginStatus(users, Decoded(req), now, sign) == StatusUnauthorized
  {
    var found := users.FindByEmployeeID(req.employeeID);
    if found.Ok? {
      assert users.rows[found.value.id] == found.value;
    }
  }

  /** The status the logging middleware records for a logout request. */
  function LogoutStatus(body: Decoded<LogoutRequest>): (code: int)
    ensures code == StatusBadRequest <==> body.Undecodable?
    ensures code == StatusOK <==> body.Decoded?
  {
    if body.Undecodable? then ErrorStatus(InvalidRequestBody(AuthPkg, body.cause)) else StatusOK
  }

  class Server {
    const service: Service

    constructor (service: Service)
      ensures this.service == service
    {
      this.service := service;
    }

    /** writeError: sets the status from the error and encodes its text. */
    method WriteError(w: LoggingResponseWriter, e: Error)
      modifies w
      ensures w.statusCode == ErrorStatus(e) && w.errorBody == Some(e.Message())
    {
      w.WriteHeader(ErrorStatus(e));
      w.EncodeError(e.Message());
    }

    /** The router's NotFound handler: 500, not 404. */
    method NotFound(w: LoggingResponseWriter)
      modifies w
      ensures w.statusCode == StatusInternalServerError && w.errorBody == Some("resource not found")
    {
      WriteError(w, ResourceNotFound(AuthPkg));
    }

    /** handleLogin */
    method HandleLogin(w: LoggingResponseWriter, body: Decoded<LoginRequest>, now: int, sign: Signer)
      requires service.repo.Valid()
      modifies w
      ensures body.Undecodable? ==>
        w.statusCode == StatusBadRequest && w.errorBody == Some("invalid request body: " + body.cause)
      ensures body.Decoded? && LoginOutcome(service.repo.Snapshot(), body.value, now, sign).Err? ==>
        w.statusCode == StatusUnauthorized && w.errorBody == old(w.errorBody)
      ensures body.Decoded? && LoginOutcome(service.repo.Snapshot(), body.value, now, sign).Ok? ==>
        w.statusCode == old(w.statusCode) && w.errorBody == old(w.errorBody)
    {
      if body.Undecodable? {
        WriteError(w, InvalidRequestBody(AuthPkg, body.cause));
        return;
      }
      var r := service.Login(body.value, now, sign);
      if r.Err? {
        w.WriteHeader(StatusUnauthorized);
        return;
      }
    }

    /** handleLogout */
    method HandleLogout(w: LoggingResponseWriter, body: Decoded<LogoutRequest>)
      modifies w
      ensures body.Undecodable? ==>
        w.statusCode == StatusBadRequest && w.errorBody == Some("invalid request body: " + body.cause)
      ensures body.Decoded? ==> w.statusCode == StatusOK && w.errorBody == old(w.errorBody)
    {
      if body.Undecodable? {
        WriteError(w, InvalidRequestBody(AuthPkg, body.cause));
        return;
      }
      // the handler's error branch is dead: Logout never fails
      var err := service.Logout(body.value.token);
      w.WriteHeader(StatusOK);
    }

    /** The logging middleware around handleLogin. */
    method ServeLogin(body: Decoded<LoginRequest>, now: int, sign: Signer) returns (status: int)
      requires service.repo.Valid()
      ensures status == LoginStatus(service.repo.Snapshot(), body, now, sign)
    {
      var lrw := new LoggingResponseWriter();
      HandleLogin(lrw, body, now, sign);
      status := lrw.statusCode;
    }

    /** The logging middleware around handleLogout. */
    method ServeLogout(body: Decoded<LogoutRequest>) returns (status: int)
      ensures status == LogoutStatus(body)
    {
      var lrw := new LoggingResponseWriter();
      HandleLogout(lrw, body);
      status := lrw.statusCode;
    }
  }
}
