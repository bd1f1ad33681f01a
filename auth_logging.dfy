/** The logging decorator of the auth service (pkg/auth/logging.go). Login
    logs the employee id it was asked for, never the password; Logout logs
    no token. */
module AuthLogging {
  import opened Pkg
  import opened Logging
  import opened Auth

  function LoginEntry(req: LoginRequest, err: Option<Error>): (e: Entry)
    ensures Keys(e) == ["method", "employee_id", "err"] && LoggedError(e) == Some(err)
    ensures e[0] == Field("method", Text("login"))
    ensures e[1].value == Text(req.employeeID)
  {
    [Field("method", Text("login")), Field("employee_id", Text(req.employeeID)), Field("err", Failure(err))]
  }

  function LogoutEntry(err: Option<Error>): (e: Entry)
    ensures Keys(e) == ["method", "err"] && LoggedError(e) == Some(err)
    ensures e[0] == Field("method", Text("logout"))
  {
    [Field("method", Text("logout")), Field("err", Failure(err))]
  }

  /** The login entry does not depend on the password sent. */
  lemma LoginEntryOmitsPassword(req: LoginRequest, password: string, err: Option<Error>)
    ensures LoginEntry(req.(password := password), err) == LoginEntry(req, err)
  {
  }

  class LoggingMiddleware {
    const next: Service
    var log: seq<Entry>

    constructor (next: Service)
      ensures this.next == next && log == []
    {
      this.next := next;
      log := [];
    }

    method Login(req: LoginRequest, now: int, sign: Signer) returns (r: Result<LoginResponse>)
      requires next.repo.Valid()
      modifies this
      ensures r == LoginOutcome(next.repo.Snapshot(), req, now, sign)
      ensures log == old(log) + [LoginEntry(req, ErrorOf(r))]
    {
      r := next.Login(req, now, sign);
      log := log + [LoginEntry(req, ErrorOf(r))];
    }

    /** Logout always succeeds, so the entry always records no error. */
    method Logout(token: string) returns (err: Option<Error>)
      modifies this
      ensures err == None
      ensures log == old(log) + [LogoutEntry(None)]
    {
      err := next.Logout(token);
      log := log + [LogoutEntry(err)];
    }
  }
}
