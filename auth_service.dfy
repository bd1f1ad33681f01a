/** The auth service (pkg/auth/service.go): Login looks the user up by
    employee id, compares passwords for exact equality and issues a token
    over a claim built from the user; Logout does nothing. The clock is the
    `now` parameter and the HS256 signer an opaque function of the claims
    that may fail. */
module Auth {
  import opened Pkg
  import opened Table
  import UserRepo

  /** A token is valid for one hour after it is issued. */
  const TokenLifetime: int := 3600

  datatype LoginRequest = LoginRequest(employeeID: string, password: string)

  /** The token claims: the user's identity fields and the expiry, in Unix
      seconds. The type has no room for a password. */
  datatype Claims = Claims(
    id: int,
    name: string,
    designation: string,
    employeeID: string,
    createdAt: int,
    expiresAt: int)

  datatype LoginResponse = LoginResponse(user: User, token: string)

  /** Serialises and signs a claim, or fails. */
  type Signer = Claims -> Result<string>

  /** The claim `createToken` builds for `u` at time `now`. */
  function TokenClaims(u: User, now: int): (c: Claims)
    ensures c.id == u.id && c.name == u.name && c.designation == u.designation
    ensures c.employeeID == u.employeeID && c.createdAt == u.createdAt
    ensures c.expiresAt == now + 3600
  {
    Claims(u.id, u.name, u.designation, u.employeeID, u.createdAt, now + TokenLifetime)
  }

  /** `createToken`: the token is the signature over the user's claims, and
      a signing failure is returned as it is. */
  function CreateToken(u: User, now: int, sign: Signer): (r: Result<string>)
    ensures r == sign(Claims(u.id, u.name, u.designation, u.employeeID, u.createdAt, now + TokenLifetime))
  {
    sign(TokenClaims(u, now))
  }

  /** The password has no influence on the claims, and so none on the
      token signed over them. */
  lemma ClaimsOfUser(u: User, now: int, password: string, sign: Signer)
    ensures TokenClaims(u.(password := password), now) == TokenClaims(u, now)
    ensures CreateToken(u.(password := password), now, sign) == CreateToken(u, now, sign)
  {
  }

  /** What Login answers against the user table `users`. */
  function LoginOutcome(users: UserRepo.Store, req: LoginRequest, now: int, sign: Signer): (r: Result<LoginResponse>)
    requires users.Valid()
    // success exactly when the lookup succeeds, the passwords are equal and signing succeeds
    ensures var found := users.FindByEmployeeID(req.employeeID);
      r.Ok? <==> found.Ok? && found.value.password == req.password && sign(TokenClaims(found.value, now)).Ok?
    // a failed lookup is returned unchanged
    ensures users.FindByEmployeeID(req.employeeID).Err? ==>
      r == Err(users.FindByEmployeeID(req.employeeID).error)
    // a wrong password issues no token
    ensures var found := users.FindByEmployeeID(req.employeeID);
      found.Ok? && found.value.password != req.password ==> r == Err(Fresh("invalid password"))
    // a signing failure is returned unchanged
    ensures var found := users.FindByEmployeeID(req.employeeID);
      found.Ok? && found.value.password == req.password && sign(TokenClaims(found.value, now)).Err? ==>
        r == Err(sign(TokenClaims(found.value, now)).error)
    // on success: the stored user unchanged, with the token signed over its claims
    ensures r.Ok? ==>
      && r.value.user == users.FindByEmployeeID(req.employeeID).value
      && r.value.user.employeeID == req.employeeID
      && r.value.user.id in users.rows
      && Ok(r.value.token) == sign(TokenClaims(r.value.user, now))
  {
    var found := users.FindByEmployeeID(req.employeeID);
    if found.Err? then Err(found.error)
    else if found.value.password != req.password then Err(Fresh("invalid password"))
    else
      var token := CreateToken(found.value, now, sign);
      if token.Err? then Err(token.error)
      else Ok(LoginResponse(found.value, token.value))
  }

  /** The service object; it only reads the user repository. */
  class Service {
    const repo: UserRepo.Repository

    constructor (repo: UserRepo.Repository)
      ensures this.repo == repo
    {
      this.repo := repo;
    }

    method Login(req: LoginRequest, now: int, sign: Signer) returns (r: Result<LoginResponse>)
      requires repo.Valid()
      ensures r == LoginOutcome(repo.Snapshot(), req, now, sign)
    {
      var found := repo.Snapshot().FindByEmployeeID(req.employeeID);
      if found.Err? {
        return Err(found.error);
      }
      var user := found.value;
      if user.password != req.password {
        return Err(Fresh("invalid password"));
      }
      var token := CreateToken(user, now, sign);
      if token.Err? {
        return Err(token.error);
      }
      return Ok(LoginResponse(user, token.value));
    }

    /** Logout revokes nothing and succeeds for every token. */
    method Logout(token: string) returns (err: Option<Error>)
      ensures err == None
    {
      return None;
    }
  }
}
