/** `POST /api/auth/login`: check the credentials, issue a token and describe
    the user. Login only reads the store. */
module LoginRoute {
  import opened Collections
  import opened Types
  import opened Auth
  import opened Db
  import opened Http

  const MISSING_CREDENTIALS: string := "Email and password are required"
  const INVALID_CREDENTIALS: string := "Invalid credentials"

  /** `tenant?.name || "Unknown"`: a missing tenant and an empty name both read "Unknown". */
  function TenantName(tenant: Option<Tenant>): (name: string)
    ensures name != ""
    ensures tenant.Some? && tenant.value.name != "" ==> name == tenant.value.name
    ensures tenant.None? || tenant.value.name == "" ==> name == "Unknown"
  {
    if tenant.Some? && tenant.value.name != "" then tenant.value.name else "Unknown"
  }

  /** The user object of the response: the user's fields but the password and
      the timestamps, and the tenant's name. */
  function View(user: User, tenantName: string): (v: UserView)
    ensures v.id == user.id && v.email == user.email && v.role == user.role
    ensures v.subscription == user.subscription && v.tenantId == user.tenantId
    ensures v.tenantName == tenantName
  {
    UserView(user.id, user.email, user.role, user.subscription, user.tenantId, tenantName)
  }

  /** `POST`: 400 when email or password is missing or empty; the same 401 for
      an unknown email and for a wrong password; otherwise the token issued for
      the first user with that email and the user's view. */
  function Login(db: Database, email: Option<string>, password: Option<string>, nowMs: int, codec: TokenCodec): (r: Response)
    reads db
    ensures !(Present(email) && Present(password)) ==> r == Error(400, MISSING_CREDENTIALS)
    ensures Present(email) && Present(password) ==>
              var user := db.FindUserByEmail(email.value);
              (user.None? || !VerifyPassword(password.value, user.value.password)) ==>
                r == Error(401, INVALID_CREDENTIALS)
    ensures r.status == 200 <==>
              Present(email) && Present(password) &&
              db.FindUserByEmail(email.value).Some? &&
              VerifyPassword(password.value, db.FindUserByEmail(email.value).value.password)
    ensures r.status == 200 ==>
              var user := db.FindUserByEmail(email.value).value;
              var tenant := db.FindTenantById(user.tenantId);
              r.body.LoginBody? &&
              r.body.token == GenerateToken(user, nowMs, codec) &&
              r.body.user == UserView(user.id, user.email, user.role, user.subscription, user.tenantId,
                                      if tenant.Some? && tenant.value.name != "" then tenant.value.name else "Unknown")
  {
    if !Present(email) || !Present(password) then
      Error(400, MISSING_CREDENTIALS)
    else
      match db.FindUserByEmail(email.value)
      case None => Error(401, INVALID_CREDENTIALS)
      case Some(user) =>
        if !VerifyPassword(password.value, user.password) then
          Error(401, INVALID_CREDENTIALS)
        else
          var token := GenerateToken(user, nowMs, codec);
          var tenant := db.FindTenantById(user.tenantId);
          Response(200, LoginBody(token, View(user, TenantName(tenant))))
  }

  /** The token a successful login returns is accepted, carrying the user's
      own claims, until the end of its seventh day; provided the codec
      decodes what it encodes. */
  lemma LoginTokenAccepted(db: Database, email: string, password: string, loginMs: int, nowMs: int, codec: TokenCodec)
    requires Login(db, Some(email), Some(password), loginMs, codec).status == 200
    requires var user := db.FindUserByEmail(email).value;
             codec.decode(codec.encode(IssueClaims(user, loginMs))) == Some(IssueClaims(user, loginMs))
    ensures var r := Login(db, Some(email), Some(password), loginMs, codec);
            var user := db.FindUserByEmail(email).value;
            ExtractToken(Some(BEARER + r.body.token), nowMs, codec) ==
              if Seconds(nowMs) <= Seconds(loginMs) + TOKEN_LIFETIME then Some(IssueClaims(user, loginMs)) else None
  {
    var user := db.FindUserByEmail(email).value;
    var r := Login(db, Some(email), Some(password), loginMs, codec);
    BearerRoundTrip(r.body.token, nowMs, codec);
    IssuedTokenAccepted(user, loginMs, nowMs, codec);
  }
}
