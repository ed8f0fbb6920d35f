/** `GET /api/admin/users`: an admin's list of the users of their tenant,
    without passwords. */
module AdminUsersRoute {
  import opened Collections
  import opened Types
  import opened Auth
  import opened Db
  import opened Http

  /** `({ password, ...user }) => user`: every field but the password, unchanged. */
  function StripPassword(u: User): (r: PublicUser)
    ensures r.id == u.id && r.email == u.email && r.role == u.role && r.tenantId == u.tenantId
    ensures r.subscription == u.subscription && r.createdAt == u.createdAt && r.updatedAt == u.updatedAt
  {
    PublicUser(u.id, u.email, u.role, u.tenantId, u.subscription, u.createdAt, u.updatedAt)
  }

  /** Stripping loses the password and nothing else: two users strip to the
      same record exactly when they differ at most in their passwords. */
  lemma StripPasswordLosesOnlyPassword(u: User, v: User)
    ensures StripPassword(u) == StripPassword(v) <==> u.(password := v.password) == v
  {
  }

  /** `users.map(({ password, ...user }) => user)`. */
  function StripPasswords(users: seq<User>): (r: seq<PublicUser>)
    ensures |r| == |users| && forall i :: 0 <= i < |users| ==> r[i] == StripPassword(users[i])
    ensures forall p :: p in r <==> exists u :: u in users && StripPassword(u) == p
  {
    var r := MapSeq(users, StripPassword);
    assert forall u :: u in users ==> StripPassword(u) in r by {
      forall u | u in users ensures StripPassword(u) in r {
        var i :| 0 <= i < |users| && users[i] == u;
        assert r[i] == StripPassword(u);
      }
    }
    r
  }

  /** `GET`: 403, not 401, both without valid claims and for a non-admin;
      otherwise the tenant's users in store order, each without its password. */
  function ListUsers(db: Database, authorization: Option<string>, nowMs: int, codec: TokenCodec): (r: Response)
    reads db
    ensures var auth := ExtractToken(authorization, nowMs, codec);
            (auth.None? || auth.value.role != Admin) ==> r == Error(403, ADMIN_REQUIRED)
    ensures var auth := ExtractToken(authorization, nowMs, codec);
            auth.Some? && auth.value.role == Admin ==>
              var members := db.GetUsersByTenant(auth.value.tenantId);
              r.status == 200 && r.body.UsersBody? && |r.body.users| == |members| &&
              forall i :: 0 <= i < |members| ==> r.body.users[i] == StripPassword(members[i])
    ensures var auth := ExtractToken(authorization, nowMs, codec);
            auth.Some? && auth.value.role == Admin ==>
              (forall p :: p in r.body.users ==> p.tenantId == auth.value.tenantId) &&
              (forall u :: u in db.users && u.tenantId == auth.value.tenantId ==> StripPassword(u) in r.body.users)
  {
    match ExtractToken(authorization, nowMs, codec)
    case None => Error(403, ADMIN_REQUIRED)
    case Some(auth) =>
      if auth.role != Admin then Error(403, ADMIN_REQUIRED)
      else
        Response(200, UsersBody(StripPasswords(db.GetUsersByTenant(auth.tenantId))))
  }
}
