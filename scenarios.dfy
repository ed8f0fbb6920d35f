/** Consequences of the handlers' contracts on the seeded store: the demo
    admin's login and user list, seeding once, and the claims a token keeps
    after an upgrade. */
module Scenarios {
  import opened Collections
  import opened Types
  import opened Auth
  import opened Db
  import opened Http
  import LoginRoute
  import NotesRoute
  import UpgradeRoute
  import AdminUsersRoute

  /** Constructing the store seeds it; a second `initializeTestData` changes nothing. */
  method SeedOnce(now: Timestamp, later: Timestamp) returns (db: Database)
    ensures fresh(db)
    ensures db.tenants == SeedTenants(now) && db.users == SeedUsersHashed(now) && db.notes == []
  {
    db := new Database(now);
    db.InitializeTestData(later);
  }

  /** On the seeded store, admin@acme.com with "admin123" logs in as the
      first seeded user, an admin of tenant-1 ("Acme Corp"). */
  lemma AdminLogin(db: Database, seededAt: Timestamp, nowMs: int, codec: TokenCodec)
    requires db.users == SeedUsersHashed(seededAt) && db.tenants == SeedTenants(seededAt)
    ensures var r := LoginRoute.Login(db, Some("admin@acme.com"), Some(ADMIN_PASSWORD), nowMs, codec);
            var admin := SeedUsersHashed(seededAt)[0];
            r.status == 200 &&
            r.body == LoginBody(GenerateToken(admin, nowMs, codec),
                                UserView("user-1", "admin@acme.com", Admin, Pro, "tenant-1", "Acme Corp"))
    ensures IssueClaims(SeedUsersHashed(seededAt)[0], nowMs).role == Admin
    ensures IssueClaims(SeedUsersHashed(seededAt)[0], nowMs).tenantId == "tenant-1"
  {
    var admin := SeedUsersHashed(seededAt)[0];
    assert db.users[0] == admin;
    assert db.FindUserByEmail("admin@acme.com") == Some(admin);
    assert db.tenants[0].id == "tenant-1";
    assert db.FindTenantById("tenant-1") == Some(db.tenants[0]);
  }

  /** With the demo admin's token, the admin user list holds the two users of
      tenant-1, admin then member, without passwords. */
  lemma AdminListsAcmeUsers(db: Database, seededAt: Timestamp, loginMs: int, nowMs: int, codec: TokenCodec)
    requires db.users == SeedUsersHashed(seededAt)
    requires var claims := IssueClaims(SeedUsersHashed(seededAt)[0], loginMs);
             codec.decode(codec.encode(claims)) == Some(claims)
    requires Seconds(nowMs) <= Seconds(loginMs) + TOKEN_LIFETIME
    ensures var token := GenerateToken(SeedUsersHashed(seededAt)[0], loginMs, codec);
            var r := AdminUsersRoute.ListUsers(db, Some(BEARER + token), nowMs, codec);
            r.status == 200 && r.body.UsersBody? && |r.body.users| == 2 &&
            r.body.users[0].email == "admin@acme.com" && r.body.users[1].email == "member@acme.com"
  {
    var us := SeedUsersHashed(seededAt);
    var token := GenerateToken(us[0], loginMs, codec);
    BearerRoundTrip(token, nowMs, codec);
    IssuedTokenAccepted(us[0], loginMs, nowMs, codec);
    SeedPartition(seededAt, PasswordHash(ADMIN_PASSWORD), PasswordHash(MEMBER_PASSWORD));
    var claims := IssueClaims(us[0], loginMs);
    assert ExtractToken(Some(BEARER + token), nowMs, codec) == Some(claims);
    assert claims.role == Admin && claims.tenantId == "tenant-1";
    var members := db.GetUsersByTenant("tenant-1");
    assert members == us[..2] && members[0] == us[0] && members[1] == us[1];
  }

  /** Upgrading does not reissue the caller's token: a free-plan caller at the
      quota who upgrades and then creates a note with the same token is still
      refused, because the token still says "free". */
  method UpgradeKeepsStaleClaims(db: Database, authorization: Option<string>, title: string, content: string,
                                 nowMs: int, codec: TokenCodec, noteId: string)
      returns (upgrade: Response, create: Response)
    requires ExtractToken(authorization, nowMs, codec).Some?
    requires var auth := ExtractToken(authorization, nowMs, codec).value;
             auth.subscription == Free &&
             NotesRoute.OwnedCount(db.notes, auth.userId, auth.tenantId) >= NotesRoute.FREE_NOTE_LIMIT &&
             FirstIndex(db.users, UserIdIs(auth.userId)).Some?
    requires title != "" && content != ""
    modifies db
    ensures upgrade.status == 200
    ensures create == Error(403, NotesRoute.QUOTA_EXCEEDED)
  {
    upgrade := UpgradeRoute.Upgrade(db, authorization, nowMs, codec);
    create := NotesRoute.Post(db, authorization, Some(title), Some(content), nowMs, codec, noteId);
  }
}
