/** `POST /api/subscription/upgrade`: switch the caller to the pro plan. */
module UpgradeRoute {
  import opened Collections
  import opened Types
  import opened Auth
  import opened Db
  import opened Http

  const USER_NOT_FOUND: string := "User not found"
  const UPGRADED: string := "Successfully upgraded to Pro!"

  /** `POST`: 401 without valid claims and 404 when no user has the claimed id,
      both leaving the store as it was. Otherwise the first user with that id
      gets subscription "pro" and a fresh update time, nothing else in the store
      changes, and the response reports "pro"; no new token is issued. */
  method Upgrade(db: Database, authorization: Option<string>, nowMs: int, codec: TokenCodec) returns (r: Response)
    modifies db
    ensures var auth := ExtractToken(authorization, nowMs, codec);
            auth.None? ==> r == Error(401, UNAUTHORIZED) && unchanged(db)
    ensures var auth := ExtractToken(authorization, nowMs, codec);
            auth.Some? && FirstIndex(old(db.users), UserIdIs(auth.value.userId)).None? ==>
              r == Error(404, USER_NOT_FOUND) &&
              db.users == old(db.users) && db.notes == old(db.notes) && db.tenants == old(db.tenants)
    ensures var auth := ExtractToken(authorization, nowMs, codec);
            auth.Some? && FirstIndex(old(db.users), UserIdIs(auth.value.userId)).Some? ==>
              var i := FirstIndex(old(db.users), UserIdIs(auth.value.userId)).value;
              r == Response(200, UpgradeBody(UPGRADED, Pro)) &&
              db.users == old(db.users)[i := old(db.users)[i].(subscription := Pro, updatedAt := nowMs)] &&
              db.notes == old(db.notes) && db.tenants == old(db.tenants)
    ensures r.status == 200 ==> r.body == UpgradeBody(UPGRADED, Pro)
  {
    var auth := ExtractToken(authorization, nowMs, codec);
    if auth.None? {
      return Error(401, UNAUTHORIZED);
    }

    var updatedUser := db.UpdateUser(auth.value.userId, SubscriptionPatch(Pro), nowMs);

    if updatedUser.None? {
      assert db.users == old(db.users);
      return Error(404, USER_NOT_FOUND);
    }

    SubscriptionPatchOnlySubscription(old(db.users)[FirstIndex(old(db.users), UserIdIs(auth.value.userId)).value], Pro, nowMs);
    r := Response(200, UpgradeBody(UPGRADED, Pro));
  }
}
