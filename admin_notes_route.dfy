/** `GET /api/admin/notes`: an admin's list of every note of their tenant. */
module AdminNotesRoute {
  import opened Collections
  import opened Types
  import opened Auth
  import opened Db
  import opened Http

  /** `GET`: 403 both without valid claims and for a non-admin, even a member
      of the same tenant; otherwise the tenant's notes from all owners, in
      store order. */
  function ListNotes(db: Database, authorization: Option<string>, nowMs: int, codec: TokenCodec): (r: Response)
    reads db
    ensures var auth := ExtractToken(authorization, nowMs, codec);
            (auth.None? || auth.value.role != Admin) ==> r == Error(403, ADMIN_REQUIRED)
    ensures var auth := ExtractToken(authorization, nowMs, codec);
            auth.Some? && auth.value.role == Admin ==>
              r.status == 200 && r.body == NotesBody(db.GetNotesByTenant(auth.value.tenantId)) &&
              forall n :: n in r.body.notes <==> n in db.notes && n.tenantId == auth.value.tenantId
  {
    match ExtractToken(authorization, nowMs, codec)
    case None => Error(403, ADMIN_REQUIRED)
    case Some(auth) =>
      if auth.role != Admin then Error(403, ADMIN_REQUIRED)
      else Response(200, NotesBody(db.GetNotesByTenant(auth.tenantId)))
  }
}
