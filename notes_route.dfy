/** `GET /api/notes` (the caller's own notes) and `POST /api/notes` (create a
    note, within the free plan's quota). */
module NotesRoute {
  import opened Collections
  import opened Types
  import opened Auth
  import opened Db
  import opened Http

  /** The most notes a caller whose token says "free" may own in a tenant. */
  const FREE_NOTE_LIMIT: int := 3

  const MISSING_FIELDS: string := "Title and content are required"
  const QUOTA_EXCEEDED: string := "Free plan limited to 3 notes. Upgrade to Pro for unlimited notes."

  /** `GET`: without valid claims 401, whatever the store holds; otherwise
      exactly the notes of the claimed user in the claimed tenant, in store
      order, and no other user's or tenant's note. */
  function Get(db: Database, authorization: Option<string>, nowMs: int, codec: TokenCodec): (r: Response)
    reads db
    ensures var auth := ExtractToken(authorization, nowMs, codec);
            auth.None? ==> r == Error(401, UNAUTHORIZED)
    ensures var auth := ExtractToken(authorization, nowMs, codec);
            auth.Some? ==> r.status == 200 && r.body.NotesBody? &&
                           r.body.notes == db.GetNotesByUser(auth.value.userId, auth.value.tenantId)
    ensures var auth := ExtractToken(authorization, nowMs, codec);
            auth.Some? ==> forall n :: n in r.body.notes <==>
                             n in db.notes && n.userId == auth.value.userId && n.tenantId == auth.value.tenantId
  {
    match ExtractToken(authorization, nowMs, codec)
    case None => Error(401, UNAUTHORIZED)
    case Some(auth) => Response(200, NotesBody(db.GetNotesByUser(auth.userId, auth.tenantId)))
  }

  /** The number of notes `userId` owns in `tenantId`, as `existingNotes.length`
      counts them: at most the number of notes, and 0 exactly when the user owns
      none there. */
  function OwnedCount(notes: seq<Note>, userId: string, tenantId: string): (c: nat)
    ensures c <= |notes|
    ensures c == 0 <==> forall n :: n in notes ==> !(n.userId == userId && n.tenantId == tenantId)
  {
    var owned := Filter(notes, NoteOwnedBy(userId, tenantId));
    FilterMembers(notes, NoteOwnedBy(userId, tenantId));
    assert |owned| > 0 ==> owned[0] in owned;
    |owned|
  }

  /** Appending a note raises an owner's count by one exactly when the note is theirs. */
  lemma OwnedCountAppend(notes: seq<Note>, n: Note, userId: string, tenantId: string)
    ensures OwnedCount(notes + [n], userId, tenantId) ==
              OwnedCount(notes, userId, tenantId) + (if n.userId == userId && n.tenantId == tenantId then 1 else 0)
  {
    FilterAppend(notes, n, NoteOwnedBy(userId, tenantId));
  }

  /** Every note is owned by a stored user of the note's own tenant. */
  predicate OwnersInTenant(db: Database)
    reads db
  {
    forall n :: n in db.notes ==> exists u :: u in db.users && u.id == n.userId && u.tenantId == n.tenantId
  }

  /** The claims name a stored user of the tenant they claim. */
  predicate ClaimsMatchUser(db: Database, claims: AuthToken)
    reads db
  {
    exists u :: u in db.users && u.id == claims.userId && u.tenantId == claims.tenantId
  }

  /** `POST`: 401 without valid claims, then 400 when title or content is
      missing or empty, then 403 when the claims say "free" and the caller
      already owns three notes in the tenant; every refusal leaves the store
      as it was. Otherwise 201 with one new note, owned by the claimed user in
      the claimed tenant, appended to the store. */
  method Post(db: Database, authorization: Option<string>, title: Option<string>, content: Option<string>,
              nowMs: int, codec: TokenCodec, noteId: string) returns (r: Response)
    modifies db
    ensures var auth := ExtractToken(authorization, nowMs, codec);
            auth.None? ==> r == Error(401, UNAUTHORIZED) && unchanged(db)
    ensures var auth := ExtractToken(authorization, nowMs, codec);
            auth.Some? && !(Present(title) && Present(content)) ==> r == Error(400, MISSING_FIELDS) && unchanged(db)
    ensures var auth := ExtractToken(authorization, nowMs, codec);
            auth.Some? && Present(title) && Present(content) && auth.value.subscription == Free &&
            old(OwnedCount(db.notes, auth.value.userId, auth.value.tenantId)) >= FREE_NOTE_LIMIT ==>
              r == Error(403, QUOTA_EXCEEDED) && unchanged(db)
    ensures var auth := ExtractToken(authorization, nowMs, codec);
            r.status == 201 <==>
              auth.Some? && Present(title) && Present(content) &&
              (auth.value.subscription == Pro ||
               old(OwnedCount(db.notes, auth.value.userId, auth.value.tenantId)) < FREE_NOTE_LIMIT)
    ensures var auth := ExtractToken(authorization, nowMs, codec);
            r.status == 201 ==>
              r.body == NoteBody(Note(noteId, title.value, content.value, auth.value.userId, auth.value.tenantId, nowMs, nowMs)) &&
              db.notes == old(db.notes) + [r.body.note] &&
              db.users == old(db.users) && db.tenants == old(db.tenants)
    ensures var auth := ExtractToken(authorization, nowMs, codec);
            auth.Some? && auth.value.subscription == Free &&
            old(OwnedCount(db.notes, auth.value.userId, auth.value.tenantId)) <= FREE_NOTE_LIMIT ==>
              OwnedCount(db.notes, auth.value.userId, auth.value.tenantId) <= FREE_NOTE_LIMIT
    ensures var auth := ExtractToken(authorization, nowMs, codec);
            old(OwnersInTenant(db)) && (auth.Some? ==> old(ClaimsMatchUser(db, auth.value))) ==> OwnersInTenant(db)
  {
    var auth := ExtractToken(authorization, nowMs, codec);
    if auth.None? {
      return Error(401, UNAUTHORIZED);
    }
    var claims := auth.value;

    if !Present(title) || !Present(content) {
      return Error(400, MISSING_FIELDS);
    }

    if claims.subscription == Free {
      var existingNotes := db.GetNotesByUser(claims.userId, claims.tenantId);
      if |existingNotes| >= FREE_NOTE_LIMIT {
        return Error(403, QUOTA_EXCEEDED);
      }
    }

    ghost var before := db.notes;
    var note := db.CreateNote(NewNote(title.value, content.value, claims.userId, claims.tenantId), noteId, nowMs);
    OwnedCountAppend(before, note, claims.userId, claims.tenantId);
    assert forall n :: n in db.notes ==> n in before || n == note;
    r := Response(201, NoteBody(note));
  }
}
