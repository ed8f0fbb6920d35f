/** The in-memory store: three arrays of users, tenants and notes, with
    first-match lookups, order-keeping filters, append on create, a merge at
    one index on update and removal of one element on delete. */
module Db {
  import opened Collections
  import opened Types
  import Auth

  // ---------------------------------------------------------------------
  // Inputs of the store operations
  // ---------------------------------------------------------------------

  /** The fields a caller supplies to `createUser` (all but id and timestamps). */
  datatype NewUser = NewUser(email: string, password: Int32, role: Role, tenantId: string, subscription: Subscription)

  /** The fields a caller supplies to `createNote` (all but id and timestamps). */
  datatype NewNote = NewNote(title: string, content: string, userId: string, tenantId: string)

  /** A `Partial<User>`: `None` is a field the patch does not mention.
      `updatedAt` is absent because the merge overwrites it in any case. */
  datatype UserPatch = UserPatch(
    id: Option<string>,
    email: Option<string>,
    password: Option<Int32>,
    role: Option<Role>,
    tenantId: Option<string>,
    subscription: Option<Subscription>,
    createdAt: Option<Timestamp>)

  /** A `Partial<Note>`, in the same way. */
  datatype NotePatch = NotePatch(
    id: Option<string>,
    title: Option<string>,
    content: Option<string>,
    userId: Option<string>,
    tenantId: Option<string>,
    createdAt: Option<Timestamp>)

  /** A patch that mentions only the subscription. */
  function SubscriptionPatch(s: Subscription): UserPatch
  {
    UserPatch(None, None, None, None, None, Some(s), None)
  }

  /** A patch that mentions only the title and the content. */
  function TextPatch(title: string, content: string): NotePatch
  {
    NotePatch(None, Some(title), Some(content), None, None, None)
  }

  /** The patched value of one field: the patch's if it has one, else the current one. */
  function Pick<T>(patch: Option<T>, current: T): T
  {
    match patch
    case Some(v) => v
    case None => current
  }

  /** `{ ...user, ...updates, updatedAt: now }`: every field the patch names
      takes the patch's value, every other field keeps the user's, and the
      update time is now. */
  function MergeUser(u: User, p: UserPatch, now: Timestamp): (r: User)
    ensures r.id == (if p.id.Some? then p.id.value else u.id)
    ensures r.email == (if p.email.Some? then p.email.value else u.email)
    ensures r.password == (if p.password.Some? then p.password.value else u.password)
    ensures r.role == (if p.role.Some? then p.role.value else u.role)
    ensures r.tenantId == (if p.tenantId.Some? then p.tenantId.value else u.tenantId)
    ensures r.subscription == (if p.subscription.Some? then p.subscription.value else u.subscription)
    ensures r.createdAt == (if p.createdAt.Some? then p.createdAt.value else u.createdAt)
    ensures r.updatedAt == now
  {
    User(Pick(p.id, u.id), Pick(p.email, u.email), Pick(p.password, u.password), Pick(p.role, u.role),
         Pick(p.tenantId, u.tenantId), Pick(p.subscription, u.subscription), Pick(p.createdAt, u.createdAt), now)
  }

  /** `{ ...note, ...updates, updatedAt: now }`, in the same way. */
  function MergeNote(n: Note, p: NotePatch, now: Timestamp): (r: Note)
    ensures r.id == (if p.id.Some? then p.id.value else n.id)
    ensures r.title == (if p.title.Some? then p.title.value else n.title)
    ensures r.content == (if p.content.Some? then p.content.value else n.content)
    ensures r.userId == (if p.userId.Some? then p.userId.value else n.userId)
    ensures r.tenantId == (if p.tenantId.Some? then p.tenantId.value else n.tenantId)
    ensures r.createdAt == (if p.createdAt.Some? then p.createdAt.value else n.createdAt)
    ensures r.updatedAt == now
  {
    Note(Pick(p.id, n.id), Pick(p.title, n.title), Pick(p.content, n.content), Pick(p.userId, n.userId),
         Pick(p.tenantId, n.tenantId), Pick(p.createdAt, n.createdAt), now)
  }

  /** Merging the subscription-only patch changes the subscription and the
      update time and keeps every other field. */
  lemma SubscriptionPatchOnlySubscription(u: User, s: Subscription, now: Timestamp)
    ensures MergeUser(u, SubscriptionPatch(s), now) == u.(subscription := s, updatedAt := now)
  {
  }

  /** Merging a text patch changes title, content and update time, and keeps
      id, owner, tenant and creation time. */
  lemma TextPatchOnlyText(n: Note, title: string, content: string, now: Timestamp)
    ensures MergeNote(n, TextPatch(title, content), now) == n.(title := title, content := content, updatedAt := now)
  {
  }

  // ---------------------------------------------------------------------
  // The predicates the lookups match with
  // ---------------------------------------------------------------------

  function UserEmailIs(email: string): User -> bool { (u: User) => u.email == email }
  function UserIdIs(id: string): User -> bool { (u: User) => u.id == id }
  function UserInTenant(tenantId: string): User -> bool { (u: User) => u.tenantId == tenantId }
  function TenantIdIs(id: string): Tenant -> bool { (t: Tenant) => t.id == id }
  function NoteInTenant(tenantId: string): Note -> bool { (n: Note) => n.tenantId == tenantId }
  function NoteOwnedBy(userId: string, tenantId: string): Note -> bool { (n: Note) => n.userId == userId && n.tenantId == tenantId }
  function NoteKey(id: string, tenantId: string): Note -> bool { (n: Note) => n.id == id && n.tenantId == tenantId }

  // ---------------------------------------------------------------------
  // Seed data
  // ---------------------------------------------------------------------

  /** The two demo tenants: distinct ids, both created and updated now. */
  function SeedTenants(now: Timestamp): (r: seq<Tenant>)
    ensures |r| == 2 && r[0].id != r[1].id
    ensures forall t :: t in r ==> t.createdAt == now && t.updatedAt == now
  {
    [Tenant("tenant-1", "Acme Corp", now, now), Tenant("tenant-2", "Beta Inc", now, now)]
  }

  /** The four demo users, given the hashes of "admin123" and "member123":
      an admin on the pro plan and a member on the free plan in each tenant.
      Admins carry the admin hash and members the member hash. */
  function SeedUsers(now: Timestamp, adminHash: Int32, memberHash: Int32): (r: seq<User>)
    ensures |r| == 4
    ensures forall i :: 0 <= i < |r| ==> (r[i].role == Admin <==> r[i].subscription == Pro)
    ensures forall i :: 0 <= i < |r| ==> r[i].password == if r[i].role == Admin then adminHash else memberHash
  {
    [ User("user-1", "admin@acme.com", adminHash, Admin, "tenant-1", Pro, now, now),
      User("user-2", "member@acme.com", memberHash, Member, "tenant-1", Free, now, now),
      User("user-3", "admin@beta.com", adminHash, Admin, "tenant-2", Pro, now, now),
      User("user-4", "member@beta.com", memberHash, Member, "tenant-2", Free, now, now) ]
  }

  const ADMIN_PASSWORD: string := "admin123"
  const MEMBER_PASSWORD: string := "member123"

  /** The seeded users with the hashes the application computes for them. */
  function SeedUsersHashed(now: Timestamp): seq<User>
  {
    SeedUsers(now, Auth.PasswordHash(ADMIN_PASSWORD), Auth.PasswordHash(MEMBER_PASSWORD))
  }

  /** Every seeded user belongs to a seeded tenant. */
  lemma SeedTenantsExist(now: Timestamp, a: Int32, m: Int32)
    ensures forall u :: u in SeedUsers(now, a, m) ==> exists t :: t in SeedTenants(now) && t.id == u.tenantId
  {
    var ts := SeedTenants(now);
    assert ts[0] in ts && ts[1] in ts;
  }

  /** Seeded users have distinct emails and distinct ids. */
  lemma SeedDistinct(now: Timestamp, a: Int32, m: Int32)
    ensures forall i, j :: 0 <= i < j < |SeedUsers(now, a, m)| ==>
              SeedUsers(now, a, m)[i].email != SeedUsers(now, a, m)[j].email && SeedUsers(now, a, m)[i].id != SeedUsers(now, a, m)[j].id
  {
  }

  /** Filtering a four-element sequence, element by element. */
  lemma SeedFilter<T>(s: seq<T>, p: T -> bool)
    requires |s| == 4
    ensures Filter(s, p) == Keep(s[0], p) + Keep(s[1], p) + Keep(s[2], p) + Keep(s[3], p)
  {
    var k0, k1, k2, k3 := Keep(s[0], p), Keep(s[1], p), Keep(s[2], p), Keep(s[3], p);
    var t1, t2, t3 := s[1..], s[2..], s[3..];
    assert t3[0] == s[3] && t3[1..] == [];
    assert Filter(t3, p) == k3;
    assert t2[0] == s[2] && t2[1..] == t3;
    assert Filter(t2, p) == k2 + k3;
    assert t1[0] == s[1] && t1[1..] == t2;
    assert Filter(t1, p) == k1 + (k2 + k3);
    assert Filter(s, p) == k0 + (k1 + (k2 + k3));
    assert k0 + (k1 + (k2 + k3)) == k0 + k1 + k2 + k3;
  }

  /** Each seeded tenant holds exactly its admin and then its member. */
  lemma SeedPartition(now: Timestamp, a: Int32, m: Int32)
    ensures Filter(SeedUsers(now, a, m), UserInTenant("tenant-1")) == SeedUsers(now, a, m)[..2]
    ensures Filter(SeedUsers(now, a, m), UserInTenant("tenant-2")) == SeedUsers(now, a, m)[2..]
  {
    var us := SeedUsers(now, a, m);
    var p1, p2 := UserInTenant("tenant-1"), UserInTenant("tenant-2");
    assert p1(us[0]) && p1(us[1]) && !p1(us[2]) && !p1(us[3]);
    assert !p2(us[0]) && !p2(us[1]) && p2(us[2]) && p2(us[3]);
    SeedFilter(us, p1);
    SeedFilter(us, p2);
    assert us[..2] == [us[0], us[1]];
    assert us[2..] == [us[2], us[3]];
  }

  // ---------------------------------------------------------------------
  // The store
  // ---------------------------------------------------------------------

  /** Tenant scoping happens in the lookup: a note whose id exists only in
      other tenants is not found, exactly as a missing one. */
  lemma CrossTenantNoteNotFound(db: Database, id: string, tenantId: string)
    requires forall n :: n in db.notes && n.id == id ==> n.tenantId != tenantId
    ensures db.FindNoteById(id, tenantId).None?
  {
    forall i | 0 <= i < |db.notes|
      ensures db.notes[i].id != id || db.notes[i].tenantId != tenantId
    {
      assert db.notes[i] in db.notes;
    }
  }

  /** The module's three arrays. The application builds one `Database`; the
      arrays belong to the module, so the model keeps them on that one object. */
  class Database {
    var users: seq<User>
    var tenants: seq<Tenant>
    var notes: seq<Note>

    /** `new Database()` on the empty arrays: they are seeded once. */
    constructor (now: Timestamp)
      ensures tenants == SeedTenants(now) && users == SeedUsersHashed(now) && notes == []
    {
      users, tenants, notes := [], [], [];
      new;
      InitializeTestData(now);
    }

    /** `initializeTestData`: seed two tenants and four users, only while no
        tenant exists; with a tenant present it changes nothing. */
    method InitializeTestData(now: Timestamp)
      modifies this
      ensures |old(tenants)| == 0 ==> tenants == SeedTenants(now) && users == old(users) + SeedUsersHashed(now)
      ensures |old(tenants)| != 0 ==> tenants == old(tenants) && users == old(users)
      ensures notes == old(notes)
    {
      if |tenants| == 0 {
        assert tenants == [];
        tenants := tenants + SeedTenants(now);
        var adminHash := Auth.HashPassword(ADMIN_PASSWORD);
        var memberHash := Auth.HashPassword(MEMBER_PASSWORD);
        users := users + SeedUsers(now, adminHash, memberHash);
      }
    }

    // User operations

    /** `findUserByEmail`: the first user, in store order, with this email. */
    function FindUserByEmail(email: string): (r: Option<User>)
      reads this
      ensures r.None? <==> forall i :: 0 <= i < |users| ==> users[i].email != email
      ensures r.Some? ==> r.value.email == email
      ensures r.Some? ==>
                exists i :: 0 <= i < |users| && users[i] == r.value && forall j :: 0 <= j < i ==> users[j].email != email
    {
      Find(users, UserEmailIs(email))
    }

    /** `findUserById`: the first user, in store order, with this id. */
    function FindUserById(id: string): (r: Option<User>)
      reads this
      ensures r.None? <==> forall i :: 0 <= i < |users| ==> users[i].id != id
      ensures r.Some? ==> r.value.id == id
      ensures r.Some? ==>
                exists i :: 0 <= i < |users| && users[i] == r.value && forall j :: 0 <= j < i ==> users[j].id != id
    {
      Find(users, UserIdIs(id))
    }

    /** `createUser`: append one user with the supplied fields, the given id
        and both timestamps set to now. */
    method CreateUser(data: NewUser, id: string, now: Timestamp) returns (user: User)
      modifies this
      ensures user == User(id, data.email, data.password, data.role, data.tenantId, data.subscription, now, now)
      ensures users == old(users) + [user]
      ensures tenants == old(tenants) && notes == old(notes)
    {
      user := User(id, data.email, data.password, data.role, data.tenantId, data.subscription, now, now);
      users := users + [user];
    }

    /** `updateUser`: merge the patch into the first user with this id; `None`
        and no change when there is none. */
    method UpdateUser(id: string, patch: UserPatch, now: Timestamp) returns (r: Option<User>)
      modifies this
      ensures FirstIndex(old(users), UserIdIs(id)).None? ==> r.None? && users == old(users)
      ensures FirstIndex(old(users), UserIdIs(id)).Some? ==>
                var i := FirstIndex(old(users), UserIdIs(id)).value;
                |users| == |old(users)| &&
                users == old(users)[i := MergeUser(old(users)[i], patch, now)] &&
                r == Some(users[i])
      ensures tenants == old(tenants) && notes == old(notes)
    {
      var index := FirstIndex(users, UserIdIs(id));
      if index.None? {
        return None;
      }
      var i := index.value;
      users := users[i := MergeUser(users[i], patch, now)];
      r := Some(users[i]);
    }

    // Tenant operations

    /** `findTenantById`: the first tenant, in store order, with this id. */
    function FindTenantById(id: string): (r: Option<Tenant>)
      reads this
      ensures r.None? <==> forall i :: 0 <= i < |tenants| ==> tenants[i].id != id
      ensures r.Some? ==> r.value.id == id
      ensures r.Some? ==>
                exists i :: 0 <= i < |tenants| && tenants[i] == r.value && forall j :: 0 <= j < i ==> tenants[j].id != id
    {
      Find(tenants, TenantIdIs(id))
    }

    /** `getUsersByTenant`: the users of one tenant, in store order. */
    function GetUsersByTenant(tenantId: string): (r: seq<User>)
      reads this
      ensures r == Filter(users, UserInTenant(tenantId))
      ensures forall u :: u in r <==> u in users && u.tenantId == tenantId
      ensures forall u :: multiset(r)[u] == if u.tenantId == tenantId then multiset(users)[u] else 0
    {
      FilterMembers(users, UserInTenant(tenantId));
      FilterCounts(users, UserInTenant(tenantId));
      Filter(users, UserInTenant(tenantId))
    }

    // Note operations

    /** `getNotesByTenant`: the notes of one tenant, in store order. */
    function GetNotesByTenant(tenantId: string): (r: seq<Note>)
      reads this
      ensures r == Filter(notes, NoteInTenant(tenantId))
      ensures forall n :: n in r <==> n in notes && n.tenantId == tenantId
      ensures forall n :: multiset(r)[n] == if n.tenantId == tenantId then multiset(notes)[n] else 0
    {
      FilterMembers(notes, NoteInTenant(tenantId));
      FilterCounts(notes, NoteInTenant(tenantId));
      Filter(notes, NoteInTenant(tenantId))
    }

    /** `getNotesByUser`: the notes of one user within one tenant, in store order. */
    function GetNotesByUser(userId: string, tenantId: string): (r: seq<Note>)
      reads this
      ensures r == Filter(notes, NoteOwnedBy(userId, tenantId))
      ensures forall n :: n in r <==> n in notes && n.userId == userId && n.tenantId == tenantId
      ensures forall n :: multiset(r)[n] == if n.userId == userId && n.tenantId == tenantId then multiset(notes)[n] else 0
    {
      FilterMembers(notes, NoteOwnedBy(userId, tenantId));
      FilterCounts(notes, NoteOwnedBy(userId, tenantId));
      Filter(notes, NoteOwnedBy(userId, tenantId))
    }

    /** `findNoteById`: the first note with this id inside this tenant; a note
        with the id in another tenant is not found. */
    function FindNoteById(id: string, tenantId: string): (r: Option<Note>)
      reads this
      ensures r.None? <==> forall i :: 0 <= i < |notes| ==> notes[i].id != id || notes[i].tenantId != tenantId
      ensures r.Some? ==> r.value.id == id && r.value.tenantId == tenantId
      ensures r.Some? ==>
                exists i :: 0 <= i < |notes| && notes[i] == r.value &&
                  forall j :: 0 <= j < i ==> notes[j].id != id || notes[j].tenantId != tenantId
    {
      Find(notes, NoteKey(id, tenantId))
    }

    /** `createNote`: append one note with the supplied fields, the given id
        and both timestamps set to now. */
    method CreateNote(data: NewNote, id: string, now: Timestamp) returns (note: Note)
      modifies this
      ensures note == Note(id, data.title, data.content, data.userId, data.tenantId, now, now)
      ensures notes == old(notes) + [note]
      ensures users == old(users) && tenants == old(tenants)
    {
      note := Note(id, data.title, data.content, data.userId, data.tenantId, now, now);
      notes := notes + [note];
    }

    /** `updateNote`: merge the patch into the first note with this id inside
        this tenant; `None` and no change when there is none. */
    method UpdateNote(id: string, tenantId: string, patch: NotePatch, now: Timestamp) returns (r: Option<Note>)
      modifies this
      ensures FirstIndex(old(notes), NoteKey(id, tenantId)).None? ==> r.None? && notes == old(notes)
      ensures FirstIndex(old(notes), NoteKey(id, tenantId)).Some? ==>
                var i := FirstIndex(old(notes), NoteKey(id, tenantId)).value;
                |notes| == |old(notes)| &&
                notes == old(notes)[i := MergeNote(old(notes)[i], patch, now)] &&
                r == Some(notes[i])
      ensures users == old(users) && tenants == old(tenants)
    {
      var index := FirstIndex(notes, NoteKey(id, tenantId));
      if index.None? {
        return None;
      }
      var i := index.value;
      notes := notes[i := MergeNote(notes[i], patch, now)];
      r := Some(notes[i]);
    }

    /** `deleteNote`: remove the first note with this id inside this tenant and
        report whether there was one. */
    method DeleteNote(id: string, tenantId: string) returns (deleted: bool)
      modifies this
      ensures FirstIndex(old(notes), NoteKey(id, tenantId)).None? ==> !deleted && notes == old(notes)
      ensures FirstIndex(old(notes), NoteKey(id, tenantId)).Some? ==>
                var i := FirstIndex(old(notes), NoteKey(id, tenantId)).value;
                deleted && |notes| == |old(notes)| - 1 &&
                notes == old(notes)[..i] + old(notes)[i + 1..]
      ensures users == old(users) && tenants == old(tenants)
    {
      var index := FirstIndex(notes, NoteKey(id, tenantId));
      if index.None? {
        return false;
      }
      var i := index.value;
      notes := notes[..i] + notes[i + 1..];
      deleted := true;
    }
  }
}
