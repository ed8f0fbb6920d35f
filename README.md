# SaaS Notes App: a verified model of the store, the auth helpers and the API handlers

The application is a multi-tenant notes service. Each tenant (company) has
users with the role admin or member and a plan, free or pro. Each user owns
notes inside their tenant. This project models, in Dafny, three layers:

- **the in-memory store** (`Database`). It holds three arrays of users,
  tenants and notes, seeded once with two demo tenants and four demo users.
  Lookups return the first match in store order. Filters keep store order.
  Create appends. Update merges a patch into the first matching record.
  Delete removes the first matching note. Every note query is scoped by tenant.
- **the auth helpers**:
  - the 32-bit rolling password hash and its check;
  - token issue with a seven-day expiry;
  - token verification;
  - extraction of a bearer token from the `Authorization` header.
- **the route handlers**. Each is an ordered decision: authenticate, then
  validate, then check role or quota, then make one store call. The
  handlers are:
  - `GET`/`POST /api/notes`, which list the caller's notes or create one
    within the free plan's three-note quota;
  - `POST /api/auth/login`;
  - `POST /api/subscription/upgrade`;
  - `GET /api/admin/users`, which lists the tenant's users with their
    passwords removed;
  - `GET /api/admin/notes`.

The store is a class, `Db.Database`. Its fields are the three arrays, as
sequences, and the mutating operations are methods. Each method states its
whole new state in terms of the old one. Create and seeding state it as an
append to the old sequence. Update and delete state it at the position
`FirstIndex` picks, a specification function whose first-match property is
proved in `Collections`. The queries are functions whose results are
`Filter`s, with membership, multiplicity and order proved there. Handlers
that only read are functions. The two handlers that write (`POST /api/notes`
and the upgrade) are module-level methods that take the store and modify it.

Some inputs are parameters:
- the clock: `nowMs`, milliseconds, read once per request;
- the generated ids: `noteId`, `id`;
- the token text codec: `TokenCodec`, an encode/decode pair whose decode
  returns `None` where the application's parse would throw;
- the request: the `Authorization` header as `Option<string>`, and the JSON
  body fields as `Option<string>`.

Modules: `Collections` (the array operations: `findIndex`, `find`, `filter`,
`map`), `Types` (the records), `Auth`, `Db`, `Http` (responses),
`NotesRoute`, `LoginRoute`, `UpgradeRoute`, `AdminUsersRoute`,
`AdminNotesRoute`, and `Scenarios` (consequences on the seeded store).

### Behaviour of the code worth knowing

- The admin handlers answer 403 both for a missing token and for a
  non-admin token. They never answer 401.
- `createUser` does not enforce unique emails. `findUserByEmail` returns the
  first user with the email, and the model says exactly that.
- The quota and the tenant of a new note are taken from the token's claims,
  not from the store. `NotesRoute.Post` therefore keeps "every note belongs
  to a user of its tenant" only when the claims name such a user.
- The upgrade does not issue a new token. A client that keeps its old token
  still carries the claim "free", so its fourth note is still refused until
  it logs in again (`Scenarios.UpgradeKeepsStaleClaims`).
- `verifyPassword` compares hashes, so any two passwords with the same
  32-bit hash open the same account (`Auth.CollisionAaBB`: "BB" is
  accepted for "Aa").

## Model

| member | source | states |
|---|---|---|
| `Collections.FirstIndex` | lib/database.ts:105 | `findIndex`: a `Some` answer is the position of the first match; `None` exactly when no element matches |
| `Collections.Find` | lib/database.ts:86 | `find`: `None` exactly when nothing matches; otherwise the element at the first matching position |
| `Collections.FilterMembers` | lib/database.ts:118 | an element is in the filtered result exactly when it is in the input and satisfies the predicate |
| `Collections.FilterCounts` | lib/database.ts:118 | filtering keeps every matching element as many times as it occurs and drops every other one (multiset counts) |
| `Collections.FilterConcat` | lib/database.ts:123 | filtering distributes over concatenation, so the result lists matches in input order |
| `Collections.FilterAppend` | lib/database.ts:141 | appending one element extends the filtered result by it exactly when it matches |
| `Collections.MapSeq` | app/api/admin/users/route.ts:13 | `map`: same length, and each position holds the function applied to the input at that position |
| `Auth.ToInt32` | lib/auth.ts:10-11 | the result is a signed 32-bit integer congruent to the input modulo 2^32, and equal to it when the input is already in range |
| `Auth.Utf16` | lib/auth.ts:9 | a character below U+10000 is one code unit equal to its code; one above it is a high surrogate followed by a low surrogate, and the pair decodes back to the character |
| `Auth.BmpCodeUnits` | lib/auth.ts:8-9 | for a string without astral characters, `length` is the number of characters and `charCodeAt(i)` is the code of character i |
| `Auth.HashStep` | lib/auth.ts:10-11 | the step `(hash << 5) - hash + char`, then `& hash`, written with both 32-bit conversions, equals `ToInt32(31 * hash + char)` |
| `Auth.HashChar` | lib/auth.ts:8-11 | a character below U+10000 folds into the hash as h := ToInt32(31·h + c); an astral one folds in as two such steps, over its high and then its low surrogate |
| `Auth.HashAppend` | lib/auth.ts:8-12 | one more code unit folds into the hash as h := ToInt32(31·h + c) |
| `Auth.HashIsPolynomial` | lib/auth.ts:5-14 | the code-unit fold behind `PasswordHash` is ToInt32 of the unwrapped polynomial sum of c_i·31^(n-1-i): wrapping every step equals wrapping once |
| `Auth.PasswordHashIsCodeUnitHash` | lib/auth.ts:8-12 | `PasswordHash`, the per-character fold, equals the fold over the string's UTF-16 code units in order, starting from 0 |
| `Auth.HashPassword` | lib/auth.ts:5-14 | the `for` loop over the code units returns `PasswordHash(password)`, a signed 32-bit value |
| `Auth.EmptyPasswordHash` | lib/auth.ts:7 | `PasswordHash("")` is 0, the hash of the empty password |
| `Auth.VerifyPassword` | lib/auth.ts:16-18 | accepts exactly the passwords whose code-unit polynomial, wrapped to a signed 32-bit value, equals the stored hash |
| `Auth.VerifyOwnHash` | lib/auth.ts:16-18 | every password is accepted against its own hash |
| `Auth.VerifyAcceptsCollision` | lib/auth.ts:16-18 | a password is accepted against a stored hash exactly when its own hash equals it |
| `Auth.CollisionAaBB` | lib/auth.ts:16-18 | two different passwords, "Aa" and "BB", where the second is accepted against the first's hash |
| `Auth.Seconds` | lib/auth.ts:29 | `Math.floor(Date.now() / 1000)`: the second that contains the millisecond reading |
| `Auth.IssueClaims` | lib/auth.ts:20-34 | the claims copy id, email, role, tenant and plan from the user; `iat` is the current second and `exp` is 604800 seconds after it |
| `Auth.GenerateToken` | lib/auth.ts:20-38 | when the codec decodes what it encodes, the token is accepted at its own issue time and carries the issued claims |
| `Auth.VerifyToken` | lib/auth.ts:40-54 | `None` when decoding fails; otherwise the decoded claims exactly when the clock has not passed the end of the `exp` second |
| `Auth.ExtractToken` | lib/auth.ts:56-64 | `None` for a missing header or one that does not start with "Bearer "; otherwise the verification of the text after the first seven characters |
| `Auth.BearerRoundTrip` | lib/auth.ts:58-63 | a header built as "Bearer " + token yields the verification of that same token |
| `Auth.IssuedTokenAccepted` | lib/auth.ts:20-54 | when the codec decodes what it encodes, an issued token is accepted with the user's own claims through its expiry second and refused after it |
| `Collections.Filter` | lib/database.ts:118 | `filter`: the result is no longer than the input and each of its elements satisfies the predicate |
| `Db.MergeUser` | lib/database.ts:108 | `{ ...user, ...updates, updatedAt }`: each field the patch names takes the patch's value, every other field keeps the user's, and `updatedAt` is now |
| `Db.MergeNote` | lib/database.ts:149 | the same merge for a note |
| `Db.SeedTenants` | lib/database.ts:14-28 | two demo tenants with distinct ids, both created and updated at seeding time |
| `Db.SeedUsers` | lib/database.ts:31-72 | four demo users; exactly the admins are on the pro plan; admins carry the admin password hash and members the member one |
| `Db.SubscriptionPatchOnlySubscription` | lib/database.ts:108 | merging a patch that names only the plan changes the plan and `updatedAt` and nothing else |
| `Db.TextPatchOnlyText` | lib/database.ts:149 | merging a patch that names only title and content changes those and `updatedAt` and nothing else |
| `Db.SeedTenantsExist` | lib/database.ts:11-76 | every seeded user belongs to a seeded tenant |
| `Db.SeedDistinct` | lib/database.ts:31-72 | seeded users have pairwise distinct ids and pairwise distinct emails |
| `Db.SeedPartition` | lib/database.ts:31-74 | tenant-1 holds exactly its admin and then its member, and tenant-2 likewise |
| `Db.CrossTenantNoteNotFound` | lib/database.ts:130-132 | a note id that exists only in other tenants is not found, just like an absent one |
| `Db.Database.constructor` | lib/database.ts:80-82 | a new store holds exactly the two seeded tenants, the four seeded users with their hashed passwords, and no notes |
| `Db.Database.InitializeTestData` | lib/database.ts:11-76 | with no tenant it appends the seed tenants and users; with a tenant present it changes nothing; notes never change |
| `Db.Database.FindUserByEmail` | lib/database.ts:85-87 | `None` exactly when no user has the email; otherwise a user with that email with no earlier user having it |
| `Db.Database.FindUserById` | lib/database.ts:89-91 | `None` exactly when no user has the id; otherwise the first user, in store order, with that id |
| `Db.Database.CreateUser` | lib/database.ts:93-102 | appends one user carrying the supplied fields, the given id and both timestamps set to now; tenants and notes unchanged |
| `Db.Database.UpdateUser` | lib/database.ts:104-110 | with no match it returns `None` and the users are unchanged; otherwise only the first matching index takes the merged record, the length is kept, and the merged record is returned |
| `Db.Database.FindTenantById` | lib/database.ts:113-115 | `None` exactly when no tenant has the id; otherwise the first tenant with it |
| `Db.Database.GetUsersByTenant` | lib/database.ts:117-119 | the `Filter` of the users by tenant, so in store order (`FilterConcat`); exactly the users of the tenant, each with its multiplicity, and no other user |
| `Db.Database.GetNotesByTenant` | lib/database.ts:122-124 | the `Filter` of the notes by tenant, in store order; exactly the notes of the tenant, each with its multiplicity |
| `Db.Database.GetNotesByUser` | lib/database.ts:126-128 | the `Filter` of the notes by owner and tenant, in store order; exactly the notes owned by the user inside the tenant, each with its multiplicity |
| `Db.Database.FindNoteById` | lib/database.ts:130-132 | `None` exactly when no note has both the id and the tenant; otherwise the first such note |
| `Db.Database.CreateNote` | lib/database.ts:134-143 | appends one note carrying the supplied fields, the given id and both timestamps set to now; users and tenants unchanged |
| `Db.Database.UpdateNote` | lib/database.ts:145-151 | with no note matching both id and tenant it returns `None` and changes nothing; otherwise only the first match is merged, and the length is kept |
| `Db.Database.DeleteNote` | lib/database.ts:153-159 | with a match it returns true and removes exactly the first match, keeping the others in order; otherwise false and no change |
| `NotesRoute.Get` | app/api/notes/route.ts:5-18 | 401 without valid claims; otherwise 200 with exactly the notes of the claimed user in the claimed tenant, and no other note |
| `NotesRoute.OwnedCount` | app/api/notes/route.ts:35-36 | `existingNotes.length`: at most the number of notes, and 0 exactly when the user owns no note in the tenant |
| `NotesRoute.OwnedCountAppend` | app/api/notes/route.ts:34-49 | a new note raises its owner's count in its tenant by one and nobody else's |
| `NotesRoute.Post` | app/api/notes/route.ts:20-56 | 401, then 400, then 403 for a free caller with three or more notes, each leaving the store unchanged; 201 exactly otherwise, with one note appended that carries the claimed user and tenant; a free caller's count goes from at most 3 to at most 3; owners stay in their notes' tenant when the claims name such a user |
| `LoginRoute.TenantName` | app/api/auth/login/route.ts:29 | the tenant's name, or "Unknown" when the tenant is missing or its name is empty; never empty |
| `LoginRoute.View` | app/api/auth/login/route.ts:23-30 | the response's user object: the user's id, email, role, plan and tenant, and the given tenant name; it has no password field |
| `LoginRoute.Login` | app/api/auth/login/route.ts:5-36 | 400 for a missing or empty field; the same 401 for an unknown email and for a wrong password; 200 exactly when the first user with the email verifies, with the token issued for that user and a password-free view whose tenant name follows `TenantName` |
| `LoginRoute.LoginTokenAccepted` | app/api/auth/login/route.ts:18 | the token a login returns, sent back as a bearer header, carries that user's claims until it expires |
| `UpgradeRoute.Upgrade` | app/api/subscription/upgrade/route.ts:5-30 | 401 and no change without claims; 404 and no change when no user has the claimed id; otherwise only the first such user changes, to plan "pro" with a fresh `updatedAt`, and the response reports "pro" (an already-pro user also succeeds and stays pro) |
| `AdminUsersRoute.StripPassword` | app/api/admin/users/route.ts:13 | `({ password, ...user }) => user`: every field but the password, unchanged |
| `AdminUsersRoute.StripPasswordLosesOnlyPassword` | app/api/admin/users/route.ts:13 | two users strip to the same record exactly when they differ at most in their passwords |
| `AdminUsersRoute.StripPasswords` | app/api/admin/users/route.ts:13 | one stripped record per user, in order; a record is in the result exactly when it strips some input user |
| `AdminUsersRoute.ListUsers` | app/api/admin/users/route.ts:5-20 | 403 for missing claims and for a non-admin; otherwise 200 with the tenant's users in store order, each without its password, only from that tenant and none of them missing |
| `AdminNotesRoute.ListNotes` | app/api/admin/notes/route.ts:5-18 | 403 for missing claims and for any non-admin, even of the same tenant; otherwise 200 with exactly the tenant's notes from all owners |
| `Scenarios.SeedOnce` | lib/database.ts:11-12 | constructing the store seeds it, and a second seeding call leaves it as it was |
| `Scenarios.AdminLogin` | app/api/auth/login/route.ts:13-30 | on the seeded store, admin@acme.com with "admin123" logs in as user-1, an admin with the pro plan in tenant-1 "Acme Corp" |
| `Scenarios.AdminListsAcmeUsers` | app/api/admin/users/route.ts:12-13 | with the demo admin's token, the admin list holds admin@acme.com and then member@acme.com |
| `Scenarios.UpgradeKeepsStaleClaims` | app/api/subscription/upgrade/route.ts:14-25 | a free caller at the quota who upgrades and then posts with the same token still gets 403 |

## Left out

- The token's text encoding (`btoa`/`atob`, `JSON.stringify`/`JSON.parse`) is the `TokenCodec` parameter. It covers throwing and garbage tokens through `decode` returning `None`. Parsed JSON that lacks `exp` or has it of another type is not modelled: decode yields well-typed claims or nothing. Lemmas that need a round trip state it as a precondition.
- `Date.now()`, `new Date()` and `Math.random()` are parameters. One clock reading serves a whole request, and generated ids are inputs whose uniqueness is not assumed. Seeding likewise takes one `now` for all its records, where lib/database.ts:17-70 calls `new Date()` separately for each timestamp, so in the model every seeded record has `createdAt == updatedAt` and all seeded records share one time, which the application does not guarantee.
- `Db.Database.CreateUser`: the id is a parameter. The model does not promise the fresh, unique id the source's timestamp-and-random id makes likely.
- `Db.Database.CreateNote`: the id is a parameter, in the same way.
- The decimal `toString()` of the hash is not modelled. The store keeps the 32-bit value that the decimal text spells; the text is a one-to-one image.
- The hash arithmetic runs on JavaScript doubles. Every intermediate value there is an integer well within 2^53, so the model computes it on unbounded integers plus explicit `ToInt32`.
- The application's arrays live at module level, so every `Database` instance shares them. The model keeps them on one `Database` object and passes it to every handler, which makes the sharing explicit; the exported singleton `db` is not modelled separately.
- `async`/`Promise`, `NextRequest`/`NextResponse`, the `try`/`catch` 500 paths and a failing `request.json()` are not modelled. The store calls cannot throw, but `generateToken` can, as the next line says.
- `TokenCodec.encode` never fails, whereas `btoa` throws for a claim character above U+00FF. So a stored user whose email is "ł@acme.com" gets a 500 from the application's login. `LoginRoute.Login` promises 200 for that user instead, given the right password.
- Strings are sequences of Unicode scalar values. A JSON body can carry a lone surrogate (`"\ud800"`), which `hashPassword` folds in as one code unit. No Dafny `string` holds one, so such passwords are not modelled.
- JSON body fields that are not strings are not modelled: a field is a string or absent.
- A `Partial` patch that sets a field explicitly to `undefined` is not modelled. A patch field is either a value or absent.
- A stored credential is assumed to be a hash output: `User.password` is the 32-bit value, so a user created with any other password text cannot be represented. In the application such a user never verifies, and no modelled handler calls `createUser`.
- The unused `JWT_SECRET` and the `console.error` logging are not modelled.
- The `app/api/notes/[id]/route.ts` handlers are not part of this model. The store operations they rely on (`findNoteById`, `updateNote`, `deleteNote`) are.
- The pages, components and `hooks/use-auth.ts` are not modelled. They are browser rendering, `localStorage` and `fetch`.
