/** The record shapes of the application: users, tenants, notes and the
    claims an authentication token carries. */
module Types {

  /** A JavaScript `Date`, as milliseconds since the epoch. */
  type Timestamp = int

  /** A JavaScript number after `ToInt32`: a signed 32-bit integer. */
  type Int32 = x: int | -0x8000_0000 <= x < 0x8000_0000

  datatype Role = Admin | Member

  datatype Subscription = Free | Pro

  /** A tenant: the isolation boundary every user and note belongs to. */
  datatype Tenant = Tenant(id: string, name: string, createdAt: Timestamp, updatedAt: Timestamp)

  /** A user. The stored credential is the password hash; the application
      keeps its decimal text, the model the 32-bit value that text spells. */
  datatype User = User(
    id: string,
    email: string,
    password: Int32,
    role: Role,
    tenantId: string,
    subscription: Subscription,
    createdAt: Timestamp,
    updatedAt: Timestamp)

  /** A note, owned by one user and scoped to one tenant. */
  datatype Note = Note(
    id: string,
    title: string,
    content: string,
    userId: string,
    tenantId: string,
    createdAt: Timestamp,
    updatedAt: Timestamp)

  /** The claims of an authentication token; `iat` and `exp` are in seconds. */
  datatype AuthToken = AuthToken(
    userId: string,
    email: string,
    role: Role,
    tenantId: string,
    subscription: Subscription,
    iat: int,
    exp: int)
}
