/** The responses the route handlers return: a status code and a JSON body. */
module Http {
  import opened Collections
  import opened Types

  /** The login response's view of the user: no password, plus the tenant's name. */
  datatype UserView = UserView(
    id: string,
    email: string,
    role: Role,
    subscription: Subscription,
    tenantId: string,
    tenantName: string)

  /** A user with its password removed, as the admin user list returns it. */
  datatype PublicUser = PublicUser(
    id: string,
    email: string,
    role: Role,
    tenantId: string,
    subscription: Subscription,
    createdAt: Timestamp,
    updatedAt: Timestamp)

  /** The JSON bodies the handlers send. */
  datatype Body =
    | ErrorBody(error: string)
    | NotesBody(notes: seq<Note>)
    | NoteBody(note: Note)
    | LoginBody(token: string, user: UserView)
    | UpgradeBody(message: string, subscription: Subscription)
    | UsersBody(users: seq<PublicUser>)

  datatype Response = Response(status: int, body: Body)

  /** `NextResponse.json({ error: message }, { status })`. */
  function Error(status: int, message: string): Response
  {
    Response(status, ErrorBody(message))
  }

  /** A JSON body field that is truthy: present and not the empty string. */
  predicate Present(field: Option<string>)
  {
    field.Some? && field.value != ""
  }

  const UNAUTHORIZED: string := "Unauthorized"
  const ADMIN_REQUIRED: string := "Admin access required"
}
