/** The request-independent parts of every handler: the signed-in user and the JSON error reply. */
module Http {

  /** The user `getCurrentUser` resolves from the session cookie. */
  datatype User = User(id: string, email: string)

  /** `NextResponse.json({ error }, { status })`. */
  datatype ErrorReply = ErrorReply(status: int, error: string)

  const AuthRequired: ErrorReply := ErrorReply(401, "Authentication required")
}
