/**
 * The two NextAuth callbacks of frontend/lib/auth.ts: `authorized`, which
 * guards the protected pages, and `session`, which copies the database
 * user's id onto the session object handed to the client.
 */
module Auth {
  import opened Common

  /** The session user as the client sees it; `id` is added by the `session` callback. */
  class SessionUser {
    var name: Option<string>
    var email: Option<string>
    var id: Option<string>

    constructor (name: Option<string>, email: Option<string>)
      ensures this.name == name && this.email == email && id.None?
    {
      this.name := name;
      this.email := email;
      id := None;
    }
  }

  class SessionObject {
    var user: SessionUser?
    var expires: string

    constructor (user: SessionUser?, expires: string)
      ensures this.user == user && this.expires == expires
    {
      this.user := user;
      this.expires := expires;
    }
  }

  /** The database user record the adapter loads. */
  datatype UserRecord = UserRecord(id: string, email: Option<string>)

  /** `auth` in the `authorized` callback: the session, with its optional user. */
  datatype AuthState = AuthState(user: Option<string>)

  /** `nextUrl.pathname` starts with one of '/reader', '/review' or '/annotate'. */
  predicate OnProtectedRoute(pathname: string) {
    StartsWith(pathname, "/reader") || StartsWith(pathname, "/review") || StartsWith(pathname, "/annotate")
  }

  /** The `authorized` callback: protected pages only for a session that has a user. */
  function Authorized(auth: Option<AuthState>, pathname: string): (ok: bool)
    ensures !OnProtectedRoute(pathname) ==> ok
    ensures OnProtectedRoute(pathname) ==> (ok <==> auth.Some? && auth.value.user.Some?)
  {
    var isLoggedIn := auth.Some? && auth.value.user.Some?;
    if OnProtectedRoute(pathname) then isLoggedIn else true
  }

  /** A page is refused only when it is protected and nobody is logged in. */
  lemma AuthorizedIff(auth: Option<AuthState>, pathname: string)
    ensures !Authorized(auth, pathname) <==> OnProtectedRoute(pathname) && !(auth.Some? && auth.value.user.Some?)
  {
  }

  /**
   * The `session` callback: when the session has a user, that user's `id`
   * becomes the database user's id; nothing else changes, and the same
   * session object is returned.
   */
  method SessionCallback(session: SessionObject, user: UserRecord) returns (r: SessionObject)
    modifies session.user
    ensures r == session
    ensures session.user == old(session.user) && session.expires == old(session.expires)
    ensures session.user != null ==>
      && session.user.id == Some(user.id)
      && session.user.name == old(session.user.name) && session.user.email == old(session.user.email)
  {
    if session.user != null {
      session.user.id := Some(user.id);
    }
    r := session;
  }
}
