/**
 * The client session state machine shared by both auth stores: the state, the
 * outcome of each request, and the state each action ends in. The two stores
 * differ only in where a failure's message is read from.
 */
module Session {
  import opened Wrappers

  datatype Status = Idle | Loading | Authenticated | Unauthenticated

  datatype User = User(id: int, username: string, email: string)

  datatype AuthState = AuthState(user: Option<User>, status: Status, error: Option<string>)

  /** A rejected request: whether axios raised it, and the `message` of the response body if there was one. */
  datatype Failure = Failure(fromAxios: bool, message: Option<string>)

  /** How a request settles: with the response's data, or rejected. */
  datatype Outcome<T> = Success(value: T) | Rejected(failure: Failure)

  /**
   * Where a store reads a failure's message: the frontend copy only from axios
   * errors (`axios.isAxiosError(err) ? err.response?.data?.message : undefined`),
   * the dashboard copy from any error (`err?.response?.data?.message`).
   */
  datatype MessageSource = AxiosOnly | AnyError

  /** The state a store starts in. */
  const Initial := AuthState(None, Idle, None)

  /** The message a failure carries for a store reading from `source`. */
  function ServerMessage(f: Failure, source: MessageSource): (m: Option<string>)
    ensures m.Some? ==> m == f.message
    ensures source == AnyError ==> m == f.message
    ensures source == AxiosOnly && !f.fromAxios ==> m == None
    ensures source == AxiosOnly && f.fromAxios ==> m == f.message
  {
    if source == AxiosOnly && !f.fromAxios then None else f.message
  }

  /** The error a failed action shows: the server's message, or `fallback` when there is none. */
  function ErrorText(f: Failure, source: MessageSource, fallback: string): string
  {
    ServerMessage(f, source).GetOr(fallback)
  }

  /** The session invariant: authenticated exactly when a user is held. */
  predicate Consistent(s: AuthState)
  {
    s.status == Authenticated <==> s.user.Some?
  }

  /** The states an action that has settled may leave the store in. */
  predicate Settled(s: AuthState)
  {
    s.status == Authenticated || s.status == Unauthenticated
  }

  /**
   * `bootstrap`: a no-op while a request is loading; otherwise the identity check
   * decides between authenticated with the returned user and unauthenticated
   * without one, and no error is shown either way.
   */
  function Bootstrap(s: AuthState, response: Outcome<User>): (r: AuthState)
    ensures s.status == Loading ==> r == s
    ensures s.status != Loading ==> Settled(r) && Consistent(r) && r.error == None
    ensures s.status != Loading ==> (r.status == Authenticated <==> response.Success?)
    ensures s.status != Loading && response.Success? ==> r.user == Some(response.value)
  {
    if s.status == Loading then s
    else
      match response
      case Success(u) => AuthState(Some(u), Authenticated, None)
      case Rejected(_) => AuthState(None, Unauthenticated, None)
  }

  /**
   * `register`: never authenticates and never touches `user`; success clears the
   * error, failure shows the server's message or 'Registration failed'.
   */
  function Register(s: AuthState, response: Outcome<()>, source: MessageSource): (r: AuthState)
    ensures r.status == Unauthenticated && r.user == s.user
    ensures response.Success? ==> r.error == None
    ensures response.Rejected? ==>
              r.error == Some(ServerMessage(response.failure, source).GetOr("Registration failed"))
  {
    match response
    case Success(_) => AuthState(s.user, Unauthenticated, None)
    case Rejected(f) => AuthState(s.user, Unauthenticated, Some(ErrorText(f, source, "Registration failed")))
  }

  /**
   * `login`: success authenticates with the response's user and no error;
   * failure drops the user and shows the server's message or 'Login failed'.
   */
  function Login(s: AuthState, response: Outcome<User>, source: MessageSource): (r: AuthState)
    ensures Settled(r) && Consistent(r)
    ensures r.status == Authenticated <==> response.Success?
    ensures response.Success? ==> r.user == Some(response.value) && r.error == None
    ensures response.Rejected? ==> r.error == Some(ServerMessage(response.failure, source).GetOr("Login failed"))
  {
    match response
    case Success(u) => AuthState(Some(u), Authenticated, None)
    case Rejected(f) => AuthState(None, Unauthenticated, Some(ErrorText(f, source, "Login failed")))
  }

  /** `logout`: whether or not the request succeeds, the user is gone and the session unauthenticated. */
  function Logout(s: AuthState, response: Outcome<()>): (r: AuthState)
    ensures r == AuthState(None, Unauthenticated, None)
  {
    AuthState(None, Unauthenticated, None)
  }

  /** `clearError`: only the error changes. */
  function ClearError(s: AuthState): (r: AuthState)
    ensures r.error == None && r.user == s.user && r.status == s.status
  {
    s.(error := None)
  }

  /** Whether an action rethrows to its caller: `register`, `login` and `logout` all do on a rejection. */
  predicate Rethrows<T>(response: Outcome<T>)
  {
    response.Rejected?
  }

  /** The part of the state the persistence middleware saves: `{ user, status }`. */
  datatype Persisted = Persisted(user: Option<User>, status: Status)

  /** `partialize` as written: user and status, whatever the status is. */
  function Partialize(s: AuthState): (p: Persisted)
    ensures p.user == s.user && p.status == s.status
  {
    Persisted(s.user, s.status)
  }

  /** The state a store reloads into: the saved part over the initial state, so no error. */
  function Rehydrate(p: Persisted): (s: AuthState)
    ensures Partialize(s) == p && s.error == None
  {
    AuthState(p.user, p.status, None)
  }

  /** Clearing the error changes nothing that is saved. */
  lemma ClearErrorNotPersisted(s: AuthState)
    ensures Partialize(ClearError(s)) == Partialize(s)
  {
  }

  /** Bootstrap, login and logout each restore the invariant from any state they act on. */
  lemma ActionsRestoreConsistency(s: AuthState, u: Outcome<User>, v: Outcome<()>, source: MessageSource)
    ensures s.status != Loading ==> Consistent(Bootstrap(s, u))
    ensures Consistent(Login(s, u, source)) && Consistent(Logout(s, v))
    ensures Consistent(s) ==> Consistent(ClearError(s))
  {
  }

  /**
   * Registering while signed in breaks the invariant: `register` leaves the user
   * in place while marking the session unauthenticated.
   */
  lemma RegisterKeepsUser(u: User)
    ensures var s := AuthState(Some(u), Authenticated, None);
            Consistent(s) && !Consistent(Register(s, Success(()), AxiosOnly))
  {
  }

  /** The two stores differ only on failures that did not come from axios. */
  lemma CopiesAgreeOnAxiosErrors(s: AuthState, f: Failure, u: Outcome<User>)
    requires f.fromAxios
    ensures Login(s, Rejected(f), AxiosOnly) == Login(s, Rejected(f), AnyError)
    ensures Register(s, Rejected(f), AxiosOnly) == Register(s, Rejected(f), AnyError)
  {
  }

  /** A non-axios failure carrying a message shows it in the dashboard copy but the fallback in the frontend copy. */
  lemma CopiesDifferOnOtherErrors(s: AuthState, m: string)
    requires m != "Login failed"
    ensures Login(s, Rejected(Failure(false, Some(m))), AnyError).error == Some(m)
    ensures Login(s, Rejected(Failure(false, Some(m))), AxiosOnly).error == Some("Login failed")
  {
  }
}
