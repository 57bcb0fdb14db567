/**
 * The route gate that wraps every protected page: a function of the session
 * status, plus the effect that starts `bootstrap` on an idle session.
 */
module RequireAuth {
  import opened Wrappers
  import opened Session

  /** What the gate renders. */
  datatype Render = Spinner | Redirect(to: string, replace: bool, from: string) | Children

  /** The gate: spinner while idle or loading, redirect to the login page unless authenticated, else the page. */
  function Gate(status: Status, location: string): (r: Render)
    ensures r == Spinner <==> status == Idle || status == Loading
    ensures r == Children <==> status == Authenticated
    ensures r.Redirect? <==> status == Unauthenticated
    ensures r.Redirect? ==> r.to == "/login" && r.replace && r.from == location
  {
    if status == Idle || status == Loading then Spinner
    else if status != Authenticated then
      assert status == Unauthenticated;
      Redirect("/login", true, location)
    else Children
  }

  /** The effect: `bootstrap` is started only on an idle session. */
  predicate TriggersBootstrap(status: Status)
  {
    status == Idle
  }

  /** The gate once its effect has run: an idle session is bootstrapped with the identity check's outcome. */
  function AfterMount(s: AuthState, response: Outcome<User>): (r: AuthState)
    ensures TriggersBootstrap(s.status) ==> Settled(r)
    ensures !TriggersBootstrap(s.status) ==> r == s
  {
    if TriggersBootstrap(s.status) then Bootstrap(s, response) else s
  }

  /** Starting from the initial state, one mount leaves the spinner for the page or the login redirect. */
  lemma FreshSessionResolves(response: Outcome<User>, location: string)
    ensures Gate(AfterMount(Initial, response).status, location) != Spinner
    ensures Gate(AfterMount(Initial, response).status, location) == Children <==> response.Success?
  {
  }

  /**
   * As written, `partialize` saves a `loading` status. A page reloaded while a
   * request is in flight comes back `loading`: the effect does not start
   * `bootstrap`, `bootstrap` would be a no-op anyway, and the gate spins for ever.
   */
  lemma ReloadWhileLoadingSpinsForever(s: AuthState, response: Outcome<User>, location: string)
    requires s.status == Loading
    ensures var reloaded := Rehydrate(Partialize(s));
            && AfterMount(reloaded, response) == reloaded
            && Bootstrap(reloaded, response) == reloaded
            && Gate(AfterMount(reloaded, response).status, location) == Spinner
  {
  }

  /** The corrected `partialize`: a request in flight is not resumable, so `loading` is saved as `idle`. */
  function PartializeResumable(s: AuthState): (p: Persisted)
    ensures p.status != Loading
    ensures p.user == s.user
    ensures s.status != Loading ==> p == Partialize(s)
  {
    Persisted(s.user, if s.status == Loading then Idle else s.status)
  }

  /** With the corrected `partialize`, every reload leaves the spinner after at most one bootstrap. */
  lemma ReloadAlwaysResolves(s: AuthState, response: Outcome<User>, location: string)
    ensures var reloaded := Rehydrate(PartializeResumable(s));
            Gate(AfterMount(reloaded, response).status, location) != Spinner
  {
  }
}
