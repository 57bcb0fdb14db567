/**
 * The auth store of the frontend: its actions write `status`, `user` and `error`
 * step by step, first `loading` with no error, then the outcome of the request.
 * A failed message is read only from axios errors.
 */
module FrontendAuthStore {
  import opened Wrappers
  import opened Session

  class AuthStore {
    var user: Option<User>
    var status: Status
    var error: Option<string>

    /** The store's current state as one value. */
    function State(): AuthState
      reads this
    {
      AuthState(user, status, error)
    }

    /** `{ user: null, status: 'idle', error: null }`. */
    constructor ()
      ensures State() == Initial
    {
      user, status, error := None, Idle, None;
    }

    method ClearError()
      modifies this
      ensures State() == Session.ClearError(old(State()))
    {
      error := None;
    }

    /** Resumes a session unless a request is already loading; a failure is swallowed. */
    method Bootstrap(response: Outcome<User>)
      modifies this
      ensures State() == Session.Bootstrap(old(State()), response)
    {
      if status == Loading {
        return;
      }
      status, error := Loading, None;
      match response {
        case Success(u) =>
          user, status := Some(u), Authenticated;
        case Rejected(_) =>
          user, status := None, Unauthenticated;
      }
    }

    /** Registers without signing in; a failure is recorded and rethrown. */
    method Register(response: Outcome<()>) returns (thrown: Option<Failure>)
      modifies this
      ensures State() == Session.Register(old(State()), response, AxiosOnly)
      ensures thrown.Some? <==> Rethrows(response)
    {
      status, error := Loading, None;
      match response {
        case Success(_) =>
          status := Unauthenticated;
          thrown := None;
        case Rejected(f) =>
          var message := ServerMessage(f, AxiosOnly);
          status, error := Unauthenticated, Some(message.GetOr("Registration failed"));
          thrown := Some(f);
      }
    }

    /** Signs in; a failure drops the user, is recorded and rethrown. */
    method Login(response: Outcome<User>) returns (thrown: Option<Failure>)
      modifies this
      ensures State() == Session.Login(old(State()), response, AxiosOnly)
      ensures thrown.Some? <==> Rethrows(response)
    {
      status, error := Loading, None;
      match response {
        case Success(u) =>
          user, status := Some(u), Authenticated;
          thrown := None;
        case Rejected(f) =>
          var message := ServerMessage(f, AxiosOnly);
          user, status, error := None, Unauthenticated, Some(message.GetOr("Login failed"));
          thrown := Some(f);
      }
    }

    /** Signs out; the `finally` clears the session even when the request fails, which is then rethrown. */
    method Logout(response: Outcome<()>) returns (thrown: Option<Failure>)
      modifies this
      ensures State() == Session.Logout(old(State()), response)
      ensures thrown.Some? <==> Rethrows(response)
    {
      status, error := Loading, None;
      thrown := if response.Rejected? then Some(response.failure) else None;
      user, status := None, Unauthenticated;
    }

    /** What the persistence middleware saves of this store. */
    function Saved(): Persisted
      reads this
    {
      Partialize(State())
    }
  }
}
