/**
 * The sign-in / register form: the `canSubmit` rule, the submit button's
 * disabled state, the submit sequence over the frontend auth store, and the
 * mode toggle.
 */
module LoginPage {
  import opened Wrappers
  import opened JsValues
  import opened Session
  import FrontendAuthStore

  datatype Mode = SignIn | SignUp

  /** `s` has a character that `trim` keeps. */
  predicate HasContent(s: string)
  {
    exists i :: 0 <= i < |s| && !IsSpace(s[i])
  }

  /** `!s.trim()` is false exactly when `s` has content. */
  lemma TrimmedNonEmpty(s: string)
    ensures Trim(s) != "" <==> HasContent(s)
  {
    TrimEmptyIffBlank(s);
  }

  /**
   * `canSubmit`: email and password must not be blank after trimming, and in
   * register mode neither may the username.
   */
  function CanSubmit(mode: Mode, username: string, email: string, password: string): (r: bool)
    ensures r <==> HasContent(email) && HasContent(password) && (mode == SignUp ==> HasContent(username))
  {
    TrimmedNonEmpty(email);
    TrimmedNonEmpty(password);
    TrimmedNonEmpty(username);
    if Trim(email) == "" || Trim(password) == "" then false
    else if mode == SignUp && Trim(username) == "" then false
    else true
  }

  /** In sign-in mode the username plays no part. */
  lemma SignInIgnoresUsername(u: string, u': string, email: string, password: string)
    ensures CanSubmit(SignIn, u, email, password) == CanSubmit(SignIn, u', email, password)
  {
  }

  /** The submit button's `disabled`: `!canSubmit || status === 'loading'`. */
  function SubmitDisabled(mode: Mode, username: string, email: string, password: string, status: Status): bool
  {
    !CanSubmit(mode, username, email, password) || status == Loading
  }

  /**
   * The button is disabled exactly while a request is loading or a required
   * field trims to nothing; equivalently, while loading or a required field is
   * all white space.
   */
  lemma SubmitDisabledWhen(mode: Mode, username: string, email: string, password: string, status: Status)
    ensures SubmitDisabled(mode, username, email, password, status) <==>
              status == Loading || Trim(email) == [] || Trim(password) == [] ||
              (mode == SignUp && Trim(username) == [])
    ensures SubmitDisabled(mode, username, email, password, status) <==>
              status == Loading || !HasContent(email) || !HasContent(password) ||
              (mode.SignUp? && !HasContent(username))
  {
  }

  class LoginForm {
    var mode: Mode
    var username: string
    var email: string
    var password: string
    const store: FrontendAuthStore.AuthStore

    /** The form opens in sign-in mode with empty fields. */
    constructor (store: FrontendAuthStore.AuthStore)
      ensures this.store == store && mode == SignIn
      ensures username == "" && email == "" && password == ""
    {
      this.store := store;
      mode, username, email, password := SignIn, "", "", "";
    }

    /**
     * `onSubmit`: clears the error, then registers or signs in. Registering
     * switches to sign-in mode only once `register` resolves; signing in navigates
     * to `/` only once `login` resolves; a rejection propagates before either.
     */
    method OnSubmit(registerResponse: Outcome<()>, loginResponse: Outcome<User>)
      returns (navigatedTo: Option<string>, thrown: Option<Failure>)
      modifies this, store
      ensures username == old(username) && email == old(email) && password == old(password)
      ensures old(mode) == SignUp ==>
                && store.State() == Session.Register(ClearError(old(store.State())), registerResponse, AxiosOnly)
                && (mode == SignIn <==> registerResponse.Success?)
                && navigatedTo == None
                && (thrown.Some? <==> registerResponse.Rejected?)
      ensures old(mode) == SignIn ==>
                && store.State() == Session.Login(ClearError(old(store.State())), loginResponse, AxiosOnly)
                && mode == SignIn
                && (navigatedTo == Some("/") <==> loginResponse.Success?)
                && (navigatedTo == None <==> loginResponse.Rejected?)
                && (thrown.Some? <==> loginResponse.Rejected?)
    {
      store.ClearError();
      if mode == SignUp {
        thrown := store.Register(registerResponse);
        navigatedTo := None;
        if thrown.Some? {
          return;
        }
        mode := SignIn;
        return;
      }
      thrown := store.Login(loginResponse);
      if thrown.Some? {
        navigatedTo := None;
        return;
      }
      navigatedTo := Some("/");
    }

    /** The toggle button: clears the error and flips between sign-in and register. */
    method Toggle()
      modifies this, store
      ensures mode == (if old(mode) == SignIn then SignUp else SignIn)
      ensures store.State() == ClearError(old(store.State()))
      ensures username == old(username) && email == old(email) && password == old(password)
    {
      store.ClearError();
      mode := if mode == SignIn then SignUp else SignIn;
    }
  }
}
