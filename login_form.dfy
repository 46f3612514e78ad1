/**
 * The admin login form (components/auth/AdminLoginForm.tsx): two text fields, a submit
 * guard against blank fields, and a submit handler that swallows the hook's error.
 */
module AdminLoginForm {
  import opened Options
  import opened Backend
  import opened Text
  import opened AdminSession

  /** The submit guard: both fields hold something besides whitespace. */
  predicate HasCredentials(username: string, password: string)
    ensures HasCredentials(username, password) <==> !IsBlank(username) && !IsBlank(password)
  {
    Trim(username) != "" && Trim(password) != ""
  }

  /** The submit button's `disabled`. */
  predicate SubmitDisabled(isLoggingIn: bool, username: string, password: string)
    ensures !SubmitDisabled(isLoggingIn, username, password) <==>
      !isLoggingIn && !IsBlank(username) && !IsBlank(password)
  {
    isLoggingIn || !HasCredentials(username, password)
  }

  /** `{loginError && <Alert/>}`: the alert shows for a non-empty error text. */
  predicate ShowsError(loginError: Option<string>)
  {
    loginError.Some? && loginError.value != ""
  }

  /** Every error text the hook sets is shown, so the alert shows exactly when an error is held. */
  lemma LoginErrorIsShown(message: string)
    ensures ShowsError(Some(LoginErrorText(message)))
  {
  }

  class LoginForm {
    var username: string
    var password: string
    const hook: SessionHook

    constructor (hook: SessionHook)
      ensures username == "" && password == "" && this.hook == hook
    {
      username := "";
      password := "";
      this.hook := hook;
    }

    /** The username field's `onChange` */
    method ChangeUsername(value: string)
      modifies this
      ensures username == value && password == old(password)
    {
      username := value;
    }

    /** The password field's `onChange` */
    method ChangePassword(value: string)
      modifies this
      ensures password == value && username == old(username)
    {
      password := value;
    }

    /**
     * `handleSubmit`: with a blank field nothing happens; otherwise the hook's `login` is
     * called with the fields exactly as typed, and whatever it throws is caught here.
     */
    method HandleSubmit(actor: bool, reply: Reply<string>, storedAt: int, shownAt: int) returns (request: Option<Call>)
      modifies hook, hook.storage
      ensures !HasCredentials(username, password) ==> request == None
      ensures !HasCredentials(username, password) ==> unchanged(hook) && unchanged(hook.storage)
      ensures HasCredentials(username, password) && actor ==> request == Some(Call.Login(username, password))
      ensures !actor ==> request == None && unchanged(hook) && unchanged(hook.storage)
      ensures HasCredentials(username, password) && actor ==> !hook.isLoggingIn
      ensures HasCredentials(username, password) && actor && reply.Resolved? ==>
        hook.session == Some(Session(reply.value, shownAt + SessionLifetime)) && hook.loginError == None
      ensures HasCredentials(username, password) && actor && reply.Rejected? ==>
        hook.session == old(hook.session) && hook.loginError == Some(LoginErrorText(reply.message))
      ensures HasCredentials(username, password) && actor && reply.Resolved? ==>
        hook.storage.items == Stored(old(hook.storage.items), reply.value, storedAt)
      ensures HasCredentials(username, password) && actor && reply.Rejected? ==>
        hook.storage.items == old(hook.storage.items)
    {
      request := None;
      if !HasCredentials(username, password) {
        return;
      }
      var outcome;
      request, outcome := hook.Login(actor, username, password, reply, storedAt, shownAt);
      // A rejected `outcome` is caught and only logged.
    }
  }

  /**
   * The button and the handler agree: a form filled with `username` and `password` and
   * submitted with an actor reaches `login` whenever its button is enabled, and sends
   * nothing when a field is blank.
   */
  method EnabledSubmitReachesLogin(hook: SessionHook, username: string, password: string,
                                   reply: Reply<string>, storedAt: int, shownAt: int)
    returns (request: Option<Call>)
    modifies hook, hook.storage
    ensures !SubmitDisabled(old(hook.isLoggingIn), username, password) ==>
      request == Some(Call.Login(username, password))
    ensures IsBlank(username) || IsBlank(password) ==> request == None
  {
    var form := new LoginForm(hook);
    form.ChangeUsername(username);
    form.ChangePassword(password);
    request := form.HandleSubmit(true, reply, storedAt, shownAt);
  }
}
