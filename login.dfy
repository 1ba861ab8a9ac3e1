/**
 * The login screen: its two-field form, `handleInputChange`, the guard chain
 * `validateForm`, and the arguments `handleLogin` passes to the sign-in call.
 */
module LoginScreen {
  import opened Wrappers
  import opened Strings

  datatype Form = Form(email: string, password: string)

  const EmptyForm := Form("", "")

  datatype Field = Email | Password

  function Get(f: Form, field: Field): string {
    match field
    case Email => f.email
    case Password => f.password
  }

  /** `handleInputChange(field, value)`: a copy of the form with one field replaced. */
  function WithField(f: Form, field: Field, value: string): (r: Form)
    ensures Get(r, field) == value
    ensures forall other :: other != field ==> Get(r, other) == Get(f, other)
  {
    match field
    case Email => f.(email := value)
    case Password => f.(password := value)
  }

  /** The guards of `validateForm`, in the order they run. */
  datatype Check = ValidEmail | PasswordRequired

  predicate EmailPasses(f: Form) {
    Trim(f.email) != [] && '@' in f.email
  }

  predicate PasswordPasses(f: Form) {
    Trim(f.password) != []
  }

  /**
   * `validateForm()`: `None` when the form is accepted, otherwise the guard
   * that failed first. The e-mail guard runs first, so when both fields are
   * bad it is the e-mail that is reported.
   */
  function Validate(f: Form): (r: Option<Check>)
    ensures r.None? <==> EmailPasses(f) && PasswordPasses(f)
    ensures r == Some(ValidEmail) <==> !EmailPasses(f)
    ensures r == Some(PasswordRequired) <==> EmailPasses(f) && !PasswordPasses(f)
  {
    if Trim(f.email) == [] || '@' !in f.email then Some(ValidEmail)
    else if Trim(f.password) == [] then Some(PasswordRequired)
    else None
  }

  /**
   * A password is refused exactly when it is blank or only white space;
   * there is no minimum length, so any password with one character that
   * is not white space gets past the password guard.
   */
  lemma PasswordRuleIsNonBlank(f: Form)
    requires EmailPasses(f)
    ensures Validate(f) == Some(PasswordRequired) <==> AllWhiteSpace(f.password)
    ensures (exists i :: 0 <= i < |f.password| && !IsWhiteSpace(f.password[i])) ==> Validate(f).None?
  {
    TrimEmptyIff(f.password);
  }

  /** The arguments of `loginUser(email, password)`. */
  datatype Credentials = Credentials(email: string, password: string)

  /**
   * `handleLogin()`: `None` when validation fails and no call is made;
   * otherwise the e-mail trimmed and lower-cased, and the password exactly
   * as typed (it is not trimmed, though the guard looked at its trim).
   */
  function Submit(f: Form): (r: Option<Credentials>)
    ensures r.None? <==> Validate(f).Some?
    ensures r.Some? ==> r.value.email == ToLowerAscii(Trim(f.email))
    ensures r.Some? ==> r.value.email != [] && '@' in r.value.email && HasNoUpperAscii(r.value.email)
    ensures r.Some? ==> r.value.password == f.password && !AllWhiteSpace(r.value.password)
  {
    if Validate(f).Some? then None
    else
      TrimKeeps(f.email, '@');
      ToLowerAsciiFacts(Trim(f.email));
      TrimEmptyIff(f.password);
      Some(Credentials(ToLowerAscii(Trim(f.email)), f.password))
  }

  /** What the screen does once `loginUser` answers. */
  datatype Reaction = Reaction(loading: bool, errorShown: bool, navigateTo: Option<string>)

  /**
   * After the call `loading` is false. The screen never navigates: on
   * success the session holder's notification moves the navigation gate to
   * the signed-in graph; on failure an error alert is shown.
   */
  function AfterLogin(success: bool): (r: Reaction)
    ensures !r.loading && r.navigateTo.None?
    ensures r.errorShown <==> !success
  {
    Reaction(false, !success, None)
  }
}
