/**
 * The registration screen: its six-field form, the single-field update
 * `handleInputChange`, the guard chain `validateForm`, and the payload
 * `handleRegister` hands to the account service once validation passes.
 */
module RegisterScreen {
  import opened Wrappers
  import opened Strings
  import opened Numbers

  datatype Form = Form(
    name: string,
    email: string,
    password: string,
    confirmPassword: string,
    title: string,
    year: string)

  /** Every field starts as the empty string. */
  const EmptyForm := Form("", "", "", "", "", "")

  datatype Field = Name | Email | Password | ConfirmPassword | Title | Year

  function Get(f: Form, field: Field): string {
    match field
    case Name => f.name
    case Email => f.email
    case Password => f.password
    case ConfirmPassword => f.confirmPassword
    case Title => f.title
    case Year => f.year
  }

  /** `handleInputChange(field, value)`: a copy of the form with one field replaced. */
  function WithField(f: Form, field: Field, value: string): (r: Form)
    ensures Get(r, field) == value
    ensures forall other :: other != field ==> Get(r, other) == Get(f, other)
  {
    match field
    case Name => f.(name := value)
    case Email => f.(email := value)
    case Password => f.(password := value)
    case ConfirmPassword => f.(confirmPassword := value)
    case Title => f.(title := value)
    case Year => f.(year := value)
  }

  /** The guards of `validateForm`, in the order they run. */
  datatype Check = NameRequired | ValidEmail | PasswordLength | PasswordsMatch | TitleRequired | ValidYear

  /** Position of a guard in the chain; each guard looks only at fields of its own position or before. */
  function CheckRank(c: Check): nat {
    match c
    case NameRequired => 0
    case ValidEmail => 1
    case PasswordLength => 2
    case PasswordsMatch => 3
    case TitleRequired => 4
    case ValidYear => 5
  }

  function FieldRank(field: Field): nat {
    match field
    case Name => 0
    case Email => 1
    case Password => 2
    case ConfirmPassword => 3
    case Title => 4
    case Year => 5
  }

  /** The minimum password length registration asks for. */
  const MinPasswordLength := 6

  /** Whether one guard lets the form through. */
  predicate Passes(f: Form, c: Check, currentYear: int) {
    match c
    case NameRequired => Trim(f.name) != []
    case ValidEmail => Trim(f.email) != [] && '@' in f.email
    case PasswordLength => |f.password| >= MinPasswordLength
    case PasswordsMatch => f.password == f.confirmPassword
    case TitleRequired => Trim(f.title) != []
    case ValidYear => YearAccepted(f.year, currentYear)
  }

  /** The acceptance condition, written out as one conjunction. */
  predicate Acceptable(f: Form, currentYear: int) {
    && Trim(f.name) != []
    && Trim(f.email) != [] && '@' in f.email
    && |f.password| >= MinPasswordLength
    && f.password == f.confirmPassword
    && Trim(f.title) != []
    && YearAccepted(f.year, currentYear)
  }

  /**
   * `validateForm()`: `None` when the form is accepted, otherwise the first
   * guard that fails. `currentYear` stands for `new Date().getFullYear()`.
   */
  function Validate(f: Form, currentYear: int): (r: Option<Check>)
    ensures r.None? <==> Acceptable(f, currentYear)
    ensures r.Some? ==> !Passes(f, r.value, currentYear)
  {
    if Trim(f.name) == [] then Some(NameRequired)
    else if Trim(f.email) == [] || '@' !in f.email then Some(ValidEmail)
    else if |f.password| < MinPasswordLength then Some(PasswordLength)
    else if f.password != f.confirmPassword then Some(PasswordsMatch)
    else if Trim(f.title) == [] then Some(TitleRequired)
    else if !YearAccepted(f.year, currentYear) then Some(ValidYear)
    else None
  }

  /** Every guard before the one `validateForm` reports has passed. */
  lemma EarlierChecksPass(f: Form, currentYear: int, c: Check)
    requires Validate(f, currentYear).Some?
    requires CheckRank(c) < CheckRank(Validate(f, currentYear).value)
    ensures Passes(f, c, currentYear)
  {
    match c
    case NameRequired =>
    case ValidEmail =>
    case PasswordLength =>
    case PasswordsMatch =>
    case TitleRequired =>
    case ValidYear =>
  }

  /**
   * The guard chain stops at the first failure: a form that agrees with `f`
   * on the fields up to the failing guard fails at that same guard, whatever
   * its later fields hold.
   */
  lemma FirstFailureDecides(f: Form, g: Form, currentYear: int)
    requires Validate(f, currentYear).Some?
    requires forall field :: FieldRank(field) <= CheckRank(Validate(f, currentYear).value) ==> Get(g, field) == Get(f, field)
    ensures Validate(g, currentYear) == Validate(f, currentYear)
  {
    var c := Validate(f, currentYear).value;
    assert Get(g, Name) == Get(f, Name);
    if CheckRank(c) >= 1 { assert Get(g, Email) == Get(f, Email); }
    if CheckRank(c) >= 2 { assert Get(g, Password) == Get(f, Password); }
    if CheckRank(c) >= 3 { assert Get(g, ConfirmPassword) == Get(f, ConfirmPassword); }
    if CheckRank(c) >= 4 { assert Get(g, Title) == Get(f, Title); }
    if CheckRank(c) >= 5 { assert Get(g, Year) == Get(f, Year); }
  }

  /** A password shorter than six characters is refused even when it matches its confirmation. */
  lemma ShortPasswordRefused(f: Form, currentYear: int)
    requires |f.password| < MinPasswordLength && f.password == f.confirmPassword
    ensures Validate(f, currentYear).Some?
    ensures Validate(f, currentYear).value in {NameRequired, ValidEmail, PasswordLength}
  {
  }

  /** What `registerUser` receives; there is no confirmation field. */
  datatype Registration = Registration(name: string, email: string, password: string, title: string, year: int)

  /**
   * `handleRegister()`: `None` when validation fails and no call is made,
   * otherwise the registration sent. Name and title are trimmed, the e-mail
   * is trimmed and lower-cased, the password goes as typed, and the year is
   * `parseInt` of the field, which is the number the year guard accepted.
   */
  function Submit(f: Form, currentYear: int): (r: Option<Registration>)
    ensures r.None? <==> !Acceptable(f, currentYear)
    ensures r.Some? ==> r.value.name == Trim(f.name) && r.value.name != []
    ensures r.Some? ==> r.value.email == ToLowerAscii(Trim(f.email))
    ensures r.Some? ==> '@' in r.value.email && HasNoUpperAscii(r.value.email)
    ensures r.Some? ==> r.value.password == f.password == f.confirmPassword
    ensures r.Some? ==> |r.value.password| >= MinPasswordLength
    ensures r.Some? ==> r.value.title == Trim(f.title) && r.value.title != []
    ensures r.Some? ==> ParseInt(f.year) == NumberValue(f.year) == Some(r.value.year)
    ensures r.Some? ==> MinYear <= r.value.year <= currentYear
  {
    if Validate(f, currentYear).Some? then None
    else
      TrimEmptyIff(f.name);
      TrimEmptyIff(f.title);
      TrimKeeps(f.email, '@');
      ToLowerAsciiFacts(Trim(f.email));
      Some(Registration(
        Trim(f.name),
        ToLowerAscii(Trim(f.email)),
        f.password,
        Trim(f.title),
        ParseInt(f.year).value))
  }

  /** Trimming and lower-casing leave an e-mail address with no white space at either end. */
  lemma SubmittedEmailTrimmed(f: Form, currentYear: int)
    requires Submit(f, currentYear).Some?
    ensures Trim(Submit(f, currentYear).value.email) == Submit(f, currentYear).value.email
  {
    var e := Submit(f, currentYear).value.email;
    TrimEdges(f.email);
    ToLowerAsciiFacts(Trim(f.email));
    TrimOfTrimmed(e);
  }

  /** What the screen does once `registerUser` answers. */
  datatype Reaction = Reaction(loading: bool, errorShown: bool, navigateOnOk: Option<string>)

  /**
   * After the call `loading` is false; on success an alert whose OK button
   * leads to the Login screen, on failure an error alert and no navigation.
   */
  function AfterRegister(success: bool): (r: Reaction)
    ensures !r.loading
    ensures r.errorShown <==> !success
    ensures r.navigateOnOk == (if success then Some("Login") else None)
  {
    if success then Reaction(false, false, Some("Login")) else Reaction(false, true, None)
  }
}
