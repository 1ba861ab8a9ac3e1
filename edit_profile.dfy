/**
 * The profile-editing screen. The form mapping, the field update and the
 * guard chain are functions; loading the form, saving it and the two flags
 * `loading` and `initialLoading` live in the class `EditProfile`, whose
 * methods stop at each `await` the screen makes: the call that was started
 * is returned, and its answer comes back as the argument of the next method.
 */
module EditProfileScreen {
  import opened Wrappers
  import opened Strings
  import opened Numbers

  datatype Form = Form(name: string, title: string, year: string)

  const EmptyForm := Form("", "", "")

  datatype Field = Name | Title | Year

  function Get(f: Form, field: Field): string {
    match field
    case Name => f.name
    case Title => f.title
    case Year => f.year
  }

  /** `handleInputChange(field, value)`: a copy of the form with one field replaced. */
  function WithField(f: Form, field: Field, value: string): (r: Form)
    ensures Get(r, field) == value
    ensures forall other :: other != field ==> Get(r, other) == Get(f, other)
  {
    match field
    case Name => f.(name := value)
    case Title => f.(title := value)
    case Year => f.(year := value)
  }

  /** A stored profile as the screen reads it; a field may be missing. */
  datatype Profile = Profile(name: Option<string>, email: Option<string>, title: Option<string>, year: Option<int>)

  /** `s || ''` for a text field that may be missing. */
  function OrEmpty(s: Option<string>): string {
    if s.Some? then s.value else ""
  }

  /**
   * The mapping both ways of filling the form use, from the navigation
   * parameter and from the fetched document: missing name or title become
   * '', and the year becomes its `toString()`, or '' when it is missing.
   * The e-mail is not part of the form.
   */
  function FormFrom(p: Profile): (r: Form)
    ensures r.name == OrEmpty(p.name) && r.title == OrEmpty(p.title)
    ensures r.year == [] <==> p.year.None?
    ensures p.year.Some? ==> NumberValue(r.year) == Some(p.year.value) && ParseInt(r.year) == Some(p.year.value)
  {
    var year := if p.year.Some? then ShowInt(p.year.value) else "";
    if p.year.Some? then ShowIntReadsBack(p.year.value); Form(OrEmpty(p.name), OrEmpty(p.title), year)
    else Form(OrEmpty(p.name), OrEmpty(p.title), year)
  }

  /** The guards of `validateForm`, in the order they run. */
  datatype Check = NameRequired | TitleRequired | ValidYear

  /**
   * `validateForm()`: `None` when the form is accepted, otherwise the first
   * guard that fails. `currentYear` stands for `new Date().getFullYear()`;
   * editing accepts graduation years up to ten years ahead of it.
   */
  function Validate(f: Form, currentYear: int): (r: Option<Check>)
    ensures r.None? <==> Trim(f.name) != [] && Trim(f.title) != [] && YearAccepted(f.year, currentYear + 10)
    ensures r == Some(NameRequired) <==> Trim(f.name) == []
    ensures r == Some(TitleRequired) <==> Trim(f.name) != [] && Trim(f.title) == []
    ensures r == Some(ValidYear) <==> Trim(f.name) != [] && Trim(f.title) != [] && !YearAccepted(f.year, currentYear + 10)
  {
    if Trim(f.name) == [] then Some(NameRequired)
    else if Trim(f.title) == [] then Some(TitleRequired)
    else if !YearAccepted(f.year, currentYear + 10) then Some(ValidYear)
    else None
  }

  /** What `updateUserData` receives: name, title and year, and nothing else (never the e-mail). */
  datatype Update = Update(name: string, title: string, year: int)

  /**
   * The update `handleSave` builds once validation passes: name and title
   * trimmed and non-blank, and the year `parseInt` of the field, which is the
   * number the year guard accepted.
   */
  function UpdateFor(f: Form, currentYear: int): (r: Option<Update>)
    ensures r.None? <==> Validate(f, currentYear).Some?
    ensures r.Some? ==> r.value.name == Trim(f.name) && !AllWhiteSpace(r.value.name)
    ensures r.Some? ==> r.value.title == Trim(f.title) && !AllWhiteSpace(r.value.title)
    ensures r.Some? ==> ParseInt(f.year) == NumberValue(f.year) == Some(r.value.year)
    ensures r.Some? ==> MinYear <= r.value.year <= currentYear + 10
  {
    if Validate(f, currentYear).Some? then None
    else
      TrimEmptyIff(Trim(f.name));
      TrimEmptyIff(Trim(f.title));
      Some(Update(Trim(f.name), Trim(f.title), ParseInt(f.year).value))
  }

  /** A trimmed, non-blank text field. */
  predicate Clean(s: string) {
    s != [] && Trim(s) == s
  }

  /**
   * Filling the form from a stored profile and saving it unchanged sends that
   * profile's own name, title and year back, whenever they are clean and the
   * year is in the window.
   */
  lemma LoadThenSaveRoundTrip(p: Profile, currentYear: int)
    requires p.name.Some? && Clean(p.name.value)
    requires p.title.Some? && Clean(p.title.value)
    requires p.year.Some? && MinYear <= p.year.value <= currentYear + 10
    ensures UpdateFor(FormFrom(p), currentYear) == Some(Update(p.name.value, p.title.value, p.year.value))
  {
    ShowIntReadsBack(p.year.value);
  }

  /**
   * The edit screen's year window is wider than registration's: each of the
   * ten years after the current one is accepted here and refused there.
   */
  lemma EditAcceptsYearsRegisterRefuses(currentYear: int, ahead: int)
    requires currentYear >= MinYear && 1 <= ahead <= 10
    ensures YearAccepted(ShowInt(currentYear + ahead), currentYear + 10)
    ensures !YearAccepted(ShowInt(currentYear + ahead), currentYear)
  {
    ShownYearAccepted(currentYear + ahead, currentYear + 10);
    ShownYearAccepted(currentYear + ahead, currentYear);
  }

  /** The outcome of `getUserData(uid)` as the screen sees it. */
  datatype FetchOutcome = Fetched(success: bool, data: Option<Profile>) | Threw

  predicate HasData(o: FetchOutcome) {
    o.Fetched? && o.success && o.data.Some?
  }

  /** A save call: `updateUserData(uid, update)`. */
  datatype SaveRequest = SaveRequest(uid: string, update: Update)

  class EditProfile {
    /** `route.params.userData`, when the screen was opened with it. */
    const routeUserData: Option<Profile>
    /** The signed-in user's id, `auth.currentUser.uid`. */
    const currentUser: Option<string>

    var formData: Form
    var loading: bool
    var initialLoading: bool

    constructor (params: Option<Profile>, user: Option<string>)
      ensures routeUserData == params && currentUser == user
      ensures formData == EmptyForm && !loading && initialLoading
    {
      routeUserData, currentUser := params, user;
      formData, loading, initialLoading := EmptyForm, false, true;
    }

    /**
     * What `loadUserData` leaves behind, given the form before it ran and
     * the fetch it started (`Some(uid)` when it is awaiting `getUserData`).
     */
    ghost predicate LoadedFrom(before: Form, fetch: Option<string>)
      reads this
    {
      if routeUserData.Some? then
        formData == FormFrom(routeUserData.value) && !initialLoading && fetch.None?
      else if currentUser.Some? then
        formData == before && initialLoading && fetch == currentUser
      else
        formData == before && !initialLoading && fetch.None?
    }

    /**
     * `loadUserData()` up to its `await`: with a navigation parameter the
     * form is filled from it at once; otherwise with a signed-in user the
     * fetch of that user's document starts; otherwise only `initialLoading`
     * ends.
     */
    method LoadUserData() returns (fetch: Option<string>)
      modifies this`formData, this`initialLoading
      ensures LoadedFrom(old(formData), fetch)
      ensures loading == old(loading)
    {
      fetch := None;
      if routeUserData.Some? {
        formData := FormFrom(routeUserData.value);
        initialLoading := false;
      } else if currentUser.Some? {
        initialLoading := true;
        fetch := currentUser;
      } else {
        initialLoading := false;
      }
    }

    /**
     * The rest of `loadUserData()` once `getUserData` has answered: the form
     * is filled by the same mapping only when the call succeeded with data,
     * and `initialLoading` ends in every case.
     */
    method UserDataArrived(outcome: FetchOutcome)
      modifies this`formData, this`initialLoading
      ensures !initialLoading && loading == old(loading)
      ensures formData == if HasData(outcome) then FormFrom(outcome.data.value) else old(formData)
    {
      if HasData(outcome) {
        formData := FormFrom(outcome.data.value);
      }
      initialLoading := false;
    }

    /** `handleInputChange(field, value)` */
    method HandleInputChange(field: Field, value: string)
      modifies this`formData
      ensures formData == WithField(old(formData), field, value)
    {
      formData := WithField(formData, field, value);
    }

    /**
     * `handleSave()` up to its `await`: no call when validation fails or no
     * user is signed in; otherwise `loading` goes up and the update of name,
     * title and year for the signed-in user is sent.
     */
    method HandleSave(currentYear: int) returns (request: Option<SaveRequest>)
      modifies this`loading
      ensures request.None? <==> UpdateFor(formData, currentYear).None? || currentUser.None?
      ensures request.Some? ==> loading && request.value == SaveRequest(currentUser.value, UpdateFor(formData, currentYear).value)
      ensures request.None? ==> loading == old(loading)
    {
      var update := UpdateFor(formData, currentYear);
      if update.None? {
        return None;
      }
      if currentUser.None? {
        return None;
      }
      loading := true;
      request := Some(SaveRequest(currentUser.value, update.value));
    }

    /**
     * The rest of `handleSave()` once `updateUserData` has answered:
     * `loading` comes down whatever the answer; on success the screen runs
     * `loadUserData()` again, which, when the screen was opened with a
     * navigation parameter, fills the form from that parameter rather than
     * from what was just saved.
     */
    method SaveResponded(success: bool) returns (fetch: Option<string>)
      modifies this`loading, this`formData, this`initialLoading
      ensures !loading
      ensures success ==> LoadedFrom(old(formData), fetch)
      ensures !success ==> formData == old(formData) && initialLoading == old(initialLoading) && fetch.None?
    {
      loading := false;
      fetch := None;
      if success {
        fetch := LoadUserData();
      }
    }
  }

  /**
   * Mounting the screen: the initial state, then `loadUserData()` from the
   * effect that runs once. With neither a parameter nor a signed-in user the
   * form keeps its empty values and `initialLoading` ends.
   */
  method Mount(params: Option<Profile>, user: Option<string>) returns (screen: EditProfile, fetch: Option<string>)
    ensures fresh(screen) && screen.routeUserData == params && screen.currentUser == user
    ensures !screen.loading && screen.LoadedFrom(EmptyForm, fetch)
    ensures params.None? && user.None? ==> screen.formData == EmptyForm && !screen.initialLoading
  {
    screen := new EditProfile(params, user);
    fetch := screen.LoadUserData();
  }
}
