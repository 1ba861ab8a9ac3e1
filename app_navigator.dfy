/**
 * The navigation gate `AppNavigator`: from the session holder's `loading`
 * and `user` and its own `showSplash` flag it picks the splash screen, the
 * signed-in stack (one screen holding the two tabs) or the signed-out stack
 * (Login, then Register). The splash screen's own four-second timer appears
 * as the event `SplashFinished`.
 */
module AppNavigator {
  import AuthContext

  datatype Component = SplashScreen | LoginScreen | RegisterScreen | HomeScreen | EditProfileScreen | MainTabNavigator

  datatype Route = Route(name: string, component: Component)

  /** What the navigator renders: the splash screen, or a stack of routes whose first is the entry. */
  datatype Presented = Splash | Stack(routes: seq<Route>)

  /** The bottom tabs of `MainTabNavigator`, in order. */
  const MainTabs: seq<Route> := [Route("HomeTab", HomeScreen), Route("ProfileTab", EditProfileScreen)]

  const SignedInRoutes: seq<Route> := [Route("MainTabs", MainTabNavigator)]

  const SignedOutRoutes: seq<Route> := [Route("Login", LoginScreen), Route("Register", RegisterScreen)]

  /** The test switch that would show the tabs without a user; it is off. */
  const ForceShowTabs := false

  /**
   * The gate: the splash screen while the session is loading or the splash
   * has not finished, whoever the user is; otherwise the signed-in stack
   * exactly when a user is present, and the signed-out stack when not.
   */
  function Gate(loading: bool, showSplash: bool, userPresent: bool): (r: Presented)
    ensures r == Splash <==> loading || showSplash
    ensures r == Stack(SignedInRoutes) <==> !loading && !showSplash && userPresent
    ensures r == Stack(SignedOutRoutes) <==> !loading && !showSplash && !userPresent
  {
    if loading || showSplash then Splash
    else if ForceShowTabs || userPresent then Stack(SignedInRoutes)
    else Stack(SignedOutRoutes)
  }

  /** The screen a presentation opens on: a stack's first route, and for the tab navigator its first tab. */
  function EntryScreen(p: Presented): Component {
    match p
    case Splash => SplashScreen
    case Stack(routes) =>
      if routes == [] then SplashScreen
      else if routes[0].component == MainTabNavigator then MainTabs[0].component
      else routes[0].component
  }

  /** Signed in, the app opens on Home; signed out, on Login. */
  lemma EntryPoints(loading: bool, showSplash: bool, userPresent: bool)
    ensures EntryScreen(Gate(loading, showSplash, userPresent)) ==
      if loading || showSplash then SplashScreen
      else if userPresent then HomeScreen
      else LoginScreen
  {
  }

  /** The state the navigator's choice depends on. */
  class Navigator {
    var showSplash: bool

    /** `useState(true)` */
    constructor ()
      ensures showSplash
    {
      showSplash := true;
    }

    /** `handleSplashFinish`, the splash screen's `onFinish`: the flag only ever goes down. */
    method HandleSplashFinish()
      modifies this
      ensures !showSplash
      ensures forall s: AuthContext.Session :: AppStep(AppState(s, old(showSplash)), SplashFinished) == AppState(s, showSplash)
    {
      showSplash := false;
    }

    /**
     * One render of `AppNavigator` with the value the session holder
     * exposes: the splash screen while either flag is up, then Home for a
     * signed-in user and Login for anyone else.
     */
    function Render(v: AuthContext.ContextValue): (r: Presented)
      reads this
      ensures r == Splash <==> v.loading || showSplash
      ensures EntryScreen(r) == if r == Splash then SplashScreen else if v.user.Some? then HomeScreen else LoginScreen
    {
      Gate(v.loading, showSplash, v.user.Some?)
    }
  }

  /** What can happen to the app as a whole: a session event or the end of the splash. */
  datatype AppEvent = Auth(e: AuthContext.Event) | SplashFinished

  datatype AppState = AppState(session: AuthContext.Session, showSplash: bool)

  const AppInit := AppState(AuthContext.Init, true)

  /**
   * Session events go to the session holder, the end of the splash to the
   * navigator's flag. Neither flag ever goes back up, so a step never leads
   * back to the splash screen.
   */
  function AppStep(a: AppState, e: AppEvent): (r: AppState)
    ensures r.showSplash ==> a.showSplash
    ensures r.session.loading ==> a.session.loading
    ensures Screen(a) != Splash ==> Screen(r) != Splash
  {
    match e
    case Auth(se) => a.(session := AuthContext.Step(a.session, se))
    case SplashFinished => a.(showSplash := false)
  }

  function AppRunFrom(a: AppState, events: seq<AppEvent>): AppState
    decreases |events|
  {
    if events == [] then a else AppRunFrom(AppStep(a, events[0]), events[1..])
  }

  /** What the app shows in a state. */
  function Screen(a: AppState): Presented {
    Gate(a.session.loading, a.showSplash, a.session.user.Some?)
  }

  /**
   * Once the app has left the splash screen it never shows it again: both
   * `loading` and `showSplash` only ever go from true to false.
   */
  lemma {:induction false} NoReturnToSplash(a: AppState, events: seq<AppEvent>)
    requires Screen(a) != Splash
    ensures Screen(AppRunFrom(a, events)) != Splash
    decreases |events|
  {
    if events != [] {
      var b := AppStep(a, events[0]);
      assert !b.session.loading && !b.showSplash;
      NoReturnToSplash(b, events[1..]);
    }
  }

  /** `showSplash` starts true and, once false, stays false. */
  lemma {:induction false} SplashFlagNeverResets(a: AppState, events: seq<AppEvent>)
    requires !a.showSplash
    ensures !AppRunFrom(a, events).showSplash
    decreases |events|
  {
    if events != [] {
      SplashFlagNeverResets(AppStep(a, events[0]), events[1..]);
    }
  }

  /** The app starts on the splash screen. */
  lemma StartsOnSplash()
    ensures Screen(AppInit) == Splash
  {
  }

  /** The app leaves the splash screen only after the splash has signalled its end. */
  lemma {:induction false} SplashEndsOnlyByFinish(a: AppState, events: seq<AppEvent>)
    requires a.showSplash
    requires Screen(AppRunFrom(a, events)) != Splash
    ensures SplashFinished in events
    decreases |events|
  {
    if events != [] && events[0] != SplashFinished {
      SplashEndsOnlyByFinish(AppStep(a, events[0]), events[1..]);
      assert events == [events[0]] + events[1..];
    }
  }

  /**
   * Past the splash screen, the app moves between the signed-in and the
   * signed-out stacks only on an identity notification: the gate itself,
   * the timers, the cleanup and the splash's end leave the choice alone.
   */
  lemma OnlyNotificationsSwitchStacks(a: AppState, e: AppEvent)
    requires Screen(a) != Splash
    requires Screen(AppStep(a, e)) != Screen(a)
    ensures e.Auth? && e.e.Notify?
  {
  }

  /** The end of the splash changes nothing in the session. */
  lemma SplashLeavesSessionAlone(a: AppState)
    ensures AppStep(a, SplashFinished).session == a.session
    ensures Screen(AppStep(a, SplashFinished)) == Gate(a.session.loading, false, a.session.user.Some?)
  {
  }
}
