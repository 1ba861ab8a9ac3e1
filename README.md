# Profile app client: form validation, navigation gate and session holder

A Dafny model of the logic inside a React Native client for a university-profile app that runs on a hosted identity and document service. The model covers three parts:

- **The three form screens** (register, login, edit profile). Each screen has:
  - a form record and a single-field update, `handleInputChange`;
  - an ordered chain of guards, `validateForm`, in which the first failing guard decides the result;
  - the normalised payload its submit handler sends when validation passes: trimmed text, an e-mail that is trimmed and lower-cased, and a year read by `parseInt`.
- **The navigation gate** (`AppNavigator`). It picks the splash screen, the signed-in stack (the Home and Profile tabs) or the signed-out stack (Login, then Register). Its inputs are `loading`, `showSplash` and whether a user is present.
- **The session holder** (`AuthProvider`). It holds `user` and `loading` and listens to identity notifications. Each notification schedules a timer, and only a timer firing ends `loading`. Cleanup unsubscribes and clears the last timer scheduled.

Modules, one per source file plus two helper modules:

- `Strings` (strings.dfy) models the string functions the screens call. These are JavaScript's `trim`, over the ECMAScript white-space and line-terminator characters, and `toLowerCase`, restricted to ASCII. strings.dfy also defines `Wrappers.Option`.
- `Numbers` (numbers.dfy) models the three ways the year field is read and written:
  - the validators read it through JavaScript's `Number` coercion (`isNaN(y)`, `y < 1950`);
  - the submit handlers read it with `parseInt`;
  - the edit screen writes it back with `toString()`.

  The module proves that the coercion and `parseInt` agree on every signed decimal integer the guards accept. The model reads only signed decimal integers as numbers (see "## Left out").
- `RegisterScreen`, `LoginScreen` and `EditProfileScreen` model the three form screens. Validation and payloads are functions. The edit screen's state (`formData`, `loading`, `initialLoading`) is the class `EditProfile`. Its methods stop at each `await`: a method returns the call it started, and the next method receives that call's answer as a parameter.
- `AuthContext` (auth_context.dfy) models the session holder. The events are a notification, a timer firing and the cleanup. The function `Step` says how each event changes the session. The methods of the class `AuthProvider` are proved to follow `Step`, and lemmas about runs of events state what the provider guarantees.
- `AppNavigator` (app_navigator.dfy) models the gate as the function `Gate`. The class `Navigator` holds the `showSplash` flag. A joint run over session events and the end of the splash proves that the app never returns to the splash screen.

Inputs that the source takes from the environment are parameters in the model:

- The current year, `new Date().getFullYear()`, is the parameter `currentYear`.
- The answers of the identity and document service are method parameters: `success` flags and `FetchOutcome`.
- Timers are events, with no durations.

Behaviours of the code that the model states and proves:

- The edit screen's year window is `[1950, currentYear + 10]`, while registration's is `[1950, currentYear]`. `EditAcceptsYearsRegisterRefuses` proves that the two disagree on each of the ten years after the current one.
- Cleanup clears only the newest timer, because each notification overwrites `timeoutId`. An older timer that is still pending fires after unmount and runs `setLoading(false)`, which React ignores on an unmounted provider (`OlderTimerOutlivesCleanup`).
- A successful save on the edit screen runs `loadUserData()` again. When the screen was opened with a navigation parameter, this reload fills the form from that parameter, not from what was just saved (`SaveResponded`).
- The Home screen navigates to a route named `EditProfile`. No navigator in `AppNavigator.js` registers a route of that name, so in this app the edit screen opens from its tab, with no parameter.

## Model

| member | source | states |
|---|---|---|
| `Strings.Trim` | evaluacion_max_jimenez/src/screens/AuthScreens/RegisterScreen.js:39 | `trim` never lengthens its input; what it removes and keeps is stated by `TrimEmptyIff`, `TrimEdges`, `TrimKeeps` and `TrimIdempotent` below |
| `Strings.TrimStart` | evaluacion_max_jimenez/src/screens/AuthScreens/RegisterScreen.js:39 | the result is the longest suffix of the input that does not start with white space, and everything cut off before it is white space |
| `Strings.TrimEnd` | evaluacion_max_jimenez/src/screens/AuthScreens/RegisterScreen.js:39 | the result is the longest prefix of the input that does not end with white space, and everything cut off after it is white space |
| `Strings.TrimEmptyIff` | evaluacion_max_jimenez/src/screens/AuthScreens/RegisterScreen.js:39 | `!s.trim()` holds exactly when `s` is empty or consists only of white space |
| `Strings.TrimStartSplits` | evaluacion_max_jimenez/src/screens/AuthScreens/RegisterScreen.js:82 | what `parseInt` sees after skipping leading white space is the trimmed text followed by white space only |
| `Strings.TrimEdges` | evaluacion_max_jimenez/src/screens/AuthScreens/RegisterScreen.js:78 | a trimmed string is empty or neither starts nor ends with white space |
| `Strings.TrimOfTrimmed` | evaluacion_max_jimenez/src/screens/MainScreens/EditProfileScreen.js:121 | a string with no white space at either end is unchanged by `trim` |
| `Strings.TrimKeeps` | evaluacion_max_jimenez/src/screens/AuthScreens/RegisterScreen.js:44 | a character that is not white space (such as '@') is in the trimmed string exactly when it is in the original |
| `Strings.TrimAddsNothing` | evaluacion_max_jimenez/src/screens/AuthScreens/RegisterScreen.js:79 | every character of the trimmed string occurs in the original |
| `Strings.TrimKeepsAt` | evaluacion_max_jimenez/src/screens/AuthScreens/RegisterScreen.js:79 | a character of the original that is not white space survives trimming |
| `Strings.TrimIdempotent` | evaluacion_max_jimenez/src/screens/AuthScreens/RegisterScreen.js:78 | trimming twice is the same as trimming once |
| `Strings.ToLowerAscii` | evaluacion_max_jimenez/src/screens/AuthScreens/RegisterScreen.js:79 | `toLowerCase` keeps the length and maps each character through ASCII lower-casing |
| `Strings.ToLowerAsciiFacts` | evaluacion_max_jimenez/src/screens/AuthScreens/LoginScreen.js:53 | lower-casing leaves no upper-case ASCII letter, keeps '@' exactly where it was, keeps white space where it was, and is idempotent |
| `Numbers.ShowNat` | evaluacion_max_jimenez/src/screens/MainScreens/EditProfileScreen.js:43 | `toString()` of a non-negative integer is a non-empty string of digits; `ShowNatRoundTrip` states its value |
| `Numbers.ShowInt` | evaluacion_max_jimenez/src/screens/MainScreens/EditProfileScreen.js:43 | `toString()` of an integer is non-empty and starts with '-' exactly when the integer is negative; `ShowIntReadsBack` states that it reads back |
| `Numbers.NumberValue` | evaluacion_max_jimenez/src/screens/AuthScreens/RegisterScreen.js:64 | the coercion behind `isNaN(y)` and `y < 1950`, on signed decimal integers: blank text is 0, and a number read from non-blank text ends in a digit. `ParseIntAgreesWithNumber` and `ShowIntReadsBack` relate it to `parseInt` and `toString()` |
| `Numbers.ParseInt` | evaluacion_max_jimenez/src/screens/AuthScreens/RegisterScreen.js:82 | `parseInt` of blank text is NaN, unlike the coercion; `DigitPrefixStops` and `ParseIntAgreesWithNumber` state what it reads |
| `Numbers.DigitChar` | evaluacion_max_jimenez/src/screens/MainScreens/EditProfileScreen.js:43 | the digit written for a value below ten reads back as that value |
| `Numbers.ShowNatRoundTrip` | evaluacion_max_jimenez/src/screens/MainScreens/EditProfileScreen.js:43 | `toString()` of a non-negative integer is a non-empty digit string whose decimal value is the integer |
| `Numbers.DigitPrefix` | evaluacion_max_jimenez/src/screens/AuthScreens/RegisterScreen.js:82 | the digits `parseInt` consumes form the longest run of digits at the start of the text |
| `Numbers.DigitPrefixStops` | evaluacion_max_jimenez/src/screens/AuthScreens/RegisterScreen.js:82 | `parseInt` stops at the first character that is not a digit |
| `Numbers.SignedDigitPrefixStops` | evaluacion_max_jimenez/src/screens/AuthScreens/RegisterScreen.js:82 | a signed integer followed by white space is parsed by `parseInt` to the value that `Number` gives the signed integer |
| `Numbers.ParseIntAgreesWithNumber` | evaluacion_max_jimenez/src/screens/AuthScreens/RegisterScreen.js:64-82 | on any non-blank text that is a signed decimal integer, with white space around it allowed, `parseInt` gives the same integer as the coercion |
| `Numbers.ShowIntReadsBack` | evaluacion_max_jimenez/src/screens/MainScreens/EditProfileScreen.js:60 | a year written with `toString()` reads back as the same integer through both `Number` and `parseInt`, and is already trimmed |
| `Numbers.YearAccepted` | evaluacion_max_jimenez/src/screens/AuthScreens/RegisterScreen.js:64-82 | the year guard, which refuses an empty field, NaN, a year below 1950 and a year above `upper` (with `upper` the current year at registration, ten years later at EditProfileScreen.js:102). When it accepts a signed decimal integer, `parseInt` reads the very number the guard checked, inside the bounds. `ShownYearAccepted` and `YearBoundsInclusive` state which years pass |
| `Numbers.ShownYearAccepted` | evaluacion_max_jimenez/src/screens/MainScreens/EditProfileScreen.js:102 | a year written by `toString()` passes the guard exactly when it lies in [1950, upper] |
| `Numbers.YearBoundsInclusive` | evaluacion_max_jimenez/src/screens/AuthScreens/RegisterScreen.js:64 | both year bounds are inclusive: 1950 and the upper bound pass, 1949 and the upper bound plus one fail |
| `RegisterScreen.WithField` | evaluacion_max_jimenez/src/screens/AuthScreens/RegisterScreen.js:29-34 | `handleInputChange` sets exactly the named field and leaves the other five unchanged |
| `RegisterScreen.Validate` | evaluacion_max_jimenez/src/screens/AuthScreens/RegisterScreen.js:36-70 | the form is accepted exactly when all of these hold: name not blank; e-mail not blank and containing '@'; password of at least 6 characters and equal to the confirmation; title not blank; year accepted in [1950, currentYear]. Otherwise the guard reported is one that fails |
| `RegisterScreen.EarlierChecksPass` | evaluacion_max_jimenez/src/screens/AuthScreens/RegisterScreen.js:39-67 | every guard before the reported one passes, so the first failing guard is the one reported |
| `RegisterScreen.FirstFailureDecides` | evaluacion_max_jimenez/src/screens/AuthScreens/RegisterScreen.js:39-67 | fields after the first failing guard are not inspected: any form that agrees on the fields up to that guard gets the same result |
| `RegisterScreen.ShortPasswordRefused` | evaluacion_max_jimenez/src/screens/AuthScreens/RegisterScreen.js:49-52 | a password shorter than 6 characters is refused even when it matches the confirmation (by the length guard or by an earlier guard) |
| `RegisterScreen.Submit` | evaluacion_max_jimenez/src/screens/AuthScreens/RegisterScreen.js:72-83 | no call is made when validation fails. Otherwise the payload has the trimmed non-blank name and title, and the e-mail trimmed and lower-cased, which still contains '@'. The password goes unchanged (it equals the confirmation and has at least 6 characters). The year is the `parseInt` value, which is the number the guard accepted, within [1950, currentYear]. There is no confirmation field |
| `RegisterScreen.SubmittedEmailTrimmed` | evaluacion_max_jimenez/src/screens/AuthScreens/RegisterScreen.js:79 | the submitted e-mail is unchanged by a further `trim` |
| `RegisterScreen.AfterRegister` | evaluacion_max_jimenez/src/screens/AuthScreens/RegisterScreen.js:85-95 | after the call `loading` is false; on success the alert's OK leads to Login, and on failure an error is shown and the screen does not navigate |
| `LoginScreen.WithField` | evaluacion_max_jimenez/src/screens/AuthScreens/LoginScreen.js:24-29 | `handleInputChange` sets exactly the named field and leaves the other unchanged |
| `LoginScreen.Validate` | evaluacion_max_jimenez/src/screens/AuthScreens/LoginScreen.js:31-45 | the form is accepted exactly when the e-mail is not blank, contains '@', and the password is not blank. The e-mail error is reported whenever the e-mail is bad, whatever the password holds |
| `LoginScreen.PasswordRuleIsNonBlank` | evaluacion_max_jimenez/src/screens/AuthScreens/LoginScreen.js:39-42 | with a good e-mail the password is refused exactly when it is all white space; there is no minimum length |
| `LoginScreen.Submit` | evaluacion_max_jimenez/src/screens/AuthScreens/LoginScreen.js:47-55 | no call is made when validation fails. Otherwise the call gets the e-mail trimmed and lower-cased (non-empty, containing '@', no upper-case ASCII) and the password as typed |
| `LoginScreen.AfterLogin` | evaluacion_max_jimenez/src/screens/AuthScreens/LoginScreen.js:57-63 | after the call `loading` is false and the screen never navigates; an error is shown exactly on failure |
| `EditProfileScreen.WithField` | evaluacion_max_jimenez/src/screens/MainScreens/EditProfileScreen.js:82-87 | `handleInputChange` sets exactly the named field and leaves the other two unchanged |
| `EditProfileScreen.FormFrom` | evaluacion_max_jimenez/src/screens/MainScreens/EditProfileScreen.js:40-44 | a missing name or title becomes ''. The year is '' exactly when it is missing; otherwise it is text that `Number` and `parseInt` both read back as the stored year. The e-mail is not copied |
| `EditProfileScreen.Validate` | evaluacion_max_jimenez/src/screens/MainScreens/EditProfileScreen.js:89-108 | the form is accepted exactly when name and title are not blank and the year is accepted in [1950, currentYear + 10]; each guard is reported exactly when it is the first to fail |
| `EditProfileScreen.UpdateFor` | evaluacion_max_jimenez/src/screens/MainScreens/EditProfileScreen.js:120-124 | an update exists exactly when validation passes. It has the trimmed non-blank name and title and the `parseInt` year, which is the number the guard accepted, in [1950, currentYear + 10]. The update type has no e-mail field |
| `EditProfileScreen.LoadThenSaveRoundTrip` | evaluacion_max_jimenez/src/screens/MainScreens/EditProfileScreen.js:57-61 | filling the form from a stored profile with clean fields and saving it unchanged sends back that profile's own name, title and year |
| `EditProfileScreen.EditAcceptsYearsRegisterRefuses` | evaluacion_max_jimenez/src/screens/MainScreens/EditProfileScreen.js:102 | each of the ten years after the current one is accepted when editing and refused at registration |
| `EditProfileScreen.EditProfile.constructor` | evaluacion_max_jimenez/src/screens/MainScreens/EditProfileScreen.js:22-28 | the form starts empty, `loading` false and `initialLoading` true |
| `EditProfileScreen.EditProfile.LoadUserData` | evaluacion_max_jimenez/src/screens/MainScreens/EditProfileScreen.js:34-50 | with a navigation parameter the form is filled by `FormFrom` from it and `initialLoading` ends. With only a signed-in user, that user's document is fetched and `initialLoading` stays true. With neither, the form is unchanged and `initialLoading` ends |
| `EditProfileScreen.EditProfile.UserDataArrived` | evaluacion_max_jimenez/src/screens/MainScreens/EditProfileScreen.js:51-75 | the form is filled by the same `FormFrom` only when the fetch succeeded with data. On an error, missing data or an exception it is unchanged. `initialLoading` ends in every case |
| `EditProfileScreen.EditProfile.HandleInputChange` | evaluacion_max_jimenez/src/screens/MainScreens/EditProfileScreen.js:82-87 | the form becomes `WithField` of the old form |
| `EditProfileScreen.EditProfile.HandleSave` | evaluacion_max_jimenez/src/screens/MainScreens/EditProfileScreen.js:110-124 | no call and no state change when validation fails or no user is signed in. Otherwise `loading` is true and the update of name, title and year is sent for the signed-in user |
| `EditProfileScreen.EditProfile.SaveResponded` | evaluacion_max_jimenez/src/screens/MainScreens/EditProfileScreen.js:126-138 | `loading` is false whatever the answer. On failure the form is unchanged. On success `loadUserData` runs again |
| `EditProfileScreen.Mount` | evaluacion_max_jimenez/src/screens/MainScreens/EditProfileScreen.js:30-32 | mounting runs `loadUserData` once from the empty form. With neither a parameter nor a user the form stays empty and `initialLoading` ends false |
| `AuthContext.Step` | evaluacion_max_jimenez/src/config/AuthContext.js:15-31 | one event: only a notification received while subscribed changes `user`; `loading` only goes from true to false, and only when a pending timer fires; a step schedules at most the timer the counter names; once unsubscribed, the listener stays removed. The lemmas below extend these to runs |
| `AuthContext.Value` | evaluacion_max_jimenez/src/config/AuthContext.js:35-38 | the exposed context value is exactly the pair of `user` and `loading` |
| `AuthContext.StepConsistent` | evaluacion_max_jimenez/src/config/AuthContext.js:13-31 | every event preserves the session invariant. Timer ids come from the counter, and `timeoutId` names the newest timer. `loading` is false only once a timer exists. The listener has been removed at most once |
| `AuthContext.RunFromConsistent` | evaluacion_max_jimenez/src/config/AuthContext.js:13-31 | any run of events from a consistent session keeps it consistent |
| `AuthContext.RunConsistent` | evaluacion_max_jimenez/src/config/AuthContext.js:9-31 | every session reachable from the initial state (`user` null, `loading` true) is consistent |
| `AuthContext.RunFromAppend` | evaluacion_max_jimenez/src/config/AuthContext.js:15-31 | running two stretches of events one after the other is running their concatenation |
| `AuthContext.LoadingStaysFalse` | evaluacion_max_jimenez/src/config/AuthContext.js:22 | `loading` is only ever assigned false: once false, no event makes it true |
| `AuthContext.LoadingMonotone` | evaluacion_max_jimenez/src/config/AuthContext.js:10-22 | along one run, once a prefix has `loading` false, every longer prefix does too |
| `AuthContext.LoadingEndsOnlyAfterNotification` | evaluacion_max_jimenez/src/config/AuthContext.js:15-24 | from a loading session with no timer yet, `loading` becomes false only if a notification is followed by a timer firing |
| `AuthContext.FiringFollows` | evaluacion_max_jimenez/src/config/AuthContext.js:20-23 | a loading session stops loading only by a timer firing |
| `AuthContext.LoadingEndsAfterNotificationAndTimer` | evaluacion_max_jimenez/src/config/AuthContext.js:15-24 | from the initial state, `loading` false means that some notification came and a timer fired after it |
| `AuthContext.NotifiedUserStays` | evaluacion_max_jimenez/src/config/AuthContext.js:15-17 | a notification received while subscribed sets `user` to exactly the notified value, null included, until the next notification |
| `AuthContext.OnlyNotificationsSetUser` | evaluacion_max_jimenez/src/config/AuthContext.js:15-31 | timers and cleanup never change `user` |
| `AuthContext.NothingAfterCleanupNotifies` | evaluacion_max_jimenez/src/config/AuthContext.js:27-28 | after the cleanup the listener is gone: no later event changes `user` or subscribes again |
| `AuthContext.CleanupClearsOnlyNewestTimer` | evaluacion_max_jimenez/src/config/AuthContext.js:27-31 | the cleanup removes only the newest timer from the pending timers, and every older pending timer stays pending |
| `AuthContext.OlderTimerOutlivesCleanup` | evaluacion_max_jimenez/src/config/AuthContext.js:20-31 | after two notifications and the cleanup, the first timer is still pending, and when it fires it still runs `setLoading(false)` (the model records it as `loading` false) |
| `AuthContext.UnsubscribedOnce` | evaluacion_max_jimenez/src/config/AuthContext.js:27-28 | the listener is removed once if the run contains a cleanup, and never otherwise |
| `AuthContext.AuthProvider.constructor` | evaluacion_max_jimenez/src/config/AuthContext.js:9-15 | the provider starts with `user` null, `loading` true, the listener installed and no timer |
| `AuthContext.AuthProvider.Exposed` | evaluacion_max_jimenez/src/config/AuthContext.js:35-41 | the value given to the context provider is the pair of the current `user` and `loading` |
| `AuthContext.AuthProvider.OnAuthStateChanged` | evaluacion_max_jimenez/src/config/AuthContext.js:15-24 | the callback sets `user` and schedules a new timer whose id overwrites `timeoutId`; the new state is `Step` of the old one |
| `AuthContext.AuthProvider.TimerFired` | evaluacion_max_jimenez/src/config/AuthContext.js:20-23 | a pending timer firing sets `loading` to false and leaves the pending timers; the new state is `Step` of the old one |
| `AuthContext.AuthProvider.CleanupEffect` | evaluacion_max_jimenez/src/config/AuthContext.js:27-32 | the cleanup unsubscribes and clears the timer `timeoutId` names; the new state is `Step` of the old one |
| `AppNavigator.Gate` | evaluacion_max_jimenez/src/navigation/AppNavigator.js:83-100 | splash exactly when `loading` or `showSplash`, whatever the user. Otherwise the signed-in stack exactly when a user is present (`FORCE_SHOW_TABS` is false), and the Login-then-Register stack exactly when none is |
| `AppNavigator.EntryPoints` | evaluacion_max_jimenez/src/navigation/AppNavigator.js:41-118 | past the splash, a signed-in user lands on the first tab (HomeTab, the Home screen) and a signed-out user on Login, the first route of the Login-then-Register stack |
| `AppNavigator.Navigator.constructor` | evaluacion_max_jimenez/src/navigation/AppNavigator.js:63 | `showSplash` starts true |
| `AppNavigator.Navigator.HandleSplashFinish` | evaluacion_max_jimenez/src/navigation/AppNavigator.js:78-81 | `showSplash` becomes false, and the new flag is what `AppStep` gives on `SplashFinished` from the old one, whatever the session |
| `AppNavigator.Navigator.Render` | evaluacion_max_jimenez/src/navigation/AppNavigator.js:83-100 | one render shows the splash screen exactly while `loading` or `showSplash` holds; past it, the screen opened is Home for a signed-in user and Login otherwise |
| `AppNavigator.AppStep` | evaluacion_max_jimenez/App.js:10-13 | the provider wrapping the navigator, as one step of either: neither `showSplash` nor `loading` goes back up, so a step never returns to the splash screen |
| `AppNavigator.StartsOnSplash` | evaluacion_max_jimenez/src/navigation/AppNavigator.js:63-86 | the app starts on the splash screen |
| `AppNavigator.NoReturnToSplash` | evaluacion_max_jimenez/src/navigation/AppNavigator.js:83-86 | once the app shows a stack, no run of session events or splash ends brings the splash screen back |
| `AppNavigator.SplashFlagNeverResets` | evaluacion_max_jimenez/src/navigation/AppNavigator.js:63-81 | once false, `showSplash` stays false |
| `AppNavigator.SplashEndsOnlyByFinish` | evaluacion_max_jimenez/src/navigation/AppNavigator.js:78-86 | the app leaves the splash screen only if the splash's end was signalled |
| `AppNavigator.OnlyNotificationsSwitchStacks` | evaluacion_max_jimenez/src/navigation/AppNavigator.js:89-100 | past the splash, the shown stack changes only on an identity notification; the gate writes neither `user` nor `loading` |
| `AppNavigator.SplashLeavesSessionAlone` | evaluacion_max_jimenez/src/navigation/AppNavigator.js:78-81 | the splash's end changes nothing in the session, and the gate then decides on `loading` and the user alone |

## Left out

- evaluacion_max_jimenez/src/config/authService.js is not part of this model. It wraps the identity and document SDKs, whose behaviour cannot be seen here. Its answers enter the model as parameters: the `success` flags and `EditProfileScreen.FetchOutcome`.
- evaluacion_max_jimenez/src/config/firebase.js and evaluacion_max_jimenez/App.js are not part of this model. They hold configuration and composition only. The composition of the provider and the navigator appears as `AppNavigator.AppStep`.
- evaluacion_max_jimenez/src/screens/MainScreens/HomeScreen.js is not part of this model. It is rendering, a fetch and sign-out, and display fallbacks only.
- evaluacion_max_jimenez/src/screens/SplashScreen/SplashScreen.js is not part of this model. Its four-second timer is the event `SplashFinished`. Restarting that timer when `onFinish` is recreated on a re-render is not modelled.
- `handleCancel` of the edit screen is not modelled as a member. It shows a confirmation dialog whose "Descartar" button calls `loadUserData()` and does not navigate; that reload is what `EditProfileScreen.EditProfile.LoadUserData` models.
- Durations (2000 ms, 4000 ms), rendering and re-rendering, and the concurrency of calls in flight are not modelled. Alert texts, `console.log` output, styles and keyboard props are left out too.
- `Numbers.NumberValue`: JavaScript's `Number` also accepts fractions, exponents, hexadecimal and `Infinity`. The model reads all of these as NaN. So a year such as "2e3" is refused here, although the app accepts it as 2000 and then submits `parseInt("2e3")`, which is 2.
- `Numbers.ParseInt`: the "0x" prefix, which `parseInt` reads as hexadecimal, is not modelled. The model's guards refuse such text before it is parsed.
- `Numbers.ShowNat`: JavaScript writes integers of 1e21 and above in exponent form; the model writes plain digits.
- `Strings.ToLowerAscii`: lower-cases ASCII letters only, not the rest of Unicode.
- `RegisterScreen.Validate`: the password length counts characters, not the UTF-16 code units that JavaScript counts.
- `EditProfileScreen.FormFrom`: the stored year is an integer or missing. Non-integer or NaN values stored in the document are not modelled.
- `AuthContext.AuthProvider.constructor`: the provider's first render and the effect that installs the listener are merged into construction.
- `AuthContext.Step`: a timer that fires after unmount still sets `loading`, although React ignores that update.
