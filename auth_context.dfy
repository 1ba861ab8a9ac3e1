/**
 * The session holder `AuthProvider`: the state `user` and `loading`, the
 * auth-state listener it installs once, the two-second timer each
 * notification schedules, and the cleanup that unsubscribes and clears the
 * timer last scheduled. Time is not modelled: a notification, a timer firing
 * and the cleanup are events, applied one at a time by `Step`, which the
 * methods of the class `AuthProvider` follow.
 */
module AuthContext {
  import opened Wrappers

  /** The signed-in user the identity service reports; only its identity matters here. */
  datatype User = User(uid: string)

  datatype Event =
    | Notify(user: Option<User>)   // the `onAuthStateChanged` callback runs with `user` (null is `None`)
    | TimerFire(id: nat)           // the timer with this id reaches its delay
    | Cleanup                      // the effect's cleanup runs (the provider unmounts)

  /**
   * `user` and `loading` are the provider's state; `subscribed` and
   * `unsubscribeCalls` describe the listener; `timeoutId` is the effect's
   * local `let timeoutId`; `pending` holds the timers scheduled and neither
   * fired nor cleared, and `nextTimer` the id the runtime hands out next.
   */
  datatype Session = Session(
    user: Option<User>,
    loading: bool,
    subscribed: bool,
    unsubscribeCalls: nat,
    timeoutId: Option<nat>,
    pending: set<nat>,
    nextTimer: nat)

  /** No user, still loading, listener installed, no timer yet. */
  const Init := Session(None, true, true, 0, None, {}, 1)

  /**
   * How one event changes the session. Only a notification received while
   * subscribed changes `user`; `loading` only goes down, and only when a
   * pending timer fires; each step schedules at most the one timer the
   * counter names; once unsubscribed, nothing subscribes again.
   */
  function Step(s: Session, e: Event): (r: Session)
    ensures r.user != s.user ==> e.Notify? && s.subscribed
    ensures r.loading ==> s.loading
    ensures r.loading != s.loading ==> e.TimerFire? && e.id in s.pending
    ensures r.nextTimer >= s.nextTimer && r.pending <= s.pending + {s.nextTimer}
    ensures !s.subscribed ==> !r.subscribed && r.unsubscribeCalls == s.unsubscribeCalls
  {
    match e
    case Notify(u) =>
      if !s.subscribed then s
      else s.(user := u, timeoutId := Some(s.nextTimer),
              pending := s.pending + {s.nextTimer}, nextTimer := s.nextTimer + 1)
    case TimerFire(id) =>
      if id !in s.pending then s
      else s.(pending := s.pending - {id}, loading := false)
    case Cleanup =>
      if !s.subscribed then s
      else s.(subscribed := false, unsubscribeCalls := s.unsubscribeCalls + 1,
              pending := if s.timeoutId.Some? then s.pending - {s.timeoutId.value} else s.pending)
  }

  /** The session after a sequence of events, first event first. */
  function RunFrom(s: Session, events: seq<Event>): Session
    decreases |events|
  {
    if events == [] then s else RunFrom(Step(s, events[0]), events[1..])
  }

  function Run(events: seq<Event>): Session {
    RunFrom(Init, events)
  }

  /** What the provider exposes to the screens: exactly `{ user, loading }`. */
  datatype ContextValue = ContextValue(user: Option<User>, loading: bool)

  function Value(s: Session): (v: ContextValue)
    ensures v.user == s.user && v.loading == s.loading
  {
    ContextValue(s.user, s.loading)
  }

  /**
   * Facts every reachable session has: timer ids come from the counter,
   * `timeoutId` names the newest timer, `loading` is false only once a timer
   * exists, and the listener has been removed at most once.
   */
  ghost predicate Consistent(s: Session) {
    && s.nextTimer >= 1
    && (forall id :: id in s.pending ==> 1 <= id < s.nextTimer)
    && (s.timeoutId.Some? <==> s.nextTimer > 1)
    && (s.timeoutId.Some? ==> s.timeoutId.value == s.nextTimer - 1)
    && (!s.loading ==> s.nextTimer > 1)
    && s.unsubscribeCalls == (if s.subscribed then 0 else 1)
  }

  lemma StepConsistent(s: Session, e: Event)
    requires Consistent(s)
    ensures Consistent(Step(s, e))
  {
  }

  lemma {:induction false} RunFromConsistent(s: Session, events: seq<Event>)
    requires Consistent(s)
    ensures Consistent(RunFrom(s, events))
    decreases |events|
  {
    if events != [] {
      StepConsistent(s, events[0]);
      RunFromConsistent(Step(s, events[0]), events[1..]);
    }
  }

  /** Every session the provider can reach is consistent. */
  lemma RunConsistent(events: seq<Event>)
    ensures Consistent(Run(events))
  {
    RunFromConsistent(Init, events);
  }

  /** Running two stretches of events one after the other. */
  lemma {:induction false} RunFromAppend(s: Session, a: seq<Event>, b: seq<Event>)
    ensures RunFrom(s, a + b) == RunFrom(RunFrom(s, a), b)
    decreases |a|
  {
    if a != [] {
      assert (a + b)[0] == a[0];
      assert (a + b)[1..] == a[1..] + b;
      RunFromAppend(Step(s, a[0]), a[1..], b);
    } else {
      assert a + b == b;
    }
  }

  /** `loading` is only ever set to false: once false, no event brings it back. */
  lemma {:induction false} LoadingStaysFalse(s: Session, events: seq<Event>)
    requires !s.loading
    ensures !RunFrom(s, events).loading
    decreases |events|
  {
    if events != [] {
      LoadingStaysFalse(Step(s, events[0]), events[1..]);
    }
  }

  /** The same, on the prefixes of one run. */
  lemma LoadingMonotone(events: seq<Event>, i: nat, j: nat)
    requires i <= j <= |events|
    requires !Run(events[..i]).loading
    ensures !Run(events[..j]).loading
  {
    assert events[..j] == events[..i] + events[i..j];
    RunFromAppend(Init, events[..i], events[i..j]);
    LoadingStaysFalse(Run(events[..i]), events[i..j]);
  }

  /**
   * `loading` ends only by a timer firing, and timers are scheduled only by
   * notifications: a run whose `loading` is false holds a notification and,
   * after it, a timer firing.
   */
  lemma {:induction false} LoadingEndsOnlyAfterNotification(s: Session, events: seq<Event>)
    requires Consistent(s) && s.loading && s.nextTimer == 1
    requires !RunFrom(s, events).loading
    ensures exists i, j :: 0 <= i < j < |events| && events[i].Notify? && events[j].TimerFire?
    decreases |events|
  {
    var e := events[0];
    var t := Step(s, e);
    StepConsistent(s, e);
    match e
    case Notify(_) =>
      FiringFollows(t, events[1..]);
      var j :| 0 <= j < |events[1..]| && events[1..][j].TimerFire?;
      assert events[j + 1].TimerFire?;
    case TimerFire(_) =>
      LoadingEndsOnlyAfterNotification(t, events[1..]);
      var i, j :| 0 <= i < j < |events[1..]| && events[1..][i].Notify? && events[1..][j].TimerFire?;
      assert events[i + 1].Notify? && events[j + 1].TimerFire?;
    case Cleanup =>
      LoadingEndsOnlyAfterNotification(t, events[1..]);
      var i, j :| 0 <= i < j < |events[1..]| && events[1..][i].Notify? && events[1..][j].TimerFire?;
      assert events[i + 1].Notify? && events[j + 1].TimerFire?;
  }

  /** A loading session that stops loading has seen a timer fire. */
  lemma {:induction false} FiringFollows(s: Session, events: seq<Event>)
    requires s.loading && !RunFrom(s, events).loading
    ensures exists j :: 0 <= j < |events| && events[j].TimerFire?
    decreases |events|
  {
    if events[0].TimerFire? {
      assert events[0].TimerFire?;
    } else {
      FiringFollows(Step(s, events[0]), events[1..]);
      var j :| 0 <= j < |events[1..]| && events[1..][j].TimerFire?;
      assert events[j + 1].TimerFire?;
    }
  }

  /** From the start: `loading` false means a notification came and then a timer fired. */
  lemma LoadingEndsAfterNotificationAndTimer(events: seq<Event>)
    requires !Run(events).loading
    ensures exists i, j :: 0 <= i < j < |events| && events[i].Notify? && events[j].TimerFire?
  {
    LoadingEndsOnlyAfterNotification(Init, events);
  }

  /**
   * A notification received while subscribed sets `user` to exactly the
   * value notified, and it stays so until the next notification.
   */
  lemma {:induction false} NotifiedUserStays(s: Session, u: Option<User>, rest: seq<Event>)
    requires s.subscribed
    requires forall k :: 0 <= k < |rest| ==> !rest[k].Notify?
    ensures RunFrom(s, [Notify(u)] + rest).user == u
  {
    assert ([Notify(u)] + rest)[1..] == rest;
    OnlyNotificationsSetUser(Step(s, Notify(u)), rest);
  }

  /** Timers and cleanup never touch `user`. */
  lemma {:induction false} OnlyNotificationsSetUser(s: Session, events: seq<Event>)
    requires forall k :: 0 <= k < |events| ==> !events[k].Notify?
    ensures RunFrom(s, events).user == s.user
    decreases |events|
  {
    if events != [] {
      assert !events[0].Notify?;
      OnlyNotificationsSetUser(Step(s, events[0]), events[1..]);
    }
  }

  /** After the cleanup the listener is gone: later notifications change nothing. */
  lemma {:induction false} NothingAfterCleanupNotifies(s: Session, events: seq<Event>)
    requires !s.subscribed
    ensures RunFrom(s, events).user == s.user
    ensures !RunFrom(s, events).subscribed
    decreases |events|
  {
    if events != [] {
      NothingAfterCleanupNotifies(Step(s, events[0]), events[1..]);
    }
  }

  /**
   * Each notification overwrites `timeoutId`, so the cleanup clears only the
   * newest timer; every older timer still pending stays pending.
   */
  lemma CleanupClearsOnlyNewestTimer(s: Session)
    requires Consistent(s) && s.subscribed
    ensures Step(s, Cleanup).pending == set id | id in s.pending && id != s.nextTimer - 1
    ensures forall id :: id in s.pending && id < s.nextTimer - 1 ==> id in Step(s, Cleanup).pending
  {
  }

  /**
   * Two notifications and then the cleanup: the first timer survives and,
   * when it fires, still sets `loading` to false.
   */
  lemma OlderTimerOutlivesCleanup(u1: Option<User>, u2: Option<User>)
    ensures Run([Notify(u1), Notify(u2), Cleanup]).pending == {1}
    ensures !Run([Notify(u1), Notify(u2), Cleanup, TimerFire(1)]).loading
  {
    var s1 := Step(Init, Notify(u1));
    var s2 := Step(s1, Notify(u2));
    var s3 := Step(s2, Cleanup);
    var s4 := Step(s3, TimerFire(1));
    assert s3.pending == {1} && !s4.loading;
    var three := [Notify(u1), Notify(u2), Cleanup];
    assert RunFrom(s3, []) == s3;
    assert RunFrom(s2, three[2..]) == s3 by { assert three[2..][1..] == []; }
    assert RunFrom(s1, three[1..]) == s3 by { assert three[1..][1..] == three[2..]; }
    assert Run(three) == s3;
    var four := [Notify(u1), Notify(u2), Cleanup, TimerFire(1)];
    assert RunFrom(s4, []) == s4;
    assert RunFrom(s3, four[3..]) == s4 by { assert four[3..][1..] == []; }
    assert RunFrom(s2, four[2..]) == s4 by { assert four[2..][1..] == four[3..]; }
    assert RunFrom(s1, four[1..]) == s4 by { assert four[1..][1..] == four[2..]; }
    assert Run(four) == s4;
  }

  /** The listener is removed once, by the first cleanup, and never again. */
  lemma {:induction false} UnsubscribedOnce(s: Session, events: seq<Event>)
    requires Consistent(s)
    ensures RunFrom(s, events).unsubscribeCalls == if s.subscribed && Cleanup in events then 1 else s.unsubscribeCalls
    decreases |events|
  {
    if events != [] {
      StepConsistent(s, events[0]);
      UnsubscribedOnce(Step(s, events[0]), events[1..]);
      assert Cleanup in events <==> events[0] == Cleanup || Cleanup in events[1..];
    }
  }

  class AuthProvider {
    var user: Option<User>
    var loading: bool
    var subscribed: bool
    var unsubscribeCalls: nat
    var timeoutId: Option<nat>
    var pending: set<nat>
    var nextTimer: nat

    function State(): Session
      reads this
    {
      Session(user, loading, subscribed, unsubscribeCalls, timeoutId, pending, nextTimer)
    }

    /** `useState(null)`, `useState(true)`, and the effect installing the listener. */
    constructor ()
      ensures State() == Init
    {
      user, loading := None, true;
      subscribed, unsubscribeCalls := true, 0;
      timeoutId, pending, nextTimer := None, {}, 1;
    }

    /** The value given to `AuthContext.Provider`. */
    function Exposed(): (v: ContextValue)
      reads this
      ensures v == Value(State())
    {
      ContextValue(user, loading)
    }

    /**
     * The `onAuthStateChanged` callback: `setUser(u)`, then a new timer
     * whose id overwrites `timeoutId`; earlier timers are not cleared.
     */
    method OnAuthStateChanged(u: Option<User>)
      modifies this
      ensures State() == Step(old(State()), Notify(u))
    {
      if subscribed {
        user := u;
        timeoutId := Some(nextTimer);
        pending := pending + {nextTimer};
        nextTimer := nextTimer + 1;
      }
    }

    /** A pending timer reaches its delay and runs `setLoading(false)`. */
    method TimerFired(id: nat)
      modifies this
      ensures State() == Step(old(State()), TimerFire(id))
    {
      if id in pending {
        pending := pending - {id};
        loading := false;
      }
    }

    /** The effect's cleanup: `unsubscribe()`, then `clearTimeout(timeoutId)` if one was set. */
    method CleanupEffect()
      modifies this
      ensures State() == Step(old(State()), Cleanup)
    {
      if subscribed {
        subscribed := false;
        unsubscribeCalls := unsubscribeCalls + 1;
        if timeoutId.Some? {
          pending := pending - {timeoutId.value};
        }
      }
    }
  }
}
