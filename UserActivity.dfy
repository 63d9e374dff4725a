/**
 * The presence tracker (`useUserActivity`): it reports the user active at most
 * once every five minutes, or again after they came back from being inactive,
 * and reports them inactive when two minutes pass without an interaction.
 *
 * Time is an explicit parameter in milliseconds. The single pending timeout is
 * a `Timer` holding its deadline and the `user` and `isActive` values its
 * callback closed over when it was armed. The effect re-runs whenever
 * `isActive` or the user changes; an event followed by that re-run is `Settle`.
 */
module UserActivity {
  import opened Common

  /** Two minutes without an interaction make the user inactive. */
  const InactiveTimeoutMs := 60000 * 2
  /** The user is reported active again at most once every five minutes. */
  const ActiveDelayMs := 60000 * 5

  /** A pending timeout: its deadline and what its callback sees. */
  datatype Timer = Timer(deadline: int, seesUser: bool, seesActive: bool)

  /**
   * The tracker's state: whether the user is non-empty, the `isActive` state,
   * and the `lastUpdateTime`, `wasRecentlyInactive` and `timeoutRef` refs.
   */
  datatype Presence = Presence(hasUser: bool, isActive: bool, lastUpdateTime: Option<int>,
                               wasRecentlyInactive: bool, timer: Option<Timer>)

  /** A new state and the values passed to `onUserActive`, in order. */
  datatype Step = Step(next: Presence, emitted: seq<bool>)

  /** The state of a freshly mounted tracker, before its first effect run. */
  function Initial(hasUser: bool): Presence {
    Presence(hasUser, false, None, false, None)
  }

  /** `Date.now() - lastUpdateTime.current`, where a null time counts as 0. */
  function Elapsed(s: Presence, now: int): int {
    now - (if s.lastUpdateTime.Some? then s.lastUpdateTime.value else 0)
  }

  /** The condition under which `resetActivity` reports the user active. */
  predicate ShouldActivate(s: Presence, now: int) {
    s.hasUser && (Elapsed(s, now) >= ActiveDelayMs || (!s.isActive && !s.wasRecentlyInactive))
  }

  /**
   * `resetActivity`: reports the user active when due (and then records the
   * time and clears the flag), and replaces any pending timer with one two
   * minutes ahead whose callback sees the current user and `isActive`.
   */
  function Reset(s: Presence, now: int): (r: Step)
    ensures r.emitted == [] || r.emitted == [true]
    ensures r.emitted == [true] <==> ShouldActivate(s, now)
    ensures r.next.timer == Some(Timer(now + InactiveTimeoutMs, s.hasUser, s.isActive))
    ensures r.next.hasUser == s.hasUser
    ensures ShouldActivate(s, now) ==>
      r.next.isActive && r.next.lastUpdateTime == Some(now) && !r.next.wasRecentlyInactive
    ensures !ShouldActivate(s, now) ==> r.next == s.(timer := r.next.timer)
  {
    var s1 := if ShouldActivate(s, now)
      then s.(lastUpdateTime := Some(now), isActive := true, wasRecentlyInactive := false)
      else s;
    var emitted := if ShouldActivate(s, now) then [true] else [];
    Step(s1.(timer := Some(Timer(now + InactiveTimeoutMs, s.hasUser, s.isActive))), emitted)
  }

  /**
   * The timeout callback at its deadline: if it saw a user who was active, it
   * records the time, reports the user inactive and sets the flag. Either way
   * no timer is pending afterwards.
   */
  function Fire(s: Presence): (r: Step)
    requires s.timer.Some?
    ensures r.emitted == [] || r.emitted == [false]
    ensures r.emitted == [false] <==> s.timer.value.seesUser && s.timer.value.seesActive
    ensures r.next.timer == None && r.next.hasUser == s.hasUser
    ensures r.emitted == [false] ==>
      !r.next.isActive && r.next.wasRecentlyInactive && r.next.lastUpdateTime == Some(s.timer.value.deadline)
    ensures r.emitted == [] ==> r.next == s.(timer := None)
  {
    var t := s.timer.value;
    if t.seesUser && t.seesActive then
      Step(s.(lastUpdateTime := Some(t.deadline), isActive := false, wasRecentlyInactive := true, timer := None), [false])
    else
      Step(s.(timer := None), [])
  }

  /** `userInteractionHandler`: clears the flag, then resets. */
  function Interaction(s: Presence, now: int): (r: Step)
    ensures r == Reset(s.(wasRecentlyInactive := false), now)
    ensures s.hasUser && !s.isActive ==> r.emitted == [true]
  {
    Reset(s.(wasRecentlyInactive := false), now)
  }

  /** The effect's cleanup: the pending timer is cancelled. */
  function Cleanup(s: Presence): (r: Presence)
    ensures r.timer == None
    ensures r.(timer := s.timer) == s
  {
    s.(timer := None)
  }

  /** A re-run of the effect: cleanup, then `resetActivity` without clearing the flag. */
  function Rerun(s: Presence, now: int): Step {
    Reset(Cleanup(s), now)
  }

  /**
   * An event followed by the renders it causes: when it changed `isActive`,
   * the effect re-runs once. That re-run never reports anything, so no
   * further re-run follows.
   */
  function Settle(before: Presence, st: Step, now: int): (r: Step)
    requires st.next.isActive != before.isActive ==>
      st.next.lastUpdateTime == Some(now) && (st.next.isActive || st.next.wasRecentlyInactive)
    ensures r.emitted == st.emitted
    ensures r.next.isActive == st.next.isActive && r.next.hasUser == st.next.hasUser
    ensures r.next.timer.Some?
      || (st.next.isActive == before.isActive && r.next.timer == st.next.timer)
  {
    if st.next.isActive != before.isActive then
      var again := Rerun(st.next, now);
      assert Elapsed(Cleanup(st.next), now) == 0;
      Step(again.next, st.emitted + again.emitted)
    else st
  }

  /** The first effect run after mounting. */
  function Mount(hasUser: bool, now: int): (r: Step)
    ensures r.emitted == (if hasUser then [true] else [])
    ensures r.next.isActive == hasUser && r.next.timer.Some?
  {
    Settle(Initial(hasUser), Reset(Initial(hasUser), now), now)
  }

  /** A mouse move, key press or scroll at `now`. */
  function OnInteraction(s: Presence, now: int): (r: Step) {
    Settle(s, Interaction(s, now), now)
  }

  /** The pending timer reaching its deadline. */
  function OnTimer(s: Presence): (r: Step)
    requires s.timer.Some?
  {
    Settle(s, Fire(s), s.timer.value.deadline)
  }

  /** The user changing: the effect re-runs with the new user. */
  function OnUserChange(s: Presence, hasUser: bool, now: int): (r: Step) {
    var st := Rerun(s.(hasUser := hasUser), now);
    Settle(s, st, now)
  }

  /** Every pending timer sees the current user: changing the user re-arms it. */
  predicate TimerSeesUser(s: Presence) {
    s.timer.Some? ==> s.timer.value.seesUser == s.hasUser
  }

  // ---------------------------------------------------------------------------
  // Properties
  // ---------------------------------------------------------------------------

  /** With a user, the first reset reports them active: nothing was recorded yet. */
  lemma FirstResetEmits(now: int)
    ensures Reset(Initial(true), now).emitted == [true]
    ensures Mount(true, now).emitted == [true]
  {
  }

  /** Every event keeps the pending timer in step with the user. */
  lemma TimerSeesUserPreserved(s: Presence, hasUser: bool, now: int)
    requires TimerSeesUser(s)
    ensures TimerSeesUser(OnInteraction(s, now).next)
    ensures s.timer.Some? ==> TimerSeesUser(OnTimer(s).next)
    ensures TimerSeesUser(OnUserChange(s, hasUser, now).next)
    ensures TimerSeesUser(Mount(hasUser, now).next)
  {
  }

  /** With an empty user nothing is ever reported and `isActive` never changes. */
  lemma NoUserInert(s: Presence, now: int)
    requires !s.hasUser && TimerSeesUser(s)
    ensures OnInteraction(s, now).emitted == [] && OnInteraction(s, now).next.isActive == s.isActive
    ensures s.timer.Some? ==> OnTimer(s).emitted == [] && OnTimer(s).next.isActive == s.isActive
    ensures !OnInteraction(s, now).next.hasUser
  {
  }

  /** The timer reports an active user inactive and arms the flag against instant reactivation. */
  lemma TimerReportsInactive(s: Presence)
    requires s.timer.Some? && s.timer.value.seesUser && s.timer.value.seesActive && s.isActive
    ensures var r := OnTimer(s);
            r.emitted == [false] && !r.next.isActive && r.next.wasRecentlyInactive &&
            r.next.lastUpdateTime == Some(s.timer.value.deadline)
  {
  }

  /** The first real interaction after going inactive reports the user active again. */
  lemma InteractionAfterInactiveEmits(s: Presence, now: int)
    requires s.hasUser && !s.isActive && s.wasRecentlyInactive
    ensures OnInteraction(s, now).emitted == [true] && OnInteraction(s, now).next.isActive
  {
  }

  /** The re-run that follows going inactive, within five minutes, reports nothing. */
  lemma RerunAfterInactiveSilent(s: Presence, now: int)
    requires !s.isActive && s.wasRecentlyInactive
    requires s.lastUpdateTime.Some? && now - s.lastUpdateTime.value < ActiveDelayMs
    ensures Rerun(s, now).emitted == [] && !Rerun(s, now).next.isActive
  {
  }

  /** While active, interactions less than five minutes after the last report report nothing. */
  lemma ActiveInteractionSilent(s: Presence, now: int)
    requires s.isActive && s.lastUpdateTime.Some? && now - s.lastUpdateTime.value < ActiveDelayMs
    ensures OnInteraction(s, now).emitted == [] && OnInteraction(s, now).next.isActive
    ensures OnInteraction(s, now).next.lastUpdateTime == s.lastUpdateTime
  {
  }

  /** While active, an interaction five minutes or more after the last report reports the user again. */
  lemma ActiveRefresh(s: Presence, now: int)
    requires s.hasUser && s.isActive && s.lastUpdateTime.Some? && now - s.lastUpdateTime.value >= ActiveDelayMs
    ensures OnInteraction(s, now).emitted == [true] && OnInteraction(s, now).next.lastUpdateTime == Some(now)
  {
  }

  /**
   * Mount with a user, let the timer fire, then interact: the tracker reports
   * active, inactive, active. After the mount's re-run the timer sees the user active.
   */
  lemma {:induction false} ActiveInactiveActive(mountAt: int, later: int)
    ensures var m := Mount(true, mountAt);
            m.next.timer == Some(Timer(mountAt + InactiveTimeoutMs, true, true)) &&
            var t := OnTimer(m.next);
            t.emitted == [false] && OnInteraction(t.next, later).emitted == [true]
  {
    var m := Mount(true, mountAt);
    TimerReportsInactive(m.next);
    InteractionAfterInactiveEmits(OnTimer(m.next).next, later);
  }

  // ---------------------------------------------------------------------------
  // The hook's refs and state, updated in place
  // ---------------------------------------------------------------------------

  class Tracker {
    var hasUser: bool
    var isActive: bool
    var lastUpdateTime: Option<int>
    var wasRecentlyInactive: bool
    var timeoutRef: Option<Timer>

    function State(): Presence
      reads this
    {
      Presence(hasUser, isActive, lastUpdateTime, wasRecentlyInactive, timeoutRef)
    }

    /** A tracker mounted for a user or for none, after its first effect run. */
    constructor (hasUser: bool, now: int)
      ensures State() == Mount(hasUser, now).next
    {
      this.hasUser := hasUser;
      isActive := false;
      lastUpdateTime := None;
      wasRecentlyInactive := false;
      timeoutRef := None;
      new;
      var _ := ResetActivity(now);
      if isActive {
        // `isActive` changed: the effect re-runs
        timeoutRef := None;
        var _ := ResetActivity(now);
      }
    }

    /** `resetActivity` at `now`, returning what it reported. */
    method ResetActivity(now: int) returns (emitted: seq<bool>)
      modifies this
      ensures State() == Reset(old(State()), now).next
      ensures emitted == Reset(old(State()), now).emitted
    {
      emitted := [];
      var difference := now - (if lastUpdateTime.Some? then lastUpdateTime.value else 0);
      if hasUser && (difference >= ActiveDelayMs || (!isActive && !wasRecentlyInactive)) {
        var wasActive := isActive;
        lastUpdateTime := Some(now);
        isActive := true;
        emitted := [true];
        wasRecentlyInactive := false;
        timeoutRef := Some(Timer(now + InactiveTimeoutMs, hasUser, wasActive));
      } else {
        timeoutRef := Some(Timer(now + InactiveTimeoutMs, hasUser, isActive));
      }
    }

    /** The effect re-running after `isActive` changed: cleanup, then reset. */
    method RerunEffect(now: int) returns (emitted: seq<bool>)
      modifies this
      ensures State() == Rerun(old(State()), now).next
      ensures emitted == Rerun(old(State()), now).emitted
    {
      timeoutRef := None;
      emitted := ResetActivity(now);
    }

    /** A mouse move, key press or scroll, with the re-run it causes. */
    method Interact(now: int) returns (emitted: seq<bool>)
      modifies this
      ensures State() == OnInteraction(old(State()), now).next
      ensures emitted == OnInteraction(old(State()), now).emitted
    {
      var wasActive := isActive;
      wasRecentlyInactive := false;
      emitted := ResetActivity(now);
      if isActive != wasActive {
        var more := RerunEffect(now);
        emitted := emitted + more;
      }
    }

    /** The pending timer reaching its deadline, with the re-run it causes. */
    method TimerFires() returns (emitted: seq<bool>)
      requires timeoutRef.Some?
      modifies this
      ensures State() == OnTimer(old(State())).next
      ensures emitted == OnTimer(old(State())).emitted
    {
      var t := timeoutRef.value;
      var wasActive := isActive;
      timeoutRef := None;
      emitted := [];
      if t.seesUser && t.seesActive {
        lastUpdateTime := Some(t.deadline);
        isActive := false;
        emitted := [false];
        wasRecentlyInactive := true;
      }
      if isActive != wasActive {
        var more := RerunEffect(t.deadline);
        emitted := emitted + more;
      }
    }

    /** Unmounting: the cleanup cancels the pending timer. */
    method Unmount()
      modifies this
      ensures State() == Cleanup(old(State()))
    {
      timeoutRef := None;
    }
  }
}
