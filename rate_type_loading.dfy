/** The rate-type switching flag: every time the selected denomination takes
    effect the flag goes up and one 300 ms timer is scheduled to lower it; the
    previous timer is cancelled first, and the pending one on unmount. Time
    is not modelled: a timer firing is an event, and timers are numbered in
    the order they are scheduled. */
module RateTypeLoading {
  import opened ExchangeRate

  datatype LoadingState = LoadingState(
    selected: RateType,
    loading: bool,
    /** The timer still scheduled, if any. */
    pending: Option<nat>,
    /** The number the next scheduled timer gets. */
    nextTimer: nat,
    mounted: bool)

  datatype Event =
    /** A render with the given selection; the first one mounts the hook. */
    | Render(rateType: RateType)
    /** The timer with the given number runs out. */
    | Fire(timer: nat)
    | Unmount

  /** Before the first commit: the flag is false and nothing is scheduled. */
  function Initial(rateType: RateType): (s: LoadingState)
    ensures !s.loading && s.pending.None? && Inv(s)
  {
    LoadingState(rateType, false, None, 0, false)
  }

  /** The effect: raise the flag and schedule a fresh timer, which takes the
      place of the one its cleanup cancelled. */
  function RunEffect(s: LoadingState, rateType: RateType): (r: LoadingState)
    ensures r.loading && r.mounted && r.selected == rateType
    ensures r.pending == Some(s.nextTimer) && r.nextTimer == s.nextTimer + 1
  {
    LoadingState(rateType, true, Some(s.nextTimer), s.nextTimer + 1, true)
  }

  /** One event. Every event keeps the invariant, and timer numbers only
      grow. */
  function Step(s: LoadingState, e: Event): (r: LoadingState)
    ensures Inv(s) ==> Inv(r)
    ensures r.nextTimer >= s.nextTimer
  {
    match e
    case Render(t) =>
      if !s.mounted || t != s.selected then RunEffect(s, t) else s
    case Fire(id) =>
      if s.pending == Some(id) then s.(loading := false, pending := None) else s
    case Unmount =>
      s.(pending := None, mounted := false)
  }

  /** A sequence of events, in order. Every sequence keeps the invariant. */
  function Run(s: LoadingState, es: seq<Event>): (r: LoadingState)
    ensures Inv(s) ==> Inv(r)
    decreases |es|
  {
    if es == [] then s else Run(Step(s, es[0]), es[1..])
  }

  /** At most one timer is pending, it is one already numbered, and while the
      hook is mounted the flag is up exactly when a timer is pending. */
  predicate Inv(s: LoadingState) {
    && (s.pending.Some? ==> s.pending.value < s.nextTimer && s.mounted)
    && (s.mounted ==> (s.loading <==> s.pending.Some?))
  }

  // ---------------------------------------------------------------------
  // Properties

  /** A change of selection (and the first render) raises the flag and
      schedules a timer numbered after every earlier one; the previous
      timer is no longer pending. */
  lemma ChangeRaisesFlag(s: LoadingState, t: RateType)
    requires Inv(s)
    requires !s.mounted || t != s.selected
    ensures var r := Step(s, Render(t));
      && r.loading && r.selected == t
      && r.pending == Some(s.nextTimer)
      && (s.pending.Some? ==> s.pending.value < r.pending.value)
  {
  }

  /** A render with an unchanged selection changes nothing. */
  lemma SameSelectionNoEffect(s: LoadingState)
    requires s.mounted
    ensures Step(s, Render(s.selected)) == s
  {
  }

  /** A timer that is not the pending one - cancelled by a later change or
      by unmounting - has no effect when it fires. */
  lemma StaleTimerIgnored(s: LoadingState, id: nat)
    requires s.pending != Some(id)
    ensures Step(s, Fire(id)) == s
  {
  }

  /** The flag goes down only when the timer of the most recent change fires. */
  lemma FlagLoweredOnlyByLatestTimer(s: LoadingState, e: Event)
    requires Inv(s)
    requires s.loading && Step(s, e).mounted && !Step(s, e).loading
    ensures e.Fire? && s.pending == Some(e.timer)
  {
  }

  /** A timer scheduled before a change can never lower the flag the change
      raised, whatever happens in between short of that change's own timer
      firing. */
  lemma {:induction false} StaleTimerAfterChange(s: LoadingState, es: seq<Event>, stale: nat)
    requires Inv(s) && stale < s.nextTimer && s.pending != Some(stale)
    ensures Inv(Run(s, es))
    ensures Run(s, es).pending != Some(stale)
    decreases |es|
  {
    if es != [] {
      StaleTimerAfterChange(Step(s, es[0]), es[1..], stale);
    }
  }

  /** The hook as a stateful object: each event method moves its fields as
      `Step` does. */
  class LoadingFlag {
    var selected: RateType
    var loading: bool
    var pending: Option<nat>
    var nextTimer: nat
    var mounted: bool

    function State(): LoadingState
      reads this
    {
      LoadingState(selected, loading, pending, nextTimer, mounted)
    }

    constructor(rateType: RateType)
      ensures State() == Initial(rateType)
    {
      selected := rateType;
      loading := false;
      pending := None;
      nextTimer := 0;
      mounted := false;
    }

    /** The value the hook returns. */
    function RateTypeLoading(): (b: bool)
      reads this
      ensures Inv(State()) && mounted ==> (b <==> pending.Some?)
    {
      loading
    }

    method Render(rateType: RateType)
      modifies this
      ensures State() == Step(old(State()), Event.Render(rateType))
    {
      if !mounted || rateType != selected {
        selected := rateType;
        loading := true;
        pending := Some(nextTimer);
        nextTimer := nextTimer + 1;
        mounted := true;
      }
    }

    method TimerFired(id: nat)
      modifies this
      ensures State() == Step(old(State()), Fire(id))
    {
      if pending == Some(id) {
        loading := false;
        pending := None;
      }
    }

    method Unmount()
      modifies this
      ensures State() == Step(old(State()), Event.Unmount)
    {
      pending := None;
      mounted := false;
    }
  }
}
