/** The breathing-phase timer of the breathing guide: a pattern of timed
    phases, a countdown that loses one second per tick, and an advance to the
    next phase (wrapping to the first) when the countdown has run out. */
module Breathing {
  import Cyclic

  /** One stage of a breathing pattern; its duration is in seconds. */
  datatype BreathPhase = BreathPhase(name: string, duration: int)

  datatype BreathingPattern = BreathingPattern(name: string, phases: seq<BreathPhase>)

  /** The keys of the pattern catalogue. */
  datatype PatternKey = Basic | Krishna | Kali

  /** The shipped pattern catalogue. */
  function PatternOf(key: PatternKey): BreathingPattern
  {
    match key
    case Basic => BreathingPattern("Basic Pranayama",
      [BreathPhase("Inhale", 4), BreathPhase("Hold", 4), BreathPhase("Exhale", 4), BreathPhase("Hold", 4)])
    case Krishna => BreathingPattern("Krishna Consciousness",
      [BreathPhase("Inhale", 6), BreathPhase("Hold", 2), BreathPhase("Exhale", 6), BreathPhase("Hold", 2)])
    case Kali => BreathingPattern("Kali Transformation",
      [BreathPhase("Inhale", 5), BreathPhase("Hold", 3), BreathPhase("Exhale", 7), BreathPhase("Hold", 1)])
  }

  /** A pattern the timer can cycle through: at least one phase, every
      duration positive. */
  predicate WellFormed(phases: seq<BreathPhase>)
  {
    |phases| > 0 && forall i :: 0 <= i < |phases| ==> phases[i].duration > 0
  }

  /** Every shipped pattern is well formed and has exactly four phases. */
  lemma CatalogueWellFormed(key: PatternKey)
    ensures WellFormed(PatternOf(key).phases)
    ensures |PatternOf(key).phases| == 4
  {
  }

  // ---------------------------------------------------------------------
  // The timer's four state cells and their transitions, as values.
  // ---------------------------------------------------------------------

  datatype TimerState = TimerState(active: bool, phase: nat, timeLeft: int, cycles: nat)

  /** The state before the first start: inactive, phase 0, nothing left. */
  const Initial := TimerState(false, 0, 0, 0)

  /** `startBreathing`: active, phase 0 with its full duration, no cycles. */
  function Started(phases: seq<BreathPhase>): TimerState
    requires |phases| > 0
  {
    TimerState(true, 0, phases[0].duration, 0)
  }

  /** `stopBreathing`, and also the timer part of switching patterns:
      inactive and nothing left, phase and cycle count kept. */
  function Stopped(s: TimerState): TimerState
  {
    s.(active := false, timeLeft := 0)
  }

  /** The pending one-second timeout firing. A timeout is pending only while
      the timer is active with time left; otherwise a second passes unseen. */
  function Ticked(s: TimerState): TimerState
  {
    if s.active && s.timeLeft > 0 then s.(timeLeft := s.timeLeft - 1) else s
  }

  /** The effect's immediate branch: once active with no time left, move to
      the next phase, reload its duration, and count a cycle on wrapping. */
  function Advanced(phases: seq<BreathPhase>, s: TimerState): TimerState
    requires |phases| > 0
  {
    if s.active && s.timeLeft <= 0 then
      var next := Cyclic.Next(s.phase, |phases|);
      TimerState(true, next, phases[next].duration, if next == 0 then s.cycles + 1 else s.cycles)
    else
      s
  }

  /** One elapsed second: the timeout fires, then the effect reacts. */
  function Second(phases: seq<BreathPhase>, s: TimerState): TimerState
    requires |phases| > 0
  {
    Advanced(phases, Ticked(s))
  }

  /** `n` elapsed seconds. */
  function Run(phases: seq<BreathPhase>, s: TimerState, n: nat): TimerState
    requires |phases| > 0
    decreases n
  {
    if n == 0 then s else Run(phases, Second(phases, s), n - 1)
  }

  /** Total duration of the phases from index `i` on. */
  function SumFrom(phases: seq<BreathPhase>, i: nat): int
    decreases |phases| - i
  {
    if i >= |phases| then 0 else phases[i].duration + SumFrom(phases, i + 1)
  }

  /** Length in seconds of one full cycle of the pattern. */
  function CycleLength(phases: seq<BreathPhase>): (r: int)
    ensures WellFormed(phases) ==> r >= |phases|
  {
    SumFromBound(phases, 0);
    SumFrom(phases, 0)
  }

  lemma {:induction false} SumFromBound(phases: seq<BreathPhase>, i: nat)
    requires i <= |phases|
    ensures WellFormed(phases) ==> SumFrom(phases, i) >= |phases| - i
    decreases |phases| - i
  {
    if i < |phases| {
      SumFromBound(phases, i + 1);
    }
  }

  // ---------------------------------------------------------------------
  // The invariant: the phase index is in range and the countdown is
  // bounded by the current phase's duration (and is zero while inactive).
  // ---------------------------------------------------------------------

  ghost predicate Inv(phases: seq<BreathPhase>, s: TimerState)
  {
    && s.phase < |phases|
    && 0 <= s.timeLeft <= phases[s.phase].duration
    && (!s.active ==> s.timeLeft == 0)
  }

  /** The state is settled: no advance is due, so the effect is waiting for
      the next second (or nothing at all, when inactive). */
  predicate Settled(s: TimerState)
  {
    s.active ==> s.timeLeft > 0
  }

  lemma InitialInv(phases: seq<BreathPhase>)
    requires WellFormed(phases)
    ensures Inv(phases, Initial) && Settled(Initial)
  {
  }

  lemma StartedInv(phases: seq<BreathPhase>)
    requires WellFormed(phases)
    ensures Inv(phases, Started(phases)) && Settled(Started(phases))
  {
  }

  lemma StoppedInv(phases: seq<BreathPhase>, s: TimerState)
    requires WellFormed(phases) && Inv(phases, s)
    ensures Inv(phases, Stopped(s)) && Settled(Stopped(s))
  {
  }

  /** Switching to another pattern keeps the invariant because the phase
      index is kept and still in range only when the other pattern has at
      least as many phases. */
  lemma SwitchedInv(from: seq<BreathPhase>, to: seq<BreathPhase>, s: TimerState)
    requires WellFormed(to) && Inv(from, s)
    requires |from| <= |to|
    ensures Inv(to, Stopped(s)) && Settled(Stopped(s))
  {
  }

  lemma TickedInv(phases: seq<BreathPhase>, s: TimerState)
    requires WellFormed(phases) && Inv(phases, s)
    ensures Inv(phases, Ticked(s))
  {
  }

  lemma AdvancedInv(phases: seq<BreathPhase>, s: TimerState)
    requires WellFormed(phases) && Inv(phases, s)
    ensures Inv(phases, Advanced(phases, s)) && Settled(Advanced(phases, s))
  {
  }

  /** With positive durations, one elapsed second triggers at most one
      advance: after it the effect has nothing further to do at once. */
  lemma SecondSettles(phases: seq<BreathPhase>, s: TimerState)
    requires WellFormed(phases) && Inv(phases, s)
    ensures Inv(phases, Second(phases, s)) && Settled(Second(phases, s))
    ensures Advanced(phases, Second(phases, s)) == Second(phases, s)
  {
    TickedInv(phases, s);
    AdvancedInv(phases, Ticked(s));
  }

  lemma {:induction false} RunInv(phases: seq<BreathPhase>, s: TimerState, n: nat)
    requires WellFormed(phases) && Inv(phases, s)
    ensures Inv(phases, Run(phases, s, n))
    decreases n
  {
    if n > 0 {
      SecondSettles(phases, s);
      RunInv(phases, Second(phases, s), n - 1);
    }
  }

  // ---------------------------------------------------------------------
  // Single steps, stated as the component promises them.
  // ---------------------------------------------------------------------

  /** While inactive, neither a decrement nor an advance happens. */
  lemma InactiveIsFrozen(phases: seq<BreathPhase>, s: TimerState)
    requires |phases| > 0 && !s.active
    ensures Ticked(s) == s && Advanced(phases, s) == s && Second(phases, s) == s
  {
  }

  /** While active with time left, a second takes exactly one off the
      countdown and leaves phase and cycle count alone (it advances as well
      exactly when that second was the last one). */
  lemma TickDecrements(phases: seq<BreathPhase>, s: TimerState)
    requires |phases| > 0 && s.active && s.timeLeft > 0
    ensures Ticked(s) == TimerState(true, s.phase, s.timeLeft - 1, s.cycles)
    ensures s.timeLeft > 1 ==> Second(phases, s) == Ticked(s)
  {
  }

  /** While active with no time left, the advance moves to the wrapped next
      phase, reloads its duration, and counts a cycle exactly on wrapping. */
  lemma AdvanceMoves(phases: seq<BreathPhase>, s: TimerState)
    requires |phases| > 0 && s.active && s.timeLeft <= 0 && s.phase < |phases|
    ensures var r := Advanced(phases, s);
      && r.active
      && r.phase == (if s.phase == |phases| - 1 then 0 else s.phase + 1)
      && r.timeLeft == phases[r.phase].duration
      && r.cycles == (if r.phase == 0 then s.cycles + 1 else s.cycles)
  {
  }

  // ---------------------------------------------------------------------
  // Runs of several seconds.
  // ---------------------------------------------------------------------

  lemma {:induction false} RunAdd(phases: seq<BreathPhase>, s: TimerState, a: nat, b: nat)
    requires |phases| > 0
    ensures Run(phases, s, a + b) == Run(phases, Run(phases, s, a), b)
    decreases a
  {
    if a > 0 {
      RunAdd(phases, Second(phases, s), a - 1, b);
    }
  }

  /** After a stop, no number of elapsed seconds changes anything. */
  lemma {:induction false} StoppedStaysFrozen(phases: seq<BreathPhase>, s: TimerState, n: nat)
    requires |phases| > 0
    ensures Run(phases, Stopped(s), n) == Stopped(s)
    decreases n
  {
    if n > 0 {
      assert Second(phases, Stopped(s)) == Stopped(s);
      StoppedStaysFrozen(phases, s, n - 1);
    }
  }

  /** Counting down `t` seconds in one phase ends with that phase's advance. */
  lemma {:induction false} CountdownThenAdvance(phases: seq<BreathPhase>, i: nat, t: int, c: nat)
    requires |phases| > 0 && t > 0
    ensures Run(phases, TimerState(true, i, t, c), t) == Advanced(phases, TimerState(true, i, 0, c))
    decreases t
  {
    var s := TimerState(true, i, t, c);
    if t > 1 {
      assert Second(phases, s) == TimerState(true, i, t - 1, c);
      CountdownThenAdvance(phases, i, t - 1, c);
    }
  }

  /** From the start of phase `i`, the remaining phases take exactly their
      total duration, ending at the start of phase 0 with one more cycle. */
  lemma {:induction false} RestOfCycle(phases: seq<BreathPhase>, i: nat, c: nat)
    requires WellFormed(phases) && i < |phases|
    ensures SumFrom(phases, i) >= 0
    ensures Run(phases, TimerState(true, i, phases[i].duration, c), SumFrom(phases, i))
         == TimerState(true, 0, phases[0].duration, c + 1)
    decreases |phases| - i
  {
    var d := phases[i].duration;
    SumFromBound(phases, i + 1);
    RunAdd(phases, TimerState(true, i, d, c), d, SumFrom(phases, i + 1));
    CountdownThenAdvance(phases, i, d, c);
    if i + 1 < |phases| {
      RestOfCycle(phases, i + 1, c);
    }
  }

  /** From a fresh start, after exactly `k` times the cycle length in
      seconds the timer is back at the start of phase 0 with `k` cycles. */
  lemma {:induction false} FullCycles(phases: seq<BreathPhase>, k: nat)
    requires WellFormed(phases)
    ensures Run(phases, Started(phases), k * CycleLength(phases))
         == TimerState(true, 0, phases[0].duration, k)
  {
    if k > 0 {
      var len := CycleLength(phases);
      assert k * len == (k - 1) * len + len;
      RunAdd(phases, Started(phases), (k - 1) * len, len);
      FullCycles(phases, k - 1);
      RestOfCycle(phases, 0, k - 1);
    }
  }

  /** The one-cycle theorem: after the sum of all durations, phase 0 and
      one completed cycle. */
  lemma OneFullCycle(phases: seq<BreathPhase>)
    requires WellFormed(phases)
    ensures Run(phases, Started(phases), CycleLength(phases)) == TimerState(true, 0, phases[0].duration, 1)
  {
    FullCycles(phases, 1);
  }

  /** The basic 4-4-4-4 pattern: after 4 seconds phase 1 with 4 seconds left,
      after 16 seconds one cycle completed. */
  lemma BasicPatternExample()
    ensures Run(PatternOf(Basic).phases, Started(PatternOf(Basic).phases), 4) == TimerState(true, 1, 4, 0)
    ensures Run(PatternOf(Basic).phases, Started(PatternOf(Basic).phases), 16) == TimerState(true, 0, 4, 1)
  {
    var phases := PatternOf(Basic).phases;
    CountdownThenAdvance(phases, 0, 4, 0);
    assert CycleLength(phases) == 16;
    OneFullCycle(phases);
  }

  // ---------------------------------------------------------------------
  // The component, with its state cells as fields.
  // ---------------------------------------------------------------------

  class BreathingGuide {
    var selectedPattern: PatternKey
    var isActive: bool
    var currentPhase: nat
    var timeLeft: int
    var cyclesCompleted: nat

    /** The phases of the selected pattern. */
    function Phases(): seq<BreathPhase>
      reads this
    {
      PatternOf(selectedPattern).phases
    }

    function State(): TimerState
      reads this
    {
      TimerState(isActive, currentPhase, timeLeft, cyclesCompleted)
    }

    ghost predicate Valid()
      reads this
    {
      WellFormed(Phases()) && Inv(Phases(), State())
    }

    /** The phase being shown; the countdown never exceeds its duration. */
    function CurrentPhaseData(): (p: BreathPhase)
      reads this
      requires Valid()
      ensures p in Phases()
      ensures 0 <= timeLeft <= p.duration
    {
      Phases()[currentPhase]
    }

    constructor ()
      ensures Valid()
      ensures selectedPattern == Basic && State() == Initial
    {
      selectedPattern := Basic;
      isActive, currentPhase, timeLeft, cyclesCompleted := false, 0, 0, 0;
    }

    method Start()
      requires Valid()
      modifies this
      ensures Valid() && Settled(State())
      ensures isActive && currentPhase == 0 && timeLeft == Phases()[0].duration && cyclesCompleted == 0
      ensures selectedPattern == old(selectedPattern)
      ensures State() == Started(Phases())
    {
      isActive := true;
      currentPhase := 0;
      timeLeft := Phases()[0].duration;
      cyclesCompleted := 0;
      StartedInv(Phases());
    }

    method Stop()
      requires Valid()
      modifies this
      ensures Valid() && Settled(State())
      ensures !isActive && timeLeft == 0
      ensures currentPhase == old(currentPhase) && cyclesCompleted == old(cyclesCompleted)
      ensures selectedPattern == old(selectedPattern)
      ensures State() == Stopped(old(State()))
    {
      isActive := false;
      timeLeft := 0;
    }

    /** The pattern buttons: select the pattern and stop the timer, keeping
      the phase index and the cycle count. */
    method SwitchPattern(key: PatternKey)
      requires Valid()
      modifies this
      ensures Valid() && Settled(State())
      ensures selectedPattern == key && !isActive && timeLeft == 0
      ensures currentPhase == old(currentPhase) && cyclesCompleted == old(cyclesCompleted)
      ensures State() == Stopped(old(State()))
    {
      CatalogueWellFormed(selectedPattern);
      CatalogueWellFormed(key);
      SwitchedInv(Phases(), PatternOf(key).phases, State());
      selectedPattern := key;
      isActive := false;
      timeLeft := 0;
    }

    /** The one-second timeout firing. */
    method Tick()
      requires Valid()
      modifies this
      ensures Valid() && selectedPattern == old(selectedPattern)
      ensures State() == Ticked(old(State()))
      ensures old(isActive && timeLeft > 0) ==> timeLeft == old(timeLeft) - 1
      ensures currentPhase == old(currentPhase) && cyclesCompleted == old(cyclesCompleted)
      ensures isActive == old(isActive)
    {
      if isActive && timeLeft > 0 {
        timeLeft := timeLeft - 1;
      }
      TickedInv(Phases(), old(State()));
    }

    /** The effect's reaction to an exhausted countdown. */
    method Advance()
      requires Valid()
      modifies this
      ensures Valid() && Settled(State()) && selectedPattern == old(selectedPattern)
      ensures State() == Advanced(Phases(), old(State()))
      ensures old(isActive && timeLeft <= 0) ==>
        && currentPhase == Cyclic.Next(old(currentPhase), |Phases()|)
        && timeLeft == Phases()[currentPhase].duration
        && cyclesCompleted == (if currentPhase == 0 then old(cyclesCompleted) + 1 else old(cyclesCompleted))
      ensures !old(isActive && timeLeft <= 0) ==> State() == old(State())
    {
      if isActive && timeLeft <= 0 {
        var next := Cyclic.Next(currentPhase, |Phases()|);
        currentPhase := next;
        timeLeft := Phases()[next].duration;
        if next == 0 {
          cyclesCompleted := cyclesCompleted + 1;
        }
      }
      AdvancedInv(Phases(), old(State()));
    }

    /** One elapsed second: the timeout, then the effect's reaction to it. */
    method ElapseSecond()
      requires Valid()
      modifies this
      ensures Valid() && Settled(State()) && selectedPattern == old(selectedPattern)
      ensures State() == Second(Phases(), old(State()))
    {
      Tick();
      Advance();
    }
  }
}
