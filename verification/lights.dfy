/** The traffic-light timer: a three-state cyclic machine RED(4) -> GREEN(8)
    -> YELLOW(2) -> RED, driven by a tick counter that is reset on every
    transition. */
module Lights {
  import opened Common

  /** The state a light carries: its colour and the ticks spent in it. */
  datatype Signal = Signal(state: LightColor, tickCounter: nat)

  /** Ticks a light stays in each colour. */
  function Duration(c: LightColor): nat
  {
    match c
    case Red => 4
    case Green => 8
    case Yellow => 2
  }

  /** The colour that follows `c` in the cycle. */
  function NextColor(c: LightColor): LightColor
  {
    match c
    case Red => Green
    case Green => Yellow
    case Yellow => Red
  }

  /** One call of the light's update: count the tick, then change colour
      once the colour's duration is reached. */
  function LightUpdate(s: Signal): (r: Signal)
    ensures r.state == s.state || r.state == NextColor(s.state)
    ensures r.state != s.state <==> s.tickCounter + 1 >= Duration(s.state)
    ensures r.state != s.state ==> r.tickCounter == 0
    ensures r.state == s.state ==> r.tickCounter == s.tickCounter + 1
    ensures r.tickCounter < Duration(r.state)
  {
    var counter := s.tickCounter + 1;
    if s.state == Red && counter >= 4 then Signal(Green, 0)
    else if s.state == Green && counter >= 8 then Signal(Yellow, 0)
    else if s.state == Yellow && counter >= 2 then Signal(Red, 0)
    else Signal(s.state, counter)
  }

  /** `n` successive updates. */
  function Updates(s: Signal, n: nat): Signal
    decreases n
  {
    if n == 0 then s else Updates(LightUpdate(s), n - 1)
  }

  /** A signal whose counter has not passed its colour's duration; every
      signal is in the cycle after its first update. */
  predicate InCycle(s: Signal)
  {
    s.tickCounter < Duration(s.state)
  }

  /** Where in the 14-tick cycle a signal stands. */
  function Phase(s: Signal): int
  {
    match s.state
    case Red => s.tickCounter
    case Green => 4 + s.tickCounter
    case Yellow => 12 + s.tickCounter
  }

  lemma PhaseInRange(s: Signal)
    requires InCycle(s)
    ensures 0 <= Phase(s) < 14
  {
  }

  /** On the cycle a signal is determined by its phase. */
  lemma PhaseInjective(a: Signal, b: Signal)
    requires InCycle(a) && InCycle(b) && Phase(a) == Phase(b)
    ensures a == b
  {
  }

  /** One update advances the phase by one tick, modulo the 14-tick cycle. */
  lemma UpdateAdvancesPhase(s: Signal)
    requires InCycle(s)
    ensures InCycle(LightUpdate(s))
    ensures Phase(LightUpdate(s)) == (Phase(s) + 1) % 14
  {
  }

  /** Stepping once and then n - 1 more times on the 14-tick cycle. */
  lemma PhaseStep(a: int, n: nat)
    requires 0 <= a < 14 && n > 0
    ensures ((a + 1) % 14 + (n - 1)) % 14 == (a + n) % 14
  {
    if a == 13 {
      assert (a + 1) % 14 == 0;
      assert a + n == (n - 1) + 14;
    } else {
      assert (a + 1) % 14 == a + 1;
    }
  }

  lemma {:induction false} UpdatesAdvancePhase(s: Signal, n: nat)
    requires InCycle(s)
    ensures InCycle(Updates(s, n))
    ensures Phase(Updates(s, n)) == (Phase(s) + n) % 14
    decreases n
  {
    if n > 0 {
      var t := LightUpdate(s);
      assert Updates(s, n) == Updates(t, n - 1);
      UpdateAdvancesPhase(s);
      UpdatesAdvancePhase(t, n - 1);
      PhaseInRange(s);
      PhaseStep(Phase(s), n);
    }
  }

  /** Whole cycles leave a phase where it was. */
  lemma {:induction false} WholeCycles(a: int, m: nat)
    requires 0 <= a < 14
    ensures (a + 14 * m) % 14 == a
    decreases m
  {
    if m > 0 {
      WholeCycles(a, m - 1);
      var b := a + 14 * (m - 1);
      assert a + 14 * m == b + 14;
      assert (b + 14) % 14 == b % 14;
    }
  }

  /** The cycle wraps: any multiple of 14 updates brings a signal on the
      cycle back to itself. */
  lemma CycleHasPeriod14(s: Signal, m: nat)
    requires InCycle(s)
    ensures Updates(s, 14 * m) == s
  {
    var n := 14 * m;
    UpdatesAdvancePhase(s, n);
    PhaseInRange(s);
    WholeCycles(Phase(s), m);
    PhaseInjective(Updates(s, n), s);
  }

  /** From (RED, 0): GREEN after 4 updates, YELLOW after 12, RED again after 14. */
  lemma CycleFromRed()
    ensures Updates(Signal(Red, 0), 3) == Signal(Red, 3)
    ensures Updates(Signal(Red, 0), 4) == Signal(Green, 0)
    ensures Updates(Signal(Red, 0), 11) == Signal(Green, 7)
    ensures Updates(Signal(Red, 0), 12) == Signal(Yellow, 0)
    ensures Updates(Signal(Red, 0), 13) == Signal(Yellow, 1)
    ensures Updates(Signal(Red, 0), 14) == Signal(Red, 0)
  {
    var s := Signal(Red, 0);
    UpdatesAdvancePhase(s, 3);
    PhaseInjective(Updates(s, 3), Signal(Red, 3));
    UpdatesAdvancePhase(s, 4);
    PhaseInjective(Updates(s, 4), Signal(Green, 0));
    UpdatesAdvancePhase(s, 11);
    PhaseInjective(Updates(s, 11), Signal(Green, 7));
    UpdatesAdvancePhase(s, 12);
    PhaseInjective(Updates(s, 12), Signal(Yellow, 0));
    UpdatesAdvancePhase(s, 13);
    PhaseInjective(Updates(s, 13), Signal(Yellow, 1));
    CycleHasPeriod14(s, 1);
  }

  /** A light as the source keeps it: a mutable colour and tick counter. */
  class TrafficLight {
    var state: LightColor
    var tickCounter: nat

    function Snapshot(): Signal
      reads this
    {
      Signal(state, tickCounter)
    }

    /** A new light is RED with the given (randomly chosen) starting count. */
    constructor (startCounter: nat)
      ensures Snapshot() == Signal(Red, startCounter)
    {
      state := Red;
      tickCounter := startCounter;
    }

    method Update()
      modifies this
      ensures Snapshot() == LightUpdate(old(Snapshot()))
      ensures InCycle(Snapshot())
    {
      tickCounter := tickCounter + 1;
      if state == Red && tickCounter >= 4 {
        state := Green;
        tickCounter := 0;
      } else if state == Green && tickCounter >= 8 {
        state := Yellow;
        tickCounter := 0;
      } else if state == Yellow && tickCounter >= 2 {
        state := Red;
        tickCounter := 0;
      }
    }
  }
}
