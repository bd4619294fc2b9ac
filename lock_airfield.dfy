/**
 * Many planes against one LockAirport or MonitorAirport.
 *
 * Each plane follows Plane.run: an arrival requests a runway for landing and
 * then docks; a departure requests a runway for takeoff and then finishes the
 * takeoff. A plane moves by running its next critical section, which is
 * enabled only when that section's wait loop exits, or by being interrupted.
 * An interrupt in a wait makes the call return without its work, and Plane.run
 * then ends at its next Thread.sleep; an interrupt in a sleep ends it too. In
 * both cases the plane stops where it is, keeping whatever it holds.
 *
 * The counters are tied to the planes by conservation laws (`Invariant`),
 * which every move keeps.
 */
module LockAirfield {
  import Tally
  import LockVersion
  import MonitorVersion
  import opened Manager
  import Planes

  type Counters = LockVersion.Counters

  /** Which of the two lock-based backends runs the sections. */
  datatype Backend = Lock | Monitor

  /** Where a plane is in its run, as seen by the airport. */
  datatype Phase =
    | Approaching               // arrival, before requestRunwayForLanding
    | AwaitingRunway            // arrival registered in waitingArrivals, in the landing wait
    | OnRunway(arriving: bool)  // holds a runway: landed and not docked, or took off and not finished
    | Docked                    // arrival at its gate: its run is over
    | AtGate                    // departure, before the takeoff section
    | Departed                  // departure after finishTakeoff: its run is over
    | Gone                      // run ended by an interrupt, holding nothing
    | Stranded(arriving: bool)  // run ended by an interrupt while holding a runway
    | Leaked                    // run ended by an interrupt in the landing wait; still registered

  /** The section a move runs and the phase it leads to. */
  datatype Transition = Transition(section: LockVersion.Section, next: Phase) | NoTransition

  function PlaneTransition(p: Phase, m: Move): Transition
  {
    match p
    case Approaching =>
      // requestRunwayForLanding is entered with lock(), which no interrupt stops
      if m == Proceed then Transition(LockVersion.Register, AwaitingRunway) else NoTransition
    case AwaitingRunway =>
      if m == Proceed then Transition(LockVersion.LandingAcquire, OnRunway(true))
      else Transition(LockVersion.Interrupted, Leaked)
    case OnRunway(arriving) =>
      if m == Interrupt then Transition(LockVersion.Interrupted, Stranded(arriving))
      else if arriving then Transition(LockVersion.Dock, Docked)
      else Transition(LockVersion.TakeoffFinish, Departed)
    case AtGate =>
      if m == Proceed then Transition(LockVersion.TakeoffAcquire, OnRunway(false))
      else Transition(LockVersion.Interrupted, Gone)
    case _ => NoTransition
  }

  /** The backend's shared counters and the phase of every plane. */
  datatype Airfield = Airfield(totalRunways: int, totalGates: int, counters: Counters, planes: seq<Phase>)

  function StartPhase(arriving: bool): Phase
  {
    if arriving then Approaching else AtGate
  }

  /**
   * A plane that is never interrupted runs the sections of the calls of its
   * Plane.run lifecycle (`Planes.Lifecycle`), in order, and ends its run.
   */
  lemma PhasesFollowLifecycle(arriving: bool)
    ensures var t1 := PlaneTransition(StartPhase(arriving), Proceed);
            var t2 := PlaneTransition(t1.next, Proceed);
            if arriving then
              var t3 := PlaneTransition(t2.next, Proceed);
              && [t1.section, t2.section, t3.section] == LockVersion.CallsSections(Planes.Lifecycle(arriving))
              && t3.next == Docked && PlaneTransition(Docked, Proceed) == NoTransition
            else
              && [t1.section, t2.section] == LockVersion.CallsSections(Planes.Lifecycle(arriving))
              && t2.next == Departed && PlaneTransition(Departed, Proceed) == NoTransition
  {
    var ops := Planes.Lifecycle(arriving);
    assert ops[1..][1..] == [];
    assert LockVersion.CallsSections(ops[1..][1..]) == [];
    assert LockVersion.CallsSections(ops[1..]) == LockVersion.CallSections(ops[1]) + [];
    assert LockVersion.CallsSections(ops) == LockVersion.CallSections(ops[0]) + LockVersion.CallSections(ops[1]);
  }

  /** A phase with no move left: the plane's run is over. */
  predicate Terminal(p: Phase)
  {
    PlaneTransition(p, Proceed) == NoTransition && PlaneTransition(p, Interrupt) == NoTransition
  }

  /** The phase reached and the sections run by `n` uninterrupted moves from `p`. */
  datatype Trace = Trace(phase: Phase, sections: seq<LockVersion.Section>)

  function Walk(p: Phase, n: nat): Trace
    decreases n
  {
    if n == 0 then Trace(p, [])
    else match PlaneTransition(p, Proceed)
      case NoTransition => Trace(p, [])
      case Transition(s, q) =>
        var w := Walk(q, n - 1);
        Trace(w.phase, [s] + w.sections)
  }

  /**
   * How many sections a plane has run when it reaches interrupt point `k` of
   * `Planes.InterruptPoints`. Arrival: register before the runway wait, the
   * landing section before the landing sleep and the gate wait, the dock
   * section before the docking sleep. Departure: none before the boarding
   * sleep or the runway wait, the takeoff section before the takeoff sleep.
   */
  function SectionsBeforePoint(arriving: bool, k: nat): nat
  {
    if arriving then (if k == 0 then 1 else if k <= 2 then 2 else 3)
    else (if k <= 1 then 0 else 1)
  }

  /** Interrupt point `k` lies in a wait loop (rather than in a Thread.sleep). */
  predicate PointInWait(arriving: bool, k: nat)
  {
    if arriving then k == 0 || k == 2 else k == 1
  }

  /**
   * An interrupt at any point `k` of a run ends it. At point `k` the plane has
   * run a prefix of the sections of `Planes.CallsMade(arriving, k)`; the rest of
   * them is, at a wait, exactly the section whose wait is interrupted (the call
   * was entered and returns without its work) and, at a sleep, nothing. The
   * interrupt itself runs no section's work and leaves the plane in a terminal
   * phase: Leaked, Gone, Stranded, or Docked for the docking sleep.
   */
  lemma InterruptEndsTheRun(arriving: bool, k: nat)
    requires k < Planes.InterruptPoints(arriving)
    ensures var w := Walk(StartPhase(arriving), SectionsBeforePoint(arriving, k));
            var pending := PlaneTransition(w.phase, Proceed);
            var stop := PlaneTransition(w.phase, Interrupt);
            && |w.sections| == SectionsBeforePoint(arriving, k)
            && (PointInWait(arriving, k) ==>
                  pending.Transition? &&
                  LockVersion.CallsSections(Planes.CallsMade(arriving, k)) == w.sections + [pending.section])
            && (!PointInWait(arriving, k) ==>
                  LockVersion.CallsSections(Planes.CallsMade(arriving, k)) == w.sections)
            && (stop.Transition? ==> stop.section == LockVersion.Interrupted && Terminal(stop.next))
            && (stop.NoTransition? ==> Terminal(w.phase))
  {
    var ops := Planes.CallsMade(arriving, k);
    if |ops| == 1 {
      assert ops[1..] == [];
      assert LockVersion.CallsSections(ops) == LockVersion.CallSections(ops[0]) + [];
    } else if |ops| == 2 {
      assert ops[1..][1..] == [];
      assert LockVersion.CallsSections(ops[1..][1..]) == [];
      assert LockVersion.CallsSections(ops[1..]) == LockVersion.CallSections(ops[1]) + [];
      assert LockVersion.CallsSections(ops) == LockVersion.CallSections(ops[0]) + LockVersion.CallSections(ops[1]);
    }
    var n := SectionsBeforePoint(arriving, k);
    if arriving {
      assert Walk(AwaitingRunway, 0) == Trace(AwaitingRunway, []);
      assert Walk(OnRunway(true), 0) == Trace(OnRunway(true), []);
      assert Walk(Docked, 0) == Trace(Docked, []);
      assert Walk(OnRunway(true), 1) == Trace(Docked, [LockVersion.Dock]);
      assert Walk(AwaitingRunway, 1) == Trace(OnRunway(true), [LockVersion.LandingAcquire]);
      assert Walk(AwaitingRunway, 2) == Trace(Docked, [LockVersion.LandingAcquire, LockVersion.Dock]);
    } else {
      assert Walk(OnRunway(false), 0) == Trace(OnRunway(false), []);
    }
  }

  /** A freshly constructed backend and one new plane per entry of `arriving`. */
  function Start(numRunways: int, numGates: int, arriving: seq<bool>): Airfield
  {
    Airfield(numRunways, numGates, LockVersion.Init(numRunways, numGates),
             seq(|arriving|, k requires 0 <= k < |arriving| => StartPhase(arriving[k])))
  }

  predicate GuardOf(b: Backend, s: LockVersion.Section, c: Counters)
  {
    if b == Lock then LockVersion.Guard(s, c) else MonitorVersion.MayProceed(s, c)
  }

  function EffectOf(b: Backend, s: LockVersion.Section, c: Counters): Counters
  {
    if b == Lock then LockVersion.Effect(s, c) else MonitorVersion.Apply(s, c)
  }

  /** Plane `i` can make move `m`: it has such a move and, if it runs a section, that section's wait loop exits. */
  predicate CanMove(b: Backend, a: Airfield, i: nat, m: Move)
  {
    && i < |a.planes|
    && PlaneTransition(a.planes[i], m).Transition?
    && GuardOf(b, PlaneTransition(a.planes[i], m).section, a.counters)
  }

  function Next(b: Backend, a: Airfield, i: nat, m: Move): Airfield
    requires CanMove(b, a, i, m)
  {
    var t := PlaneTransition(a.planes[i], m);
    a.(counters := EffectOf(b, t.section, a.counters), planes := a.planes[i := t.next])
  }

  /** One move of one plane. */
  datatype Step = Step(plane: nat, move: Move)

  /** A schedule either gets stuck at a move that is not enabled or ends in an airfield. */
  datatype RunResult = Stuck | Ended(airfield: Airfield)

  function Run(b: Backend, a: Airfield, schedule: seq<Step>): RunResult
    decreases |schedule|
  {
    if schedule == [] then Ended(a)
    else if !CanMove(b, a, schedule[0].plane, schedule[0].move) then Stuck
    else Run(b, Next(b, a, schedule[0].plane, schedule[0].move), schedule[1..])
  }

  // ---- What each plane holds ----

  function RunwayHeld(p: Phase): int
  {
    if p.OnRunway? || p.Stranded? then 1 else 0
  }

  function GateHeld(p: Phase): int
  {
    if p == Docked then 1 else 0
  }

  /** Departures that have passed their takeoff section, which counts a gate as freed. */
  function GateVacated(p: Phase): int
  {
    if p == OnRunway(false) || p == Departed || p == Stranded(false) then 1 else 0
  }

  /** Planes counted in waitingArrivals. */
  function Registered(p: Phase): int
  {
    if p == AwaitingRunway || p == Leaked then 1 else 0
  }

  /**
   * Conservation: free runways plus runways held is the total; free gates plus
   * docked planes is the total plus the gates departures freed; waitingArrivals
   * counts the registered landings; no free count is negative.
   */
  ghost predicate Invariant(a: Airfield)
  {
    && a.counters.freeRunways >= 0
    && a.counters.freeGates >= 0
    && a.counters.freeRunways + Tally.Sum(a.planes, RunwayHeld) == a.totalRunways
    && a.counters.freeGates + Tally.Sum(a.planes, GateHeld) == a.totalGates + Tally.Sum(a.planes, GateVacated)
    && a.counters.waitingArrivals == Tally.Sum(a.planes, Registered)
  }

  lemma StartSatisfiesInvariant(numRunways: int, numGates: int, arriving: seq<bool>)
    requires numRunways >= 0 && numGates >= 0
    ensures Invariant(Start(numRunways, numGates, arriving))
  {
    var a := Start(numRunways, numGates, arriving);
    assert forall k :: 0 <= k < |a.planes| ==> a.planes[k] == StartPhase(arriving[k]);
    Tally.SumOfZeros(a.planes, RunwayHeld);
    Tally.SumOfZeros(a.planes, GateHeld);
    Tally.SumOfZeros(a.planes, GateVacated);
    Tally.SumOfZeros(a.planes, Registered);
  }

  /** Every enabled move, on either backend, keeps the conservation laws. */
  lemma NextKeepsInvariant(b: Backend, a: Airfield, i: nat, m: Move)
    requires Invariant(a) && CanMove(b, a, i, m)
    ensures Invariant(Next(b, a, i, m))
  {
    var t := PlaneTransition(a.planes[i], m);
    MonitorVersion.SameTransitionsAsLock(t.section, a.counters);
    Tally.SumUpdate(a.planes, i, t.next, RunwayHeld);
    Tally.SumUpdate(a.planes, i, t.next, GateHeld);
    Tally.SumUpdate(a.planes, i, t.next, GateVacated);
    Tally.SumUpdate(a.planes, i, t.next, Registered);
  }

  lemma {:induction false} RunKeepsInvariant(b: Backend, a: Airfield, schedule: seq<Step>)
    requires Invariant(a)
    requires Run(b, a, schedule).Ended?
    ensures Invariant(Run(b, a, schedule).airfield)
    decreases |schedule|
  {
    if schedule != [] {
      NextKeepsInvariant(b, a, schedule[0].plane, schedule[0].move);
      RunKeepsInvariant(b, Next(b, a, schedule[0].plane, schedule[0].move), schedule[1..]);
    }
  }

  /**
   * No double acquisition: the planes holding a runway never outnumber the
   * runways, the free count never exceeds the total, and waitingArrivals is
   * never negative.
   */
  lemma RunwaysNeverOverbooked(a: Airfield)
    requires Invariant(a)
    ensures 0 <= Tally.Sum(a.planes, RunwayHeld) <= a.totalRunways
    ensures a.counters.freeRunways <= a.totalRunways
    ensures a.counters.waitingArrivals >= 0
  {
    Tally.SumOfFlagsBounded(a.planes, RunwayHeld);
    Tally.SumOfFlagsBounded(a.planes, Registered);
  }

  /**
   * freeGates stays within totalGates exactly as long as departures that freed
   * a gate do not outnumber docked arrivals; no plane of Plane.run both docks
   * and departs, so every departure counts against the bound.
   */
  lemma FreeGatesWithinTotal(a: Airfield)
    requires Invariant(a)
    ensures a.counters.freeGates <= a.totalGates
            <==> Tally.Sum(a.planes, GateVacated) <= Tally.Sum(a.planes, GateHeld)
  {
  }

  /** One runway, one gate and one departure: after its takeoff there are two free gates out of one. */
  lemma FreshDepartureOverflowsGates(b: Backend)
    ensures var a := Start(1, 1, [false]);
            && CanMove(b, a, 0, Proceed)
            && Next(b, a, 0, Proceed).counters.freeGates == 2 > a.totalGates
  {
    var a := Start(1, 1, [false]);
    assert a.planes == [AtGate];
    assert a.counters == LockVersion.Counters(1, 1, 0);
    MonitorVersion.SameTransitionsAsLock(LockVersion.TakeoffAcquire, a.counters);
    assert PlaneTransition(a.planes[0], Proceed) == Transition(LockVersion.TakeoffAcquire, OnRunway(false));
    assert CanMove(b, a, 0, Proceed);
    assert Next(b, a, 0, Proceed).counters == LockVersion.Counters(0, 2, 0);
  }

  /** Running two schedules one after the other is running their concatenation. */
  lemma {:induction false} RunAppend(b: Backend, a: Airfield, s: seq<Step>, t: seq<Step>)
    ensures Run(b, a, s + t) == match Run(b, a, s)
                                case Stuck => Stuck
                                case Ended(c) => Run(b, c, t)
    decreases |s|
  {
    if s != [] {
      assert (s + t)[0] == s[0];
      assert (s + t)[1..] == s[1..] + t;
      if CanMove(b, a, s[0].plane, s[0].move) {
        RunAppend(b, Next(b, a, s[0].plane, s[0].move), s[1..], t);
      }
    } else {
      assert s + t == t;
    }
  }

  /**
   * The gate freed by a fresh departure is real to later arrivals: with one gate,
   * a departure followed by two arrivals ends with both arrivals docked.
   */
  lemma DockedArrivalsExceedGates(b: Backend)
    ensures var a := Start(2, 1, [false, true, true]);
            var schedule := [Step(0, Proceed), Step(0, Proceed), Step(1, Proceed), Step(1, Proceed),
                             Step(1, Proceed), Step(2, Proceed), Step(2, Proceed), Step(2, Proceed)];
            && Run(b, a, schedule) == Ended(Airfield(2, 1, LockVersion.Counters(2, 0, 0), [Departed, Docked, Docked]))
            && Tally.Sum(Run(b, a, schedule).airfield.planes, GateHeld) == 2 > a.totalGates
  {
    var a := Start(2, 1, [false, true, true]);
    var s1 := [Step(0, Proceed), Step(0, Proceed)];
    var s2 := [Step(1, Proceed), Step(1, Proceed), Step(1, Proceed)];
    var s3 := [Step(2, Proceed), Step(2, Proceed), Step(2, Proceed)];
    DepartureLeavesTwoGates(b);
    FirstArrivalDocks(b);
    SecondArrivalDocks(b);
    RunAppend(b, a, s1, s2);
    RunAppend(b, a, s1 + s2, s3);
    assert s1 + s2 + s3 == [Step(0, Proceed), Step(0, Proceed), Step(1, Proceed), Step(1, Proceed),
                            Step(1, Proceed), Step(2, Proceed), Step(2, Proceed), Step(2, Proceed)];
    TwoDockedHoldTwoGates();
  }

  /** The departure takes off and finishes, leaving two free gates of one. */
  lemma DepartureLeavesTwoGates(b: Backend)
    ensures Run(b, Start(2, 1, [false, true, true]), [Step(0, Proceed), Step(0, Proceed)])
            == Ended(Airfield(2, 1, LockVersion.Counters(2, 2, 0), [Departed, Approaching, Approaching]))
  {
    var a0 := Start(2, 1, [false, true, true]);
    assert a0.planes == [AtGate, Approaching, Approaching];
    var a1 := Airfield(2, 1, LockVersion.Counters(1, 2, 0), [OnRunway(false), Approaching, Approaching]);
    var a2 := Airfield(2, 1, LockVersion.Counters(2, 2, 0), [Departed, Approaching, Approaching]);
    var schedule := [Step(0, Proceed), Step(0, Proceed)];
    assert CanMove(b, a0, 0, Proceed) && Next(b, a0, 0, Proceed) == a1;
    assert CanMove(b, a1, 0, Proceed) && Next(b, a1, 0, Proceed) == a2;
    assert Run(b, a1, schedule[1..]) == Ended(a2);
  }

  /** The first arrival registers, lands and docks at one of the two free gates. */
  lemma FirstArrivalDocks(b: Backend)
    ensures Run(b, Airfield(2, 1, LockVersion.Counters(2, 2, 0), [Departed, Approaching, Approaching]),
                [Step(1, Proceed), Step(1, Proceed), Step(1, Proceed)])
            == Ended(Airfield(2, 1, LockVersion.Counters(2, 1, 0), [Departed, Docked, Approaching]))
  {
    var a2 := Airfield(2, 1, LockVersion.Counters(2, 2, 0), [Departed, Approaching, Approaching]);
    var a3 := Airfield(2, 1, LockVersion.Counters(2, 2, 1), [Departed, AwaitingRunway, Approaching]);
    var a4 := Airfield(2, 1, LockVersion.Counters(1, 2, 0), [Departed, OnRunway(true), Approaching]);
    var a5 := Airfield(2, 1, LockVersion.Counters(2, 1, 0), [Departed, Docked, Approaching]);
    var schedule := [Step(1, Proceed), Step(1, Proceed), Step(1, Proceed)];
    assert CanMove(b, a2, 1, Proceed) && Next(b, a2, 1, Proceed) == a3;
    assert CanMove(b, a3, 1, Proceed) && Next(b, a3, 1, Proceed) == a4;
    assert CanMove(b, a4, 1, Proceed) && Next(b, a4, 1, Proceed) == a5;
    assert Run(b, a4, schedule[2..]) == Ended(a5);
    assert Run(b, a3, schedule[1..]) == Run(b, a4, schedule[2..]);
  }

  /** The second arrival docks at the gate the departure never held. */
  lemma SecondArrivalDocks(b: Backend)
    ensures Run(b, Airfield(2, 1, LockVersion.Counters(2, 1, 0), [Departed, Docked, Approaching]),
                [Step(2, Proceed), Step(2, Proceed), Step(2, Proceed)])
            == Ended(Airfield(2, 1, LockVersion.Counters(2, 0, 0), [Departed, Docked, Docked]))
  {
    var a5 := Airfield(2, 1, LockVersion.Counters(2, 1, 0), [Departed, Docked, Approaching]);
    var a6 := Airfield(2, 1, LockVersion.Counters(2, 1, 1), [Departed, Docked, AwaitingRunway]);
    var a7 := Airfield(2, 1, LockVersion.Counters(1, 1, 0), [Departed, Docked, OnRunway(true)]);
    var a8 := Airfield(2, 1, LockVersion.Counters(2, 0, 0), [Departed, Docked, Docked]);
    var schedule := [Step(2, Proceed), Step(2, Proceed), Step(2, Proceed)];
    assert CanMove(b, a5, 2, Proceed) && Next(b, a5, 2, Proceed) == a6;
    assert CanMove(b, a6, 2, Proceed) && Next(b, a6, 2, Proceed) == a7;
    assert CanMove(b, a7, 2, Proceed) && Next(b, a7, 2, Proceed) == a8;
    assert Run(b, a7, schedule[2..]) == Ended(a8);
    assert Run(b, a6, schedule[1..]) == Run(b, a7, schedule[2..]);
  }

  lemma TwoDockedHoldTwoGates()
    ensures Tally.Sum([Departed, Docked, Docked], GateHeld) == 2
  {
    assert [Departed, Docked, Docked][1..] == [Docked, Docked];
    assert [Docked, Docked][1..] == [Docked];
    assert [Docked][1..] == [];
  }

  /**
   * Priority: while some plane is counted in waitingArrivals — waiting to land,
   * or left registered by an interrupt — no departure can take a runway.
   */
  lemma RegisteredArrivalBlocksTakeoff(b: Backend, a: Airfield, i: nat, j: nat)
    requires Invariant(a)
    requires i < |a.planes| && a.planes[i] == AtGate
    requires j < |a.planes| && Registered(a.planes[j]) == 1
    ensures !CanMove(b, a, i, Proceed)
  {
    Tally.SumOfFlagsPositive(a.planes, Registered, j);
  }

  /** A departure that can take a runway sees no arrival in the landing wait. */
  lemma TakeoffOnlyWithoutWaitingArrivals(b: Backend, a: Airfield, i: nat)
    requires Invariant(a)
    requires i < |a.planes| && a.planes[i] == AtGate && CanMove(b, a, i, Proceed)
    ensures a.counters.waitingArrivals == 0 && a.counters.freeRunways > 0
    ensures forall j :: 0 <= j < |a.planes| ==> a.planes[j] != AwaitingRunway && a.planes[j] != Leaked
  {
    RunwaysNeverOverbooked(a);
    MonitorVersion.SameTransitionsAsLock(LockVersion.TakeoffAcquire, a.counters);
    forall j | 0 <= j < |a.planes|
      ensures a.planes[j] != AwaitingRunway && a.planes[j] != Leaked
    {
      if a.planes[j] == AwaitingRunway || a.planes[j] == Leaked {
        RegisteredArrivalBlocksTakeoff(b, a, i, j);
      }
    }
  }

  /** A plane whose registration leaked stays leaked, whatever runs afterwards. */
  lemma {:induction false} LeakIsPermanent(b: Backend, a: Airfield, schedule: seq<Step>, j: nat)
    requires j < |a.planes| && a.planes[j] == Leaked
    requires Run(b, a, schedule).Ended?
    ensures |Run(b, a, schedule).airfield.planes| == |a.planes|
    ensures Run(b, a, schedule).airfield.planes[j] == Leaked
    decreases |schedule|
  {
    if schedule != [] {
      LeakIsPermanent(b, Next(b, a, schedule[0].plane, schedule[0].move), schedule[1..], j);
    }
  }

  /**
   * After one interrupted landing wait, no departure ever takes a runway again
   * on either backend.
   */
  lemma LeakDisablesTakeoffForever(b: Backend, a: Airfield, schedule: seq<Step>, i: nat, j: nat)
    requires Invariant(a)
    requires j < |a.planes| && a.planes[j] == Leaked
    requires Run(b, a, schedule).Ended?
    requires i < |Run(b, a, schedule).airfield.planes| && Run(b, a, schedule).airfield.planes[i] == AtGate
    ensures !CanMove(b, Run(b, a, schedule).airfield, i, Proceed)
  {
    RunKeepsInvariant(b, a, schedule);
    LeakIsPermanent(b, a, schedule, j);
    RegisteredArrivalBlocksTakeoff(b, Run(b, a, schedule).airfield, i, j);
  }

  /** A plane that no longer holds a runway and is not in the landing wait. */
  predicate ClearOfRunways(p: Phase)
  {
    p == Docked || p == Departed || p == Gone || p == Leaked || p == Approaching || p == AtGate
  }

  /**
   * Conservation for a quiet airfield: once no plane holds a runway, all
   * runways are free, and waitingArrivals counts exactly the leaked registrations.
   */
  lemma QuietAirfieldFreesAllRunways(a: Airfield)
    requires Invariant(a)
    requires forall k :: 0 <= k < |a.planes| ==> ClearOfRunways(a.planes[k])
    ensures a.counters.freeRunways == a.totalRunways
    ensures (forall k :: 0 <= k < |a.planes| ==> a.planes[k] != Leaked) ==> a.counters.waitingArrivals == 0
  {
    Tally.SumOfZeros(a.planes, RunwayHeld);
    if forall k :: 0 <= k < |a.planes| ==> a.planes[k] != Leaked {
      Tally.SumOfZeros(a.planes, Registered);
    }
  }

  /** LockAirport and MonitorAirport allow the same schedules and reach the same airfields. */
  lemma {:induction false} BackendsAgree(a: Airfield, schedule: seq<Step>)
    ensures Run(Lock, a, schedule) == Run(Monitor, a, schedule)
    decreases |schedule|
  {
    if schedule != [] {
      var i, m := schedule[0].plane, schedule[0].move;
      if i < |a.planes| && PlaneTransition(a.planes[i], m).Transition? {
        MonitorVersion.SameTransitionsAsLock(PlaneTransition(a.planes[i], m).section, a.counters);
      }
      if CanMove(Lock, a, i, m) {
        BackendsAgree(Next(Lock, a, i, m), schedule[1..]);
      }
    }
  }

  // ---- The cancellation the interface's callers need ----

  /**
   * An interrupted landing wait that also withdraws its registration
   * (waitingArrivals--), so the plane ends holding nothing.
   */
  function CorrectedNext(b: Backend, a: Airfield, i: nat, m: Move): Airfield
    requires CanMove(b, a, i, m)
  {
    if a.planes[i] == AwaitingRunway && m == Interrupt then
      a.(counters := a.counters.(waitingArrivals := a.counters.waitingArrivals - 1),
         planes := a.planes[i := Gone])
    else Next(b, a, i, m)
  }

  predicate NoLeak(a: Airfield)
  {
    forall k :: 0 <= k < |a.planes| ==> a.planes[k] != Leaked
  }

  /**
   * With the corrected cancellation, the conservation laws still hold, no
   * registration is ever left behind, and so waitingArrivals counts exactly the
   * planes in the landing wait.
   */
  lemma CorrectedNextKeepsInvariant(b: Backend, a: Airfield, i: nat, m: Move)
    requires Invariant(a) && NoLeak(a) && CanMove(b, a, i, m)
    ensures Invariant(CorrectedNext(b, a, i, m)) && NoLeak(CorrectedNext(b, a, i, m))
  {
    if a.planes[i] == AwaitingRunway && m == Interrupt {
      Tally.SumUpdate(a.planes, i, Gone, RunwayHeld);
      Tally.SumUpdate(a.planes, i, Gone, GateHeld);
      Tally.SumUpdate(a.planes, i, Gone, GateVacated);
      Tally.SumUpdate(a.planes, i, Gone, Registered);
    } else {
      NextKeepsInvariant(b, a, i, m);
    }
  }

  function CorrectedRun(b: Backend, a: Airfield, schedule: seq<Step>): RunResult
    decreases |schedule|
  {
    if schedule == [] then Ended(a)
    else if !CanMove(b, a, schedule[0].plane, schedule[0].move) then Stuck
    else CorrectedRun(b, CorrectedNext(b, a, schedule[0].plane, schedule[0].move), schedule[1..])
  }

  lemma {:induction false} CorrectedRunKeepsInvariant(b: Backend, a: Airfield, schedule: seq<Step>)
    requires Invariant(a) && NoLeak(a)
    requires CorrectedRun(b, a, schedule).Ended?
    ensures Invariant(CorrectedRun(b, a, schedule).airfield) && NoLeak(CorrectedRun(b, a, schedule).airfield)
    decreases |schedule|
  {
    if schedule != [] {
      CorrectedNextKeepsInvariant(b, a, schedule[0].plane, schedule[0].move);
      CorrectedRunKeepsInvariant(b, CorrectedNext(b, a, schedule[0].plane, schedule[0].move), schedule[1..]);
    }
  }

  /**
   * What the corrected cancellation is for: on every schedule from a fresh
   * airport, once no plane is in the landing wait and a runway is free, any
   * departure at its gate can take off.
   */
  lemma CorrectedDeparturesNotBlocked(b: Backend, numRunways: int, numGates: int, arriving: seq<bool>,
                                      schedule: seq<Step>, i: nat)
    requires numRunways >= 0 && numGates >= 0
    requires CorrectedRun(b, Start(numRunways, numGates, arriving), schedule).Ended?
    requires var a := CorrectedRun(b, Start(numRunways, numGates, arriving), schedule).airfield;
             && (forall k :: 0 <= k < |a.planes| ==> a.planes[k] != AwaitingRunway)
             && a.counters.freeRunways > 0
             && i < |a.planes| && a.planes[i] == AtGate
    ensures CanMove(b, CorrectedRun(b, Start(numRunways, numGates, arriving), schedule).airfield, i, Proceed)
  {
    var s := Start(numRunways, numGates, arriving);
    StartSatisfiesInvariant(numRunways, numGates, arriving);
    assert NoLeak(s) by {
      assert forall k :: 0 <= k < |s.planes| ==> s.planes[k] == StartPhase(arriving[k]);
    }
    CorrectedRunKeepsInvariant(b, s, schedule);
    var a := CorrectedRun(b, s, schedule).airfield;
    Tally.SumOfZeros(a.planes, Registered);
    MonitorVersion.SameTransitionsAsLock(LockVersion.TakeoffAcquire, a.counters);
  }

  /** With the corrected cancellation, an interrupted landing wait gives back the counters it found. */
  lemma CorrectedCancelRestoresCounters(b: Backend, a: Airfield, i: nat)
    requires i < |a.planes| && a.planes[i] == Approaching
    ensures var registered := Next(b, a, i, Proceed);
            CanMove(b, registered, i, Interrupt)
            && CorrectedNext(b, registered, i, Interrupt).counters == a.counters
  {
  }
}
