/**
 * Many planes against one SemaphoreAirport, interleaved one semaphore
 * operation at a time.
 *
 * The permits are tied to the planes by conservation laws that every step
 * keeps (`Invariant`). The mutex is not among them: the two catch blocks
 * release it also on paths where the thread does not hold it, and the model
 * exhibits the schedules that do so. With the release made conditional on
 * holding the mutex (`CorrectedStep`), the mutex conservation law holds too and
 * at most one plane is ever inside the admission section.
 */
module SemaphoreAirfield {
  import Tally
  import opened Manager
  import opened SemaphoreVersion

  /** The backend's permits and the point every plane has reached. */
  datatype Airfield = Airfield(totalRunways: int, totalGates: int, permits: Permits, planes: seq<Pc>)

  function StartPc(arriving: bool): Pc
  {
    if arriving then Approaching else Boarding
  }

  /** A freshly constructed backend and one new plane per entry of `arriving`. */
  function Start(numRunways: int, numGates: int, arriving: seq<bool>): Airfield
  {
    Airfield(numRunways, numGates, Init(numRunways, numGates),
             seq(|arriving|, k requires 0 <= k < |arriving| => StartPc(arriving[k])))
  }

  predicate CanMove(a: Airfield, i: nat, m: Move)
  {
    i < |a.planes| && Step(a.planes[i], a.permits, m).Action?
  }

  function Next(a: Airfield, i: nat, m: Move): Airfield
    requires CanMove(a, i, m)
  {
    var act := Step(a.planes[i], a.permits, m);
    a.(permits := act.permits, planes := a.planes[i := act.next])
  }

  /** One step of one plane. */
  datatype Turn = Turn(plane: nat, move: Move)

  datatype RunResult = Stuck | Ended(airfield: Airfield)

  function Run(a: Airfield, schedule: seq<Turn>): RunResult
    decreases |schedule|
  {
    if schedule == [] then Ended(a)
    else if !CanMove(a, schedule[0].plane, schedule[0].move) then Stuck
    else Run(Next(a, schedule[0].plane, schedule[0].move), schedule[1..])
  }

  // ---- What each plane holds ----

  function RunwayHeld(pc: Pc): int
  {
    match pc
    case Acquired => 1
    case Deregistered => 1
    case Landed => 1
    case Docking => 1
    case ReleasingGate => 1
    case ReleasingAdmission => 1
    case TakingOff => 1
    case Stranded(_) => 1
    case _ => 0
  }

  function GateHeld(pc: Pc): int
  {
    if pc == Docking || pc == Docked then 1 else 0
  }

  /** Departures past gates.release(). */
  function GateVacated(pc: Pc): int
  {
    if pc == ReleasingAdmission || pc == TakingOff || pc == Departed || pc == Stranded(false) then 1 else 0
  }

  /** Planes counted in waitingArrivals. */
  function Registered(pc: Pc): int
  {
    match pc
    case AwaitingMutex => 1
    case AwaitingRunway => 1
    case Acquired => 1
    case LandingCaught(_) => 1
    case _ => 0
  }

  /** Planes that acquired runwayAccessMutex and have not released it. */
  function MutexHeld(pc: Pc): int
  {
    match pc
    case AwaitingRunway => 1
    case Acquired => 1
    case Deregistered => 1
    case LandingCaught(h) => if h then 1 else 0
    case LandingCaughtDeregistered(h) => if h then 1 else 0
    case CheckingArrivals => 1
    case Yielding => 1
    case AwaitingTakeoffRunway => 1
    case ReleasingGate => 1
    case ReleasingAdmission => 1
    case TakeoffCaught(h) => if h then 1 else 0
    case _ => 0
  }

  /**
   * Conservation of runway and gate permits and of the waiting count; no
   * semaphore has a negative number of permits.
   */
  ghost predicate Invariant(a: Airfield)
  {
    && a.permits.runways >= 0
    && a.permits.gates >= 0
    && a.permits.mutex >= 0
    && a.permits.runways + Tally.Sum(a.planes, RunwayHeld) == a.totalRunways
    && a.permits.gates + Tally.Sum(a.planes, GateHeld) == a.totalGates + Tally.Sum(a.planes, GateVacated)
    && a.permits.waitingArrivals == Tally.Sum(a.planes, Registered)
  }

  /** The mutex has exactly one permit, free or held. */
  ghost predicate MutexConserved(a: Airfield)
  {
    a.permits.mutex + Tally.Sum(a.planes, MutexHeld) == 1
  }

  lemma StartSatisfiesInvariant(numRunways: int, numGates: int, arriving: seq<bool>)
    requires numRunways >= 0 && numGates >= 0
    ensures Invariant(Start(numRunways, numGates, arriving))
    ensures MutexConserved(Start(numRunways, numGates, arriving))
  {
    var a := Start(numRunways, numGates, arriving);
    assert forall k :: 0 <= k < |a.planes| ==> a.planes[k] == StartPc(arriving[k]);
    Tally.SumOfZeros(a.planes, RunwayHeld);
    Tally.SumOfZeros(a.planes, GateHeld);
    Tally.SumOfZeros(a.planes, GateVacated);
    Tally.SumOfZeros(a.planes, Registered);
    Tally.SumOfZeros(a.planes, MutexHeld);
  }

  /** Each step changes the permits by exactly what the plane's holdings change by. */
  lemma StepConserves(pc: Pc, p: Permits, m: Move)
    requires Step(pc, p, m).Action?
    ensures var q, n := Step(pc, p, m).permits, Step(pc, p, m).next;
            && q.runways + RunwayHeld(n) == p.runways + RunwayHeld(pc)
            && q.gates + GateHeld(n) - GateVacated(n) == p.gates + GateHeld(pc) - GateVacated(pc)
            && q.waitingArrivals - Registered(n) == p.waitingArrivals - Registered(pc)
    ensures var q := Step(pc, p, m).permits;
            p.runways >= 0 && p.gates >= 0 && p.mutex >= 0 ==> q.runways >= 0 && q.gates >= 0 && q.mutex >= 0
  {
  }

  /** Every enabled step keeps the conservation laws of runways, gates and waiting arrivals. */
  lemma NextKeepsInvariant(a: Airfield, i: nat, m: Move)
    requires Invariant(a) && CanMove(a, i, m)
    ensures Invariant(Next(a, i, m))
  {
    var act := Step(a.planes[i], a.permits, m);
    StepConserves(a.planes[i], a.permits, m);
    Tally.SumUpdate(a.planes, i, act.next, RunwayHeld);
    Tally.SumUpdate(a.planes, i, act.next, GateHeld);
    Tally.SumUpdate(a.planes, i, act.next, GateVacated);
    Tally.SumUpdate(a.planes, i, act.next, Registered);
  }

  lemma {:induction false} RunKeepsInvariant(a: Airfield, schedule: seq<Turn>)
    requires Invariant(a)
    requires Run(a, schedule).Ended?
    ensures Invariant(Run(a, schedule).airfield)
    decreases |schedule|
  {
    if schedule != [] {
      NextKeepsInvariant(a, schedule[0].plane, schedule[0].move);
      RunKeepsInvariant(Next(a, schedule[0].plane, schedule[0].move), schedule[1..]);
    }
  }

  /** No double acquisition: the planes holding a runway never outnumber the runways. */
  lemma RunwaysNeverOverbooked(a: Airfield)
    requires Invariant(a)
    ensures 0 <= Tally.Sum(a.planes, RunwayHeld) <= a.totalRunways
    ensures a.permits.runways <= a.totalRunways
    ensures a.permits.waitingArrivals >= 0
  {
    Tally.SumOfFlagsBounded(a.planes, RunwayHeld);
    Tally.SumOfFlagsBounded(a.planes, Registered);
  }

  /**
   * A departure reaches runways.acquire() only from the check of
   * waitingArrivals, having read zero there while holding the mutex.
   */
  lemma TakeoffAcquireFollowsPriorityCheck(pc: Pc, p: Permits, m: Move)
    requires Step(pc, p, m).Action? && Step(pc, p, m).next == AwaitingTakeoffRunway
    ensures pc == CheckingArrivals && p.waitingArrivals <= 0 && MutexHeld(pc) == 1
  {
  }

  /**
   * A landing on its own, from the increment to the release of the mutex: it
   * waits for the mutex and a runway, and then leaves waitingArrivals and the
   * mutex as they were with one runway permit fewer, as the interface promises.
   */
  lemma LandingAloneHonoursContract(p: Permits, totalRunways: int, totalGates: int)
    requires p.mutex > 0 && p.runways > 0
    ensures var s1 := Step(Approaching, p, Proceed);
            var s2 := Step(s1.next, s1.permits, Proceed);
            var s3 := Step(s2.next, s2.permits, Proceed);
            var s4 := Step(s3.next, s3.permits, Proceed);
            var s5 := Step(s4.next, s4.permits, Proceed);
            && s5 == Action(Landed, p.(runways := p.runways - 1))
            && Completes(RequestRunwayForLanding, View(p, totalRunways, totalGates),
                         View(s5.permits, totalRunways, totalGates))
  {
  }

  /**
   * A takeoff on its own that finds no waiting arrival: one runway permit fewer,
   * one gate permit more, and the mutex as it was.
   */
  lemma TakeoffAloneHonoursContract(p: Permits, totalRunways: int, totalGates: int)
    requires p.mutex > 0 && p.runways > 0 && p.waitingArrivals == 0
    ensures var s1 := Step(AwaitingAdmission, p, Proceed);
            var s2 := Step(s1.next, s1.permits, Proceed);
            var s3 := Step(s2.next, s2.permits, Proceed);
            var s4 := Step(s3.next, s3.permits, Proceed);
            var s5 := Step(s4.next, s4.permits, Proceed);
            && s5 == Action(TakingOff, p.(runways := p.runways - 1, gates := p.gates + 1))
            && Completes(RequestRunwayForTakeoff, View(p, totalRunways, totalGates),
                         View(s5.permits, totalRunways, totalGates))
  {
  }

  /**
   * Docking takes a gate permit and then releases a runway permit; an interrupt
   * in the gate wait changes no permit. Finishing a takeoff releases one runway.
   */
  lemma DockAndFinishHonourContract(p: Permits, totalRunways: int, totalGates: int)
    ensures p.gates > 0 ==>
              var s1 := Step(Landed, p, Proceed);
              var s2 := Step(s1.next, s1.permits, Proceed);
              && s2 == Action(Docked, p.(gates := p.gates - 1, runways := p.runways + 1))
              && Completes(FinishLandingAndDock, View(p, totalRunways, totalGates),
                           View(s2.permits, totalRunways, totalGates))
    ensures p.gates <= 0 ==> Step(Landed, p, Proceed) == Blocked
    ensures Step(Landed, p, Interrupt) == Action(Stranded(true), p)
    ensures Completes(FinishTakeoff, View(p, totalRunways, totalGates),
                      View(Step(TakingOff, p, Proceed).permits, totalRunways, totalGates))
  {
  }

  /**
   * The landing catch always decrements waitingArrivals and releases the mutex:
   * interrupted at the runway acquire it gives back exactly what it took;
   * interrupted at the mutex acquire it adds a mutex permit it never took.
   */
  lemma LandingInterruptPaths(p: Permits)
    ensures var c1 := Step(LandingCaught(true), p, Proceed);
            Step(c1.next, c1.permits, Proceed)
              == Action(Gone, p.(waitingArrivals := p.waitingArrivals - 1, mutex := p.mutex + 1))
    ensures var r := Step(Approaching, p, Proceed);
            var c0 := Step(r.next, r.permits, Interrupt);
            var c1 := Step(c0.next, c0.permits, Proceed);
            Step(c1.next, c1.permits, Proceed) == Action(Gone, p.(mutex := p.mutex + 1))
  {
  }

  /** A lone arrival interrupted at its mutex acquire leaves the mutex with two permits. */
  lemma InterruptedLandingDoublesMutex()
    ensures var a := Start(1, 1, [true]);
            var schedule := [Turn(0, Proceed), Turn(0, Interrupt), Turn(0, Proceed), Turn(0, Proceed)];
            Run(a, schedule) == Ended(Airfield(1, 1, Permits(1, 1, 2, 0), [Gone]))
  {
    var a := Start(1, 1, [true]);
    assert a.planes == [Approaching];
    var a1 := Airfield(1, 1, Permits(1, 1, 1, 1), [AwaitingMutex]);
    var a2 := Airfield(1, 1, Permits(1, 1, 1, 1), [LandingCaught(false)]);
    var a3 := Airfield(1, 1, Permits(1, 1, 1, 0), [LandingCaughtDeregistered(false)]);
    var a4 := Airfield(1, 1, Permits(1, 1, 2, 0), [Gone]);
    assert Next(a, 0, Proceed) == a1;
    assert Next(a1, 0, Interrupt) == a2;
    assert Next(a2, 0, Proceed) == a3;
    assert Next(a3, 0, Proceed) == a4;
    var schedule := [Turn(0, Proceed), Turn(0, Interrupt), Turn(0, Proceed), Turn(0, Proceed)];
    assert Run(a3, schedule[3..]) == Ended(a4);
    assert Run(a2, schedule[2..]) == Run(a3, schedule[3..]);
    assert Run(a1, schedule[1..]) == Run(a2, schedule[2..]);
  }

  /** Running two schedules one after the other is running their concatenation. */
  lemma {:induction false} RunAppend(a: Airfield, s: seq<Turn>, t: seq<Turn>)
    ensures Run(a, s + t) == match Run(a, s)
                             case Stuck => Stuck
                             case Ended(b) => Run(b, t)
    decreases |s|
  {
    if s != [] {
      assert (s + t)[0] == s[0];
      assert (s + t)[1..] == s[1..] + t;
      if CanMove(a, s[0].plane, s[0].move) {
        RunAppend(Next(a, s[0].plane, s[0].move), s[1..], t);
      }
    } else {
      assert s + t == t;
    }
  }

  /** The arrival registers while departure 0 holds the mutex, is interrupted and releases it. */
  lemma OverReleaseFirstPart()
    ensures Run(Start(1, 1, [false, true, false]),
                [Turn(0, Proceed), Turn(0, Proceed), Turn(1, Proceed), Turn(1, Interrupt)])
            == Ended(Airfield(1, 1, Permits(1, 1, 0, 1), [CheckingArrivals, LandingCaught(false), Boarding]))
  {
    var a := Start(1, 1, [false, true, false]);
    assert a.planes == [Boarding, Approaching, Boarding];
    var schedule := [Turn(0, Proceed), Turn(0, Proceed), Turn(1, Proceed), Turn(1, Interrupt)];
    var a1 := Airfield(1, 1, Permits(1, 1, 1, 0), [AwaitingAdmission, Approaching, Boarding]);
    var a2 := Airfield(1, 1, Permits(1, 1, 0, 0), [CheckingArrivals, Approaching, Boarding]);
    var a3 := Airfield(1, 1, Permits(1, 1, 0, 1), [CheckingArrivals, AwaitingMutex, Boarding]);
    var a4 := Airfield(1, 1, Permits(1, 1, 0, 1), [CheckingArrivals, LandingCaught(false), Boarding]);
    assert Next(a, 0, Proceed) == a1;
    assert Next(a1, 0, Proceed) == a2;
    assert Next(a2, 1, Proceed) == a3;
    assert Next(a3, 1, Interrupt) == a4;
    assert Run(a3, schedule[3..]) == Ended(a4);
    assert Run(a2, schedule[2..]) == Run(a3, schedule[3..]);
    assert Run(a1, schedule[1..]) == Run(a2, schedule[2..]);
  }

  /** The arrival's catch releases the mutex, and departure 2 takes it. */
  lemma OverReleaseSecondPart()
    ensures Run(Airfield(1, 1, Permits(1, 1, 0, 1), [CheckingArrivals, LandingCaught(false), Boarding]),
                [Turn(1, Proceed), Turn(1, Proceed), Turn(2, Proceed), Turn(2, Proceed)])
            == Ended(Airfield(1, 1, Permits(1, 1, 0, 0), [CheckingArrivals, Gone, CheckingArrivals]))
  {
    var a4 := Airfield(1, 1, Permits(1, 1, 0, 1), [CheckingArrivals, LandingCaught(false), Boarding]);
    var schedule := [Turn(1, Proceed), Turn(1, Proceed), Turn(2, Proceed), Turn(2, Proceed)];
    var a5 := Airfield(1, 1, Permits(1, 1, 0, 0), [CheckingArrivals, LandingCaughtDeregistered(false), Boarding]);
    var a6 := Airfield(1, 1, Permits(1, 1, 1, 0), [CheckingArrivals, Gone, Boarding]);
    var a7 := Airfield(1, 1, Permits(1, 1, 1, 0), [CheckingArrivals, Gone, AwaitingAdmission]);
    var a8 := Airfield(1, 1, Permits(1, 1, 0, 0), [CheckingArrivals, Gone, CheckingArrivals]);
    assert Next(a4, 1, Proceed) == a5;
    assert Next(a5, 1, Proceed) == a6;
    assert Next(a6, 2, Proceed) == a7;
    assert Next(a7, 2, Proceed) == a8;
    assert Run(a7, schedule[3..]) == Ended(a8);
    assert Run(a6, schedule[2..]) == Run(a7, schedule[3..]);
    assert Run(a5, schedule[1..]) == Run(a6, schedule[2..]);
  }

  /**
   * While one departure holds the mutex at its priority check, an arrival
   * interrupted at its mutex acquire releases the mutex anyway, and a second
   * departure then enters the admission section beside the first.
   */
  lemma OverReleaseAdmitsTwoDepartures()
    ensures var first := [Turn(0, Proceed), Turn(0, Proceed), Turn(1, Proceed), Turn(1, Interrupt)];
            var second := [Turn(1, Proceed), Turn(1, Proceed), Turn(2, Proceed), Turn(2, Proceed)];
            var r := Run(Start(1, 1, [false, true, false]), first + second);
            && r == Ended(Airfield(1, 1, Permits(1, 1, 0, 0), [CheckingArrivals, Gone, CheckingArrivals]))
            && Tally.Sum(r.airfield.planes, MutexHeld) == 2
  {
    var s1 := [Turn(0, Proceed), Turn(0, Proceed), Turn(1, Proceed), Turn(1, Interrupt)];
    var s2 := [Turn(1, Proceed), Turn(1, Proceed), Turn(2, Proceed), Turn(2, Proceed)];
    OverReleaseFirstPart();
    OverReleaseSecondPart();
    RunAppend(Start(1, 1, [false, true, false]), s1, s2);
    TwoDeparturesHoldTheMutex();
  }

  lemma TwoDeparturesHoldTheMutex()
    ensures Tally.Sum([CheckingArrivals, Gone, CheckingArrivals], MutexHeld) == 2
  {
    var planes := [CheckingArrivals, Gone, CheckingArrivals];
    assert planes[1..] == [Gone, CheckingArrivals];
    assert planes[1..][1..] == [CheckingArrivals];
    assert planes[1..][1..][1..] == [];
  }

  /**
   * The takeoff catch releases a mutex permit the departure does not hold on
   * three paths: an interrupt in the first acquire, in the back-off sleep after
   * the retry loop gave the mutex back, and in the retry loop's reacquire. Each
   * ends with one mutex permit more than the departure found.
   */
  lemma TakeoffInterruptsOverRelease(p: Permits)
    ensures var s1 := Step(AwaitingAdmission, p, Interrupt);
            Step(s1.next, s1.permits, Proceed) == Action(Gone, p.(mutex := p.mutex + 1))
    ensures p.mutex > 0 && p.waitingArrivals > 0 ==>
            var s1 := Step(AwaitingAdmission, p, Proceed);
            var s2 := Step(s1.next, s1.permits, Proceed);
            var s3 := Step(s2.next, s2.permits, Proceed);
            var s4 := Step(s3.next, s3.permits, Interrupt);
            var s5 := Step(s4.next, s4.permits, Proceed);
            s5 == Action(Gone, p.(mutex := p.mutex + 1))
    ensures p.mutex > 0 && p.waitingArrivals > 0 ==>
            var s1 := Step(AwaitingAdmission, p, Proceed);
            var s2 := Step(s1.next, s1.permits, Proceed);
            var s3 := Step(s2.next, s2.permits, Proceed);
            var s4 := Step(s3.next, s3.permits, Proceed);
            var s5 := Step(s4.next, s4.permits, Interrupt);
            var s6 := Step(s5.next, s5.permits, Proceed);
            s4 == Action(Reacquiring, p) && s6 == Action(Gone, p.(mutex := p.mutex + 1))
  {
  }

  /**
   * The cross-thread priority claim is not an invariant: the increment of
   * waitingArrivals is outside the mutex, so a departure that has passed its
   * check takes the last runway while an arrival is registered.
   */
  lemma DepartureOvertakesRegisteredArrival()
    ensures var a := Start(1, 1, [false, true]);
            var schedule := [Turn(0, Proceed), Turn(0, Proceed), Turn(0, Proceed), Turn(1, Proceed), Turn(0, Proceed)];
            && Run(a, schedule) == Ended(Airfield(1, 1, Permits(0, 1, 0, 1), [ReleasingGate, AwaitingMutex]))
  {
    var a := Start(1, 1, [false, true]);
    assert a.planes == [Boarding, Approaching];
    var schedule := [Turn(0, Proceed), Turn(0, Proceed), Turn(0, Proceed), Turn(1, Proceed), Turn(0, Proceed)];
    var a1 := Airfield(1, 1, Permits(1, 1, 1, 0), [AwaitingAdmission, Approaching]);
    var a2 := Airfield(1, 1, Permits(1, 1, 0, 0), [CheckingArrivals, Approaching]);
    var a3 := Airfield(1, 1, Permits(1, 1, 0, 0), [AwaitingTakeoffRunway, Approaching]);
    var a4 := Airfield(1, 1, Permits(1, 1, 0, 1), [AwaitingTakeoffRunway, AwaitingMutex]);
    var a5 := Airfield(1, 1, Permits(0, 1, 0, 1), [ReleasingGate, AwaitingMutex]);
    assert Next(a, 0, Proceed) == a1;
    assert Next(a1, 0, Proceed) == a2;
    assert Next(a2, 0, Proceed) == a3;
    assert Next(a3, 1, Proceed) == a4;
    assert Next(a4, 0, Proceed) == a5;
    assert Run(a4, schedule[4..]) == Ended(a5);
    assert Run(a3, schedule[3..]) == Run(a4, schedule[4..]);
    assert Run(a2, schedule[2..]) == Run(a3, schedule[3..]);
    assert Run(a1, schedule[1..]) == Run(a2, schedule[2..]);
  }

  // ---- The cleanup policy that tracks whether the mutex is held ----

  /** Step, except that a catch releases the mutex only when its thread holds it. */
  function CorrectedStep(pc: Pc, p: Permits, m: Move): Action
  {
    match pc
    case LandingCaughtDeregistered(false) => if m == Proceed then Action(Gone, p) else NoAction
    case TakeoffCaught(false) => if m == Proceed then Action(Gone, p) else NoAction
    case _ => Step(pc, p, m)
  }

  predicate CorrectedCanMove(a: Airfield, i: nat, m: Move)
  {
    i < |a.planes| && CorrectedStep(a.planes[i], a.permits, m).Action?
  }

  function CorrectedNext(a: Airfield, i: nat, m: Move): Airfield
    requires CorrectedCanMove(a, i, m)
  {
    var act := CorrectedStep(a.planes[i], a.permits, m);
    a.(permits := act.permits, planes := a.planes[i := act.next])
  }

  function CorrectedRun(a: Airfield, schedule: seq<Turn>): RunResult
    decreases |schedule|
  {
    if schedule == [] then Ended(a)
    else if !CorrectedCanMove(a, schedule[0].plane, schedule[0].move) then Stuck
    else CorrectedRun(CorrectedNext(a, schedule[0].plane, schedule[0].move), schedule[1..])
  }

  lemma CorrectedStepConserves(pc: Pc, p: Permits, m: Move)
    requires CorrectedStep(pc, p, m).Action?
    ensures var q, n := CorrectedStep(pc, p, m).permits, CorrectedStep(pc, p, m).next;
            && q.runways + RunwayHeld(n) == p.runways + RunwayHeld(pc)
            && q.gates + GateHeld(n) - GateVacated(n) == p.gates + GateHeld(pc) - GateVacated(pc)
            && q.waitingArrivals - Registered(n) == p.waitingArrivals - Registered(pc)
            && q.mutex + MutexHeld(n) == p.mutex + MutexHeld(pc)
    ensures var q := CorrectedStep(pc, p, m).permits;
            p.runways >= 0 && p.gates >= 0 && p.mutex >= 0 ==> q.runways >= 0 && q.gates >= 0 && q.mutex >= 0
  {
  }

  /** With the corrected cleanup every step keeps all conservation laws, the mutex's included. */
  lemma CorrectedNextKeepsInvariant(a: Airfield, i: nat, m: Move)
    requires Invariant(a) && MutexConserved(a) && CorrectedCanMove(a, i, m)
    ensures Invariant(CorrectedNext(a, i, m)) && MutexConserved(CorrectedNext(a, i, m))
  {
    var act := CorrectedStep(a.planes[i], a.permits, m);
    CorrectedStepConserves(a.planes[i], a.permits, m);
    Tally.SumUpdate(a.planes, i, act.next, RunwayHeld);
    Tally.SumUpdate(a.planes, i, act.next, GateHeld);
    Tally.SumUpdate(a.planes, i, act.next, GateVacated);
    Tally.SumUpdate(a.planes, i, act.next, Registered);
    Tally.SumUpdate(a.planes, i, act.next, MutexHeld);
  }

  lemma {:induction false} CorrectedRunKeepsInvariant(a: Airfield, schedule: seq<Turn>)
    requires Invariant(a) && MutexConserved(a)
    requires CorrectedRun(a, schedule).Ended?
    ensures Invariant(CorrectedRun(a, schedule).airfield) && MutexConserved(CorrectedRun(a, schedule).airfield)
    decreases |schedule|
  {
    if schedule != [] {
      CorrectedNextKeepsInvariant(a, schedule[0].plane, schedule[0].move);
      CorrectedRunKeepsInvariant(CorrectedNext(a, schedule[0].plane, schedule[0].move), schedule[1..]);
    }
  }

  /**
   * With the corrected cleanup, on every schedule from a fresh airport, the
   * mutex has at most one permit and at most one plane holds it.
   */
  lemma CorrectedMutualExclusion(numRunways: int, numGates: int, arriving: seq<bool>, schedule: seq<Turn>)
    requires numRunways >= 0 && numGates >= 0
    requires CorrectedRun(Start(numRunways, numGates, arriving), schedule).Ended?
    ensures var a := CorrectedRun(Start(numRunways, numGates, arriving), schedule).airfield;
            && 0 <= a.permits.mutex <= 1
            && Tally.Sum(a.planes, MutexHeld) <= 1
  {
    StartSatisfiesInvariant(numRunways, numGates, arriving);
    CorrectedRunKeepsInvariant(Start(numRunways, numGates, arriving), schedule);
    var a := CorrectedRun(Start(numRunways, numGates, arriving), schedule).airfield;
    Tally.SumOfFlagsBounded(a.planes, MutexHeld);
  }
}
