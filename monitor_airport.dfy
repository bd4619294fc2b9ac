/**
 * MonitorAirport: the same three counters as LockAirport, guarded by the
 * object's intrinsic lock (`synchronized` methods) with one wait set
 * (`wait()` / `notifyAll()`).
 *
 * The critical sections are the LockVersion ones: when it waits, `wait()`
 * releases the monitor, so requestRunwayForLanding is a register section and
 * an acquire section (the model always splits it); every other method is one
 * section. The guards and effects are
 * transcribed here from MonitorAirport on their own and then proved equal to
 * LockAirport's.
 */
module MonitorVersion {
  import Manager
  import LockVersion

  type Counters = LockVersion.Counters
  type Section = LockVersion.Section

  /** The exit condition of the section's `while (...) wait()` loop. */
  predicate MayProceed(s: Section, c: Counters)
  {
    match s
    case LandingAcquire => c.freeRunways != 0
    case Dock => c.freeGates != 0
    case TakeoffAcquire => c.freeRunways != 0 && c.waitingArrivals <= 0
    case Register => true
    case TakeoffFinish => true
    case Interrupted => true
  }

  /** The field updates of the section, as MonitorAirport writes them. */
  function Apply(s: Section, c: Counters): Counters
  {
    match s
    case Register => LockVersion.Counters(c.freeRunways, c.freeGates, c.waitingArrivals + 1)
    case LandingAcquire => LockVersion.Counters(c.freeRunways - 1, c.freeGates, c.waitingArrivals - 1)
    case Dock => LockVersion.Counters(c.freeRunways + 1, c.freeGates - 1, c.waitingArrivals)
    case TakeoffAcquire => LockVersion.Counters(c.freeRunways - 1, c.freeGates + 1, c.waitingArrivals)
    case TakeoffFinish => LockVersion.Counters(c.freeRunways + 1, c.freeGates, c.waitingArrivals)
    case Interrupted => c
  }

  /** Every MonitorAirport section has the guard and the effect of its LockAirport counterpart. */
  lemma SameTransitionsAsLock(s: Section, c: Counters)
    ensures MayProceed(s, c) == LockVersion.Guard(s, c)
    ensures Apply(s, c) == LockVersion.Effect(s, c)
  {
  }

  class MonitorAirport {
    const totalRunways: int
    const totalGates: int
    var freeRunways: int
    var freeGates: int
    var waitingArrivals: int
    /** Landing calls between their two sections (bookkeeping of the model only). */
    ghost var landingsInWait: nat

    ghost predicate Valid()
      reads this
    {
      freeRunways >= 0 && freeGates >= 0 && waitingArrivals >= landingsInWait
    }

    function State(): Counters
      reads this
    {
      LockVersion.Counters(freeRunways, freeGates, waitingArrivals)
    }

    constructor (numRunways: int, numGates: int)
      ensures totalRunways == numRunways && totalGates == numGates
      ensures State() == LockVersion.Init(numRunways, numGates) && landingsInWait == 0
      ensures numRunways >= 0 && numGates >= 0 ==> Valid()
    {
      totalRunways := numRunways;
      totalGates := numGates;
      freeRunways := numRunways;
      freeGates := numGates;
      waitingArrivals := 0;
      landingsInWait := 0;
    }

    /** requestRunwayForLanding up to `wait()`: register a high-priority wait. */
    method RegisterForLanding()
      requires Valid()
      modifies this
      ensures Valid() && landingsInWait == old(landingsInWait) + 1
      ensures State() == Apply(LockVersion.Register, old(State()))
    {
      waitingArrivals := waitingArrivals + 1;
      landingsInWait := landingsInWait + 1;
    }

    /** requestRunwayForLanding after the loop: take the runway, or leave on InterruptedException. */
    method AcquireRunwayForLanding(interrupted: bool)
      requires Valid() && landingsInWait > 0
      requires !interrupted ==> MayProceed(LockVersion.LandingAcquire, State())
      modifies this
      ensures Valid() && landingsInWait == old(landingsInWait) - 1
      ensures State() == Apply(if interrupted then LockVersion.Interrupted else LockVersion.LandingAcquire, old(State()))
    {
      landingsInWait := landingsInWait - 1;
      if !interrupted {
        freeRunways := freeRunways - 1;
        waitingArrivals := waitingArrivals - 1;
      }
    }

    /** finishLandingAndDock: wait for a gate, take it, release the runway. */
    method FinishLandingAndDock(interrupted: bool)
      requires Valid()
      requires !interrupted ==> MayProceed(LockVersion.Dock, State())
      modifies this
      ensures Valid() && landingsInWait == old(landingsInWait)
      ensures State() == Apply(if interrupted then LockVersion.Interrupted else LockVersion.Dock, old(State()))
    {
      if !interrupted {
        freeGates := freeGates - 1;
        freeRunways := freeRunways + 1;
      }
    }

    /** requestRunwayForTakeoff: wait while runways are full or arrivals wait; take a runway, release the gate. */
    method RequestRunwayForTakeoff(interrupted: bool)
      requires Valid()
      requires !interrupted ==> MayProceed(LockVersion.TakeoffAcquire, State())
      modifies this
      ensures Valid() && landingsInWait == old(landingsInWait)
      ensures State() == Apply(if interrupted then LockVersion.Interrupted else LockVersion.TakeoffAcquire, old(State()))
    {
      if !interrupted {
        freeRunways := freeRunways - 1;
        freeGates := freeGates + 1;
      }
    }

    /** finishTakeoff: release the runway with no guard. */
    method FinishTakeoff()
      requires Valid()
      modifies this
      ensures Valid() && landingsInWait == old(landingsInWait)
      ensures State() == Apply(LockVersion.TakeoffFinish, old(State()))
    {
      freeRunways := freeRunways + 1;
    }

    method GetFreeRunways() returns (n: int)
      ensures n == freeRunways
    {
      n := freeRunways;
    }

    method GetTotalRunways() returns (n: int)
      ensures n == totalRunways
    {
      n := totalRunways;
    }

    method GetFreeGates() returns (n: int)
      ensures n == freeGates
    {
      n := freeGates;
    }

    method GetTotalGates() returns (n: int)
      ensures n == totalGates
    {
      n := totalGates;
    }
  }
}
