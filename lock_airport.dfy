/**
 * LockAirport: one fair ReentrantLock guards freeRunways, freeGates and
 * waitingArrivals; two conditions (runwayFree, gateFree) hold the waiters.
 *
 * Every method body runs inside lock()/unlock(), so each is one atomic update
 * of the three counters, except requestRunwayForLanding: when its loop waits,
 * the await releases the lock and the call is two critical sections,
 * registering as a waiting arrival and, later, acquiring the runway. The model
 * always splits it so, which also lets other planes move between the two
 * sections when a runway was free at once. A `while (...) await()` loop becomes the
 * enabling condition (`Guard`) of the section that follows it; an await that
 * throws InterruptedException ends its section with no further change.
 */
module LockVersion {
  import Manager

  /** The lock-protected fields of LockAirport (MonitorAirport has the same three). */
  datatype Counters = Counters(freeRunways: int, freeGates: int, waitingArrivals: int)

  /** One critical section of a LockAirport or MonitorAirport method. */
  datatype Section =
    | Register         // requestRunwayForLanding up to the wait: waitingArrivals++
    | LandingAcquire   // its wait loop exits: freeRunways--, waitingArrivals--
    | Dock             // finishLandingAndDock: freeGates--, freeRunways++
    | TakeoffAcquire   // requestRunwayForTakeoff: freeRunways--, freeGates++
    | TakeoffFinish    // finishTakeoff: freeRunways++
    | Interrupted      // an await threw InterruptedException: the catch changes nothing

  /** The counters right after construction: no capacity check is made. */
  function Init(numRunways: int, numGates: int): Counters
  {
    Counters(numRunways, numGates, 0)
  }

  /** The exit condition of the section's wait loop; sections without one are always enabled. */
  predicate Guard(s: Section, c: Counters)
  {
    match s
    case LandingAcquire => !(c.freeRunways == 0)
    case Dock => !(c.freeGates == 0)
    case TakeoffAcquire => !(c.freeRunways == 0 || c.waitingArrivals > 0)
    case _ => true
  }

  /** The counters after the section's updates. */
  function Effect(s: Section, c: Counters): Counters
  {
    match s
    case Register => c.(waitingArrivals := c.waitingArrivals + 1)
    case LandingAcquire => c.(freeRunways := c.freeRunways - 1, waitingArrivals := c.waitingArrivals - 1)
    case Dock => c.(freeGates := c.freeGates - 1, freeRunways := c.freeRunways + 1)
    case TakeoffAcquire => c.(freeRunways := c.freeRunways - 1, freeGates := c.freeGates + 1)
    case TakeoffFinish => c.(freeRunways := c.freeRunways + 1)
    case Interrupted => c
  }

  /** Either a wait loop that does not exit, or the counters after the last section. */
  datatype Outcome = Blocked | Reached(counters: Counters)

  /** Runs sections one after another, with nothing else in between. */
  function Replay(c: Counters, ss: seq<Section>): Outcome
    decreases |ss|
  {
    if ss == [] then Reached(c)
    else if !Guard(ss[0], c) then Blocked
    else Replay(Effect(ss[0], c), ss[1..])
  }

  /** The sections an uninterrupted call of `op` runs. */
  function CallSections(op: Manager.Op): seq<Section>
  {
    match op
    case RequestRunwayForLanding => [Register, LandingAcquire]
    case FinishLandingAndDock => [Dock]
    case RequestRunwayForTakeoff => [TakeoffAcquire]
    case FinishTakeoff => [TakeoffFinish]
  }

  /** The sections of several calls, in order. */
  function CallsSections(ops: seq<Manager.Op>): seq<Section>
  {
    if ops == [] then [] else CallSections(ops[0]) + CallsSections(ops[1..])
  }

  /** What the getters report for these counters. */
  function View(c: Counters, totalRunways: int, totalGates: int): Manager.Snapshot
  {
    Manager.Snapshot(c.freeRunways, totalRunways, c.freeGates, totalGates)
  }

  /** No free count and no waiting count is negative. */
  predicate NonNegative(c: Counters)
  {
    c.freeRunways >= 0 && c.freeGates >= 0 && c.waitingArrivals >= 0
  }

  /** On non-negative counters a wait loop exits exactly when the resource it waits for is free. */
  lemma GuardMeansAvailable(s: Section, c: Counters)
    requires NonNegative(c)
    ensures s == LandingAcquire ==> (Guard(s, c) <==> c.freeRunways > 0)
    ensures s == Dock ==> (Guard(s, c) <==> c.freeGates > 0)
    ensures s == TakeoffAcquire ==> (Guard(s, c) <==> c.freeRunways > 0 && c.waitingArrivals == 0)
  {
  }

  /**
   * Sections that decrement a counter are guarded by it or follow the matching
   * increment, so non-negativity is kept (a landing acquire needs the caller's
   * own registration, counted in `waitingArrivals`).
   */
  lemma EffectKeepsNonNegative(s: Section, c: Counters)
    requires NonNegative(c) && Guard(s, c)
    requires s == LandingAcquire ==> c.waitingArrivals > 0
    ensures NonNegative(Effect(s, c))
  {
  }

  /** An uninterrupted call runs to its end exactly when the condition of its wait loop holds. */
  lemma CallRunsWhenGuardHolds(op: Manager.Op, c: Counters)
    ensures op == Manager.RequestRunwayForLanding ==> (Replay(c, CallSections(op)).Reached? <==> c.freeRunways != 0)
    ensures op == Manager.FinishLandingAndDock ==> (Replay(c, CallSections(op)).Reached? <==> c.freeGates != 0)
    ensures op == Manager.RequestRunwayForTakeoff ==>
              (Replay(c, CallSections(op)).Reached? <==> c.freeRunways != 0 && c.waitingArrivals <= 0)
    ensures op == Manager.FinishTakeoff ==> Replay(c, CallSections(op)).Reached?
  {
    assert [Register, LandingAcquire][1..] == [LandingAcquire];
  }

  /**
   * Every call that completes keeps the AirportManager promise; a landing's
   * register and acquire leave waitingArrivals as it was, and no call other
   * than landing touches it.
   */
  lemma CompletedCallHonoursContract(op: Manager.Op, c: Counters, totalRunways: int, totalGates: int)
    requires NonNegative(c)
    requires Replay(c, CallSections(op)).Reached?
    ensures var after := Replay(c, CallSections(op)).counters;
            && Manager.Completes(op, View(c, totalRunways, totalGates), View(after, totalRunways, totalGates))
            && after.waitingArrivals == c.waitingArrivals
  {
    assert [Register, LandingAcquire][1..] == [LandingAcquire];
  }

  /** Running two lists of sections back to back is running their concatenation. */
  lemma {:induction false} ReplayAppend(c: Counters, ss: seq<Section>, tt: seq<Section>)
    ensures Replay(c, ss + tt) ==
            match Replay(c, ss)
            case Blocked => Blocked
            case Reached(d) => Replay(d, tt)
    decreases |ss|
  {
    if ss != [] {
      assert (ss + tt)[0] == ss[0];
      assert (ss + tt)[1..] == ss[1..] + tt;
      if Guard(ss[0], c) {
        ReplayAppend(Effect(ss[0], c), ss[1..], tt);
      }
    } else {
      assert ss + tt == tt;
    }
  }

  /**
   * A plane that lands and docks with no other plane in between leaves one gate
   * fewer and the runways and waiting count as they were.
   */
  lemma ArrivalNetEffect(c: Counters)
    requires c.freeRunways != 0
    requires c.freeGates != 0
    ensures Replay(c, CallsSections([Manager.RequestRunwayForLanding, Manager.FinishLandingAndDock]))
            == Reached(c.(freeGates := c.freeGates - 1))
  {
    var ops := [Manager.RequestRunwayForLanding, Manager.FinishLandingAndDock];
    assert ops[1..][1..] == [];
    assert CallsSections(ops) == [Register, LandingAcquire] + [Dock];
    ReplayAppend(c, [Register, LandingAcquire], [Dock]);
    assert [Register, LandingAcquire][1..] == [LandingAcquire];
  }

  /**
   * A plane that takes off and leaves with no other plane in between frees one
   * gate and leaves the runways as they were; it cannot start while an arrival waits.
   */
  lemma DepartureNetEffect(c: Counters)
    ensures Replay(c, CallsSections([Manager.RequestRunwayForTakeoff, Manager.FinishTakeoff])).Reached?
            <==> c.freeRunways != 0 && c.waitingArrivals <= 0
    ensures c.freeRunways != 0 && c.waitingArrivals <= 0 ==>
              Replay(c, CallsSections([Manager.RequestRunwayForTakeoff, Manager.FinishTakeoff]))
              == Reached(c.(freeGates := c.freeGates + 1))
  {
    var ops := [Manager.RequestRunwayForTakeoff, Manager.FinishTakeoff];
    assert ops[1..][1..] == [];
    assert CallsSections(ops) == [TakeoffAcquire] + [TakeoffFinish];
    ReplayAppend(c, [TakeoffAcquire], [TakeoffFinish]);
  }

  /**
   * An interrupt during the landing wait keeps the registration: the free
   * counts are as before the call, waitingArrivals is one higher, and from then
   * on the takeoff wait loop cannot exit on these counters.
   */
  lemma InterruptedLandingLeaves(c: Counters)
    requires NonNegative(c)
    ensures var after := Replay(c, [Register, Interrupted]);
            && after == Reached(c.(waitingArrivals := c.waitingArrivals + 1))
            && !Guard(TakeoffAcquire, after.counters)
  {
    assert [Register, Interrupted][1..] == [Interrupted];
  }

  class LockAirport {
    const totalRunways: int
    const totalGates: int
    var freeRunways: int
    var freeGates: int
    var waitingArrivals: int
    /** Landing calls between their two critical sections (bookkeeping of the model only). */
    ghost var landingsInWait: nat

    /** Nothing is negative, and every landing still in its wait is counted in waitingArrivals. */
    ghost predicate Valid()
      reads this
    {
      freeRunways >= 0 && freeGates >= 0 && waitingArrivals >= landingsInWait
    }

    /** The three lock-protected fields. */
    function State(): Counters
      reads this
    {
      Counters(freeRunways, freeGates, waitingArrivals)
    }

    constructor (numRunways: int, numGates: int)
      ensures totalRunways == numRunways && totalGates == numGates
      ensures State() == Init(numRunways, numGates) && landingsInWait == 0
      ensures numRunways >= 0 && numGates >= 0 ==> Valid()
    {
      totalRunways := numRunways;
      totalGates := numGates;
      freeRunways := numRunways;
      freeGates := numGates;
      waitingArrivals := 0;
      landingsInWait := 0;
    }

    /** requestRunwayForLanding, first critical section: announce a waiting arrival. */
    method RegisterForLanding()
      requires Valid()
      modifies this
      ensures Valid() && landingsInWait == old(landingsInWait) + 1
      ensures State() == Effect(Register, old(State()))
    {
      waitingArrivals := waitingArrivals + 1;
      landingsInWait := landingsInWait + 1;
    }

    /**
     * requestRunwayForLanding, second critical section: the wait loop has exited
     * (a runway is free), or the await threw InterruptedException (`interrupted`).
     */
    method AcquireRunwayForLanding(interrupted: bool)
      requires Valid() && landingsInWait > 0
      requires !interrupted ==> Guard(LandingAcquire, State())
      modifies this
      ensures Valid() && landingsInWait == old(landingsInWait) - 1
      ensures State() == Effect(if interrupted then Interrupted else LandingAcquire, old(State()))
    {
      landingsInWait := landingsInWait - 1;
      if !interrupted {
        freeRunways := freeRunways - 1;
        waitingArrivals := waitingArrivals - 1;
      }
    }

    /** finishLandingAndDock: take a gate once one is free, then release the runway. */
    method FinishLandingAndDock(interrupted: bool)
      requires Valid()
      requires !interrupted ==> Guard(Dock, State())
      modifies this
      ensures Valid() && landingsInWait == old(landingsInWait)
      ensures State() == Effect(if interrupted then Interrupted else Dock, old(State()))
    {
      if !interrupted {
        freeGates := freeGates - 1;
        freeRunways := freeRunways + 1;
      }
    }

    /** requestRunwayForTakeoff: take a runway once one is free and no arrival waits, then vacate the gate. */
    method RequestRunwayForTakeoff(interrupted: bool)
      requires Valid()
      requires !interrupted ==> Guard(TakeoffAcquire, State())
      modifies this
      ensures Valid() && landingsInWait == old(landingsInWait)
      ensures State() == Effect(if interrupted then Interrupted else TakeoffAcquire, old(State()))
    {
      if !interrupted {
        freeRunways := freeRunways - 1;
        freeGates := freeGates + 1;
      }
    }

    /** finishTakeoff: release the runway, unconditionally. */
    method FinishTakeoff()
      requires Valid()
      modifies this
      ensures Valid() && landingsInWait == old(landingsInWait)
      ensures State() == Effect(TakeoffFinish, old(State()))
    {
      freeRunways := freeRunways + 1;
    }

    method GetFreeRunways() returns (n: int)
      ensures n == freeRunways
    {
      n := freeRunways;
    }

    method GetTotalRunways() returns (n: int)
      ensures n == totalRunways
    {
      n := totalRunways;
    }

    method GetFreeGates() returns (n: int)
      ensures n == freeGates
    {
      n := freeGates;
    }

    method GetTotalGates() returns (n: int)
      ensures n == totalGates
    {
      n := totalGates;
    }
  }
}
