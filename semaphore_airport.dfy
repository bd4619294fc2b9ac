/**
 * SemaphoreAirport: runways and gates are fair counting semaphores, a
 * one-permit semaphore (runwayAccessMutex) admits planes to the runway
 * semaphore, and an AtomicInteger counts the waiting arrivals.
 *
 * None of its methods is one critical section, so each semaphore operation,
 * each atomic counter update, each read of the counter and each
 * Thread.sleep is one step of a plane. A plane's program counter (`Pc`)
 * runs through both manager calls of Plane.run: requestRunwayForLanding then
 * finishLandingAndDock for an arrival, requestRunwayForTakeoff then
 * finishTakeoff for a departure. An acquire is enabled only while its
 * semaphore has a permit; a release adds one unconditionally.
 */
module SemaphoreVersion {
  import opened Manager

  /** java.util.concurrent.Semaphore, reduced to its count of available permits. */
  class Semaphore {
    var permits: int

    constructor (n: int)
      ensures permits == n
    {
      permits := n;
    }

    /** An acquire() that returns: it takes one of the available permits. */
    method Acquire()
      requires permits > 0
      modifies this
      ensures permits == old(permits) - 1
    {
      permits := permits - 1;
    }

    /** release(): adds a permit, whether or not the caller took one. */
    method Release()
      modifies this
      ensures permits == old(permits) + 1
    {
      permits := permits + 1;
    }

    method AvailablePermits() returns (n: int)
      ensures n == permits
    {
      n := permits;
    }
  }

  /** The permits of the three semaphores and the value of the atomic counter. */
  datatype Permits = Permits(runways: int, gates: int, mutex: int, waitingArrivals: int)

  /** After construction: one permit per runway and per gate, a free mutex, no waiting arrival. */
  function Init(numRunways: int, numGates: int): Permits
  {
    Permits(numRunways, numGates, 1, 0)
  }

  /**
   * Where a plane's thread is: before the operation its name describes. The
   * points run through the calls of Planes.Lifecycle in order.
   */
  datatype Pc =
    // arrival, requestRunwayForLanding
    | Approaching                   // at waitingArrivals.incrementAndGet()
    | AwaitingMutex                 // at runwayAccessMutex.acquire()
    | AwaitingRunway                // at runways.acquire(), holding the mutex
    | Acquired                      // at waitingArrivals.decrementAndGet(), holding runway and mutex
    | Deregistered                  // at runwayAccessMutex.release(), holding runway and mutex
    | LandingCaught(holdsMutex: bool)               // in the catch, at waitingArrivals.decrementAndGet()
    | LandingCaughtDeregistered(holdsMutex: bool)   // in the catch, at runwayAccessMutex.release()
    // arrival, Plane.run's landing sleep and finishLandingAndDock
    | Landed                        // holding a runway; next is gates.acquire()
    | Docking                       // at runways.release(), holding runway and gate
    | Docked                        // at its gate: its run is over
    // departure, Plane.run's boarding sleep and requestRunwayForTakeoff
    | Boarding                      // in Thread.sleep(600)
    | AwaitingAdmission             // at the first runwayAccessMutex.acquire()
    | CheckingArrivals              // at waitingArrivals.get() > 0, holding the mutex
    | Yielding                      // at runwayAccessMutex.release() inside the retry loop
    | BackingOff                    // in Thread.sleep(50)
    | Reacquiring                   // at runwayAccessMutex.acquire() inside the retry loop
    | AwaitingTakeoffRunway         // at runways.acquire(), holding the mutex
    | ReleasingGate                 // at gates.release(), holding runway and mutex
    | ReleasingAdmission            // at runwayAccessMutex.release(), holding the runway
    | TakeoffCaught(holdsMutex: bool)               // in the catch, at runwayAccessMutex.release()
    // departure, Plane.run's takeoff sleep and finishTakeoff
    | TakingOff                     // holding a runway; next is runways.release()
    | Departed                      // left the system: its run is over
    // runs ended by an interrupt
    | Gone                          // holding no runway (the catch has run, or nothing was called)
    | Stranded(arriving: bool)      // holding a runway that is never released

  /** What one step does: it moves to a new point with new permits, or it cannot be taken. */
  datatype Action = Action(next: Pc, permits: Permits) | Blocked | NoAction

  /**
   * One step of a plane at `pc`: the operation at that point as SemaphoreAirport
   * and Plane.run write it. Every acquire and every sleep can be interrupted,
   * and an acquire without a permit blocks.
   */
  function Step(pc: Pc, p: Permits, m: Move): Action
  {
    match pc
    case Approaching =>
      if m == Proceed then Action(AwaitingMutex, p.(waitingArrivals := p.waitingArrivals + 1)) else NoAction
    case AwaitingMutex =>
      if m == Interrupt then Action(LandingCaught(false), p)
      else if p.mutex > 0 then Action(AwaitingRunway, p.(mutex := p.mutex - 1)) else Blocked
    case AwaitingRunway =>
      if m == Interrupt then Action(LandingCaught(true), p)
      else if p.runways > 0 then Action(Acquired, p.(runways := p.runways - 1)) else Blocked
    case Acquired =>
      if m == Proceed then Action(Deregistered, p.(waitingArrivals := p.waitingArrivals - 1)) else NoAction
    case Deregistered =>
      if m == Proceed then Action(Landed, p.(mutex := p.mutex + 1)) else NoAction
    case LandingCaught(h) =>
      if m == Proceed then Action(LandingCaughtDeregistered(h), p.(waitingArrivals := p.waitingArrivals - 1))
      else NoAction
    case LandingCaughtDeregistered(h) =>
      // the catch releases the mutex whether or not this thread holds it
      if m == Proceed then Action(Gone, p.(mutex := p.mutex + 1)) else NoAction
    case Landed =>
      // an interrupt in the landing sleep, or in gates.acquire() followed by the docking sleep
      if m == Interrupt then Action(Stranded(true), p)
      else if p.gates > 0 then Action(Docking, p.(gates := p.gates - 1)) else Blocked
    case Docking =>
      if m == Proceed then Action(Docked, p.(runways := p.runways + 1)) else NoAction
    case Boarding =>
      if m == Interrupt then Action(Gone, p) else Action(AwaitingAdmission, p)
    case AwaitingAdmission =>
      if m == Interrupt then Action(TakeoffCaught(false), p)
      else if p.mutex > 0 then Action(CheckingArrivals, p.(mutex := p.mutex - 1)) else Blocked
    case CheckingArrivals =>
      if m == Interrupt then NoAction
      else if p.waitingArrivals > 0 then Action(Yielding, p) else Action(AwaitingTakeoffRunway, p)
    case Yielding =>
      if m == Proceed then Action(BackingOff, p.(mutex := p.mutex + 1)) else NoAction
    case BackingOff =>
      if m == Interrupt then Action(TakeoffCaught(false), p) else Action(Reacquiring, p)
    case Reacquiring =>
      if m == Interrupt then Action(TakeoffCaught(false), p)
      else if p.mutex > 0 then Action(CheckingArrivals, p.(mutex := p.mutex - 1)) else Blocked
    case AwaitingTakeoffRunway =>
      if m == Interrupt then Action(TakeoffCaught(true), p)
      else if p.runways > 0 then Action(ReleasingGate, p.(runways := p.runways - 1)) else Blocked
    case ReleasingGate =>
      if m == Proceed then Action(ReleasingAdmission, p.(gates := p.gates + 1)) else NoAction
    case ReleasingAdmission =>
      if m == Proceed then Action(TakingOff, p.(mutex := p.mutex + 1)) else NoAction
    case TakeoffCaught(h) =>
      // the catch releases the mutex whether or not this thread holds it
      if m == Proceed then Action(Gone, p.(mutex := p.mutex + 1)) else NoAction
    case TakingOff =>
      // an interrupt in the takeoff sleep skips finishTakeoff
      if m == Interrupt then Action(Stranded(false), p) else Action(Departed, p.(runways := p.runways + 1))
    case _ => NoAction
  }

  /** What the getters report for these permits. */
  function View(p: Permits, totalRunways: int, totalGates: int): Manager.Snapshot
  {
    Manager.Snapshot(p.runways, totalRunways, p.gates, totalGates)
  }

  class SemaphoreAirport {
    const runways: Semaphore
    const gates: Semaphore
    const totalRunways: int
    const totalGates: int
    const runwayAccessMutex: Semaphore
    var waitingArrivals: int

    /** The three semaphores are distinct objects. */
    ghost predicate Valid()
      reads this
    {
      runways != gates && runways != runwayAccessMutex && gates != runwayAccessMutex
    }

    function State(): Permits
      reads this, runways, gates, runwayAccessMutex
    {
      Permits(runways.permits, gates.permits, runwayAccessMutex.permits, waitingArrivals)
    }

    constructor (numRunways: int, numGates: int)
      ensures Valid() && fresh(runways) && fresh(gates) && fresh(runwayAccessMutex)
      ensures totalRunways == numRunways && totalGates == numGates
      ensures State() == Init(numRunways, numGates)
    {
      runwayAccessMutex := new Semaphore(1);
      waitingArrivals := 0;
      runways := new Semaphore(numRunways);
      gates := new Semaphore(numGates);
      totalRunways := numRunways;
      totalGates := numGates;
    }

    /** Performs the one operation at `pc`, as `Step` describes it, and returns the next point. */
    method Advance(pc: Pc, m: Move) returns (next: Pc)
      requires Valid() && Step(pc, State(), m).Action?
      modifies this, runways, gates, runwayAccessMutex
      ensures Step(pc, old(State()), m) == Action(next, State())
    {
      match pc {
        case Approaching =>
          waitingArrivals := waitingArrivals + 1;
          next := AwaitingMutex;
        case AwaitingMutex =>
          if m == Interrupt {
            next := LandingCaught(false);
          } else {
            runwayAccessMutex.Acquire();
            next := AwaitingRunway;
          }
        case AwaitingRunway =>
          if m == Interrupt {
            next := LandingCaught(true);
          } else {
            runways.Acquire();
            next := Acquired;
          }
        case Acquired =>
          waitingArrivals := waitingArrivals - 1;
          next := Deregistered;
        case Deregistered =>
          runwayAccessMutex.Release();
          next := Landed;
        case LandingCaught(h) =>
          waitingArrivals := waitingArrivals - 1;
          next := LandingCaughtDeregistered(h);
        case LandingCaughtDeregistered(h) =>
          runwayAccessMutex.Release();
          next := Gone;
        case Landed =>
          if m == Interrupt {
            next := Stranded(true);
          } else {
            gates.Acquire();
            next := Docking;
          }
        case Docking =>
          runways.Release();
          next := Docked;
        case Boarding =>
          next := if m == Interrupt then Gone else AwaitingAdmission;
        case AwaitingAdmission =>
          if m == Interrupt {
            next := TakeoffCaught(false);
          } else {
            runwayAccessMutex.Acquire();
            next := CheckingArrivals;
          }
        case CheckingArrivals =>
          next := if waitingArrivals > 0 then Yielding else AwaitingTakeoffRunway;
        case Yielding =>
          runwayAccessMutex.Release();
          next := BackingOff;
        case BackingOff =>
          next := if m == Interrupt then TakeoffCaught(false) else Reacquiring;
        case Reacquiring =>
          if m == Interrupt {
            next := TakeoffCaught(false);
          } else {
            runwayAccessMutex.Acquire();
            next := CheckingArrivals;
          }
        case AwaitingTakeoffRunway =>
          if m == Interrupt {
            next := TakeoffCaught(true);
          } else {
            runways.Acquire();
            next := ReleasingGate;
          }
        case ReleasingGate =>
          gates.Release();
          next := ReleasingAdmission;
        case ReleasingAdmission =>
          runwayAccessMutex.Release();
          next := TakingOff;
        case TakeoffCaught(h) =>
          runwayAccessMutex.Release();
          next := Gone;
        case TakingOff =>
          if m == Interrupt {
            next := Stranded(false);
          } else {
            runways.Release();
            next := Departed;
          }
        case _ =>
          // Docked, Departed, Gone and Stranded have no step
          assert false;
          next := pc;
      }
    }

    method GetFreeRunways() returns (n: int)
      ensures n == runways.permits
    {
      n := runways.AvailablePermits();
    }

    method GetTotalRunways() returns (n: int)
      ensures n == totalRunways
    {
      n := totalRunways;
    }

    method GetFreeGates() returns (n: int)
      ensures n == gates.permits
    {
      n := gates.AvailablePermits();
    }

    method GetTotalGates() returns (n: int)
      ensures n == totalGates
    {
      n := totalGates;
    }
  }
}
