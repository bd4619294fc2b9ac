/**
 * The AirportManager interface: four blocking operations and four getters,
 * implemented interchangeably by the lock, monitor and semaphore backends.
 *
 * The interface has no bodies. It is modelled as the view its getters give
 * (`Snapshot`) and a predicate `Completes` saying what a call that returns
 * having done its work promises about that view; every backend proves that
 * its completing steps satisfy it.
 */
module Manager {

  /** The four operations a plane calls, in the interface's order. */
  datatype Op =
    | RequestRunwayForLanding
    | FinishLandingAndDock
    | RequestRunwayForTakeoff
    | FinishTakeoff

  /**
   * How a plane's thread leaves the point it is at: it goes on, or it is
   * interrupted there (InterruptedException from a wait, an acquire or a sleep).
   */
  datatype Move = Proceed | Interrupt

  /** What getFreeRunways, getTotalRunways, getFreeGates and getTotalGates report. */
  datatype Snapshot = Snapshot(freeRunways: int, totalRunways: int, freeGates: int, totalGates: int)

  /**
   * The interface's promise for one completed call, from the view just before
   * the call's work to the view just after it:
   *  - landing does not complete while no runway is free, and takes one;
   *  - docking does not complete while no gate is free, takes one and
   *    releases the caller's runway;
   *  - takeoff does not complete while no runway is free, takes one and
   *    vacates the caller's gate;
   *  - finishing a takeoff releases one runway;
   *  - the totals never change.
   */
  predicate Completes(op: Op, before: Snapshot, after: Snapshot)
  {
    && after.totalRunways == before.totalRunways
    && after.totalGates == before.totalGates
    && match op
       case RequestRunwayForLanding =>
         before.freeRunways > 0 && after.freeRunways == before.freeRunways - 1
         && after.freeGates == before.freeGates
       case FinishLandingAndDock =>
         before.freeGates > 0 && after.freeGates == before.freeGates - 1
         && after.freeRunways == before.freeRunways + 1
       case RequestRunwayForTakeoff =>
         before.freeRunways > 0 && after.freeRunways == before.freeRunways - 1
         && after.freeGates == before.freeGates + 1
       case FinishTakeoff =>
         after.freeRunways == before.freeRunways + 1 && after.freeGates == before.freeGates
  }
}
