/**
 * Plane: the thread body that drives one plane through an AirportManager,
 * and the latency it reports.
 *
 * The manager is seen only through the calls the plane makes on it, recorded
 * in order in a ghost field. Every backend catches an interrupt inside its own
 * wait, re-asserts the thread's interrupt flag and returns, so the interrupt
 * surfaces at the plane's next Thread.sleep. The readings of System.nanoTime()
 * are parameters.
 */
module Planes {
  import opened Manager

  const TwoTo63: int := 0x8000_0000_0000_0000
  const TwoTo64: int := 0x1_0000_0000_0000_0000

  /** A Java long. */
  type Long = x: int | -TwoTo63 <= x < TwoTo63

  /** The two's-complement wrap-around of Java long arithmetic. */
  function WrapLong(x: int): (r: Long)
    ensures (r - x) % TwoTo64 == 0
    ensures -TwoTo63 <= x < TwoTo63 ==> r == x
    ensures TwoTo63 <= x < TwoTo64 + TwoTo63 ==> r == x - TwoTo64
    ensures -TwoTo64 - TwoTo63 <= x < -TwoTo63 ==> r == x + TwoTo64
  {
    (x + TwoTo63) % TwoTo64 - TwoTo63
  }

  /**
   * Math.max(0L, end - start) on longs. A difference that fits is reported
   * exactly, clamped at zero; one that overflows upwards wraps to a negative
   * value and is reported as zero; one that overflows downwards wraps to a
   * positive value and is reported as that.
   */
  function Elapsed(start: Long, end: Long): (r: Long)
    ensures r >= 0
    ensures -TwoTo63 <= end - start < TwoTo63 ==> r == if end - start > 0 then end - start else 0
    ensures end - start >= TwoTo63 ==> r == 0
    ensures end - start < -TwoTo63 ==> r == end - start + TwoTo64
  {
    var d := WrapLong(end - start);
    if d > 0 then d else 0
  }

  /**
   * The calls a plane's run makes when it is not interrupted, in their order.
   * The airfield modules step planes through the same calls: see
   * LockAirfield.PhasesFollowLifecycle and the program counter of SemaphoreVersion.
   */
  function Lifecycle(isArriving: bool): seq<Op>
  {
    if isArriving then [RequestRunwayForLanding, FinishLandingAndDock]
    else [RequestRunwayForTakeoff, FinishTakeoff]
  }

  /**
   * The points of a run at which an interrupt is delivered. Arrival: 0 the
   * runway wait, 1 the landing sleep, 2 the gate wait, 3 the docking sleep.
   * Departure: 0 the boarding sleep, 1 the runway wait, 2 the takeoff sleep;
   * finishTakeoff has no wait.
   */
  function InterruptPoints(isArriving: bool): nat
  {
    if isArriving then 4 else 3
  }

  /** The manager calls of a run interrupted at point `k` (no interrupt when k is past the last point). */
  function CallsMade(isArriving: bool, k: nat): (r: seq<Op>)
    ensures r <= Lifecycle(isArriving)
    ensures k >= InterruptPoints(isArriving) ==> r == Lifecycle(isArriving)
    ensures isArriving ==> |r| >= 1
    ensures !isArriving && k == 0 ==> r == []
    ensures r == Lifecycle(isArriving) <==> k >= (if isArriving then 2 else 3)
  {
    if isArriving then
      if k <= 1 then [RequestRunwayForLanding] else [RequestRunwayForLanding, FinishLandingAndDock]
    else
      if k == 0 then [] else if k <= 2 then [RequestRunwayForTakeoff] else [RequestRunwayForTakeoff, FinishTakeoff]
  }

  /** A later interrupt never takes a call away: the calls of an earlier one are a prefix. */
  lemma LaterInterruptMakesMoreCalls(isArriving: bool, k: nat, l: nat)
    requires k <= l
    ensures CallsMade(isArriving, k) <= CallsMade(isArriving, l)
  {
  }

  /**
   * A plane makes each call at most once, only the calls of its own direction,
   * and a completing call only after the matching request.
   */
  lemma CallsFollowTheProtocol(isArriving: bool, k: nat)
    ensures var r := CallsMade(isArriving, k);
            && (forall i, j :: 0 <= i < j < |r| ==> r[i] != r[j])
            && (isArriving ==> RequestRunwayForTakeoff !in r && FinishTakeoff !in r)
            && (!isArriving ==> RequestRunwayForLanding !in r && FinishLandingAndDock !in r)
            && (FinishLandingAndDock in r ==> r[0] == RequestRunwayForLanding)
            && (FinishTakeoff in r ==> r[0] == RequestRunwayForTakeoff)
  {
    var r := CallsMade(isArriving, k);
    assert r <= Lifecycle(isArriving);
    assert |r| <= 2;
  }

  class Plane {
    const id: int
    const isArriving: bool
    var startTimeNs: Long
    var endTimeNs: Long
    /** The AirportManager calls this plane has made, in order. */
    ghost var managerCalls: seq<Op>
    /** How often the run told the controller that the plane finished. */
    ghost var finishNotifications: nat

    constructor (planeId: int, arriving: bool)
      ensures id == planeId && isArriving == arriving
      ensures startTimeNs == 0 && endTimeNs == 0
      ensures managerCalls == [] && finishNotifications == 0
    {
      id := planeId;
      isArriving := arriving;
      startTimeNs := 0;
      endTimeNs := 0;
      managerCalls := [];
      finishNotifications := 0;
    }

    /**
     * Plane.run: `startNs` and `endNs` are the two nanoTime readings, and the
     * interrupt arrives at point `interruptAt` (none when it is past the last
     * point). The normal path and the interrupted one both record the end time
     * and notify the controller once; the result is the thread's interrupt
     * status when the run returns. A callback that throws is not modelled.
     */
    method Run(startNs: Long, endNs: Long, interruptAt: nat) returns (interruptStatus: bool)
      modifies this
      ensures startTimeNs == startNs && endTimeNs == endNs
      ensures managerCalls == old(managerCalls) + CallsMade(isArriving, interruptAt)
      ensures finishNotifications == old(finishNotifications) + 1
      ensures interruptStatus <==> interruptAt < InterruptPoints(isArriving)
    {
      startTimeNs := startNs;
      var thrown := false;
      if isArriving {
        managerCalls := managerCalls + [RequestRunwayForLanding];
        // an interrupt in the runway wait is re-asserted and thrown by the landing sleep
        if interruptAt <= 1 {
          thrown := true;
        } else {
          managerCalls := managerCalls + [FinishLandingAndDock];
          // likewise an interrupt in the gate wait is thrown by the docking sleep
          if interruptAt <= 3 {
            thrown := true;
          }
        }
      } else {
        if interruptAt == 0 {
          thrown := true;
        } else {
          managerCalls := managerCalls + [RequestRunwayForTakeoff];
          // an interrupt in the runway wait is re-asserted and thrown by the takeoff sleep
          if interruptAt <= 2 {
            thrown := true;
          } else {
            managerCalls := managerCalls + [FinishTakeoff];
          }
        }
      }
      // the normal path and the catch block both record the end time
      endTimeNs := endNs;
      // the catch block re-asserts the interrupt
      interruptStatus := thrown;
      finishNotifications := finishNotifications + 1;
    }

    /** getLatencyNs: the recorded end time, or `nowNs` while none is recorded (still zero). */
    function LatencyNs(nowNs: Long): (r: Long)
      reads this
      ensures r >= 0
      ensures endTimeNs != 0 ==> r == Elapsed(startTimeNs, endTimeNs)
      ensures endTimeNs == 0 ==> r == Elapsed(startTimeNs, nowNs)
    {
      var end := if endTimeNs == 0 then nowNs else endTimeNs;
      Elapsed(startTimeNs, end)
    }

    method GetId() returns (n: int)
      ensures n == id
    {
      n := id;
    }

    method IsArriving() returns (b: bool)
      ensures b == isArriving
    {
      b := isArriving;
    }
  }

  /**
   * Once an end time is recorded the latency no longer depends on the clock; a
   * run whose readings are ordered and less than 2^63 ns apart reports exactly
   * their difference.
   */
  lemma LatencyOfRecordedRun(p: Plane, now1: Long, now2: Long)
    requires p.endTimeNs != 0
    ensures p.LatencyNs(now1) == p.LatencyNs(now2)
    ensures 0 <= p.endTimeNs - p.startTimeNs < TwoTo63 ==> p.LatencyNs(now1) == p.endTimeNs - p.startTimeNs
  {
  }

  /**
   * While no end time is recorded (a clock reading of zero included) the
   * latency is the time elapsed up to the caller's reading and grows with it.
   */
  lemma UnrecordedLatencyFollowsTheClock(p: Plane, now1: Long, now2: Long)
    requires p.endTimeNs == 0 && 0 <= p.startTimeNs <= now1 <= now2
    ensures p.LatencyNs(now1) == now1 - p.startTimeNs
    ensures p.LatencyNs(now1) <= p.LatencyNs(now2)
  {
  }
}
