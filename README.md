# Airport runway and gate controller, modelled in Dafny

The system schedules planes over two finite pools, runways and gates. Arrivals
have priority over departures for runways. The `AirportManager` interface has
four blocking operations: `requestRunwayForLanding`, `finishLandingAndDock`,
`requestRunwayForTakeoff` and `finishTakeoff`. It also has four getters. Three
interchangeable backends implement it:

- `LockAirport`: a fair `ReentrantLock` with two conditions.
- `MonitorAirport`: `synchronized` methods with `wait`/`notifyAll`.
- `SemaphoreAirport`: counting semaphores, a one-permit admission mutex and an
  atomic counter of waiting arrivals.

Each plane is a thread running `Plane.run`. An arrival lands and then docks. A
departure boards, takes off and then finishes its takeoff. The thread records
start and end times, and `getLatencyNs` reports their difference.

Layout:

| file | module | models |
|---|---|---|
| `manager.dfy` | `Manager` | the interface: the four operations, the getters' view and the promise of a completed call (`Completes`) |
| `lock_airport.dfy` | `LockVersion` | the `LockAirport` class with its fields; its critical sections as guard/effect functions |
| `monitor_airport.dfy` | `MonitorVersion` | the `MonitorAirport` class; its sections are defined on their own and then proved equal to `LockAirport`'s |
| `lock_airfield.dfy` | `LockAirfield` | many planes interleaved against either lock-based backend |
| `semaphore_airport.dfy` | `SemaphoreVersion` | `java.util.concurrent.Semaphore` as a permit count, and `SemaphoreAirport` one semaphore operation at a time |
| `semaphore_airfield.dfy` | `SemaphoreAirfield` | many planes interleaved against the semaphore backend |
| `plane.dfy` | `Planes` | `Plane.run` and `getLatencyNs`, including Java `long` wrap-around |
| `tally.dfy` | `Tally` | sums of per-plane weights, used by the conservation laws |

How it is modelled:

- Interface. Dafny traits are not used. A backend satisfies the interface by
  proving that its completed calls meet `Manager.Completes`.
- Blocking. A `while (...) await()` / `wait()` loop becomes a precondition of the
  class method, and the enabling condition of a step in the system model.
- Interrupts. An interrupt is a `Move`. Every backend catches
  `InterruptedException` inside the call, re-asserts the interrupt flag and
  returns. The plane's next `Thread.sleep` then throws, so the plane's run ends
  there. It keeps whatever it holds at that point.
- Interleavings. The system models are functions over schedules, which are
  sequences of (plane, move). The properties are conservation laws kept by
  every step.

Where the design text and the code disagree, the model follows the code:

- Cancellation. The design says a cancelled landing wait restores every counter
  it changed. In `LockAirport` and `MonitorAirport` it does not. An interrupted
  landing wait keeps its `waitingArrivals` increment.
- Capacities. The design requires positive capacities checked at construction.
  No backend checks them. The constructors accept any value, and the invariant
  lemmas assume non-negative capacities.
- Gate bound. The design states `0 <= free <= total` for gates. But
  `Plane.run` starts departures at a gate they never acquired. Their takeoff
  therefore raises the free gate count above the total. `FreeGatesWithinTotal`
  says exactly when the bound holds. The extra free gate is then handed out:
  with one gate, a departure and two arrivals can end with both arrivals docked
  (`DockedArrivalsExceedGates`).
- Priority in the semaphore backend. The semaphore backend checks the priority
  rule only at the moment a departure reads the counter. An arrival that
  registers after that read is overtaken (`DepartureOvertakesRegisteredArrival`).

## Model

| member | source | states |
|---|---|---|
| Manager.Completes | AirportProject/Common/com/airport/common/AirportManager.java:4-14 | the interface's promise for a completed call: landing and takeoff need a free runway and take one; docking needs a free gate, takes it and releases a runway; takeoff vacates a gate; finishTakeoff releases a runway; totals never change |
| LockVersion.Init | AirportProject/LockVersion/com/airport/lock/LockAirport.java:23-28 | the counters after construction: all runways and gates free, no arrival waiting, no capacity check |
| LockVersion.Guard | AirportProject/LockVersion/com/airport/lock/LockAirport.java:40-42 | the exit condition of each wait loop (lines 40, 62, 89); sections without a loop are always enabled |
| LockVersion.Effect | AirportProject/LockVersion/com/airport/lock/LockAirport.java:37-48 | the field updates of each critical section (lines 37, 45-48, 67-70, 94-97, 112); an interrupted await changes nothing |
| MonitorVersion.MayProceed | AirportProject/MonitorVersion/com/airport/monitor/MonitorAirport.java:31-33 | the exit condition of each wait loop (lines 31, 48, 70), written from MonitorAirport on its own |
| MonitorVersion.Apply | AirportProject/MonitorVersion/com/airport/monitor/MonitorAirport.java:27-37 | the field updates of each synchronized section (lines 27, 36-37, 53-56, 75-78, 89) |
| LockAirfield.PlaneTransition | AirportProject/Common/com/airport/common/Plane.java:25-78 | the section a plane's next move runs against a lock-based backend and the phase it reaches; an interrupt ends the run where the plane stands |
| LockAirfield.PhasesFollowLifecycle | AirportProject/Common/com/airport/common/Plane.java:26-74 | an uninterrupted plane runs exactly the sections of its lifecycle calls, in order, and then ends its run |
| LockAirfield.SectionsBeforePoint | AirportProject/Common/com/airport/common/Plane.java:31-67 | how many sections a plane has run when it reaches each interrupt point: the landing request's registration before the runway wait, the whole request before the landing sleep and the gate wait, docking before the docking sleep; nothing before boarding or the takeoff request's wait, the takeoff section before the takeoff sleep |
| LockAirfield.PointInWait | AirportProject/Common/com/airport/common/Plane.java:31-67 | which interrupt points lie inside a manager call's wait loop rather than in a Thread.sleep |
| LockAirfield.InterruptEndsTheRun | AirportProject/Common/com/airport/common/Plane.java:75-78 | for every interrupt point k: the sections run to reach it are the sections of CallsMade(k), less the one section whose wait is interrupted when k is a wait; the interrupt itself does none of that section's work and leaves the plane in a phase with no further move (leaked, gone, stranded, or docked for the docking sleep) |
| SemaphoreVersion.Step | AirportProject/SemaphoreVersion/com/airport/semaphore/SemaphoreAirport.java:31-123 | one semaphore, counter or sleep operation of a plane at its point, including the catch blocks' unconditional releases; an acquire without a permit blocks |
| LockVersion.CallSections | AirportProject/LockVersion/com/airport/lock/LockAirport.java:33-117 | the critical sections each uninterrupted call runs: registration then runway acquire for landing, one section for each other call |
| LockVersion.View | AirportProject/Common/com/airport/common/AirportManager.java:16-20 | the four getters report the free counters and the capacities |
| Planes.Lifecycle | AirportProject/Common/com/airport/common/Plane.java:31-67 | the manager calls (lines 31, 37, 60, 67) of an uninterrupted run, in order: landing request then docking for an arrival, takeoff request then finishTakeoff for a departure |
| Planes.InterruptPoints | AirportProject/Common/com/airport/common/Plane.java:31-67 | the points where an interrupt reaches a run (the sleeps at lines 35, 44, 58, 65 and the waits inside the calls): four for an arrival (runway wait, landing sleep, gate wait, docking sleep), three for a departure (boarding sleep, runway wait, takeoff sleep) |
| SemaphoreVersion.Init | AirportProject/SemaphoreVersion/com/airport/semaphore/SemaphoreAirport.java:17-25 | the permits after construction: all runways and gates, one mutex permit, no arrival waiting, no capacity check |
| SemaphoreVersion.View | AirportProject/Common/com/airport/common/AirportManager.java:16-20 | the getters report the runway and gate semaphores' available permits and the capacities |
| LockVersion.GuardMeansAvailable | AirportProject/LockVersion/com/airport/lock/LockAirport.java:40-42 | on non-negative counters, a wait loop exits exactly when its resource is free; for takeoff, also when no arrival is waiting |
| LockVersion.EffectKeepsNonNegative | AirportProject/LockVersion/com/airport/lock/LockAirport.java:44-48 | a section whose guard holds never drives a counter negative |
| LockVersion.CallRunsWhenGuardHolds | AirportProject/LockVersion/com/airport/lock/LockAirport.java:33-118 | each uninterrupted call completes if and only if its wait condition is false |
| LockVersion.CompletedCallHonoursContract | AirportProject/Common/com/airport/common/AirportManager.java:4-14 | every completed LockAirport call meets the interface promise, and waitingArrivals ends as it started |
| LockVersion.ArrivalNetEffect | AirportProject/LockVersion/com/airport/lock/LockAirport.java:33-77 | an undisturbed landing followed by docking leaves one gate fewer, and leaves runways and waitingArrivals unchanged |
| LockVersion.DepartureNetEffect | AirportProject/LockVersion/com/airport/lock/LockAirport.java:83-117 | an undisturbed takeoff completes if and only if a runway is free and no arrival waits; it then frees one gate and leaves runways unchanged |
| LockVersion.InterruptedLandingLeaves | AirportProject/LockVersion/com/airport/lock/LockAirport.java:33-55 | an interrupted landing wait leaves waitingArrivals one higher, which then blocks every takeoff |
| LockVersion.LockAirport.constructor | AirportProject/LockVersion/com/airport/lock/LockAirport.java:23-28 | every runway and gate starts free and no arrival waits; no capacity check is made |
| LockVersion.LockAirport.RegisterForLanding | AirportProject/LockVersion/com/airport/lock/LockAirport.java:34-37 | waitingArrivals is incremented under the lock |
| LockVersion.LockAirport.AcquireRunwayForLanding | AirportProject/LockVersion/com/airport/lock/LockAirport.java:39-54 | the runway is taken and the registration withdrawn only when a runway is free; an interrupt changes nothing |
| LockVersion.LockAirport.FinishLandingAndDock | AirportProject/LockVersion/com/airport/lock/LockAirport.java:58-77 | when a gate is free it is taken and a runway released; an interrupt changes nothing |
| LockVersion.LockAirport.RequestRunwayForTakeoff | AirportProject/LockVersion/com/airport/lock/LockAirport.java:83-104 | a runway is taken and a gate freed only when a runway is free and no arrival waits |
| LockVersion.LockAirport.FinishTakeoff | AirportProject/LockVersion/com/airport/lock/LockAirport.java:108-117 | one runway is released, with no guard |
| LockVersion.LockAirport.GetFreeRunways | AirportProject/LockVersion/com/airport/lock/LockAirport.java:123-130 | reports freeRunways |
| LockVersion.LockAirport.GetTotalRunways | AirportProject/LockVersion/com/airport/lock/LockAirport.java:133-135 | reports the runway capacity |
| LockVersion.LockAirport.GetFreeGates | AirportProject/LockVersion/com/airport/lock/LockAirport.java:138-145 | reports freeGates |
| LockVersion.LockAirport.GetTotalGates | AirportProject/LockVersion/com/airport/lock/LockAirport.java:148-150 | reports the gate capacity |
| MonitorVersion.SameTransitionsAsLock | AirportProject/MonitorVersion/com/airport/monitor/MonitorAirport.java:25-91 | every MonitorAirport section has the same wait condition and the same field updates as its LockAirport counterpart |
| MonitorVersion.MonitorAirport.constructor | AirportProject/MonitorVersion/com/airport/monitor/MonitorAirport.java:15-20 | every runway and gate starts free and no arrival waits |
| MonitorVersion.MonitorAirport.RegisterForLanding | AirportProject/MonitorVersion/com/airport/monitor/MonitorAirport.java:25-27 | waitingArrivals is incremented inside the monitor |
| MonitorVersion.MonitorAirport.AcquireRunwayForLanding | AirportProject/MonitorVersion/com/airport/monitor/MonitorAirport.java:29-41 | the runway is taken and the registration withdrawn only when a runway is free; an interrupt changes nothing |
| MonitorVersion.MonitorAirport.FinishLandingAndDock | AirportProject/MonitorVersion/com/airport/monitor/MonitorAirport.java:45-62 | when a gate is free it is taken and a runway released; an interrupt changes nothing |
| MonitorVersion.MonitorAirport.RequestRunwayForTakeoff | AirportProject/MonitorVersion/com/airport/monitor/MonitorAirport.java:67-84 | a runway is taken and a gate freed only when a runway is free and no arrival waits |
| MonitorVersion.MonitorAirport.FinishTakeoff | AirportProject/MonitorVersion/com/airport/monitor/MonitorAirport.java:87-91 | one runway is released, with no guard |
| MonitorVersion.MonitorAirport.GetFreeRunways | AirportProject/MonitorVersion/com/airport/monitor/MonitorAirport.java:95-98 | reports freeRunways |
| MonitorVersion.MonitorAirport.GetTotalRunways | AirportProject/MonitorVersion/com/airport/monitor/MonitorAirport.java:100-103 | reports the runway capacity |
| MonitorVersion.MonitorAirport.GetFreeGates | AirportProject/MonitorVersion/com/airport/monitor/MonitorAirport.java:105-108 | reports freeGates |
| MonitorVersion.MonitorAirport.GetTotalGates | AirportProject/MonitorVersion/com/airport/monitor/MonitorAirport.java:110-113 | reports the gate capacity |
| LockAirfield.StartSatisfiesInvariant | AirportProject/LockVersion/com/airport/lock/LockAirport.java:23-28 | a fresh backend with non-negative capacities satisfies the conservation laws |
| LockAirfield.NextKeepsInvariant | AirportProject/LockVersion/com/airport/lock/LockAirport.java:33-118 | every move of any plane on either backend keeps the laws: free runways plus held runways equals the total; free gates plus docked arrivals equals the total plus the gates vacated by departures; waitingArrivals counts the registered landings; no free count is negative |
| LockAirfield.RunKeepsInvariant | AirportProject/Common/com/airport/common/Plane.java:21-87 | the laws hold after every schedule of plane moves |
| LockAirfield.RunwaysNeverOverbooked | AirportProject/LockVersion/com/airport/lock/LockAirport.java:40-45 | no more planes hold runways than exist; freeRunways stays within [0, total]; waitingArrivals is never negative |
| LockAirfield.FreeGatesWithinTotal | AirportProject/LockVersion/com/airport/lock/LockAirport.java:96-97 | freeGates stays at or below the total if and only if gate-freeing departures do not outnumber docked arrivals |
| LockAirfield.FreshDepartureOverflowsGates | AirportProject/Common/com/airport/common/Plane.java:54-60 | with one runway and one gate, a departure that never docked takes off and leaves two free gates |
| LockAirfield.DockedArrivalsExceedGates | AirportProject/Common/com/airport/common/Plane.java:54-60 | with two runways and one gate, a departure followed by two arrivals reaches a state where both arrivals are docked: two planes hold gates of one |
| LockAirfield.RegisteredArrivalBlocksTakeoff | AirportProject/LockVersion/com/airport/lock/LockAirport.java:86-91 | while any plane is counted in waitingArrivals, no departure can take a runway |
| LockAirfield.TakeoffOnlyWithoutWaitingArrivals | AirportProject/MonitorVersion/com/airport/monitor/MonitorAirport.java:69-72 | a departure able to take a runway sees a free runway, zero waitingArrivals and no plane in the landing wait |
| LockAirfield.LeakIsPermanent | AirportProject/LockVersion/com/airport/lock/LockAirport.java:50-51 | a registration left by an interrupted landing wait survives every later schedule |
| LockAirfield.LeakDisablesTakeoffForever | AirportProject/LockVersion/com/airport/lock/LockAirport.java:50-51 | after one interrupted landing wait, no departure ever takes a runway again |
| LockAirfield.QuietAirfieldFreesAllRunways | AirportProject/LockVersion/com/airport/lock/LockAirport.java:108-113 | once no plane holds a runway, all runways are free; without leaked registrations waitingArrivals is zero |
| LockAirfield.BackendsAgree | AirportProject/MonitorVersion/com/airport/monitor/MonitorAirport.java:24-91 | LockAirport and MonitorAirport allow the same schedules and reach the same states |
| LockAirfield.CorrectedNextKeepsInvariant | AirportProject/LockVersion/com/airport/lock/LockAirport.java:50-51 | with a cancellation that withdraws its registration, the laws hold and no registration is left behind |
| LockAirfield.CorrectedRunKeepsInvariant | AirportProject/LockVersion/com/airport/lock/LockAirport.java:50-51 | with the corrected cancellation, the laws hold and no registration leaks on every schedule |
| LockAirfield.CorrectedDeparturesNotBlocked | AirportProject/LockVersion/com/airport/lock/LockAirport.java:89-91 | with the corrected cancellation, from a fresh airport, once no plane is in the landing wait and a runway is free, every departure at its gate can take off |
| LockAirfield.CorrectedCancelRestoresCounters | AirportProject/MonitorVersion/com/airport/monitor/MonitorAirport.java:39-40 | with that cancellation, an interrupted landing wait restores the counters it found |
| SemaphoreVersion.SemaphoreAirport.constructor | AirportProject/SemaphoreVersion/com/airport/semaphore/SemaphoreAirport.java:17-26 | three distinct fresh semaphores hold the runway, gate and mutex permits, and no arrival waits |
| SemaphoreVersion.SemaphoreAirport.Advance | AirportProject/SemaphoreVersion/com/airport/semaphore/SemaphoreAirport.java:31-123 | performs the single semaphore or counter operation at the plane's point, and leaves the state the step function gives |
| SemaphoreVersion.SemaphoreAirport.GetFreeRunways | AirportProject/SemaphoreVersion/com/airport/semaphore/SemaphoreAirport.java:101-103 | reports the runway semaphore's available permits |
| SemaphoreVersion.SemaphoreAirport.GetTotalRunways | AirportProject/SemaphoreVersion/com/airport/semaphore/SemaphoreAirport.java:106-108 | reports the runway capacity |
| SemaphoreVersion.SemaphoreAirport.GetFreeGates | AirportProject/SemaphoreVersion/com/airport/semaphore/SemaphoreAirport.java:110-112 | reports the gate semaphore's available permits |
| SemaphoreVersion.SemaphoreAirport.GetTotalGates | AirportProject/SemaphoreVersion/com/airport/semaphore/SemaphoreAirport.java:114-116 | reports the gate capacity |
| SemaphoreAirfield.StartSatisfiesInvariant | AirportProject/SemaphoreVersion/com/airport/semaphore/SemaphoreAirport.java:17-26 | a fresh backend satisfies the permit conservation laws, and the mutex has its one permit |
| SemaphoreAirfield.StepConserves | AirportProject/SemaphoreVersion/com/airport/semaphore/SemaphoreAirport.java:31-123 | each operation changes the runway, gate and waiting counts by exactly what the plane's holdings change by, and never makes a permit count negative |
| SemaphoreAirfield.NextKeepsInvariant | AirportProject/SemaphoreVersion/com/airport/semaphore/SemaphoreAirport.java:31-123 | every step of any plane keeps the runway, gate and waitingArrivals conservation laws |
| SemaphoreAirfield.RunKeepsInvariant | AirportProject/Common/com/airport/common/Plane.java:21-87 | those laws hold after every schedule |
| SemaphoreAirfield.RunwaysNeverOverbooked | AirportProject/SemaphoreVersion/com/airport/semaphore/SemaphoreAirport.java:41 | no more planes hold runways than exist, and waitingArrivals is never negative |
| SemaphoreAirfield.TakeoffAcquireFollowsPriorityCheck | AirportProject/SemaphoreVersion/com/airport/semaphore/SemaphoreAirport.java:73-89 | a departure reaches runways.acquire() only after reading zero waiting arrivals while it holds the mutex |
| SemaphoreAirfield.LandingAloneHonoursContract | AirportProject/SemaphoreVersion/com/airport/semaphore/SemaphoreAirport.java:31-53 | an undisturbed landing takes one runway and restores the mutex and waitingArrivals; this meets the interface promise |
| SemaphoreAirfield.TakeoffAloneHonoursContract | AirportProject/SemaphoreVersion/com/airport/semaphore/SemaphoreAirport.java:70-94 | an undisturbed takeoff with no waiting arrival takes a runway, frees a gate and restores the mutex; this meets the interface promise |
| SemaphoreAirfield.DockAndFinishHonourContract | AirportProject/SemaphoreVersion/com/airport/semaphore/SemaphoreAirport.java:56-65 | docking takes a gate and releases the runway, blocking while no gate is free; an interrupted dock changes nothing; finishTakeoff releases one runway |
| SemaphoreAirfield.LandingInterruptPaths | AirportProject/SemaphoreVersion/com/airport/semaphore/SemaphoreAirport.java:47-52 | an interrupt at the runway acquire gives back exactly what was taken; an interrupt at the mutex acquire adds a mutex permit that was never taken |
| SemaphoreAirfield.InterruptedLandingDoublesMutex | AirportProject/SemaphoreVersion/com/airport/semaphore/SemaphoreAirport.java:33-50 | a lone arrival interrupted at its mutex acquire leaves the one-permit mutex with two permits |
| SemaphoreAirfield.OverReleaseFirstPart | AirportProject/SemaphoreVersion/com/airport/semaphore/SemaphoreAirport.java:33-37 | the first four steps of the two-departure schedule: one departure holds the mutex and the arrival is interrupted |
| SemaphoreAirfield.OverReleaseSecondPart | AirportProject/SemaphoreVersion/com/airport/semaphore/SemaphoreAirport.java:47-50 | the last four steps: the arrival's catch releases the mutex and the second departure takes it |
| SemaphoreAirfield.OverReleaseAdmitsTwoDepartures | AirportProject/SemaphoreVersion/com/airport/semaphore/SemaphoreAirport.java:47-50 | a reachable schedule puts two departures inside the mutex at the same time |
| SemaphoreAirfield.TakeoffInterruptsOverRelease | AirportProject/SemaphoreVersion/com/airport/semaphore/SemaphoreAirport.java:73-96 | a departure interrupted in its first mutex acquire, in its back-off sleep or in its reacquire ends with one mutex permit more than it found |
| SemaphoreAirfield.DepartureOvertakesRegisteredArrival | AirportProject/SemaphoreVersion/com/airport/semaphore/SemaphoreAirport.java:33-89 | a departure past its priority check takes the last runway while an arrival is registered |
| SemaphoreAirfield.CorrectedStepConserves | AirportProject/SemaphoreVersion/com/airport/semaphore/SemaphoreAirport.java:95-96 | with release only when the mutex is held, each step also conserves the single mutex permit |
| SemaphoreAirfield.CorrectedNextKeepsInvariant | AirportProject/SemaphoreVersion/com/airport/semaphore/SemaphoreAirport.java:47-50 | with that cleanup, every step keeps all the conservation laws, the mutex's included |
| SemaphoreAirfield.CorrectedRunKeepsInvariant | AirportProject/SemaphoreVersion/com/airport/semaphore/SemaphoreAirport.java:31-98 | with that cleanup, every schedule keeps all the conservation laws |
| SemaphoreAirfield.CorrectedMutualExclusion | AirportProject/SemaphoreVersion/com/airport/semaphore/SemaphoreAirport.java:15-17 | with that cleanup, on every schedule the mutex has at most one permit and at most one plane holds it |
| Planes.WrapLong | AirportProject/Common/com/airport/common/Plane.java:92 | the result is a long congruent to its argument modulo 2^64; it equals the argument in range and differs by exactly 2^64 just outside it |
| Planes.Elapsed | AirportProject/Common/com/airport/common/Plane.java:92 | never negative; an in-range difference is reported exactly or clamped to 0; an upward overflow reads as 0; a downward overflow reads as the difference plus 2^64 |
| Planes.CallsMade | AirportProject/Common/com/airport/common/Plane.java:21-87 | a prefix of the plane's lifecycle calls; the whole lifecycle exactly when the interrupt comes late enough (or never); an arrival always makes its landing request, and a departure interrupted while boarding makes no call |
| Planes.LaterInterruptMakesMoreCalls | AirportProject/Common/com/airport/common/Plane.java:25-78 | a later interrupt makes a superset of the calls, as a prefix extension |
| Planes.CallsFollowTheProtocol | AirportProject/Common/com/airport/common/Plane.java:26-74 | each call at most once, only its own direction's calls, and a completing call only after its request |
| Planes.Plane.constructor | AirportProject/Common/com/airport/common/Plane.java:13-18 | stores id and direction; timestamps start at zero and no call has been made |
| Planes.Plane.Run | AirportProject/Common/com/airport/common/Plane.java:21-87 | records the start and end times on every path that completes or is interrupted, makes exactly the calls of CallsMade, notifies the controller once, and ends with the interrupt flag set exactly when interrupted |
| Planes.Plane.LatencyNs | AirportProject/Common/com/airport/common/Plane.java:89-93 | never negative; the recorded end time is used when it is nonzero, else the caller's clock |
| Planes.Plane.GetId | AirportProject/Common/com/airport/common/Plane.java:95-97 | reports the plane's id |
| Planes.Plane.IsArriving | AirportProject/Common/com/airport/common/Plane.java:99-101 | reports the plane's direction |
| Planes.LatencyOfRecordedRun | AirportProject/Common/com/airport/common/Plane.java:89-93 | once an end time is recorded the latency ignores the clock, and ordered readings less than 2^63 ns apart give their exact difference |
| Planes.UnrecordedLatencyFollowsTheClock | AirportProject/Common/com/airport/common/Plane.java:91 | with no recorded end, the latency is the time elapsed up to the caller's reading and grows with it |

## Left out

- Blocking, wake-ups and fairness: a wait is only an enabling condition. The
  signalAll/notifyAll calls, the fair queueing of the lock and semaphores, and
  liveness (no deadlock, no starvation) are not modelled.
- The 32-bit int range of the counters: they are unbounded here. Their values
  cannot approach the limit with the plane counts the system creates.
- The semaphore backend's priority guarantee across threads is not proved.
  `DepartureOvertakesRegisteredArrival` shows it does not hold. The model proves
  only the local check (`TakeoffAcquireFollowsPriorityCheck`).
- Interrupt timing is over-approximated: every wait, acquire and sleep may be
  interrupted at any point of a schedule.
- Interleavings of requestRunwayForLanding are over-approximated in the lock and
  monitor models: it is always two critical sections, so other planes may move
  between the registration and the runway acquire even when a runway was free
  at once and the source holds the lock throughout.
- System.nanoTime and Thread.sleep: the time readings are parameters of
  `Plane.Run` and `Plane.LatencyNs`; sleeps are interrupt points with no duration.
- The controller callbacks (log, updateQueue, updateRunwayVisuals,
  updateGateStatus, notifyPlaneFinished) are not modelled. The only trace kept is
  a count of finish notifications. Only notifyPlaneFinished sits in a catch
  that swallows its exceptions (Plane.java:82-85); the model counts that call and
  raises nothing from it.
- Planes.Plane.Run: does not model a runtime exception from log, updateQueue,
  updateRunwayVisuals or updateGateStatus (Plane.java:28-29, 33-34, 39-41, 56-57,
  62-64, 69-70). On that path run() skips the rest of the lifecycle and the
  catch block, so endTimeNs keeps its previous value (zero for a fresh plane),
  notifyPlaneFinished still runs in the finally block, and the exception leaves
  the thread. The contract's "end time recorded on every path" covers only
  normal completion and InterruptedException.
- Plane.getAirportManager: the manager is not an object in the plane model. The
  plane records the calls it makes, and the airfield modules interleave those
  calls against each backend.
- Capacity validation: no backend validates capacities. The constructors accept
  any value, and the invariant lemmas require non-negative capacities.
- `java.util.concurrent.Semaphore` and `AtomicInteger` are reduced to their
  counts. Each of their operations is one atomic step.
- The GUI, the performance tester, the main controller and process startup are
  not part of this model.

## Findings

| source | as written | input that shows it | evidently intended | confidence | as-written member | corrected member |
|---|---|---|---|---|---|---|
| AirportProject/LockVersion/com/airport/lock/LockAirport.java:50-51 | an interrupt in the landing wait is caught without undoing `waitingArrivals++` (MonitorAirport.java:39-40 does the same) | one runway held by a landed arrival; a second arrival registers and is interrupted in its wait | the cancelled landing withdraws its registration, so departures are not blocked for good | high (not executed) | LockAirfield.LeakDisablesTakeoffForever | LockAirfield.CorrectedNextKeepsInvariant |
| AirportProject/SemaphoreVersion/com/airport/semaphore/SemaphoreAirport.java:47-50 | the catch blocks release `runwayAccessMutex` even when the thread never acquired it (also lines 95-96, after the back-off release) | a departure holds the mutex; an arrival is interrupted at its mutex acquire; a second departure then acquires the mutex | a release only on paths that hold the mutex, so it stays a one-permit mutual exclusion | high (not executed) | SemaphoreAirfield.OverReleaseAdmitsTwoDepartures | SemaphoreAirfield.CorrectedMutualExclusion |
