# Adaptive traffic-light intersection, modelled in Dafny

This project models the simulation core of a four-way signalised intersection
and proves properties of that model. The core has four parts:

- **the controller** (`TrafficManager.cpp`). It runs a four-phase signal plan
  (NS green, NS yellow, EW green, EW yellow) over four signal heads. At the end
  of each yellow phase it measures the north-south and east-west queues and
  picks the next green-time budget. The decision combines a policy-table
  lookup with congestion caps and clamps. On every tick it spawns vehicles,
  moves each lane with car-following and a stop-line rule, and removes the
  vehicles that have left the area;
- **the vehicles** (`Vehicle.cpp`). Each moves along one axis, keeps a stall
  clock and has a one-way stop-line latch;
- **the signal heads** (`TrafficLight.cpp`). Each has its own
  Red → Green → Yellow → Red timer cycle, which the controller overrides with
  `setState`;
- **the training script** (`traffic_rl.py`). It contains a toy queue
  environment and a tabular Q-learning agent. The agent's table, with its keys
  printed, is the policy table the controller reads.

## Modules

- `common.dfy` (`Common`): first-maximum selection, shared by the C++
  `std::max_element`, Python's `np.argmax` and `max`.
- `vehicle.dfy` (`Vehicles`): the vehicle as a datatype value.
- `traffic_light.dfy` (`Lights`): the signal head as a class with `state` and
  `timer` fields.
- `intersection.dfy` (`Intersection`):
  - the phase plan and the signals each phase shows;
  - the stop-line rule `shouldStopVehicle`;
  - `isVehicleQueuedBySpeed`, the predicate `IsVehicleQueuedBySpeed`
    (`v.speed < 5`);
  - the spawn points and the bounds of the area.
- `lanes.dfy` (`Lanes`): the per-lane passes over the vehicle collection,
  which are:
  - splitting by direction;
  - the four sorts;
  - `processLane` of `measureQueues`;
  - `updateGroup` of `update`;
  - the erase-remove pass.
- `keys.dfy` (`Keys`): `stateToString` and a decoder for it.
- `decision.dfy` (`Decision`): the closed form of `applyRLDecision`.
- `traffic_manager.dfy` (`Manager`): the controller class and the pure
  function that defines one `updateLights` step.
- `traffic_rl.dfy` (`TrafficRl`): the environment and agent classes and the
  table functions that specify them.

## Modelling choices

- **Vehicles are values.** The collection is a `seq<Vehicle>`. The source sorts
  vectors of pointers into the collection; here each sorted lane is a sequence
  of indices into it. A write through a pointer becomes a write at that index.
- **Random draws are parameters.**
  - Each `std::rand()` the C++ consumes is a `nat` parameter, and the model
    applies the source's own `% 2 + 1` or `% 4` to it.
  - Each `numpy.random.randint`, `random.random` or `random.randrange` draw is
    a parameter. Its `requires` clause is the range that call returns.
- **Unset speed.** `Vehicle::speed` is never initialised in the source, yet
  `isVehicleQueuedBySpeed` reads it. The model carries it as a field whose
  value is supplied when the vehicle is spawned. It never changes.
- **Numbers are unbounded.** Timers and positions are `real`. Queue counts and
  the Python queues are `int`/`nat`.
- **The policy table** is a constructor argument of the controller, a
  `map<string, seq<real>>`.

## What the proofs show

- **The decision's result depends only on the queues and the action.**
  - Lines 99-105 of `applyRLDecision` always leave `currentGreenTime` at the
    cap, whatever it was before.
  - The forced update after a change of spawn interval (116-126) re-imposes
    the same cap.
  - So the "mid-phase" increase at 129-132 can never run. The method has
    `assert false` in that branch.
  - The final value is the closed form `SettledGreenTime`, which never falls
    below the cap minus 2 and never exceeds the cap.
- **The two programs give the action indices different meanings.**
  - In `traffic_rl.py`, action 0 shortens the green by a second and action 2
    lengthens it.
  - In `applyRLDecision`, action 1 lengthens it and action 2 shortens it.
    Action 0 never shortens it.
  - Each is modelled as written. `ActionMeaningsDisagree` states the
    mismatch.
- **Lane order.**
  - The sorts put the vehicle farthest from the intersection at index 0. The
    comment at TrafficManager.cpp:255 says "front to back", but the
    comparators at 256-259 put the rear vehicle first, and the model follows
    the comparators.
  - So `frontIsStopped` carries the queued flag from the rear toward the
    intersection: a vehicle counts as queued when the vehicle *behind* it
    does. The queued vehicles form a suffix of the sorted lane.
- **Measurement latches nothing.** `measureQueues` is only ever called under a
  yellow phase. No head shows green then, so the stop-line rule it consults
  never sets a latch there.
- **The stall rule comes before the latch.** `shouldStopVehicle` tests
  `stoppedTime >= 2` first, so a latched vehicle can still be held: the latch
  does not exempt a stalled vehicle (the test at TrafficManager.cpp:313 comes
  before the one at 324).
- **The stall clock runs only while a vehicle moves.** `Vehicle::update`, and
  with it the stall clock, runs only for a vehicle allowed to move. A vehicle
  held at the line or behind a queue never accumulates stopped time.
- **Gaps are measured before moving.** In `updateGroup`, each vehicle's gap is
  measured to the next vehicle of the sorted lane before that vehicle has
  moved on this tick.
- **Lanes do not interfere.** What a tick does to a vehicle depends only on
  its own lane at the start of the tick.

## Model

| member | source | states |
|---|---|---|
| Vehicles.NewVehicle | Vehicle.cpp:8-12 | a new vehicle is at its start position, with that position as its last position, no latch and a cleared stall clock |
| Vehicles.Vehicle.GetX | Vehicle.cpp:117-124 | reads the x coordinate of the position |
| Vehicles.Vehicle.GetY | Vehicle.cpp:126-133 | reads the y coordinate of the position |
| Vehicles.Vehicle.GetDirection | Vehicle.cpp:135-137 | reads the heading |
| Vehicles.Vehicle.HasPassedStopLine | Vehicle.cpp:139-141 | reads the latch |
| Vehicles.Vehicle.SetPassedStopLine | Vehicle.cpp:143-145 | afterwards `HasPassedStopLine` returns the value written, and every other field is unchanged |
| Vehicles.Vehicle.Update | Vehicle.cpp:67-103 | moves exactly `speed*dt` along the heading's axis, leaving the other coordinate alone. The stall clock grows by `dt` on a stalled step and is cleared otherwise, and stays non-negative for `dt >= 0`. The last position becomes the new position. Heading, speed and latch never change |
| Vehicles.Stalled | Vehicle.cpp:90-95 | the stall test: the step from the last position is shorter than 0.1, compared on squared lengths; `StallMeansShortStep` turns it into a condition on `speed*dt` |
| Vehicles.UpdateKeepsInSync | Vehicle.cpp:101-102 | after any step, and after latching, the last position equals the current one |
| Vehicles.StallMeansShortStep | Vehicle.cpp:88-99 | for an in-sync vehicle, a step is stalled exactly when `-0.1 < speed*dt < 0.1` (the square-root distance test is equivalent to this) |
| Lights.Duration | TrafficLight.cpp:4-10 | no duration is shorter than the yellow one; the values are the constants RedDuration (5 s), YellowDuration (2 s) and GreenDuration (5 s) |
| Lights.Successor | TrafficLight.cpp:96-117 | the state a head's own cycle switches to (Red to Green, Green to Yellow, Yellow to Red); it is never the state it left |
| Lights.SuccessorCycles | TrafficLight.cpp:94-117 | the head's own cycle has period three and never stays in a state |
| Lights.TrafficLight.constructor | TrafficLight.cpp:4-10 | a new head is Red with its timer at 0 |
| Lights.TrafficLight.SwitchToRed | TrafficLight.cpp:63-72 | the state becomes Red and the timer is unchanged |
| Lights.TrafficLight.SwitchToYellow | TrafficLight.cpp:74-82 | the state becomes Yellow and the timer is unchanged |
| Lights.TrafficLight.SwitchToGreen | TrafficLight.cpp:84-92 | the state becomes Green and the timer is unchanged |
| Lights.TrafficLight.Update | TrafficLight.cpp:94-117 | when timer+dt reaches the current state's duration, exactly one switch to the successor and the timer restarts at 0; below it, no switch and the timer advances by dt |
| Lights.TrafficLight.SetState | TrafficLight.cpp:134-139 | the state is the one requested and the timer is 0 |
| Lights.TrafficLight.GetState | TrafficLight.cpp:126-128 | reads the state |
| Lights.AfterSetAndUpdate | TrafficManager.cpp:166-231 | after `setState(s)` then `update(dt)`, the head shows `s` or its successor. It changes exactly when `dt` alone reaches the duration of `s`, so never on a tick shorter than 2 s |
| Lights.TimerAfterSetAndUpdate | TrafficManager.cpp:166-231 | after `setState(s)` then `update(dt)`, the timer is `dt` if the head did not switch, and 0 if it did |
| Intersection.PhaseCycle | TrafficManager.cpp:166-227 | the phase plan is a four-step cycle through all four phases, alternating green and yellow |
| Intersection.NextPhase | TrafficManager.cpp:166-224 | the phase that follows when the current one's time is up; it always differs from the current one, and exactly one of the two is yellow |
| Intersection.PhaseDuration | TrafficManager.cpp:166-224 | a yellow phase lasts the fixed yellow time of 2 s, a green phase the adaptive green time; `PhaseAfter` uses it as the threshold |
| Intersection.SignalsFor | TrafficManager.cpp:169-213 | in NS phases top-left and bottom-left show Green/Yellow and the other two Red; in EW phases the reverse |
| Intersection.NoConflictingSignals | TrafficManager.cpp:166-227 | in every phase one axis is entirely red, and no yellow phase shows a green |
| Intersection.GoverningLight | TrafficManager.cpp:329-375 | the head a heading obeys: top-left for southbound, bottom-left for northbound, top-right for eastbound and bottom-right for westbound; `ShouldStopVehicle` reads only that head |
| Intersection.PastThreshold | TrafficManager.cpp:329-375 | a vehicle is at its stop line when y > 150 heading south, y < 450 heading north, x > 300 heading east and x < 605 heading west |
| Intersection.ShouldStopVehicle | TrafficManager.cpp:309-379 | the rule order: a stall of ≥ 2 s holds the vehicle even when latched. Otherwise a latched vehicle passes, a vehicle before its threshold passes, and one at the line is held on red/yellow or released and latched on green. The latch is only ever set, never cleared |
| Intersection.NoGreenNoLatch | TrafficManager.cpp:309-379 | with no head green, the rule never changes the vehicle |
| Intersection.IsVehicleQueuedBySpeed | TrafficManager.cpp:235-238 | the low-speed test, speed below the threshold of 5; it reads no position or latch, and `DirectFlags` and `LaneQueue` use it as the second reason a vehicle is queued |
| Intersection.SpawnedVehicle | TrafficManager.cpp:282-307 | the draw `% 4` picks one of the four entry points on the edge of the area, heading inward. The new vehicle is unlatched, in bounds and not yet at its stop line |
| Intersection.InBounds | TrafficManager.cpp:436 | a vehicle is in bounds when x ∈ [−50, 950] and y ∈ [−50, 650]; every spawned vehicle is, and `KeepInBounds` keeps exactly these |
| Intersection.Progress | TrafficManager.cpp:256-259 | the sort key of a lane (the coordinate along the heading, negated for the two headings that sort descending); `UpdateAdvancesProgress` shows a step increases it by `speed*dt` |
| Intersection.UpdateAdvancesProgress | Vehicle.cpp:67-86 | one step advances the vehicle by exactly `speed*dt` along the key the lane sorts order by |
| Keys.StateToString | TrafficManager.cpp:14-18 | the key is bracketed, as long as both renderings plus the four punctuation characters, and holds exactly one comma, right after the first number; `KeyRoundTrip` shows it loses nothing |
| Keys.IntToString | TrafficManager.cpp:14-18 | renders an integer as a non-empty string that starts with a minus exactly when the integer is negative and is decimal digits elsewhere |
| Keys.IntRoundTrip | TrafficManager.cpp:14-18 | parsing the rendering of any integer gives it back |
| Keys.KeyRoundTrip | TrafficManager.cpp:14-18 | parsing the key `"(a, b)"` gives back the state `(a, b)` |
| Keys.StateToStringInjective | TrafficManager.cpp:14-18 | distinct queue states have distinct keys |
| Keys.KeyExample | TrafficManager.cpp:14-18 | the key of (6, 2) is `"(6, 2)"` |
| Decision.Clamp | TrafficManager.cpp:150-151 | `std::clamp`: the result is within the bounds, equal to the value when it is already inside them, and the violated bound otherwise |
| Decision.CongestionCap | TrafficManager.cpp:89-97 | the cap is 8 exactly when a queue is ≥ 9, 5 exactly when both are < 6, and 6 otherwise |
| Decision.CapMonotone | TrafficManager.cpp:89-97 | longer queues never lower the cap |
| Decision.TableAction | TrafficManager.cpp:56-70 | on a hit, the first index of the largest score (0 for an empty row); on a miss, the draw mapped into {1, 2} |
| Common.FirstArgMax | TrafficManager.cpp:63 | `std::max_element` as an index, and `np.argmax` in traffic_rl.py:58: the first index holding the largest value |
| Decision.OverrideAction | TrafficManager.cpp:107-114 | the action changes exactly when it is 0 and a queue is ≥ 6 and rising, and then it becomes 1 or 2 |
| Decision.ChosenAction | TrafficManager.cpp:56-114 | a missing key never yields action 0, and action 0 is only chosen from the table |
| Decision.SettledGreenTime | TrafficManager.cpp:99-151 | the decided green time lies between max(3, cap − 2) and the cap |
| Decision.ActionEffects | TrafficManager.cpp:134-151 | action 2 always gives one second less than action 0. Action 1 gives one second more only when both queues are < 3; otherwise 0 and 1 both give the cap. Any other index acts as 0 |
| Decision.PolicyExample | TrafficManager.cpp:56-70 | the row [0.1, 0.9, 0.05] of (6, 2) selects action 1, which settles on the 6 s cap |
| Lanes.IndicesWith | TrafficManager.cpp:245-253 | the lane of a heading holds exactly the vehicles with that heading, each once, in collection order |
| Lanes.LanesCoverAll | TrafficManager.cpp:245-253 | the four lanes together have as many entries as there are vehicles |
| Lanes.SplitByDirection | TrafficManager.cpp:245-253 | the split loop builds exactly the four lanes |
| Lanes.SortLane | TrafficManager.cpp:255-259 | the sorted lane is ordered by progress along the heading (rear first) and is a permutation of the lane |
| Lanes.LaneOrder | TrafficManager.cpp:255-259 | the sorted lane of a heading is ordered rear first and holds distinct valid indices |
| Lanes.LaneOrderMembers | TrafficManager.cpp:245-259 | the sorted lane of a heading holds exactly the vehicles with that heading |
| Lanes.SortedLanes | TrafficManager.cpp:389-409 | the split and four sorts give the four sorted lanes |
| Lanes.DirectFlags | TrafficManager.cpp:266 | the definition of the first two tests of the condition: one flag per vehicle of the lane, set when the stop rule holds it or its speed is below the threshold |
| Lanes.PropagationIsSuffix | TrafficManager.cpp:262-274 | the running flag is set at position i exactly when it entered set or i is at or after the first directly queued vehicle |
| Lanes.QueuedSetIsSuffix | TrafficManager.cpp:262-274 | once a vehicle of the sorted lane is counted, every vehicle after it (nearer the intersection) is counted too |
| Lanes.PropagatedCount | TrafficManager.cpp:262-274 | the number of counted vehicles is the length of that suffix |
| Lanes.LaneQueue | TrafficManager.cpp:262-274 | a lane's count is at most its length, is 0 exactly when no vehicle of it is directly queued, and equals the number of set running flags |
| Lanes.ProcessLane | TrafficManager.cpp:262-274 | the loop with `frontIsStopped` returns the lane's count, and the collection with the stop rule's latch applied to the lane |
| Lanes.LatchLane | TrafficManager.cpp:262-274 | the latch side effect of `processLane`: every vehicle of the lane as the stop rule leaves it, other vehicles untouched; no vehicle moves, its stall clock is kept and a latch is never cleared |
| Lanes.LatchAll | TrafficManager.cpp:240-280 | with no head green, latching the whole collection changes nothing |
| Lanes.LatchLanesCompose | TrafficManager.cpp:276-279 | the four lane passes latch every vehicle exactly once |
| Lanes.MeasuredQueuesBounded | TrafficManager.cpp:240-280 | `queueNS` counts only vertical vehicles and `queueEW` only horizontal ones, so together they never exceed the vehicle count |
| Lanes.MeasurePassesCompose | TrafficManager.cpp:276-279 | the four passes run one after another, each on the collection the previous one latched, add up to the measured queues |
| Lanes.MeasuredQueues | TrafficManager.cpp:240-280 | the result of `measureQueues`: the two vertical lane counts summed for NS and the two horizontal ones for EW; `MeasuredQueuesBounded` bounds them, `MeasureLanes` and `ProcessLane` compute them |
| Lanes.MeasureLanes | TrafficManager.cpp:240-280 | the body of `measureQueues` gives the measured queues and the latched collection |
| Lanes.Gap | TrafficManager.cpp:418-420 | the distance to the vehicle ahead on the lane's axis is non-negative |
| Lanes.StepInLane | TrafficManager.cpp:411-426 | one turn of `updateGroup` writes only the current vehicle: latched by the stop rule, and moved exactly when it is not held and is at least 80 from the next vehicle |
| Lanes.MayMove | TrafficManager.cpp:413-423 | `canMove`: the stop rule does not hold the vehicle, and the vehicle ahead in the lane, if any, is at least 80 away on the lane's axis |
| Lanes.LaneStep | TrafficManager.cpp:410-426 | one vehicle's turn of `updateGroup`: the latch the stop rule sets, then one `update` only when it may move |
| Lanes.MovedLane | TrafficManager.cpp:410-426 | the collection after one `updateGroup` pass: each vehicle of the lane replaced by its step, every other vehicle and the number of vehicles unchanged |
| Lanes.MoveLane | TrafficManager.cpp:410-427 | `updateGroup` moves each vehicle of the lane as its step from the positions at the start of the pass dictates, and touches no other vehicle |
| Lanes.HeldVehicleStaysPut | TrafficManager.cpp:413-425 | a vehicle that may not move keeps its position and its stall clock |
| Lanes.StallClockRunsOnlyWhileMoving | TrafficManager.cpp:424-425 | stopped time grows only for a vehicle allowed to move whose step `speed*dt` is positive and shorter than 0.1 |
| Lanes.MoveAll | TrafficManager.cpp:428-431 | the four `updateGroup` passes on lanes sorted before anything moves; keeps the number of vehicles, and `MoveAllByLane` and `MoveAllKeepsLatches` state what it does to each vehicle |
| Lanes.MoveAllLanes | TrafficManager.cpp:428-431 | the four `updateGroup` calls on the four sorted lanes |
| Lanes.MoveAllByLane | TrafficManager.cpp:428-431 | a tick does to each vehicle what its own lane's pass alone would; lanes do not interfere |
| Lanes.MoveAllKeepsLatches | TrafficManager.cpp:410-431 | movement never clears a latch and never turns a vehicle |
| Lanes.KeepInBounds | TrafficManager.cpp:432-443 | exactly the vehicles within x ∈ [−50, 950], y ∈ [−50, 650] are kept |
| Lanes.KeepInBoundsDistributes | TrafficManager.cpp:432-443 | removal works element by element and keeps the survivors' relative order |
| Lanes.KeepInBoundsOne | TrafficManager.cpp:432-443 | a single vehicle is kept exactly when it is in bounds |
| Manager.ShortTickShowsPhase | TrafficManager.cpp:166-231 | on a tick shorter than 2 s the heads show exactly what the phase set |
| Manager.SignalsAfter | TrafficManager.cpp:166-231 | what the four heads show after the controller sets them and they run their own `update(dt)`; a tick shorter than the yellow duration changes none of them |
| Manager.PhaseAfter | TrafficManager.cpp:166-227 | the phase advances one step exactly when its time is up, and the phase timer is then 0; otherwise it grows by dt |
| Manager.LightsStep | TrafficManager.cpp:166-227 | when a yellow phase ends, the queues are measured under that yellow and the green time is the decided one, with the flag cleared; otherwise queues, green time and flag are unchanged |
| Manager.LightsStepFollowsPlan | TrafficManager.cpp:166-227 | at most one transition per call, along the cycle; queues and green time change only when a yellow phase hands over to a green |
| Manager.LightsStepKeepsGreenTimeInRange | TrafficManager.cpp:89-151 | the green time stays in [3, 8], and right after a decision it is within the cap of the queues just measured |
| Manager.Arrivals | TrafficManager.cpp:383-387 | at most one vehicle is spawned per tick, appended after the existing ones |
| Manager.TrafficManager.constructor | TrafficManager.cpp:20-47 | starts in NS green with timer 0, green time 5, empty queues and no vehicles; NS heads green and EW heads red, all four head timers 0 |
| Manager.TrafficManager.ApplyRLDecision | TrafficManager.cpp:55-155 | whatever the previous green time and flag, the result is the closed form for the measured queues and chosen action, and the flag is cleared |
| Manager.TrafficManager.SetSpawnInterval | TrafficManager.cpp:158-163 | stores the interval; the flag is raised only by an actual change |
| Manager.TrafficManager.GetSpawnInterval | TrafficManager.hpp:24 | reads the spawn interval |
| Manager.TrafficManager.MeasureQueues | TrafficManager.cpp:240-280 | the queues are the measured ones for the heads as they show, and the vehicles are latched by the stop rule |
| Manager.TrafficManager.SpawnVehicle | TrafficManager.cpp:282-307 | appends exactly the spawned vehicle |
| Manager.TrafficManager.SetGroups | TrafficManager.cpp:170-173 | the NS heads show one state and the EW heads another, all timers cleared |
| Manager.TrafficManager.TickHeads | TrafficManager.cpp:228-231 | the four heads each advance their own cycle by dt from a cleared timer |
| Manager.TrafficManager.CloseYellow | TrafficManager.cpp:185-195 | remembers the queues, measures under the yellow (latching nothing) and decides the green time from the new queues and the old ones |
| Manager.TrafficManager.UpdateLights | TrafficManager.cpp:166-232 | the controller state is the pure step `LightsStep`, the heads show the phase's signals after their own update, and the vehicles are unchanged |
| Manager.TrafficManager.Update | TrafficManager.cpp:381-444 | lights step, then the spawn timer resets exactly when it reaches the interval, one possible arrival, all lanes moved under the new signals, and out-of-bounds vehicles removed; at most one more vehicle than before |
| Manager.TrafficManager.AdvanceVehicles | TrafficManager.cpp:383-443 | the spawn, movement and removal part of `update` |
| Manager.TrafficManager.GetVehicleCount | TrafficManager.cpp:455-457 | the number of vehicles |
| TrafficRl.StepGreenTime | traffic_rl.py:29-30 | the green time is within [3, 10], equal to `base + action − 1` when that is in range and the violated bound otherwise |
| TrafficRl.GreenTimeChoices | traffic_rl.py:29-30 | with base 5, actions 0, 1, 2 give 4, 5, 6 seconds |
| TrafficRl.DrainedQueue | traffic_rl.py:33 | the NS queue is never negative, never longer than before, and empty exactly when the green outlasts it |
| TrafficRl.ArrivedQueue | traffic_rl.py:34 | the EW queue never exceeds 20, never shrinks, and is 20 exactly when the arrivals reach the cap |
| TrafficRl.StepKeepsQueuesInRange | traffic_rl.py:27-39 | a step from reachable queues stays reachable, drains NS, grows EW and gives a reward ≤ 0 |
| TrafficRl.ActionMeaningsDisagree | traffic_rl.py:10-13 | training lengthens the green for 2 and shortens it for 0; the simulator's decision shortens it for 2 and never shortens it for 0 |
| TrafficRl.TrafficEnv.constructor | traffic_rl.py:17-19 | the base is 5 and the environment starts reset |
| TrafficRl.TrafficEnv.Reset | traffic_rl.py:21-25 | queues from the draws in [0, 19], green back to the base, and the returned state is the new queues |
| TrafficRl.TrafficEnv.Step | traffic_rl.py:27-39 | the green time, drained NS and arrived EW queues, reward −(NS+EW) ≤ 0, state equal to the new fields, never done |
| TrafficRl.ZeroRow | traffic_rl.py:51 | a row of `max(0, n)` zeros |
| TrafficRl.WithRow | traffic_rl.py:49-52 | the state's row exists, is the old one if present and zeros otherwise, and every other row is untouched |
| TrafficRl.PyIndex | traffic_rl.py:61 | Python indexing: valid exactly for `-len <= i < len`, negative indices count from the end |
| TrafficRl.GreedyAction | traffic_rl.py:57-58 | `np.argmax`: the first index of the largest value; an empty row raises |
| TrafficRl.Blend | traffic_rl.py:63 | the learning-rate step `current + alpha·(target − current)`; `BlendBetween` states its bounds |
| TrafficRl.BlendBetween | traffic_rl.py:63 | rate 0 keeps the old value, rate 1 takes the target, and a rate in [0, 1] lands between them |
| TrafficRl.QUpdate | traffic_rl.py:60-64 | `update` on a table, with its two exceptions as a failed outcome; `QUpdateFrame`, `QUpdateWritesBlend` and `QUpdateSucceeds` state what changes and what is written |
| TrafficRl.QUpdateFrame | traffic_rl.py:60-64 | `update` changes only entry `action` of the state's row, apart from the zero rows it creates; a failed index creates only the state's row; it completes exactly when both lookups succeed |
| TrafficRl.QUpdateWritesBlend | traffic_rl.py:63-64 | the written entry is the old one moved by alpha toward reward + gamma·max(next row) |
| TrafficRl.QUpdateSucceeds | traffic_rl.py:60-64 | when both lookups succeed, the resulting table is the one with the single new entry |
| TrafficRl.ExportedPolicyAgrees | traffic_rl.py:71 | a row exported under the state's printed key makes the simulator choose the trainer's greedy action |
| TrafficRl.QLearningAgent.constructor | traffic_rl.py:42-47 | the hyper-parameters as given (defaults 0.015, 0.97, 0.1) and an empty table |
| TrafficRl.QLearningAgent.GetQValues | traffic_rl.py:49-52 | returns the state's row after creating it as zeros when missing |
| TrafficRl.QLearningAgent.ChooseAction | traffic_rl.py:54-58 | below epsilon the draw, leaving the table alone; otherwise the greedy action of the state's (possibly new) row |
| TrafficRl.QLearningAgent.Update | traffic_rl.py:60-64 | the table and the completion flag are those of the table function `QUpdate` |

## Left out

- Rendering, textures, sprites, fonts and asset loading are SFML display code
  with no effect on the logic. This covers `render`, the sprite setup in the
  constructors and `switchTo*`, and all of `main.cpp`, including the button
  that calls `setSpawnInterval`.
- `QTableLoader` reads the policy table from a JSON file. The table is an
  input of the controller's constructor instead.
- `save_q_table`/`load_q_table` are file I/O and `eval`. Their one relevant
  property, the printed key, is modelled by `StateToString`.
- The Python training loop: the episode loop, epsilon decay and `print`s.
- The `std::cout` diagnostics and the `phaseLabel` parameter that only feeds
  them.
- The EMA smoothing and the `pow(·, 1.5)` reward of `applyRLDecision`
  (TrafficManager.cpp:72-87). They are diagnostics and never affect the
  decision.
- `std::srand`/`std::rand` are parameters of the operations that draw, so
  their distribution is not modelled.
- The vehicle type (and the `rand() % 8` that picks it) only chooses a
  texture.
- Floating point is not modelled:
  - the model uses exact reals where the source uses `float` and `double`,
    so rounding is not captured;
  - the stall test compares squares instead of taking `sqrt(pow(·))`, which
    is equivalent over the reals.
- `Lanes.SortLane`: `std::sort` is not stable. The model fixes one order for
  vehicles with equal progress (collection order). The source's order for
  such ties is unspecified.
- Raw `new`/`delete` ownership is not modelled: vehicles are values in one
  sequence.
- `Vehicles.Vehicle.Update`, `Vehicles.Vehicle.SetPassedStopLine` and the latch
  returned by `Intersection.ShouldStopVehicle`: modelled as returning a new
  value instead of writing through the vehicle object in place. Aliasing cannot occur, because each vehicle
  is in exactly one lane.
- `TrafficRl.TrafficEnv.Step`: the empty `info` dictionary it returns is not
  modelled. NumPy integers are modelled as unbounded integers.
