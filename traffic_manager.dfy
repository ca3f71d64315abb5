/** The controller of TrafficManager.cpp: the four signal heads driven by the
    phase plan, the adaptive green time, the queue measurement at the end of
    each yellow phase, spawning and the per-tick movement of all vehicles.

    `std::rand()` draws and the vehicles' uninitialised speed are parameters
    of the operations that consume them. */
module Manager {
  import opened Common
  import opened Keys
  import opened Lights
  import opened Vehicles
  import opened Intersection
  import opened Lanes
  import opened Decision

  /** What every head shows after `setState` and its own `update(dt)`. */
  function SignalsAfter(s: Signals, dt: real): (r: Signals)
    ensures dt < YellowDuration ==> r == s
  {
    Signals(AfterSetAndUpdate(s.topLeft, dt), AfterSetAndUpdate(s.topRight, dt),
            AfterSetAndUpdate(s.bottomLeft, dt), AfterSetAndUpdate(s.bottomRight, dt))
  }

  /** Short ticks leave the heads exactly as the phase set them. */
  lemma ShortTickShowsPhase(p: Phase, dt: real)
    requires dt < YellowDuration
    ensures SignalsAfter(SignalsFor(p), dt) == SignalsFor(p)
  {
  }

  /** The phase and phase timer after `updateLights(dt)`. */
  function PhaseAfter(p: Phase, phaseTimer: real, currentGreenTime: real, dt: real): (r: (Phase, real))
    ensures r.0 == p || r.0 == NextPhase(p)
    ensures r.0 == NextPhase(p) <==> phaseTimer + dt >= PhaseDuration(p, currentGreenTime)
    ensures r.0 == NextPhase(p) ==> r.1 == 0.0
    ensures r.0 == p ==> r.1 == phaseTimer + dt
  {
    if phaseTimer + dt >= PhaseDuration(p, currentGreenTime) then (NextPhase(p), 0.0)
    else (p, phaseTimer + dt)
  }

  /** The part of the controller's state that `updateLights` changes. */
  datatype Controller = Controller(
    phase: Phase,
    phaseTimer: real,
    currentGreenTime: real,
    queueNS: nat,
    queueEW: nat,
    spawnIntervalChanged: bool)

  /** A yellow phase ends on this tick. */
  predicate ClosesYellow(c: Controller, dt: real)
  {
    IsYellow(c.phase) && c.phaseTimer + dt >= YellowTime
  }

  /** `updateLights(dt)` on the controller's state, given the vehicles and
      the policy table: the phase advances when its time is up, and when a
      yellow phase ends the queues are measured under that yellow and the
      green time is decided for them. */
  function LightsStep(c: Controller, vs: seq<Vehicle>, table: map<string, seq<real>>,
                      dt: real, exploreDraw: nat, overrideDraw: nat): (r: Controller)
    ensures r.phase == PhaseAfter(c.phase, c.phaseTimer, c.currentGreenTime, dt).0
    ensures r.phaseTimer == PhaseAfter(c.phase, c.phaseTimer, c.currentGreenTime, dt).1
    ensures ClosesYellow(c, dt) ==>
              && r.queueNS == MeasuredQueues(vs, SignalsFor(c.phase)).0
              && r.queueEW == MeasuredQueues(vs, SignalsFor(c.phase)).1
              && r.currentGreenTime
                 == SettledGreenTime(r.queueNS, r.queueEW,
                      ChosenAction(table, (r.queueNS, r.queueEW), r.queueNS, r.queueEW, c.queueNS, c.queueEW,
                                   exploreDraw, overrideDraw))
              && !r.spawnIntervalChanged
    ensures !ClosesYellow(c, dt) ==>
              r.queueNS == c.queueNS && r.queueEW == c.queueEW &&
              r.currentGreenTime == c.currentGreenTime && r.spawnIntervalChanged == c.spawnIntervalChanged
  {
    var next := PhaseAfter(c.phase, c.phaseTimer, c.currentGreenTime, dt);
    if ClosesYellow(c, dt) then
      var q := MeasuredQueues(vs, SignalsFor(c.phase));
      var a := ChosenAction(table, (q.0, q.1), q.0, q.1, c.queueNS, c.queueEW, exploreDraw, overrideDraw);
      Controller(next.0, next.1, SettledGreenTime(q.0, q.1, a), q.0, q.1, false)
    else
      c.(phase := next.0, phaseTimer := next.1)
  }

  /** The phase only ever advances one step along the cycle, and the queues
      and the green time change only when a yellow phase ends, which always
      hands over to a green phase. */
  lemma LightsStepFollowsPlan(c: Controller, vs: seq<Vehicle>, table: map<string, seq<real>>,
                              dt: real, exploreDraw: nat, overrideDraw: nat)
    ensures var r := LightsStep(c, vs, table, dt, exploreDraw, overrideDraw);
            && (r.phase == c.phase || r.phase == NextPhase(c.phase))
            && (r.queueNS != c.queueNS || r.queueEW != c.queueEW || r.currentGreenTime != c.currentGreenTime ==>
                  IsYellow(c.phase) && r.phase == NextPhase(c.phase) && !IsYellow(r.phase))
  {
  }

  /** The adaptive green time stays between the minimum and the largest cap
      of 8 s, and right after a decision it is within the cap for the queues
      just measured. */
  lemma LightsStepKeepsGreenTimeInRange(c: Controller, vs: seq<Vehicle>, table: map<string, seq<real>>,
                                        dt: real, exploreDraw: nat, overrideDraw: nat)
    requires MinGreen <= c.currentGreenTime <= 8.0
    ensures var r := LightsStep(c, vs, table, dt, exploreDraw, overrideDraw);
            && MinGreen <= r.currentGreenTime <= 8.0
            && (ClosesYellow(c, dt) ==> r.currentGreenTime <= CongestionCap(r.queueNS, r.queueEW))
  {
  }

  /** The vehicles present once the spawn step of `update` has run: one new
      vehicle at the end when the spawn timer ran out. */
  function Arrivals(vs: seq<Vehicle>, spawns: bool, approachDraw: nat, speed: real): (arrived: seq<Vehicle>)
    ensures |arrived| >= |vs| && arrived[..|vs|] == vs
    ensures spawns ==> |arrived| == |vs| + 1 && arrived[|vs|] == SpawnedVehicle(approachDraw, speed)
    ensures !spawns ==> arrived == vs
  {
    if spawns then vs + [SpawnedVehicle(approachDraw, speed)] else vs
  }

  class TrafficManager {
    const topLeftLight: TrafficLight
    const topRightLight: TrafficLight
    const bottomLeftLight: TrafficLight
    const bottomRightLight: TrafficLight
    var phase: Phase
    var phaseTimer: real
    var currentGreenTime: real
    var queueNS: nat
    var queueEW: nat
    var vehicles: seq<Vehicle>
    var spawnTimer: real
    var spawnInterval: real
    var spawnIntervalChanged: bool
    /** The policy table `QTableLoader` reads: keys are rendered queue states. */
    const qTable: map<string, seq<real>>

    /** The four heads are separate objects, the queues are counts and the
        adaptive green time stays between the minimum and the largest cap. */
    ghost predicate Valid()
      reads this`currentGreenTime
    {
      && topLeftLight != topRightLight && topLeftLight != bottomLeftLight
      && topLeftLight != bottomRightLight && topRightLight != bottomLeftLight
      && topRightLight != bottomRightLight && bottomLeftLight != bottomRightLight
      && MinGreen <= currentGreenTime <= 8.0
    }

    /** The four heads, read together, as `shouldStopVehicle` sees them. */
    function CurrentSignals(): (s: Signals)
      reads topLeftLight, topRightLight, bottomLeftLight, bottomRightLight
      ensures s.topLeft == topLeftLight.state && s.topRight == topRightLight.state
      ensures s.bottomLeft == bottomLeftLight.state && s.bottomRight == bottomRightLight.state
    {
      Signals(topLeftLight.GetState(), topRightLight.GetState(), bottomLeftLight.GetState(), bottomRightLight.GetState())
    }

    /** Every head's timer was cleared this tick and then advanced by `dt`
        (or cleared again by its own switch). */
    ghost predicate TimersAfter(s: Signals, dt: real)
      reads topLeftLight, topRightLight, bottomLeftLight, bottomRightLight
    {
      && topLeftLight.timer == TimerAfterSetAndUpdate(s.topLeft, dt)
      && topRightLight.timer == TimerAfterSetAndUpdate(s.topRight, dt)
      && bottomLeftLight.timer == TimerAfterSetAndUpdate(s.bottomLeft, dt)
      && bottomRightLight.timer == TimerAfterSetAndUpdate(s.bottomRight, dt)
    }

    /** The north-south group starts green and the east-west group red. */
    constructor (table: map<string, seq<real>>)
      ensures Valid()
      ensures phase == NSGreen && phaseTimer == 0.0 && currentGreenTime == 5.0
      ensures queueNS == 0 && queueEW == 0 && vehicles == []
      ensures spawnTimer == 0.0 && spawnInterval == 1.0 && !spawnIntervalChanged
      ensures qTable == table
      ensures CurrentSignals() == SignalsFor(NSGreen)
      ensures topLeftLight.timer == 0.0 && topRightLight.timer == 0.0
      ensures bottomLeftLight.timer == 0.0 && bottomRightLight.timer == 0.0
      ensures fresh(topLeftLight) && fresh(topRightLight) && fresh(bottomLeftLight) && fresh(bottomRightLight)
    {
      topLeftLight := new TrafficLight();
      topRightLight := new TrafficLight();
      bottomLeftLight := new TrafficLight();
      bottomRightLight := new TrafficLight();
      phase := NSGreen;
      phaseTimer := 0.0;
      currentGreenTime := 5.0;
      queueNS := 0;
      queueEW := 0;
      vehicles := [];
      spawnTimer := 0.0;
      spawnInterval := 1.0;
      spawnIntervalChanged := false;
      qTable := table;
      new;
      topLeftLight.SetState(Green);
      bottomLeftLight.SetState(Green);
      topRightLight.SetState(Red);
      bottomRightLight.SetState(Red);
    }

    /** `applyRLDecision`, step for step: lookup, cap, the override of action
        0, the forced update after a change of spawn interval, the mid-phase
        and congestion adjustments, the action and the final clamp. Whatever
        the green time was before, the result is the closed form. */
    method ApplyRLDecision(stateKey: (int, int), prevQueueNS: int, prevQueueEW: int, exploreDraw: nat, overrideDraw: nat)
      requires Valid()
      modifies this`currentGreenTime, this`spawnIntervalChanged
      ensures Valid()
      ensures currentGreenTime
              == SettledGreenTime(queueNS, queueEW,
                   ChosenAction(qTable, stateKey, queueNS, queueEW, prevQueueNS, prevQueueEW, exploreDraw, overrideDraw))
      ensures !spawnIntervalChanged
    {
      var keyStr := StateToString(stateKey.0, stateKey.1);
      var action := TableAction(qTable, keyStr, exploreDraw);
      var maxGreenTime := CongestionCap(queueNS, queueEW);

      if currentGreenTime < maxGreenTime {
        currentGreenTime := maxGreenTime;
      } else {
        currentGreenTime := Clamp(currentGreenTime, MinGreen, maxGreenTime);
      }
      assert currentGreenTime == maxGreenTime;

      action := OverrideAction(action, queueNS, queueEW, prevQueueNS, prevQueueEW, overrideDraw);

      if spawnIntervalChanged {
        maxGreenTime := CongestionCap(queueNS, queueEW);
        currentGreenTime := maxGreenTime;
        spawnIntervalChanged := false;
      }

      if currentGreenTime < maxGreenTime {
        // The green time was brought to the cap above, so the gradual
        // increase towards the cap never runs.
        assert false;
      }

      if queueNS >= 6 || queueEW >= 6 {
        currentGreenTime := Min(currentGreenTime + 1.0, maxGreenTime);
      } else if queueNS < 3 && queueEW < 3 {
        currentGreenTime := Max(currentGreenTime - 1.0, MinGreen + 1.0);
      }
      assert currentGreenTime == if queueNS < 3 && queueEW < 3 then maxGreenTime - 1.0 else maxGreenTime;

      if action == 1 {
        currentGreenTime := currentGreenTime + 1.0;
      } else if action == 2 {
        currentGreenTime := currentGreenTime - 1.0;
      }

      currentGreenTime := Clamp(currentGreenTime, MinGreen, maxGreenTime);
    }

    /** `setSpawnInterval`: only an actual change raises the flag. */
    method SetSpawnInterval(newInterval: real)
      modifies this`spawnInterval, this`spawnIntervalChanged
      ensures spawnInterval == newInterval
      ensures spawnIntervalChanged == (old(spawnIntervalChanged) || newInterval != old(spawnInterval))
    {
      if newInterval != spawnInterval {
        spawnInterval := newInterval;
        spawnIntervalChanged := true;
      }
    }

    function GetSpawnInterval(): (i: real)
      reads this
      ensures i == spawnInterval
    {
      spawnInterval
    }

    /** `measureQueues`: the four lanes sorted rear to front and counted; the
        stop-line rule it consults latches vehicles facing a green. */
    method MeasureQueues()
      modifies this`queueNS, this`queueEW, this`vehicles
      ensures queueNS == MeasuredQueues(old(vehicles), old(CurrentSignals())).0
      ensures queueEW == MeasuredQueues(old(vehicles), old(CurrentSignals())).1
      ensures vehicles == LatchAll(old(vehicles), old(CurrentSignals()))
    {
      var ns, ew, ws := MeasureLanes(vehicles, CurrentSignals());
      queueNS := ns;
      queueEW := ew;
      vehicles := ws;
    }

    /** `spawnVehicle` with the approach draw and the new vehicle's speed. */
    method SpawnVehicle(approachDraw: nat, speed: real)
      modifies this`vehicles
      ensures vehicles == old(vehicles) + [SpawnedVehicle(approachDraw, speed)]
    {
      var v := SpawnedVehicle(approachDraw, speed);
      vehicles := vehicles + [v];
    }

    /** The controller's own state, read together. */
    function Controls(): (c: Controller)
      reads this`phase, this`phaseTimer, this`currentGreenTime, this`queueNS, this`queueEW,
            this`spawnIntervalChanged
      ensures c.phase == phase && c.phaseTimer == phaseTimer && c.currentGreenTime == currentGreenTime
      ensures c.queueNS == queueNS && c.queueEW == queueEW && c.spawnIntervalChanged == spawnIntervalChanged
    {
      Controller(phase, phaseTimer, currentGreenTime, queueNS, queueEW, spawnIntervalChanged)
    }

    /** `updateLights`: the heads set for the current phase, the phase
        advanced when its time is up, and at the end of a yellow phase a
        fresh measurement and decision. Measurement happens under a yellow
        phase, when no head shows green, so it latches nothing. */
    method UpdateLights(dt: real, exploreDraw: nat, overrideDraw: nat)
      requires Valid()
      modifies this`phase, this`phaseTimer, this`currentGreenTime, this`queueNS, this`queueEW,
               this`vehicles, this`spawnIntervalChanged
      modifies topLeftLight, topRightLight, bottomLeftLight, bottomRightLight
      ensures Valid()
      ensures Controls() == LightsStep(old(Controls()), old(vehicles), qTable, dt, exploreDraw, overrideDraw)
      ensures CurrentSignals() == SignalsAfter(SignalsFor(old(phase)), dt)
      ensures TimersAfter(SignalsFor(old(phase)), dt)
      ensures vehicles == old(vehicles)
    {
      ghost var p := phase;
      phaseTimer := phaseTimer + dt;
      match phase {
        case NSGreen =>
          SetGroups(Green, Red);
          if phaseTimer >= currentGreenTime {
            phase := NSYellow;
            phaseTimer := 0.0;
          }
        case NSYellow =>
          SetGroups(Yellow, Red);
          if phaseTimer >= YellowTime {
            CloseYellow(exploreDraw, overrideDraw);
            phase := EWGreen;
            phaseTimer := 0.0;
          }
        case EWGreen =>
          SetGroups(Red, Green);
          if phaseTimer >= currentGreenTime {
            phase := EWYellow;
            phaseTimer := 0.0;
          }
        case EWYellow =>
          SetGroups(Red, Yellow);
          if phaseTimer >= YellowTime {
            CloseYellow(exploreDraw, overrideDraw);
            phase := NSGreen;
            phaseTimer := 0.0;
          }
      }
      assert CurrentSignals() == SignalsFor(p);
      TickHeads(dt);
    }

    /** The four `update(dt)` calls that follow the `setState` calls of a
        phase, with every timer just cleared. */
    method TickHeads(dt: real)
      requires Valid()
      requires topLeftLight.timer == 0.0 && topRightLight.timer == 0.0
      requires bottomLeftLight.timer == 0.0 && bottomRightLight.timer == 0.0
      modifies topLeftLight, topRightLight, bottomLeftLight, bottomRightLight
      ensures CurrentSignals() == SignalsAfter(old(CurrentSignals()), dt)
      ensures TimersAfter(old(CurrentSignals()), dt)
    {
      topLeftLight.Update(dt);
      topRightLight.Update(dt);
      bottomLeftLight.Update(dt);
      bottomRightLight.Update(dt);
    }

    /** The `setState` calls of one phase: top-left and bottom-left show
        `ns`, top-right and bottom-right show `ew`. */
    method SetGroups(ns: LightState, ew: LightState)
      requires Valid()
      modifies topLeftLight, topRightLight, bottomLeftLight, bottomRightLight
      ensures CurrentSignals() == Signals(ns, ew, ns, ew)
      ensures topLeftLight.timer == 0.0 && topRightLight.timer == 0.0
      ensures bottomLeftLight.timer == 0.0 && bottomRightLight.timer == 0.0
    {
      topLeftLight.SetState(ns);
      bottomLeftLight.SetState(ns);
      topRightLight.SetState(ew);
      bottomRightLight.SetState(ew);
    }

    /** The block both yellow phases end with: remember the queues, measure,
        decide. */
    method CloseYellow(exploreDraw: nat, overrideDraw: nat)
      requires Valid() && NoGreen(CurrentSignals())
      modifies this`queueNS, this`queueEW, this`vehicles, this`currentGreenTime, this`spawnIntervalChanged
      ensures Valid()
      ensures queueNS == MeasuredQueues(old(vehicles), old(CurrentSignals())).0
      ensures queueEW == MeasuredQueues(old(vehicles), old(CurrentSignals())).1
      ensures currentGreenTime == SettledGreenTime(queueNS, queueEW,
                ChosenAction(qTable, (queueNS, queueEW), queueNS, queueEW, old(queueNS), old(queueEW),
                             exploreDraw, overrideDraw))
      ensures !spawnIntervalChanged && vehicles == old(vehicles)
    {
      var prevQueueNS := queueNS;
      var prevQueueEW := queueEW;
      MeasureQueues();
      var stateKey := (queueNS, queueEW);
      ApplyRLDecision(stateKey, prevQueueNS, prevQueueEW, exploreDraw, overrideDraw);
    }

    /** `update(dt)`: lights, spawning, then every lane moved on lanes sorted
        before anything moves, then the vehicles that left the area removed. */
    method Update(dt: real, exploreDraw: nat, overrideDraw: nat, approachDraw: nat, speed: real)
      requires Valid()
      modifies this`phase, this`phaseTimer, this`currentGreenTime, this`queueNS, this`queueEW,
               this`vehicles, this`spawnIntervalChanged, this`spawnTimer
      modifies topLeftLight, topRightLight, bottomLeftLight, bottomRightLight
      ensures Valid()
      ensures Controls() == LightsStep(old(Controls()), old(vehicles), qTable, dt, exploreDraw, overrideDraw)
      ensures CurrentSignals() == SignalsAfter(SignalsFor(old(phase)), dt)
      ensures TimersAfter(SignalsFor(old(phase)), dt)
      ensures spawnTimer == if old(spawnTimer) + dt >= spawnInterval then 0.0 else old(spawnTimer) + dt
      ensures vehicles == KeepInBounds(MoveAll(Arrivals(old(vehicles), old(spawnTimer) + dt >= spawnInterval,
                                                        approachDraw, speed), CurrentSignals(), dt))
      ensures |vehicles| <= |old(vehicles)| + 1
    {
      UpdateLights(dt, exploreDraw, overrideDraw);
      AdvanceVehicles(dt, approachDraw, speed);
    }

    /** The part of `update(dt)` after the lights: the spawn timer, then
        moving every lane under the heads as they now show, then removal. */
    method AdvanceVehicles(dt: real, approachDraw: nat, speed: real)
      modifies this`vehicles, this`spawnTimer
      ensures spawnTimer == if old(spawnTimer) + dt >= spawnInterval then 0.0 else old(spawnTimer) + dt
      ensures vehicles == KeepInBounds(MoveAll(Arrivals(old(vehicles), old(spawnTimer) + dt >= spawnInterval,
                                                        approachDraw, speed), CurrentSignals(), dt))
      ensures |vehicles| <= |old(vehicles)| + 1
    {
      spawnTimer := spawnTimer + dt;
      if spawnTimer >= spawnInterval {
        SpawnVehicle(approachDraw, speed);
        spawnTimer := 0.0;
      }
      assert vehicles == Arrivals(old(vehicles), old(spawnTimer) + dt >= spawnInterval, approachDraw, speed);
      var ws := MoveAllLanes(vehicles, CurrentSignals(), dt);
      vehicles := KeepInBounds(ws);
    }

    function GetVehicleCount(): (n: nat)
      reads this
      ensures n == |vehicles|
    {
      |vehicles|
    }
  }
}
