/** The fixed geometry and rules of the intersection in TrafficManager.cpp:
    the four-phase signal plan, the stop-line rule, the entry points and the
    bounds of the simulated area. */
module Intersection {
  import opened Lights
  import opened Vehicles

  datatype Phase = NSGreen | NSYellow | EWGreen | EWYellow

  const YellowTime: real := 2.0
  const VehicleSpeed: real := 120.0
  const SpeedThreshold: real := 5.0
  const StallLimit: real := 2.0

  /** The phase that follows `p`: the plan is a strict four-step cycle. */
  function NextPhase(p: Phase): (r: Phase)
    ensures r != p
    ensures IsYellow(r) <==> !IsYellow(p)
  {
    match p
    case NSGreen => NSYellow
    case NSYellow => EWGreen
    case EWGreen => EWYellow
    case EWYellow => NSGreen
  }

  predicate IsYellow(p: Phase)
  {
    p.NSYellow? || p.EWYellow?
  }

  /** A green phase lasts the adaptive green time, a yellow one the fixed
      yellow time. */
  function PhaseDuration(p: Phase, currentGreenTime: real): real
  {
    if IsYellow(p) then YellowTime else currentGreenTime
  }

  /** Four steps bring every phase back to itself, visiting all four phases,
      and greens and yellows alternate. */
  lemma PhaseCycle(p: Phase)
    ensures NextPhase(NextPhase(NextPhase(NextPhase(p)))) == p
    ensures {p, NextPhase(p), NextPhase(NextPhase(p)), NextPhase(NextPhase(NextPhase(p)))}
            == {NSGreen, NSYellow, EWGreen, EWYellow}
    ensures IsYellow(NextPhase(p)) <==> !IsYellow(p)
  {
  }

  /** The states of the four signal heads, read together. */
  datatype Signals = Signals(
    topLeft: LightState,
    topRight: LightState,
    bottomLeft: LightState,
    bottomRight: LightState)

  /** The heads the phase sets: top-left and bottom-left govern the
      north-south approaches, top-right and bottom-right the east-west ones. */
  function SignalsFor(p: Phase): (s: Signals)
    ensures p.NSGreen? || p.NSYellow? ==>
              s.topLeft == s.bottomLeft && s.topRight == Red && s.bottomRight == Red &&
              s.topLeft == (if p.NSGreen? then Green else Yellow)
    ensures p.EWGreen? || p.EWYellow? ==>
              s.topRight == s.bottomRight && s.topLeft == Red && s.bottomLeft == Red &&
              s.topRight == (if p.EWGreen? then Green else Yellow)
  {
    match p
    case NSGreen => Signals(Green, Red, Green, Red)
    case NSYellow => Signals(Yellow, Red, Yellow, Red)
    case EWGreen => Signals(Red, Green, Red, Green)
    case EWYellow => Signals(Red, Yellow, Red, Yellow)
  }

  predicate NoGreen(s: Signals)
  {
    s.topLeft != Green && s.topRight != Green && s.bottomLeft != Green && s.bottomRight != Green
  }

  /** In every phase one axis is entirely red, and a yellow phase shows
      green nowhere. */
  lemma NoConflictingSignals(p: Phase)
    ensures var s := SignalsFor(p);
            (s.topLeft == Red && s.bottomLeft == Red) || (s.topRight == Red && s.bottomRight == Red)
    ensures IsYellow(p) ==> NoGreen(SignalsFor(p))
  {
  }

  /** The head a vehicle on each approach obeys. */
  function GoverningLight(d: Direction, s: Signals): LightState
  {
    match d
    case TopToBottom => s.topLeft
    case BottomToTop => s.bottomLeft
    case LeftToRight => s.topRight
    case RightToLeft => s.bottomRight
  }

  /** The vehicle has reached its approach's stop line. */
  predicate PastThreshold(v: Vehicle)
  {
    match v.direction
    case TopToBottom => v.position.y > 150.0
    case BottomToTop => v.position.y < 450.0
    case LeftToRight => v.position.x > 300.0
    case RightToLeft => v.position.x < 605.0
  }

  /** Neither the stall rule nor the latch decides, and the vehicle is at its
      stop line: the signal decides. */
  predicate AtLineUnlatched(v: Vehicle)
  {
    v.stoppedTime < StallLimit && !v.passedStopLine && PastThreshold(v)
  }

  /** The answer of `shouldStopVehicle` with the vehicle as it is afterwards
      (its latch may have been set). */
  datatype StopOutcome = StopOutcome(stop: bool, vehicle: Vehicle)

  /** `shouldStopVehicle`: the rules in the order the source applies them; the
      stall rule comes before the latch, so a latched vehicle can still be
      held. The only change ever made is setting the latch, on a green. */
  function ShouldStopVehicle(v: Vehicle, s: Signals): (r: StopOutcome)
    ensures v.stoppedTime >= StallLimit ==> r.stop && r.vehicle == v
    ensures v.stoppedTime < StallLimit && v.passedStopLine ==> !r.stop && r.vehicle == v
    ensures v.stoppedTime < StallLimit && !v.passedStopLine && !PastThreshold(v) ==>
              !r.stop && r.vehicle == v
    ensures AtLineUnlatched(v) && GoverningLight(v.direction, s) != Green ==>
              r.stop && r.vehicle == v
    ensures AtLineUnlatched(v) && GoverningLight(v.direction, s) == Green ==>
              !r.stop && r.vehicle == v.SetPassedStopLine(true)
    ensures r.vehicle == v || r.vehicle == v.SetPassedStopLine(true)
    ensures v.passedStopLine ==> r.vehicle.passedStopLine
  {
    if v.stoppedTime >= 2.0 then StopOutcome(true, v)
    else
      var x := v.GetX();
      var y := v.GetY();
      var d := v.GetDirection();
      if v.HasPassedStopLine() then StopOutcome(false, v)
      else if d == TopToBottom then
        (if y > 150.0 then ObeySignal(v, s.topLeft) else StopOutcome(false, v))
      else if d == BottomToTop then
        (if y < 450.0 then ObeySignal(v, s.bottomLeft) else StopOutcome(false, v))
      else if d == LeftToRight then
        (if x > 300.0 then ObeySignal(v, s.topRight) else StopOutcome(false, v))
      else
        (if x < 605.0 then ObeySignal(v, s.bottomRight) else StopOutcome(false, v))
  }

  /** The block each approach repeats once the vehicle is at its line: hold on
      red or yellow, release and latch on green. */
  function ObeySignal(v: Vehicle, l: LightState): StopOutcome
  {
    if l == Red || l == Yellow then StopOutcome(true, v)
    else StopOutcome(false, v.SetPassedStopLine(true))
  }

  /** With no green showing the rule never touches the vehicle. */
  lemma NoGreenNoLatch(v: Vehicle, s: Signals)
    requires NoGreen(s)
    ensures ShouldStopVehicle(v, s).vehicle == v
  {
  }

  /** `isVehicleQueuedBySpeed`. */
  predicate IsVehicleQueuedBySpeed(v: Vehicle)
  {
    v.speed < SpeedThreshold
  }

  /** A vehicle counts as queued on its own account: held at the line or too
      slow; the short-circuit order of the source does not matter because the
      speed test reads no latch. */
  predicate DirectlyQueued(v: Vehicle, s: Signals)
  {
    ShouldStopVehicle(v, s).stop || IsVehicleQueuedBySpeed(v)
  }

  const MinX: real := -50.0
  const MaxX: real := 950.0
  const MinY: real := -50.0
  const MaxY: real := 650.0

  /** The vehicle is kept by the removal pass of `update`. */
  predicate InBounds(v: Vehicle)
  {
    !(v.position.x < MinX || v.position.x > MaxX || v.position.y < MinY || v.position.y > MaxY)
  }

  /** `spawnVehicle` without the display category: the entry point and heading
      chosen by `approach = rand() % 4`. */
  function SpawnedVehicle(randomDraw: nat, speed: real): (v: Vehicle)
    ensures v.stoppedTime == 0.0 && !v.passedStopLine && InSync(v) && v.speed == speed
    ensures InBounds(v)
    ensures match v.direction
      case TopToBottom => v.position.y == MinY
      case BottomToTop => v.position.y == MaxY
      case LeftToRight => v.position.x == MinX
      case RightToLeft => v.position.x == MaxX
    ensures !PastThreshold(v)
  {
    var approach := randomDraw % 4;
    if approach == 0 then NewVehicle(Position(390.0, -50.0), TopToBottom, speed)
    else if approach == 1 then NewVehicle(Position(500.0, 650.0), BottomToTop, speed)
    else if approach == 2 then NewVehicle(Position(-50.0, 250.0), LeftToRight, speed)
    else NewVehicle(Position(950.0, 350.0), RightToLeft, speed)
  }

  /** How far a vehicle has travelled along its heading; the lane sorts of the
      source order by it, so index 0 is the vehicle farthest from the
      intersection. */
  function Progress(v: Vehicle): real
  {
    match v.direction
    case TopToBottom => v.position.y
    case BottomToTop => -v.position.y
    case LeftToRight => v.position.x
    case RightToLeft => -v.position.x
  }

  /** One unobstructed step of `Update` advances a vehicle by exactly
      `speed * dt` along its heading. */
  lemma UpdateAdvancesProgress(v: Vehicle, dt: real, speed: real)
    ensures Progress(v.Update(dt, speed)) == Progress(v) + speed * dt
  {
  }
}
