/** One signal head (TrafficLight.cpp): a state and a timer, with its own
    Red -> Green -> Yellow -> Red cycle driven by `Update`, and `SetState` for
    the controller that overrides it. Textures, sprites and the position are
    for drawing only and are not modelled. */
module Lights {

  datatype LightState = Red | Yellow | Green

  const RedDuration: real := 5.0
  const YellowDuration: real := 2.0
  const GreenDuration: real := 5.0

  /** How long a light stays in `s` before its own cycle moves on. */
  function Duration(s: LightState): (d: real)
    ensures d >= YellowDuration
  {
    match s
    case Red => RedDuration
    case Yellow => YellowDuration
    case Green => GreenDuration
  }

  /** The state the light's own cycle switches to from `s`. */
  function Successor(s: LightState): (r: LightState)
    ensures r != s
  {
    match s
    case Red => Green
    case Green => Yellow
    case Yellow => Red
  }

  /** The cycle has period three and never stands still. */
  lemma SuccessorCycles(s: LightState)
    ensures Successor(s) != s
    ensures Successor(Successor(s)) != s
    ensures Successor(Successor(Successor(s))) == s
  {
  }

  /** The state shown after `SetState(s)` and then `Update(dt)`: the timer has
      just been cleared, so the light's own cycle fires only when `dt` alone
      reaches the duration of `s`. */
  function AfterSetAndUpdate(s: LightState, dt: real): (r: LightState)
    ensures r == s || r == Successor(s)
    ensures r != s <==> dt >= Duration(s)
    ensures dt < YellowDuration ==> r == s
  {
    if 0.0 + dt >= Duration(s) then Successor(s) else s
  }

  /** The timer left after `SetState(s)` and then `Update(dt)`. */
  function TimerAfterSetAndUpdate(s: LightState, dt: real): (t: real)
    ensures t == 0.0 || t == dt
    ensures t == dt <==> dt < Duration(s) || dt == 0.0
  {
    if 0.0 + dt >= Duration(s) then 0.0 else 0.0 + dt
  }

  class TrafficLight {
    var state: LightState
    var timer: real

    /** A new light is red with a cleared timer. */
    constructor ()
      ensures state == Red && timer == 0.0
    {
      state := Red;
      timer := 0.0;
    }

    method SwitchToRed()
      modifies this
      ensures state == Red && timer == old(timer)
    {
      state := Red;
    }

    method SwitchToYellow()
      modifies this
      ensures state == Yellow && timer == old(timer)
    {
      state := Yellow;
    }

    method SwitchToGreen()
      modifies this
      ensures state == Green && timer == old(timer)
    {
      state := Green;
    }

    /** Advances the timer; at most one switch, and only once the current
        state's duration is reached, after which the timer starts again. */
    method Update(dt: real)
      modifies this
      ensures old(timer) + dt >= Duration(old(state)) ==>
                state == Successor(old(state)) && timer == 0.0
      ensures old(timer) + dt < Duration(old(state)) ==>
                state == old(state) && timer == old(timer) + dt
    {
      timer := timer + dt;
      match state {
        case Red =>
          if timer >= RedDuration {
            SwitchToGreen();
            timer := 0.0;
          }
        case Green =>
          if timer >= GreenDuration {
            SwitchToYellow();
            timer := 0.0;
          }
        case Yellow =>
          if timer >= YellowDuration {
            SwitchToRed();
            timer := 0.0;
          }
      }
    }

    method SetState(newState: LightState)
      modifies this
      ensures state == newState && timer == 0.0
    {
      timer := 0.0;
      if newState == Red {
        SwitchToRed();
      } else if newState == Yellow {
        SwitchToYellow();
      } else {
        SwitchToGreen();
      }
    }

    function GetState(): (s: LightState)
      reads this
      ensures s == state
    {
      state
    }
  }
}
