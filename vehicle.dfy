/** One vehicle (Vehicle.cpp) as a value: its position, heading, the
    position seen at its last step, the stall clock and the stop-line latch.
    The display category, sprite and texture are not modelled. */
module Vehicles {
  import opened Common

  datatype Direction = TopToBottom | BottomToTop | LeftToRight | RightToLeft

  datatype Position = Position(x: real, y: real)

  /** `speed` is a field the source declares but never initialises; it is
      carried as whatever value the vehicle was created with and never
      updated. */
  datatype Vehicle = Vehicle(
    position: Position,
    direction: Direction,
    lastPosition: Position,
    stoppedTime: real,
    speed: real,
    passedStopLine: bool)
  {
    function GetX(): (x: real)
      ensures x == position.x
    {
      position.x
    }

    function GetY(): (y: real)
      ensures y == position.y
    {
      position.y
    }

    function GetDirection(): (d: Direction)
      ensures d == direction
    {
      direction
    }

    function HasPassedStopLine(): (b: bool)
      ensures b == passedStopLine
    {
      passedStopLine
    }

    /** Writes the latch and nothing else. */
    function SetPassedStopLine(b: bool): (w: Vehicle)
      ensures w.HasPassedStopLine() == b
      ensures w.(passedStopLine := passedStopLine) == this
    {
      this.(passedStopLine := b)
    }

    /** `update(dt, speed)`: one step of `speed * dt` along the heading, then
        the stall clock from the distance to the last position. */
    function Update(dt: real, speed: real): (w: Vehicle)
      ensures w.direction == direction && w.speed == this.speed
      ensures w.passedStopLine == passedStopLine
      ensures match direction
        case LeftToRight => w.position == Position(position.x + speed * dt, position.y)
        case RightToLeft => w.position == Position(position.x - speed * dt, position.y)
        case TopToBottom => w.position == Position(position.x, position.y + speed * dt)
        case BottomToTop => w.position == Position(position.x, position.y - speed * dt)
      ensures w.lastPosition == w.position
      ensures Stalled(lastPosition, w.position) ==> w.stoppedTime == stoppedTime + dt
      ensures !Stalled(lastPosition, w.position) ==> w.stoppedTime == 0.0
      ensures dt >= 0.0 && stoppedTime >= 0.0 ==> w.stoppedTime >= 0.0
    {
      var (dx, dy) :=
        match direction
        case LeftToRight => (speed, 0.0)
        case RightToLeft => (-speed, 0.0)
        case TopToBottom => (0.0, speed)
        case BottomToTop => (0.0, -speed);
      var current := Position(position.x + dx * dt, position.y + dy * dt);
      this.(
        position := current,
        stoppedTime := if Stalled(lastPosition, current) then stoppedTime + dt else 0.0,
        lastPosition := current)
    }
  }

  const StallEpsilon: real := 0.1

  /** The Euclidean distance between the two positions is below the stall
      epsilon; compared on squares, which over the reals is the same test as
      comparing the square root. */
  predicate Stalled(last: Position, current: Position)
  {
    (current.x - last.x) * (current.x - last.x) + (current.y - last.y) * (current.y - last.y)
      < StallEpsilon * StallEpsilon
  }

  /** The constructor's state: no latch, a cleared stall clock, and the start
      position recorded as the last position. */
  function NewVehicle(startPos: Position, dir: Direction, speed: real): (v: Vehicle)
    ensures v.position == startPos && v.lastPosition == startPos
    ensures v.direction == dir && v.speed == speed
    ensures v.stoppedTime == 0.0 && !v.passedStopLine
    ensures InSync(v)
  {
    Vehicle(startPos, dir, startPos, 0.0, speed, false)
  }

  /** Only `Update` moves a vehicle and it records where it ends, so the last
      position is always the current one. */
  predicate InSync(v: Vehicle)
  {
    v.lastPosition == v.position
  }

  lemma {:induction false} UpdateKeepsInSync(v: Vehicle, dt: real, speed: real)
    ensures InSync(v.Update(dt, speed))
    ensures InSync(v) ==> InSync(v.SetPassedStopLine(true))
  {
  }

  lemma SquareBelow(t: real)
    ensures t * t < StallEpsilon * StallEpsilon <==> -StallEpsilon < t < StallEpsilon
  {
    var a := if t < 0.0 then -t else t;
    assert t * t == a * a;
    if a >= 0.1 {
      var e := a - 0.1;
      MulNonnegative(e, e);
      assert a * a == 0.01 + 0.2 * e + e * e;
    } else {
      MulNonnegative(a, 0.1 - a);
      assert a * (0.1 - a) == 0.1 * a - a * a;
    }
  }

  /** For a vehicle whose last position is its current one, the stall test
      only asks whether the step `speed * dt` is shorter than the epsilon. */
  lemma StallMeansShortStep(v: Vehicle, dt: real, speed: real)
    requires InSync(v)
    ensures Stalled(v.lastPosition, v.Update(dt, speed).position)
            <==> -StallEpsilon < speed * dt < StallEpsilon
  {
    var w := v.Update(dt, speed);
    var t := speed * dt;
    match v.direction {
      case LeftToRight =>
        assert w.position.x - v.lastPosition.x == t && w.position.y - v.lastPosition.y == 0.0;
      case RightToLeft =>
        assert w.position.x - v.lastPosition.x == -t && w.position.y - v.lastPosition.y == 0.0;
        assert (-t) * (-t) == t * t;
      case TopToBottom =>
        assert w.position.y - v.lastPosition.y == t && w.position.x - v.lastPosition.x == 0.0;
      case BottomToTop =>
        assert w.position.y - v.lastPosition.y == -t && w.position.x - v.lastPosition.x == 0.0;
        assert (-t) * (-t) == t * t;
    }
    SquareBelow(t);
  }
}
