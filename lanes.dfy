/** The per-lane passes of TrafficManager.cpp over the vehicle collection:
    splitting it by direction, sorting each lane, counting queued vehicles
    (`measureQueues`), car-following (`update`) and the removal of vehicles
    that left the area.

    The source sorts vectors of pointers into the collection; here a lane is
    a sequence of indices into the sequence of vehicle values, and a write
    through a pointer is a write at that index. */
module Lanes {
  import opened Common
  import opened Lights
  import opened Vehicles
  import opened Intersection

  const MinDistance: real := 80.0

  predicate Distinct(lane: seq<nat>)
  {
    forall i, j :: 0 <= i < j < |lane| ==> lane[i] != lane[j]
  }

  /** A lane holds distinct indices into a collection of `n` vehicles. */
  predicate ValidLane(lane: seq<nat>, n: nat)
  {
    (forall i :: 0 <= i < |lane| ==> lane[i] < n) && Distinct(lane)
  }

  // ---------------------------------------------------------------------
  // Splitting by direction

  /** The indices of the vehicles heading `d`, in collection order. */
  function IndicesWith(vs: seq<Vehicle>, d: Direction): (lane: seq<nat>)
    ensures ValidLane(lane, |vs|)
    ensures forall i, j :: 0 <= i < j < |lane| ==> lane[i] < lane[j]
    ensures forall k: nat :: k in lane <==> k < |vs| && vs[k].direction == d
  {
    if vs == [] then []
    else IndicesWith(vs[..|vs| - 1], d) + (if vs[|vs| - 1].direction == d then [|vs| - 1] else [])
  }

  /** The four lanes are a partition of the collection. */
  lemma {:induction false} LanesCoverAll(vs: seq<Vehicle>)
    ensures |IndicesWith(vs, TopToBottom)| + |IndicesWith(vs, BottomToTop)|
            + |IndicesWith(vs, LeftToRight)| + |IndicesWith(vs, RightToLeft)| == |vs|
  {
    if vs != [] {
      LanesCoverAll(vs[..|vs| - 1]);
    }
  }

  /** Looking at one more vehicle appends its index to its own lane only. */
  lemma IndicesWithSnoc(vs: seq<Vehicle>, i: nat, d: Direction)
    requires i < |vs|
    ensures IndicesWith(vs[..i + 1], d) == IndicesWith(vs[..i], d) + (if vs[i].direction == d then [i] else [])
  {
    assert vs[..i + 1][..i] == vs[..i];
  }

  /** The loop both `measureQueues` and `update` open with. */
  method SplitByDirection(vs: seq<Vehicle>) returns (top: seq<nat>, bottom: seq<nat>, left: seq<nat>, right: seq<nat>)
    ensures top == IndicesWith(vs, TopToBottom) && bottom == IndicesWith(vs, BottomToTop)
    ensures left == IndicesWith(vs, LeftToRight) && right == IndicesWith(vs, RightToLeft)
  {
    top, bottom, left, right := [], [], [], [];
    var i := 0;
    while i < |vs|
      invariant 0 <= i <= |vs|
      invariant top == IndicesWith(vs[..i], TopToBottom)
      invariant bottom == IndicesWith(vs[..i], BottomToTop)
      invariant left == IndicesWith(vs[..i], LeftToRight)
      invariant right == IndicesWith(vs[..i], RightToLeft)
    {
      IndicesWithSnoc(vs, i, TopToBottom);
      IndicesWithSnoc(vs, i, BottomToTop);
      IndicesWithSnoc(vs, i, LeftToRight);
      IndicesWithSnoc(vs, i, RightToLeft);
      match vs[i].direction {
        case TopToBottom => top := top + [i];
        case BottomToTop => bottom := bottom + [i];
        case LeftToRight => left := left + [i];
        case RightToLeft => right := right + [i];
      }
      i := i + 1;
    }
    assert vs[..|vs|] == vs;
  }

  // ---------------------------------------------------------------------
  // Sorting a lane

  function KeyAt(vs: seq<Vehicle>, k: nat): real
  {
    if k < |vs| then Progress(vs[k]) else 0.0
  }

  /** Rear to front: index 0 has travelled least along the heading, which is
      what the four comparators of the source produce. */
  predicate SortedByProgress(vs: seq<Vehicle>, lane: seq<nat>)
  {
    forall i, j :: 0 <= i < j < |lane| ==> KeyAt(vs, lane[i]) <= KeyAt(vs, lane[j])
  }

  /** Inserting above a head that is below `k` leaves that head below
      every element of the result. */
  lemma HeadStaysBelow(vs: seq<Vehicle>, k: nat, lane: seq<nat>, rest: seq<nat>)
    requires SortedByProgress(vs, lane) && |lane| > 0
    requires KeyAt(vs, lane[0]) < KeyAt(vs, k)
    requires multiset(rest) == multiset(lane[1..]) + multiset{k}
    ensures forall i :: 0 <= i < |rest| ==> KeyAt(vs, lane[0]) <= KeyAt(vs, rest[i])
  {
    forall i | 0 <= i < |rest|
      ensures KeyAt(vs, lane[0]) <= KeyAt(vs, rest[i])
    {
      assert rest[i] in multiset(rest);
      if rest[i] != k {
        assert rest[i] in lane[1..];
        var m :| 0 <= m < |lane[1..]| && lane[1..][m] == rest[i];
        assert lane[m + 1] == rest[i];
      }
    }
  }

  /** The tail of a distinct lane is distinct and misses the head. */
  lemma DistinctTail(lane: seq<nat>)
    requires Distinct(lane) && |lane| > 0
    ensures Distinct(lane[1..]) && lane[0] !in multiset(lane[1..])
  {
    assert forall m :: 0 <= m < |lane| - 1 ==> lane[1..][m] == lane[m + 1];
    assert lane[0] !in lane[1..];
  }

  /** The head of a distinct lane is not among the rest of it with `k`
      added, when `k` is not in the lane either. */
  lemma HeadStaysDistinct(k: nat, lane: seq<nat>, rest: seq<nat>)
    requires Distinct(lane) && |lane| > 0 && k !in lane
    requires multiset(rest) == multiset(lane[1..]) + multiset{k}
    ensures lane[0] !in rest
  {
    DistinctTail(lane);
    assert lane[0] != k;
    assert lane[0] !in multiset(rest);
  }

  lemma SameElements(a: seq<nat>, b: seq<nat>)
    requires multiset(a) == multiset(b)
    ensures forall x :: x in a <==> x in b
  {
    forall x
      ensures x in a <==> x in b
    {
      assert x in a <==> x in multiset(a);
      assert x in b <==> x in multiset(b);
    }
  }

  /** A head no later than every element of a sorted lane extends it. */
  lemma ConsSorted(vs: seq<Vehicle>, h: nat, rest: seq<nat>)
    requires SortedByProgress(vs, rest)
    requires forall i :: 0 <= i < |rest| ==> KeyAt(vs, h) <= KeyAt(vs, rest[i])
    ensures SortedByProgress(vs, [h] + rest)
  {
    assert forall i :: 0 < i <= |rest| ==> ([h] + rest)[i] == rest[i - 1];
  }

  /** A head missing from a distinct lane extends it. */
  lemma ConsDistinct(h: nat, rest: seq<nat>)
    requires Distinct(rest) && h !in rest
    ensures Distinct([h] + rest)
  {
    assert forall i :: 0 < i <= |rest| ==> ([h] + rest)[i] == rest[i - 1];
  }

  function InsertByProgress(vs: seq<Vehicle>, k: nat, lane: seq<nat>): (r: seq<nat>)
    requires SortedByProgress(vs, lane)
    ensures SortedByProgress(vs, r)
    ensures multiset(r) == multiset(lane) + multiset{k}
    ensures k !in lane && Distinct(lane) ==> Distinct(r)
  {
    if lane == [] then [k]
    else if KeyAt(vs, k) <= KeyAt(vs, lane[0]) then
      ConsSorted(vs, k, lane);
      if k !in lane && Distinct(lane) then
        ConsDistinct(k, lane);
        [k] + lane
      else
        [k] + lane
    else
      assert lane == [lane[0]] + lane[1..];
      assert SortedByProgress(vs, lane[1..]);
      var rest := InsertByProgress(vs, k, lane[1..]);
      HeadStaysBelow(vs, k, lane, rest);
      ConsSorted(vs, lane[0], rest);
      if k !in lane && Distinct(lane) then
        DistinctTail(lane);
        assert k !in lane[1..];
        HeadStaysDistinct(k, lane, rest);
        ConsDistinct(lane[0], rest);
        [lane[0]] + rest
      else
        [lane[0]] + rest
  }

  /** The order `std::sort` produces with the lane's comparator (ties kept
      in collection order). */
  function SortLane(vs: seq<Vehicle>, lane: seq<nat>): (r: seq<nat>)
    ensures SortedByProgress(vs, r)
    ensures multiset(r) == multiset(lane) && |r| == |lane|
    ensures Distinct(lane) ==> Distinct(r)
  {
    if lane == [] then []
    else
      assert lane == [lane[0]] + lane[1..];
      var sortedTail := SortLane(vs, lane[1..]);
      if Distinct(lane) then
        DistinctTail(lane);
        assert lane[0] !in sortedTail;
        InsertByProgress(vs, lane[0], sortedTail)
      else
        InsertByProgress(vs, lane[0], sortedTail)
  }

  /** The sorted lane of direction `d`, as both passes use it. */
  function LaneOrder(vs: seq<Vehicle>, d: Direction): (lane: seq<nat>)
    ensures ValidLane(lane, |vs|)
    ensures SortedByProgress(vs, lane)
  {
    var unsorted := IndicesWith(vs, d);
    var r := SortLane(vs, unsorted);
    SameElements(r, unsorted);
    assert forall i :: 0 <= i < |r| ==> r[i] in unsorted;
    r
  }

  /** The sorted lane holds exactly the vehicles heading `d`. */
  lemma LaneOrderMembers(vs: seq<Vehicle>, d: Direction)
    ensures forall k: nat :: k in LaneOrder(vs, d) <==> k < |vs| && vs[k].direction == d
    ensures |LaneOrder(vs, d)| == |IndicesWith(vs, d)|
  {
    SameElements(LaneOrder(vs, d), IndicesWith(vs, d));
  }

  /** One vehicle's membership of the sorted lane of `d`. */
  lemma LaneOrderMember(vs: seq<Vehicle>, d: Direction, k: nat)
    requires k < |vs|
    ensures k in LaneOrder(vs, d) <==> vs[k].direction == d
  {
    LaneOrderMembers(vs, d);
  }

  // ---------------------------------------------------------------------
  // Queue estimation

  /** Which vehicles of the lane are queued on their own account. */
  function DirectFlags(vs: seq<Vehicle>, lane: seq<nat>, s: Signals): (flags: seq<bool>)
    requires forall i :: 0 <= i < |lane| ==> lane[i] < |vs|
    ensures |flags| == |lane|
    ensures forall i :: 0 <= i < |lane| ==> flags[i] == DirectlyQueued(vs[lane[i]], s)
  {
    seq(|lane|, i requires 0 <= i < |lane| => DirectlyQueued(vs[lane[i]], s))
  }

  /** The first set flag, or the length when there is none. */
  function FirstTrue(flags: seq<bool>): (k: nat)
    ensures k <= |flags|
    ensures forall j :: 0 <= j < k ==> !flags[j]
    ensures k < |flags| ==> flags[k]
  {
    if flags == [] then 0
    else if flags[0] then 0
    else 1 + FirstTrue(flags[1..])
  }

  /** The running flag of `processLane`, step by step: a vehicle is queued when
      it is queued on its own account or the vehicle processed before it was. */
  function PropagatedFlags(direct: seq<bool>, frontIsStopped: bool): (q: seq<bool>)
    ensures |q| == |direct|
  {
    if direct == [] then []
    else
      var f := direct[0] || frontIsStopped;
      [f] + PropagatedFlags(direct[1..], f)
  }

  function CountTrue(flags: seq<bool>): (n: nat)
    ensures n <= |flags|
  {
    if flags == [] then 0 else (if flags[0] then 1 else 0) + CountTrue(flags[1..])
  }

  /** The flag is set exactly from the first directly queued vehicle on. */
  lemma {:induction false} PropagationIsSuffix(direct: seq<bool>, carry: bool, i: nat)
    requires i < |direct|
    ensures PropagatedFlags(direct, carry)[i] <==> carry || i >= FirstTrue(direct)
  {
    if i > 0 {
      PropagationIsSuffix(direct[1..], direct[0] || carry, i - 1);
    }
  }

  /** Processing goes from index 0 (the rear) to the front, so once a vehicle
      is queued every vehicle after it in the sorted lane is too. */
  lemma QueuedSetIsSuffix(direct: seq<bool>, i: nat, j: nat)
    requires i <= j < |direct|
    requires PropagatedFlags(direct, false)[i]
    ensures PropagatedFlags(direct, false)[j]
  {
    PropagationIsSuffix(direct, false, i);
    PropagationIsSuffix(direct, false, j);
  }

  /** Counting the propagated flags gives the length of that suffix. */
  lemma {:induction false} PropagatedCount(direct: seq<bool>, carry: bool)
    ensures CountTrue(PropagatedFlags(direct, carry)) == if carry then |direct| else |direct| - FirstTrue(direct)
  {
    if direct != [] {
      var f := direct[0] || carry;
      PropagatedCount(direct[1..], f);
      assert PropagatedFlags(direct, carry)[1..] == PropagatedFlags(direct[1..], f);
    }
  }

  /** The number of queued vehicles of a lane: the suffix from the first one
      that is queued on its own account. */
  function LaneQueue(vs: seq<Vehicle>, lane: seq<nat>, s: Signals): (n: nat)
    requires forall i :: 0 <= i < |lane| ==> lane[i] < |vs|
    ensures n <= |lane|
    ensures n == 0 <==> forall i :: 0 <= i < |lane| ==> !DirectlyQueued(vs[lane[i]], s)
    ensures n == CountTrue(PropagatedFlags(DirectFlags(vs, lane, s), false))
  {
    PropagatedCount(DirectFlags(vs, lane, s), false);
    |lane| - FirstTrue(DirectFlags(vs, lane, s))
  }

  /** The lane with `shouldStopVehicle`'s latch applied to each of its vehicles. */
  function LatchLane(vs: seq<Vehicle>, lane: seq<nat>, s: Signals): (ws: seq<Vehicle>)
    ensures |ws| == |vs|
    ensures forall k :: 0 <= k < |vs| && k !in lane ==> ws[k] == vs[k]
    ensures forall k :: 0 <= k < |vs| ==>
              ws[k].position == vs[k].position && ws[k].stoppedTime == vs[k].stoppedTime
    ensures forall k :: 0 <= k < |vs| && vs[k].passedStopLine ==> ws[k].passedStopLine
  {
    seq(|vs|, k requires 0 <= k < |vs| => if k in lane then ShouldStopVehicle(vs[k], s).vehicle else vs[k])
  }

  /** `processLane`: counts the lane's queued vehicles with the running
      `frontIsStopped` flag; the stop-line rule it consults may latch them. */
  method ProcessLane(vs: seq<Vehicle>, lane: seq<nat>, s: Signals) returns (count: nat, ws: seq<Vehicle>)
    requires ValidLane(lane, |vs|)
    ensures count == LaneQueue(vs, lane, s)
    ensures ws == LatchLane(vs, lane, s)
  {
    ghost var first := FirstTrue(DirectFlags(vs, lane, s));
    count := 0;
    ws := vs;
    var frontIsStopped := false;
    var i := 0;
    while i < |lane|
      invariant 0 <= i <= |lane| && |ws| == |vs|
      invariant frontIsStopped <==> i > first
      invariant count == if i > first then i - first else 0
      invariant forall k :: 0 <= k < |vs| ==>
                  ws[k] == if k in lane[..i] then ShouldStopVehicle(vs[k], s).vehicle else vs[k]
    {
      assert lane[..i + 1] == lane[..i] + [lane[i]];
      assert lane[i] !in lane[..i];
      var v := ws[lane[i]];
      var r := ShouldStopVehicle(v, s);
      ws := ws[lane[i] := r.vehicle];
      if r.stop || IsVehicleQueuedBySpeed(v) || frontIsStopped {
        count := count + 1;
        frontIsStopped := true;
      } else {
        frontIsStopped := false;
      }
      i := i + 1;
    }
    assert lane[..|lane|] == lane;
  }

  /** A lane's count reads only that lane's vehicles. */
  lemma LaneQueueLocal(vs: seq<Vehicle>, ws: seq<Vehicle>, lane: seq<nat>, s: Signals)
    requires |ws| == |vs| && ValidLane(lane, |vs|)
    requires forall k :: k in lane ==> ws[k] == vs[k]
    ensures LaneQueue(ws, lane, s) == LaneQueue(vs, lane, s)
  {
    assert DirectFlags(ws, lane, s) == DirectFlags(vs, lane, s);
  }

  /** Every vehicle with the stop-line latch applied. */
  function LatchAll(vs: seq<Vehicle>, s: Signals): (ws: seq<Vehicle>)
    ensures |ws| == |vs|
    ensures NoGreen(s) ==> ws == vs
  {
    seq(|vs|, k requires 0 <= k < |vs| => ShouldStopVehicle(vs[k], s).vehicle)
  }

  /** The four lane passes of `measureQueues` together latch every vehicle
      exactly once, because every vehicle is in exactly one lane. */
  lemma LatchLanesCompose(vs: seq<Vehicle>, s: Signals)
    ensures var w1 := LatchLane(vs, LaneOrder(vs, TopToBottom), s);
            var w2 := LatchLane(w1, LaneOrder(vs, BottomToTop), s);
            var w3 := LatchLane(w2, LaneOrder(vs, LeftToRight), s);
            LatchLane(w3, LaneOrder(vs, RightToLeft), s) == LatchAll(vs, s)
  {
    LaneOrderMembers(vs, TopToBottom);
    LaneOrderMembers(vs, BottomToTop);
    LaneOrderMembers(vs, LeftToRight);
    LaneOrderMembers(vs, RightToLeft);
  }

  /** The queues `measureQueues` computes: the north-south count from the two
      vertical lanes and the east-west count from the two horizontal ones. */
  function MeasuredQueues(vs: seq<Vehicle>, s: Signals): (q: (nat, nat))
  {
    (LaneQueue(vs, LaneOrder(vs, TopToBottom), s) + LaneQueue(vs, LaneOrder(vs, BottomToTop), s),
     LaneQueue(vs, LaneOrder(vs, LeftToRight), s) + LaneQueue(vs, LaneOrder(vs, RightToLeft), s))
  }

  /** Each axis counts at most the vehicles heading along it, so together
      the queues never exceed the number of vehicles. */
  lemma MeasuredQueuesBounded(vs: seq<Vehicle>, s: Signals)
    ensures MeasuredQueues(vs, s).0 <= |IndicesWith(vs, TopToBottom)| + |IndicesWith(vs, BottomToTop)|
    ensures MeasuredQueues(vs, s).1 <= |IndicesWith(vs, LeftToRight)| + |IndicesWith(vs, RightToLeft)|
    ensures MeasuredQueues(vs, s).0 + MeasuredQueues(vs, s).1 <= |vs|
  {
    LanesCoverAll(vs);
    LaneOrderMembers(vs, TopToBottom);
    LaneOrderMembers(vs, BottomToTop);
    LaneOrderMembers(vs, LeftToRight);
    LaneOrderMembers(vs, RightToLeft);
  }

  /** Latching one lane leaves the count of a disjoint lane unchanged. */
  lemma LatchKeepsOtherCount(vs: seq<Vehicle>, latched: seq<nat>, other: seq<nat>, s: Signals)
    requires ValidLane(latched, |vs|) && ValidLane(other, |vs|)
    requires forall k :: k in other ==> k !in latched
    ensures LaneQueue(LatchLane(vs, latched, s), other, s) == LaneQueue(vs, other, s)
  {
    LaneQueueLocal(vs, LatchLane(vs, latched, s), other, s);
  }

  /** Latching one lane leaves the counts of the lanes after it unchanged. */
  lemma LaterCountsUnchanged(vs: seq<Vehicle>, s: Signals)
    ensures var w1 := LatchLane(vs, LaneOrder(vs, TopToBottom), s);
            var w2 := LatchLane(w1, LaneOrder(vs, BottomToTop), s);
            var w3 := LatchLane(w2, LaneOrder(vs, LeftToRight), s);
            && LaneQueue(w1, LaneOrder(vs, BottomToTop), s) == LaneQueue(vs, LaneOrder(vs, BottomToTop), s)
            && LaneQueue(w2, LaneOrder(vs, LeftToRight), s) == LaneQueue(vs, LaneOrder(vs, LeftToRight), s)
            && LaneQueue(w3, LaneOrder(vs, RightToLeft), s) == LaneQueue(vs, LaneOrder(vs, RightToLeft), s)
  {
    var top, bottom := LaneOrder(vs, TopToBottom), LaneOrder(vs, BottomToTop);
    var left, right := LaneOrder(vs, LeftToRight), LaneOrder(vs, RightToLeft);
    var w1 := LatchLane(vs, top, s);
    var w2 := LatchLane(w1, bottom, s);
    LanesDisjoint(vs, TopToBottom, BottomToTop);
    LanesDisjoint(vs, TopToBottom, LeftToRight);
    LanesDisjoint(vs, BottomToTop, LeftToRight);
    LanesDisjoint(vs, TopToBottom, RightToLeft);
    LanesDisjoint(vs, BottomToTop, RightToLeft);
    LanesDisjoint(vs, LeftToRight, RightToLeft);
    LatchKeepsOtherCount(vs, top, bottom, s);
    LatchKeepsOtherCount(vs, top, left, s);
    LatchKeepsOtherCount(w1, bottom, left, s);
    LatchKeepsOtherCount(vs, top, right, s);
    LatchKeepsOtherCount(w1, bottom, right, s);
    LatchKeepsOtherCount(w2, left, right, s);
  }

  /** The four passes of `measureQueues`, each on the collection the previous
      one left, add up to the measured queues and latch every vehicle. */
  lemma MeasurePassesCompose(vs: seq<Vehicle>, s: Signals, c1: nat, c2: nat, c3: nat, c4: nat,
                             w1: seq<Vehicle>, w2: seq<Vehicle>, w3: seq<Vehicle>, w4: seq<Vehicle>)
    requires w1 == LatchLane(vs, LaneOrder(vs, TopToBottom), s)
    requires w2 == LatchLane(w1, LaneOrder(vs, BottomToTop), s)
    requires w3 == LatchLane(w2, LaneOrder(vs, LeftToRight), s)
    requires w4 == LatchLane(w3, LaneOrder(vs, RightToLeft), s)
    requires c1 == LaneQueue(vs, LaneOrder(vs, TopToBottom), s)
    requires c2 == LaneQueue(w1, LaneOrder(vs, BottomToTop), s)
    requires c3 == LaneQueue(w2, LaneOrder(vs, LeftToRight), s)
    requires c4 == LaneQueue(w3, LaneOrder(vs, RightToLeft), s)
    ensures c1 + c2 == MeasuredQueues(vs, s).0 && c3 + c4 == MeasuredQueues(vs, s).1
    ensures w4 == LatchAll(vs, s)
  {
    LaterCountsUnchanged(vs, s);
    LatchLanesCompose(vs, s);
  }

  /** The split into four lanes and the four `std::sort` calls that both
      `measureQueues` and `update` open with. */
  method SortedLanes(vs: seq<Vehicle>) returns (top: seq<nat>, bottom: seq<nat>, left: seq<nat>, right: seq<nat>)
    ensures top == LaneOrder(vs, TopToBottom) && bottom == LaneOrder(vs, BottomToTop)
    ensures left == LaneOrder(vs, LeftToRight) && right == LaneOrder(vs, RightToLeft)
  {
    top, bottom, left, right := SplitByDirection(vs);
    top := SortLane(vs, top);
    bottom := SortLane(vs, bottom);
    left := SortLane(vs, left);
    right := SortLane(vs, right);
  }

  /** The body of `measureQueues` on the collection: split, sort, then the
      four lane passes, the vertical lanes counted north-south and the
      horizontal ones east-west. */
  method MeasureLanes(vs: seq<Vehicle>, s: Signals) returns (queueNS: nat, queueEW: nat, ws: seq<Vehicle>)
    ensures queueNS == MeasuredQueues(vs, s).0 && queueEW == MeasuredQueues(vs, s).1
    ensures ws == LatchAll(vs, s)
  {
    var top, bottom, left, right := SortedLanes(vs);
    var c1, c2, c3, c4;
    var w1, w2, w3, w4;
    c1, w1 := ProcessLane(vs, top, s);
    c2, w2 := ProcessLane(w1, bottom, s);
    c3, w3 := ProcessLane(w2, left, s);
    c4, w4 := ProcessLane(w3, right, s);
    MeasurePassesCompose(vs, s, c1, c2, c3, c4, w1, w2, w3, w4);
    queueNS, queueEW := c1 + c2, c3 + c4;
    ws := w4;
  }

  // ---------------------------------------------------------------------
  // Car-following

  /** `|front - current|` on the lane's axis. */
  function Gap(front: Vehicle, current: Vehicle, vertical: bool): (g: real)
    ensures g >= 0.0
  {
    var dist := if vertical then front.position.y - current.position.y
                else front.position.x - current.position.x;
    if dist < 0.0 then -dist else dist
  }

  /** `canMove` for `lane[i]`: not held at the line, and at least the minimum
      distance from the next vehicle of the sorted lane, if there is one. */
  predicate MayMove(vs: seq<Vehicle>, lane: seq<nat>, i: nat, s: Signals, vertical: bool)
    requires ValidLane(lane, |vs|) && i < |lane|
  {
    && !ShouldStopVehicle(vs[lane[i]], s).stop
    && (i + 1 < |lane| ==> Gap(vs[lane[i + 1]], vs[lane[i]], vertical) >= MinDistance)
  }

  /** What the pass makes of `lane[i]`, computed from the positions at the
      start of the pass: the latch, then a step only when it may move. */
  function LaneStep(vs: seq<Vehicle>, lane: seq<nat>, i: nat, s: Signals, dt: real, vertical: bool): Vehicle
    requires ValidLane(lane, |vs|) && i < |lane|
  {
    var latched := ShouldStopVehicle(vs[lane[i]], s).vehicle;
    if MayMove(vs, lane, i, s, vertical) then latched.Update(dt, VehicleSpeed) else latched
  }

  function MovedLane(vs: seq<Vehicle>, lane: seq<nat>, s: Signals, dt: real, vertical: bool): (ws: seq<Vehicle>)
    requires ValidLane(lane, |vs|)
    ensures |ws| == |vs|
    ensures forall k :: 0 <= k < |vs| && k !in lane ==> ws[k] == vs[k]
  {
    seq(|vs|, k requires 0 <= k < |vs| =>
      if k in lane then LaneStep(vs, lane, IndexOf(lane, k), s, dt, vertical) else vs[k])
  }

  lemma IndexOfDistinct(lane: seq<nat>, i: nat)
    requires Distinct(lane) && i < |lane|
    ensures IndexOf(lane, lane[i]) == i
  {
  }

  /** The collection with the first `n` vehicles of the lane replaced by
      their new values, `values[i]` being the new value of `lane[i]`. */
  function Overlay(vs: seq<Vehicle>, lane: seq<nat>, n: nat, values: seq<Vehicle>): (ws: seq<Vehicle>)
    requires ValidLane(lane, |vs|) && n <= |lane| == |values|
    ensures |ws| == |vs|
  {
    seq(|vs|, k requires 0 <= k < |vs| => if k in lane[..n] then values[IndexOf(lane, k)] else vs[k])
  }

  /** Vehicles not yet reached are as they were. */
  lemma OverlayUntouched(vs: seq<Vehicle>, lane: seq<nat>, n: nat, values: seq<Vehicle>, j: nat)
    requires ValidLane(lane, |vs|) && n <= j < |lane| == |values|
    ensures Overlay(vs, lane, n, values)[lane[j]] == vs[lane[j]]
  {
    assert lane[j] !in lane[..n];
  }

  /** Replacing one more vehicle writes its value and nothing else. */
  lemma OverlayStep(vs: seq<Vehicle>, lane: seq<nat>, i: nat, values: seq<Vehicle>)
    requires ValidLane(lane, |vs|) && i < |lane| == |values|
    ensures Overlay(vs, lane, i + 1, values) == Overlay(vs, lane, i, values)[lane[i] := values[i]]
  {
    assert lane[..i + 1] == lane[..i] + [lane[i]];
    IndexOfDistinct(lane, i);
  }

  /** The new value of every vehicle of the lane, by its place in the lane. */
  function LaneSteps(vs: seq<Vehicle>, lane: seq<nat>, s: Signals, dt: real, vertical: bool): (steps: seq<Vehicle>)
    requires ValidLane(lane, |vs|)
    ensures |steps| == |lane|
  {
    seq(|lane|, i requires 0 <= i < |lane| => LaneStep(vs, lane, i, s, dt, vertical))
  }

  /** Overlaying every step gives the moved lane. */
  lemma OverlayAll(vs: seq<Vehicle>, lane: seq<nat>, s: Signals, dt: real, vertical: bool)
    requires ValidLane(lane, |vs|)
    ensures Overlay(vs, lane, |lane|, LaneSteps(vs, lane, s, dt, vertical)) == MovedLane(vs, lane, s, dt, vertical)
  {
    assert lane[..|lane|] == lane;
  }

  /** The step of a vehicle only depends on it and on the vehicle ahead. */
  lemma LaneStepAt(vs: seq<Vehicle>, ws: seq<Vehicle>, lane: seq<nat>, i: nat, s: Signals, dt: real, vertical: bool)
    requires |ws| == |vs| && ValidLane(lane, |vs|) && i < |lane|
    requires ws[lane[i]] == vs[lane[i]]
    requires i + 1 < |lane| ==> ws[lane[i + 1]] == vs[lane[i + 1]]
    ensures LaneStep(ws, lane, i, s, dt, vertical) == LaneStep(vs, lane, i, s, dt, vertical)
  {
  }

  /** One turn of the loop of `updateGroup`: the stop rule (which may latch
      the vehicle), the distance to the vehicle ahead, then the step. */
  method StepInLane(ws: seq<Vehicle>, lane: seq<nat>, i: nat, s: Signals, dt: real, vertical: bool)
      returns (next: seq<Vehicle>)
    requires ValidLane(lane, |ws|) && i < |lane|
    ensures next == ws[lane[i] := LaneStep(ws, lane, i, s, dt, vertical)]
  {
    var current := ws[lane[i]];
    var r := ShouldStopVehicle(current, s);
    next := ws[lane[i] := r.vehicle];
    var canMove := true;
    if r.stop {
      canMove := false;
    }
    if i + 1 < |lane| {
      assert lane[i + 1] != lane[i];
      var front := next[lane[i + 1]];
      var dist := if vertical then front.position.y - next[lane[i]].position.y
                  else front.position.x - next[lane[i]].position.x;
      if dist < 0.0 {
        dist := -dist;
      }
      if dist < MinDistance {
        canMove := false;
      }
    }
    assert canMove == MayMove(ws, lane, i, s, vertical);
    if canMove {
      next := next[lane[i] := next[lane[i]].Update(dt, VehicleSpeed)];
    }
  }

  /** `updateGroup`: each vehicle of the sorted lane in turn, from the rear;
      the vehicle ahead has not moved yet when the gap to it is measured. */
  method MoveLane(vs: seq<Vehicle>, lane: seq<nat>, s: Signals, dt: real, vertical: bool) returns (ws: seq<Vehicle>)
    requires ValidLane(lane, |vs|)
    ensures ws == MovedLane(vs, lane, s, dt, vertical)
  {
    ghost var steps := LaneSteps(vs, lane, s, dt, vertical);
    ws := vs;
    var i := 0;
    assert ws == Overlay(vs, lane, 0, steps);
    while i < |lane|
      invariant 0 <= i <= |lane|
      invariant ws == Overlay(vs, lane, i, steps)
    {
      OverlayUntouched(vs, lane, i, steps, i);
      if i + 1 < |lane| {
        OverlayUntouched(vs, lane, i, steps, i + 1);
      }
      LaneStepAt(vs, ws, lane, i, s, dt, vertical);
      OverlayStep(vs, lane, i, steps);
      ws := StepInLane(ws, lane, i, s, dt, vertical);
      i := i + 1;
    }
    OverlayAll(vs, lane, s, dt, vertical);
  }

  /** A held vehicle keeps its position and its stall clock. */
  lemma HeldVehicleStaysPut(vs: seq<Vehicle>, lane: seq<nat>, i: nat, s: Signals, dt: real, vertical: bool)
    requires ValidLane(lane, |vs|) && i < |lane|
    requires !MayMove(vs, lane, i, s, vertical)
    ensures LaneStep(vs, lane, i, s, dt, vertical).position == vs[lane[i]].position
    ensures LaneStep(vs, lane, i, s, dt, vertical).stoppedTime == vs[lane[i]].stoppedTime
  {
  }

  /** Only vehicles allowed to move run their stall bookkeeping, and then a
      step of `speed * dt` counts as stalled only when it is shorter than the
      epsilon; a vehicle held at the line or behind a queue never accumulates
      stopped time. */
  lemma StallClockRunsOnlyWhileMoving(vs: seq<Vehicle>, lane: seq<nat>, i: nat, s: Signals, dt: real, vertical: bool)
    requires ValidLane(lane, |vs|) && i < |lane|
    requires InSync(vs[lane[i]]) && vs[lane[i]].stoppedTime >= 0.0
    ensures LaneStep(vs, lane, i, s, dt, vertical).stoppedTime > vs[lane[i]].stoppedTime ==>
              MayMove(vs, lane, i, s, vertical) && 0.0 < dt && VehicleSpeed * dt < StallEpsilon
  {
    var v := vs[lane[i]];
    var latched := ShouldStopVehicle(v, s).vehicle;
    if MayMove(vs, lane, i, s, vertical) {
      assert InSync(latched);
      StallMeansShortStep(latched, dt, VehicleSpeed);
    }
  }

  /** A lane pass reads and writes only its own lane. */
  lemma LaneStepLocal(vs: seq<Vehicle>, ws: seq<Vehicle>, lane: seq<nat>, i: nat, s: Signals, dt: real, vertical: bool)
    requires |ws| == |vs| && ValidLane(lane, |vs|) && i < |lane|
    requires forall k :: k in lane ==> ws[k] == vs[k]
    ensures LaneStep(ws, lane, i, s, dt, vertical) == LaneStep(vs, lane, i, s, dt, vertical)
  {
    assert ws[lane[i]] == vs[lane[i]];
    if i + 1 < |lane| {
      assert ws[lane[i + 1]] == vs[lane[i + 1]];
    }
  }

  /** The four lane passes of `update`, on lanes sorted before any vehicle
      moves. */
  function MoveAll(vs: seq<Vehicle>, s: Signals, dt: real): (ws: seq<Vehicle>)
    ensures |ws| == |vs|
  {
    var w1 := MovedLane(vs, LaneOrder(vs, TopToBottom), s, dt, true);
    var w2 := MovedLane(w1, LaneOrder(vs, BottomToTop), s, dt, true);
    var w3 := MovedLane(w2, LaneOrder(vs, LeftToRight), s, dt, false);
    MovedLane(w3, LaneOrder(vs, RightToLeft), s, dt, false)
  }

  /** The movement part of `update`: split, sort, then `updateGroup` on each
      lane in turn. */
  method MoveAllLanes(vs: seq<Vehicle>, s: Signals, dt: real) returns (ws: seq<Vehicle>)
    ensures ws == MoveAll(vs, s, dt)
  {
    var top, bottom, left, right := SortedLanes(vs);
    ws := MoveLane(vs, top, s, dt, true);
    ws := MoveLane(ws, bottom, s, dt, true);
    ws := MoveLane(ws, left, s, dt, false);
    ws := MoveLane(ws, right, s, dt, false);
  }

  predicate IsVertical(d: Direction)
  {
    d == TopToBottom || d == BottomToTop
  }

  /** A vehicle outside the lane is left as it was. */
  lemma MovedLaneAt(vs: seq<Vehicle>, lane: seq<nat>, s: Signals, dt: real, vertical: bool, k: nat)
    requires ValidLane(lane, |vs|) && k < |vs|
    ensures k !in lane ==> MovedLane(vs, lane, s, dt, vertical)[k] == vs[k]
    ensures k in lane ==>
              MovedLane(vs, lane, s, dt, vertical)[k] == LaneStep(vs, lane, IndexOf(lane, k), s, dt, vertical)
  {
  }

  /** Lanes of different headings share no vehicle. */
  lemma LanesDisjoint(vs: seq<Vehicle>, d: Direction, e: Direction)
    requires d != e
    ensures forall k :: k in LaneOrder(vs, e) ==> k !in LaneOrder(vs, d)
  {
    LaneOrderMembers(vs, d);
    LaneOrderMembers(vs, e);
  }

  /** A lane pass leaves every vehicle outside the lane as it was. */
  lemma MovedLaneLeavesOthers(vs: seq<Vehicle>, lane: seq<nat>, other: seq<nat>, s: Signals, dt: real, vertical: bool)
    requires ValidLane(lane, |vs|) && ValidLane(other, |vs|)
    requires forall k :: k in other ==> k !in lane
    ensures forall k :: k in other ==> MovedLane(vs, lane, s, dt, vertical)[k] == vs[k]
  {
  }

  /** A lane pass depends only on the lane's own vehicles. */
  lemma MovedLaneLocal(vs: seq<Vehicle>, ws: seq<Vehicle>, lane: seq<nat>, s: Signals, dt: real, vertical: bool, k: nat)
    requires |ws| == |vs| && ValidLane(lane, |vs|) && k in lane
    requires forall j :: j in lane ==> ws[j] == vs[j]
    ensures MovedLane(ws, lane, s, dt, vertical)[k] == MovedLane(vs, lane, s, dt, vertical)[k]
  {
    LaneStepLocal(vs, ws, lane, IndexOf(lane, k), s, dt, vertical);
  }

  // The four cases of `MoveAllByLane`, one per heading.

  lemma MoveAllTop(vs: seq<Vehicle>, s: Signals, dt: real, k: nat)
    requires k < |vs| && vs[k].direction == TopToBottom
    ensures MoveAll(vs, s, dt)[k] == MovedLane(vs, LaneOrder(vs, TopToBottom), s, dt, IsVertical(TopToBottom))[k]
  {
    var top, bottom := LaneOrder(vs, TopToBottom), LaneOrder(vs, BottomToTop);
    var left, right := LaneOrder(vs, LeftToRight), LaneOrder(vs, RightToLeft);
    var w1 := MovedLane(vs, top, s, dt, true);
    var w2 := MovedLane(w1, bottom, s, dt, true);
    var w3 := MovedLane(w2, left, s, dt, false);
    var w4 := MovedLane(w3, right, s, dt, false);
    assert w4 == MoveAll(vs, s, dt);
    LaneOrderMember(vs, BottomToTop, k);
    LaneOrderMember(vs, LeftToRight, k);
    LaneOrderMember(vs, RightToLeft, k);
    MovedLaneAt(w1, bottom, s, dt, true, k);
    MovedLaneAt(w2, left, s, dt, false, k);
    MovedLaneAt(w3, right, s, dt, false, k);
  }

  lemma MoveAllBottom(vs: seq<Vehicle>, s: Signals, dt: real, k: nat)
    requires k < |vs| && vs[k].direction == BottomToTop
    ensures MoveAll(vs, s, dt)[k] == MovedLane(vs, LaneOrder(vs, BottomToTop), s, dt, IsVertical(BottomToTop))[k]
  {
    var top, bottom := LaneOrder(vs, TopToBottom), LaneOrder(vs, BottomToTop);
    var left, right := LaneOrder(vs, LeftToRight), LaneOrder(vs, RightToLeft);
    var w1 := MovedLane(vs, top, s, dt, true);
    var w2 := MovedLane(w1, bottom, s, dt, true);
    var w3 := MovedLane(w2, left, s, dt, false);
    var w4 := MovedLane(w3, right, s, dt, false);
    assert w4 == MoveAll(vs, s, dt);
    LaneOrderMember(vs, BottomToTop, k);
    LaneOrderMember(vs, LeftToRight, k);
    LaneOrderMember(vs, RightToLeft, k);
    LanesDisjoint(vs, TopToBottom, BottomToTop);
    MovedLaneLeavesOthers(vs, top, bottom, s, dt, true);
    MovedLaneLocal(vs, w1, bottom, s, dt, true, k);
    MovedLaneAt(w2, left, s, dt, false, k);
    MovedLaneAt(w3, right, s, dt, false, k);
  }

  lemma MoveAllLeft(vs: seq<Vehicle>, s: Signals, dt: real, k: nat)
    requires k < |vs| && vs[k].direction == LeftToRight
    ensures MoveAll(vs, s, dt)[k] == MovedLane(vs, LaneOrder(vs, LeftToRight), s, dt, IsVertical(LeftToRight))[k]
  {
    var top, bottom := LaneOrder(vs, TopToBottom), LaneOrder(vs, BottomToTop);
    var left, right := LaneOrder(vs, LeftToRight), LaneOrder(vs, RightToLeft);
    var w1 := MovedLane(vs, top, s, dt, true);
    var w2 := MovedLane(w1, bottom, s, dt, true);
    var w3 := MovedLane(w2, left, s, dt, false);
    var w4 := MovedLane(w3, right, s, dt, false);
    assert w4 == MoveAll(vs, s, dt);
    LaneOrderMember(vs, LeftToRight, k);
    LaneOrderMember(vs, RightToLeft, k);
    LanesDisjoint(vs, TopToBottom, LeftToRight);
    LanesDisjoint(vs, BottomToTop, LeftToRight);
    MovedLaneLeavesOthers(vs, top, left, s, dt, true);
    MovedLaneLeavesOthers(w1, bottom, left, s, dt, true);
    MovedLaneLocal(vs, w2, left, s, dt, false, k);
    MovedLaneAt(w3, right, s, dt, false, k);
  }

  lemma MoveAllRight(vs: seq<Vehicle>, s: Signals, dt: real, k: nat)
    requires k < |vs| && vs[k].direction == RightToLeft
    ensures MoveAll(vs, s, dt)[k] == MovedLane(vs, LaneOrder(vs, RightToLeft), s, dt, IsVertical(RightToLeft))[k]
  {
    var top, bottom := LaneOrder(vs, TopToBottom), LaneOrder(vs, BottomToTop);
    var left, right := LaneOrder(vs, LeftToRight), LaneOrder(vs, RightToLeft);
    var w1 := MovedLane(vs, top, s, dt, true);
    var w2 := MovedLane(w1, bottom, s, dt, true);
    var w3 := MovedLane(w2, left, s, dt, false);
    var w4 := MovedLane(w3, right, s, dt, false);
    assert w4 == MoveAll(vs, s, dt);
    LaneOrderMember(vs, RightToLeft, k);
    LanesDisjoint(vs, TopToBottom, RightToLeft);
    LanesDisjoint(vs, BottomToTop, RightToLeft);
    LanesDisjoint(vs, LeftToRight, RightToLeft);
    MovedLaneLeavesOthers(vs, top, right, s, dt, true);
    MovedLaneLeavesOthers(w1, bottom, right, s, dt, true);
    MovedLaneLeavesOthers(w2, left, right, s, dt, false);
    MovedLaneLocal(vs, w3, right, s, dt, false, k);
  }

  /** Each vehicle's outcome depends only on its own lane at the start of the
      tick: the lanes do not interfere, and the whole tick does to a vehicle
      what its own lane's pass alone would. */
  lemma MoveAllByLane(vs: seq<Vehicle>, s: Signals, dt: real, k: nat)
    requires k < |vs|
    ensures MoveAll(vs, s, dt)[k]
            == MovedLane(vs, LaneOrder(vs, vs[k].direction), s, dt, IsVertical(vs[k].direction))[k]
  {
    match vs[k].direction {
      case TopToBottom => MoveAllTop(vs, s, dt, k);
      case BottomToTop => MoveAllBottom(vs, s, dt, k);
      case LeftToRight => MoveAllLeft(vs, s, dt, k);
      case RightToLeft => MoveAllRight(vs, s, dt, k);
    }
  }

  /** A lane pass never clears a stop-line latch, or turns a vehicle. */
  lemma MovedLaneKeepsLatches(vs: seq<Vehicle>, lane: seq<nat>, s: Signals, dt: real, vertical: bool, k: nat)
    requires ValidLane(lane, |vs|) && k < |vs|
    ensures MovedLane(vs, lane, s, dt, vertical)[k].direction == vs[k].direction
    ensures vs[k].passedStopLine ==> MovedLane(vs, lane, s, dt, vertical)[k].passedStopLine
  {
    MovedLaneAt(vs, lane, s, dt, vertical, k);
    if k in lane {
      IndexOfDistinct(lane, IndexOf(lane, k));
    }
  }

  /** No pass of `update` ever clears a stop-line latch, or turns a vehicle. */
  lemma MoveAllKeepsLatches(vs: seq<Vehicle>, s: Signals, dt: real, k: nat)
    requires k < |vs|
    ensures MoveAll(vs, s, dt)[k].direction == vs[k].direction
    ensures vs[k].passedStopLine ==> MoveAll(vs, s, dt)[k].passedStopLine
  {
    MoveAllByLane(vs, s, dt, k);
    MovedLaneKeepsLatches(vs, LaneOrder(vs, vs[k].direction), s, dt, IsVertical(vs[k].direction), k);
  }

  // ---------------------------------------------------------------------
  // Removal

  /** The erase-remove pass: the vehicles still inside the area, in order. */
  function KeepInBounds(vs: seq<Vehicle>): (kept: seq<Vehicle>)
    ensures forall v :: v in kept <==> v in vs && InBounds(v)
    ensures |kept| <= |vs|
  {
    if vs == [] then []
    else (if InBounds(vs[0]) then [vs[0]] else []) + KeepInBounds(vs[1..])
  }

  /** Removal works element by element and keeps the survivors' relative
      order: it distributes over concatenation. */
  lemma {:induction false} KeepInBoundsDistributes(a: seq<Vehicle>, b: seq<Vehicle>)
    ensures KeepInBounds(a + b) == KeepInBounds(a) + KeepInBounds(b)
  {
    if a != [] {
      assert (a + b)[0] == a[0];
      assert (a + b)[1..] == a[1..] + b;
      KeepInBoundsDistributes(a[1..], b);
      var head := if InBounds(a[0]) then [a[0]] else [];
      assert KeepInBounds(a + b) == head + KeepInBounds(a[1..] + b);
      assert KeepInBounds(a) == head + KeepInBounds(a[1..]);
    } else {
      assert a + b == b;
    }
  }

  /** On one vehicle: kept exactly when it is in bounds. */
  lemma KeepInBoundsOne(v: Vehicle)
    ensures KeepInBounds([v]) == if InBounds(v) then [v] else []
  {
    assert [v][1..] == [];
  }
}
