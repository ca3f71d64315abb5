/** The adaptive green-time decision of `applyRLDecision` in
    TrafficManager.cpp: the policy lookup, the congestion cap and the
    adjustment chain, given in closed form. The class method that runs the
    chain step by step is in the manager module and is proved equal to the
    closed form given here. */
module Decision {
  import opened Common
  import opened Keys

  const MinGreen: real := 3.0

  /** `std::clamp(v, lo, hi)`. */
  function Clamp(v: real, lo: real, hi: real): (r: real)
    requires lo <= hi
    ensures lo <= r <= hi
    ensures lo <= v <= hi ==> r == v
    ensures v < lo ==> r == lo
    ensures hi < v ==> r == hi
  {
    if v < lo then lo else if hi < v then hi else v
  }

  function Min(a: real, b: real): (m: real)
    ensures m <= a && m <= b && (m == a || m == b)
  {
    if b < a then b else a
  }

  function Max(a: real, b: real): (m: real)
    ensures m >= a && m >= b && (m == a || m == b)
  {
    if a < b then b else a
  }

  /** `maxGreenTime` for the measured queues: 8 s under extreme congestion
      (a queue of 9 or more), 6 s under high congestion (6 or more), else 5 s. */
  function CongestionCap(queueNS: int, queueEW: int): (cap: real)
    ensures cap == 5.0 || cap == 6.0 || cap == 8.0
    ensures cap == 8.0 <==> queueNS >= 9 || queueEW >= 9
    ensures cap == 5.0 <==> queueNS < 6 && queueEW < 6
  {
    if queueNS >= 9 || queueEW >= 9 then 8.0
    else if queueNS >= 6 || queueEW >= 6 then 6.0
    else 5.0
  }

  /** Longer queues never lower the cap. */
  lemma CapMonotone(a: int, b: int, c: int, d: int)
    requires a <= c && b <= d
    ensures CongestionCap(a, b) <= CongestionCap(c, d)
  {
  }

  /** The action read from the policy table: the first index of the largest
      Q-value when the key is present (`std::max_element` on an empty row
      gives index 0), and a random choice between 1 and 2 when it is not. */
  function TableAction(table: map<string, seq<real>>, key: string, exploreDraw: nat): (a: nat)
    ensures key !in table ==> a == exploreDraw % 2 + 1
    ensures key in table && |table[key]| == 0 ==> a == 0
    ensures key in table && |table[key]| > 0 ==> IsFirstMax(table[key], a)
  {
    if key !in table then exploreDraw % 2 + 1
    else if |table[key]| == 0 then 0
    else FirstArgMax(table[key])
  }

  /** Under high congestion that is still growing, "no change" is replaced by
      a random non-zero action; nothing else is ever replaced. */
  function OverrideAction(action: nat, queueNS: int, queueEW: int, prevQueueNS: int, prevQueueEW: int, overrideDraw: nat): (a: nat)
    ensures a != action ==> action == 0 && (a == 1 || a == 2)
    ensures a != action <==>
              action == 0 && (queueNS >= 6 || queueEW >= 6) && (queueNS > prevQueueNS || queueEW > prevQueueEW)
  {
    if (queueNS >= 6 || queueEW >= 6) && action == 0 && (queueNS > prevQueueNS || queueEW > prevQueueEW) then
      overrideDraw % 2 + 1
    else action
  }

  /** The action the decision applies, for the looked-up state `key` and the
      measured queues. */
  function ChosenAction(table: map<string, seq<real>>, key: (int, int), queueNS: int, queueEW: int,
                        prevQueueNS: int, prevQueueEW: int, exploreDraw: nat, overrideDraw: nat): (a: nat)
    ensures StateToString(key.0, key.1) !in table ==> a == 1 || a == 2
    ensures a == 0 ==> StateToString(key.0, key.1) in table
  {
    OverrideAction(TableAction(table, StateToString(key.0, key.1), exploreDraw),
                   queueNS, queueEW, prevQueueNS, prevQueueEW, overrideDraw)
  }

  /** The green time the decision settles on, in closed form: the cap, one
      second less when both queues are short, moved by the action (1 adds a
      second, 2 removes one) and clamped back into `[MinGreen, cap]`. */
  function SettledGreenTime(queueNS: int, queueEW: int, action: nat): (g: real)
    ensures MinGreen <= g <= CongestionCap(queueNS, queueEW)
    ensures CongestionCap(queueNS, queueEW) - 2.0 <= g
  {
    var cap := CongestionCap(queueNS, queueEW);
    var base := if queueNS < 3 && queueEW < 3 then cap - 1.0 else cap;
    var step := if action == 1 then 1.0 else if action == 2 then -1.0 else 0.0;
    Clamp(base + step, MinGreen, cap)
  }

  /** What each action does to the settled green time: 2 always takes one
      second off "no change", while 1 adds a second only when both queues are
      short, because otherwise the result is already at the cap. Any other
      index acts as "no change". */
  lemma ActionEffects(queueNS: int, queueEW: int, action: nat)
    ensures SettledGreenTime(queueNS, queueEW, 2) == SettledGreenTime(queueNS, queueEW, 0) - 1.0
    ensures SettledGreenTime(queueNS, queueEW, 1)
            == SettledGreenTime(queueNS, queueEW, 0) + (if queueNS < 3 && queueEW < 3 then 1.0 else 0.0)
    ensures queueNS >= 3 || queueEW >= 3 ==> SettledGreenTime(queueNS, queueEW, 0) == CongestionCap(queueNS, queueEW)
    ensures action > 2 ==> SettledGreenTime(queueNS, queueEW, action) == SettledGreenTime(queueNS, queueEW, 0)
  {
  }

  /** A table row for the queue state (6, 2) whose largest Q-value is at
      index 1 selects action 1, which leaves the green time at the 6 s cap. */
  lemma PolicyExample(prevQueueNS: int, prevQueueEW: int, exploreDraw: nat, overrideDraw: nat)
    ensures var table := map["(6, 2)" := [0.1, 0.9, 0.05]];
            var a := ChosenAction(table, (6, 2), 6, 2, prevQueueNS, prevQueueEW, exploreDraw, overrideDraw);
            a == 1 && SettledGreenTime(6, 2, a) == 6.0
  {
    var table := map["(6, 2)" := [0.1, 0.9, 0.05]];
    KeyExample();
    var k := TableAction(table, "(6, 2)", exploreDraw);
    assert IsFirstMax([0.1, 0.9, 0.05], 1);
    FirstMaxUnique([0.1, 0.9, 0.05], k, 1);
  }
}
