/** The training side (traffic_rl.py): the toy environment whose step is
    integer queue arithmetic with clamps, and the tabular Q-learning agent
    with its lazily created rows and greedy argmax. The random draws of
    `numpy.random.randint`, `random.random` and `random.randrange` are
    parameters, constrained to the ranges those calls return. */
module TrafficRl {
  import opened Common
  import opened Keys
  import opened Decision

  /** A state of the environment: the two queue lengths. */
  type State = (int, int)

  const BaseGreen: int := 5
  const ShortestGreen: int := 3
  const LongestGreen: int := 10
  const QueueCap: int := 20

  // ---------------------------------------------------------------------
  // The environment step as arithmetic
  // ---------------------------------------------------------------------

  /** The green time an action asks for: the base moved by `action - 1`
      (0 shortens, 1 keeps, 2 lengthens) and clamped into `[3, 10]`. */
  function StepGreenTime(base: int, action: int): (g: int)
    ensures ShortestGreen <= g <= LongestGreen
    ensures ShortestGreen <= base + action - 1 <= LongestGreen ==> g == base + action - 1
    ensures base + action - 1 < ShortestGreen ==> g == ShortestGreen
    ensures base + action - 1 > LongestGreen ==> g == LongestGreen
  {
    var adjustment := action - 1;
    if base + adjustment > LongestGreen then LongestGreen
    else if base + adjustment < ShortestGreen then ShortestGreen
    else base + adjustment
  }

  /** With the base of 5 the three actions give 4, 5 and 6 seconds. */
  lemma GreenTimeChoices(action: int)
    requires 0 <= action <= 2
    ensures StepGreenTime(BaseGreen, action) == 4 + action
    ensures StepGreenTime(BaseGreen, action) in {4, 5, 6}
  {
  }

  /** The north-south queue after a green of `greenTime`: never negative,
      never longer than before, empty exactly when the green outlasts it. */
  function DrainedQueue(queue: int, greenTime: int): (q: int)
    ensures q >= 0
    ensures queue >= 0 && greenTime >= 0 ==> q <= queue
    ensures q == 0 <==> queue <= greenTime
    ensures queue > greenTime ==> q == queue - greenTime
  {
    if queue - greenTime < 0 then 0 else queue - greenTime
  }

  /** The east-west queue after `arrival` new vehicles, capped at 20: never
      above the cap, and never shorter than before while within it. */
  function ArrivedQueue(queue: int, arrival: int): (q: int)
    ensures q <= QueueCap
    ensures arrival >= 0 && queue <= QueueCap ==> queue <= q
    ensures q == QueueCap <==> queue + arrival >= QueueCap
    ensures queue + arrival < QueueCap ==> q == queue + arrival
  {
    if queue + arrival > QueueCap then QueueCap else queue + arrival
  }

  /** The queue ranges every reachable state lies in: a reset draws both
      from `[0, 19]`, the north-south queue only drains and the east-west
      one is capped at 20. */
  predicate QueuesInRange(queueNS: int, queueEW: int)
  {
    0 <= queueNS <= QueueCap - 1 && 0 <= queueEW <= QueueCap
  }

  /** A step keeps the queues in range, drains the north-south queue and
      returns a reward that is never positive. */
  lemma StepKeepsQueuesInRange(queueNS: int, queueEW: int, action: int, arrival: int)
    requires QueuesInRange(queueNS, queueEW)
    requires 0 <= arrival < 4
    ensures var g := StepGreenTime(BaseGreen, action);
            var ns := DrainedQueue(queueNS, g);
            var ew := ArrivedQueue(queueEW, arrival);
            QueuesInRange(ns, ew) && ns <= queueNS && queueEW <= ew && -(ns + ew) <= 0
  {
  }

  /** The two programs give the action indices different meanings: in
      training 2 lengthens the green and 0 shortens it, while the simulator's
      decision shortens it for 2 and never shortens it for 0. */
  lemma ActionMeaningsDisagree(queueNS: int, queueEW: int)
    ensures StepGreenTime(BaseGreen, 2) > StepGreenTime(BaseGreen, 1) > StepGreenTime(BaseGreen, 0)
    ensures SettledGreenTime(queueNS, queueEW, 2) < SettledGreenTime(queueNS, queueEW, 1)
    ensures SettledGreenTime(queueNS, queueEW, 0) <= SettledGreenTime(queueNS, queueEW, 1)
    ensures SettledGreenTime(queueNS, queueEW, 2) < SettledGreenTime(queueNS, queueEW, 0)
  {
    ActionEffects(queueNS, queueEW, 0);
  }

  /** `TrafficEnv`. */
  class TrafficEnv {
    const baseGreen: int := BaseGreen
    var queueNS: int
    var queueEW: int
    var greenTime: int

    ghost predicate Valid()
      reads this
    {
      QueuesInRange(queueNS, queueEW) && ShortestGreen <= greenTime <= LongestGreen
    }

    /** `__init__` sets the base and resets. */
    constructor(drawNS: int, drawEW: int)
      requires 0 <= drawNS < QueueCap && 0 <= drawEW < QueueCap
      ensures Valid()
      ensures queueNS == drawNS && queueEW == drawEW && greenTime == baseGreen
    {
      new;
      var _ := Reset(drawNS, drawEW);
    }

    /** `reset`: both queues from `randint(0, 20)`, the green back to the
        base. */
    method Reset(drawNS: int, drawEW: int) returns (state: State)
      requires 0 <= drawNS < QueueCap && 0 <= drawEW < QueueCap
      modifies this`queueNS, this`queueEW, this`greenTime
      ensures Valid()
      ensures queueNS == drawNS && queueEW == drawEW && greenTime == baseGreen
      ensures state == (queueNS, queueEW)
    {
      queueNS := drawNS;
      queueEW := drawEW;
      greenTime := baseGreen;
      state := (queueNS, queueEW);
    }

    /** `step`: sets the green time, drains the north-south queue by it, adds
        `arrival` (from `randint(0, 4)`) to the east-west queue, and returns
        the new state with the negated total as reward. The episode never
        ends; the empty info dictionary is not modelled. */
    method Step(action: int, arrival: int) returns (nextState: State, reward: int, done: bool)
      requires Valid()
      requires 0 <= arrival < 4
      modifies this`queueNS, this`queueEW, this`greenTime
      ensures Valid()
      ensures greenTime == StepGreenTime(baseGreen, action)
      ensures queueNS == DrainedQueue(old(queueNS), greenTime) && queueNS <= old(queueNS)
      ensures queueEW == ArrivedQueue(old(queueEW), arrival)
      ensures reward == -(queueNS + queueEW) && reward <= 0
      ensures nextState == (queueNS, queueEW) && !done
    {
      greenTime := StepGreenTime(baseGreen, action);
      var newQueueNS := DrainedQueue(queueNS, greenTime);
      var newQueueEW := ArrivedQueue(queueEW, arrival);
      reward := -(newQueueNS + newQueueEW);
      queueNS, queueEW := newQueueNS, newQueueEW;
      nextState := (queueNS, queueEW);
      done := false;
    }
  }

  // ---------------------------------------------------------------------
  // The Q-table
  // ---------------------------------------------------------------------

  /** `[0.0 for _ in range(n)]`: a negative size gives the empty list. */
  function ZeroRow(n: int): (row: seq<real>)
    ensures |row| == if n < 0 then 0 else n
    ensures forall j :: 0 <= j < |row| ==> row[j] == 0.0
    decreases if n < 0 then 0 else n
  {
    if n <= 0 then [] else ZeroRow(n - 1) + [0.0]
  }

  /** The table after `get_q_values(state)`: the row for `state` exists, is
      the old one if there was one and a zero row otherwise, and every other
      row is untouched. */
  function WithRow(table: map<State, seq<real>>, state: State, size: int): (t: map<State, seq<real>>)
    ensures state in t
    ensures state in table ==> t[state] == table[state]
    ensures state !in table ==> t[state] == ZeroRow(size)
    ensures forall k :: k in table ==> k in t && t[k] == table[k]
    ensures forall k :: k in t ==> k in table || k == state
  {
    if state in table then table else table[state := ZeroRow(size)]
  }

  /** Python's `row[i]`: a negative index counts from the end, anything out
      of range raises `IndexError` (here `None`). */
  function PyIndex(length: nat, i: int): (r: Option<nat>)
    ensures r.Some? <==> 0 <= length + i && i < length
    ensures r.Some? ==> r.value < length
    ensures r.Some? && i >= 0 ==> r.value == i
    ensures r.Some? && i < 0 ==> r.value + (-i) == length
  {
    if 0 <= i < length then Some(i)
    else if 0 <= length + i && i < 0 then Some(length + i)
    else None
  }

  /** `np.argmax(row)`: the first index of the largest value; an empty row
      raises `ValueError` (here `None`). */
  function GreedyAction(row: seq<real>): (a: Option<nat>)
    ensures a.None? <==> |row| == 0
    ensures a.Some? ==> IsFirstMax(row, a.value)
  {
    if |row| == 0 then None else Some(FirstArgMax(row))
  }

  /** The temporal-difference step: the old value moved by the fraction
      `alpha` of the way toward the target. */
  function Blend(current: real, alpha: real, target: real): real
  {
    current + alpha * (target - current)
  }

  /** A learning rate of 0 keeps the old value, 1 takes the target, and any
      rate in between lands between the two. */
  lemma BlendBetween(current: real, alpha: real, target: real)
    ensures alpha == 0.0 ==> Blend(current, alpha, target) == current
    ensures alpha == 1.0 ==> Blend(current, alpha, target) == target
    ensures 0.0 <= alpha <= 1.0 && current <= target ==>
              current <= Blend(current, alpha, target) <= target
    ensures 0.0 <= alpha <= 1.0 && target <= current ==>
              target <= Blend(current, alpha, target) <= current
  {
    var d := target - current;
    assert Blend(current, alpha, target) == current + alpha * d;
    if 0.0 <= alpha <= 1.0 {
      if d >= 0.0 {
        MulBetween(alpha, d);
      } else {
        MulBetween(alpha, -d);
      }
    }
  }

  lemma MulBetween(a: real, b: real)
    requires 0.0 <= a <= 1.0 && b >= 0.0
    ensures 0.0 <= a * b <= b
    ensures a * (-b) == -(a * b)
  {
    MulNonnegative(a, b);
    MulNonnegative(1.0 - a, b);
    assert b - a * b == (1.0 - a) * b;
  }

  /** What `update` leaves behind: the table and whether it returned
      normally. */
  datatype UpdateOutcome = UpdateOutcome(table: map<State, seq<real>>, ok: bool)

  /** `update(state, action, reward, next_state)` on a table. The row for
      `state` is created if missing and indexed by `action`; an index out of
      range raises, leaving only that row created. Otherwise the row for
      `next_state` is created if missing; an empty one raises in `max`.
      Otherwise exactly one entry changes: position `action` of the row for
      `state`, which moves toward `reward + gamma * max(next row)`. */
  function QUpdate(table: map<State, seq<real>>, size: int, alpha: real, gamma: real,
                   state: State, action: int, reward: real, nextState: State): (r: UpdateOutcome)
  {
    var t1 := WithRow(table, state, size);
    var row := t1[state];
    var idx := PyIndex(|row|, action);
    if idx.None? then UpdateOutcome(t1, false)
    else
      var currentQ := row[idx.value];
      var t2 := WithRow(t1, nextState, size);
      var nextRow := t2[nextState];
      if |nextRow| == 0 then UpdateOutcome(t2, false)
      else
        var newQ := Blend(currentQ, alpha, reward + gamma * MaxOf(nextRow));
        UpdateOutcome(t2[state := t2[state][idx.value := newQ]], true)
  }

  /** `update` changes only `q_table[state][action]`, apart from the zero
      rows it creates for `state` and `next_state`: every other row keeps its
      value, and so does every other entry of the row for `state`. */
  lemma QUpdateFrame(table: map<State, seq<real>>, size: int, alpha: real, gamma: real,
                     state: State, action: int, reward: real, nextState: State)
    ensures var r := QUpdate(table, size, alpha, gamma, state, action, reward, nextState);
            && state in r.table
            && (forall k :: k in table ==> k in r.table)
            && (forall k :: k in r.table ==> k in table || k == state || k == nextState)
            && (forall k :: k in r.table && k != state ==>
                  r.table[k] == (if k in table then table[k] else ZeroRow(size)))
    ensures var r := QUpdate(table, size, alpha, gamma, state, action, reward, nextState);
            var before := if state in table then table[state] else ZeroRow(size);
            var idx := PyIndex(|before|, action);
            && (r.ok ==> idx.Some? && |r.table[state]| == |before|
                         && (forall j :: 0 <= j < |before| && j != idx.value ==> r.table[state][j] == before[j]))
            && (!r.ok ==> r.table[state] == before)
            && (idx.None? ==> !r.ok && r.table.Keys == table.Keys + {state})
    ensures QUpdate(table, size, alpha, gamma, state, action, reward, nextState).ok <==>
              var t1 := WithRow(table, state, size);
              var t2 := WithRow(t1, nextState, size);
              PyIndex(|t1[state]|, action).Some? && |t2[nextState]| > 0
  {
  }

  /** The value `update` writes, when it returns normally: the old entry moved
      by `alpha` toward the reward plus the discounted best next value, so for
      a learning rate in `[0, 1]` it lies between the two. */
  lemma QUpdateWritesBlend(table: map<State, seq<real>>, size: int, alpha: real, gamma: real,
                           state: State, action: int, reward: real, nextState: State)
    requires QUpdate(table, size, alpha, gamma, state, action, reward, nextState).ok
    ensures var r := QUpdate(table, size, alpha, gamma, state, action, reward, nextState);
            var t2 := WithRow(WithRow(table, state, size), nextState, size);
            var before := WithRow(table, state, size)[state];
            var idx := PyIndex(|before|, action).value;
            var target := reward + gamma * MaxOf(t2[nextState]);
            && r.table[state][idx] == Blend(before[idx], alpha, target)
            && (alpha == 0.0 ==> r.table[state][idx] == before[idx])
            && (0.0 <= alpha <= 1.0 ==>
                  (before[idx] <= target ==> before[idx] <= r.table[state][idx] <= target) &&
                  (target <= before[idx] ==> target <= r.table[state][idx] <= before[idx]))
  {
    var t2 := WithRow(WithRow(table, state, size), nextState, size);
    var before := WithRow(table, state, size)[state];
    var idx := PyIndex(|before|, action).value;
    var target := reward + gamma * MaxOf(t2[nextState]);
    var value := Blend(before[idx], alpha, target);
    QUpdateSucceeds(table, size, alpha, gamma, state, action, reward, nextState,
                    before, idx, t2[nextState], value, t2[state := before[idx := value]]);
    BlendBetween(before[idx], alpha, target);
  }

  /** The outcome of an `update` that gets past both lookups: `row` is the
      row for `state`, `i` the position `action` names in it and `nextRow`
      the row for `next_state`; `written` is the table with the new value. */
  lemma QUpdateSucceeds(table: map<State, seq<real>>, size: int, alpha: real, gamma: real,
                        state: State, action: int, reward: real, nextState: State,
                        row: seq<real>, i: nat, nextRow: seq<real>, value: real,
                        written: map<State, seq<real>>)
    requires row == WithRow(table, state, size)[state]
    requires PyIndex(|row|, action) == Some(i)
    requires nextRow == WithRow(WithRow(table, state, size), nextState, size)[nextState]
    requires |nextRow| > 0
    requires value == Blend(row[i], alpha, reward + gamma * MaxOf(nextRow))
    requires written == WithRow(WithRow(table, state, size), nextState, size)[state := row[i := value]]
    ensures QUpdate(table, size, alpha, gamma, state, action, reward, nextState) == UpdateOutcome(written, true)
  {
  }

  /** A table row exported under the state's printed key makes the
      simulator pick the same action as the trainer's greedy choice. */
  lemma ExportedPolicyAgrees(row: seq<real>, state: State, exploreDraw: nat)
    requires |row| > 0
    ensures var table := map[StateToString(state.0, state.1) := row];
            GreedyAction(row) == Some(TableAction(table, StateToString(state.0, state.1), exploreDraw))
  {
    var table := map[StateToString(state.0, state.1) := row];
    FirstMaxUnique(row, GreedyAction(row).value, TableAction(table, StateToString(state.0, state.1), exploreDraw));
  }

  /** `QLearningAgent`: the hyper-parameters and the table from states to
      rows of Q-values. */
  class QLearningAgent {
    const actionSpaceSize: int
    const alpha: real
    const gamma: real
    var epsilon: real
    var qTable: map<State, seq<real>>

    constructor(actionSpaceSize: int, alpha: real := 0.015, gamma: real := 0.97, epsilon: real := 0.1)
      ensures this.actionSpaceSize == actionSpaceSize && this.alpha == alpha && this.gamma == gamma
      ensures this.epsilon == epsilon && qTable == map[]
    {
      this.alpha := alpha;
      this.gamma := gamma;
      this.epsilon := epsilon;
      this.actionSpaceSize := actionSpaceSize;
      qTable := map[];
    }

    /** `get_q_values`: the row for `state`, created as zeros if missing. */
    method GetQValues(state: State) returns (row: seq<real>)
      modifies this`qTable
      ensures qTable == WithRow(old(qTable), state, actionSpaceSize)
      ensures row == qTable[state]
    {
      if state !in qTable {
        qTable := qTable[state := ZeroRow(actionSpaceSize)];
      }
      row := qTable[state];
    }

    /** `choose_action`: `coin` is `random.random()` and `draw` is
        `random.randrange(action_space_size)`. Below epsilon it explores
        (`randrange` of an empty range raises); otherwise it returns the
        greedy action of the state's row, creating the row if needed. */
    method ChooseAction(state: State, coin: real, draw: nat) returns (a: Option<nat>)
      requires 0.0 <= coin < 1.0
      requires actionSpaceSize > 0 ==> draw < actionSpaceSize
      modifies this`qTable
      ensures coin < epsilon ==>
                qTable == old(qTable) && a == (if actionSpaceSize > 0 then Some(draw) else None)
      ensures !(coin < epsilon) ==>
                qTable == WithRow(old(qTable), state, actionSpaceSize) && a == GreedyAction(qTable[state])
    {
      if coin < epsilon {
        if actionSpaceSize <= 0 {
          return None;
        }
        return Some(draw);
      }
      var qValues := GetQValues(state);
      a := GreedyAction(qValues);
    }

    /** `update`: returns whether it completed; on `false` the table keeps
        the rows created before the exception. */
    method Update(state: State, action: int, reward: real, nextState: State) returns (ok: bool)
      modifies this`qTable
      ensures var r := QUpdate(old(qTable), actionSpaceSize, alpha, gamma, state, action, reward, nextState);
              qTable == r.table && ok == r.ok
    {
      var row := GetQValues(state);
      var idx := PyIndex(|row|, action);
      if idx.None? {
        return false;
      }
      var currentQ := row[idx.value];
      var nextRow := GetQValues(nextState);
      if |nextRow| == 0 {
        return false;
      }
      // Creating the next row leaves the row for `state` as it was.
      assert qTable[state] == row;
      var nextMax := MaxOf(nextRow);
      var newQ := Blend(currentQ, alpha, reward + gamma * nextMax);
      qTable := qTable[state := qTable[state][idx.value := newQ]];
      ok := true;
      QUpdateSucceeds(old(qTable), actionSpaceSize, alpha, gamma, state, action, reward, nextState,
                      row, idx.value, nextRow, newQ, qTable);
    }
  }
}
