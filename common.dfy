/** Small shared vocabulary: an optional value, and the two searches over
    sequences that the simulator and the trainer both rely on. */
module Common {

  datatype Option<T> = None | Some(value: T)

  /** `k` is the first position of a maximal score: what both
      `std::max_element` and `numpy.argmax` return on a non-empty sequence. */
  ghost predicate IsFirstMax(s: seq<real>, k: nat)
  {
    && k < |s|
    && (forall j :: 0 <= j < |s| ==> s[j] <= s[k])
    && (forall j :: 0 <= j < k ==> s[j] < s[k])
  }

  function FirstArgMax(s: seq<real>): (k: nat)
    requires |s| > 0
    ensures IsFirstMax(s, k)
  {
    if |s| == 1 then 0
    else
      var m := FirstArgMax(s[1..]);
      if s[0] >= s[1 + m] then 0 else 1 + m
  }

  /** The largest score of a non-empty sequence (Python's `max`). */
  function MaxOf(s: seq<real>): (m: real)
    requires |s| > 0
    ensures m in s
    ensures forall j :: 0 <= j < |s| ==> s[j] <= m
  {
    s[FirstArgMax(s)]
  }

  /** At most one position can be the first maximum. */
  lemma FirstMaxUnique(s: seq<real>, j: nat, k: nat)
    requires IsFirstMax(s, j) && IsFirstMax(s, k)
    ensures j == k
  {
    assert s[k] <= s[j] && s[j] <= s[k];
  }

  /** The first position holding `x`, or `|s|` when there is none. */
  function IndexOf<T(==)>(s: seq<T>, x: T): (i: nat)
    ensures i <= |s|
    ensures i < |s| ==> s[i] == x
    ensures forall j :: 0 <= j < i ==> s[j] != x
    ensures x in s <==> i < |s|
  {
    if s == [] then 0
    else if s[0] == x then 0
    else 1 + IndexOf(s[1..], x)
  }

  /** A product of non-negative reals is non-negative. */
  lemma MulNonnegative(a: real, b: real)
    requires a >= 0.0 && b >= 0.0
    ensures a * b >= 0.0
  {
  }
}
