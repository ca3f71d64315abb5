/** The policy-table key of a queue state, `stateToString` in
    TrafficManager.cpp: the pair is written as `(a, b)` with the integers in
    decimal, which is also how Python prints a tuple of two ints.

    The decoder below is not in the source; it is the partner that shows the
    rendering loses nothing, so two different queue states never share a key. */
module Keys {
  import opened Common

  predicate IsDigit(c: char)
  {
    '0' <= c <= '9'
  }

  predicate AllDigits(s: string)
  {
    forall i :: 0 <= i < |s| ==> IsDigit(s[i])
  }

  function DigitChar(d: nat): (c: char)
    requires d < 10
    ensures IsDigit(c)
  {
    ('0' as int + d) as char
  }

  function DigitValue(c: char): nat
    requires IsDigit(c)
  {
    c as int - '0' as int
  }

  /** Decimal digits of `n`, most significant first, without leading zeros. */
  function NatToString(n: nat): (s: string)
    ensures |s| > 0 && AllDigits(s)
  {
    if n < 10 then [DigitChar(n)]
    else NatToString(n / 10) + [DigitChar(n % 10)]
  }

  /** What `operator<<` writes for an `int`. */
  function IntToString(i: int): (s: string)
    ensures |s| > 0
    ensures s[0] == '-' <==> i < 0
    ensures forall j :: 0 < j < |s| ==> IsDigit(s[j])
  {
    if i < 0 then "-" + NatToString(-i) else NatToString(i)
  }

  /** The key is bracketed and holds exactly one comma, right after the
      rendering of the first number. */
  function StateToString(a: int, b: int): (s: string)
    ensures |s| == |IntToString(a)| + |IntToString(b)| + 4
    ensures s[0] == '(' && s[|s| - 1] == ')'
    ensures forall j :: 0 <= j < |s| && s[j] == ',' ==> j == |IntToString(a)| + 1
  {
    "(" + IntToString(a) + ", " + IntToString(b) + ")"
  }

  function ParseDigits(s: string): nat
    requires AllDigits(s)
  {
    if s == [] then 0 else ParseDigits(s[..|s| - 1]) * 10 + DigitValue(s[|s| - 1])
  }

  function ParseInt(s: string): Option<int>
  {
    if |s| > 1 && s[0] == '-' && AllDigits(s[1..]) then Some(-(ParseDigits(s[1..]) as int))
    else if |s| > 0 && AllDigits(s) then Some(ParseDigits(s))
    else None
  }

  /** Reads back a key of the form `(a, b)`. */
  function ParseKey(s: string): Option<(int, int)>
  {
    if |s| < 2 || s[0] != '(' || s[|s| - 1] != ')' then None
    else
      var inner := s[1..|s| - 1];
      var c := IndexOf(inner, ',');
      if c + 1 >= |inner| || inner[c + 1] != ' ' then None
      else
        match (ParseInt(inner[..c]), ParseInt(inner[c + 2..]))
        case (Some(a), Some(b)) => Some((a, b))
        case _ => None
  }

  lemma {:induction false} NatRoundTrip(n: nat)
    ensures ParseDigits(NatToString(n)) == n
  {
    if n >= 10 {
      var s := NatToString(n);
      assert s[..|s| - 1] == NatToString(n / 10);
      NatRoundTrip(n / 10);
    }
  }

  lemma IntRoundTrip(i: int)
    ensures ParseInt(IntToString(i)) == Some(i)
  {
    if i < 0 {
      var s := IntToString(i);
      assert s[1..] == NatToString(-i);
      NatRoundTrip(-i);
    } else {
      NatRoundTrip(i);
    }
  }

  /** The first comma of `sa + ", " + sb` is the one after `sa` when `sa`
      holds none. */
  lemma SplitAtComma(sa: string, sb: string)
    requires forall j :: 0 <= j < |sa| ==> sa[j] != ','
    ensures var inner := sa + ", " + sb;
            && IndexOf(inner, ',') == |sa| && inner[|sa| + 1] == ' '
            && inner[..|sa|] == sa && inner[|sa| + 2..] == sb
  {
    var inner := sa + ", " + sb;
    assert inner[|sa|] == ',';
    assert forall j :: 0 <= j < |sa| ==> inner[j] == sa[j];
  }

  /** Decoding the key of a state gives that state back. */
  lemma KeyRoundTrip(a: int, b: int)
    ensures ParseKey(StateToString(a, b)) == Some((a, b))
  {
    var sa, sb := IntToString(a), IntToString(b);
    var s := StateToString(a, b);
    assert s[1..|s| - 1] == sa + ", " + sb;
    SplitAtComma(sa, sb);
    IntRoundTrip(a);
    IntRoundTrip(b);
  }

  /** Distinct queue states look up distinct table entries. */
  lemma StateToStringInjective(a: int, b: int, c: int, d: int)
    requires StateToString(a, b) == StateToString(c, d)
    ensures a == c && b == d
  {
    KeyRoundTrip(a, b);
    KeyRoundTrip(c, d);
  }

  /** The key of the queue state (6, 2). */
  lemma KeyExample()
    ensures StateToString(6, 2) == "(6, 2)"
  {
  }
}
