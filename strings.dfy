/** String helpers shared by the validator, the sanitizer and the prompt
    renderer: decimal rendering of indices and counts (Rust's `{}` on an
    unsigned integer), and the infix relation the prompt properties use. */
module Strings {

  /** The decimal digit for `d`. */
  function Digit(d: nat): (c: char)
    requires d < 10
    ensures '0' <= c <= '9' && (c as int) - ('0' as int) == d
  {
    "0123456789"[d]
  }

  predicate IsDigits(s: string) {
    forall k :: 0 <= k < |s| ==> '0' <= s[k] <= '9'
  }

  /** Decimal rendering of a natural number, as `format!("{}", n)` does:
      at least one digit, and no leading zero unless the number is 0. */
  function NatToString(n: nat): (s: string)
    ensures |s| >= 1 && IsDigits(s)
    ensures |s| > 1 ==> s[0] != '0'
    decreases n
  {
    if n < 10 then [Digit(n)] else NatToString(n / 10) + [Digit(n % 10)]
  }

  /** The value a string of decimal digits denotes. */
  function DecimalValue(s: string): nat
    requires IsDigits(s)
  {
    if s == [] then 0
    else DecimalValue(s[..|s| - 1]) * 10 + ((s[|s| - 1] as int) - ('0' as int))
  }

  /** Reading the rendering back gives the number: the rendering loses nothing. */
  lemma {:induction false} DecimalRoundTrip(n: nat)
    ensures DecimalValue(NatToString(n)) == n
    decreases n
  {
    var s := NatToString(n);
    if n >= 10 {
      DecimalRoundTrip(n / 10);
      assert s[..|s| - 1] == NatToString(n / 10);
    }
  }

  /** Distinct numbers render differently, so distinct list indices give
      distinct paths. */
  lemma NatToStringInjective(m: nat, n: nat)
    requires NatToString(m) == NatToString(n)
    ensures m == n
  {
    DecimalRoundTrip(m);
    DecimalRoundTrip(n);
  }

  /** `t` occurs in `s` starting at index `i`. */
  predicate OccursAt<T(==)>(t: seq<T>, s: seq<T>, i: int) {
    0 <= i <= |s| - |t| && s[i..i + |t|] == t
  }

  /** `t` occurs as a contiguous piece of `s`. */
  ghost predicate IsInfix<T>(t: seq<T>, s: seq<T>) {
    exists i :: OccursAt(t, s, i)
  }

  lemma InfixOfConcat<T>(a: seq<T>, t: seq<T>, b: seq<T>)
    ensures IsInfix(t, a + t + b)
  {
    var s := a + t + b;
    assert s[|a|..|a| + |t|] == t;
    assert OccursAt(t, s, |a|);
  }

  lemma InfixExtend<T>(t: seq<T>, s: seq<T>, a: seq<T>, b: seq<T>)
    requires IsInfix(t, s)
    ensures IsInfix(t, a + s + b)
  {
    var i :| OccursAt(t, s, i);
    var u := a + s + b;
    assert u[|a| + i..|a| + i + |t|] == s[i..i + |t|];
    assert OccursAt(t, u, |a| + i);
  }

  lemma InfixTransitive<T>(t: seq<T>, u: seq<T>, s: seq<T>)
    requires IsInfix(t, u) && IsInfix(u, s)
    ensures IsInfix(t, s)
  {
    var i :| OccursAt(t, u, i);
    var j :| OccursAt(u, s, j);
    forall k | 0 <= k < |t| ensures s[j + i + k] == t[k] {
      assert s[j + i + k] == u[i + k];
    }
    assert OccursAt(t, s, j + i);
  }

  lemma InfixSelf<T>(t: seq<T>)
    ensures IsInfix(t, t)
  {
    assert t[0..|t|] == t;
    assert OccursAt(t, t, 0);
  }

  lemma InfixInLeft<T>(t: seq<T>, a: seq<T>, b: seq<T>)
    requires IsInfix(t, a)
    ensures IsInfix(t, a + b)
  {
    var i :| OccursAt(t, a, i);
    assert (a + b)[i..i + |t|] == a[i..i + |t|];
    assert OccursAt(t, a + b, i);
  }

  lemma InfixInRight<T>(t: seq<T>, a: seq<T>, b: seq<T>)
    requires IsInfix(t, b)
    ensures IsInfix(t, a + b)
  {
    var i :| OccursAt(t, b, i);
    assert (a + b)[|a| + i..|a| + i + |t|] == b[i..i + |t|];
    assert OccursAt(t, a + b, |a| + i);
  }

  /** The last three pieces appended to a buffer occur in it together. */
  lemma InfixOfLastThree<T>(x: seq<T>, a: seq<T>, b: seq<T>, c: seq<T>)
    ensures IsInfix(a + b + c, x + a + b + c)
  {
    var s := x + a + b + c;
    assert s[|x|..|x| + |a + b + c|] == a + b + c;
    assert OccursAt(a + b + c, s, |x|);
  }

  /** What occurs in a prefix occurs in the whole. */
  lemma InfixOfPrefix<T>(t: seq<T>, s: seq<T>, u: seq<T>)
    requires IsInfix(t, s) && s <= u
    ensures IsInfix(t, u)
  {
    var i :| OccursAt(t, s, i);
    assert u[i..i + |t|] == s[i..i + |t|];
    assert OccursAt(t, u, i);
  }

  /** A buffer is a prefix of itself after up to four more appends. */
  lemma PrefixOfAppends<T>(y: seq<T>, a: seq<T>, b: seq<T>, c: seq<T>, d: seq<T>)
    ensures y <= y + a && y <= y + a + b && y <= y + a + b + c && y <= y + a + b + c + d
  {
    assert (y + a + b + c + d)[..|y|] == y;
    assert (y + a + b + c)[..|y|] == y;
    assert (y + a + b)[..|y|] == y;
  }
}
