// Big-endian byte strings: the numbers they stand for and the order they sort in.
module Bytes {
  type Byte = b: int | 0 <= b < 256

  function Pow256(n: nat): (p: nat)
    ensures p > 0
  {
    if n == 0 then 1 else 256 * Pow256(n - 1)
  }

  // The low n bytes of v, most significant first.
  function BigEndian(v: nat, n: nat): (s: seq<Byte>)
    ensures |s| == n
  {
    if n == 0 then [] else BigEndian(v / 256, n - 1) + [v % 256]
  }

  function Value(s: seq<Byte>): nat {
    if s == [] then 0 else Value(s[..|s| - 1]) * 256 + s[|s| - 1]
  }

  lemma {:induction false} RoundTrip(v: nat, n: nat)
    requires v < Pow256(n)
    ensures Value(BigEndian(v, n)) == v
  {
    if n > 0 {
      RoundTrip(v / 256, n - 1);
      assert BigEndian(v, n)[..n - 1] == BigEndian(v / 256, n - 1);
    }
  }

  lemma {:induction false} ValueBounded(s: seq<Byte>)
    ensures Value(s) < Pow256(|s|)
  {
    if s != [] {
      ValueBounded(s[..|s| - 1]);
    }
  }

  lemma {:induction false} BytesRoundTrip(s: seq<Byte>)
    ensures BigEndian(Value(s), |s|) == s
  {
    if s != [] {
      BytesRoundTrip(s[..|s| - 1]);
    }
  }

  lemma {:induction false} ValueConcat(a: seq<Byte>, b: seq<Byte>)
    ensures Value(a + b) == Value(a) * Pow256(|b|) + Value(b)
  {
    if b == [] {
      assert a + b == a;
    } else {
      var n := |b| - 1;
      ValueConcat(a, b[..n]);
      assert (a + b)[..|a + b| - 1] == a + b[..n];
      ShiftDigit(Value(a), Pow256(n), Value(b[..n]), b[n]);
    }
  }

  lemma ShiftDigit(high: nat, p: nat, low: nat, digit: nat)
    ensures (high * p + low) * 256 + digit == high * (256 * p) + (low * 256 + digit)
  {
  }

  // Dictionary order, the order the database sorts binary strings of one length in.
  predicate Precedes(a: seq<Byte>, b: seq<Byte>) {
    a != [] && b != [] && (a[0] < b[0] || (a[0] == b[0] && Precedes(a[1..], b[1..])))
  }

  // Big-endian strings of one length sort exactly like the numbers they stand for.
  lemma {:induction false} PrecedesExactly(a: seq<Byte>, b: seq<Byte>)
    requires |a| == |b|
    ensures Precedes(a, b) <==> Value(a) < Value(b)
    ensures a == b <==> Value(a) == Value(b)
  {
    if a != [] {
      PrecedesExactly(a[1..], b[1..]);
      assert a == [a[0]] + a[1..] && b == [b[0]] + b[1..];
      ValueConcat([a[0]], a[1..]);
      ValueConcat([b[0]], b[1..]);
      ValueBounded(a[1..]);
      ValueBounded(b[1..]);
      LeadingDigit(a[0], Value(a[1..]), b[0], Value(b[1..]), Pow256(|a| - 1));
      assert Value([a[0]]) == a[0] && Value([b[0]]) == b[0];
    }
  }

  lemma LeadingDigit(a: nat, x: nat, b: nat, y: nat, p: nat)
    requires x < p && y < p
    ensures a * p + x < b * p + y <==> a < b || (a == b && x < y)
    ensures a * p + x == b * p + y <==> a == b && x == y
  {
    if a < b {
      assert (a + 1) * p <= b * p;
    } else if b < a {
      assert (b + 1) * p <= a * p;
    }
  }

  // Writes v into buf[from..from + n], most significant byte first.
  method PutBigEndian(buf: array<Byte>, from: nat, n: nat, v: nat)
    requires from + n <= buf.Length
    modifies buf
    ensures buf[..] == old(buf[..from]) + BigEndian(v, n) + old(buf[from + n..])
  {
    var rest, i := v, n;
    ghost var was := buf[..];
    while i > 0
      invariant 0 <= i <= n
      invariant forall k :: 0 <= k < buf.Length && !(from + i <= k < from + n) ==> buf[k] == was[k]
      invariant BigEndian(v, n) == BigEndian(rest, i) + buf[from + i..from + n]
    {
      i := i - 1;
      buf[from + i] := rest % 256;
      assert buf[from + i..from + n] == [rest % 256] + buf[from + i + 1..from + n];
      rest := rest / 256;
    }
    assert buf[..] == was[..from] + buf[from..from + n] + was[from + n..];
  }
}
