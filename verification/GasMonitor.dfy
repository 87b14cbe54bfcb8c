// The gas price monitor: ticks collected in a fixed buffer and closed into periods
// (internal/svc/scan_gas.go).
module GasMonitor {
  import opened Common

  // Ten minutes of readings every two seconds, and one more.
  const EXPECTED_TICKS: nat := 301
  const GAS_CORRECTION: int := 10_000_000
  const MAX_INT64: int := 0x7fff_ffff_ffff_ffff

  datatype Period = Period(open: int, close: int, min: int, max: int, avg: int)

  // A suggested price in the stored unit.
  function Tick(price: int): int {
    ToInt64(price / GAS_CORRECTION)
  }

  // A stored unit is 10^7 WEI, rounded down; prices are far from where 64 bits would wrap.
  lemma TickRounds(price: int)
    requires IsInt64(price / 10_000_000)
    ensures Tick(price) * 10_000_000 <= price < (Tick(price) + 1) * 10_000_000
  {
  }

  function MinTick(ticks: seq<int>): int {
    if ticks == [] then MAX_INT64 else Min(MinTick(ticks[..|ticks| - 1]), ticks[|ticks| - 1])
  }

  // The maximum starts from zero.
  function MaxTick(ticks: seq<int>): int {
    if ticks == [] then 0 else -Min(-MaxTick(ticks[..|ticks| - 1]), -ticks[|ticks| - 1])
  }

  function SumTicks(ticks: seq<int>): int {
    if ticks == [] then 0 else SumTicks(ticks[..|ticks| - 1]) + ticks[|ticks| - 1]
  }

  // ---- The division in 64-bit floating point ----

  const TWO_53: int := 0x20_0000_0000_0000

  ghost predicate ExactAt(round: real -> real, n: int) {
    round(n as real) == n as real
  }

  ghost predicate CloseAt(round: real -> real, x: real) {
    (round(x) - x) * (TWO_53 as real) <= x
  }

  // What is used of rounding to double precision (IEEE 754): integers up to 2^53 are exact, rounding
  // is monotone, and it adds at most one part in 2^53 to a number that is not too small.
  ghost predicate RoundsToDouble(round: real -> real) {
    && (forall n: int :: 0 <= n <= TWO_53 ==> ExactAt(round, n))
    && (forall x: real, y: real :: x <= y ==> round(x) <= round(y))
    && (forall x: real :: 1.0 <= x * (TWO_53 as real) ==> CloseAt(round, x))
  }

  lemma PositiveStays(round: real -> real, n: int)
    requires RoundsToDouble(round) && 1 <= n
    ensures round(n as real) > 0.0
  {
    assert ExactAt(round, 1) && round(1 as real) <= round(n as real);
  }

  // Dropping the fraction of a floating point number.
  function Whole(x: real): int {
    if x < 0.0 then -((-x).Floor) else x.Floor
  }

  // The fraction is dropped towards zero on both sides.
  lemma WholeTruncates(x: real)
    ensures 0.0 <= x ==> Whole(x) as real <= x < (Whole(x) + 1) as real
    ensures Whole(-x) == -Whole(x)
  {
  }

  // The average as the code computes it: both operands, then the quotient are rounded, then the
  // fraction is dropped.
  function Mean(round: real -> real, sum: int, n: nat): int
    requires RoundsToDouble(round) && n > 0
  {
    PositiveStays(round, n);
    Whole(round(round(sum as real) / round(n as real)))
  }

  // For sums below 2^53 the rounding errors are too small to show: the result is the exact mean with
  // its fraction dropped.
  lemma MeanExactly(round: real -> real, sum: nat, n: nat)
    requires RoundsToDouble(round) && sum < TWO_53 && 0 < n < TWO_53
    ensures Mean(round, sum, n) == sum / n
  {
    hide Mean, Whole, RoundsToDouble;
    var q := (sum as real) / (n as real);
    QuotientBetween(round, sum, n, q);
    WholeIs(round(q), sum / n);
    RoundedOperands(round, sum, n);
  }

  lemma WholeIs(x: real, k: nat)
    requires k as real <= x < (k + 1) as real
    ensures Whole(x) == k
  {
  }

  lemma RoundedOperands(round: real -> real, sum: nat, n: nat)
    requires RoundsToDouble(round) && sum < TWO_53 && 0 < n < TWO_53
    ensures Mean(round, sum, n) == Whole(round((sum as real) / (n as real)))
  {
    assert ExactAt(round, sum) && ExactAt(round, n);
  }

  lemma QuotientBetween(round: real -> real, sum: nat, n: nat, q: real)
    requires RoundsToDouble(round) && sum < TWO_53 && 0 < n < TWO_53 && q == (sum as real) / (n as real)
    ensures (sum / n) as real <= round(q) < (sum / n + 1) as real
  {
    var k, s, d, p := sum / n, sum as real, n as real, TWO_53 as real;
    IntegerQuotient(sum, n);
    assert q * d == s;
    Cancel(k as real, q, d);
    assert ExactAt(round, k) && round(k as real) <= round(q);
    if sum == 0 {
      assert q == 0.0 && ExactAt(round, 0);
    } else {
      NotTooSmall(q, s, d, p);
      assert CloseAt(round, q);
      BelowTop(q, round(q), s, d, (k + 1) as real, p);
    }
  }

  lemma IntegerQuotient(sum: nat, n: nat)
    requires n > 0
    ensures var k := sum / n;
      && 0 <= k <= sum
      && (k as real) * (n as real) <= sum as real
      && sum as real + 1.0 <= ((k + 1) as real) * (n as real)
  {
    var k := sum / n;
    assert k * n <= sum && sum + 1 <= (k + 1) * n;
    assert (k * n) as real == (k as real) * (n as real);
    assert ((k + 1) * n) as real == ((k + 1) as real) * (n as real);
  }

  lemma Cancel(x: real, y: real, d: real)
    requires d > 0.0
    ensures x * d <= y * d ==> x <= y
    ensures x * d < y * d ==> x < y
  {
  }

  lemma Scale(x: real, y: real, d: real)
    requires d >= 0.0 && x <= y
    ensures x * d <= y * d
  {
  }

  lemma NotTooSmall(q: real, s: real, d: real, p: real)
    requires q * d == s && 1.0 <= s && 1.0 <= d < p
    ensures 1.0 <= q * p
  {
    Cancel(0.0, q, d);
    Scale(d, p, q);
  }

  lemma BelowTop(q: real, e: real, s: real, d: real, top: real, p: real)
    requires q * d == s && s + 1.0 <= top * d && 1.0 <= d && 0.0 < s < p
    requires (e - q) * p <= q
    ensures e < top
  {
    var t := (e - q) * d;
    Scale((e - q) * p, q, d);
    assert (e - q) * p * d == t * p;
    Cancel(t, 1.0, p);
    assert e * d == q * d + t;
    Cancel(e, top, d);
  }

  // ---- A period ----

  function Summary(round: real -> real, ticks: seq<int>): Period
    requires RoundsToDouble(round) && ticks != []
  {
    Period(ticks[0], ticks[|ticks| - 1], MinTick(ticks), MaxTick(ticks),
           Mean(round, ToInt64(SumTicks(ticks)), |ticks|))
  }

  lemma AppendTick(ticks: seq<int>, val: int)
    ensures MinTick(ticks + [val]) == Min(MinTick(ticks), val)
    ensures MaxTick(ticks + [val]) == if val > MaxTick(ticks) then val else MaxTick(ticks)
  {
    assert (ticks + [val])[..|ticks|] == ticks;
  }

  // Adding up with 64-bit wrap-around is wrapping the sum.
  lemma WrapAdd(a: int, b: int)
    ensures ToInt64(ToInt64(a) + b) == ToInt64(a + b)
  {
  }

  class GpsMonitor {
    const round: real -> real    // rounding to double precision
    const ticks: array<int>
    var count: nat
    var max: int
    var min: int
    var stored: seq<Period>

    ghost predicate Valid()
      reads this, ticks
    {
      && RoundsToDouble(round) && ticks.Length == EXPECTED_TICKS && count <= ticks.Length
      && min == MinTick(Ticks()) && max == MaxTick(Ticks())
    }

    // The readings of the open period.
    ghost function Ticks(): seq<int>
      reads this, ticks
    {
      if count <= ticks.Length then ticks[..count] else []
    }

    // The monitor once execute has flipped for the first time.
    constructor (round: real -> real)
      requires RoundsToDouble(round)
      ensures this.round == round && Valid() && fresh(ticks) && Ticks() == [] && stored == []
    {
      this.round := round;
      ticks := new int[EXPECTED_TICKS](_ => 0);
      count, max, min, stored := 0, 0, MAX_INT64, [];
    }

    // None stands for a failed price call; false for the panic of a full buffer.
    method Read(price: Option<int>) returns (ok: bool)
      requires Valid()
      modifies this, ticks
      ensures ok == (price.None? || old(count) < EXPECTED_TICKS)
      ensures ok ==> Valid()
      ensures ok ==> Ticks() == if price.None? then old(Ticks()) else old(Ticks()) + [Tick(price.value)]
      ensures stored == old(stored)
    {
      if price.None? {
        return true;
      }
      ok := Collect(Tick(price.value));
    }

    method Collect(val: int) returns (ok: bool)
      requires Valid()
      modifies this, ticks
      ensures ok == (old(count) < EXPECTED_TICKS)
      ensures ok ==> Valid() && Ticks() == old(Ticks()) + [val]
      ensures stored == old(stored)
    {
      hide MinTick, MaxTick;
      if count == ticks.Length {
        return false;
      }
      ghost var was := Ticks();
      AppendTick(was, val);
      ticks[count] := val;
      count := count + 1;
      assert ticks[..count] == was + [val];
      if val > max {
        max := val;
      }
      if val < min {
        min := val;
      }
      return true;
    }

    method Avg() returns (avg: int)
      requires Valid() && count > 0
      ensures avg == Summary(round, Ticks()).avg
    {
      var sum := 0;
      for i := 0 to count
        invariant sum == ToInt64(SumTicks(ticks[..i]))
      {
        assert ticks[..i + 1][..i] == ticks[..i];
        WrapAdd(SumTicks(ticks[..i]), ticks[i]);
        sum := ToInt64(sum + ticks[i]);
      }
      assert ticks[..count] == Ticks();
      avg := Mean(round, sum, count);
    }

    method Flip()
      requires Valid()
      modifies this`count, this`max, this`min, this`stored
      ensures Valid() && Ticks() == []
      ensures stored == if old(Ticks()) == [] then old(stored) else old(stored) + [Summary(round, old(Ticks()))]
    {
      if count > 0 {
        var avg := Avg();
        stored := stored + [Period(ticks[0], ticks[count - 1], min, max, avg)];
      }
      count, max, min := 0, 0, MAX_INT64;
    }
  }

  // ---- What a stored period says ----

  lemma {:induction false} MinTickExactly(ticks: seq<int>)
    requires forall i :: 0 <= i < |ticks| ==> IsInt64(ticks[i])
    ensures forall i :: 0 <= i < |ticks| ==> MinTick(ticks) <= ticks[i]
    ensures ticks != [] ==> MinTick(ticks) in ticks
  {
    if ticks != [] {
      var n := |ticks| - 1;
      MinTickExactly(ticks[..n]);
      assert forall x :: x in ticks[..n] ==> x in ticks;
      assert n == 0 ==> MinTick(ticks) == ticks[0];
    }
  }

  lemma {:induction false} MaxTickExactly(ticks: seq<int>)
    ensures forall i :: 0 <= i < |ticks| ==> ticks[i] <= MaxTick(ticks)
    ensures 0 <= MaxTick(ticks)
    ensures MaxTick(ticks) in ticks || (MaxTick(ticks) == 0 && forall i :: 0 <= i < |ticks| ==> ticks[i] < 0)
  {
    if ticks != [] {
      var n := |ticks| - 1;
      MaxTickExactly(ticks[..n]);
      assert forall x :: x in ticks[..n] ==> x in ticks;
    }
  }

  lemma {:induction false} SumBounds(ticks: seq<int>, low: int, high: int)
    requires forall i :: 0 <= i < |ticks| ==> low <= ticks[i] <= high
    ensures low * |ticks| <= SumTicks(ticks) <= high * |ticks|
  {
    if ticks != [] {
      SumBounds(ticks[..|ticks| - 1], low, high);
    }
  }

  // The maximum of a stored period is one of its readings exactly when not all were negative.
  lemma MaxIsReadingExactly(round: real -> real, ticks: seq<int>)
    requires RoundsToDouble(round) && ticks != []
    ensures Summary(round, ticks).max in ticks <==> exists i :: 0 <= i < |ticks| && ticks[i] >= 0
  {
    MaxTickExactly(ticks);
    if Summary(round, ticks).max in ticks {
      var i :| 0 <= i < |ticks| && ticks[i] == Summary(round, ticks).max;
    }
  }

  // A period of non-negative readings has the exact minimum and maximum; and when their sum is below
  // 2^53, its average is the exact mean with its fraction dropped and lies between them.
  lemma PeriodIsTruthful(round: real -> real, ticks: seq<int>)
    requires RoundsToDouble(round) && ticks != [] && |ticks| <= EXPECTED_TICKS
    requires forall i :: 0 <= i < |ticks| ==> 0 <= ticks[i] && IsInt64(ticks[i])
    ensures var p := Summary(round, ticks);
      && p.open == ticks[0] && p.close == ticks[|ticks| - 1]
      && p.min in ticks && p.max in ticks
      && (forall i :: 0 <= i < |ticks| ==> p.min <= ticks[i] <= p.max)
    ensures SumTicks(ticks) < TWO_53 ==>
      var p := Summary(round, ticks);
      p.min <= p.avg <= p.max && p.avg == SumTicks(ticks) / |ticks|
  {
    hide Mean;
    MinTickExactly(ticks);
    MaxTickExactly(ticks);
    if SumTicks(ticks) < TWO_53 {
      SumBounds(ticks, MinTick(ticks), MaxTick(ticks));
      SumBounds(ticks, 0, MaxTick(ticks));
      assert 0 * |ticks| == 0;
      MeanExactly(round, SumTicks(ticks), |ticks|);
      MeanBetween(SumTicks(ticks), |ticks|, MinTick(ticks), MaxTick(ticks));
    }
  }

  lemma MeanBetween(sum: int, n: nat, low: int, high: int)
    requires n > 0 && 0 <= low && low * n <= sum <= high * n
    ensures low <= sum / n <= high
  {
    var q := sum / n;
    assert q * n <= sum < (q + 1) * n;
    assert q < low ==> (q + 1) * n <= low * n;
    assert q > high ==> (high + 1) * n <= q * n;
  }

  // ---- Whole runs ----

  datatype Action = Reading(price: Option<int>) | Flipping

  datatype State = Running(stored: seq<Period>, ticks: seq<int>) | Panicked

  function Next(round: real -> real, s: State, a: Action): State
    requires RoundsToDouble(round)
  {
    if s.Panicked? then s
    else
      match a
      case Flipping => Running(if s.ticks == [] then s.stored else s.stored + [Summary(round, s.ticks)], [])
      case Reading(price) =>
        if price.None? then s
        else if |s.ticks| == EXPECTED_TICKS then Panicked
        else Running(s.stored, s.ticks + [Tick(price.value)])
  }

  function After(round: real -> real, acts: seq<Action>): State
    requires RoundsToDouble(round)
  {
    if acts == [] then Running([], [])
    else Next(round, After(round, acts[..|acts| - 1]), acts[|acts| - 1])
  }

  // Successful readings since the last flip.
  function Pending(acts: seq<Action>): seq<int> {
    if acts == [] || acts[|acts| - 1].Flipping? then []
    else
      var n := |acts| - 1;
      Pending(acts[..n]) + (if acts[n].price.Some? then [Tick(acts[n].price.value)] else [])
  }

  // The readings of each closed, non-empty period.
  function Closed(acts: seq<Action>): seq<seq<int>> {
    if acts == [] then []
    else
      var n := |acts| - 1;
      Closed(acts[..n]) + (if acts[n].Flipping? && Pending(acts[..n]) != [] then [Pending(acts[..n])] else [])
  }

  // No period along the run gets more readings than the buffer holds.
  predicate NeverOverrun(acts: seq<Action>) {
    |Pending(acts)| <= 301 && (acts != [] ==> NeverOverrun(acts[..|acts| - 1]))
  }

  ghost predicate Summarised(round: real -> real, stored: seq<Period>, closed: seq<seq<int>>)
    requires RoundsToDouble(round)
  {
    |stored| == |closed| &&
    forall i :: 0 <= i < |closed| ==> closed[i] != [] && stored[i] == Summary(round, closed[i])
  }

  // The tick buffer is overrun exactly when some period gets more than 301 readings;
  // otherwise the stored periods summarise the closed ones, in order.
  lemma {:induction false} PeriodsExactly(round: real -> real, acts: seq<Action>)
    requires RoundsToDouble(round)
    ensures After(round, acts).Running? <==> NeverOverrun(acts)
    ensures After(round, acts).Running? ==> After(round, acts).ticks == Pending(acts)
    ensures After(round, acts).Running? ==> Summarised(round, After(round, acts).stored, Closed(acts))
  {
    if acts != [] {
      PeriodsExactly(round, acts[..|acts| - 1]);
    }
  }
}
