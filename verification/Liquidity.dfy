// The optimal amounts for adding liquidity to a pair (internal/graphql/resolvers/uniswap.go).
module Liquidity {
  import opened Common

  datatype Answer = Amounts(a: nat, b: nat) | Failed

  // The router's quote, rounded down; it fails on an empty reserve it divides by.
  function Quote(amount: nat, reserveMy: nat, reserveSibling: nat): Option<nat> {
    if reserveMy == 0 then None else Some(amount * reserveSibling / reserveMy)
  }

  function Optimal(reserveA: nat, reserveB: nat, a: nat, b: nat): Answer {
    if reserveA == 0 && reserveB == 0 then Amounts(a, b)
    else
      match Quote(a, reserveA, reserveB)
      case None => Failed
      case Some(optimalB) =>
        if optimalB <= b then Amounts(a, optimalB)
        else
          match Quote(b, reserveB, reserveA)
          case None => Failed
          case Some(optimalA) => if optimalA > a then Failed else Amounts(optimalA, b)
  }

  function Swapped(r: Answer): Answer {
    if r.Amounts? then Amounts(r.b, r.a) else r
  }

  datatype Pool = Pool(token0: nat, token1: nat, reserve0: nat, reserve1: nat)

  // The request for two tokens and the amounts offered of them, in the caller's order.
  function QuoteLiquidity(pool: Pool, tokens: seq<nat>, amounts: seq<nat>): Answer {
    if |tokens| != 2 || |amounts| != 2 then Failed
    else if pool.token0 == tokens[0] then Optimal(pool.reserve0, pool.reserve1, amounts[0], amounts[1])
    else if pool.token0 == tokens[1] then
      Swapped(Optimal(pool.reserve0, pool.reserve1, amounts[1], amounts[0]))
    else Failed
  }

  lemma FloorBounds(n: nat, d: nat)
    requires d > 0
    ensures n / d * d <= n < (n / d + 1) * d
  {
  }

  lemma FloorAtMost(n: nat, d: nat, k: nat)
    requires d > 0 && n <= k * d
    ensures n / d <= k
  {
    var q := n / d;
    FloorBounds(n, d);
    assert q > k ==> q * d >= (k + 1) * d;
  }

  // If the B side asks for more than is offered, the A side asks for no more than is offered.
  lemma OneSideFits(reserveA: nat, reserveB: nat, a: nat, b: nat)
    requires reserveA > 0 && reserveB > 0 && a * reserveB / reserveA > b
    ensures b * reserveA / reserveB <= a
  {
    FloorBounds(a * reserveB, reserveA);
    assert (b + 1) * reserveA <= (a * reserveB / reserveA) * reserveA;
    FloorAtMost(b * reserveA, reserveB, a);
  }

  // With liquidity on both sides the request always succeeds, takes no more than was offered of
  // either token and all of one of them, and follows the pool's ratio up to rounding one amount down.
  lemma OptimalIsAdmissible(reserveA: nat, reserveB: nat, a: nat, b: nat)
    requires reserveA > 0 && reserveB > 0
    ensures var r := Optimal(reserveA, reserveB, a, b);
      && r.Amounts? && r.a <= a && r.b <= b && (r.a == a || r.b == b)
      && (r.b * reserveA <= r.a * reserveB < (r.b + 1) * reserveA
          || r.a * reserveB <= r.b * reserveA < (r.a + 1) * reserveB)
  {
    FloorBounds(a * reserveB, reserveA);
    FloorBounds(b * reserveA, reserveB);
    if a * reserveB / reserveA > b {
      OneSideFits(reserveA, reserveB, a, b);
    }
  }

  // What an answer for the offers of a pool's two tokens ought to be: no more than offered, one of them
  // used fully, and amounts in the ratio of that pool's reserves up to rounding one of them down.
  predicate Admissible(pool: Pool, offered0: nat, offered1: nat, taken0: nat, taken1: nat) {
    && taken0 <= offered0 && taken1 <= offered1 && (taken0 == offered0 || taken1 == offered1)
    && (taken1 * pool.reserve0 <= taken0 * pool.reserve1 < (taken1 + 1) * pool.reserve0
        || taken0 * pool.reserve1 <= taken1 * pool.reserve0 < (taken0 + 1) * pool.reserve1)
  }

  // A request for both tokens of a pool with reserves is admissible in either order. An empty pool
  // confirms what was offered. With one empty reserve the request fails if it is the first token's, and
  // otherwise takes all of the first token and nothing of the second.
  lemma QuoteExactly(pool: Pool, a0: nat, a1: nat)
    requires pool.token0 != pool.token1
    ensures pool.reserve0 > 0 && pool.reserve1 > 0 ==>
      var r := QuoteLiquidity(pool, [pool.token0, pool.token1], [a0, a1]);
      r.Amounts? && Admissible(pool, a0, a1, r.a, r.b)
    ensures pool.reserve0 > 0 && pool.reserve1 > 0 ==>
      var r := QuoteLiquidity(pool, [pool.token1, pool.token0], [a1, a0]);
      r.Amounts? && Admissible(pool, a0, a1, r.b, r.a)
    ensures pool.reserve0 == pool.reserve1 == 0 ==>
      QuoteLiquidity(pool, [pool.token0, pool.token1], [a0, a1]) == Amounts(a0, a1)
    ensures pool.reserve0 == 0 < pool.reserve1 ==>
      QuoteLiquidity(pool, [pool.token0, pool.token1], [a0, a1]) == Failed
    ensures pool.reserve1 == 0 < pool.reserve0 ==>
      QuoteLiquidity(pool, [pool.token0, pool.token1], [a0, a1]) == Amounts(a0, 0)
  {
    if pool.reserve0 > 0 && pool.reserve1 > 0 {
      OptimalIsAdmissible(pool.reserve0, pool.reserve1, a0, a1);
    }
  }

  // A pool with reserves refuses a request exactly when it does not name two tokens and two amounts, or
  // when the pool's first token is not among them.
  lemma {:induction false} RefusesExactly(pool: Pool, tokens: seq<nat>, amounts: seq<nat>)
    requires pool.reserve0 > 0 && pool.reserve1 > 0
    ensures QuoteLiquidity(pool, tokens, amounts) == Failed
       <==> |tokens| != 2 || |amounts| != 2 || pool.token0 !in tokens
  {
    if |tokens| == 2 && |amounts| == 2 {
      OptimalIsAdmissible(pool.reserve0, pool.reserve1, amounts[0], amounts[1]);
      OptimalIsAdmissible(pool.reserve0, pool.reserve1, amounts[1], amounts[0]);
    }
  }

  // Swapping the tokens together with their amounts swaps the answer.
  lemma CallerOrderIsFree(pool: Pool, t0: nat, t1: nat, a0: nat, a1: nat)
    requires t0 != t1
    ensures QuoteLiquidity(pool, [t1, t0], [a1, a0]) == Swapped(QuoteLiquidity(pool, [t0, t1], [a0, a1]))
  {
  }

  // The order in which the pair itself holds its tokens matters exactly when both sides would fit
  // but the two roundings disagree.
  lemma PairOrderExactly(reserveA: nat, reserveB: nat, a: nat, b: nat)
    requires reserveA > 0 && reserveB > 0
    ensures var optimalB, optimalA := a * reserveB / reserveA, b * reserveA / reserveB;
      Optimal(reserveA, reserveB, a, b) == Swapped(Optimal(reserveB, reserveA, b, a))
      <==> (optimalB <= b && optimalA <= a ==> optimalB == b && optimalA == a)
  {
    if a * reserveB / reserveA > b {
      OneSideFits(reserveA, reserveB, a, b);
    }
    if b * reserveA / reserveB > a {
      OneSideFits(reserveB, reserveA, b, a);
    }
  }
}
