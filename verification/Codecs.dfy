// Byte codecs of cached values: the SFC configuration and lists of pair addresses
// (internal/types/sfc_config.go, internal/repository/cache/uniswap.go).
module Codecs {
  import opened Common
  import opened Bytes

  // ---- SFC configuration ----

  const WORD: nat := 32

  datatype SfcConfig = SfcConfig(
    minValidatorStake: nat, maxDelegatedRatio: nat, minLockupDuration: nat,
    maxLockupDuration: nat, withdrawalPeriodEpochs: nat, withdrawalPeriodTime: nat)

  // Every number fits its 32 bytes.
  predicate Fits(c: SfcConfig) {
    && c.minValidatorStake < Pow256(WORD) && c.maxDelegatedRatio < Pow256(WORD)
    && c.minLockupDuration < Pow256(WORD) && c.maxLockupDuration < Pow256(WORD)
    && c.withdrawalPeriodEpochs < Pow256(WORD) && c.withdrawalPeriodTime < Pow256(WORD)
  }

  function Words(c: SfcConfig): (s: seq<Byte>)
    ensures |s| == 192
  {
    BigEndian(c.minValidatorStake, WORD) + BigEndian(c.maxDelegatedRatio, WORD)
    + BigEndian(c.minLockupDuration, WORD) + BigEndian(c.maxLockupDuration, WORD)
    + BigEndian(c.withdrawalPeriodEpochs, WORD) + BigEndian(c.withdrawalPeriodTime, WORD)
  }

  // Fills the 32 bytes from `from` on; what comes before stays. A number that is too wide panics.
  method PutWord(b: array<Byte>, from: nat, v: nat, ghost before: seq<Byte>) returns (ok: bool)
    requires from + WORD <= b.Length && b[..from] == before
    modifies b
    ensures ok == (v < Pow256(WORD))
    ensures ok ==> b[..from + WORD] == before + BigEndian(v, WORD)
  {
    if v >= Pow256(WORD) {
      return false;
    }
    PutBigEndian(b, from, WORD, v);
    assert b[..from + WORD] == b[..][..from + WORD];
    return true;
  }

  // None stands for the panic.
  method Marshal(c: SfcConfig) returns (buf: Option<seq<Byte>>)
    ensures buf == if Fits(c) then Some(Words(c)) else None
  {
    hide BigEndian, Pow256;
    var b := new Byte[6 * WORD](_ => 0);
    var ok1 := PutWord(b, 0, c.minValidatorStake, []);
    if !ok1 { return None; }
    assert b[..32] == BigEndian(c.minValidatorStake, WORD);
    var ok2 := PutWord(b, 32, c.maxDelegatedRatio, b[..32]);
    if !ok2 { return None; }
    var ok3 := PutWord(b, 64, c.minLockupDuration, b[..64]);
    if !ok3 { return None; }
    var ok4 := PutWord(b, 96, c.maxLockupDuration, b[..96]);
    if !ok4 { return None; }
    var ok5 := PutWord(b, 128, c.withdrawalPeriodEpochs, b[..128]);
    if !ok5 { return None; }
    var ok6 := PutWord(b, 160, c.withdrawalPeriodTime, b[..160]);
    if !ok6 { return None; }
    assert b[..] == b[..192];
    return Some(b[..]);
  }

  function Unmarshal(buf: seq<Byte>): Option<SfcConfig> {
    if |buf| != 192 then None
    else Some(SfcConfig(Value(buf[..32]), Value(buf[32..64]), Value(buf[64..96]),
                        Value(buf[96..128]), Value(buf[128..160]), Value(buf[160..])))
  }

  // The order of the words in the buffer.
  lemma LayoutExactly(c: SfcConfig)
    requires Fits(c)
    ensures Value(Words(c)[..32]) == c.minValidatorStake
    ensures Value(Words(c)[32..64]) == c.maxDelegatedRatio
    ensures Value(Words(c)[64..96]) == c.minLockupDuration
    ensures Value(Words(c)[96..128]) == c.maxLockupDuration
    ensures Value(Words(c)[128..160]) == c.withdrawalPeriodEpochs
    ensures Value(Words(c)[160..]) == c.withdrawalPeriodTime
  {
    SfcConfigRoundTrip(c);
  }

  // Six numbers survive encoding and decoding exactly when each is below 2^256, and every 192-byte
  // buffer survives decoding and encoding; no other length is accepted.
  lemma SfcConfigRoundTrip(c: SfcConfig)
    ensures Unmarshal(Words(c)) == Some(c) <==> Fits(c)
  {
    hide BigEndian, Value, Pow256;
    var w1, w2 := BigEndian(c.minValidatorStake, WORD), BigEndian(c.maxDelegatedRatio, WORD);
    var w3, w4 := BigEndian(c.minLockupDuration, WORD), BigEndian(c.maxLockupDuration, WORD);
    var w5, w6 := BigEndian(c.withdrawalPeriodEpochs, WORD), BigEndian(c.withdrawalPeriodTime, WORD);
    var buf := Words(c);
    assert buf[..32] == w1 && buf[32..64] == w2 && buf[64..96] == w3;
    assert buf[96..128] == w4 && buf[128..160] == w5 && buf[160..] == w6;
    FitsExactly(c.minValidatorStake);
    FitsExactly(c.maxDelegatedRatio);
    FitsExactly(c.minLockupDuration);
    FitsExactly(c.maxLockupDuration);
    FitsExactly(c.withdrawalPeriodEpochs);
    FitsExactly(c.withdrawalPeriodTime);
  }

  lemma FitsExactly(v: nat)
    ensures Value(BigEndian(v, WORD)) == v <==> v < Pow256(WORD)
  {
    hide BigEndian, Value, Pow256;
    ValueBounded(BigEndian(v, WORD));
    if v < Pow256(WORD) {
      RoundTrip(v, WORD);
    }
  }

  lemma BufferRoundTrip(buf: seq<Byte>)
    ensures Unmarshal(buf).Some? <==> |buf| == 192
    ensures |buf| == 192 ==> Fits(Unmarshal(buf).value) && Words(Unmarshal(buf).value) == buf
  {
    hide BigEndian, Value, Pow256;
    if |buf| == 192 {
      var w1, w2, w3 := buf[..32], buf[32..64], buf[64..96];
      var w4, w5, w6 := buf[96..128], buf[128..160], buf[160..];
      WordRoundTrip(w1);
      WordRoundTrip(w2);
      WordRoundTrip(w3);
      WordRoundTrip(w4);
      WordRoundTrip(w5);
      WordRoundTrip(w6);
      assert w1 + w2 + w3 + w4 + w5 + w6 == buf;
    }
  }

  lemma WordRoundTrip(w: seq<Byte>)
    requires |w| == WORD
    ensures Value(w) < Pow256(WORD) && BigEndian(Value(w), WORD) == w
  {
    ValueBounded(w);
    BytesRoundTrip(w);
  }

  // ---- Pair addresses ----

  const ADDRESS_LENGTH: nat := 20

  type Address = a: seq<Byte> | |a| == ADDRESS_LENGTH witness seq(ADDRESS_LENGTH, _ => 0)

  // Address.SetBytes: the last 20 bytes, or zero-padded on the left.
  function SetBytes(b: seq<Byte>): Address {
    if |b| > ADDRESS_LENGTH then b[|b| - ADDRESS_LENGTH..]
    else seq(ADDRESS_LENGTH - |b|, _ => 0) + b
  }

  // Read as numbers: an address is what is left of the bytes modulo 2^160.
  lemma SetBytesExactly(b: seq<Byte>)
    ensures Value(SetBytes(b)) == Value(b) % Pow256(20)
  {
    hide Value, Pow256;
    ValueBounded(SetBytes(b));
    if |b| > 20 {
      var high, low := b[..|b| - 20], b[|b| - 20..];
      assert b == high + low;
      ValueConcat(high, low);
      LowPart(Value(high), Value(low), Pow256(20));
    } else {
      ValueConcat(seq(20 - |b|, _ => 0), b);
      ZerosValue(20 - |b|);
      LowPart(0, Value(b), Pow256(20));
    }
  }

  lemma LowPart(high: nat, low: nat, p: nat)
    requires low < p
    ensures (high * p + low) % p == low
  {
    LowPartQuotient(high, low, p, (high * p + low) / p);
  }

  lemma LowPartQuotient(high: nat, low: nat, p: nat, q: nat)
    requires low < p && q * p <= high * p + low < (q + 1) * p
    ensures q == high
  {
    assert q < high ==> (q + 1) * p <= high * p;
    assert q > high ==> (high + 1) * p <= q * p;
  }

  lemma {:induction false} ZerosValue(n: nat)
    ensures Value(seq(n, _ => 0)) == 0
  {
    if n > 0 {
      ZerosValue(n - 1);
      assert seq(n, _ => 0)[..n - 1] == seq(n - 1, _ => 0);
    }
  }

  function Joined(list: seq<Address>): (s: seq<Byte>)
    ensures |s| == |list| * 20
  {
    if list == [] then [] else Joined(list[..|list| - 1]) + list[|list| - 1]
  }

  lemma JoinedMore(l: seq<Address>, a: Address)
    ensures Joined([]) == [] && Joined(l + [a]) == Pair(Joined(l), a)
  {
    assert (l + [a])[..|l|] == l;
  }

  function Pair(a: seq<Byte>, b: seq<Byte>): seq<Byte> {
    a + b
  }

  // The in-memory cache entries concerned; None is a missing entry.
  class PairCache {
    var pairs: Option<seq<Byte>>
    var tokens: map<Address, seq<Byte>>

    constructor ()
      ensures pairs == None && tokens == map[]
    {
      pairs, tokens := None, map[];
    }

    method PushAllPairsList(list: seq<Address>)
      modifies this`pairs
      ensures pairs == if list == [] then old(pairs) else Some(Joined(list))
    {
      if |list| == 0 {
        return;
      }
      var bytes := new Byte[|list| * ADDRESS_LENGTH](_ => 0);
      var i := 0;
      while i < |list|
        invariant 0 <= i <= |list|
        invariant bytes[..i * ADDRESS_LENGTH] == Joined(list[..i])
      {
        assert list[..i + 1][..i] == list[..i];
        CopyInto(bytes, i * ADDRESS_LENGTH, list[i]);
        i := i + 1;
      }
      assert list[..i] == list && bytes[..i * ADDRESS_LENGTH] == bytes[..];
      pairs := Some(bytes[..]);
    }

    method PullAllPairsList() returns (list: Option<seq<Address>>)
      ensures pairs.None? ==> list == None
      ensures pairs.Some? ==> list.Some? && |list.value| == |pairs.value| / 20
      ensures pairs.Some? ==> Joined(list.value) == pairs.value[..|list.value| * 20]
    {
      if pairs.None? {
        return None;
      }
      hide Joined;
      var data := pairs.value;
      var ac := |data| / ADDRESS_LENGTH;
      var l: seq<Address> := [];
      var i := 0;
      JoinedMore([], seq(ADDRESS_LENGTH, _ => 0));
      while i < ac
        invariant 0 <= i <= ac && |l| == i
        invariant Joined(l) == data[..i * ADDRESS_LENGTH]
      {
        var from := i * ADDRESS_LENGTH;
        var a: Address := SetBytes(data[from..from + ADDRESS_LENGTH]);
        JoinedMore(l, a);
        assert data[..from] + data[from..from + ADDRESS_LENGTH] == data[..from + ADDRESS_LENGTH];
        l := l + [a];
        i := i + 1;
      }
      return Some(l);
    }

    method PushUniswapPairTokens(pair: Address, tl: seq<Address>)
      modifies this`tokens
      ensures tokens == if |tl| == 2 then old(tokens)[pair := Pair(tl[0], tl[1])] else old(tokens)
    {
      if |tl| != 2 {
        return;
      }
      tokens := tokens[pair := Pair(tl[0], tl[1])];
    }

    // The entry is read at fixed offsets; false stands for the panic on one shorter than an address.
    method PullUniswapPairTokens(pair: Address) returns (ok: bool, tl: Option<seq<Address>>)
      ensures ok == (pair in tokens ==> 20 <= |tokens[pair]|)
      ensures tl.Some? <==> ok && pair in tokens
      ensures tl.Some? ==> |tl.value| == 2 && tl.value[0] == tokens[pair][..20]
      ensures tl.Some? ==> tl.value[1] == SetBytes(tokens[pair][20..])
      ensures tl.Some? && |tokens[pair]| == 40 ==> Pair(tl.value[0], tl.value[1]) == tokens[pair]
    {
      if pair !in tokens {
        return true, None;
      }
      var data := tokens[pair];
      if |data| < ADDRESS_LENGTH {
        return false, None;
      }
      return true, Some([SetBytes(data[..ADDRESS_LENGTH]), SetBytes(data[ADDRESS_LENGTH..])]);
    }
  }

  method CopyInto(bytes: array<Byte>, from: nat, a: Address)
    requires from + ADDRESS_LENGTH <= bytes.Length
    modifies bytes
    ensures bytes[..from + ADDRESS_LENGTH] == old(bytes[..from]) + a
    ensures bytes[from + ADDRESS_LENGTH..] == old(bytes[from + ADDRESS_LENGTH..])
  {
    forall k | 0 <= k < ADDRESS_LENGTH {
      bytes[from + k] := a[k];
    }
  }

  // The joined bytes determine the list.
  lemma {:induction false} JoinedInjective(l: seq<Address>, m: seq<Address>)
    requires Joined(l) == Joined(m)
    ensures l == m
  {
    if l != [] && m != [] {
      var i, j := |l| - 1, |m| - 1;
      assert Joined(l) == Joined(l[..i]) + l[i] && Joined(m) == Joined(m[..j]) + m[j];
      assert Joined(l)[..i * ADDRESS_LENGTH] == Joined(l[..i]) && Joined(m)[..j * ADDRESS_LENGTH] == Joined(m[..j]);
      assert Joined(l)[i * ADDRESS_LENGTH..] == l[i] && Joined(m)[j * ADDRESS_LENGTH..] == m[j];
      JoinedInjective(l[..i], m[..j]);
    }
  }

  // Any non-empty list of addresses survives the cache.
  method PairListRoundTrip(cache: PairCache, list: seq<Address>) returns (pulled: Option<seq<Address>>)
    requires list != []
    modifies cache
    ensures pulled == Some(list)
  {
    cache.PushAllPairsList(list);
    pulled := cache.PullAllPairsList();
    assert cache.pairs.value[..|pulled.value| * ADDRESS_LENGTH] == cache.pairs.value;
    JoinedInjective(pulled.value, list);
  }

  // Any two token addresses of a pair survive the cache.
  method PairTokensRoundTrip(cache: PairCache, pair: Address, t0: Address, t1: Address)
    returns (pulled: Option<seq<Address>>)
    modifies cache
    ensures pulled == Some([t0, t1])
  {
    cache.PushUniswapPairTokens(pair, [t0, t1]);
    var ok;
    ok, pulled := cache.PullUniswapPairTokens(pair);
    SameHalves(t0, t1, pulled.value[0], pulled.value[1]);
    assert pulled.value == [t0, t1];
  }

  lemma SameHalves(a: Address, b: Address, c: Address, d: Address)
    requires Pair(a, b) == Pair(c, d)
    ensures a == c && b == d
  {
    assert Pair(a, b)[..ADDRESS_LENGTH] == a && Pair(c, d)[..ADDRESS_LENGTH] == c;
    assert Pair(a, b)[ADDRESS_LENGTH..] == b && Pair(c, d)[ADDRESS_LENGTH..] == d;
  }
}
