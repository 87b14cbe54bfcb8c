// Keys and ordinals of stored records: the primary key of a token transaction and the paging
// ordinals of transactions and token transactions (internal/types/erc20_trx.go, transaction.go).
module Ordinals {
  import opened Common
  import opened Bytes
  import opened Pages
  import opened ErcTrxList

  // ---- TokenTransaction.Pk ----

  function PkBytes(block: nat, logIndex: nat, seqNo: nat): (pk: seq<Byte>)
    ensures |pk| == 14
  {
    BigEndian(block, 8) + BigEndian(logIndex, 4) + BigEndian(seqNo, 2)
  }

  // The key is built by filling a 14-byte buffer piece by piece.
  method Pk(block: nat, logIndex: nat, seqNo: nat) returns (pk: seq<Byte>)
    ensures pk == PkBytes(block, logIndex, seqNo)
  {
    var bytes := new Byte[14](_ => 0);
    PutBigEndian(bytes, 0, 8, block);
    PutBigEndian(bytes, 8, 4, logIndex);
    PutBigEndian(bytes, 12, 2, seqNo);
    pk := bytes[..];
  }

  lemma Powers()
    ensures Pow256(2) == 0x1_0000 && Pow256(4) == 0x1_0000_0000
    ensures Pow256(6) == 0x1_0000_0000_0000 && Pow256(8) == 0x1_0000_0000_0000_0000
  {
    assert Pow256(2) == 256 * (256 * Pow256(0));
    assert Pow256(4) == 256 * (256 * Pow256(2));
    assert Pow256(6) == 256 * (256 * Pow256(4));
    assert Pow256(8) == 256 * (256 * Pow256(6));
  }

  predicate KeyParts(block: nat, logIndex: nat, seqNo: nat) {
    block < 0x1_0000_0000_0000_0000 && logIndex < 0x1_0000_0000 && seqNo < 0x1_0000
  }

  lemma ValueBehind(high: seq<Byte>, h: nat, low: seq<Byte>, p: nat)
    requires Value(high) == h && p == Pow256(|low|)
    ensures Value(high + low) == h * p + Value(low) && Value(low) < p
  {
    ValueConcat(high, low);
    ValueBounded(low);
  }

  function KeyNumber(block: nat, logIndex: nat, seqNo: nat): nat {
    (block * 0x1_0000_0000 + logIndex) * 0x1_0000 + seqNo
  }

  lemma PkValue(block: nat, logIndex: nat, seqNo: nat)
    requires KeyParts(block, logIndex, seqNo)
    ensures Value(PkBytes(block, logIndex, seqNo)) == KeyNumber(block, logIndex, seqNo)
  {
    Powers();
    RoundTrip(block, 8);
    RoundTrip(logIndex, 4);
    RoundTrip(seqNo, 2);
    var high, middle := BigEndian(block, 8), BigEndian(logIndex, 4);
    ValueBehind(high, block, middle, 0x1_0000_0000);
    ValueBehind(high + middle, block * 0x1_0000_0000 + logIndex, BigEndian(seqNo, 2), 0x1_0000);
  }

  predicate Before(a: (nat, nat, nat), b: (nat, nat, nat)) {
    a.0 < b.0 || (a.0 == b.0 && (a.1 < b.1 || (a.1 == b.1 && a.2 < b.2)))
  }

  lemma KeyNumberOrder(a: (nat, nat, nat), b: (nat, nat, nat))
    requires KeyParts(a.0, a.1, a.2) && KeyParts(b.0, b.1, b.2)
    ensures KeyNumber(a.0, a.1, a.2) == KeyNumber(b.0, b.1, b.2) <==> a == b
    ensures KeyNumber(a.0, a.1, a.2) < KeyNumber(b.0, b.1, b.2) <==> Before(a, b)
  {
    LeadingDigit(a.0, a.1, b.0, b.1, 0x1_0000_0000);
    LeadingDigit(a.0 * 0x1_0000_0000 + a.1, a.2, b.0 * 0x1_0000_0000 + b.1, b.2, 0x1_0000);
  }

  // The key tells any two (block, log index, sequence) triples apart and sorts them in order.
  lemma PkExactly(a: (nat, nat, nat), b: (nat, nat, nat))
    requires KeyParts(a.0, a.1, a.2) && KeyParts(b.0, b.1, b.2)
    ensures PkBytes(a.0, a.1, a.2) == PkBytes(b.0, b.1, b.2) <==> a == b
    ensures Precedes(PkBytes(a.0, a.1, a.2), PkBytes(b.0, b.1, b.2)) <==> Before(a, b)
  {
    PkValue(a.0, a.1, a.2);
    PkValue(b.0, b.1, b.2);
    KeyNumberOrder(a, b);
    PrecedesExactly(PkBytes(a.0, a.1, a.2), PkBytes(b.0, b.1, b.2));
  }

  // ---- Transaction.Uid ----

  const UID_INDEXES: int := 0x4000

  // (block << 14) | (index & 0x3fff) on 64 bits: the low 14 bits of the shifted block are zero.
  function Uid(block: nat, index: nat): nat {
    block * UID_INDEXES % 0x1_0000_0000_0000_0000 + index % UID_INDEXES
  }

  // Below block 2^49 the ordinal is a positive 63-bit number, and for indexes below 2^14 it is a
  // strict lexicographic embedding of (block, index).
  lemma UidExactly(b1: nat, i1: nat, b2: nat, i2: nat)
    requires b1 < 0x2_0000_0000_0000 && b2 < 0x2_0000_0000_0000
    requires i1 < 0x4000 && i2 < 0x4000
    ensures Uid(b1, i1) < Uid(b2, i2) <==> b1 < b2 || (b1 == b2 && i1 < i2)
    ensures Uid(b1, i1) == Uid(b2, i2) <==> b1 == b2 && i1 == i2
    ensures Uid(b1, i1) < 0x8000_0000_0000_0000
  {
    LeadingDigit(b1, i1, b2, i2, UID_INDEXES);
  }

  // Two indexes of one block share an ordinal exactly when they differ by a multiple of 2^14.
  lemma UidIndexWraps(block: nat, i: nat, j: nat)
    ensures Uid(block, i) == Uid(block, j) <==> i % 0x4000 == j % 0x4000
  {
  }

  function UidRows(keys: seq<(nat, nat)>): seq<Row> {
    seq(|keys|, k requires 0 <= k < |keys| => Row(k, Uid(keys[k].0, keys[k].1)))
  }

  // Rows of a chain's transactions, newest first, have the distinct ordinals paging relies on.
  lemma {:induction false} UidsAreDistinct(keys: seq<(nat, nat)>)
    requires forall k :: 0 <= k < |keys| ==> keys[k].0 < 0x2_0000_0000_0000 && keys[k].1 < UID_INDEXES
    requires forall k, l :: 0 <= k < l < |keys| ==>
      keys[l].0 < keys[k].0 || (keys[l].0 == keys[k].0 && keys[l].1 < keys[k].1)
    ensures NewestFirst(UidRows(keys)) && DistinctOrdinals(UidRows(keys))
  {
    forall k, l | 0 <= k < l < |keys| ensures Uid(keys[l].0, keys[l].1) < Uid(keys[k].0, keys[k].1) {
      UidExactly(keys[l].0, keys[l].1, keys[k].0, keys[k].1);
    }
  }

  // ---- TokenTransaction.OrdinalIndex ----

  const STAMPS: int := 0x80_0000_0000

  // Exclusive or of the lowest bits, and of the low n bits.
  function XorLowest(a: nat, b: nat): nat {
    (a + b) % 2
  }

  function XorBits(a: nat, b: nat, n: nat): nat {
    if n == 0 then 0 else 2 * XorBits(a / 2, b / 2, n - 1) + XorLowest(a, b)
  }

  function Pow2(n: nat): nat {
    if n == 0 then 1 else 2 * Pow2(n - 1)
  }

  lemma {:induction false} XorBitsBounded(a: nat, b: nat, n: nat)
    requires a < Pow2(n)
    ensures XorBits(a, b, n) < Pow2(n)
    ensures XorBits(a, 0, n) == a
  {
    if n > 0 {
      XorBitsBounded(a / 2, b / 2, n - 1);
    }
  }

  lemma {:induction false} XorBitsCommute(a: nat, b: nat, n: nat)
    ensures XorBits(a, b, n) == XorBits(b, a, n)
  {
    if n > 0 {
      XorBitsCommute(a / 2, b / 2, n - 1);
    }
  }

  lemma XorBitsStep(a: nat, b: nat, n: nat)
    requires n > 0
    ensures XorBits(a, b, n) / 2 == XorBits(a / 2, b / 2, n - 1)
    ensures XorBits(a, b, n) % 2 == XorLowest(a, b)
  {
  }

  lemma SameNumber(x: nat, y: nat)
    ensures x == y <==> x / 2 == y / 2 && x % 2 == y % 2
  {
  }

  lemma XorLowestCancels(a: nat, b: nat, c: nat)
    ensures XorLowest(a, b) == XorLowest(a, c) <==> b % 2 == c % 2
  {
  }

  lemma {:induction false} XorBitsCancel(a: nat, b: nat, c: nat, n: nat)
    requires b < Pow2(n) && c < Pow2(n)
    ensures XorBits(a, b, n) == XorBits(a, c, n) <==> b == c
  {
    if n > 0 {
      hide XorBits, XorLowest;
      XorBitsCancel(a / 2, b / 2, c / 2, n - 1);
      XorBitsStep(a, b, n);
      XorBitsStep(a, c, n);
      XorLowestCancels(a, b, c);
      SameNumber(XorBits(a, b, n), XorBits(a, c, n));
      SameNumber(b, c);
    }
  }

  lemma {:induction false} XorBitsAssociate(a: nat, b: nat, c: nat, n: nat)
    ensures XorBits(XorBits(a, b, n), c, n) == XorBits(a, XorBits(b, c, n), n)
  {
    if n > 0 {
      hide XorBits, XorLowest;
      var left, right := XorBits(a, b, n), XorBits(b, c, n);
      XorBitsAssociate(a / 2, b / 2, c / 2, n - 1);
      XorBitsStep(a, b, n);
      XorBitsStep(b, c, n);
      XorBitsStep(left, c, n);
      XorBitsStep(a, right, n);
      XorLowestAssociates(a, b, c, left, right);
      SameNumber(XorBits(left, c, n), XorBits(a, right, n));
    }
  }

  lemma XorLowestAssociates(a: nat, b: nat, c: nat, left: nat, right: nat)
    requires left % 2 == XorLowest(a, b) && right % 2 == XorLowest(b, c)
    ensures XorLowest(left, c) == XorLowest(a, right)
  {
  }

  function Xor(a: Byte, b: Byte): (r: Byte) {
    assert Pow2(8) == 256;
    XorBitsBounded(a, b, 8);
    XorBits(a, b, 8)
  }

  lemma XorCancels(a: Byte, b: Byte, c: Byte)
    ensures Xor(a, b) == Xor(a, c) <==> b == c
    ensures Xor(b, a) == Xor(c, a) <==> b == c
    ensures Xor(a, 0) == a && Xor(a, b) == Xor(b, a)
  {
    assert Pow2(8) == 256;
    XorBitsCancel(a, b, c, 8);
    XorBitsBounded(a, b, 8);
    XorBitsCommute(a, b, 8);
    XorBitsCommute(a, c, 8);
  }

  // Bit k, counted from the lowest.
  predicate Bit(a: nat, k: nat) {
    if k == 0 then a % 2 == 1 else Bit(a / 2, k - 1)
  }

  // Bit by bit: the exclusive or has exactly the bits in which its operands differ.
  lemma {:induction false} XorBitsExactly(a: nat, b: nat, n: nat, k: nat)
    requires k < n
    ensures Bit(XorBits(a, b, n), k) <==> Bit(a, k) != Bit(b, k)
  {
    hide XorBits;
    XorBitsStep(a, b, n);
    if k > 0 {
      XorBitsExactly(a / 2, b / 2, n - 1, k - 1);
    }
  }

  lemma XorExactly(a: Byte, b: Byte, k: nat)
    requires k < 8
    ensures Bit(Xor(a, b), k) <==> Bit(a, k) != Bit(b, k)
  {
    XorBitsExactly(a, b, 8, k);
  }

  lemma XorAssociates(a: Byte, b: Byte, c: Byte)
    ensures Xor(Xor(a, b), c) == Xor(a, Xor(b, c))
  {
    XorBitsAssociate(a, b, c, 8);
  }

  // The first three bytes of the transaction hash, mixed with the low bytes of the log index and
  // of the sequence number.
  function Salt(hash: seq<Byte>, logIndex: nat, seqNo: nat): (s: seq<Byte>)
    requires |hash| >= 3
    ensures |s| == 3
  {
    var l, q := BigEndian(logIndex, 4), BigEndian(seqNo, 2);
    [Xor(Xor(hash[0], l[1]), q[1]), Xor(Xor(hash[1], l[2]), q[0]), Xor(hash[2], l[3])]
  }

  // The low 39 bits of the time stamp in five bytes.
  function StampBytes(stamp: nat): seq<Byte> {
    BigEndian(stamp % STAMPS, 5)
  }

  function OrdinalBytes(stamp: nat, salt: seq<Byte>): seq<Byte> {
    StampBytes(stamp) + salt
  }

  lemma ShiftedStamp(v: nat)
    ensures BigEndian(v * 0x100_0000, 8) == BigEndian(v, 5) + [0, 0, 0]
  {
    var a, b := BigEndian(v * 0x1_0000, 7), BigEndian(v * 0x100, 6);
    assert BigEndian(v * 0x100_0000, 8) == a + [0];
    assert a == b + [0];
    assert b == BigEndian(v, 5) + [0];
  }

  // The buffer gets the shifted time stamp first and then its last three bytes overwritten.
  method OrdinalIndex(stamp: nat, hash: seq<Byte>, logIndex: nat, seqNo: nat) returns (ord: nat)
    requires |hash| >= 3
    ensures ord == Value(OrdinalBytes(stamp, Salt(hash, logIndex, seqNo)))
  {
    hide BigEndian, Value;
    var ordinal := new Byte[8](_ => 0);
    PutBigEndian(ordinal, 0, 8, stamp % STAMPS * 0x100_0000);
    ShiftedStamp(stamp % STAMPS);
    assert ordinal[..] == BigEndian(stamp % STAMPS, 5) + [0, 0, 0];
    var l := new Byte[4](_ => 0);
    PutBigEndian(l, 0, 4, logIndex);
    var q := new Byte[2](_ => 0);
    PutBigEndian(q, 0, 2, seqNo);
    assert l[..] == BigEndian(logIndex, 4) && q[..] == BigEndian(seqNo, 2);
    ordinal[5] := Xor(Xor(hash[0], l[1]), q[1]);
    ordinal[6] := Xor(Xor(hash[1], l[2]), q[0]);
    ordinal[7] := Xor(hash[2], l[3]);
    assert ordinal[..] == OrdinalBytes(stamp, Salt(hash, logIndex, seqNo));
    ord := Value(ordinal[..]);
  }

  lemma StampValue(stamp: nat)
    requires stamp < STAMPS
    ensures Value(StampBytes(stamp)) == stamp
  {
    hide BigEndian, Value;
    StampPowers();
    RoundTrip(stamp, 5);
  }

  lemma OrdinalValue(stamp: nat, salt: seq<Byte>)
    requires stamp < STAMPS && |salt| == 3
    ensures Value(OrdinalBytes(stamp, salt)) == stamp * 0x100_0000 + Value(salt)
    ensures Value(salt) < 0x100_0000
  {
    StampPowers();
    StampValue(stamp);
    ValueBehind(StampBytes(stamp), stamp, salt, 0x100_0000);
  }

  // Later blocks sort higher as long as their time stamps have 39 bits, and two records get the same
  // ordinal exactly when their salts and the low 39 bits of their time stamps coincide.
  lemma OrdinalExactly(t1: nat, x: seq<Byte>, t2: nat, y: seq<Byte>)
    requires |x| == |y| == 3
    ensures t1 < t2 < 0x80_0000_0000 ==> Value(OrdinalBytes(t1, x)) < Value(OrdinalBytes(t2, y))
    ensures Value(OrdinalBytes(t1, x)) == Value(OrdinalBytes(t2, y))
       <==> t1 % 0x80_0000_0000 == t2 % 0x80_0000_0000 && x == y
  {
    hide Value;
    var u1, u2 := t1 % STAMPS, t2 % STAMPS;
    OrdinalValue(u1, x);
    OrdinalValue(u2, y);
    SameLowStamp(t1);
    SameLowStamp(t2);
    PrecedesExactly(x, y);
    LeadingDigit(u1, Value(x), u2, Value(y), 0x100_0000);
  }

  lemma SameLowStamp(t: nat)
    ensures StampBytes(t) == StampBytes(t % STAMPS)
    ensures t < 0x80_0000_0000 ==> t % STAMPS == t
  {
    assert t % STAMPS % STAMPS == t % STAMPS;
  }

  lemma StampPowers()
    ensures Pow256(3) == 0x100_0000 && STAMPS <= Pow256(5)
  {
    assert Pow256(3) == 256 * (256 * Pow256(1));
    assert Pow256(5) == 256 * (256 * Pow256(3));
  }

  // What the salt keeps of a log index and a sequence number.
  function Mixed(logIndex: nat, seqNo: nat): (Byte, Byte, Byte) {
    var l, q := BigEndian(logIndex, 4), BigEndian(seqNo, 2);
    (Xor(l[1], q[1]), Xor(l[2], q[0]), l[3])
  }

  // Whatever the transaction hash is, two transfers of one transaction get the same salt exactly when
  // the low byte of their log index, its next byte mixed with the high byte of the sequence number,
  // and its third byte mixed with the low byte of the sequence number agree.
  lemma SaltExactly(h: seq<Byte>, l1: nat, s1: nat, l2: nat, s2: nat)
    requires |h| >= 3
    ensures Salt(h, l1, s1) == Salt(h, l2, s2) <==> Mixed(l1, s1) == Mixed(l2, s2)
  {
    var m1, m2 := Mixed(l1, s1), Mixed(l2, s2);
    SaltMixes(h, l1, s1);
    SaltMixes(h, l2, s2);
    XorCancels(h[0], m1.0, m2.0);
    XorCancels(h[1], m1.1, m2.1);
    XorCancels(h[2], m1.2, m2.2);
  }

  lemma SaltMixes(h: seq<Byte>, logIndex: nat, seqNo: nat)
    requires |h| >= 3
    ensures var m := Mixed(logIndex, seqNo);
      Salt(h, logIndex, seqNo) == [Xor(h[0], m.0), Xor(h[1], m.1), Xor(h[2], m.2)]
  {
    var l, q := BigEndian(logIndex, 4), BigEndian(seqNo, 2);
    XorAssociates(h[0], l[1], q[1]);
    XorAssociates(h[1], l[2], q[0]);
  }

  // The salt begins from the hash: the first transfer gets its first three bytes, and transfers with
  // one position in two transactions are told apart exactly by these bytes.
  lemma SaltOfHash(h: seq<Byte>, g: seq<Byte>, logIndex: nat, seqNo: nat)
    requires |h| >= 3 && |g| >= 3
    ensures Salt(h, 0, 0) == h[..3]
    ensures Salt(h, logIndex, seqNo) == Salt(g, logIndex, seqNo) <==> h[..3] == g[..3]
  {
    LowBytes(0);
    XorCancels(h[0], 0, 0);
    XorCancels(h[1], 0, 0);
    XorCancels(h[2], 0, 0);
    hide BigEndian;
    var m := Mixed(logIndex, seqNo);
    SaltMixes(h, logIndex, seqNo);
    SaltMixes(g, logIndex, seqNo);
    XorCancels(m.0, h[0], g[0]);
    XorCancels(m.1, h[1], g[1]);
    XorCancels(m.2, h[2], g[2]);
    assert h[..3] == [h[0], h[1], h[2]] && g[..3] == [g[0], g[1], g[2]];
  }

  // The bytes of a number below 2^24 in four bytes, and below 2^16 in two.
  lemma LowBytes(l: nat)
    requires l < 0x100_0000
    ensures BigEndian(l, 4) == [0, l / 0x1_0000, l / 256 % 256, l % 256]
    ensures l < 0x1_0000 ==> BigEndian(l, 2) == [l / 256, l % 256]
  {
    assert BigEndian(l, 4) == BigEndian(l / 256, 3) + [l % 256];
    assert BigEndian(l / 256, 3) == BigEndian(l / 256 / 256, 2) + [l / 256 % 256];
    assert l / 256 / 256 == l / 0x1_0000;
    assert BigEndian(l / 0x1_0000, 2) == BigEndian(0, 1) + [l / 0x1_0000];
    if l < 0x1_0000 {
      assert BigEndian(l, 2) == BigEndian(l / 256, 1) + [l % 256];
    }
  }

  lemma MixedOf(l: nat, s: nat)
    requires l < 0x100_0000 && s < 0x1_0000
    ensures Mixed(l, s) == (Xor(l / 0x1_0000, s % 256), Xor(l / 256 % 256, s / 256), l % 256)
  {
    LowBytes(l);
    LowBytes(s);
  }

  // Log indexes below 2^16 with sequence numbers below 2^8, log indexes below 2^8 with any sequence
  // number, and log indexes below 2^24 without batches never collide within a transaction.
  lemma SaltDistinct(h: seq<Byte>, l1: nat, s1: nat, l2: nat, s2: nat)
    requires |h| >= 3
    requires (l1 < 0x1_0000 && l2 < 0x1_0000 && s1 < 0x100 && s2 < 0x100)
          || (l1 < 0x100 && l2 < 0x100 && s1 < 0x1_0000 && s2 < 0x1_0000)
          || (l1 < 0x100_0000 && l2 < 0x100_0000 && s1 == s2 == 0)
    ensures Salt(h, l1, s1) == Salt(h, l2, s2) <==> l1 == l2 && s1 == s2
  {
    hide *;
    SaltExactly(h, l1, s1, l2, s2);
    MixedOf(l1, s1);
    MixedOf(l2, s2);
    Digits(l1);
    Digits(l2);
    Digits(s1);
    Digits(s2);
    MixedPart(l1 / 0x1_0000, s1 % 256, l2 / 0x1_0000, s2 % 256);
    MixedPart(l1 / 256 % 256, s1 / 256, l2 / 256 % 256, s2 / 256);
  }

  lemma Digits(n: nat)
    requires n < 0x100_0000
    ensures n == n / 0x1_0000 * 0x1_0000 + n / 256 % 256 * 256 + n % 256
    ensures n < 0x1_0000 ==> n / 0x1_0000 == 0 && n / 256 % 256 == n / 256
    ensures n < 0x100 ==> n / 256 == 0
  {
  }

  // A mixed byte tells its operands apart when one of them is fixed to zero.
  lemma MixedPart(a: Byte, b: Byte, c: Byte, d: Byte)
    ensures a == c == 0 ==> (Xor(a, b) == Xor(c, d) <==> b == d)
    ensures b == d == 0 ==> (Xor(a, b) == Xor(c, d) <==> a == c)
  {
    XorCancels(0, b, d);
    XorCancels(0, a, c);
  }

  // Outside of them they may: entry 256 of a batch takes the ordinal of a transfer logged 256 later.
  lemma {:induction false} SaltCollision(h: seq<Byte>)
    requires |h| >= 3
    ensures Salt(h, 0, 256) == Salt(h, 256, 0)
  {
    SaltExactly(h, 0, 256, 256, 0);
    LowBytes(0);
    LowBytes(256);
    XorCancels(0, 1, 1);
  }

  // Rows of token transactions with these time stamps and salts, in the order of the collection.
  function TransferRows(keys: seq<(nat, seq<Byte>)>): seq<Row> {
    seq(|keys|, k requires 0 <= k < |keys| => Row(k, Value(OrdinalBytes(keys[k].0, keys[k].1))))
  }

  // Walking token transactions is complete for every page size, in either direction, exactly when no
  // two of them share time stamp and salt.
  lemma TransferWalksExactly(keys: seq<(nat, seq<Byte>)>)
    requires keys != [] && NewestFirst(TransferRows(keys))
    requires forall k :: 0 <= k < |keys| ==> keys[k].0 < STAMPS && |keys[k].1| == 3
    ensures var rows := TransferRows(keys);
      (forall count :: 0 < count <= MAX_INT32 ==> WalkDown(rows, None, count) == rows)
      <==> forall i, j :: 0 <= i < j < |keys| ==> keys[i] != keys[j]
    ensures var rows := TransferRows(keys);
      (forall count :: MIN_INT32 < count < 0 ==> WalkUp(rows, None, count) == rows)
      <==> forall i, j :: 0 <= i < j < |keys| ==> keys[i] != keys[j]
  {
    hide WalkDown, WalkUp, OrdinalBytes, Value;
    var rows := TransferRows(keys);
    WalksCompleteExactly(rows);
    forall i, j | 0 <= i < j < |keys| ensures rows[i].ord != rows[j].ord <==> keys[i] != keys[j] {
      OrdinalExactly(keys[i].0, keys[i].1, keys[j].0, keys[j].1);
    }
  }
}
