/** Byte strings, fixed-width integers, and the bit addressing of 256-bit tree
    paths. Bits are numbered from the most significant bit of the first byte,
    as in the account tree, its proof bitmaps and the withdrawals tree. */
module Bytes {

  type Byte = bv8

  /** A 32-byte string: a digest, a public key or a tree path. */
  type H256 = s: seq<Byte> | |s| == 32 witness seq(32, i => 0 as bv8)

  function Zeros(n: nat): (s: seq<Byte>)
    ensures |s| == n && forall i | 0 <= i < n :: s[i] == 0
  {
    seq(n, i => 0 as bv8)
  }

  const ZERO_HASH: H256 := Zeros(32)

  // ----- integers as bytes ---------------------------------------------------

  function ToByte(n: nat): Byte
    requires n < 256
  {
    if n == 0 then 0 else ToByte(n - 1) + 1
  }

  lemma {:induction false} ToByteValue(n: nat)
    requires n < 256
    ensures ToByte(n) as int == n
  {
    if n > 0 {
      ToByteValue(n - 1);
      var b := ToByte(n - 1);
      assert b as int == n - 1;
      assert b != 255;
      assert (b + 1) as int == b as int + 1;
    }
  }

  /** The `k` low bytes of `n`, least significant first. */
  function LittleEndian(n: nat, k: nat): (s: seq<Byte>)
    ensures |s| == k
  {
    if k == 0 then [] else [ToByte(n % 256)] + LittleEndian(n / 256, k - 1)
  }

  function Pow256(k: nat): (p: nat)
    ensures p > 0
  {
    if k == 0 then 1 else 256 * Pow256(k - 1)
  }

  lemma {:induction false} LittleEndianInjective(m: nat, n: nat, k: nat)
    requires m < Pow256(k) && n < Pow256(k)
    requires LittleEndian(m, k) == LittleEndian(n, k)
    ensures m == n
  {
    if k > 0 {
      var a, b := LittleEndian(m, k), LittleEndian(n, k);
      assert a[1..] == LittleEndian(m / 256, k - 1) && b[1..] == LittleEndian(n / 256, k - 1);
      LittleEndianInjective(m / 256, n / 256, k - 1);
      assert a[0] == b[0];
      ToByteValue(m % 256);
      ToByteValue(n % 256);
    }
  }

  /** The number these bytes spell, least significant first. */
  function FromLittleEndian(s: seq<Byte>): (n: nat)
    ensures n < Pow256(|s|)
  {
    if s == [] then 0 else s[0] as int + 256 * FromLittleEndian(s[1..])
  }

  lemma {:induction false} LittleEndianRoundTrip(n: nat, k: nat)
    requires n < Pow256(k)
    ensures FromLittleEndian(LittleEndian(n, k)) == n
  {
    if k > 0 {
      LittleEndianRoundTrip(n / 256, k - 1);
      ToByteValue(n % 256);
      assert LittleEndian(n, k)[1..] == LittleEndian(n / 256, k - 1);
    }
  }

  lemma {:induction false} BytesRoundTrip(s: seq<Byte>)
    ensures LittleEndian(FromLittleEndian(s), |s|) == s
  {
    if s != [] {
      var b: int := s[0] as int;
      var rest := FromLittleEndian(s[1..]);
      BytesRoundTrip(s[1..]);
      DivModByte(b, rest);
      ToByteBack(s[0]);
      assert s == [s[0]] + s[1..];
    }
  }

  /** Later bytes weigh more. */
  lemma {:induction false} LastByteWeighsMost(s: seq<Byte>, b: Byte)
    ensures FromLittleEndian(s + [b]) == FromLittleEndian(s) + Weighed(b, |s|)
  {
    if s != [] {
      LastByteWeighsMost(s[1..], b);
      assert (s + [b])[0] == s[0] && (s + [b])[1..] == s[1..] + [b];
    }
  }

  /** The byte at place `k`. */
  function Weighed(b: Byte, k: nat): nat {
    if k == 0 then b as int else 256 * Weighed(b, k - 1)
  }

  lemma DivModByte(b: int, rest: nat)
    requires 0 <= b < 256
    ensures (b + 256 * rest) % 256 == b && (b + 256 * rest) / 256 == rest
  {
  }

  lemma ToByteBack(b: Byte)
    ensures 0 <= b as int < 256 && ToByte(b as int) == b
  {
    ToByteValue(b as int);
  }

  // ----- bits of a byte ------------------------------------------------------

  /** 1 << (7 - j), the weight of bit `j` of a byte. */
  function Weight(j: nat): Byte
    requires j < 8
  {
    match j
    case 0 => 0x80
    case 1 => 0x40
    case 2 => 0x20
    case 3 => 0x10
    case 4 => 0x08
    case 5 => 0x04
    case 6 => 0x02
    case 7 => 0x01
  }

  predicate ByteBit(b: Byte, j: nat)
    requires j < 8
  {
    b & Weight(j) != 0
  }

  function FlipByteBit(b: Byte, j: nat): (r: Byte)
    requires j < 8
    ensures forall k | 0 <= k < 8 :: ByteBit(r, k) == (if k == j then !ByteBit(b, k) else ByteBit(b, k))
  {
    b ^ Weight(j)
  }

  function SetByteBit(b: Byte, j: nat): (r: Byte)
    requires j < 8
    ensures forall k | 0 <= k < 8 :: ByteBit(r, k) == (k == j || ByteBit(b, k))
  {
    b | Weight(j)
  }

  /** 0xff << (8 - rem). */
  function Mask(rem: nat): Byte
    requires 0 < rem < 8
  {
    match rem
    case 1 => 0x80
    case 2 => 0xc0
    case 3 => 0xe0
    case 4 => 0xf0
    case 5 => 0xf8
    case 6 => 0xfc
    case 7 => 0xfe
  }

  function MaskByte(b: Byte, rem: nat): (r: Byte)
    requires 0 < rem < 8
    ensures forall k | 0 <= k < 8 :: ByteBit(r, k) == (k < rem && ByteBit(b, k))
  {
    b & Mask(rem)
  }

  lemma ByteFromBits(b: Byte, c: Byte)
    requires forall k | 0 <= k < 8 :: ByteBit(b, k) == ByteBit(c, k)
    ensures b == c
  {
    assert ByteBit(b, 0) == ByteBit(c, 0);
    assert ByteBit(b, 1) == ByteBit(c, 1);
    assert ByteBit(b, 2) == ByteBit(c, 2);
    assert ByteBit(b, 3) == ByteBit(c, 3);
    assert ByteBit(b, 4) == ByteBit(c, 4);
    assert ByteBit(b, 5) == ByteBit(c, 5);
    assert ByteBit(b, 6) == ByteBit(c, 6);
    assert ByteBit(b, 7) == ByteBit(c, 7);
  }

  // ----- bits of a path ------------------------------------------------------

  const PATH_BITS := 256

  predicate PathBit(path: H256, bit: nat)
    requires bit < PATH_BITS
  {
    ByteBit(path[bit / 8], bit % 8)
  }

  function FlipBit(path: H256, bit: nat): (r: H256)
    requires bit < PATH_BITS
    ensures forall k | 0 <= k < PATH_BITS :: PathBit(r, k) == (if k == bit then !PathBit(path, k) else PathBit(path, k))
  {
    path[bit / 8 := FlipByteBit(path[bit / 8], bit % 8)]
  }

  function SetBit(path: H256, bit: nat): (r: H256)
    requires bit < PATH_BITS
    ensures forall k | 0 <= k < PATH_BITS :: PathBit(r, k) == (k == bit || PathBit(path, k))
  {
    path[bit / 8 := SetByteBit(path[bit / 8], bit % 8)]
  }

  /** The first `depth` bits of a path: the position of a node in the tree. */
  function Prefix(path: H256, depth: nat): (p: seq<bool>)
    requires depth <= PATH_BITS
    ensures |p| == depth
  {
    seq(depth, i requires 0 <= i < depth => PathBit(path, i))
  }

  // ----- storage keys of tree nodes ------------------------------------------

  /** Two big-endian bytes of depth, then the path with every bit from `depth`
      on cleared. */
  type NodeKey = s: seq<Byte> | |s| == 34 witness Zeros(34)

  function KeyOf(depth: nat, path: H256): (key: NodeKey)
    requires depth <= PATH_BITS
  {
    var full := depth / 8;
    var rem := depth % 8;
    var masked := if rem > 0 then [MaskByte(path[full], rem)] else [];
    [ToByte(depth / 256), ToByte(depth % 256)] + path[..full] + masked + Zeros(32 - full - |masked|)
  }

  lemma KeyDepth(d: nat, path: H256)
    requires d <= PATH_BITS
    ensures KeyOf(d, path)[0] as int * 256 + KeyOf(d, path)[1] as int == d
  {
    ToByteValue(d / 256);
    ToByteValue(d % 256);
  }

  lemma KeyBytes(d: nat, path: H256, j: nat)
    requires d <= PATH_BITS && j < 32
    ensures KeyOf(d, path)[2 + j] ==
            if j < d / 8 then path[j]
            else if j == d / 8 && d % 8 > 0 then MaskByte(path[j], d % 8)
            else 0
  {
  }

  /** Two positions share a storage key exactly when they are the same node. */
  lemma KeyIdentifiesPrefix(d: nat, p: H256, e: nat, q: H256)
    requires d <= PATH_BITS && e <= PATH_BITS
    ensures KeyOf(d, p) == KeyOf(e, q) <==> Prefix(p, d) == Prefix(q, e)
  {
    hide KeyOf;
    if KeyOf(d, p) == KeyOf(e, q) {
      SameKeySamePrefix(d, p, e, q);
    }
    if Prefix(p, d) == Prefix(q, e) {
      assert d == |Prefix(p, d)| == |Prefix(q, e)| == e;
      SamePrefixSameKey(d, p, q);
    }
  }

  lemma SameKeySameDepth(d: nat, p: H256, e: nat, q: H256)
    requires d <= PATH_BITS && e <= PATH_BITS
    requires KeyOf(d, p) == KeyOf(e, q)
    ensures d == e
  {
    hide KeyOf;
    KeyDepth(d, p);
    KeyDepth(e, q);
  }

  lemma SameKeySameBit(d: nat, p: H256, q: H256, i: nat)
    requires i < d <= PATH_BITS
    requires KeyOf(d, p) == KeyOf(d, q)
    ensures PathBit(p, i) == PathBit(q, i)
  {
    hide KeyOf, ByteBit, MaskByte;
    var j := i / 8;
    KeyBytes(d, p, j);
    KeyBytes(d, q, j);
    if j >= d / 8 {
      assert j == d / 8 && i % 8 < d % 8;
      assert ByteBit(MaskByte(p[j], d % 8), i % 8) == ByteBit(p[j], i % 8);
      assert ByteBit(MaskByte(q[j], d % 8), i % 8) == ByteBit(q[j], i % 8);
    }
  }

  lemma SameKeySamePrefix(d: nat, p: H256, e: nat, q: H256)
    requires d <= PATH_BITS && e <= PATH_BITS
    requires KeyOf(d, p) == KeyOf(e, q)
    ensures Prefix(p, d) == Prefix(q, e)
  {
    hide KeyOf, PathBit;
    SameKeySameDepth(d, p, e, q);
    forall i | 0 <= i < d
      ensures PathBit(p, i) == PathBit(q, i)
    {
      SameKeySameBit(d, p, q, i);
    }
  }

  lemma SamePrefixSameByte(d: nat, p: H256, q: H256, j: nat)
    requires d <= PATH_BITS && j < 32
    requires forall i | 0 <= i < d :: PathBit(p, i) == PathBit(q, i)
    ensures KeyOf(d, p)[2 + j] == KeyOf(d, q)[2 + j]
  {
    hide KeyOf, ByteBit, MaskByte;
    KeyBytes(d, p, j);
    KeyBytes(d, q, j);
    if j < d / 8 {
      forall k | 0 <= k < 8
        ensures ByteBit(p[j], k) == ByteBit(q[j], k)
      {
        assert PathBit(p, 8 * j + k) == PathBit(q, 8 * j + k);
      }
      ByteFromBits(p[j], q[j]);
    } else if j == d / 8 && d % 8 > 0 {
      forall k | 0 <= k < d % 8
        ensures ByteBit(p[j], k) == ByteBit(q[j], k)
      {
        assert PathBit(p, 8 * j + k) == PathBit(q, 8 * j + k);
      }
      ByteFromBits(MaskByte(p[j], d % 8), MaskByte(q[j], d % 8));
    }
  }

  lemma SamePrefixSameKey(d: nat, p: H256, q: H256)
    requires d <= PATH_BITS
    requires Prefix(p, d) == Prefix(q, d)
    ensures KeyOf(d, p) == KeyOf(d, q)
  {
    forall i | 0 <= i < d
      ensures PathBit(p, i) == PathBit(q, i)
    {
      assert Prefix(p, d)[i] == Prefix(q, d)[i];
    }
    forall j | 2 <= j < 34
      ensures KeyOf(d, p)[j] == KeyOf(d, q)[j]
    {
      SamePrefixSameByte(d, p, q, j - 2);
    }
    assert forall j | 0 <= j < 2 :: KeyOf(d, p)[j] == KeyOf(d, q)[j];
  }

  /** Flipping the last bit of a position gives its sibling. */
  lemma SiblingPrefix(path: H256, depth: nat)
    requires 0 < depth <= PATH_BITS
    ensures Prefix(path, depth) == Prefix(path, depth - 1) + [PathBit(path, depth - 1)]
    ensures Prefix(FlipBit(path, depth - 1), depth) == Prefix(path, depth - 1) + [!PathBit(path, depth - 1)]
  {
  }
}
