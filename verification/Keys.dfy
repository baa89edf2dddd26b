/** 256-bit keys as big-endian byte strings (dht/key.go): the bytewise order,
    the numeric order behind `inRange`, and the XOR metric of the DHT. */
module Keys {

  const KEY_LEN: nat := 32

  type Byte = b: int | 0 <= b < 256

  type Key = k: seq<Byte> | |k| == KEY_LEN witness seq(KEY_LEN, _ => 0)

  function Pow2(n: nat): (p: nat)
    ensures p >= 1
  {
    if n == 0 then 1 else 2 * Pow2(n - 1)
  }

  /** The number written by `s` in base 256, most significant byte first
      (`big.Int.SetBytes`). */
  function Value(s: seq<Byte>): nat {
    if s == [] then 0 else 256 * Value(s[..|s| - 1]) + s[|s| - 1]
  }

  function Pow256(n: nat): (p: nat)
    ensures p >= 1
  {
    if n == 0 then 1 else 256 * Pow256(n - 1)
  }

  /** The number of keys: 2^256, see `KeySpaceIsTwoTo256`. */
  function KeySpace(): nat {
    Pow256(KEY_LEN)
  }

  lemma {:induction false} Pow256IsPow2(n: nat)
    ensures Pow256(n) == Pow2(8 * n)
  {
    if n > 0 {
      Pow256IsPow2(n - 1);
      var m := 8 * (n - 1);
      assert Pow2(m + 4) == 2 * 2 * 2 * 2 * Pow2(m) by {
        assert Pow2(m + 2) == 2 * 2 * Pow2(m);
        assert Pow2(m + 4) == 2 * 2 * Pow2(m + 2);
      }
      assert Pow2(m + 8) == 2 * 2 * 2 * 2 * Pow2(m + 4) by {
        assert Pow2(m + 6) == 2 * 2 * Pow2(m + 4);
        assert Pow2(m + 8) == 2 * 2 * Pow2(m + 6);
      }
    }
  }

  lemma KeySpaceIsTwoTo256()
    ensures KeySpace() == Pow2(256)
  {
    Pow256IsPow2(KEY_LEN);
  }

  lemma {:induction false} ValueBound(s: seq<Byte>)
    ensures Value(s) < Pow256(|s|)
  {
    if s != [] {
      ValueBound(s[..|s| - 1]);
    }
  }

  /** The same number read from the most significant end. */
  lemma {:induction false} ValueHead(s: seq<Byte>)
    requires s != []
    ensures Value(s) == s[0] * Pow256(|s| - 1) + Value(s[1..])
  {
    if |s| == 1 {
      assert s[..0] == [] && s[1..] == [];
    } else {
      var front := s[..|s| - 1];
      ValueHead(front);
      assert s[1..][..|s| - 2] == front[1..];
      assert s[1..][|s| - 2] == s[|s| - 1];
      assert Value(s[1..]) == 256 * Value(front[1..]) + s[|s| - 1];
      calc {
        Value(s);
        256 * (s[0] * Pow256(|s| - 2) + Value(front[1..])) + s[|s| - 1];
        256 * (s[0] * Pow256(|s| - 2)) + Value(s[1..]);
        { MulAssoc(256, s[0], Pow256(|s| - 2)); }
        s[0] * Pow256(|s| - 1) + Value(s[1..]);
      }
    }
  }

  lemma MulAssoc(a: int, b: int, c: int)
    ensures a * (b * c) == b * (a * c)
  {
  }

  /** A common first byte leaves the comparison to the rest; a smaller first
      byte decides it. */
  lemma ValueHeadOrder(s: seq<Byte>, t: seq<Byte>)
    requires |s| == |t| > 0
    ensures s[0] == t[0] ==> Value(s) - Value(t) == Value(s[1..]) - Value(t[1..])
    ensures s[0] < t[0] ==> Value(s) < Value(t)
  {
    ValueHead(s);
    ValueHead(t);
    ValueBound(s[1..]);
    ValueBound(t[1..]);
    if s[0] < t[0] {
      MulMono(s[0] + 1, t[0], Pow256(|s| - 1));
    }
  }

  lemma MulMono(a: int, b: int, p: nat)
    requires a <= b
    ensures a * p <= b * p
  {
  }

  lemma Distribute(a: int, b: int, c: int)
    ensures (a + b) * c == a * c + b * c
  {
  }

  lemma DivUnique(x: nat, m: nat, q: nat, rest: nat)
    requires m > 0 && x == q * m + rest && rest < m
    ensures x / m == q
  {
    var p := x / m;
    if p < q {
      MulMono(p + 1, q, m);
    } else if p > q {
      MulMono(q + 1, p, m);
    }
  }

  lemma DivDiv(x: nat, c: nat, d: nat)
    requires c > 0 && d > 0
    ensures c * d > 0 && x / (c * d) == x / c / d
  {
    var y := x / c;
    var q, e, f := y / d, y % d, x % c;
    assert x == y * c + f && y == q * d + e;
    Distribute(q * d, e, c);
    assert q * d * c == q * (c * d);
    MulMono(e + 1, d, c);
    Distribute(e, 1, c);
    DivUnique(x, c * d, q, e * c + f);
  }

  lemma {:induction false} ValueInjective(s: seq<Byte>, t: seq<Byte>)
    requires |s| == |t| && Value(s) == Value(t)
    ensures s == t
  {
    if s != [] {
      ValueInjective(s[..|s| - 1], t[..|t| - 1]);
      assert s == s[..|s| - 1] + [s[|s| - 1]];
      assert t == t[..|t| - 1] + [t[|t| - 1]];
    }
  }

  // ----- cmp

  /** Bytewise comparison is comparison of the numbers the keys write, so
      `cmp` and the big-integer range tests of the routing table agree. */
  method Cmp(k: Key, v: Key) returns (r: int)
    ensures r == -1 <==> Value(k) < Value(v)
    ensures r == 1 <==> Value(k) > Value(v)
    ensures r == 0 <==> k == v
    ensures r in {-1, 0, 1}
  {
    var i := 0;
    while i < KEY_LEN
      invariant 0 <= i <= KEY_LEN
      invariant k[..i] == v[..i]
      invariant Value(k) - Value(v) == Value(k[i..]) - Value(v[i..])
    {
      ValueHeadOrder(k[i..], v[i..]);
      ValueHeadOrder(v[i..], k[i..]);
      assert k[i..][1..] == k[i + 1..] && v[i..][1..] == v[i + 1..];
      if k[i] < v[i] {
        return -1;
      } else if k[i] > v[i] {
        return 1;
      }
      assert k[..i + 1] == k[..i] + [k[i]];
      assert v[..i + 1] == v[..i] + [v[i]];
      i := i + 1;
    }
    assert k[..KEY_LEN] == k && v[..KEY_LEN] == v;
    return 0;
  }

  // ----- conversion from big integers

  /** Minimal big-endian bytes of `n` (`big.Int.Bytes`). */
  function Bytes(n: nat): (b: seq<Byte>)
    ensures Value(b) == n
  {
    if n == 0 then [] else Bytes(n / 256) + [n % 256]
  }

  lemma {:induction false} BytesLength(n: nat, len: nat)
    ensures |Bytes(n)| <= len <==> n < Pow256(len)
  {
    if n > 0 && len > 0 {
      BytesLength(n / 256, len - 1);
    }
  }

  lemma {:induction false} ValueOfPadded(pad: nat, b: seq<Byte>)
    ensures Value(seq(pad, _ => 0) + b) == Value(b)
  {
    var s := seq(pad, _ => 0) + b;
    if b == [] {
      if pad > 0 {
        assert s[..|s| - 1] == seq(pad - 1, _ => 0) + b;
        ValueOfPadded(pad - 1, b);
      }
    } else {
      assert s[..|s| - 1] == seq(pad, _ => 0) + b[..|b| - 1];
      ValueOfPadded(pad, b[..|b| - 1]);
    }
  }

  /** The key holding `n`. For `n` of more than 32 bytes the source slices with
      a negative bound and panics; by `BytesLength` that is `n >= KeySpace()`. */
  function FromBigInt(n: nat): (k: Key)
    requires n < KeySpace()
    ensures Value(k) == n
  {
    PaddedBytes(n, KEY_LEN);
    seq(KEY_LEN - |Bytes(n)|, _ => 0) + Bytes(n)
  }

  lemma PaddedBytes(n: nat, len: nat)
    requires n < Pow256(len)
    ensures |Bytes(n)| <= len && Value(seq(len - |Bytes(n)|, _ => 0) + Bytes(n)) == n
  {
    hide Pow256;
    BytesLength(n, len);
    ValueOfPadded(len - |Bytes(n)|, Bytes(n));
  }

  lemma FromBigIntInverts(k: Key)
    ensures Value(k) < KeySpace()
    ensures FromBigInt(Value(k)) == k
  {
    ValueBound(k);
    ValueInjective(FromBigInt(Value(k)), k);
  }

  function LowByte(n: nat, len: nat, i: nat): Byte
    requires i < len
  {
    n / Pow256(len - 1 - i) % 256
  }

  /** The `len` low bytes of `n`, most significant first (`BigEndian.PutUint64`). */
  function LowBytes(n: nat, len: nat): (b: seq<Byte>)
    ensures |b| == len
    ensures forall i :: 0 <= i < len ==> b[i] == LowByte(n, len, i)
  {
    seq(len, i requires 0 <= i < len => LowByte(n, len, i))
  }

  lemma LowByteShift(n: nat, len: nat, i: nat)
    requires i + 1 < len
    ensures LowByte(n, len, i) == LowByte(n / 256, len - 1, i)
  {
    DivDiv(n, 256, Pow256(len - 2 - i));
  }

  lemma {:induction false} LowBytesValue(n: nat, len: nat)
    requires n < Pow256(len)
    ensures Value(LowBytes(n, len)) == n
  {
    if len > 0 {
      var b := LowBytes(n, len);
      LowBytesValue(n / 256, len - 1);
      forall i | 0 <= i < len - 1
        ensures b[i] == LowByte(n / 256, len - 1, i)
      {
        LowByteShift(n, len, i);
      }
      assert b[len - 1] == n % 256;
      hide Pow256, LowBytes, LowByte;
      assert b[..len - 1] == LowBytes(n / 256, len - 1);
    }
  }

  function ParseUint64(n: nat): Key
    requires n < Pow256(8)
  {
    seq(KEY_LEN - 8, _ => 0) + LowBytes(n, 8)
  }

  /** The eight bytes land at the low end: the key is the number. */
  lemma ParseUint64IsNumber(n: nat)
    requires n < Pow256(8)
    ensures Value(ParseUint64(n)) == n && n < KeySpace() && ParseUint64(n) == FromBigInt(n)
  {
    LowBytesValue(n, 8);
    ValueOfPadded(KEY_LEN - 8, LowBytes(n, 8));
    ValueBound(ParseUint64(n));
    ValueInjective(ParseUint64(n), FromBigInt(n));
  }

  // ----- xor

  /** Bitwise exclusive or of the `n` low bits. */
  function XorBits(x: nat, y: nat, n: nat): nat {
    if n == 0 then 0
    else 2 * XorBits(x / 2, y / 2, n - 1) + (if x % 2 == y % 2 then 0 else 1)
  }

  lemma {:induction false} XorBitsMetric(x: nat, y: nat, z: nat, n: nat)
    ensures XorBits(x, y, n) < Pow2(n)
    ensures XorBits(x, y, n) == XorBits(y, x, n)
    ensures XorBits(x, z, n) <= XorBits(x, y, n) + XorBits(y, z, n)
  {
    if n > 0 {
      XorBitsMetric(x / 2, y / 2, z / 2, n - 1);
    }
  }

  lemma {:induction false} XorBitsCancel(x: nat, y: nat, n: nat)
    requires y < Pow2(n)
    ensures XorBits(x, XorBits(x, y, n), n) == y
  {
    if n > 0 {
      XorBitsCancel(x / 2, y / 2, n - 1);
    }
  }

  lemma {:induction false} XorBitsSelf(x: nat, n: nat)
    ensures XorBits(x, x, n) == 0
  {
    if n > 0 {
      XorBitsSelf(x / 2, n - 1);
    }
  }

  lemma Pow2Of8()
    ensures Pow2(8) == 256
  {
    assert Pow2(4) == 16;
    assert Pow2(8) == 2 * 2 * 2 * 2 * Pow2(4) by {
      assert Pow2(6) == 4 * Pow2(4);
    }
  }

  function XorByte(x: Byte, y: Byte): (r: Byte) {
    Pow2Of8();
    XorBitsMetric(x, y, 0, 8);
    XorBits(x, y, 8)
  }

  function XorSeq(k: seq<Byte>, v: seq<Byte>): (r: seq<Byte>)
    requires |k| == |v|
    ensures |r| == |k|
    ensures forall i :: 0 <= i < |k| ==> r[i] == XorByte(k[i], v[i])
  {
    seq(|k|, i requires 0 <= i < |k| => XorByte(k[i], v[i]))
  }

  method Xor(k: Key, v: Key) returns (r: Key)
    ensures r == XorSeq(k, v)
  {
    var s: seq<Byte> := [];
    for i := 0 to KEY_LEN
      invariant |s| == i
      invariant forall j :: 0 <= j < i ==> s[j] == XorByte(k[j], v[j])
    {
      s := s + [XorByte(k[i], v[i])];
    }
    r := s;
  }

  /** XOR distance between two keys, as the number `cmp` compares. */
  function Dist(a: Key, b: Key): nat {
    Value(XorSeq(a, b))
  }

  lemma {:induction false} ValueTriangle(x: seq<Byte>, y: seq<Byte>, z: seq<Byte>)
    requires |x| == |y| == |z|
    requires forall i :: 0 <= i < |x| ==> x[i] as int <= y[i] as int + z[i] as int
    ensures Value(x) <= Value(y) + Value(z)
  {
    if x != [] {
      ValueTriangle(x[..|x| - 1], y[..|y| - 1], z[..|z| - 1]);
    }
  }

  lemma XorSeqCancel(a: seq<Byte>, b: seq<Byte>)
    requires |a| == |b|
    ensures XorSeq(a, XorSeq(a, b)) == b
  {
    forall i | 0 <= i < |a|
      ensures XorByte(a[i], XorByte(a[i], b[i])) == b[i]
    {
      Pow2Of8();
      XorBitsCancel(a[i], b[i], 8);
    }
  }

  /** Two keys at the same distance from a third are the same key. */
  lemma DistInjective(t: Key, a: Key, b: Key)
    ensures Dist(t, a) == Dist(t, b) <==> a == b
  {
    if Dist(t, a) == Dist(t, b) {
      ValueInjective(XorSeq(t, a), XorSeq(t, b));
      XorSeqCancel(t, a);
      XorSeqCancel(t, b);
    }
  }

  lemma ValueZero(n: nat)
    ensures Value(seq(n, _ => 0)) == 0
  {
    assert seq(n, _ => 0) == seq(n, _ => 0) + [];
    ValueOfPadded(n, []);
  }

  /** XOR distance is a metric on keys. */
  lemma DistMetric(a: Key, b: Key, c: Key)
    ensures Dist(a, b) == 0 <==> a == b
    ensures Dist(a, b) == Dist(b, a)
    ensures Dist(a, c) <= Dist(a, b) + Dist(b, c)
  {
    forall i | 0 <= i < KEY_LEN
      ensures XorByte(a[i], b[i]) == XorByte(b[i], a[i])
      ensures XorByte(a[i], c[i]) as int <= XorByte(a[i], b[i]) as int + XorByte(b[i], c[i]) as int
      ensures XorByte(a[i], a[i]) == 0
    {
      XorBitsMetric(a[i], b[i], c[i], 8);
      XorBitsSelf(a[i], 8);
    }
    assert XorSeq(a, b) == XorSeq(b, a);
    ValueTriangle(XorSeq(a, c), XorSeq(a, b), XorSeq(b, c));
    assert XorSeq(a, a) == seq(KEY_LEN, _ => 0);
    ValueZero(KEY_LEN);
    DistInjective(a, a, b);
  }

  /** Around every key there is exactly one key at each distance below 2^256. */
  lemma ExactlyOneKeyAtEachDistance(a: Key, d: nat)
    ensures d < KeySpace() <==> exists b: Key :: Dist(a, b) == d
    ensures forall b: Key, c: Key :: Dist(a, b) == d && Dist(a, c) == d ==> b == c
  {
    if d < KeySpace() {
      var k := FromBigInt(d);
      var b: Key := XorSeq(a, k);
      XorSeqCancel(a, k);
      assert Dist(a, b) == d;
    }
    forall b: Key | Dist(a, b) == d
      ensures d < KeySpace()
    {
      ValueBound(XorSeq(a, b));
    }
    forall b: Key, c: Key | Dist(a, b) == d && Dist(a, c) == d
      ensures b == c
    {
      DistInjective(a, b, c);
    }
  }
}
