/** The distance between node identifiers and the bucket index taken from it. */
module XorDistance {
  type Bits = seq<bool>

  const ID_BYTES := 32

  function Mask(i: nat): bv8
    requires i < 8
  {
    match i
    case 0 => 0x80
    case 1 => 0x40
    case 2 => 0x20
    case 3 => 0x10
    case 4 => 0x08
    case 5 => 0x04
    case 6 => 0x02
    case 7 => 0x01
  }

  predicate Bit(b: bv8, i: nat)
    requires i < 8
  {
    b & Mask(i) != 0
  }

  /** The bits of a byte, most significant first. */
  function ByteBits(b: bv8): (r: Bits)
    ensures |r| == 8 && forall i :: 0 <= i < 8 ==> r[i] == Bit(b, i)
  {
    [Bit(b, 0), Bit(b, 1), Bit(b, 2), Bit(b, 3), Bit(b, 4), Bit(b, 5), Bit(b, 6), Bit(b, 7)]
  }

  function BitsOf(id: seq<bv8>): (r: Bits)
    ensures |r| == 8 * |id|
  {
    if id == [] then [] else ByteBits(id[0]) + BitsOf(id[1..])
  }

  // ---- Meanings on bits ----

  function Xor(x: Bits, y: Bits): (r: Bits)
    requires |x| == |y|
    ensures |r| == |x| && forall i :: 0 <= i < |r| ==> r[i] == (x[i] != y[i])
  {
    if x == [] then [] else [x[0] != y[0]] + Xor(x[1..], y[1..])
  }

  /** How many leading bits two identifiers share. */
  function Shared(x: Bits, y: Bits): (n: nat)
    requires |x| == |y|
    ensures n <= |x| && x[..n] == y[..n] && (n < |x| ==> x[n] != y[n])
  {
    if x == [] || x[0] != y[0] then 0
    else
      var n := Shared(x[1..], y[1..]);
      assert x[..n + 1] == [x[0]] + x[1..][..n] && y[..n + 1] == [y[0]] + y[1..][..n];
      n + 1
  }

  function Pow2(n: nat): (r: nat)
    ensures r > 0
  {
    if n == 0 then 1 else 2 * Pow2(n - 1)
  }

  /** A big-endian number. */
  function Value(x: Bits): nat {
    if x == [] then 0 else (if x[0] then Pow2(|x| - 1) else 0) + Value(x[1..])
  }

  function Leading(x: Bits): (n: nat)
    ensures n <= |x|
  {
    if x == [] || x[0] then 0 else 1 + Leading(x[1..])
  }

  // ---- Bytes and bits ----

  lemma {:induction false} BitXor(a: bv8, b: bv8, i: nat)
    requires i < 8
    ensures Bit(a ^ b, i) == (Bit(a, i) != Bit(b, i))
  {
    OneBit(a, i);
    OneBit(b, i);
    MaskXor(a, b, Mask(i));
    hide Mask;
    var m, p, q := Mask(i), a & Mask(i), b & Mask(i);
    assert p ^ q == if p == 0 then q else if q == 0 then p else 0;
  }

  lemma {:induction false} OneBit(x: bv8, i: nat)
    requires i < 8
    ensures x & Mask(i) == 0 || x & Mask(i) == Mask(i)
  {
  }

  lemma {:induction false} MaskXor(a: bv8, b: bv8, m: bv8)
    ensures (a ^ b) & m == (a & m) ^ (b & m)
  {
  }

  lemma {:induction false} ByteXor(a: bv8, b: bv8)
    ensures ByteBits(a ^ b) == Xor(ByteBits(a), ByteBits(b))
  {
    hide Xor, Bit, ByteBits;
    forall i | 0 <= i < 8 ensures ByteBits(a ^ b)[i] == Xor(ByteBits(a), ByteBits(b))[i] { BitXor(a, b, i); }
  }

  lemma {:induction false} XorAppend(x: Bits, x': Bits, y: Bits, y': Bits)
    requires |x| == |y| && |x'| == |y'|
    ensures Xor(x + x', y + y') == Xor(x, y) + Xor(x', y')
  {
  }

  predicate IsXor(d: seq<bv8>, a: seq<bv8>, b: seq<bv8>) {
    |d| == |a| == |b| && forall i :: 0 <= i < |d| ==> d[i] == a[i] ^ b[i]
  }

  lemma {:induction false} BitsXor(d: seq<bv8>, a: seq<bv8>, b: seq<bv8>)
    requires IsXor(d, a, b)
    ensures BitsOf(d) == Xor(BitsOf(a), BitsOf(b))
    decreases |d|
  {
    hide ByteBits, Xor;
    if d != [] {
      BitsXor(d[1..], a[1..], b[1..]);
      ByteXor(a[0], b[0]);
      XorAppend(ByteBits(a[0]), BitsOf(a[1..]), ByteBits(b[0]), BitsOf(b[1..]));
    }
  }

  lemma {:induction false} LeadingXor(x: Bits, y: Bits)
    requires |x| == |y|
    ensures Leading(Xor(x, y)) == Shared(x, y)
  {
    if x != [] {
      assert Xor(x, y)[1..] == Xor(x[1..], y[1..]);
      LeadingXor(x[1..], y[1..]);
    }
  }

  lemma {:induction false} LeadingAt(x: Bits, k: nat)
    requires k <= |x| && (forall i :: 0 <= i < k ==> !x[i]) && (k < |x| ==> x[k])
    ensures Leading(x) == k
    decreases k
  {
    if k > 0 { LeadingAt(x[1..], k - 1); }
  }

  /** The number of leading zero bits of a byte. */
  function LeadingZeros8(b: bv8): (n: nat)
    ensures n <= 8 && (n == 8 <==> b == 0)
    ensures (forall i :: 0 <= i < n ==> !Bit(b, i)) && (n < 8 ==> Bit(b, n))
  {
    if Bit(b, 0) then 0 else if Bit(b, 1) then 1 else if Bit(b, 2) then 2 else if Bit(b, 3) then 3
    else if Bit(b, 4) then 4 else if Bit(b, 5) then 5 else if Bit(b, 6) then 6 else if Bit(b, 7) then 7 else 8
  }

  lemma {:induction false} BitsAt(id: seq<bv8>, i: nat, j: nat)
    requires i < |id| && j < 8
    ensures BitsOf(id)[8 * i + j] == ByteBits(id[i])[j]
    decreases i
  {
    if i > 0 { BitsAt(id[1..], i - 1, j); }
  }

  // ---- The two functions of the source ----

  method XorBytes(a: seq<bv8>, b: seq<bv8>) returns (d: array<bv8>)
    requires |a| == |b| == ID_BYTES
    ensures fresh(d) && d.Length == ID_BYTES && IsXor(d[..], a, b)
  {
    d := new bv8[ID_BYTES](_ => 0);
    for i := 0 to ID_BYTES
      invariant forall j :: 0 <= j < i ==> d[j] == a[j] ^ b[j]
    {
      d[i] := a[i] ^ b[i];
    }
  }

  /** The bucket index is the exact length of the prefix that the two identifiers share. */
  method LeadingZeros(a: seq<bv8>, b: seq<bv8>) returns (zeros: nat)
    requires |a| == |b| == ID_BYTES
    ensures zeros == Shared(BitsOf(a), BitsOf(b))
  {
    hide Shared, Bit, ByteBits, BitsOf, Leading, Xor;
    var dist := XorBytes(a, b);
    ghost var d := dist[..];
    BitsXor(d, a, b);
    LeadingXor(BitsOf(a), BitsOf(b));
    zeros := 0;
    for i := 0 to ID_BYTES
      invariant zeros == 8 * i && dist[..] == d
      invariant forall k :: 0 <= k < 8 * i ==> !BitsOf(d)[k]
    {
      if dist[i] == 0 {
        assert LeadingZeros8(d[i]) == 8;
        forall k | 8 * i <= k < 8 * i + 8 ensures !BitsOf(d)[k] { BitsAt(d, i, k - 8 * i); }
        zeros := zeros + 8;
      } else {
        var n := LeadingZeros8(dist[i]);
        forall k | 8 * i <= k < 8 * i + n ensures !BitsOf(d)[k] { BitsAt(d, i, k - 8 * i); }
        BitsAt(d, i, n);
        LeadingAt(BitsOf(d), 8 * i + n);
        return zeros + n;
      }
    }
    LeadingAt(BitsOf(d), 8 * ID_BYTES);
  }

  // ---- The geometry ----

  /** Two identifiers that both share a prefix with a third share it with each other. */
  lemma {:induction false} SharedUltrametric(x: Bits, y: Bits, z: Bits)
    requires |x| == |y| == |z|
    ensures Shared(x, z) >= Shared(x, y) || Shared(x, z) >= Shared(y, z)
  {
    var m := if Shared(x, y) < Shared(y, z) then Shared(x, y) else Shared(y, z);
    assert x[..m] == x[..Shared(x, y)][..m] && y[..m] == y[..Shared(x, y)][..m];
    assert y[..m] == y[..Shared(y, z)][..m] && z[..m] == z[..Shared(y, z)][..m];
    forall i | 0 <= i < m ensures x[i] == z[i] { assert x[..m][i] == z[..m][i]; }
  }

  /** A distance with n leading zero bits lies between two powers of two. */
  lemma {:induction false} ValueBounds(x: Bits)
    ensures Value(x) < Pow2(|x| - Leading(x))
    ensures Leading(x) < |x| ==> Value(x) >= Pow2(|x| - Leading(x) - 1)
  {
    if x != [] {
      ValueBounds(x[1..]);
      if x[0] { PowMonotone(|x[1..]| - Leading(x[1..]), |x| - 1); }
    }
  }

  lemma {:induction false} PowMonotone(m: nat, n: nat)
    requires m <= n
    ensures Pow2(m) <= Pow2(n)
  {
    if m < n { PowMonotone(m, n - 1); }
  }

  function Distance(x: Bits, y: Bits): nat
    requires |x| == |y|
  {
    Value(Xor(x, y))
  }

  /** A longer shared prefix is a strictly smaller distance. */
  lemma {:induction false} CloserIsSmaller(x: Bits, y: Bits, z: Bits)
    requires |x| == |y| == |z| && Shared(x, y) > Shared(x, z)
    ensures Distance(x, y) < Distance(x, z)
  {
    hide Xor, Value, Leading, Shared, Pow2;
    LeadingXor(x, y);
    LeadingXor(x, z);
    ValueBounds(Xor(x, y));
    ValueBounds(Xor(x, z));
    PowMonotone(|x| - Shared(x, y), |x| - Shared(x, z) - 1);
  }

  lemma {:induction false} ValueXor(x: Bits, y: Bits)
    requires |x| == |y|
    ensures Value(Xor(x, y)) <= Value(x) + Value(y)
  {
    if x != [] {
      assert Xor(x, y)[1..] == Xor(x[1..], y[1..]);
      ValueXor(x[1..], y[1..]);
    }
  }

  lemma {:induction false} XorChain(x: Bits, y: Bits, z: Bits)
    requires |x| == |y| == |z|
    ensures Xor(x, z) == Xor(Xor(x, y), Xor(y, z))
  {
  }

  /** Distances read as numbers obey the triangle inequality, and only equal identifiers are at distance zero. */
  lemma {:induction false} TriangleInequality(x: Bits, y: Bits, z: Bits)
    requires |x| == |y| == |z|
    ensures Distance(x, z) <= Distance(x, y) + Distance(y, z)
    ensures Distance(x, y) == Distance(y, x) && (Distance(x, y) == 0 <==> x == y)
  {
    XorChain(x, y, z);
    ValueXor(Xor(x, y), Xor(y, z));
    assert Xor(x, y) == Xor(y, x);
    LeadingXor(x, y);
    ValueBounds(Xor(x, y));
    assert Pow2(0) == 1;
    if x == y { assert Shared(x, y) == |x|; }
    if Shared(x, y) == |x| { assert x[..|x|] == x && y[..|x|] == y; }
  }
}
