/** Bytes of a host file and big-endian fields inside it. */
module Bytes {

  type byte = b: int | 0 <= b < 256

  const SECTOR := 512

  datatype Option<+T> = None | Some(value: T)

  function Zeros(n: nat): (s: seq<byte>)
    ensures |s| == n
    ensures forall k :: 0 <= k < n ==> s[k] == 0
  {
    seq(n, _ => 0)
  }

  function Min(a: int, b: int): int { if a < b then a else b }

  function Max(a: int, b: int): int { if a > b then a else b }

  predicate NoDuplicates(s: seq<nat>)
  {
    forall i, j :: 0 <= i < j < |s| ==> s[i] != s[j]
  }

  /** Smallest multiple of `unit` that is at least `n`. */
  function RoundUp(n: nat, unit: nat): (r: nat)
    requires unit > 0
    ensures n <= r < n + unit
    ensures r % unit == 0
  {
    RoundUpIsMultiple(n, unit);
    if n % unit == 0 then n else n - n % unit + unit
  }

  lemma RoundUpIsMultiple(n: nat, unit: nat)
    requires unit > 0
    ensures (n - n % unit + unit) % unit == 0
  {
    var q := n / unit;
    assert n == q * unit + n % unit;
    DivModUnique(n - n % unit + unit, unit, q + 1, 0);
  }

  lemma MultipleMod(q: nat, unit: nat)
    requires unit > 0
    ensures (q * unit) % unit == 0 && (q * unit) / unit == q
  {
    DivModUnique(q * unit, unit, q, 0);
  }

  /** Quotient and remainder are determined by the division equation. */
  lemma DivModUnique(n: int, d: int, q: int, r: int)
    requires d > 0 && 0 <= r < d && n == q * d + r
    ensures n / d == q && n % d == r
  {
    var q', r' := n / d, n % d;
    assert n == q' * d + r';
    assert (q' - q) * d == r - r';
    if q' > q {
      ProductAtLeast(q' - q, d);
    } else if q' < q {
      assert (q - q') * d == r' - r;
      ProductAtLeast(q - q', d);
    }
  }

  lemma ProductAtLeast(k: int, d: int)
    requires k >= 1 && d >= 0
    ensures k * d >= d
  {
    assert k * d == (k - 1) * d + d;
  }

  lemma Distribute(a: nat, b: nat, c: nat)
    ensures (a + b) * c == a * c + b * c
  {
  }

  lemma MulMonotone(a: nat, b: nat, c: nat)
    requires a <= b
    ensures a * c <= b * c
  {
    assert b * c == a * c + (b - a) * c;
  }

  lemma QuotientBound(k: nat, d: nat, l: nat)
    requires d > 0 && k < l * d
    ensures k / d < l
  {
    var q := k / d;
    assert k == q * d + k % d;
    if q >= l {
      MulMonotone(l, q, d);
    }
  }

  lemma QuotientMonotone(a: nat, b: nat, c: nat)
    requires c > 0 && a <= b
    ensures a / c <= b / c
  {
    var y := b / c;
    assert b == y * c + b % c;
    Distribute(y, 1, c);
    QuotientBound(a, c, y + 1);
  }

  /** Contents after `data` is stored at `off`; a gap before it reads as zeroes. */
  function Store(f: seq<byte>, off: nat, data: seq<byte>): (r: seq<byte>)
    ensures |r| == Max(|f|, off + |data|)
    ensures forall k :: 0 <= k < |r| ==>
              r[k] == if off <= k < off + |data| then data[k - off] else if k < |f| then f[k] else 0
  {
    seq(Max(|f|, off + |data|),
        k requires 0 <= k < Max(|f|, off + |data|) =>
          if off <= k < off + |data| then data[k - off] else if k < |f| then f[k] else 0)
  }

  /** The file extended with zeroes to whole sectors, as every host length is reported. */
  function PadSector(f: seq<byte>): (r: seq<byte>)
    ensures |r| == RoundUp(|f|, SECTOR)
    ensures forall k :: 0 <= k < |r| ==> r[k] == if k < |f| then f[k] else 0
  {
    f + Zeros(RoundUp(|f|, SECTOR) - |f|)
  }

  /** A write through the block layer: byte exact, the file grows by whole sectors. */
  function HostWrite(f: seq<byte>, off: nat, data: seq<byte>): (r: seq<byte>)
  {
    PadSector(Store(f, off, data))
  }

  /** Two files agree on `n` bytes from `a`, and both hold them. */
  ghost predicate SameOn(f: seq<byte>, f': seq<byte>, a: nat, n: nat)
  {
    a + n <= |f| && a + n <= |f'| && f[a..a + n] == f'[a..a + n]
  }

  lemma SliceOfSlice(f: seq<byte>, a: nat, n: nat, b: nat, m: nat)
    requires a + n <= |f| && b + m <= n
    ensures f[a..a + n][b..b + m] == f[a + b..a + b + m]
  {
    var l, r := f[a..a + n][b..b + m], f[a + b..a + b + m];
    assert |l| == |r|;
    assert forall k :: 0 <= k < m ==> l[k] == r[k];
  }

  lemma SameOnPart(f: seq<byte>, f': seq<byte>, a: nat, n: nat, b: nat, m: nat)
    requires SameOn(f, f', a, n) && a <= b && b + m <= a + n
    ensures SameOn(f, f', b, m)
  {
    forall k | b <= k < b + m
      ensures f[k] == f'[k]
    {
      assert f[a..a + n][k - a] == f'[a..a + n][k - a];
    }
  }

  lemma SameOnTrans(f: seq<byte>, f': seq<byte>, f'': seq<byte>, a: nat, n: nat)
    requires SameOn(f, f', a, n) && SameOn(f', f'', a, n)
    ensures SameOn(f, f'', a, n)
  {
  }

  /** A host write touches nothing outside its own range. */
  lemma HostWriteFrame(f: seq<byte>, off: nat, data: seq<byte>, a: nat, n: nat)
    requires a + n <= |f|
    requires a + n <= off || off + |data| <= a
    ensures SameOn(f, HostWrite(f, off, data), a, n)
  {
  }

  lemma HostWriteData(f: seq<byte>, off: nat, data: seq<byte>)
    ensures var r := HostWrite(f, off, data);
            off + |data| <= |r| && r[off..off + |data|] == data
  {
  }

  lemma HostWriteLength(f: seq<byte>, off: nat, data: seq<byte>)
    requires |f| % SECTOR == 0
    ensures |HostWrite(f, off, data)| % SECTOR == 0
    ensures |f| <= |HostWrite(f, off, data)| < Max(|f|, off + |data|) + SECTOR
    ensures off + |data| <= |f| ==> |HostWrite(f, off, data)| == |f|
  {
  }

  function Pow2(n: nat): (p: nat)
    ensures p > 0
  {
    if n == 0 then 1 else 2 * Pow2(n - 1)
  }

  lemma {:induction false} Pow2Add(a: nat, b: nat)
    ensures Pow2(a + b) == Pow2(a) * Pow2(b)
  {
    if b > 0 {
      Pow2Add(a, b - 1);
      assert Pow2(a + b) == 2 * Pow2(a + (b - 1));
      assert Pow2(a) * Pow2(b) == Pow2(a) * (2 * Pow2(b - 1)) == 2 * (Pow2(a) * Pow2(b - 1));
    }
  }

  /** Big-endian encoding of the low `n` bytes of `x`. */
  function ToBE(n: nat, x: nat): (s: seq<byte>)
    ensures |s| == n
  {
    if n == 0 then [] else ToBE(n - 1, x / 256) + [x % 256]
  }

  function FromBE(s: seq<byte>): nat
  {
    if |s| == 0 then 0 else FromBE(s[..|s| - 1]) * 256 + s[|s| - 1]
  }

  function Pow256(n: nat): nat
  {
    if n == 0 then 1 else 256 * Pow256(n - 1)
  }

  lemma {:induction false} BigEndianRoundTrip(n: nat, x: nat)
    requires x < Pow256(n)
    ensures FromBE(ToBE(n, x)) == x
  {
    if n > 0 {
      BigEndianRoundTrip(n - 1, x / 256);
      assert ToBE(n, x)[..n - 1] == ToBE(n - 1, x / 256);
    }
  }

  lemma {:induction false} FromBEZeros(n: nat)
    ensures FromBE(Zeros(n)) == 0
  {
    if n > 0 {
      FromBEZeros(n - 1);
      assert Zeros(n)[..n - 1] == Zeros(n - 1);
    }
  }

  /** The 64-bit big-endian word at `off`. */
  function Word(f: seq<byte>, off: nat): nat
    requires off + 8 <= |f|
  {
    FromBE(f[off..off + 8])
  }

  const TWO63: nat := 0x8000_0000_0000_0000
  const TWO64: nat := 0x1_0000_0000_0000_0000

  lemma WordRoundTrip(f: seq<byte>, off: nat, x: nat)
    requires x < TWO64
    ensures var r := HostWrite(f, off, ToBE(8, x)); off + 8 <= |r| && Word(r, off) == x
  {
    HostWriteData(f, off, ToBE(8, x));
    assert Pow256(8) == TWO64;
    BigEndianRoundTrip(8, x);
  }

  // ----- packed records of big-endian fields -----

  function RecordSize(widths: seq<nat>): nat
  {
    if |widths| == 0 then 0 else widths[0] + RecordSize(widths[1..])
  }

  function EncodeRecord(widths: seq<nat>, values: seq<nat>): (s: seq<byte>)
    requires |widths| == |values|
    ensures |s| == RecordSize(widths)
  {
    if |widths| == 0 then [] else ToBE(widths[0], values[0]) + EncodeRecord(widths[1..], values[1..])
  }

  function DecodeRecord(widths: seq<nat>, s: seq<byte>): (r: seq<nat>)
    requires RecordSize(widths) <= |s|
    ensures |r| == |widths|
  {
    if |widths| == 0 then [] else [FromBE(s[..widths[0]])] + DecodeRecord(widths[1..], s[widths[0]..])
  }

  predicate FieldsFit(widths: seq<nat>, values: seq<nat>)
  {
    |widths| == |values| && forall i :: 0 <= i < |widths| ==> values[i] < Pow256(widths[i])
  }

  lemma {:induction false} RecordRoundTrip(widths: seq<nat>, values: seq<nat>, rest: seq<byte>)
    requires FieldsFit(widths, values)
    ensures DecodeRecord(widths, EncodeRecord(widths, values) + rest) == values
  {
    if |widths| > 0 {
      var head, tail := ToBE(widths[0], values[0]), EncodeRecord(widths[1..], values[1..]);
      var s := EncodeRecord(widths, values) + rest;
      assert s[..widths[0]] == head;
      assert s[widths[0]..] == tail + rest;
      BigEndianRoundTrip(widths[0], values[0]);
      RecordRoundTrip(widths[1..], values[1..], rest);
    }
  }

  /** Field `i` of a record lies behind the fields before it. */
  lemma {:induction false} FieldAt(widths: seq<nat>, s: seq<byte>, i: nat, at: nat)
    requires RecordSize(widths) <= |s| && i < |widths| && at == RecordSize(widths[..i])
    ensures FieldIs(widths, s, i, at) == true
    decreases i
  {
    if i > 0 {
      SizeOfFirst(widths, i);
      FieldAt(widths[1..], s[widths[0]..], i - 1, at - widths[0]);
      FieldStep(widths, s, widths[1..], s[widths[0]..], i, at);
    } else {
      FirstField(widths, s);
    }
  }

  function NumberAt(s: seq<byte>, at: nat, n: nat): nat
    requires at + n <= |s|
  {
    FromBE(s[at..at + n])
  }

  /** Field `i` is the number in the bytes from `at` on. */
  predicate FieldIs(widths: seq<nat>, s: seq<byte>, i: nat, at: nat)
    requires RecordSize(widths) <= |s| && i < |widths|
  {
    at + widths[i] <= RecordSize(widths) && DecodeRecord(widths, s)[i] == NumberAt(s, at, widths[i])
  }

  lemma FieldStep(widths: seq<nat>, s: seq<byte>, more: seq<nat>, rest: seq<byte>, i: nat, at: nat)
    requires RecordSize(widths) <= |s| && 0 < i < |widths| && more == widths[1..] && rest == s[widths[0]..]
    requires widths[0] <= at && FieldIs(more, rest, i - 1, at - widths[0])
    ensures FieldIs(widths, s, i, at) == true
  {
    assert more[i - 1] == widths[i];
    FieldBehind(widths, s, more, rest, i);
    SliceBehind(s, rest, widths[0], at, widths[i]);
  }

  lemma FirstField(widths: seq<nat>, s: seq<byte>)
    requires RecordSize(widths) <= |s| && 0 < |widths|
    ensures RecordSize(widths[..0]) == 0 && FieldIs(widths, s, 0, 0) == true
  {
  }

  lemma SizeOfFirst(widths: seq<nat>, i: nat)
    requires 0 < i <= |widths|
    ensures RecordSize(widths[..i]) == widths[0] + RecordSize(widths[1..][..i - 1])
  {
    assert widths[..i][1..] == widths[1..][..i - 1];
  }

  lemma FieldBehind(widths: seq<nat>, s: seq<byte>, more: seq<nat>, rest: seq<byte>, i: nat)
    requires RecordSize(widths) <= |s| && 0 < i < |widths| && more == widths[1..] && rest == s[widths[0]..]
    ensures RecordSize(widths) == widths[0] + RecordSize(more)
    ensures DecodeRecord(widths, s)[i] == DecodeRecord(more, rest)[i - 1]
  {
  }

  lemma SliceBehind(s: seq<byte>, rest: seq<byte>, skip: nat, at: nat, n: nat)
    requires skip <= at && at + n <= |s| && rest == s[skip..]
    ensures NumberAt(rest, at - skip, n) == NumberAt(s, at, n)
  {
    assert rest[at - skip..at - skip + n] == s[at..at + n];
  }

  lemma {:induction false} SizeOfMore(widths: seq<nat>, w: nat)
    ensures RecordSize(widths + [w]) == RecordSize(widths) + w
  {
    if |widths| > 0 {
      assert (widths + [w])[1..] == widths[1..] + [w];
      SizeOfMore(widths[1..], w);
    } else {
      assert widths + [w] == [w] && [w][1..] == [];
    }
  }

  lemma OneByte(f: seq<byte>, k: nat)
    requires k < |f|
    ensures FromBE(f[k..k + 1]) == f[k]
  {
    assert f[k..k + 1] == [f[k]] && [f[k]][..0] == [];
    assert FromBE([]) == 0;
  }

  /** A field of four bytes with this value consists of these. */
  lemma FourBytes(b: seq<byte>, v: nat, p: int, q: int, r: int, t: int)
    requires |b| == 4 && 0 <= p < 256 && 0 <= q < 256 && 0 <= r < 256 && 0 <= t < 256
    requires v == ((p * 256 + q) * 256 + r) * 256 + t
    ensures FromBE(b) == v <==> b == [p, q, r, t]
  {
    var b0: int, b1: int, b2: int, b3: int := b[0], b[1], b[2], b[3];
    assert b[..3][..2] == b[..2] && b[..2][..1] == b[..1] && b[..1][..0] == [];
    assert FromBE([]) == 0 && FromBE(b[..1]) == b0;
    assert FromBE(b[..2]) == b0 * 256 + b1;
    assert FromBE(b[..3]) == (b0 * 256 + b1) * 256 + b2;
    assert FromBE(b) == ((b0 * 256 + b1) * 256 + b2) * 256 + b3;
  }
}
