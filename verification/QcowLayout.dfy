/**
 * The qcow version 1 image format: geometry, packed table entries, the layout
 * invariant of an image file and how each kind of update keeps it.
 */
module QcowLayout {
  import opened Bytes

  const HEADER_SIZE := 48

  /** What an opened image knows about its own shape, as the driver keeps it. */
  datatype Geometry = Geometry(
    clusterBits: nat, clusterSectors: nat, l2Bits: nat, l2Size: nat, offsetLimit: nat,
    l1Offset: nat, l1Size: nat, totalSectors: nat) {

    function ClusterSize(): nat { SECTOR * clusterSectors }

    function MetaEnd(): nat { l1Offset + 8 * l1Size }

    predicate Valid()
    {
      && 9 <= clusterBits <= 16
      && 6 <= l2Bits <= 13
      && clusterSectors == Pow2(clusterBits - 9)
      && l2Size == Pow2(l2Bits)
      && offsetLimit == Pow2(63 - clusterBits)
      && HEADER_SIZE <= l1Offset
      && MetaEnd() < TWO63
      && Covers()
    }

    /** Every sector has an entry in the level 1 table. */
    predicate Covers()
      requires clusterSectors > 0 && l2Size > 0
    {
      forall k :: 0 <= k < totalSectors ==> HasEntry(k)
    }

    predicate HasEntry(k: nat)
      requires clusterSectors > 0 && l2Size > 0
    {
      Quotient(Quotient(k, clusterSectors), l2Size) < l1Size
    }

    lemma CoversIff()
      requires clusterSectors > 0 && l2Size > 0
      ensures Covers() <==> totalSectors <= l1Size * (l2Size * clusterSectors)
    {
      var part := l2Size * clusterSectors;
      ProductAtLeast(l2Size, clusterSectors);
      forall k | 0 <= k < totalSectors
        ensures HasEntry(k) <==> k < l1Size * part
      {
        DivDiv(k, clusterSectors, l2Size);
        QuotientBelowIff(k, part, l1Size);
      }
      if totalSectors > l1Size * part {
        assert !HasEntry(l1Size * part);
      }
    }

    /** The cluster of sector `k`, as its L1 and L2 index. */
    function Cluster(k: nat): nat
      requires Valid() == true
    {
      Quotient(k, clusterSectors)
    }

    function L1Index(k: nat): nat
      requires Valid() == true
    {
      Quotient(Cluster(k), l2Size)
    }

    function L2Index(k: nat): (j: nat)
      requires Valid() == true
      ensures j < l2Size
    {
      Cluster(k) % l2Size
    }

    function InCluster(k: nat): (x: nat)
      requires Valid() == true
      ensures x < clusterSectors && x <= k
    {
      QuotientRemainder(k, clusterSectors);
      k % clusterSectors
    }

    lemma L1IndexInRange(k: nat)
      requires Valid() == true && k < totalSectors
      ensures L1Index(k) < l1Size
    {
      assert HasEntry(k);
    }

    /** The index arithmetic of the code, which works on byte offsets. */
    lemma ByteIndexes(k: nat)
      requires Valid() == true
      ensures k * SECTOR / ClusterSize() == Cluster(k)
      ensures l2Size * ClusterSize() > 0
      ensures k * SECTOR / (l2Size * ClusterSize()) == L1Index(k)
    {
      var c, q, r := clusterSectors, Cluster(k), InCluster(k);
      QuotientRemainder(k, c);
      Distribute(q * c, r, SECTOR);
      MulSwap(q, SECTOR, c);
      DivModUnique(k * SECTOR, ClusterSize(), q, r * SECTOR);
      DivDiv(k * SECTOR, ClusterSize(), l2Size);
    }

    /** Different sectors of one cluster share their indexes; other clusters do not. */
    lemma ClusterRun(k: nat, t: nat)
      requires Valid() == true
      requires InCluster(k) + t < clusterSectors
      ensures Cluster(k + t) == Cluster(k)
      ensures InCluster(k + t) == InCluster(k) + t
    {
      QuotientRemainder(k, clusterSectors);
      DivModUnique(k + t, clusterSectors, Cluster(k), InCluster(k) + t);
    }

    lemma ClusterIndexesInjective(c: nat, c': nat)
      requires Valid() == true
      requires Quotient(c, l2Size) == Quotient(c', l2Size) && c % l2Size == c' % l2Size
      ensures c == c'
    {
      QuotientRemainder(c, l2Size);
      QuotientRemainder(c', l2Size);
    }
  }

  lemma QuotientRemainder(a: nat, b: nat)
    requires b > 0
    ensures a == Quotient(a, b) * b + a % b
  {
  }

  lemma MulSwap(a: nat, b: nat, c: nat)
    ensures a * (b * c) == b * (a * c)
  {
  }

  function Quotient(a: nat, b: nat): (q: nat)
    requires b > 0
    ensures q == a / b
  {
    a / b
  }

  lemma QuotientBelowIff(k: nat, d: nat, n: nat)
    requires d > 0
    ensures Quotient(k, d) < n <==> k < n * d
  {
    var q := Quotient(k, d);
    QuotientRemainder(k, d);
    if q < n {
      MulMonotone(q + 1, n, d);
      Distribute(q, 1, d);
    } else {
      MulMonotone(n, q, d);
    }
  }

  lemma DivDiv(a: nat, b: nat, c: nat)
    requires b > 0 && c > 0
    ensures c * b > 0 && a / (c * b) == a / b / c
  {
    ProductAtLeast(c, b);
    var q, r := Quotient(a, b), a % b;
    var q', r' := Quotient(q, c), q % c;
    QuotientRemainder(a, b);
    QuotientRemainder(q, c);
    Distribute(q' * c, r', b);
    MulAssociative(q', c, b);
    MulMonotone(r' + 1, c, b);
    Distribute(r', 1, b);
    DivModUnique(a, c * b, q', r' * b + r);
  }

  lemma MulAssociative(a: nat, b: nat, c: nat)
    ensures (a * b) * c == a * (b * c)
  {
  }

  // ----- table entries -----

  /** Bitwise or. */
  function Or(a: nat, b: nat): nat
    decreases a + b
  {
    if a == 0 && b == 0 then 0 else Max(a % 2, b % 2) + 2 * Or(a / 2, b / 2)
  }

  /** A cluster is unallocated, stored as it is, or stored compressed. */
  datatype Entry = Free | Plain(off: nat) | Packed(off: nat, size: nat)

  const COMPRESSED_FLAG := TWO63

  function CompressedOffset(g: Geometry, w: nat): nat
    requires g.Valid()
  {
    w % g.offsetLimit
  }

  function CompressedSize(g: Geometry, w: nat): nat
    requires g.Valid()
  {
    w / g.offsetLimit % g.ClusterSize()
  }

  /** The table word of a compressed cluster: flag, size and offset share 64 bits. */
  function Pack(g: Geometry, off: nat, size: nat): nat
  {
    Or(off, Or(size * g.offsetLimit, COMPRESSED_FLAG))
  }

  function EncodeEntry(g: Geometry, e: Entry): nat
  {
    match e
    case Free => 0
    case Plain(off) => off
    case Packed(off, size) => Pack(g, off, size)
  }

  function DecodeEntry(g: Geometry, w: nat): Entry
    requires g.Valid()
  {
    if w == 0 then Free
    else if w >= COMPRESSED_FLAG then Packed(CompressedOffset(g, w), CompressedSize(g, w))
    else Plain(w)
  }

  /** The remainder by twice `p`, digit by digit. */
  lemma LowBits(h: nat, bit: nat, p: nat)
    requires p > 0 && bit < 2
    ensures (bit + 2 * h) % (2 * p) == bit + 2 * (h % p)
  {
    var q, r := h / p, h % p;
    assert h == q * p + r;
    assert 2 * (q * p) == q * (2 * p);
    DivModUnique(bit + 2 * h, 2 * p, q, bit + 2 * r);
  }

  lemma OrLowBit(a: nat, c: nat)
    ensures Or(a, 2 * c) == a % 2 + 2 * Or(a / 2, c)
  {
    if a == 0 && c == 0 {
      assert Or(0, 0) == 0;
    }
  }

  lemma {:induction false} OrAboveLow(a: nat, m: nat, k: nat)
    ensures Or(a, m * Pow2(k)) % Pow2(k) == a % Pow2(k)
    decreases k
  {
    if k > 0 {
      var p := Pow2(k - 1);
      DoubleProduct(m, p);
      var c := m * p;
      OrAboveLow(a / 2, m, k - 1);
      OrLowBit(a, c);
      LowBits(Or(a / 2, c), a % 2, p);
      LowBits(a / 2, a % 2, p);
    } else {
      assert m * Pow2(0) == m;
    }
  }

  lemma DoubleProduct(m: nat, p: nat)
    ensures m * (2 * p) == 2 * (m * p)
  {
  }

  lemma {:induction false} OrDisjoint(a: nat, m: nat, k: nat)
    requires a < Pow2(k)
    ensures Or(a, m * Pow2(k)) == a + m * Pow2(k)
    decreases k
  {
    var b := m * Pow2(k);
    if k == 0 {
      OrZero(b);
    } else {
      DoubleProduct(m, Pow2(k - 1));
      OrDisjoint(a / 2, m, k - 1);
    }
  }

  lemma {:induction false} OrZero(b: nat)
    ensures Or(0, b) == b
    decreases b
  {
    if b > 0 {
      OrZero(b / 2);
    }
  }

  /** Packing loses nothing exactly when the offset fits below the size field. */
  lemma PackRoundTrip(g: Geometry, off: nat, size: nat)
    requires g.Valid() && size < g.ClusterSize() && off < TWO63
    ensures (CompressedOffset(g, Pack(g, off, size)) == off && CompressedSize(g, Pack(g, off, size)) == size)
            <==> off < g.offsetLimit
    ensures off < g.offsetLimit ==> COMPRESSED_FLAG <= Pack(g, off, size) < TWO64
    ensures off < g.offsetLimit ==> Pack(g, off, size) == TWO63 + size * g.offsetLimit + off
  {
    var k, lim, cs := 63 - g.clusterBits, g.offsetLimit, g.ClusterSize();
    var m := size + cs;
    var e := Pack(g, off, size);
    UpperFields(g, size);
    OrAboveLow(off, m, k);
    assert CompressedOffset(g, e) == off % lim;
    if off < lim {
      OrDisjoint(off, m, k);
      assert e == m * lim + off;
      PackFields(g, off, size, e);
      FieldWidths(g);
      Distribute(size, cs, lim);
    } else {
      assert CompressedOffset(g, e) < lim;
    }
  }

  lemma UpperFields(g: Geometry, size: nat)
    requires g.Valid() && size < g.ClusterSize()
    ensures Or(size * g.offsetLimit, COMPRESSED_FLAG) == (size + g.ClusterSize()) * g.offsetLimit
  {
    var lim, cs := g.offsetLimit, g.ClusterSize();
    var high := size * lim;
    assert cs * lim == TWO63 by { FieldWidths(g); }
    assert high < TWO63 by { FieldBound(g, size); }
    Distribute(size, cs, lim);
    OrFlag(high);
  }

  lemma OrFlag(high: nat)
    requires high < TWO63
    ensures Or(high, COMPRESSED_FLAG) == high + TWO63
  {
    Pow2At63();
    OrDisjoint(high, 1, 63);
  }

  lemma FieldBound(g: Geometry, size: nat)
    requires g.Valid() && size < g.ClusterSize()
    ensures size * g.offsetLimit + g.offsetLimit <= TWO63
  {
    var lim, cs := g.offsetLimit, g.ClusterSize();
    FieldWidths(g);
    MulMonotone(size + 1, cs, lim);
    assert (size + 1) * lim == size * lim + lim;
  }

  lemma PackFields(g: Geometry, off: nat, size: nat, e: nat)
    requires g.Valid() && size < g.ClusterSize() && off < g.offsetLimit
    requires e == (size + g.ClusterSize()) * g.offsetLimit + off
    ensures CompressedOffset(g, e) == off && CompressedSize(g, e) == size && COMPRESSED_FLAG <= e < TWO64
  {
    var lim, cs := g.offsetLimit, g.ClusterSize();
    var m := size + cs;
    FieldBounds(g, off, size, e);
    DivModUnique(e, lim, m, off);
    DivModUnique(m, cs, 1, size);
  }

  lemma FieldBounds(g: Geometry, off: nat, size: nat, e: nat)
    requires g.Valid() && size < g.ClusterSize() && off < g.offsetLimit
    requires e == (size + g.ClusterSize()) * g.offsetLimit + off
    ensures COMPRESSED_FLAG <= e < TWO64
  {
    FieldWidths(g);
    FieldBound(g, size);
    WordBounds(size, g.ClusterSize(), g.offsetLimit, off, e);
  }

  lemma WordBounds(size: nat, unit: nat, limit: nat, off: nat, e: nat)
    requires limit * unit == TWO63 && size * limit + limit <= TWO63 && off < limit
    requires e == (size + unit) * limit + off
    ensures TWO63 <= e < TWO64
  {
    Distribute(size, unit, limit);
  }

  lemma Pow2At63()
    ensures Pow2(63) == TWO63
  {
    assert Pow2(16) == 65536;
    Pow2Add(16, 16);
    Pow2Add(32, 16);
    assert Pow2(15) == 32768;
    Pow2Add(48, 15);
  }

  lemma FieldWidths(g: Geometry)
    requires g.Valid()
    ensures g.offsetLimit * g.ClusterSize() == TWO63
    ensures g.ClusterSize() == Pow2(g.clusterBits)
  {
    assert Pow2(9) == SECTOR;
    Pow2Add(9, g.clusterBits - 9);
    Pow2Add(63 - g.clusterBits, g.clusterBits);
    Pow2At63();
  }

  /** An entry a table word can hold. */
  predicate Encodable(g: Geometry, e: Entry)
  {
    match e
    case Free => true
    case Plain(off) => 0 < off < COMPRESSED_FLAG
    case Packed(off, size) => off < g.offsetLimit && size < g.ClusterSize()
  }

  lemma EntryRoundTrip(g: Geometry, e: Entry)
    requires g.Valid() && Encodable(g, e)
    ensures DecodeEntry(g, EncodeEntry(g, e)) == e && EncodeEntry(g, e) < TWO64
  {
    if e.Packed? {
      FieldWidths(g);
      ProductAtLeast(g.ClusterSize(), g.offsetLimit);
      PackRoundTrip(g, e.off, e.size);
    }
  }

  lemma EntryKinds(g: Geometry, e: Entry)
    requires g.Valid() && Encodable(g, e)
    ensures EncodeEntry(g, e) == 0 <==> e.Free?
    ensures EncodeEntry(g, e) >= COMPRESSED_FLAG <==> e.Packed?
    ensures EncodeEntry(g, e) < TWO64 && DecodeEntry(g, EncodeEntry(g, e)) == e
  {
    EntryRoundTrip(g, e);
  }
}
