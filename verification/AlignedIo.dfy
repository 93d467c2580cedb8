/** Guest reads of any offset and length on devices that transfer whole blocks. */
module AlignedIo {
  import opened Bytes
  import opened RequestProtocol
  import opened RequestSafety
  import opened RequestTheorems

  const INT_MAX := 0x7fff_ffff

  datatype Status = Done | Eio | DriverError

  predicate InRange(growable: bool, length: nat, offset: nat, bytes: nat)
  {
    bytes <= INT_MAX && (growable || (offset <= length && bytes <= length - offset))
  }

  /** In a request of whole blocks, the device's end lies in the part the driver is asked for. */
  lemma AskedCoversEnd(left: nat, blockSectors: nat, n: nat)
    requires blockSectors > 0 && n % blockSectors == 0
    ensures var max := RoundUp(left, blockSectors);
            (n < max ==> n <= left) && (n >= max ==> left <= max <= n)
  {
    var max := RoundUp(left, blockSectors);
    if n < max {
      MultiplesApart(n, max, blockSectors);
    }
  }

  lemma BlocksOfBytes(x: nat, k: nat)
    requires k > 0 && x % (SECTOR * k) == 0
    ensures x % SECTOR == 0 && (x / SECTOR) % k == 0
  {
    var q := x / (SECTOR * k);
    assert x == q * (SECTOR * k);
    assert x == SECTOR * (q * k);
    MultipleMod(q, k);
    DivModUnique(x, SECTOR, q * k, 0);
  }

  type SectorSet = nat -> bool

  function Joined(a: SectorSet, b: SectorSet): SectorSet { (s: nat) => a(s) || b(s) }

  /** An image on top of its backing file: sectors that are not allocated show the backing file's bytes. */
  function Layers(own: Disk, present: SectorSet, backing: Disk): Disk
  {
    (k: nat) => if present(k / SECTOR) then own(k) else backing(k)
  }

  /** `own` with the sectors in `stored` taken from `data`, which starts at sector `from`. */
  function Stored(own: Disk, stored: SectorSet, from: nat, data: seq<byte>): Disk
  {
    (k: nat) => if stored(k / SECTOR) && from * SECTOR <= k < from * SECTOR + |data| then data[k - from * SECTOR] else own(k)
  }

  ghost predicate SameBytes(d: Disk, d': Disk) { forall k: nat :: d'(k) == d(k) }

  /** Storing what a range shows already leaves what the image shows as it is, wherever the storing stops. */
  lemma StoringWhatIsSeen(own: Disk, present: SectorSet, backing: Disk, stored: SectorSet, from: nat, n: nat)
    requires forall s: nat :: stored(s) ==> from <= s < from + n
    ensures var data := ReadDisk(Layers(own, present, backing), from * SECTOR, n * SECTOR);
            SameBytes(Layers(own, present, backing), Layers(Stored(own, stored, from, data), Joined(present, stored), backing))
  {
    var d := Layers(own, present, backing);
    var data := ReadDisk(d, from * SECTOR, n * SECTOR);
    var d' := Layers(Stored(own, stored, from, data), Joined(present, stored), backing);
    forall k: nat
      ensures d'(k) == d(k)
    {
      if stored(k / SECTOR) {
        assert data[k - from * SECTOR] == d(from * SECTOR + (k - from * SECTOR));
      }
    }
  }

  class Device {
    const sectors: nat
    /** Transfers are in multiples of this many sectors. */
    const blockSectors: nat
    const clusterSectors: nat
    const growable: bool
    const zeroBeyondEof: bool
    /** The driver can write zeroes without a buffer. */
    const zeroWrites: bool
    /** The driver's calls that fail, by first sector and length. */
    const failing: (nat, nat) -> bool
    const failingWrites: (nat, nat) -> bool
    const failingZeroes: (nat, nat) -> bool
    const failingStatus: (nat, nat) -> bool
    const backing: Disk
    var own: Disk
    var present: SectorSet

    constructor (sectors: nat, blockSectors: nat, clusterSectors: nat, growable: bool, zeroBeyondEof: bool, zeroWrites: bool,
                 failing: (nat, nat) -> bool, failingWrites: (nat, nat) -> bool, failingZeroes: (nat, nat) -> bool,
                 failingStatus: (nat, nat) -> bool, backing: Disk, own: Disk, present: SectorSet)
      requires blockSectors > 0 && clusterSectors > 0
      ensures Valid() && this.sectors == sectors && this.blockSectors == blockSectors
      ensures this.clusterSectors == clusterSectors && this.zeroWrites == zeroWrites
      ensures this.growable == growable && this.zeroBeyondEof == zeroBeyondEof
      ensures this.failing == failing && this.failingWrites == failingWrites
      ensures this.failingZeroes == failingZeroes && this.failingStatus == failingStatus
      ensures this.backing == backing && this.own == own && this.present == present
    {
      this.sectors, this.blockSectors, this.clusterSectors := sectors, blockSectors, clusterSectors;
      this.growable, this.zeroBeyondEof, this.zeroWrites := growable, zeroBeyondEof, zeroWrites;
      this.failing, this.failingWrites := failing, failingWrites;
      this.failingZeroes, this.failingStatus := failingZeroes, failingStatus;
      this.backing, this.own, this.present := backing, own, present;
    }

    predicate Valid() { blockSectors > 0 && clusterSectors > 0 }

    function Align(): nat { SECTOR * blockSectors }

    predicate Zeroing() { zeroBeyondEof && growable }

    /** What the driver reads: this image where it is allocated, and the backing file elsewhere. */
    function View(): Disk
      reads this
    {
      Layers(own, present, backing)
    }

    /** What a guest reads at byte `k`: zero past the end of a growable device. */
    function ByteAt(k: nat): byte
      reads this
    {
      SeenAt(View(), Zeroing(), sectors, k)
    }

    /** `buf` is what the guest reads from `offset` on; what has been copied is as the driver gave it. */
    ghost predicate Reads(offset: nat, buf: seq<byte>, copied: bool)
      reads this
    {
      forall i :: 0 <= i < |buf| ==> buf[i] == if copied then View()(offset + i) else ByteAt(offset + i)
    }

    /** The whole clusters of a range. */
    function CopyFrom(sector: nat): (from: nat)
      requires Valid()
      ensures from % clusterSectors == 0 && from <= sector < from + clusterSectors
    {
      RoundDown(sector, clusterSectors)
    }

    function CopySectors(sector: nat, n: nat): (count: nat)
      requires Valid()
      ensures (CopyFrom(sector) + count) % clusterSectors == 0
      ensures CopyFrom(sector) <= sector <= sector + n <= CopyFrom(sector) + count < sector + n + clusterSectors
    {
      RangeInside(sector, n, clusterSectors);
      Ceil(sector + n, clusterSectors) - RoundDown(sector, clusterSectors)
    }

    /** Whether storing a range as it is fails: zeroes are stored without a buffer when the driver can do that. */
    ghost predicate StoreFails(d: Disk, from: nat, n: nat)
    {
      if zeroWrites && ShowsZeroes(d, from, n) then failingZeroes(from, n) else failingWrites(from, n)
    }

    ghost predicate CopyFails(d: Disk, sector: nat, n: nat)
      requires Valid()
    {
      var from, count := CopyFrom(sector), CopySectors(sector, n);
      failing(from, count) || StoreFails(d, from, count)
    }

    /** A transfer from the driver into the first `n` sectors of a buffer. */
    method DriverRead(sector: nat, n: nat, buffer: seq<byte>) returns (ok: bool, buf: seq<byte>)
      requires n * SECTOR <= |buffer|
      ensures |buf| == |buffer| && (ok <==> !failing(sector, n))
      ensures ok ==> forall i :: 0 <= i < |buf| ==> buf[i] == if i < n * SECTOR then View()(sector * SECTOR + i) else buffer[i]
    {
      ok, buf := !failing(sector, n), buffer;
      if ok {
        buf := ReadDisk(View(), sector * SECTOR, n * SECTOR) + buffer[n * SECTOR..];
      }
    }

    /** A transfer to the driver. When it fails, any part of it may have been stored. */
    method DriverWrite(sector: nat, n: nat, data: seq<byte>, fails: bool) returns (ghost stored: SectorSet)
      requires |data| == n * SECTOR
      modifies `own, `present
      ensures forall s: nat :: stored(s) ==> sector <= s < sector + n
      ensures own == Stored(old(own), stored, sector, data) && present == Joined(old(present), stored)
      ensures !fails ==> Within(present, sector, n)
    {
      var part: SectorSet := (s: nat) => true;
      if fails {
        part := *;
      }
      var here: SectorSet := (s: nat) => sector <= s < sector + n && part(s);
      own, present := Stored(own, here, sector, data), Joined(present, here);
      stored := here;
    }

    /**
     * Whether the driver's transfer for a request of whole blocks fails. Of a growable device nothing
     * is transferred beyond the block that holds its end.
     */
    predicate TransferFails(sector: nat, n: nat)
      requires Valid()
    {
      var max := RoundUp(Max(0, sectors - sector), blockSectors);
      if !Zeroing() || n < max then failing(sector, n) else max > 0 && failing(sector, max)
    }

    /**
     * How far the status of the first sector extends: no further than the device, and the driver may
     * stop earlier. A sector past the end has no status.
     */
    method IsAllocated(sector: nat, n: nat) returns (ok: bool, first: bool, pnum: nat)
      ensures ok <==> !failingStatus(sector, n)
      ensures pnum <= n && sector + pnum <= Max(sectors, sector)
      ensures ok && 0 < pnum ==> (first <==> present(sector))
      ensures ok && first ==> Within(present, sector, pnum)
      ensures sector >= sectors ==> !first
    {
      ok, first, pnum := !failingStatus(sector, n), false, 0;
      if !ok || sector >= sectors {
        return;
      }
      first := present(sector);
      while pnum < n && sector + pnum < sectors && present(sector + pnum) == first
        invariant pnum <= n && sector + pnum <= sectors
        invariant forall s: nat :: sector <= s < sector + pnum ==> present(s) == first
      {
        pnum := pnum + 1;
        if * {
          break;
        }
      }
    }

    /** A read of whole blocks into the caller's buffer, copied into this image first if that is asked for. */
    method AlignedPreadv(offset: nat, bytes: nat, buffer: seq<byte>, copyOnRead: bool)
      returns (status: Status, buf: seq<byte>, ghost copied: bool)
      requires Valid() && offset % Align() == 0 && bytes % Align() == 0 && |buffer| == bytes
      modifies this
      ensures |buf| == |buffer| && SameBytes(old(View()), View()) == true
      ensures status != Eio && (!copied ==> own == old(own) && present == old(present))
      ensures ReadOutcome(old(View()), old(present), present, offset / SECTOR, bytes / SECTOR, copyOnRead, copied, status) == true
      ensures status == Done ==> Reads(offset, buf, copied) == true
    {
      BlocksOfBytes(offset, blockSectors);
      BlocksOfBytes(bytes, blockSectors);
      var sector, n := offset / SECTOR, bytes / SECTOR;
      var ok := true;
      buf, copied := buffer, false;
      if copyOnRead {
        var needed;
        ok, needed := NeedsCopy(sector, n);
        if !ok {
          KeptSame();
          return DriverError, buf, false;
        }
        if needed {
          ghost var d := View();
          status, buf := CopyOnReadv(sector, n, buf);
          if status == Done {
            CopyReads(d, sector * SECTOR, buf);
          }
          return status, buf, true;
        }
      }
      KeptSame();
      ok, buf := ForwardRead(sector, n, buf);
      status := if ok then Done else DriverError;
      ForwardOutcome(View(), present, sector, n, copyOnRead, status);
    }

    lemma ForwardOutcome(d: Disk, was: SectorSet, sector: nat, n: nat, copyOnRead: bool, status: Status)
      requires Valid() && status == if TransferFails(sector, n) then DriverError else Done
      requires copyOnRead ==> !failingStatus(sector, n) && sector + n <= Max(sectors, sector) && Within(was, sector, n)
      ensures ReadOutcome(d, was, was, sector, n, copyOnRead, false, status) == true
    {
    }

    lemma KeptSame()
      ensures SameBytes(View(), View()) == true
    {
    }

    /** A copy was made of what the image shows, and it still shows that. */
    lemma CopyReads(d: Disk, offset: nat, buf: seq<byte>)
      requires SameBytes(d, View()) == true && buf == ReadDisk(d, offset, |buf|)
      ensures Reads(offset, buf, true) == true
    {
      forall i | 0 <= i < |buf|
        ensures buf[i] == View()(offset + i)
      {
        assert d(offset + i) == View()(offset + i);
      }
    }

    /**
     * How a read of whole blocks ends. With copy on read it is copied when a part of it is not allocated
     * or past the end, at least, and then everything that was read is allocated.
     */
    ghost predicate ReadOutcome(d: Disk, was: SectorSet, now: SectorSet, sector: nat, n: nat, copyOnRead: bool, copied: bool,
                                status: Status)
      requires Valid()
    {
      && GrownWithin(was, now, CopyFrom(sector), CopySectors(sector, n))
      && (copied ==> copyOnRead && !failingStatus(sector, n))
      && (copyOnRead && !failingStatus(sector, n) && n > 0 && (sector + n > sectors || !Within(was, sector, n)) ==> copied)
      && (status == Done && copyOnRead ==> Within(now, sector, n))
      && status == if (if copied then CopyFails(d, sector, n)
                       else (copyOnRead && failingStatus(sector, n)) || TransferFails(sector, n)) then DriverError else Done
    }

    /** Whether a range is to be copied: its first sector is not allocated here, or not all of it has that status. */
    method NeedsCopy(sector: nat, n: nat) returns (ok: bool, needed: bool)
      ensures ok <==> !failingStatus(sector, n)
      ensures ok && !needed ==> sector + n <= Max(sectors, sector) && Within(present, sector, n)
    {
      var first, pnum;
      ok, first, pnum := IsAllocated(sector, n);
      needed := !first || pnum != n;
    }

    /** The request as the driver gets it, and the zeroes past the end of a growable device. */
    method ForwardRead(sector: nat, n: nat, buffer: seq<byte>) returns (ok: bool, buf: seq<byte>)
      requires Valid() && n % blockSectors == 0 && |buffer| == n * SECTOR
      ensures |buf| == |buffer| && (ok <==> !TransferFails(sector, n))
      ensures ok ==> Reads(sector * SECTOR, buf, false) == true
    {
      ok, buf := true, buffer;
      if !(zeroBeyondEof && growable) {
        ok, buf := DriverRead(sector, n, buf);
      } else {
        AskedCoversEnd(Max(0, sectors - sector), blockSectors, n);
        var max := RoundUp(Max(0, sectors - sector), blockSectors);
        if n < max {
          ok, buf := DriverRead(sector, n, buf);
        } else if max > 0 {
          ok, buf := DriverRead(sector, max, buf);
        }
        if ok && sectors < sector + n {
          buf := ZeroFrom(buf, Max(0, sectors - sector) * SECTOR);
        }
      }
    }

    function ZeroFrom(buf: seq<byte>, from: nat): (r: seq<byte>)
      requires from <= |buf|
      ensures |r| == |buf| && forall i :: 0 <= i < |r| ==> r[i] == if i < from then buf[i] else 0
    {
      buf[..from] + Zeros(|buf| - from)
    }

    /** The whole blocks of a range of bytes, in sectors. */
    function BlocksFrom(offset: nat): nat
      requires Valid()
    {
      RoundDown(offset, Align()) / SECTOR
    }

    function BlocksCount(offset: nat, bytes: nat): nat
      requires Valid()
    {
      RangeInside(offset, bytes, Align());
      (Ceil(offset + bytes, Align()) - RoundDown(offset, Align())) / SECTOR
    }

    /** A guest read: a request that is not made of whole blocks is padded to them, in scratch buffers. */
    method Preadv(offset: nat, bytes: nat, buffer: seq<byte>, scratch: seq<byte>, copyOnRead: bool)
      returns (status: Status, buf: seq<byte>, ghost copied: bool)
      requires Valid() && |buffer| == bytes && |scratch| == Align()
      modifies this
      ensures |buf| == bytes && SameBytes(old(View()), View()) == true
      ensures status == Eio <==> !InRange(growable, sectors * SECTOR, offset, bytes)
      ensures status != Eio ==>
                PaddedOutcome(old(View()), old(present), present, offset, bytes, copyOnRead, copied, status) == true
      ensures status == Done ==> Reads(offset, buf, copied) == true
    {
      buf, copied := buffer, false;
      if bytes > INT_MAX || (!growable && (offset > sectors * SECTOR || sectors * SECTOR - offset < bytes)) {
        KeptSame();
        return Eio, buf, false;
      }
      var from, size, head, padded := Pad(offset, bytes, buffer, scratch);
      status, padded, copied := AlignedPreadv(from, size, padded, copyOnRead);
      buf := Part(from, padded, head, offset, bytes, copied);
    }

    /** How a read of any range ends: as that of its whole blocks. */
    ghost predicate PaddedOutcome(d: Disk, was: SectorSet, now: SectorSet, offset: nat, bytes: nat, copyOnRead: bool, copied: bool,
                                  status: Status)
      requires Valid()
    {
      ReadOutcome(d, was, now, BlocksFrom(offset), BlocksCount(offset, bytes), copyOnRead, copied, status)
    }

    /** The guest's part of a padded request. */
    method Part(from: nat, padded: seq<byte>, head: nat, ghost offset: nat, bytes: nat, ghost copied: bool) returns (buf: seq<byte>)
      requires head + bytes <= |padded| && from + head == offset
      ensures |buf| == bytes && (Reads(from, padded, copied) == true ==> Reads(offset, buf, copied) == true)
    {
      buf := padded[head..head + bytes];
      if Reads(from, padded, copied) {
        ReadsPart(from, padded, head, bytes, copied);
      }
    }

    /** Extends a request to whole blocks with scratch space. */
    method Pad(offset: nat, bytes: nat, buffer: seq<byte>, scratch: seq<byte>)
      returns (from: nat, size: nat, head: nat, padded: seq<byte>)
      requires Valid() && |buffer| == bytes && |scratch| == Align()
      ensures from % Align() == 0 && size % Align() == 0 && |padded| == size
      ensures from / SECTOR == BlocksFrom(offset) && size / SECTOR == BlocksCount(offset, bytes)
      ensures head + bytes <= size && from + head == offset && padded[head..head + bytes] == buffer
    {
      var align := Align();
      head := offset % align;
      from, size, padded := offset, bytes, buffer;
      if head != 0 {
        padded := scratch[..head] + padded;
        size, from := size + head, RoundDown(offset, align);
      }
      PaddedEnd(offset, bytes, align);
      if (from + size) % align != 0 {
        padded := padded + scratch[..align - (from + size) % align];
        size := RoundUp(size, align);
      }
    }

    lemma ReadsPart(from: nat, padded: seq<byte>, head: nat, bytes: nat, copied: bool)
      requires head + bytes <= |padded| && Reads(from, padded, copied) == true
      ensures Reads(from + head, padded[head..head + bytes], copied) == true
    {
      var buf := padded[head..head + bytes];
      forall i | 0 <= i < |buf|
        ensures buf[i] == if copied then View()(from + head + i) else ByteAt(from + head + i)
      {
        assert padded[head + i] == if copied then View()(from + (head + i)) else ByteAt(from + (head + i));
      }
    }

    /** Stores the bytes of whole clusters in this image, as zeroes without a buffer if the driver can do that. */
    method StoreCopy(from: nat, n: nat, bounce: seq<byte>) returns (ok: bool)
      requires bounce == ReadDisk(View(), from * SECTOR, n * SECTOR)
      modifies `own, `present
      ensures SameBytes(old(View()), View()) == true && GrownWithin(old(present), present, from, n)
      ensures ok <==> !StoreFails(old(View()), from, n)
      ensures ok ==> Within(present, from, n)
    {
      ZeroesShown(View(), from, n);
      ok := if zeroWrites && bounce == Zeros(|bounce|) then !failingZeroes(from, n) else !failingWrites(from, n);
      ghost var stored := DriverWrite(from, n, bounce, !ok);
      StoringWhatIsSeen(old(own), old(present), backing, stored, from, n);
    }

    /**
     * Copy on read: the whole clusters are read, stored in this image, and the guest gets its part.
     * What the image shows does not change, not even if storing fails half-way; on success the
     * clusters are allocated here.
     */
    method CopyOnReadv(sector: nat, n: nat, buffer: seq<byte>) returns (status: Status, buf: seq<byte>)
      requires Valid() && |buffer| == n * SECTOR
      modifies `own, `present
      ensures |buf| == |buffer| && SameBytes(old(View()), View()) == true
      ensures GrownWithin(old(present), present, CopyFrom(sector), CopySectors(sector, n))
      ensures failing(CopyFrom(sector), CopySectors(sector, n)) ==> own == old(own) && present == old(present)
      ensures status == Done ==> Within(present, CopyFrom(sector), CopySectors(sector, n)) && Within(present, sector, n)
      ensures status == if CopyFails(old(View()), sector, n) then DriverError else Done
      ensures status == Done ==> buf == ReadDisk(old(View()), sector * SECTOR, n * SECTOR)
      ensures !failingStatus(sector, n) ==>
                ReadOutcome(old(View()), old(present), present, sector, n, true, true, status) == true
    {
      var from, count := CopyFrom(sector), CopySectors(sector, n);
      RangeInside(sector, n, clusterSectors);
      buf := buffer;
      var ok, bounce := DriverRead(from, count, Zeros(count * SECTOR));
      if !ok {
        return DriverError, buf;
      }
      assert bounce == ReadDisk(View(), from * SECTOR, count * SECTOR);
      ok := StoreCopy(from, count, bounce);
      if !ok {
        return DriverError, buf;
      }
      var skip := (sector - from) * SECTOR;
      buf := bounce[skip..skip + n * SECTOR];
      PartOfDisk(old(View()), from, count, sector, n);
      status := Done;
    }
  }

  /** Every sector of the range is in the set. */
  ghost predicate Within(present: SectorSet, sector: nat, n: nat)
  {
    forall s: nat :: sector <= s < sector + n ==> present(s)
  }

  /** Only sectors of the range were added. */
  ghost predicate GrownWithin(was: SectorSet, now: SectorSet, from: nat, n: nat)
  {
    && (forall s: nat :: was(s) ==> now(s))
    && (forall s: nat :: now(s) && !was(s) ==> from <= s < from + n)
  }

  lemma PartOfDisk(d: Disk, from: nat, count: nat, sector: nat, n: nat)
    requires from <= sector && sector + n <= from + count
    ensures var skip := (sector - from) * SECTOR;
            ReadDisk(d, from * SECTOR, count * SECTOR)[skip..skip + n * SECTOR] == ReadDisk(d, sector * SECTOR, n * SECTOR)
  {
    var skip, all := (sector - from) * SECTOR, ReadDisk(d, from * SECTOR, count * SECTOR);
    forall i | 0 <= i < n * SECTOR
      ensures all[skip..skip + n * SECTOR][i] == ReadDisk(d, sector * SECTOR, n * SECTOR)[i]
    {
      assert all[skip + i] == d(from * SECTOR + (skip + i));
    }
  }

  ghost predicate ShowsZeroes(d: Disk, sector: nat, n: nat)
  {
    forall k :: sector * SECTOR <= k < (sector + n) * SECTOR ==> d(k) == 0
  }

  lemma ZeroesShown(d: Disk, sector: nat, n: nat)
    ensures ShowsZeroes(d, sector, n) <==> ReadDisk(d, sector * SECTOR, n * SECTOR) == Zeros(n * SECTOR)
  {
    var buf := ReadDisk(d, sector * SECTOR, n * SECTOR);
    if buf == Zeros(n * SECTOR) {
      forall k | sector * SECTOR <= k < (sector + n) * SECTOR
        ensures d(k) == 0
      {
        assert buf[k - sector * SECTOR] == d(sector * SECTOR + (k - sector * SECTOR));
      }
    }
  }

  // ----- copy on read past the end of the device -----

  /** A byte as a plain read gives it. */
  function SeenAt(d: Disk, zeroing: bool, sectors: nat, k: nat): byte
  {
    if zeroing && k >= sectors * SECTOR then 0 else d(k)
  }

  /** Reading through a copy gives what a plain read gives. */
  ghost predicate CopyReadsAlike(d: Disk, zeroing: bool, sectors: nat, sector: nat, n: nat)
  {
    forall k :: sector * SECTOR <= k < (sector + n) * SECTOR ==> d(k) == SeenAt(d, zeroing, sectors, k)
  }

  /** Copying does not zero what lies past the end: it reads alike when the driver gives zeroes there. */
  lemma CopyReadsAlikeIff(d: Disk, zeroing: bool, sectors: nat, sector: nat, n: nat)
    ensures CopyReadsAlike(d, zeroing, sectors, sector, n)
            <==> !zeroing || sector + n <= sectors
                 || ShowsZeroes(d, Max(sectors, sector), sector + n - Max(sectors, sector))
  {
    var from := Max(sectors, sector);
    if zeroing && from < sector + n && CopyReadsAlike(d, zeroing, sectors, sector, n) {
      forall k | from * SECTOR <= k < (sector + n) * SECTOR
        ensures d(k) == 0
      {
        assert d(k) == SeenAt(d, zeroing, sectors, k);
      }
    }
  }

  /** Over all disks, that is for requests that do not reach past the end of a growable device. */
  lemma CopyOnReadIff(zeroing: bool, sectors: nat, sector: nat, n: nat)
    ensures (forall d :: CopyReadsAlike(d, zeroing, sectors, sector, n)) <==> !zeroing || n == 0 || sector + n <= sectors
  {
    if !zeroing || n == 0 || sector + n <= sectors {
      forall d
        ensures CopyReadsAlike(d, zeroing, sectors, sector, n)
      {
        CopyReadsAlikeIff(d, zeroing, sectors, sector, n);
      }
    } else {
      var d: Disk := (k: nat) => 7;
      var last := (sector + n) * SECTOR - 1;
      assert d(last) != SeenAt(d, zeroing, sectors, last);
      assert !CopyReadsAlike(d, zeroing, sectors, sector, n);
    }
  }

  /** A device of one sector with sevens behind it, read plainly and then through a copy: zeroes, and then sevens. */
  method CopyDiffers() returns (plain: seq<byte>, copy: seq<byte>)
    ensures |plain| == |copy| == 2 * SECTOR && plain[SECTOR] == 0 && copy[SECTOR] == 7
  {
    var never := (a: nat, b: nat) => false;
    var sevens: Disk := (k: nat) => 7;
    var dev := new Device(1, 1, 1, true, true, false, never, never, never, never, sevens, sevens, (s: nat) => false);
    var status;
    ghost var copied;
    status, plain, copied := dev.AlignedPreadv(0, 2 * SECTOR, Zeros(2 * SECTOR), false);
    assert plain[SECTOR] == dev.ByteAt(0 + SECTOR);
    status, copy, copied := dev.AlignedPreadv(0, 2 * SECTOR, Zeros(2 * SECTOR), true);
    assert dev.View()(SECTOR) == 7;
    assert copy[SECTOR] == dev.View()(0 + SECTOR);
  }

  lemma RangeInside(x: nat, n: nat, a: nat)
    requires a > 0
    ensures RoundDown(x, a) <= x <= x + n <= Ceil(x + n, a)
  {
  }

  /** Where padding a request to whole blocks ends, as the code computes it. */
  lemma PaddedEnd(offset: nat, bytes: nat, align: nat)
    requires align > 0
    ensures var from := RoundDown(offset, align);
            var size := bytes + offset % align;
            && from + size == offset + bytes
            && (from + size) % align == size % align
            && from + RoundUp(size, align) == Ceil(offset + bytes, align)
            && RoundUp(size, align) % align == 0
            && RoundUp(size, align) == (if size % align == 0 then size else size + (align - size % align))
  {
    var from, size := RoundDown(offset, align), bytes + offset % align;
    BlocksAhead(offset / align, from, size, align);
  }

  lemma BlocksAhead(q: nat, from: nat, size: nat, align: nat)
    requires align > 0 && from == q * align
    ensures (from + size) % align == size % align
  {
    var p := size / align;
    Distribute(q, p, align);
    DivModUnique(from + size, align, q + p, size % align);
  }

  // ----- reads among other requests -----

  /**
   * Whatever requests are interleaved, what a read transfers is what the writes whose transfers came
   * before it leave, applied one at a time and byte exact.
   */
  lemma ReadsAreAtomic(s: State, steps: seq<Step>, t: State, id: Id, k: nat)
    requires Inv(s) == true && Schedulable(s, steps) && t == RequestTheorems.After(s, steps)
    requires Reading(t, id, k) == true
    ensures Arrived(Transferred(t, id).reqs[id], k, Replay(s.disk(k), WriteLog(s, steps), k)) == true
  {
    WritesAreAtomic(s, steps, k);
    TransferGivesDisk(t, id, k);
  }

  /** Request `id` is about to read, and byte `k` is part of it. */
  predicate Reading(t: State, id: Id, k: nat)
  {
    && id in t.reqs && t.reqs[id].status == Issued && t.reqs[id].phase == DataRead && Ready(t.reqs[id])
    && t.reqs[id].offset <= k < t.reqs[id].offset + t.reqs[id].bytes
  }

  /** The request's buffer holds `b` for byte `k`. */
  predicate Arrived(r: Request, k: nat, b: byte)
  {
    |r.bounce| == r.bytes && r.offset <= k < r.offset + r.bytes && r.bounce[k - r.offset] == b
  }

  lemma TransferGivesDisk(t: State, id: Id, k: nat)
    requires Reading(t, id, k)
    ensures Arrived(Transferred(t, id).reqs[id], k, t.disk(k)) == true
  {
  }
}
