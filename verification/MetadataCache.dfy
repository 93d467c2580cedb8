/** The qcow2 metadata write-back caches: eviction, pinning, dependencies, and recursive flushing. */
module MetadataCache {
  import opened Bytes
  import opened MetadataCacheState

  const ENOSPC := 28
  const EMPTY_HITS := 32
  const INT_MAX := 0x7fff_ffff
  const ABORTED := -0x8000_0000

  /** All caches of one image; a cache is named by its index. */
  class CacheSet {
    /** Outcome of the n-th host operation: negative for an error. */
    const faults: nat -> int
    /** What a failed n-th operation leaves in the table it was writing. */
    const torn: nat -> Table
    /** The cache that each table offset is looked up in. */
    ghost const owner: nat -> nat

    var caches: seq<Cache>
    var disk: map<nat, Table>
    var clock: nat
    ghost var log: seq<Event>
    ghost var rank: seq<nat>
    ghost var owed: set<Owed>
    /** Tables obtained empty and not yet filled by their caller. */
    ghost var unfilled: set<nat>

    /** One empty cache of the given size for each element of `sizes`. */
    constructor (sizes: seq<nat>, disk: map<nat, Table>, faults: nat -> int, torn: nat -> Table, ghost owner: nat -> nat)
      requires forall o :: owner(o) < |sizes|
      ensures Valid() && |caches| == |rank| == |sizes| && this.disk == disk && owed == {} && log == []
      ensures this.owner == owner && this.faults == faults && this.torn == torn
      ensures forall o :: Logical(owner, caches, disk, o) == if o == 0 && sizes[owner(0)] > 0 then [] else TableAt(disk, o)
    {
      this.faults, this.torn, this.owner := faults, torn, owner;
      this.disk, clock := disk, 0;
      caches := seq(|sizes|, c requires 0 <= c < |sizes| =>
        Cache(seq(sizes[c], _ => Entry(0, false, 0, 0, [])), None, false));
      log, rank, owed, unfilled := [], seq(|sizes|, _ => 0), {}, {};
    }

    ghost function St(): Store
      reads this
    {
      Store(caches, disk, log, rank, owed, unfilled)
    }

    ghost predicate Valid()
      reads this
    {
      Sound(owner, St())
    }

    /** The table at `o` as callers see it. */
    ghost function View(o: nat): Table
      requires Valid()
      reads this
    {
      Logical(owner, caches, disk, o)
    }

    // ----- host operations -----

    /** One of the host operations from `from` to `to` failed with this error. */
    ghost predicate Faulted(from: nat, to: nat, error: int)
    {
      exists t: nat :: from <= t < to && faults(t) == error
    }

    /** An operation fails only with the error of a host operation of its own. */
    ghost predicate FailsByHost(from: nat, to: nat, ret: int)
    {
      from <= to && (ret < 0 ==> Faulted(from, to, ret))
    }

    method PwriteTable(c: nat, o: nat, table: Table) returns (ret: int)
      modifies `disk, `clock, `log
      ensures clock == old(clock) + 1 && ret == faults(old(clock)) && FailsByHost(old(clock), clock, ret)
      ensures log == old(log) + [Wrote(c, o, ret >= 0)]
      ensures disk == old(disk)[o := if ret >= 0 then table else torn(old(clock))]
    {
      ret := faults(clock);
      disk := disk[o := if ret >= 0 then table else torn(clock)];
      clock := clock + 1;
      log := log + [Wrote(c, o, ret >= 0)];
    }

    method HostFlush() returns (ret: int)
      modifies `clock, `log
      ensures clock == old(clock) + 1 && ret == faults(old(clock)) && FailsByHost(old(clock), clock, ret)
      ensures log == old(log) + if ret >= 0 then [Flushed] else []
    {
      ret := faults(clock);
      clock := clock + 1;
      log := log + if ret >= 0 then [Flushed] else [];
    }

    /** An operation that only succeeds or fails: an overlap check, or a read. */
    method HostCheck() returns (ret: int)
      modifies `clock
      ensures clock == old(clock) + 1 && ret == faults(old(clock)) && FailsByHost(old(clock), clock, ret)
    {
      ret := faults(clock);
      clock := clock + 1;
    }

    // ----- flushing -----

    method FlushDependency(c: nat) returns (ret: int)
      requires Valid() == true && c < |caches| == |rank| && caches[c].depends.Some?
      modifies `caches, `disk, `clock, `log
      ensures Valid() == true && Stepped(owner, old(rank)[c], old(St()), St()) == true && FailsByHost(old(clock), clock, ret)
      ensures c < |caches| && caches[c].entries == old(caches)[c].entries
      ensures ret >= 0 ==> caches[c].depends.None? && !caches[c].dependsOnFlush
      decreases rank[c], 0
    {
      ghost var s0 := St();
      DependencyRank(owner, s0, c);
      var d := caches[c].depends.value;
      ret := Flush(d);
      ghost var s1 := St();
      SteppedWiden(owner, s0.rank[d], s0.rank[c], s0, s1);
      if ret < 0 {
        return ret;
      }
      DependencyFlushed(owner, s0, s1, c);
      caches := caches[c := caches[c].(depends := None, dependsOnFlush := false)];
      assert St() == Forgotten(s1, c);
      return 0;
    }

    /** Whatever must come before the next write of `c`: its dependency, or a flush. */
    method PayDebts(c: nat) returns (ret: int)
      requires Valid() == true && c < |caches| == |rank|
      modifies `caches, `disk, `clock, `log
      ensures Valid() == true && Stepped(owner, old(rank)[c], old(St()), St()) == true && FailsByHost(old(clock), clock, ret)
      ensures c < |caches| && caches[c].entries == old(caches)[c].entries
      ensures ret >= 0 ==> caches[c].depends.None? && !caches[c].dependsOnFlush
      decreases rank[c], 1
    {
      ghost var s0 := St();
      SteppedSelf(owner, rank[c], s0);
      ret := 0;
      if caches[c].depends.Some? {
        ret := FlushDependency(c);
      } else if caches[c].dependsOnFlush {
        ret := HostFlush();
        if ret >= 0 {
          FlushStep(owner, rank[c], s0);
          ghost var s1 := s0.(log := s0.log + [Flushed]);
          assert St() == s1;
          OwedBefore(owner, s0, |log|);
          ForgetStep(owner, rank[c], s1, c);
          SteppedTrans(owner, rank[c], rank[c], s0, s1, Forgotten(s1, c));
          caches := caches[c := caches[c].(dependsOnFlush := false)];
          assert St() == Forgotten(s1, c);
        } else {
          assert St() == s0;
        }
      }
    }

    method EntryFlush(c: nat, i: nat) returns (ret: int)
      requires Valid() == true && c < |caches| == |rank| && i < |caches[c].entries|
      modifies `caches, `disk, `clock, `log
      ensures Valid() == true && Stepped(owner, old(rank)[c], old(St()), St()) == true && FailsByHost(old(clock), clock, ret)
      ensures ret >= 0 ==> c < |caches| && i < |caches[c].entries| && !caches[c].entries[i].dirty
      decreases rank[c], 2
    {
      ghost var s0 := St();
      SteppedSelf(owner, rank[c], s0);
      if !caches[c].entries[i].dirty || caches[c].entries[i].offset == 0 {
        DirtyHasOffset(owner, s0, c, i);
        return 0;
      }
      ret := PayDebts(c);
      if ret < 0 {
        return ret;
      }
      ghost var s1 := St();
      ret := HostCheck();
      if ret < 0 {
        return ret;
      }
      var o, table, at := caches[c].entries[i].offset, caches[c].entries[i].table, clock;
      ret := PwriteTable(c, o, table);
      WriteStep(owner, rank[c], s1, c, i, ret >= 0, torn(at));
      SteppedTrans(owner, rank[c], rank[c], s0, s1, WrittenBack(s1, c, i, ret >= 0, torn(at)));
      if ret < 0 {
        assert St() == WrittenBack(s1, c, i, false, torn(at));
        return ret;
      }
      caches := caches[c := caches[c].(entries := caches[c].entries[i := caches[c].entries[i].(dirty := false)])];
      assert St() == WrittenBack(s1, c, i, true, torn(at));
      return 0;
    }

    method Flush(c: nat) returns (result: int)
      requires Valid() == true && c < |caches| == |rank|
      modifies `caches, `disk, `clock, `log
      ensures Valid() == true && Stepped(owner, old(rank)[c], old(St()), St()) == true && FailsByHost(old(clock), clock, result)
      ensures result == 0 ==> c < |caches| && AllClean(caches[c].entries)
      ensures result == 0 ==> |log| > |old(log)| && log[|log| - 1] == Flushed
      ensures result <= 0
      decreases rank[c], 3
    {
      ghost var s0 := St();
      SteppedSelf(owner, rank[c], s0);
      result := 0;
      var i := 0;
      while i < |caches[c].entries|
        invariant rank == s0.rank && c < |caches| == |rank| && 0 <= i <= |caches[c].entries|
        invariant Valid() == true && Stepped(owner, s0.rank[c], s0, St()) == true
        invariant FailsByHost(old(clock), clock, result)
        invariant result <= 0 && (result == 0 ==> AllClean(caches[c].entries[..i]))
        decreases |s0.caches[c].entries| - i
      {
        ghost var s1 := St();
        var ret := EntryFlush(c, i);
        StillClean(owner, s0.rank[c], s0, s1, St(), c, i);
        if ret < 0 && result != -ENOSPC {
          result := ret;
        }
        i := i + 1;
      }
      assert caches[c].entries[..i] == caches[c].entries;
      if result == 0 {
        ghost var s1 := St();
        var ret := HostFlush();
        if ret < 0 {
          assert St() == s1;
          result := ret;
        } else {
          FlushStep(owner, s0.rank[c], s1);
          assert St() == s1.(log := s1.log + [Flushed]);
          SteppedTrans(owner, s0.rank[c], s0.rank[c], s0, s1, St());
        }
      }
    }

    // ----- dependencies -----

    /** Flushes what `c` depends on, unless that is `keep`. */
    method DropDependency(c: nat, keep: Option<nat>) returns (ret: int)
      requires Valid() == true && c < |caches| == |rank|
      modifies `caches, `disk, `clock, `log
      ensures Valid() == true && Stepped(owner, old(rank)[c], old(St()), St()) == true && |caches| == |old(caches)|
      ensures FailsByHost(old(clock), clock, ret)
      ensures ret >= 0 ==> caches[c].depends.None? || caches[c].depends == keep
    {
      SteppedSelf(owner, rank[c], St());
      ret := 0;
      if caches[c].depends.Some? && caches[c].depends != keep {
        ghost var s0 := St();
        ret := FlushDependency(c);
        Unseen(owner, s0.rank[c], s0, St());
      }
    }

    /** From now on the tables of `d` that are dirty must be stable before `c` writes again. */
    method SetDependency(c: nat, d: nat) returns (ret: int)
      requires Valid() == true && c < |caches| == |rank| && d < |caches| && c != d
      modifies `caches, `disk, `clock, `log, `rank, `owed
      ensures Valid() == true && SameView(owner, old(St()), St()) == true
      ensures old(owed) <= owed && old(log) <= log && FailsByHost(old(clock), clock, ret)
      ensures ret >= 0 ==> c < |caches| && d < |caches| && caches[c].depends == Some(d)
      ensures ret >= 0 ==> forall o :: o in DirtyOffsets(caches[d].entries) ==> Order(c, d, o, |log|) in owed
    {
      ghost var s0 := St();
      ret := DropDependency(d, None);
      ghost var s1 := St();
      Unseen(owner, s0.rank[d], s0, s1);
      if ret < 0 {
        return ret;
      }
      ret := DropDependency(c, Some(d));
      ghost var s2 := St();
      Unseen(owner, s1.rank[c], s1, s2);
      if ret < 0 {
        return ret;
      }
      StaysIndependent(owner, s1.rank[c], s1, s2, d);
      Depend(c, d);
      return 0;
    }

    method Depend(c: nat, d: nat)
      requires Valid() == true && c < |caches| && d < |caches| && c != d && caches[d].depends.None?
      requires caches[c].depends.None? || caches[c].depends == Some(d)
      modifies `caches, `rank, `owed
      ensures Valid() == true && SameView(owner, old(St()), St()) == true
      ensures old(owed) <= owed && c < |caches| && d < |caches| && caches[c].depends == Some(d)
      ensures forall o :: o in DirtyOffsets(caches[d].entries) ==> Order(c, d, o, |log|) in owed
    {
      ghost var s := St();
      DependStep(owner, s, c, d);
      SameEntriesView(owner, s, Depending(s, c, d));
      caches := caches[c := caches[c].(depends := Some(d))];
      rank := Reranked(rank, d);
      owed := owed + set o | o in DirtyOffsets(s.caches[d].entries) :: Order(c, d, o, |log|);
      assert St() == Depending(s, c, d);
    }

    /** From now on a flush must come before `c` writes again. */
    method DependsOnFlush(c: nat)
      requires Valid() == true && c < |caches|
      modifies `caches, `owed
      ensures Valid() == true && |caches| == |old(caches)| && owed == old(owed) + {Barrier(c, |log|)}
      ensures forall o :: Logical(owner, caches, disk, o) == Logical(owner, old(caches), disk, o)
    {
      ghost var s0 := St();
      BarrierStep(owner, s0, c);
      caches := caches[c := caches[c].(dependsOnFlush := true)];
      owed := owed + {Barrier(c, |log|)};
      assert St() == WithBarrier(s0, c);
      SameEntriesView(owner, s0, St());
    }

    // ----- getting and putting tables -----

    /** The unpinned entry with the fewest hits; the hits of all unpinned entries are halved. */
    method FindEntryToReplace(c: nat) returns (r: Option<nat>)
      requires c < |caches|
      modifies `caches
      ensures caches == old(caches)[c := old(caches)[c].(entries := HitsHalved(old(caches)[c].entries))]
      ensures r.None? <==> forall j :: 0 <= j < |old(caches)[c].entries| ==> !Evictable(old(caches)[c].entries[j])
      ensures r.Some? ==>
                && r.value < |old(caches)[c].entries| && Evictable(old(caches)[c].entries[r.value])
                && (forall j :: 0 <= j < |old(caches)[c].entries| && Evictable(old(caches)[c].entries[j]) ==>
                      old(caches)[c].entries[r.value].hits <= old(caches)[c].entries[j].hits)
    {
      ghost var e0 := caches[c].entries;
      var entries := caches[c].entries;
      r := None;
      var least := INT_MAX;
      var i := 0;
      while i < |entries|
        invariant 0 <= i <= |entries| == |e0| && caches == old(caches)
        invariant forall j :: 0 <= j < |entries| ==> entries[j] == if j < i then HalvedEntry(e0[j]) else e0[j]
        invariant r.None? ==> least == INT_MAX && forall j :: 0 <= j < i ==> !Evictable(e0[j])
        invariant r.Some? ==> r.value < i && Evictable(e0[r.value]) && least == e0[r.value].hits
        invariant forall j :: 0 <= j < i && Evictable(e0[j]) ==> least <= e0[j].hits
      {
        if entries[i].ref == 0 {
          if entries[i].hits < least {
            r := Some(i);
            least := entries[i].hits;
          }
          entries := entries[i := entries[i].(hits := entries[i].hits / 2)];
        }
        i := i + 1;
      }
      assert entries == HitsHalved(e0);
      caches := caches[c := caches[c].(entries := entries)];
    }

    /** Chooses an entry and writes it back if it is dirty. */
    method MakeRoom(c: nat) returns (ret: int, i: nat)
      requires Valid() == true && c < |caches| == |rank|
      modifies `caches, `disk, `clock, `log
      ensures Valid() == true && SameView(owner, old(St()), St()) == true && unfilled == old(unfilled) && rank == old(rank)
      ensures |caches| == |old(caches)| && old(log) <= log
      ensures PinnedKept(old(caches)[c].entries, caches[c].entries) && SameOffsets(old(caches)[c].entries, caches[c].entries)
      ensures ret >= 0 ==> i < |caches[c].entries| && !caches[c].entries[i].dirty && caches[c].entries[i].ref == 0
      ensures if NoneEvictable(old(caches)[c].entries) then ret == ABORTED else FailsByHost(old(clock), clock, ret)
    {
      ghost var s0 := St();
      var victim := FindEntryToReplace(c);
      ghost var s1 := St();
      HitsSound(owner, s0, s1, c);
      assert SameView(owner, s0, s1);
      if victim.None? {
        return ABORTED, 0;
      }
      i := victim.value;
      ret := EntryFlush(c, i);
      Unseen(owner, s1.rank[c], s1, St());
      CleanerPins(owner, s1.rank[c], s1, St(), c);
      SameViewTrans(owner, s0, s1, St());
    }

    /** One more user of entry `i`. */
    method Pin(c: nat, i: nat)
      requires Valid() == true && c < |caches| && i < |caches[c].entries| && caches[c].entries[i].offset != 0
      modifies `caches
      ensures Valid() == true && SameView(owner, old(St()), St()) == true && |caches| == |old(caches)|
      ensures PinnedKept(old(caches)[c].entries, caches[c].entries) && SameOffsets(old(caches)[c].entries, caches[c].entries)
      ensures i < |caches[c].entries| && caches[c].entries[i].ref == old(caches)[c].entries[i].ref + 1
      ensures caches[c].entries[i].table == Logical(owner, caches, disk, caches[c].entries[i].offset)
    {
      ghost var s0 := St();
      var e := caches[c].entries[i];
      e := e.(hits := e.hits + 1, ref := e.ref + 1);
      PinView(owner, s0, c, i, e);
      caches := caches[c := caches[c].(entries := caches[c].entries[i := e])];
      assert St() == WithEntry(s0, c, i, e, unfilled);
    }

    /** Puts a freshly loaded, or emptied, entry in the place of a written-back one. */
    method Install(c: nat, i: nat, e: Entry, ghost unfilled': set<nat>)
      requires Valid() == true && c < |caches| && i < |caches[c].entries|
      requires !caches[c].entries[i].dirty && caches[c].entries[i].ref == 0
      requires Replaces(owner, St(), c, i, e, unfilled') == true
      requires e.offset == 0 || Find(caches[c].entries, e.offset).None?
      modifies `caches, `unfilled
      ensures Valid() == true && |caches| == |old(caches)| && unfilled == unfilled'
      ensures SameViewBut(owner, old(St()), St(), e.offset) == true
      ensures e.offset == 0 || e.table == TableAt(disk, e.offset) ==> SameView(owner, old(St()), St()) == true
      ensures i < |caches[c].entries| && caches[c].entries[i] == e
      ensures e.offset != 0 ==> Logical(owner, caches, disk, e.offset) == e.table
      ensures PinnedKept(old(caches)[c].entries, caches[c].entries)
    {
      ghost var s0 := St();
      Installed(owner, s0, c, i, e, unfilled');
      caches := caches[c := caches[c].(entries := caches[c].entries[i := e])];
      unfilled := unfilled';
      assert St() == WithEntry(s0, c, i, e, unfilled');
    }

    /**
     * The table at offset `o`, pinned: the cached one, or one loaded in the place of an unpinned
     * entry. Without `readFromDisk` a loaded table keeps whatever the entry held before.
     */
    method DoGet(c: nat, o: nat, readFromDisk: bool) returns (ret: int, i: nat)
      requires Valid() == true && c < |caches| == |rank| && o != 0 && owner(o) == c
      modifies `caches, `disk, `clock, `log, `unfilled
      ensures Valid() == true && |caches| == |old(caches)| == |rank|
      ensures ret >= 0 ==> i < |caches[c].entries| && caches[c].entries[i].offset == o && caches[c].entries[i].ref > 0
      ensures ret >= 0 ==> caches[c].entries[i].table == Logical(owner, caches, disk, o)
      ensures ret < 0 || readFromDisk || Find(old(caches)[c].entries, o).Some? ==>
                SameView(owner, old(St()), St()) == true && unfilled == old(unfilled)
      ensures SameViewBut(owner, old(St()), St(), o) == true
      ensures unfilled == old(unfilled) || unfilled == old(unfilled) + {o}
      ensures PinnedKept(old(caches)[c].entries, caches[c].entries) && old(log) <= log
      ensures ret >= 0 ==> caches[c].entries[i].ref == Users(old(caches)[c].entries, o) + 1
      ensures if Find(old(caches)[c].entries, o).None? && NoneEvictable(old(caches)[c].entries) then ret == ABORTED
              else FailsByHost(old(clock), clock, ret)
    {
      ret, i := 0, 0;
      ghost var s0 := St();
      var cached := Find(caches[c].entries, o);
      if cached.Some? {
        i := cached.value;
        Pin(c, i);
        SameViewWeaken(owner, s0, St(), o);
        return;
      }
      ret, i := MakeRoom(c);
      ghost var s1 := St();
      SameViewWeaken(owner, s0, s1, o);
      if ret < 0 {
        return;
      }
      FindSame(s0.caches[c].entries, s1.caches[c].entries, o);
      ret := LoadInto(c, i, o, readFromDisk);
      ghost var s2 := St();
      if ret < 0 || readFromDisk {
        SameViewTrans(owner, s0, s1, s2);
        SameViewWeaken(owner, s0, s2, o);
      } else {
        SameViewThenBut(owner, s0, s1, s2, o);
      }
    }

    /** Loads a table into a written-back entry, unless reading it fails: then the entry is left empty. */
    method LoadInto(c: nat, i: nat, o: nat, readFromDisk: bool) returns (ret: int)
      requires Valid() == true && c < |caches| && i < |caches[c].entries| && o != 0 && owner(o) == c
      requires !caches[c].entries[i].dirty && caches[c].entries[i].ref == 0 && Find(caches[c].entries, o).None?
      modifies `caches, `clock, `unfilled
      ensures Valid() == true && |caches| == |old(caches)| && FailsByHost(old(clock), clock, ret)
      ensures ret >= 0 ==> i < |caches[c].entries| && caches[c].entries[i].offset == o && caches[c].entries[i].ref == 1
      ensures ret >= 0 ==> caches[c].entries[i].table == Logical(owner, caches, disk, o)
      ensures ret < 0 || readFromDisk ==> SameView(owner, old(St()), St()) == true && unfilled == old(unfilled)
      ensures SameViewBut(owner, old(St()), St(), o) == true
      ensures unfilled == old(unfilled) || unfilled == old(unfilled) + {o}
      ensures PinnedKept(old(caches)[c].entries, caches[c].entries)
    {
      ret := 0;
      ghost var s1 := St();
      var table := caches[c].entries[i].table;
      if readFromDisk {
        ret := HostCheck();
        table := if ret >= 0 then TableAt(disk, o) else torn(clock);
      }
      if ret < 0 {
        var hits := caches[c].entries[i].hits;
        NothingReplaces(owner, s1, c, i, hits, table);
        Install(c, i, Entry(0, false, 0, hits, table), unfilled);
        SameViewWeaken(owner, s1, St(), o);
        return;
      }
      ret := 0;
      ghost var unfilled' := if readFromDisk then unfilled else unfilled + {o};
      LoadedReplaces(owner, s1, c, i, o, table, unfilled');
      Install(c, i, Entry(o, false, 1, EMPTY_HITS + 1, table), unfilled');
    }

    /** A user releases entry `i`; a table obtained empty must have been filled first. */
    method Put(c: nat, i: nat)
      requires Valid() == true && c < |caches| && i < |caches[c].entries| && caches[c].entries[i].ref > 0
      requires caches[c].entries[i].offset != 0
      requires caches[c].entries[i].ref == 1 ==> caches[c].entries[i].offset !in unfilled
      modifies `caches
      ensures Valid() == true && SameView(owner, old(St()), St()) == true
      ensures caches == old(caches)[c := old(caches)[c].(entries :=
                old(caches)[c].entries[i := old(caches)[c].entries[i].(ref := old(caches)[c].entries[i].ref - 1)])]
    {
      ghost var s0 := St();
      var e := caches[c].entries[i];
      PinView(owner, s0, c, i, e.(ref := e.ref - 1));
      caches := caches[c := caches[c].(entries := caches[c].entries[i := e.(ref := e.ref - 1)])];
      assert St() == WithEntry(s0, c, i, e.(ref := e.ref - 1), unfilled);
    }

    /** A user changes a table it has pinned and marks it dirty. */
    method ModifyAndMarkDirty(c: nat, i: nat, table: Table)
      requires Valid() == true && c < |caches| && i < |caches[c].entries|
      requires caches[c].entries[i].ref > 0 && caches[c].entries[i].offset != 0
      modifies `caches, `unfilled
      ensures Valid() == true && |caches| == |old(caches)| && i < |caches[c].entries|
      ensures caches[c].entries[i] == old(caches)[c].entries[i].(table := table, dirty := true)
      ensures Logical(owner, caches, disk, caches[c].entries[i].offset) == table
      ensures SameViewBut(owner, old(St()), St(), caches[c].entries[i].offset) == true
      ensures unfilled == old(unfilled) - {caches[c].entries[i].offset}
    {
      ghost var s0 := St();
      var e := caches[c].entries[i].(table := table, dirty := true);
      DirtyView(owner, s0, c, i, table);
      caches := caches[c := caches[c].(entries := caches[c].entries[i := e])];
      unfilled := unfilled - {e.offset};
      assert St() == WithEntry(s0, c, i, e, unfilled);
    }

    /** Writes everything back and drops all tables. */
    method Empty(c: nat) returns (ret: int)
      requires Valid() == true && c < |caches| == |rank|
      requires forall i :: 0 <= i < |caches[c].entries| ==> caches[c].entries[i].ref == 0
      modifies `caches, `disk, `clock, `log
      ensures Valid() == true && SameView(owner, old(St()), St()) == true
      ensures old(log) <= log && FailsByHost(old(clock), clock, ret)
      ensures ret >= 0 ==> c < |caches| && forall i :: 0 <= i < |caches[c].entries| ==>
                                              caches[c].entries[i].offset == 0 && !caches[c].entries[i].dirty
    {
      ghost var s0 := St();
      ret := Flush(c);
      Unseen(owner, s0.rank[c], s0, St());
      CleanerPins(owner, s0.rank[c], s0, St(), c);
      if ret < 0 {
        return ret;
      }
      var i := 0;
      while i < |caches[c].entries|
        invariant c < |caches| && 0 <= i <= |caches[c].entries|
        invariant Valid() == true && SameView(owner, s0, St()) == true && old(log) <= log && old(clock) <= clock
        invariant AllClean(caches[c].entries)
        invariant forall j :: 0 <= j < |caches[c].entries| ==> caches[c].entries[j].ref == 0
        invariant forall j :: 0 <= j < i ==> caches[c].entries[j].offset == 0
        decreases |caches[c].entries| - i
      {
        ghost var s1 := St();
        var e := caches[c].entries[i];
        NothingReplaces(owner, s1, c, i, 0, e.table);
        Installed(owner, s1, c, i, Entry(0, false, 0, 0, e.table), unfilled);
        caches := caches[c := caches[c].(entries := caches[c].entries[i := e.(offset := 0, hits := 0)])];
        assert St() == WithEntry(s1, c, i, Entry(0, false, 0, 0, e.table), unfilled);
        SameViewTrans(owner, s0, s1, St());
        i := i + 1;
      }
    }
  }

  /** Without failing host operations a table is got whenever it is cached or some entry can be replaced. */
  method GetWithoutFaults(s: CacheSet, c: nat, o: nat, readFromDisk: bool) returns (ret: int, i: nat)
    requires s.Valid() == true && c < |s.caches| == |s.rank| && o != 0 && s.owner(o) == c
    requires forall t: nat :: s.faults(t) >= 0
    requires Find(s.caches[c].entries, o).Some? || !NoneEvictable(s.caches[c].entries)
    modifies s
    ensures ret >= 0 && c < |s.caches| && i < |s.caches[c].entries|
    ensures s.caches[c].entries[i].offset == o && s.caches[c].entries[i].ref > 0
  {
    ret, i := s.DoGet(c, o, readFromDisk);
  }

  /** One more entry flushed: the earlier ones are still clean. */
  lemma StillClean(owner: nat -> nat, limit: nat, a: Store, b: Store, s: Store, c: nat, i: nat)
    requires Stepped(owner, limit, a, b) == true && Stepped(owner, limit, b, s) == true
    requires c < |a.caches| && c < |b.caches| && i < |b.caches[c].entries|
    ensures Stepped(owner, limit, a, s) == true && |s.caches| == |a.caches| && s.rank == a.rank
    ensures |s.caches[c].entries| == |b.caches[c].entries| == |a.caches[c].entries|
    ensures AllClean(b.caches[c].entries[..i]) && !s.caches[c].entries[i].dirty ==> AllClean(s.caches[c].entries[..i + 1])
  {
    SteppedTrans(owner, limit, limit, a, b, s);
    StaysClean(owner, limit, a, b, c);
    StaysClean(owner, limit, b, s, c);
    if AllClean(b.caches[c].entries[..i]) {
      forall j | 0 <= j < i
        ensures !s.caches[c].entries[j].dirty
      {
        assert !b.caches[c].entries[..i][j].dirty;
      }
    }
  }

  /**
   * Write ordering, in every state the operations lead to: once a dependency or a barrier has been
   * recorded, its debtor has written no table before a flush, and that flush came after the owed
   * table was written. Evictions, failed writes and re-pointed dependencies do not matter.
   */
  lemma DependenciesAreKept(owner: nat -> nat, s: Store)
    requires Sound(owner, s) == true
    ensures forall k :: k in s.owed ==> Kept(s.log, k)
  {
    forall k | k in s.owed
      ensures Kept(s.log, k)
    {
      assert Honoured(s.caches, s.log, k);
      HonouredMeansKept(s.caches, s.log, k);
    }
  }

  lemma DirtyView(owner: nat -> nat, s: Store, c: nat, i: nat, table: Table)
    requires Sound(owner, s) == true && c < |s.caches| && i < |s.caches[c].entries|
    requires s.caches[c].entries[i].ref > 0 && s.caches[c].entries[i].offset != 0
    ensures var e := s.caches[c].entries[i].(table := table, dirty := true);
            var s' := WithEntry(s, c, i, e, s.unfilled - {e.offset});
            && Sound(owner, s') == true && SameViewBut(owner, s, s', e.offset) == true
            && Logical(owner, s'.caches, s'.disk, e.offset) == table
  {
    var e := s.caches[c].entries[i].(table := table, dirty := true);
    var unfilled := s.unfilled - {e.offset};
    var s' := WithEntry(s, c, i, e, unfilled);
    assert EntryCoherent(owner, s.disk, s.unfilled, c, s.caches[c].entries[i]);
    forall j | 0 <= j < |s.caches[c].entries| && j != i
      ensures s.caches[c].entries[j].offset != e.offset
    {
      assert UniqueOffsets(s.caches[c].entries);
      OffsetsDiffer(s.caches[c].entries, i, j);
    }
    assert Replaces(owner, s, c, i, e, unfilled);
    ReplaceSound(owner, s, c, i, e, unfilled);
    forall o: nat | o != 0
      ensures |s'.caches| == |s.caches| && owner(o) < |s.caches|
      ensures Logical(owner, s'.caches, s'.disk, o) == if e.offset == o then e.table else Logical(owner, s.caches, s.disk, o)
    {
      ReplaceView(owner, s, c, i, e, unfilled, o);
    }
    assert owner(0) < |s.caches|;
    assert SameViewBut(owner, s, s', e.offset);
  }

  lemma PinView(owner: nat -> nat, s: Store, c: nat, i: nat, e: Entry)
    requires Sound(owner, s) == true && c < |s.caches| && i < |s.caches[c].entries| && s.caches[c].entries[i].offset != 0
    requires e == s.caches[c].entries[i].(hits := e.hits, ref := e.ref) && (e.ref > 0 || e.offset !in s.unfilled)
    ensures Sound(owner, WithEntry(s, c, i, e, s.unfilled)) == true
    ensures SameView(owner, s, WithEntry(s, c, i, e, s.unfilled)) == true
    ensures e.table == Logical(owner, WithEntry(s, c, i, e, s.unfilled).caches, s.disk, e.offset)
  {
    var s' := WithEntry(s, c, i, e, s.unfilled);
    assert EntryCoherent(owner, s.disk, s.unfilled, c, s.caches[c].entries[i]);
    assert UniqueOffsets(s.caches[c].entries);
    forall j | 0 <= j < |s.caches[c].entries| && j != i
      ensures s.caches[c].entries[j].offset != e.offset
    {
      OffsetsDiffer(s.caches[c].entries, i, j);
    }
    assert Replaces(owner, s, c, i, e, s.unfilled);
    ReplaceSound(owner, s, c, i, e, s.unfilled);
    FindUnique(s.caches[c].entries, e.offset, i);
    forall o: nat | o != 0
      ensures |s'.caches| == |s.caches| && owner(o) < |s.caches|
      ensures Logical(owner, s'.caches, s'.disk, o) == Logical(owner, s.caches, s.disk, o)
    {
      ReplaceView(owner, s, c, i, e, s.unfilled, o);
    }
    ReplaceView(owner, s, c, i, e, s.unfilled, e.offset);
    assert owner(0) < |s.caches|;
    assert SameView(owner, s, s');
  }

  lemma NothingReplaces(owner: nat -> nat, s: Store, c: nat, i: nat, hits: nat, table: Table)
    requires Sound(owner, s) == true && c < |s.caches| && i < |s.caches[c].entries| && !s.caches[c].entries[i].dirty
    ensures Replaces(owner, s, c, i, Entry(0, false, 0, hits, table), s.unfilled) == true
  {
    assert Replaces(owner, s, c, i, Entry(0, false, 0, hits, table), s.unfilled);
  }

  lemma LoadedReplaces(owner: nat -> nat, s: Store, c: nat, i: nat, o: nat, table: Table, unfilled': set<nat>)
    requires Sound(owner, s) == true && c < |s.caches| && i < |s.caches[c].entries| && !s.caches[c].entries[i].dirty
    requires o != 0 && owner(o) == c && Find(s.caches[c].entries, o).None?
    requires unfilled' == s.unfilled + {o} || (unfilled' == s.unfilled && table == TableAt(s.disk, o))
    ensures Replaces(owner, s, c, i, Entry(o, false, 1, EMPTY_HITS + 1, table), unfilled') == true
  {
    assert Replaces(owner, s, c, i, Entry(o, false, 1, EMPTY_HITS + 1, table), unfilled');
  }

  /** Unpinned, and with a counter the search can prefer to its starting value. */
  predicate Evictable(e: Entry) { e.ref == 0 && e.hits < INT_MAX }

  predicate NoneEvictable(entries: seq<Entry>)
  {
    forall j :: 0 <= j < |entries| ==> !Evictable(entries[j])
  }

  /** How many users the table at `o` has. */
  function Users(entries: seq<Entry>, o: nat): nat
  {
    if Find(entries, o).Some? then entries[Find(entries, o).value].ref else 0
  }

  function HalvedEntry(e: Entry): Entry { if e.ref == 0 then e.(hits := e.hits / 2) else e }

  function HitsHalved(entries: seq<Entry>): seq<Entry>
  {
    seq(|entries|, j requires 0 <= j < |entries| => HalvedEntry(entries[j]))
  }

  /** Callers see the same table at every offset. */
  ghost predicate SameView(owner: nat -> nat, s: Store, s': Store)
  {
    && |s'.caches| == |s.caches| && (forall o :: owner(o) < |s.caches|)
    && forall o: nat :: o != 0 ==> Logical(owner, s'.caches, s'.disk, o) == Logical(owner, s.caches, s.disk, o)
  }

  ghost predicate SameViewBut(owner: nat -> nat, s: Store, s': Store, but: nat)
  {
    && |s'.caches| == |s.caches| && (forall o :: owner(o) < |s.caches|)
    && forall o: nat :: o != 0 && o != but ==> Logical(owner, s'.caches, s'.disk, o) == Logical(owner, s.caches, s.disk, o)
  }

  /** Pinned entries keep their offset and their table, and stay pinned. */
  predicate PinnedKept(entries: seq<Entry>, entries': seq<Entry>)
  {
    && |entries'| == |entries|
    && forall j :: 0 <= j < |entries| && entries[j].ref > 0 ==>
         entries'[j].offset == entries[j].offset && entries'[j].table == entries[j].table && entries'[j].ref >= entries[j].ref
  }

  predicate SameOffsets(entries: seq<Entry>, entries': seq<Entry>)
  {
    |entries'| == |entries| && forall j :: 0 <= j < |entries| ==> entries'[j].offset == entries[j].offset
  }

  lemma CleanerPins(owner: nat -> nat, limit: nat, s: Store, s': Store, c: nat)
    requires Stepped(owner, limit, s, s') == true && c < |s.caches|
    ensures |s'.caches| == |s.caches|
    ensures PinnedKept(s.caches[c].entries, s'.caches[c].entries) && SameOffsets(s.caches[c].entries, s'.caches[c].entries)
    ensures forall j :: 0 <= j < |s.caches[c].entries| ==> s'.caches[c].entries[j].ref == s.caches[c].entries[j].ref
  {
    assert CleanerCache(s.caches[c], s'.caches[c]);
    forall j | 0 <= j < |s.caches[c].entries|
      ensures CleanerEntry(s.caches[c].entries[j], s'.caches[c].entries[j])
    {
    }
  }

  lemma SameViewTrans(owner: nat -> nat, a: Store, b: Store, c: Store)
    requires SameView(owner, a, b) == true && SameView(owner, b, c) == true
    ensures SameView(owner, a, c) == true
  {
    assert SameView(owner, a, c);
  }

  lemma SameViewWeaken(owner: nat -> nat, a: Store, b: Store, o: nat)
    requires SameView(owner, a, b) == true
    ensures SameViewBut(owner, a, b, o) == true
  {
    assert SameViewBut(owner, a, b, o);
  }

  lemma SameViewThenBut(owner: nat -> nat, a: Store, b: Store, c: Store, o: nat)
    requires SameView(owner, a, b) == true && SameViewBut(owner, b, c, o) == true
    ensures SameViewBut(owner, a, c, o) == true
  {
    assert SameViewBut(owner, a, c, o);
  }

  /** A clean, unpinned entry holds what the host holds, so it can go. */
  lemma Discardable(owner: nat -> nat, s: Store, c: nat, i: nat)
    requires Sound(owner, s) == true && c < |s.caches| && i < |s.caches[c].entries|
    requires !s.caches[c].entries[i].dirty && s.caches[c].entries[i].ref == 0
    ensures var was := s.caches[c].entries[i];
            was.offset == 0 || (was.table == TableAt(s.disk, was.offset) && was.offset !in s.unfilled)
  {
    assert EntryCoherent(owner, s.disk, s.unfilled, c, s.caches[c].entries[i]);
  }

  /** What an installed entry does to the view. */
  lemma Installed(owner: nat -> nat, s: Store, c: nat, i: nat, e: Entry, unfilled: set<nat>)
    requires Sound(owner, s) == true && c < |s.caches| && i < |s.caches[c].entries|
    requires !s.caches[c].entries[i].dirty && s.caches[c].entries[i].ref == 0
    requires Replaces(owner, s, c, i, e, unfilled) == true
    requires e.offset == 0 || Find(s.caches[c].entries, e.offset).None?
    ensures Sound(owner, WithEntry(s, c, i, e, unfilled)) == true
    ensures SameViewBut(owner, s, WithEntry(s, c, i, e, unfilled), e.offset) == true
    ensures e.offset == 0 || e.table == TableAt(s.disk, e.offset) ==>
              SameView(owner, s, WithEntry(s, c, i, e, unfilled)) == true
    ensures e.offset != 0 ==>
              Logical(owner, WithEntry(s, c, i, e, unfilled).caches, s.disk, e.offset) == e.table
  {
    var s' := WithEntry(s, c, i, e, unfilled);
    ReplaceSound(owner, s, c, i, e, unfilled);
    Discardable(owner, s, c, i);
    forall o: nat | o != 0
      ensures owner(o) < |s.caches| && |s'.caches| == |s.caches|
      ensures Logical(owner, s'.caches, s'.disk, o) == if e.offset == o then e.table else Logical(owner, s.caches, s.disk, o)
    {
      ReplaceView(owner, s, c, i, e, unfilled, o);
    }
    assert owner(0) < |s.caches|;
    assert SameViewBut(owner, s, s', e.offset);
    if e.offset == 0 || e.table == TableAt(s.disk, e.offset) {
      assert e.offset != 0 ==> owner(e.offset) == c;
      assert SameView(owner, s, s');
    }
  }


  /** Flushing is invisible at every offset. */
  lemma Unseen(owner: nat -> nat, limit: nat, s: Store, s': Store)
    requires Stepped(owner, limit, s, s') == true
    ensures |s'.caches| == |s.caches| && s.log <= s'.log && s'.owed == s.owed && s'.rank == s.rank
    ensures SameView(owner, s, s') == true
  {
    forall o: nat
      ensures Logical(owner, s'.caches, s'.disk, o) == Logical(owner, s.caches, s.disk, o)
    {
      WriteBackInvisible(owner, limit, s, s', o);
    }
    assert SameView(owner, s, s');
  }

  lemma StaysIndependent(owner: nat -> nat, limit: nat, s: Store, s': Store, d: nat)
    requires Stepped(owner, limit, s, s') == true && d < |s.caches| && s.caches[d].depends.None?
    ensures |s'.caches| == |s.caches| && s'.caches[d].depends.None?
  {
    assert CleanerCache(s.caches[d], s'.caches[d]);
  }

  lemma SameEntriesView(owner: nat -> nat, s: Store, s': Store)
    requires |s'.caches| == |s.caches| && s'.disk == s.disk && Sound(owner, s) == true
    requires forall x :: 0 <= x < |s.caches| ==> s'.caches[x].entries == s.caches[x].entries
    ensures SameView(owner, s, s') == true
  {
    assert SameView(owner, s, s');
  }

  predicate AllClean(entries: seq<Entry>)
  {
    forall i :: 0 <= i < |entries| ==> !entries[i].dirty
  }
}
