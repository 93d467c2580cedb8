/** The state of the qcow2 metadata caches, and the order of stable writes they owe each other. */
module MetadataCacheState {
  import opened Bytes

  type Table = seq<byte>

  /** A cached table. An offset of 0 marks an empty entry. */
  datatype Entry = Entry(offset: nat, dirty: bool, ref: nat, hits: nat, table: Table)

  datatype Cache = Cache(entries: seq<Entry>, depends: Option<nat>, dependsOnFlush: bool)

  /** What happened on the host: attempted table writes, and flushes that made everything stable. */
  datatype Event = Wrote(cache: nat, offset: nat, done: bool) | Flushed

  function TableAt(disk: map<nat, Table>, o: nat): Table
  {
    if o in disk then disk[o] else []
  }

  /** Index of the entry with offset `o`. */
  function Find(entries: seq<Entry>, o: nat): (r: Option<nat>)
    ensures r.Some? ==> r.value < |entries| && entries[r.value].offset == o
    ensures r.None? <==> forall i :: 0 <= i < |entries| ==> entries[i].offset != o
  {
    if |entries| == 0 then None
    else if entries[|entries| - 1].offset == o then Some(|entries| - 1)
    else Find(entries[..|entries| - 1], o)
  }

  /** The table store callers see: what is cached, and the host elsewhere. */
  function Logical(owner: nat -> nat, caches: seq<Cache>, disk: map<nat, Table>, o: nat): Table
    requires owner(o) < |caches|
  {
    var entries := caches[owner(o)].entries;
    match Find(entries, o)
    case Some(i) => entries[i].table
    case None => TableAt(disk, o)
  }

  ghost predicate UniqueOffsets(entries: seq<Entry>)
  {
    forall i, j :: 0 <= i < j < |entries| && entries[i].offset != 0 ==> entries[i].offset != entries[j].offset
  }

  /** Clean entries agree with the host, dirty ones have an offset, and each offset has its own cache. */
  ghost predicate EntryCoherent(owner: nat -> nat, disk: map<nat, Table>, unfilled: set<nat>, c: nat, e: Entry)
  {
    && (e.dirty ==> e.offset != 0)
    && (e.offset != 0 ==> owner(e.offset) == c)
    && (e.offset != 0 && !e.dirty && e.offset !in unfilled ==> e.table == TableAt(disk, e.offset))
    && (e.offset in unfilled ==> e.ref > 0)
  }

  ghost predicate Coherent(owner: nat -> nat, caches: seq<Cache>, disk: map<nat, Table>, unfilled: set<nat>)
  {
    && 0 !in unfilled
    && (forall c :: 0 <= c < |caches| ==> UniqueOffsets(caches[c].entries))
    && (forall c, i :: 0 <= c < |caches| && 0 <= i < |caches[c].entries| ==>
          EntryCoherent(owner, disk, unfilled, c, caches[c].entries[i]))
  }

  /** Every dependency leads to a cache of smaller rank, so there is no cycle. */
  ghost predicate Acyclic(caches: seq<Cache>, rank: seq<nat>)
  {
    && |rank| == |caches|
    && forall c :: 0 <= c < |caches| && caches[c].depends.Some? ==>
         caches[c].depends.value < |caches| && rank[caches[c].depends.value] < rank[c]
  }

  // ----- owed order -----

  /**
   * `Order(c, d, o, since)`: table `o` of cache `d`, dirty at time `since`, must be stable before any
   * table of `c` is written again. `Barrier(c, since)`: a flush must come before that.
   */
  datatype Owed = Order(cache: nat, on: nat, offset: nat, since: nat) | Barrier(cache: nat, since: nat)

  ghost predicate NoWrites(log: seq<Event>, c: nat, from: nat, to: nat)
  {
    forall t :: from <= t < to && t < |log| ==> !(log[t].Wrote? && log[t].cache == c)
  }

  ghost predicate Written(log: seq<Event>, d: nat, o: nat, from: nat, to: nat)
  {
    exists t :: from <= t < to && t < |log| && log[t] == Wrote(d, o, true)
  }

  /** The debt was paid at flush `f`, before any write of the debtor. */
  ghost predicate PaidAt(log: seq<Event>, k: Owed, f: nat)
  {
    && k.since <= f < |log| && log[f] == Flushed && NoWrites(log, k.cache, k.since, f)
    && (k.Order? ==> Written(log, k.on, k.offset, k.since, f))
  }

  ghost predicate Paid(log: seq<Event>, k: Owed)
  {
    exists f: nat :: PaidAt(log, k, f)
  }

  ghost predicate DirtyIn(caches: seq<Cache>, d: nat, o: nat)
  {
    d < |caches| && exists i :: 0 <= i < |caches[d].entries| && caches[d].entries[i].offset == o && caches[d].entries[i].dirty
  }

  /** Paid, or still remembered by the debtor. */
  ghost predicate Honoured(caches: seq<Cache>, log: seq<Event>, k: Owed)
  {
    && k.since <= |log| && k.cache < |caches|
    && (Paid(log, k) || Remembered(caches, log, k))
  }

  ghost predicate Remembered(caches: seq<Cache>, log: seq<Event>, k: Owed)
  {
    && k.cache < |caches| && NoWrites(log, k.cache, k.since, |log|)
    && match k
       case Order(c, d, o, since) => caches[c].depends == Some(d) && (DirtyIn(caches, d, o) || Written(log, d, o, since, |log|))
       case Barrier(c, _) => caches[c].dependsOnFlush
  }

  /** The promise: before any later write of the debtor lies a flush, and before it the owed table. */
  ghost predicate Kept(log: seq<Event>, k: Owed)
  {
    forall t :: k.since <= t < |log| && log[t].Wrote? && log[t].cache == k.cache ==>
      exists f :: k.since <= f < t && log[f] == Flushed && (k.Order? ==> Written(log, k.on, k.offset, k.since, f))
  }

  lemma HonouredMeansKept(caches: seq<Cache>, log: seq<Event>, k: Owed)
    requires Honoured(caches, log, k)
    ensures Kept(log, k)
  {
    if Paid(log, k) {
      var f: nat :| PaidAt(log, k, f);
      forall t | k.since <= t < |log| && log[t].Wrote? && log[t].cache == k.cache
        ensures k.since <= f < t && log[f] == Flushed && (k.Order? ==> Written(log, k.on, k.offset, k.since, f))
      {
      }
    }
  }

  lemma PaidForever(log: seq<Event>, log': seq<Event>, k: Owed)
    requires Paid(log, k) && log <= log'
    ensures Paid(log', k)
  {
    var f: nat :| PaidAt(log, k, f);
    if k.Order? {
      var t :| k.since <= t < f && t < |log| && log[t] == Wrote(k.on, k.offset, true);
      assert log'[t] == Wrote(k.on, k.offset, true);
    }
    assert PaidAt(log', k, f);
  }

  lemma WrittenForever(log: seq<Event>, log': seq<Event>, d: nat, o: nat, since: nat)
    requires Written(log, d, o, since, |log|) && log <= log'
    ensures Written(log', d, o, since, |log'|)
  {
    var t :| since <= t < |log| && log[t] == Wrote(d, o, true);
    assert log'[t] == Wrote(d, o, true);
  }

  // ----- how cleaning changes the caches -----

  /** The same entry, perhaps written back in the meantime. */
  predicate CleanerEntry(e: Entry, e': Entry)
  {
    e' == e || e' == e.(dirty := false)
  }

  predicate CleanerCache(c: Cache, c': Cache)
  {
    && |c'.entries| == |c.entries|
    && (forall i :: 0 <= i < |c.entries| ==> CleanerEntry(c.entries[i], c'.entries[i]))
    && (c'.depends == c.depends || c'.depends.None?)
    && (c'.dependsOnFlush ==> c.dependsOnFlush)
  }

  predicate Cleaner(caches: seq<Cache>, caches': seq<Cache>)
  {
    |caches'| == |caches| && forall c :: 0 <= c < |caches| ==> CleanerCache(caches[c], caches'[c])
  }

  lemma CleanerTrans(a: seq<Cache>, b: seq<Cache>, c: seq<Cache>)
    requires Cleaner(a, b) && Cleaner(b, c)
    ensures Cleaner(a, c)
  {
    forall k | 0 <= k < |a|
      ensures CleanerCache(a[k], c[k])
    {
      assert CleanerCache(a[k], b[k]) && CleanerCache(b[k], c[k]);
      forall i | 0 <= i < |a[k].entries|
        ensures CleanerEntry(a[k].entries[i], c[k].entries[i])
      {
        assert CleanerEntry(a[k].entries[i], b[k].entries[i]) && CleanerEntry(b[k].entries[i], c[k].entries[i]);
      }
    }
  }

  lemma {:induction false} FindSame(entries: seq<Entry>, entries': seq<Entry>, o: nat)
    requires |entries| == |entries'|
    requires forall i :: 0 <= i < |entries| ==> entries'[i].offset == entries[i].offset
    ensures Find(entries', o) == Find(entries, o)
  {
    if |entries| > 0 {
      FindSame(entries[..|entries| - 1], entries'[..|entries| - 1], o);
    }
  }

  lemma {:induction false} FindUnique(entries: seq<Entry>, o: nat, i: nat)
    requires UniqueOffsets(entries) && o != 0 && i < |entries| && entries[i].offset == o
    ensures Find(entries, o) == Some(i)
  {
    if i < |entries| - 1 {
      assert entries[i].offset != entries[|entries| - 1].offset;
      FindUnique(entries[..|entries| - 1], o, i);
    }
  }

  /** Writing back changes the host only under cached tables, so callers see no difference. */
  lemma CleaningIsTransparent(owner: nat -> nat, caches: seq<Cache>, disk: map<nat, Table>,
                              caches': seq<Cache>, disk': map<nat, Table>, o: nat)
    requires Cleaner(caches, caches') && owner(o) < |caches|
    requires TableAt(disk', o) == TableAt(disk, o) || Find(caches[owner(o)].entries, o).Some?
    ensures Logical(owner, caches', disk', o) == Logical(owner, caches, disk, o)
  {
    var c := owner(o);
    assert CleanerCache(caches[c], caches'[c]);
    forall i | 0 <= i < |caches[c].entries|
      ensures caches'[c].entries[i].offset == caches[c].entries[i].offset
      ensures caches'[c].entries[i].table == caches[c].entries[i].table
    {
      assert CleanerEntry(caches[c].entries[i], caches'[c].entries[i]);
    }
    FindSame(caches[c].entries, caches'[c].entries, o);
  }

  // ----- what write-back may do -----

  /** Only caches of rank at most `limit` change or write, and only cached tables change on the host. */
  ghost predicate WriteBack(owner: nat -> nat, rank: seq<nat>, limit: nat,
                            caches: seq<Cache>, disk: map<nat, Table>, log: seq<Event>,
                            caches': seq<Cache>, disk': map<nat, Table>, log': seq<Event>)
    requires |rank| == |caches| && forall o :: owner(o) < |caches|
  {
    && Cleaner(caches, caches') && log <= log'
    && (forall o :: TableAt(disk', o) == TableAt(disk, o) || Find(caches[owner(o)].entries, o).Some?)
    && (forall t :: |log| <= t < |log'| && log'[t].Wrote? ==> log'[t].cache < |rank| && rank[log'[t].cache] <= limit)
    && (forall c :: 0 <= c < |caches| && rank[c] > limit ==> caches'[c] == caches[c])
  }

  lemma CleanerFind(owner: nat -> nat, caches: seq<Cache>, caches': seq<Cache>, o: nat)
    requires Cleaner(caches, caches') && owner(o) < |caches|
    ensures Find(caches'[owner(o)].entries, o) == Find(caches[owner(o)].entries, o)
  {
    var c := owner(o);
    assert CleanerCache(caches[c], caches'[c]);
    forall i | 0 <= i < |caches[c].entries|
      ensures caches'[c].entries[i].offset == caches[c].entries[i].offset
    {
      assert CleanerEntry(caches[c].entries[i], caches'[c].entries[i]);
    }
    FindSame(caches[c].entries, caches'[c].entries, o);
  }

  lemma WriteBackTrans(owner: nat -> nat, rank: seq<nat>, limit: nat, limit': nat,
                       a: seq<Cache>, da: map<nat, Table>, la: seq<Event>,
                       b: seq<Cache>, db: map<nat, Table>, lb: seq<Event>,
                       c: seq<Cache>, dc: map<nat, Table>, lc: seq<Event>)
    requires |rank| == |a| && (forall o :: owner(o) < |a|) && |b| == |a|
    requires WriteBack(owner, rank, limit, a, da, la, b, db, lb)
    requires WriteBack(owner, rank, limit', b, db, lb, c, dc, lc) && limit' <= limit
    ensures WriteBack(owner, rank, limit, a, da, la, c, dc, lc)
  {
    CleanerTrans(a, b, c);
    forall o: nat
      ensures TableAt(dc, o) == TableAt(da, o) || Find(a[owner(o)].entries, o).Some?
    {
      CleanerFind(owner, a, b, o);
    }
    forall t | |la| <= t < |lc| && lc[t].Wrote?
      ensures lc[t].cache < |rank| && rank[lc[t].cache] <= limit
    {
      if t < |lb| {
        assert lc[t] == lb[t];
      }
    }
  }

  /** A debt stays honoured when its debtor does not write and still remembers it. */
  lemma HonouredKept(caches: seq<Cache>, caches': seq<Cache>, log: seq<Event>, log': seq<Event>, k: Owed)
    requires Honoured(caches, log, k) && log <= log' && |caches'| == |caches|
    requires Paid(log, k) || NoWrites(log', k.cache, |log|, |log'|)
    requires Paid(log, k) || (caches'[k.cache].depends == caches[k.cache].depends
                              && caches'[k.cache].dependsOnFlush == caches[k.cache].dependsOnFlush)
    requires k.Order? && DirtyIn(caches, k.on, k.offset) ==>
               DirtyIn(caches', k.on, k.offset) || Written(log', k.on, k.offset, k.since, |log'|)
    ensures Honoured(caches', log', k)
  {
    if Paid(log, k) {
      PaidForever(log, log', k);
    } else {
      forall t | k.since <= t < |log'| && t < |log'|
        ensures !(log'[t].Wrote? && log'[t].cache == k.cache)
      {
        if t < |log| {
          assert log'[t] == log[t];
        }
      }
      if k.Order? && Written(log, k.on, k.offset, k.since, |log|) {
        WrittenForever(log, log', k.on, k.offset, k.since);
      }
    }
  }

  /** A flush pays every debt whose owed table has been written, and every barrier. */
  lemma FlushPays(log: seq<Event>, k: Owed)
    requires |log| > 0 && log[|log| - 1] == Flushed && k.since < |log| && NoWrites(log, k.cache, k.since, |log|)
    requires k.Order? ==> Written(log, k.on, k.offset, k.since, |log|)
    ensures Paid(log, k)
  {
    var f: nat := |log| - 1;
    if k.Order? {
      var t :| k.since <= t < |log| && log[t] == Wrote(k.on, k.offset, true);
      assert t < f;
      assert Written(log, k.on, k.offset, k.since, f);
    }
    assert PaidAt(log, k, f);
  }

  // ----- the whole state -----

  datatype Store = Store(caches: seq<Cache>, disk: map<nat, Table>, log: seq<Event>,
                         rank: seq<nat>, owed: set<Owed>, unfilled: set<nat>)

  ghost predicate Sound(owner: nat -> nat, s: Store)
  {
    && (forall o :: owner(o) < |s.caches|)
    && Coherent(owner, s.caches, s.disk, s.unfilled)
    && Acyclic(s.caches, s.rank)
    && (forall k :: k in s.owed ==> Honoured(s.caches, s.log, k))
  }

  /** What writing back on behalf of a cache of rank `limit` may do to the state. */
  ghost predicate Stepped(owner: nat -> nat, limit: nat, s: Store, s': Store)
  {
    && |s'.caches| == |s.caches| == |s.rank| && s'.rank == s.rank && s'.owed == s.owed && s'.unfilled == s.unfilled
    && (forall o :: owner(o) < |s.caches|)
    && WriteBack(owner, s.rank, limit, s.caches, s.disk, s.log, s'.caches, s'.disk, s'.log)
  }

  lemma SteppedSelf(owner: nat -> nat, limit: nat, s: Store)
    requires Sound(owner, s) == true
    ensures Stepped(owner, limit, s, s) == true
  {
    assert Stepped(owner, limit, s, s);
  }

  lemma SteppedTrans(owner: nat -> nat, limit: nat, limit': nat, a: Store, b: Store, c: Store)
    requires Stepped(owner, limit, a, b) == true && Stepped(owner, limit', b, c) == true && limit' <= limit
    ensures Stepped(owner, limit, a, c) == true
  {
    WriteBackTrans(owner, a.rank, limit, limit', a.caches, a.disk, a.log, b.caches, b.disk, b.log, c.caches, c.disk, c.log);
    assert Stepped(owner, limit, a, c);
  }

  /** A flush of the host. */
  lemma FlushStep(owner: nat -> nat, limit: nat, s: Store)
    requires Sound(owner, s) == true
    ensures Sound(owner, s.(log := s.log + [Flushed])) == true
    ensures Stepped(owner, limit, s, s.(log := s.log + [Flushed])) == true
  {
    var s' := s.(log := s.log + [Flushed]);
    forall k | k in s.owed
      ensures Honoured(s'.caches, s'.log, k)
    {
      HonouredKept(s.caches, s'.caches, s.log, s'.log, k);
    }
    assert Sound(owner, s');
    assert Stepped(owner, limit, s, s');
  }

  /** Cache `c` with its dependency and its barrier forgotten. */
  function Forgotten(s: Store, c: nat): Store
    requires c < |s.caches|
  {
    s.(caches := s.caches[c := s.caches[c].(depends := None, dependsOnFlush := false)])
  }

  lemma ForgottenCleaner(s: Store, c: nat)
    requires c < |s.caches|
    ensures Cleaner(s.caches, Forgotten(s, c).caches)
  {
    var caches' := Forgotten(s, c).caches;
    forall x | 0 <= x < |s.caches|
      ensures CleanerCache(s.caches[x], caches'[x])
    {
      assert forall i :: 0 <= i < |s.caches[x].entries| ==> CleanerEntry(s.caches[x].entries[i], caches'[x].entries[i]);
    }
  }

  lemma DirtyElsewhere(caches: seq<Cache>, caches': seq<Cache>, d: nat, o: nat)
    requires |caches'| == |caches| && forall c :: 0 <= c < |caches| ==> caches'[c].entries == caches[c].entries
    ensures DirtyIn(caches', d, o) == DirtyIn(caches, d, o)
  {
  }

  /** All that `c` owed has been paid by the flush that just ended, so it may forget. */
  lemma ForgetStep(owner: nat -> nat, limit: nat, s: Store, c: nat)
    requires Sound(owner, s) == true && c < |s.caches| && |s.log| > 0 && s.log[|s.log| - 1] == Flushed
    requires c < |s.rank| && s.rank[c] <= limit
    requires forall k :: k in s.owed ==> k.since < |s.log|
    requires s.caches[c].depends.Some? ==>
               var d := s.caches[c].depends.value;
               d < |s.caches| && forall i :: 0 <= i < |s.caches[d].entries| ==> !s.caches[d].entries[i].dirty
    ensures Sound(owner, Forgotten(s, c)) == true && Stepped(owner, limit, s, Forgotten(s, c)) == true
  {
    var s' := Forgotten(s, c);
    ForgottenCleaner(s, c);
    assert forall x :: 0 <= x < |s.caches| ==> s'.caches[x].entries == s.caches[x].entries;
    forall k | k in s.owed
      ensures Honoured(s'.caches, s'.log, k)
    {
      assert Honoured(s.caches, s.log, k);
      if k.cache == c && !Paid(s.log, k) {
        FlushPays(s.log, k);
      }
      if k.Order? {
        DirtyElsewhere(s.caches, s'.caches, k.on, k.offset);
      }
      HonouredKept(s.caches, s'.caches, s.log, s'.log, k);
    }
    assert Coherent(owner, s'.caches, s'.disk, s'.unfilled);
    assert Sound(owner, s');
    assert Stepped(owner, limit, s, s');
  }

  /** The state after an attempt to write entry `i` of cache `c`; `bad` is what a failure leaves behind. */
  function WrittenBack(s: Store, c: nat, i: nat, ok: bool, bad: Table): Store
    requires c < |s.caches| && i < |s.caches[c].entries|
  {
    var e := s.caches[c].entries[i];
    var s' := s.(disk := s.disk[e.offset := if ok then e.table else bad], log := s.log + [Wrote(c, e.offset, ok)]);
    if ok then s'.(caches := s.caches[c := s.caches[c].(entries := s.caches[c].entries[i := e.(dirty := false)])]) else s'
  }

  lemma WrittenBackCleaner(s: Store, c: nat, i: nat, ok: bool, bad: Table)
    requires c < |s.caches| && i < |s.caches[c].entries|
    ensures Cleaner(s.caches, WrittenBack(s, c, i, ok, bad).caches)
  {
    var caches' := WrittenBack(s, c, i, ok, bad).caches;
    forall x | 0 <= x < |s.caches|
      ensures CleanerCache(s.caches[x], caches'[x])
    {
      assert forall j :: 0 <= j < |s.caches[x].entries| ==> CleanerEntry(s.caches[x].entries[j], caches'[x].entries[j]);
    }
  }

  lemma OffsetsDiffer(entries: seq<Entry>, i: nat, j: nat)
    requires UniqueOffsets(entries) && i < |entries| && j < |entries| && i != j && entries[i].offset != 0
    ensures entries[i].offset != entries[j].offset
  {
    assert entries[Min(i, j)].offset == 0 || entries[Min(i, j)].offset != entries[Max(i, j)].offset;
  }

  lemma WrittenBackCoherent(owner: nat -> nat, s: Store, c: nat, i: nat, ok: bool, bad: Table)
    requires Sound(owner, s) == true && c < |s.caches| && i < |s.caches[c].entries| && s.caches[c].entries[i].dirty
    ensures Coherent(owner, WrittenBack(s, c, i, ok, bad).caches, WrittenBack(s, c, i, ok, bad).disk, s.unfilled) == true
  {
    var s' := WrittenBack(s, c, i, ok, bad);
    var o := s.caches[c].entries[i].offset;
    assert EntryCoherent(owner, s.disk, s.unfilled, c, s.caches[c].entries[i]);
    forall x, j | 0 <= x < |s'.caches| && 0 <= j < |s'.caches[x].entries|
      ensures EntryCoherent(owner, s'.disk, s'.unfilled, x, s'.caches[x].entries[j])
    {
      var e := s.caches[x].entries[j];
      assert EntryCoherent(owner, s.disk, s.unfilled, x, s.caches[x].entries[j]);
      if x == c && j != i {
        OffsetsDiffer(s.caches[c].entries, i, j);
      }
    }
    assert Coherent(owner, s'.caches, s'.disk, s'.unfilled);
  }

  /** Writing a table of a cache that owes nothing any more. */
  lemma WriteStep(owner: nat -> nat, limit: nat, s: Store, c: nat, i: nat, ok: bool, bad: Table)
    requires Sound(owner, s) == true && c < |s.caches| && i < |s.caches[c].entries| && s.caches[c].entries[i].dirty
    requires s.caches[c].depends.None? && !s.caches[c].dependsOnFlush && c < |s.rank| && s.rank[c] <= limit
    ensures Sound(owner, WrittenBack(s, c, i, ok, bad)) == true
    ensures Stepped(owner, limit, s, WrittenBack(s, c, i, ok, bad)) == true
  {
    var s' := WrittenBack(s, c, i, ok, bad);
    WrittenBackCleaner(s, c, i, ok, bad);
    WrittenBackCoherent(owner, s, c, i, ok, bad);
    forall k | k in s.owed
      ensures Honoured(s'.caches, s'.log, k)
    {
      WriteHonours(s, c, i, ok, bad, k);
    }
    assert Sound(owner, s');
    WriteStepped(owner, limit, s, c, i, ok, bad);
  }

  lemma WriteHonours(s: Store, c: nat, i: nat, ok: bool, bad: Table, k: Owed)
    requires c < |s.caches| && i < |s.caches[c].entries| && Honoured(s.caches, s.log, k)
    requires s.caches[c].depends.None? && !s.caches[c].dependsOnFlush
    ensures Honoured(WrittenBack(s, c, i, ok, bad).caches, WrittenBack(s, c, i, ok, bad).log, k)
  {
    var s' := WrittenBack(s, c, i, ok, bad);
    var o := s.caches[c].entries[i].offset;
    if k.Order? && DirtyIn(s.caches, k.on, k.offset) && !Paid(s.log, k) {
      if k.on == c && k.offset == o && ok {
        assert s'.log[|s.log|] == Wrote(k.on, k.offset, true);
        assert Written(s'.log, k.on, k.offset, k.since, |s'.log|);
      } else {
        var j :| 0 <= j < |s.caches[k.on].entries| && s.caches[k.on].entries[j].offset == k.offset && s.caches[k.on].entries[j].dirty;
        assert s'.caches[k.on].entries[j] == s.caches[k.on].entries[j];
        assert DirtyIn(s'.caches, k.on, k.offset);
      }
    }
    if k.Order? && Paid(s.log, k) {
      PaidForever(s.log, s'.log, k);
    } else if Paid(s.log, k) {
      PaidForever(s.log, s'.log, k);
    } else {
      HonouredKept(s.caches, s'.caches, s.log, s'.log, k);
    }
  }

  lemma WriteStepped(owner: nat -> nat, limit: nat, s: Store, c: nat, i: nat, ok: bool, bad: Table)
    requires Sound(owner, s) == true && c < |s.caches| && i < |s.caches[c].entries| && s.caches[c].entries[i].dirty
    requires c < |s.rank| && s.rank[c] <= limit
    ensures Stepped(owner, limit, s, WrittenBack(s, c, i, ok, bad)) == true
  {
    var s' := WrittenBack(s, c, i, ok, bad);
    var o := s.caches[c].entries[i].offset;
    WrittenBackCleaner(s, c, i, ok, bad);
    assert EntryCoherent(owner, s.disk, s.unfilled, c, s.caches[c].entries[i]);
    assert owner(o) == c && Find(s.caches[c].entries, o).Some?;
    assert Stepped(owner, limit, s, s');
  }

  lemma SteppedWiden(owner: nat -> nat, limit: nat, limit': nat, s: Store, s': Store)
    requires Stepped(owner, limit, s, s') == true && limit <= limit'
    ensures Stepped(owner, limit', s, s') == true
  {
    assert Stepped(owner, limit', s, s');
  }

  lemma DependencyRank(owner: nat -> nat, s: Store, c: nat)
    requires Sound(owner, s) == true && c < |s.caches|
    ensures |s.rank| == |s.caches|
    ensures s.caches[c].depends.Some? ==>
              s.caches[c].depends.value < |s.caches| && s.rank[s.caches[c].depends.value] < s.rank[c]
  {
  }

  lemma OwedBefore(owner: nat -> nat, s: Store, n: nat)
    requires Sound(owner, s) == true && |s.log| < n
    ensures forall k :: k in s.owed ==> k.since < n
  {
    forall k | k in s.owed
      ensures k.since < n
    {
      assert Honoured(s.caches, s.log, k);
    }
  }

  /** Once the cache that `c` depends on has been flushed, `c` may forget about it. */
  lemma DependencyFlushed(owner: nat -> nat, s0: Store, s1: Store, c: nat)
    requires Sound(owner, s0) == true && Sound(owner, s1) == true && c < |s0.caches| == |s0.rank|
    requires Stepped(owner, s0.rank[c], s0, s1) == true
    requires |s1.log| > |s0.log| && s1.log[|s1.log| - 1] == Flushed
    requires c < |s1.caches| && s1.caches[c].depends.Some?
    requires var d := s1.caches[c].depends.value;
             d < |s1.caches| && forall i :: 0 <= i < |s1.caches[d].entries| ==> !s1.caches[d].entries[i].dirty
    ensures Sound(owner, Forgotten(s1, c)) == true && Stepped(owner, s0.rank[c], s0, Forgotten(s1, c)) == true
  {
    OwedBefore(owner, s0, |s1.log|);
    ForgetStep(owner, s0.rank[c], s1, c);
    SteppedTrans(owner, s0.rank[c], s0.rank[c], s0, s1, Forgotten(s1, c));
  }

  lemma DirtyHasOffset(owner: nat -> nat, s: Store, c: nat, i: nat)
    requires Sound(owner, s) == true && c < |s.caches| && i < |s.caches[c].entries|
    ensures s.caches[c].entries[i].dirty ==> s.caches[c].entries[i].offset != 0
  {
    assert EntryCoherent(owner, s.disk, s.unfilled, c, s.caches[c].entries[i]);
  }

  /** Cleaning never makes an entry dirty. */
  lemma StaysClean(owner: nat -> nat, limit: nat, s: Store, s': Store, c: nat)
    requires Stepped(owner, limit, s, s') == true && c < |s.caches|
    ensures |s'.caches| == |s.caches| && |s'.caches[c].entries| == |s.caches[c].entries|
    ensures forall j :: 0 <= j < |s.caches[c].entries| ==>
              CleanerEntry(s.caches[c].entries[j], s'.caches[c].entries[j])
  {
    assert CleanerCache(s.caches[c], s'.caches[c]);
  }

  /** Callers cannot tell that tables were written back. */
  lemma WriteBackInvisible(owner: nat -> nat, limit: nat, s: Store, s': Store, o: nat)
    requires Stepped(owner, limit, s, s') == true && owner(o) < |s.caches|
    ensures |s'.caches| == |s.caches| && Logical(owner, s'.caches, s'.disk, o) == Logical(owner, s.caches, s.disk, o)
  {
    CleaningIsTransparent(owner, s.caches, s.disk, s'.caches, s'.disk, o);
  }

  // ----- replacing one entry -----

  function WithEntry(s: Store, c: nat, i: nat, e: Entry, unfilled: set<nat>): Store
    requires c < |s.caches| && i < |s.caches[c].entries|
  {
    s.(caches := s.caches[c := s.caches[c].(entries := s.caches[c].entries[i := e])], unfilled := unfilled)
  }

  /** Entry `e` may take the place of entry `i`: no duplicate, coherent, and nothing dirty is dropped. */
  ghost predicate Replaces(owner: nat -> nat, s: Store, c: nat, i: nat, e: Entry, unfilled: set<nat>)
    requires c < |s.caches| && i < |s.caches[c].entries|
  {
    var was := s.caches[c].entries[i];
    && (e.offset != 0 ==> forall j :: 0 <= j < |s.caches[c].entries| && j != i ==> s.caches[c].entries[j].offset != e.offset)
    && EntryCoherent(owner, s.disk, unfilled, c, e)
    && (was.dirty ==> e.dirty && e.offset == was.offset)
    && 0 !in unfilled
    && (forall o :: o != e.offset && o in unfilled ==> o in s.unfilled)
    && (forall o :: o != e.offset && o in s.unfilled ==> o in unfilled)
  }

  lemma ReplaceSound(owner: nat -> nat, s: Store, c: nat, i: nat, e: Entry, unfilled: set<nat>)
    requires Sound(owner, s) == true && c < |s.caches| && i < |s.caches[c].entries|
    requires Replaces(owner, s, c, i, e, unfilled) == true
    ensures Sound(owner, WithEntry(s, c, i, e, unfilled)) == true
  {
    var s' := WithEntry(s, c, i, e, unfilled);
    forall x, j | 0 <= x < |s'.caches| && 0 <= j < |s'.caches[x].entries|
      ensures EntryCoherent(owner, s'.disk, s'.unfilled, x, s'.caches[x].entries[j])
    {
      if x != c || j != i {
        assert EntryCoherent(owner, s.disk, s.unfilled, x, s.caches[x].entries[j]);
      }
    }
    forall x | 0 <= x < |s'.caches|
      ensures UniqueOffsets(s'.caches[x].entries)
    {
      assert UniqueOffsets(s.caches[x].entries);
    }
    forall k | k in s.owed
      ensures Honoured(s'.caches, s'.log, k)
    {
      assert Honoured(s.caches, s.log, k);
      if k.Order? && DirtyIn(s.caches, k.on, k.offset) {
        var j :| 0 <= j < |s.caches[k.on].entries| && s.caches[k.on].entries[j].offset == k.offset && s.caches[k.on].entries[j].dirty;
        assert s'.caches[k.on].entries[j].offset == k.offset && s'.caches[k.on].entries[j].dirty;
      }
      HonouredKept(s.caches, s'.caches, s.log, s'.log, k);
    }
    assert Sound(owner, s');
  }

  /** What callers see after a replacement: the new table at its offset; elsewhere no change. */
  lemma ReplaceView(owner: nat -> nat, s: Store, c: nat, i: nat, e: Entry, unfilled: set<nat>, o: nat)
    requires Sound(owner, s) == true && c < |s.caches| && i < |s.caches[c].entries| && o != 0
    requires Replaces(owner, s, c, i, e, unfilled) == true
    requires var was := s.caches[c].entries[i];
             was.offset == e.offset || was.offset == 0 || was.table == TableAt(s.disk, was.offset)
    ensures var s' := WithEntry(s, c, i, e, unfilled);
            |s'.caches| == |s.caches| && owner(o) < |s.caches|
            && Logical(owner, s'.caches, s'.disk, o)
               == if e.offset == o then e.table else Logical(owner, s.caches, s.disk, o)
  {
    var s' := WithEntry(s, c, i, e, unfilled);
    var was := s.caches[c].entries[i];
    ReplaceSound(owner, s, c, i, e, unfilled);
    assert UniqueOffsets(s.caches[owner(o)].entries) && UniqueOffsets(s'.caches[owner(o)].entries);
    if e.offset == o {
      FindUnique(s'.caches[c].entries, o, i);
    } else if owner(o) == c {
      match Find(s.caches[c].entries, o)
      case Some(j) =>
        if j != i {
          FindUnique(s'.caches[c].entries, o, j);
        }
      case None =>
    }
  }

  // ----- recording a dependency -----

  function DirtyOffsets(entries: seq<Entry>): set<nat>
  {
    set i | 0 <= i < |entries| && entries[i].dirty :: entries[i].offset
  }

  /** Ranks after `c` has been made to depend on `d`, which depends on nothing. */
  function Reranked(rank: seq<nat>, d: nat): seq<nat>
  {
    seq(|rank|, x requires 0 <= x < |rank| => if x == d then 0 else rank[x] + 1)
  }

  function Depending(s: Store, c: nat, d: nat): Store
    requires c < |s.caches| && d < |s.caches|
  {
    s.(caches := s.caches[c := s.caches[c].(depends := Some(d))],
       rank := Reranked(s.rank, d),
       owed := s.owed + set o | o in DirtyOffsets(s.caches[d].entries) :: Order(c, d, o, |s.log|))
  }

  lemma DependStep(owner: nat -> nat, s: Store, c: nat, d: nat)
    requires Sound(owner, s) == true && c < |s.caches| && d < |s.caches| && c != d
    requires s.caches[d].depends.None?
    requires s.caches[c].depends.None? || s.caches[c].depends == Some(d)
    ensures Sound(owner, Depending(s, c, d)) == true
  {
    var s' := Depending(s, c, d);
    assert forall x :: 0 <= x < |s.caches| ==> s'.caches[x].entries == s.caches[x].entries;
    forall k | k in s'.owed
      ensures Honoured(s'.caches, s'.log, k)
    {
      if k in s.owed {
        assert Honoured(s.caches, s.log, k);
        if k.Order? {
          DirtyElsewhere(s.caches, s'.caches, k.on, k.offset);
        }
        if !Paid(s.log, k) && k.cache == c {
          assert Remembered(s'.caches, s'.log, k);
        } else {
          HonouredKept(s.caches, s'.caches, s.log, s'.log, k);
        }
      } else {
        var i :| 0 <= i < |s.caches[d].entries| && s.caches[d].entries[i].dirty && s.caches[d].entries[i].offset == k.offset;
        assert s'.caches[d].entries[i].dirty && s'.caches[d].entries[i].offset == k.offset;
        assert Remembered(s'.caches, s'.log, k);
      }
    }
    assert Acyclic(s'.caches, s'.rank);
    assert Coherent(owner, s'.caches, s'.disk, s'.unfilled);
    assert Sound(owner, s');
  }

  function WithBarrier(s: Store, c: nat): Store
    requires c < |s.caches|
  {
    s.(caches := s.caches[c := s.caches[c].(dependsOnFlush := true)], owed := s.owed + {Barrier(c, |s.log|)})
  }

  lemma BarrierStep(owner: nat -> nat, s: Store, c: nat)
    requires Sound(owner, s) == true && c < |s.caches|
    ensures Sound(owner, WithBarrier(s, c)) == true
  {
    var s' := WithBarrier(s, c);
    assert forall x :: 0 <= x < |s.caches| ==> s'.caches[x].entries == s.caches[x].entries;
    forall k | k in s'.owed
      ensures Honoured(s'.caches, s'.log, k)
    {
      if k in s.owed {
        assert Honoured(s.caches, s.log, k);
        if k.Order? {
          DirtyElsewhere(s.caches, s'.caches, k.on, k.offset);
        }
        if !Paid(s.log, k) {
          assert Remembered(s'.caches, s'.log, k);
        }
      } else {
        assert Remembered(s'.caches, s'.log, k);
      }
    }
    assert Coherent(owner, s'.caches, s'.disk, s'.unfilled);
    assert Sound(owner, s');
  }

  // ----- counters -----

  /** The same entries apart from their hit counters. */
  predicate SameButHits(entries: seq<Entry>, entries': seq<Entry>)
  {
    |entries'| == |entries| && forall j :: 0 <= j < |entries| ==> entries'[j] == entries[j].(hits := entries'[j].hits)
  }

  lemma HitsSound(owner: nat -> nat, s: Store, s': Store, c: nat)
    requires Sound(owner, s) == true && c < |s.caches| == |s'.caches|
    requires SameButHits(s.caches[c].entries, s'.caches[c].entries)
    requires s' == s.(caches := s.caches[c := s.caches[c].(entries := s'.caches[c].entries)])
    ensures Sound(owner, s') == true
    ensures forall o :: owner(o) < |s.caches| && Logical(owner, s'.caches, s'.disk, o) == Logical(owner, s.caches, s.disk, o)
  {
    forall x, j | 0 <= x < |s'.caches| && 0 <= j < |s'.caches[x].entries|
      ensures EntryCoherent(owner, s'.disk, s'.unfilled, x, s'.caches[x].entries[j])
    {
      assert EntryCoherent(owner, s.disk, s.unfilled, x, s.caches[x].entries[j]);
    }
    forall x | 0 <= x < |s'.caches|
      ensures UniqueOffsets(s'.caches[x].entries)
    {
      assert UniqueOffsets(s.caches[x].entries);
    }
    forall k | k in s.owed
      ensures Honoured(s'.caches, s'.log, k)
    {
      assert Honoured(s.caches, s.log, k);
      if k.Order? && DirtyIn(s.caches, k.on, k.offset) {
        var j :| 0 <= j < |s.caches[k.on].entries| && s.caches[k.on].entries[j].offset == k.offset && s.caches[k.on].entries[j].dirty;
        assert s'.caches[k.on].entries[j].offset == k.offset && s'.caches[k.on].entries[j].dirty;
      }
      HonouredKept(s.caches, s'.caches, s.log, s'.log, k);
    }
    forall o: nat
      ensures owner(o) < |s.caches| && Logical(owner, s'.caches, s'.disk, o) == Logical(owner, s.caches, s.disk, o)
    {
      FindSame(s.caches[owner(o)].entries, s'.caches[owner(o)].entries, o);
    }
    assert Sound(owner, s');
  }
}
