/**
 * Committing images of a backing chain into the one below them while the chain is in use: what the
 * guest reads through the active image stays the same, and so it does once they are dropped.
 */
module LiveCommit {
  import opened Bytes

  /** The contents of one sector. */
  type Sector = nat

  /** An image of a chain: its length in sectors, and the sectors allocated in it. */
  datatype ImageOf<D> = Image(len: nat, data: D)

  type Image = ImageOf<map<nat, Sector>>

  /** A backing chain, bottom first. */
  type Chain = seq<Image>

  ghost predicate ImageOk(im: Image)
  {
    forall s :: s in im.data ==> s < im.len
  }

  ghost predicate ChainOk(c: Chain)
  {
    forall i :: 0 <= i < |c| ==> ImageOk(c[i])
  }

  /** What sector `s` of image `i` reads as: its own data, or what the image below it shows. */
  function View(c: Chain, i: nat, s: nat): Sector
    requires i < |c|
    decreases i
  {
    if s in c[i].data then c[i].data[s]
    else if i == 0 || s >= c[i - 1].len then 0
    else View(c, i - 1, s)
  }

  /** What an overlay of image `i` sees: zeroes past its end. */
  function Under(c: Chain, i: nat, s: nat): Sector
    requires i < |c|
  {
    if s < c[i].len then View(c, i, s) else 0
  }

  /** Allocated in an image above `base`, up to `top`. */
  ghost predicate Above(c: Chain, base: nat, top: nat, s: nat)
    requires base <= top < |c|
  {
    exists i :: base < i <= top && s in c[i].data
  }

  ghost function AllAbove(c: Chain, base: nat, top: nat): set<nat>
    requires base <= top < |c|
  {
    set s: nat | s < c[top].len && Above(c, base, top, s)
  }

  /** What the image `top` shows in the sectors `ss`. */
  function Shown(c: Chain, top: nat, ss: set<nat>): (d: map<nat, Sector>)
    requires top < |c|
    ensures d.Keys == ss && forall s :: s in ss ==> d[s] == View(c, top, s)
  {
    map s | s in ss :: View(c, top, s)
  }

  /** What the guest reads: the active image is the last of the chain. */
  function Active(c: Chain, s: nat): Sector
    requires c != []
  {
    View(c, |c| - 1, s)
  }

  /** The base grown to the length of the top, with the sectors `copied` taken from what the top shows. */
  ghost function NewBase(c: Chain, base: nat, top: nat, copied: set<nat>): Image
    requires base <= top < |c|
  {
    Image(Max(c[base].len, c[top].len), c[base].data + Shown(c, top, copied))
  }

  ghost function Merged(c: Chain, base: nat, top: nat, copied: set<nat>): Chain
    requires base <= top < |c|
  {
    c[base := NewBase(c, base, top, copied)]
  }

  /** The chain without the images above `base` up to `top`. */
  function Dropped(c: Chain, base: nat, top: nat): Chain
    requires base <= top < |c|
  {
    c[..base + 1] + c[top + 1..]
  }

  /** If the base has to grow, what is below it does not reach past its old end. */
  predicate GrowthOk(c: Chain, base: nat, top: nat)
    requires base <= top < |c|
  {
    base > 0 ==> c[base - 1].len <= c[base].len || c[top].len <= c[base].len
  }

  /** And the base is no longer than any image above it up to the top. */
  predicate LengthsOk(c: Chain, base: nat, top: nat)
    requires base <= top < |c|
  {
    GrowthOk(c, base, top) && forall j :: base < j <= top ==> c[base].len <= c[j].len
  }

  // ----- copying keeps every view from the top up -----

  lemma {:induction false} SameBelow(c: Chain, c': Chain, i: nat, s: nat)
    requires i < |c| && i < |c'| && forall j :: 0 <= j <= i ==> c'[j] == c[j]
    ensures View(c', i, s) == View(c, i, s)
    decreases i
  {
    if s !in c[i].data && i > 0 && s < c[i - 1].len {
      SameBelow(c, c', i - 1, s);
    }
  }

  /** A sector allocated above the base does not come from the base, however that changes. */
  lemma {:induction false} AboveStillShows(c: Chain, c': Chain, base: nat, i: nat, s: nat)
    requires base < i < |c| && Above(c, base, i, s) && base < |c'| == |c| && c' == c[base := c'[base]]
    ensures View(c', i, s) == View(c, i, s)
    decreases i
  {
    if s !in c[i].data && s < c[i - 1].len {
      var k :| base < k <= i && s in c[k].data;
      assert k <= i - 1;
      AboveStillShows(c, c', base, i - 1, s);
    }
  }

  /** A sector not copied: the base shows what it showed, and zeroes where it has grown. */
  lemma {:induction false} RestStillShows(c: Chain, base: nat, top: nat, copied: set<nat>, i: nat, s: nat)
    requires ChainOk(c) && base <= i <= top < |c| && s !in copied && GrowthOk(c, base, top)
    ensures s < c[i].len || i > base ==> View(Merged(c, base, top, copied), i, s) == View(c, i, s)
    ensures Under(Merged(c, base, top, copied), i, s) == Under(c, i, s)
    decreases i
  {
    var c' := Merged(c, base, top, copied);
    if i == base {
      assert s in c'[base].data <==> s in c[base].data;
      if base > 0 {
        SameBelow(c, c', base - 1, s);
      }
    } else {
      RestStillShows(c, base, top, copied, i - 1, s);
    }
  }

  /** At every moment of the copying, the top and every image above it read as before. */
  lemma {:induction false} CopyingKeepsViews(c: Chain, base: nat, top: nat, copied: set<nat>, i: nat, s: nat)
    requires ChainOk(c) && base < top <= i < |c| && LengthsOk(c, base, top)
    requires copied <= AllAbove(c, base, top)
    ensures View(Merged(c, base, top, copied), i, s) == View(c, i, s)
    decreases i
  {
    if i == top {
      if s in copied {
        AboveStillShows(c, Merged(c, base, top, copied), base, top, s);
      } else {
        RestStillShows(c, base, top, copied, top, s);
      }
    } else {
      CopyingKeepsViews(c, base, top, copied, i - 1, s);
    }
  }

  // ----- dropping the images in between -----

  ghost function Committed(c: Chain, base: nat, top: nat): Chain
    requires base < top < |c|
  {
    Dropped(Merged(c, base, top, AllAbove(c, base, top)), base, top)
  }

  lemma {:induction false} NotAboveShowsBase(c: Chain, base: nat, top: nat, i: nat, s: nat)
    requires base <= i <= top < |c| && !Above(c, base, top, s)
    requires s < c[i].len && forall j :: base <= j < i ==> s < c[j].len
    ensures View(c, i, s) == View(c, base, s)
    decreases i
  {
    if i > base {
      assert s !in c[i].data;
      NotAboveShowsBase(c, base, top, i - 1, s);
    }
  }

  lemma {:induction false} NothingBelowCut(c: Chain, base: nat, top: nat, j: nat, i: nat, s: nat)
    requires base <= j <= i <= top < |c| && !Above(c, base, top, s) && s >= c[j].len
    ensures Under(c, i, s) == 0
    decreases i
  {
    if i > j {
      assert s !in c[i].data;
      NothingBelowCut(c, base, top, j, i - 1, s);
    }
  }

  /** After the copying, what an overlay sees of the base is what it saw of the top. */
  lemma NewBaseShowsTop(c: Chain, base: nat, top: nat, s: nat)
    requires ChainOk(c) && base < top < |c| && LengthsOk(c, base, top)
    ensures Under(Committed(c, base, top), base, s) == Under(c, top, s)
  {
    var all := AllAbove(c, base, top);
    var m, d := Merged(c, base, top, all), Committed(c, base, top);
    assert d[base] == m[base];
    if s in all {
      assert s in m[base].data;
    } else {
      SameBelow(m, d, base, s);
      RestStillShows(c, base, top, all, base, s);
      if s < c[base].len {
        assert !Above(c, base, top, s);
        NotAboveShowsBase(c, base, top, top, s);
      } else if s < c[top].len {
        assert !Above(c, base, top, s);
        NothingBelowCut(c, base, top, base, top, s);
      }
    }
  }

  /** Seen from above the top, dropping changes nothing. */
  lemma {:induction false} CommitKeepsView(c: Chain, base: nat, top: nat, i: nat, s: nat)
    requires ChainOk(c) && base < top < i < |c| && LengthsOk(c, base, top)
    ensures |Committed(c, base, top)| == |c| - (top - base)
    ensures View(Committed(c, base, top), i - (top - base), s) == View(c, i, s)
    decreases i
  {
    var d, gap := Committed(c, base, top), top - base;
    assert d[i - gap] == c[i];
    if i == top + 1 {
      NewBaseShowsTop(c, base, top, s);
    } else {
      assert d[i - 1 - gap] == c[i - 1];
      CommitKeepsView(c, base, top, i - 1, s);
    }
  }

  ghost predicate SameLengths(c: Chain, d: Chain)
  {
    |c| == |d| && forall i :: 0 <= i < |c| ==> c[i].len == d[i].len
  }

  ghost predicate KeepsView(c: Chain, base: nat, top: nat)
    requires base < top < |c|
  {
    forall s: nat :: Under(Committed(c, base, top), base, s) == Under(c, top, s)
  }

  function OneSector(here: bool, s: nat): map<nat, Sector>
  {
    if here then map[s := 1] else map[]
  }

  /** A chain of the given lengths that holds a one in sector `s` of image `k` and nothing else. */
  function OnlyOne(c: Chain, k: nat, s: nat): (d: Chain)
    ensures |d| == |c|
    ensures forall i :: 0 <= i < |d| ==> d[i] == Image(c[i].len, OneSector(i == k, s))
  {
    seq(|c|, i requires 0 <= i < |c| => Image(c[i].len, OneSector(i == k, s)))
  }

  lemma ShortImageShows(c: Chain, base: nat, top: nat, j: nat)
    requires base < j <= top < |c| && c[j].len < c[base].len
    ensures !KeepsView(OnlyOne(c, base, c[j].len), base, top)
  {
    var s := c[j].len;
    var d := OnlyOne(c, base, s);
    NothingBelowCut(d, base, top, j, top, s);
    assert s in Merged(d, base, top, AllAbove(d, base, top))[base].data;
    assert Under(Committed(d, base, top), base, s) == 1;
  }

  lemma GrownBaseShows(c: Chain, base: nat, top: nat)
    requires 0 < base < top < |c| && c[base].len < c[base - 1].len && c[base].len < c[top].len
    ensures !KeepsView(OnlyOne(c, base - 1, c[base].len), base, top)
  {
    var s := c[base].len;
    var d := OnlyOne(c, base - 1, s);
    NothingBelowCut(d, base, top, base, top, s);
    var e := Committed(d, base, top);
    assert e[base] == NewBase(d, base, top, AllAbove(d, base, top)) && e[base - 1] == d[base - 1];
    assert !Above(d, base, top, s);
    assert View(e, base - 1, s) == 1;
    assert View(e, base, s) == 1;
  }

  /**
   * Committing keeps what the guest sees, whatever the images hold, exactly when no image that is
   * dropped is shorter than the base and growing the base uncovers nothing below it.
   */
  lemma CommitKeepsViewIff(c: Chain, base: nat, top: nat)
    requires base < top < |c|
    ensures LengthsOk(c, base, top) <==> forall d: Chain :: ChainOk(d) && SameLengths(c, d) ==> KeepsView(d, base, top)
  {
    if LengthsOk(c, base, top) {
      forall d: Chain, s: nat | ChainOk(d) && SameLengths(c, d)
        ensures Under(Committed(d, base, top), base, s) == Under(d, top, s)
      {
        assert LengthsOk(d, base, top);
        NewBaseShowsTop(d, base, top, s);
      }
    } else if exists j :: base < j <= top && c[j].len < c[base].len {
      var j :| base < j <= top && c[j].len < c[base].len;
      var d := OnlyOne(c, base, c[j].len);
      assert ChainOk(d) && SameLengths(c, d);
      ShortImageShows(c, base, top, j);
    } else {
      var d := OnlyOne(c, base - 1, c[base].len);
      assert ChainOk(d) && SameLengths(c, d);
      GrownBaseShows(c, base, top);
    }
  }

  // ----- committing one image at once -----

  /** The image `top` copied into the one below it, and emptied. */
  ghost function Emptied(c: Chain, top: nat): Chain
    requires 0 < top < |c|
  {
    Merged(c, top - 1, top, AllAbove(c, top - 1, top))[top := Image(c[top].len, map[])]
  }

  ghost predicate SyncKeepsView(c: Chain, top: nat)
    requires 0 < top < |c|
  {
    forall s: nat :: s < c[top].len ==> View(Emptied(c, top), top, s) == View(c, top, s)
  }

  lemma SyncShowsTop(c: Chain, top: nat, s: nat)
    requires ChainOk(c) && 0 < top < |c| && GrowthOk(c, top - 1, top) && s < c[top].len
    ensures View(Emptied(c, top), top, s) == View(c, top, s)
  {
    var base, all := top - 1, AllAbove(c, top - 1, top);
    var m := Merged(c, base, top, all);
    SameBelow(m, Emptied(c, top), base, s);
    if s in all {
      assert s in m[base].data;
    } else {
      assert !Above(c, base, top, s);
      assert s !in c[top].data;
      RestStillShows(c, base, top, all, base, s);
    }
  }

  lemma SyncUncovers(c: Chain, top: nat)
    requires 1 < top < |c| && !GrowthOk(c, top - 1, top)
    ensures !SyncKeepsView(OnlyOne(c, top - 2, c[top - 1].len), top)
  {
    var base, s := top - 1, c[top - 1].len;
    var d := OnlyOne(c, base - 1, s);
    var e := Emptied(d, top);
    assert !Above(d, base, top, s);
    assert e[base] == NewBase(d, base, top, AllAbove(d, base, top)) && e[base - 1] == d[base - 1];
    assert View(e, base - 1, s) == 1;
    assert View(e, base, s) == 1;
    assert View(e, top, s) == 1 && View(d, top, s) == 0;
  }

  /** It keeps what the image reads as, whatever the images hold, exactly when growing the base uncovers nothing. */
  lemma SyncKeepsViewIff(c: Chain, top: nat)
    requires 0 < top < |c|
    ensures GrowthOk(c, top - 1, top) <==> forall d: Chain :: ChainOk(d) && SameLengths(c, d) ==> SyncKeepsView(d, top)
  {
    if GrowthOk(c, top - 1, top) {
      forall d: Chain, s: nat | ChainOk(d) && SameLengths(c, d) && s < d[top].len
        ensures View(Emptied(d, top), top, s) == View(d, top, s)
      {
        assert GrowthOk(d, top - 1, top);
        SyncShowsTop(d, top, s);
      }
    } else {
      var d := OnlyOne(c, top - 2, c[top - 1].len);
      assert ChainOk(d) && SameLengths(c, d);
      SyncUncovers(c, top);
    }
  }

  datatype Status = Created | Running | Finished | Cancelled | Failed

  /** What the outside does in one round of the copy loop. */
  datatype Event =
    | Cancel
    | StatusError(noSpace: bool)
    | Throttle
    | ReadError(noSpace: bool)
    | WriteError(noSpace: bool, stored: set<nat>)   // some of the sectors may have been stored
    | Normal

  /** What the job has been told to do about errors. */
  datatype Policy = Report | Stop | NoSpaceOnly | Ignore

  /** The errors after which the same sectors are tried again. */
  predicate Retried(policy: Policy, noSpace: bool)
  {
    policy == Ignore || (policy == NoSpaceOnly && !noSpace)
  }

  /**
   * The error that a round meets, and whether it is that there is no space: asking for the status
   * comes first; if there is something to copy, then reading, which fails past the end of the top,
   * and then writing.
   */
  function ErrorOf(e: Event, copy: bool, stuck: bool): Option<bool>
  {
    match e
    case StatusError(full) => Some(full)
    case ReadError(full) => if !copy then None else if stuck then Some(false) else Some(full)
    case WriteError(full, _) => if !copy then None else if stuck then Some(false) else Some(full)
    case _ => if copy && stuck then Some(false) else None
  }

  const COMMIT_BUFFER_SECTORS := 1024

  lemma ShownMore(c: Chain, m: Chain, top: nat, d: map<nat, Sector>, copied: set<nat>, more: set<nat>)
    requires top < |c| && top < |m| && forall s :: s in more ==> View(m, top, s) == View(c, top, s)
    ensures d + Shown(c, top, copied) + Shown(m, top, more) == d + Shown(c, top, copied + more)
  {
    var l, r := d + Shown(c, top, copied) + Shown(m, top, more), d + Shown(c, top, copied + more);
    assert l.Keys == r.Keys;
    assert forall s :: s in l ==> l[s] == r[s];
  }

  /** What copying more sectors makes of the merged chain. */
  lemma MergeMore(c: Chain, base: nat, top: nat, copied: set<nat>, more: set<nat>)
    requires base < top < |c| && more <= AllAbove(c, base, top)
    ensures var m := Merged(c, base, top, copied);
            m[base := Image(m[base].len, m[base].data + Shown(m, top, more))] == Merged(c, base, top, copied + more)
  {
    var m := Merged(c, base, top, copied);
    forall s | s in more
      ensures View(m, top, s) == View(c, top, s)
    {
      AboveStillShows(c, m, base, top, s);
    }
    ShownMore(c, m, top, c[base].data, copied, more);
  }

  lemma GuestWriteMerges(c: Chain, base: nat, top: nat, copied: set<nat>, im: Image)
    requires base < top < |c| - 1
    ensures var d := c[|c| - 1 := im];
            && Merged(d, base, top, copied) == Merged(c, base, top, copied)[|c| - 1 := im]
            && AllAbove(d, base, top) == AllAbove(c, base, top)
  {
    var d := c[|c| - 1 := im];
    forall s: nat
      ensures View(d, top, s) == View(c, top, s)
    {
      SameBelow(c, d, top, s);
    }
    assert Shown(d, top, copied) == Shown(c, top, copied);
    forall s
      ensures s in AllAbove(d, base, top) <==> s in AllAbove(c, base, top)
    {
      assert forall i :: base < i <= top ==> d[i] == c[i];
    }
  }

  /** All the sectors of a range are allocated in one image. */
  predicate Filled(im: Image, from: nat, n: nat)
  {
    forall s :: from <= s < from + n ==> s in im.data
  }

  function Sectors(from: nat, n: nat): (r: set<nat>)
    ensures forall s :: s in r <==> from <= s < from + n
  {
    if n == 0 then {} else Sectors(from, n - 1) + {from + n - 1}
  }

  // ----- what the images report -----

  /** How many sectors from `from` on, up to `limit`, have the status of the first. */
  function RunLength(im: Image, from: nat, limit: nat): (r: nat)
    requires from < im.len && limit > 0
    ensures 0 < r <= limit && from + r <= im.len
    ensures forall s :: from <= s < from + r ==> (s in im.data) == (from in im.data)
    decreases limit
  {
    if limit == 1 || from + 1 >= im.len || (from + 1 in im.data) != (from in im.data) then 1
    else 1 + RunLength(im, from + 1, limit - 1)
  }

  /** How far the driver of each image looks from a sector. */
  type Reach = (nat, nat) -> nat

  function Limit(reach: Reach, i: nat, from: nat, nb: nat): (n: nat)
    ensures nb > 0 ==> 0 < n <= nb
  {
    Min(nb, Max(1, reach(i, from)))
  }

  /** How many sectors image `i` reports on; none past its end. */
  function Reported(im: Image, reach: Reach, i: nat, from: nat, nb: nat): (n: nat)
    requires nb > 0
    ensures n <= nb && (from < im.len ==> 0 < n && from + n <= im.len)
  {
    if from >= im.len then 0 else RunLength(im, from, Limit(reach, i, from, nb))
  }

  datatype Answer = Answer(copy: bool, n: nat)

  /** Whether sectors from `from` on are allocated in images above `base`, from image `i` down, and how many. */
  function AskedFrom(c: Chain, base: nat, top: nat, reach: Reach, i: nat, from: nat, nb: nat, n: nat): Answer
    requires base <= i <= top < |c| && nb > 0
    decreases i
  {
    if i == base then Answer(false, n)
    else
      var p := Reported(c[i], reach, i, from, nb);
      if from < c[i].len && from in c[i].data then Answer(true, p)
      else AskedFrom(c, base, top, reach, i - 1, from, nb, if n > p && (i == top || from + p < c[i].len) then p else n)
  }

  function Asked(c: Chain, base: nat, top: nat, reach: Reach, from: nat): Answer
    requires base <= top < |c|
  {
    AskedFrom(c, base, top, reach, top, from, COMMIT_BUFFER_SECTORS, COMMIT_BUFFER_SECTORS)
  }

  lemma {:induction false} AskedSame(c: Chain, c': Chain, base: nat, top: nat, reach: Reach, i: nat, from: nat, nb: nat, n: nat)
    requires base <= i <= top < |c| && |c'| == |c| && nb > 0
    requires forall j :: base < j <= i ==> c'[j] == c[j]
    ensures AskedFrom(c', base, top, reach, i, from, nb, n) == AskedFrom(c, base, top, reach, i, from, nb, n)
    decreases i
  {
    if i != base {
      var p := Reported(c[i], reach, i, from, nb);
      AskedSame(c, c', base, top, reach, i - 1, from, nb, if n > p && (i == top || from + p < c[i].len) then p else n);
    }
  }

  lemma {:induction false} AskedMeans(c: Chain, base: nat, top: nat, reach: Reach, i: nat, from: nat, nb: nat, n: nat)
    requires base <= i <= top < |c| && 0 < n <= nb && from < c[top].len && (i < top ==> from + n <= c[top].len)
    ensures var a := AskedFrom(c, base, top, reach, i, from, nb, n);
            && 0 < a.n <= nb
            && (a.copy ==> exists j :: base < j <= i && Filled(c[j], from, a.n) && from + a.n <= c[j].len)
            && (!a.copy ==> i == base || from + a.n <= c[top].len)
            && (!a.copy ==> a.n <= n)
    decreases i
  {
    if i != base {
      var p := Reported(c[i], reach, i, from, nb);
      if from < c[i].len && from in c[i].data {
        assert Filled(c[i], from, p);
      } else {
        AskedMeans(c, base, top, reach, i - 1, from, nb, if n > p && (i == top || from + p < c[i].len) then p else n);
      }
    }
  }

  // ----- progress -----

  /** The next run to copy is reported to go beyond the end of the top. */
  predicate Stuck(c: Chain, base: nat, top: nat, reach: Reach, from: nat)
    requires base <= top < |c|
  {
    var a := Asked(c, base, top, reach, from);
    a.copy && from + a.n > c[top].len
  }

  /** Where a round without errors takes the job. */
  function Advanced(c: Chain, base: nat, top: nat, reach: Reach, from: nat): (to: nat)
    requires base < top < |c|
    ensures from < c[top].len ==> from <= to <= c[top].len && (to == from <==> Stuck(c, base, top, reach, from))
  {
    if from < c[top].len then
      AskedMeans(c, base, top, reach, top, from, COMMIT_BUFFER_SECTORS, COMMIT_BUFFER_SECTORS);
      if Stuck(c, base, top, reach, from) then from else from + Asked(c, base, top, reach, from).n
    else from
  }

  type Step = nat -> nat

  function Rounds(c: Chain, base: nat, top: nat, reach: Reach): Step
    requires base < top < |c|
  {
    (s: nat) => Advanced(c, base, top, reach, s)
  }

  /** Where `rounds` steps lead. */
  function After(step: Step, from: nat, rounds: nat): (to: nat)
    decreases rounds
  {
    if rounds == 0 then from else step(After(step, from, rounds - 1))
  }

  /** A step that leads nowhere is taken for ever. */
  lemma {:induction false} StaysForEver(step: Step, from: nat, rounds: nat)
    requires step(from) == from
    ensures After(step, from, rounds) == from
    decreases rounds
  {
    if rounds > 0 {
      StaysForEver(step, from, rounds - 1);
    }
  }

  lemma {:induction false} AfterAdds(step: Step, from: nat, a: nat, b: nat)
    ensures After(step, from, a + b) == After(step, After(step, from, a), b)
    decreases b
  {
    if b > 0 {
      AfterAdds(step, from, a, b - 1);
      assert a + b - 1 == a + (b - 1);
    }
  }

  /** As long as no step stays where it is, every round leads at least one further. */
  lemma {:induction false} AfterGrows(step: Step, n: nat, rounds: nat)
    requires forall s: nat :: s <= n ==> s <= step(s) <= n
    requires forall k: nat :: After(step, 0, k) < n ==> step(After(step, 0, k)) != After(step, 0, k)
    ensures Min(rounds, n) <= After(step, 0, rounds) <= n
    decreases rounds
  {
    if rounds > 0 {
      AfterGrows(step, n, rounds - 1);
      assert After(step, 0, rounds - 1) <= n;
    }
  }

  /** Steps that never go back lead to `n` exactly when none before it stays where it is, and then within `n` rounds. */
  lemma ArrivesIff(step: Step, n: nat)
    requires forall s: nat :: s <= n ==> s <= step(s) <= n
    ensures After(step, 0, n) == n
            <==> forall k: nat :: After(step, 0, k) < n ==> step(After(step, 0, k)) != After(step, 0, k)
  {
    if forall k: nat :: After(step, 0, k) < n ==> step(After(step, 0, k)) != After(step, 0, k) {
      AfterGrows(step, n, n);
    } else {
      var k: nat :| After(step, 0, k) < n && step(After(step, 0, k)) == After(step, 0, k);
      StuckOnTheWay(step, k, n);
    }
  }

  lemma StuckOnTheWay(step: Step, k: nat, n: nat)
    requires step(n) == n && After(step, 0, k) < n && step(After(step, 0, k)) == After(step, 0, k)
    ensures After(step, 0, n) != n
  {
    if k <= n {
      StaysWhere(step, 0, After(step, 0, k), k, n);
    } else if After(step, 0, n) == n {
      StaysWhere(step, 0, n, n, k);
    }
  }

  lemma StaysWhere(step: Step, from: nat, at: nat, k: nat, rounds: nat)
    requires k <= rounds && at == After(step, from, k) && step(at) == at
    ensures After(step, from, rounds) == at
  {
    StaysForEver(step, at, rounds - k);
    AfterAdds(step, from, k, rounds - k);
    assert k + (rounds - k) == rounds;
  }

  /**
   * Rounds without errors take the job to the end of the top, after no more rounds than it has
   * sectors, exactly when no sector that it comes to begins a run that is reported beyond that end.
   */
  lemma FinishesIff(c: Chain, base: nat, top: nat, reach: Reach)
    requires base < top < |c|
    ensures var step, n := Rounds(c, base, top, reach), c[top].len;
            After(step, 0, n) == n
            <==> forall k: nat :: After(step, 0, k) < n ==> !Stuck(c, base, top, reach, After(step, 0, k))
  {
    var step, n := Rounds(c, base, top, reach), c[top].len;
    forall s: nat | s <= n
      ensures s <= step(s) <= n && (s < n ==> (step(s) == s <==> Stuck(c, base, top, reach, s)))
    {
      assert step(s) == Advanced(c, base, top, reach, s);
    }
    ArrivesIff(step, n);
  }

  /** The job is never stuck, whatever the images hold, exactly when none to be dropped is longer than the top. */
  lemma NeverStuckIff(c: Chain, base: nat, top: nat)
    requires base < top < |c|
    ensures (forall j :: base < j <= top ==> c[j].len <= c[top].len) || c[top].len == 0
            <==> forall d: Chain, reach: Reach, s: nat :: ChainOk(d) && SameLengths(c, d) && s < d[top].len ==>
                   !Stuck(d, base, top, reach, s)
  {
    if (forall j :: base < j <= top ==> c[j].len <= c[top].len) || c[top].len == 0 {
      forall d: Chain, reach: Reach, s: nat | ChainOk(d) && SameLengths(c, d) && s < d[top].len
        ensures !Stuck(d, base, top, reach, s)
      {
        AskedMeans(d, base, top, reach, top, s, COMMIT_BUFFER_SECTORS, COMMIT_BUFFER_SECTORS);
      }
    } else {
      var j :| base < j <= top && c[j].len > c[top].len;
      var s, d, reach := c[top].len - 1, OnlyFull(c, j, c[top].len), (i: nat, from: nat) => 2;
      assert ChainOk(d) && SameLengths(c, d);
      LongRunReported(d, base, top, reach, j, top, s, COMMIT_BUFFER_SECTORS);
      assert Stuck(d, base, top, reach, s);
    }
  }

  /** Images of the same lengths; in image `j` the sectors around `n` are allocated, and nothing else is. */
  function OnlyFull(c: Chain, j: nat, n: nat): (d: Chain)
    requires j < |c| && 0 < n
    ensures |d| == |c| && forall i :: 0 <= i < |c| ==> d[i].len == c[i].len
    ensures forall i :: 0 <= i < |c| && i != j ==> d[i].data == map[]
    ensures d[j].data == map[n - 1 := 1, n := 1]
  {
    seq(|c|, i requires 0 <= i < |c| => Image(c[i].len, if i == j then map[n - 1 := 1, n := 1] else map[]))
  }

  lemma {:induction false} LongRunReported(d: Chain, base: nat, top: nat, reach: Reach, j: nat, i: nat, s: nat, n: nat)
    requires base < j <= i <= top < |d| && s + 1 < d[j].len && s in d[j].data && s + 1 in d[j].data
    requires forall t :: j < t <= i ==> s !in d[t].data
    requires forall a: nat, b: nat :: reach(a, b) == 2
    ensures AskedFrom(d, base, top, reach, i, s, COMMIT_BUFFER_SECTORS, n) == Answer(true, 2)
    decreases i
  {
    if i == j {
      assert RunLength(d[j], s, 2) == 1 + RunLength(d[j], s + 1, 1);
    } else {
      var p := Reported(d[i], reach, i, s, COMMIT_BUFFER_SECTORS);
      LongRunReported(d, base, top, reach, j, i - 1, s, if n > p && (i == top || s + p < d[i].len) then p else n);
    }
  }

  // ----- the job -----

  class CommitJob {
    const base: nat
    const top: nat
    const reach: Reach
    const policy: Policy
    var images: seq<Image>
    var sector: nat
    var status: Status
    /** The chain with the guest's own writes and nothing else. */
    ghost var plain: Chain
    ghost var copied: set<nat>

    ghost predicate Valid()
      reads this
    {
      && base < top < |plain| - 1 && ChainOk(plain)
      && (status == Created ==> images == plain && copied == {} && sector == 0)
      && (images == plain || images == Merged(plain, base, top, copied))
      && (status == Running || status == Finished ==> images == Merged(plain, base, top, copied))
      && copied <= AllAbove(plain, base, top)
      && sector <= plain[top].len
      && (forall s :: s in AllAbove(plain, base, top) && s < sector ==> s in copied)
      && (status == Finished ==> sector == plain[top].len)
    }

    constructor (images: seq<Image>, base: nat, top: nat, policy: Policy, reach: Reach)
      requires base < top < |images| - 1 && ChainOk(images)
      ensures Valid() && status == Created && plain == images
      ensures this.images == images && this.base == base && this.top == top && this.policy == policy && this.reach == reach
    {
      this.reach := reach;
      this.images, this.base, this.top, this.policy, plain := images, base, top, policy, images;
      sector, status, copied := 0, Created, {};
    }

    /** The base is made as long as the top, if that can be done. */
    method Start(truncates: bool)
      requires Valid() && status == Created
      modifies `images, `status
      ensures Valid() && plain == old(plain)
      ensures status == if images[base].len < plain[top].len && !truncates then Failed
                        else if plain[top].len == 0 then Finished else Running
    {
      if images[base].len < images[top].len {
        if !truncates {
          status := Failed;
          return;
        }
        images := images[base := images[base].(len := images[top].len)];
      }
      assert Shown(plain, top, copied) == map[];
      assert plain[base].data + map[] == plain[base].data;
      assert images == Merged(plain, base, top, copied);
      status := if images[top].len == 0 then Finished else Running;
    }

    /** Whether a sector of one image is allocated, and for how many sectors from it that is known. */
    method IsAllocated(i: nat, from: nat, nb: nat) returns (found: bool, pnum: nat)
      requires i < |images| && nb > 0
      ensures pnum == Reported(images[i], reach, i, from, nb)
      ensures found <==> from < images[i].len && from in images[i].data
    {
      found, pnum := false, 0;
      if from >= images[i].len {
        return;
      }
      found, pnum := from in images[i].data, 1;
      var limit := Limit(reach, i, from, nb);
      while pnum < limit && from + pnum < images[i].len && (from + pnum in images[i].data) == found
        invariant 0 < pnum <= limit && from + pnum <= images[i].len
        invariant (from + pnum - 1 in images[i].data) == found
        invariant RunLength(images[i], from, limit) == pnum - 1 + RunLength(images[i], from + pnum - 1, limit - pnum + 1)
      {
        assert from + pnum - 1 + 1 == from + pnum && limit - pnum + 1 - 1 == limit - pnum;
        pnum := pnum + 1;
      }
    }

    /** Whether sectors from `from` on are allocated above the base, and for how many that is known. */
    method IsAllocatedAbove(from: nat, nb: nat) returns (found: bool, n: nat)
      requires base < top < |images| && from < images[top].len && nb > 0
      requires forall i :: 0 <= i < |images| ==> ImageOk(images[i])
      ensures Answer(found, n) == AskedFrom(images, base, top, reach, top, from, nb, nb)
      ensures 0 < n <= nb
      ensures found ==> exists i :: base < i <= top && Filled(images[i], from, n)
      ensures !found ==> from + n <= images[top].len
      ensures !found ==> forall i, s :: base < i <= top && from <= s < from + n ==> s !in images[i].data
    {
      n := nb;
      var i := top;
      while i != base
        invariant base <= i <= top && 0 < n <= nb
        invariant i < top ==> from + n <= images[top].len
        invariant forall j, s :: i < j <= top && from <= s < from + n ==> s !in images[j].data
        invariant AskedFrom(images, base, top, reach, top, from, nb, nb) == AskedFrom(images, base, top, reach, i, from, nb, n)
      {
        var here, pnum := IsAllocated(i, from, nb);
        if here {
          assert Filled(images[i], from, pnum);
          return true, pnum;
        }
        if n > pnum && (i == top || from + pnum < images[i].len) {
          n := pnum;
        }
        i := i - 1;
      }
      found := false;
    }

    /** Reads sectors through the top and writes them to the base. */
    method Populate(n: nat, e: Event) returns (ok: bool, error: Option<bool>)
      requires Valid() && status == Running && sector < plain[top].len
      requires exists i :: base < i <= top && Filled(images[i], sector, n)
      modifies `images, `copied
      ensures Valid() && (ok <==> error.None?)
      ensures error == ErrorOf(e, true, sector + n > plain[top].len) || e.StatusError?
      ensures copied == old(copied) + if error.None? then Sectors(sector, n)
                                      else if sector + n <= plain[top].len && e.WriteError? then Sectors(sector, n) * e.stored
                                      else {}
    {
      if sector + n > images[top].len {
        return false, Some(false);
      }
      if e.ReadError? {
        return false, Some(e.noSpace);
      }
      var range := Sectors(sector, n);
      var stored := if e.WriteError? then range * e.stored else range;
      assert stored <= AllAbove(plain, base, top) by {
        var i :| base < i <= top && Filled(images[i], sector, n);
        assert images[i] == plain[i];
      }
      MergeMore(plain, base, top, copied, stored);
      var data := images[base].data + Shown(images, top, stored);
      images := images[base := Image(images[base].len, data)];
      copied := copied + stored;
      ok := !e.WriteError?;
      error := if ok then None else Some(e.noSpace);
    }

    /** One round of the loop. */
    method Round(e: Event)
      requires Valid() == true && status == Running && sector < plain[top].len
      modifies `images, `copied, `sector, `status
      ensures Valid() == true && plain == old(plain)
      ensures old(sector) <= sector && (status == Running ==> sector < plain[top].len)
      ensures RoundOutcome(e, old(sector), old(copied)) == true
    {
      if e == Cancel {
        status := Cancelled;
        return;
      }
      ghost var was := copied;
      var asleep, error, n := CopyNext(e);
      if !asleep {
        Settle(error, n, e, was);
      }
    }

    /** Asks for the status of the next sectors, and copies them if that is to be done. */
    method CopyNext(e: Event) returns (asleep: bool, error: Option<bool>, n: nat)
      requires Valid() == true && status == Running && sector < plain[top].len && e != Cancel
      modifies `images, `copied
      ensures Valid() == true && CopyOutcome(e, old(copied), asleep, error, n) == true
    {
      MergedOk(plain, base, top, copied);
      AskedSame(plain, images, base, top, reach, top, sector, COMMIT_BUFFER_SECTORS, COMMIT_BUFFER_SECTORS);
      asleep, error, n := false, None, 0;
      if e.StatusError? {
        error := Some(e.noSpace);
        return;
      }
      var copy, ok;
      copy, n := IsAllocatedAbove(sector, COMMIT_BUFFER_SECTORS);
      if copy {
        if e == Throttle {
          asleep := true;
          return;
        }
        ok, error := Populate(n, e);
      } else {
        NothingToCopy(n);
      }
    }

    ghost predicate CopyOutcome(e: Event, was: set<nat>, asleep: bool, error: Option<bool>, n: nat)
      requires base < top < |plain|
      reads this
    {
      var a, stuck := Asked(plain, base, top, reach, sector), Stuck(plain, base, top, reach, sector);
      && (asleep <==> e == Throttle && a.copy)
      && (!asleep ==> error == ErrorOf(e, a.copy, stuck))
      && copied == was + (if asleep || !a.copy || e.StatusError? then {}
                          else if error.None? then Sectors(sector, a.n)
                          else if e.WriteError? && !stuck then Sectors(sector, a.n) * e.stored else {})
      && (!asleep && error.None? ==>
            n == a.n && 0 < n && sector + n <= plain[top].len
            && forall s :: s in AllAbove(plain, base, top) && s < sector + n ==> s in copied)
    }

    /** After an error the job stops or the same sectors are tried again; otherwise it goes on. */
    method Settle(error: Option<bool>, n: nat, ghost e: Event, ghost was: set<nat>)
      requires Valid() == true && status == Running && sector < plain[top].len && e != Cancel
      requires CopyOutcome(e, was, false, error, n) == true
      modifies `sector, `status
      ensures Valid() == true && old(sector) <= sector && (status == Running ==> sector < plain[top].len)
      ensures RoundOutcome(e, old(sector), was) == true
    {
      if error.Some? {
        if policy == Stop || policy == Report || (policy == NoSpaceOnly && error.value) {
          status := Failed;
        }
        return;
      }
      sector := sector + n;
      if sector == images[top].len {
        status := Finished;
      }
    }

    /**
     * What a round from sector `from` comes to: cancelled; asleep, when what there is to copy is over the
     * speed limit; stopped or to be tried again, after an error; or further on, with what there was to
     * copy copied.
     */
    ghost predicate RoundOutcome(e: Event, from: nat, was: set<nat>)
      requires base < top < |plain|
      reads this
    {
      var a, stuck := Asked(plain, base, top, reach, from), Stuck(plain, base, top, reach, from);
      && images == Merged(plain, base, top, copied)
      && if e == Cancel then status == Cancelled && sector == from && copied == was
         else if e == Throttle && a.copy then status == Running && sector == from && copied == was
         else if ErrorOf(e, a.copy, stuck).Some? then
           && sector == from
           && status == (if Retried(policy, ErrorOf(e, a.copy, stuck).value) then Running else Failed)
           && copied == was + if e.WriteError? && !stuck then Sectors(from, a.n) * e.stored else {}
         else
           && sector == Advanced(plain, base, top, reach, from)
           && status == (if sector == plain[top].len then Finished else Running)
           && copied == was + if a.copy then Sectors(from, a.n) else {}
    }

    lemma NothingToCopy(n: nat)
      requires Valid() && images == Merged(plain, base, top, copied)
      requires forall i, s :: base < i <= top && sector <= s < sector + n ==> s !in images[i].data
      ensures forall s :: s in AllAbove(plain, base, top) && s < sector + n ==> s in copied
    {
      forall i, s | base < i <= top && sector <= s < sector + n
        ensures s !in plain[i].data
      {
        assert images[i] == plain[i];
      }
    }

    /** The guest writes to the active image while the job sleeps. */
    method GuestWrite(s: nat, x: Sector)
      requires Valid() && s < plain[|plain| - 1].len
      modifies `images, `plain
      ensures Valid()
      ensures var m := |old(plain)| - 1;
              plain == old(plain)[m := Image(old(plain)[m].len, old(plain)[m].data[s := x])]
    {
      var m := |images| - 1;
      var im := Image(images[m].len, images[m].data[s := x]);
      GuestWriteMerges(plain, base, top, copied, im);
      images := images[m := im];
      plain := plain[m := im];
    }

    /** Whatever happens to the job, the guest reads what it has written itself, and else what was there. */
    lemma GuestSeesPlain(s: nat)
      requires Valid() && LengthsOk(plain, base, top)
      ensures images != [] && Active(images, s) == Active(plain, s)
    {
      if images != plain {
        CopyingKeepsViews(plain, base, top, copied, |plain| - 1, s);
      }
    }

    /** When all is copied the images in between are taken out of the chain, unless that fails. */
    method Complete(changesBackingFile: bool)
      requires Valid() && status != Created && status != Running
      modifies `images
      ensures status == Finished && changesBackingFile ==> images == Committed(plain, base, top)
      ensures !(status == Finished && changesBackingFile) ==> images == old(images)
      ensures LengthsOk(plain, base, top) ==>
                images != [] && forall s: nat :: Active(images, s) == Active(plain, s)
    {
      if status == Finished && changesBackingFile {
        assert copied == AllAbove(plain, base, top);
        images := Dropped(images, base, top);
        if LengthsOk(plain, base, top) {
          forall s: nat
            ensures images != [] && Active(images, s) == Active(plain, s)
          {
            CommitKeepsView(plain, base, top, |plain| - 1, s);
          }
        }
      } else if LengthsOk(plain, base, top) {
        forall s: nat
          ensures Active(images, s) == Active(plain, s)
        {
          GuestSeesPlain(s);
        }
      }
    }
  }

  /** A guest's write to the active image changes nothing of what the job is told. */
  lemma GuestWriteKeepsAnswers(c: Chain, base: nat, top: nat, reach: Reach, im: Image, from: nat)
    requires base < top < |c| - 1
    ensures Asked(c[|c| - 1 := im], base, top, reach, from) == Asked(c, base, top, reach, from)
  {
    AskedSame(c, c[|c| - 1 := im], base, top, reach, top, from, COMMIT_BUFFER_SECTORS, COMMIT_BUFFER_SECTORS);
  }

  /** `step` is what a round without errors does. */
  ghost predicate Steps(c: Chain, base: nat, top: nat, reach: Reach, step: Step)
  {
    base < top < |c| && step == Rounds(c, base, top, reach)
  }

  /** A round without errors of a job that ignores errors. */
  method NormalRound(job: CommitJob, ghost step: Step)
    requires job.Valid() == true && job.status == Running && Retried(job.policy, false) && job.sector < job.plain[job.top].len
    requires Steps(job.plain, job.base, job.top, job.reach, step) == true
    modifies job
    ensures job.Valid() == true && job.plain == old(job.plain) && job.sector == step(old(job.sector))
    ensures job.sector <= job.plain[job.top].len
    ensures job.status == if job.sector == job.plain[job.top].len then Finished else Running
    ensures job.status == Finished ==> step(job.sector) == job.sector
  {
    job.Round(Normal);
  }

  /** Rounds without errors, while the job goes on. */
  method RunRounds(job: CommitJob, rounds: nat, ghost step: Step)
    requires job.Valid() == true && job.status == Running && Retried(job.policy, false) && job.sector < job.plain[job.top].len
    requires Steps(job.plain, job.base, job.top, job.reach, step) == true
    modifies job
    ensures job.Valid() == true && job.plain == old(job.plain)
    ensures job.sector == After(step, old(job.sector), rounds)
    ensures job.status == if job.sector == job.plain[job.top].len then Finished else Running
  {
    var k := 0;
    ghost var c := job.plain;
    while k < rounds && job.status == Running
      invariant 0 <= k <= rounds && job.Valid() == true && job.plain == c
      invariant job.sector == After(step, old(job.sector), k) <= c[job.top].len
      invariant job.status == if job.sector == c[job.top].len then Finished else Running
      invariant job.status == Finished ==> step(job.sector) == job.sector
    {
      NormalRound(job, step);
      k := k + 1;
    }
    if k < rounds {
      StaysWhere(step, old(job.sector), job.sector, k, rounds);
    }
  }

  /** Speed limits alone, where no run to copy reaches beyond the end of the top, never make a job fail. */
  method RunThrottled(job: CommitJob, events: seq<Event>)
    requires job.Valid() == true && job.status == Running && job.sector < job.plain[job.top].len
    requires forall k :: 0 <= k < |events| ==> events[k] == Throttle || events[k] == Normal
    requires forall s :: 0 <= s < job.plain[job.top].len ==> !Stuck(job.plain, job.base, job.top, job.reach, s)
    modifies job
    ensures job.Valid() == true && job.plain == old(job.plain) && (job.status == Running || job.status == Finished)
  {
    ghost var c := job.plain;
    var k := 0;
    while k < |events| && job.status == Running
      invariant 0 <= k <= |events| && job.Valid() == true && job.plain == c
      invariant job.status == Finished || (job.status == Running && job.sector < c[job.top].len)
    {
      ThrottledRound(job, events[k]);
      k := k + 1;
    }
  }

  method ThrottledRound(job: CommitJob, e: Event)
    requires job.Valid() == true && job.status == Running && job.sector < job.plain[job.top].len
    requires e == Throttle || e == Normal
    requires !Stuck(job.plain, job.base, job.top, job.reach, job.sector)
    modifies job
    ensures job.Valid() == true && job.plain == old(job.plain)
    ensures job.status == Finished || (job.status == Running && job.sector < job.plain[job.top].len)
  {
    job.Round(e);
  }

  /**
   * The image to be dropped has six sectors, all of them allocated, and the top has four. However
   * many rounds the job runs, it is still where it started.
   */
  method StayPut(rounds: nat) returns (job: CommitJob)
    ensures fresh(job) && job.Valid() == true && job.policy == Ignore && |job.plain| == 4
    ensures job.plain[1] == Image(6, map[0 := 1, 1 := 1, 2 := 1, 3 := 1, 4 := 1, 5 := 1]) && job.plain[2] == Image(4, map[])
    ensures job.status == Running && job.sector == 0
  {
    var full := Image(6, map[0 := 1, 1 := 1, 2 := 1, 3 := 1, 4 := 1, 5 := 1]);
    var empty := Image(4, map[]);
    job := new CommitJob([empty, full, empty, empty], 0, 2, Ignore, (i: nat, from: nat) => 6);
    job.Start(true);
    SixReported(job.plain, job.reach, full, empty);
    ghost var step := Rounds(job.plain, job.base, job.top, job.reach);
    assert step(0) == Advanced(job.plain, job.base, job.top, job.reach, 0);
    StaysForEver(step, 0, rounds);
    RunRounds(job, rounds, step);
  }

  lemma SixReported(c: Chain, reach: Reach, full: Image, empty: Image)
    requires c == [empty, full, empty, empty] && empty == Image(4, map[])
    requires full == Image(6, map[0 := 1, 1 := 1, 2 := 1, 3 := 1, 4 := 1, 5 := 1])
    requires forall a: nat, b: nat :: reach(a, b) == 6
    ensures Stuck(c, 0, 2, reach, 0)
  {
    var n := COMMIT_BUFFER_SECTORS;
    var p := Reported(empty, reach, 2, 0, n);
    assert RunLength(full, 0, 6) == 1 + RunLength(full, 1, 5) == 2 + RunLength(full, 2, 4) == 3 + RunLength(full, 3, 3);
    assert RunLength(full, 3, 3) == 1 + RunLength(full, 4, 2) == 2 + RunLength(full, 5, 1);
    assert AskedFrom(c, 0, 2, reach, 2, 0, n, n) == AskedFrom(c, 0, 2, reach, 1, 0, n, p);
  }

  lemma MergedOk(c: Chain, base: nat, top: nat, copied: set<nat>)
    requires ChainOk(c) && base < top < |c| && copied <= AllAbove(c, base, top)
    ensures ChainOk(Merged(c, base, top, copied))
  {
  }
}
