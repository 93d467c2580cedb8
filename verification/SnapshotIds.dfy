/** Choosing an id for a new snapshot, and finding snapshots by id and name. */
module SnapshotIds {
  import opened Bytes

  const ULONG_MAX: nat := 0xFFFF_FFFF_FFFF_FFFF

  // ----- strtoul, in base ten -----

  predicate IsDigit(b: byte) { 48 <= b <= 57 }

  predicate IsSpace(b: byte) { b == 32 || 9 <= b <= 13 }

  function SkipSpace(s: seq<byte>): seq<byte>
  {
    if s != [] && IsSpace(s[0]) then SkipSpace(s[1..]) else s
  }

  /** The digits a string starts with. */
  function Digits(s: seq<byte>): (d: seq<byte>)
    ensures forall i :: 0 <= i < |d| ==> IsDigit(d[i])
  {
    if s != [] && IsDigit(s[0]) then [s[0]] + Digits(s[1..]) else []
  }

  function DigitValue(b: byte): nat
    requires IsDigit(b)
  {
    var n: int := b;
    n - 48
  }

  function Value(d: seq<byte>): nat
    requires forall i :: 0 <= i < |d| ==> IsDigit(d[i])
  {
    if d == [] then 0 else Value(d[..|d| - 1]) * 10 + DigitValue(d[|d| - 1])
  }

  /** Too large values become the largest; a minus sign negates modulo 2^64. */
  function Strtoul(s: seq<byte>): (v: nat)
    ensures v <= ULONG_MAX
  {
    var t := SkipSpace(s);
    var signed := t != [] && (t[0] == 43 || t[0] == 45);
    var v := Value(Digits(if signed then t[1..] else t));
    if v > ULONG_MAX then ULONG_MAX
    else if signed && t[0] == 45 && v > 0 then ULONG_MAX + 1 - v
    else v
  }

  /** `%lu`. */
  function Decimal(n: nat): (s: seq<byte>)
    ensures s != [] && forall i :: 0 <= i < |s| ==> IsDigit(s[i])
  {
    if n < 10 then [48 + n] else Decimal(n / 10) + [48 + n % 10]
  }

  lemma {:induction false} DecimalValue(n: nat)
    ensures Value(Decimal(n)) == n
  {
    if n < 10 {
      assert Decimal(n)[..0] == [];
    } else {
      DecimalValue(n / 10);
      assert Decimal(n)[..|Decimal(n)| - 1] == Decimal(n / 10);
    }
  }

  /** Leading spaces and a sign are read, and what follows the digits is not. */
  lemma StrtoulReads(spaces: seq<byte>, sign: seq<byte>, n: nat, rest: seq<byte>)
    requires forall i :: 0 <= i < |spaces| ==> IsSpace(spaces[i])
    requires sign == [] || sign == [43] || sign == [45]
    requires rest == [] || !IsDigit(rest[0])
    ensures Strtoul(spaces + sign + Decimal(n) + rest) ==
            if n > ULONG_MAX then ULONG_MAX else if sign == [45] && n > 0 then ULONG_MAX + 1 - n else n
  {
    var d := Decimal(n);
    var t := sign + d + rest;
    assert spaces + sign + d + rest == spaces + t;
    assert IsDigit(d[0]);
    SpacesSkipped(spaces, t);
    assert t[|sign|..] == d + rest;
    DigitsBefore(d, rest);
    DecimalValue(n);
  }

  lemma {:induction false} SpacesSkipped(spaces: seq<byte>, t: seq<byte>)
    requires forall i :: 0 <= i < |spaces| ==> IsSpace(spaces[i])
    requires t != [] && !IsSpace(t[0])
    ensures SkipSpace(spaces + t) == t
  {
    if spaces == [] {
      assert spaces + t == t;
    } else {
      assert (spaces + t)[1..] == spaces[1..] + t;
      SpacesSkipped(spaces[1..], t);
    }
  }

  lemma {:induction false} DigitsBefore(d: seq<byte>, rest: seq<byte>)
    requires forall i :: 0 <= i < |d| ==> IsDigit(d[i])
    requires rest == [] || !IsDigit(rest[0])
    ensures Digits(d + rest) == d
  {
    if d == [] {
      assert d + rest == rest;
    } else {
      assert (d + rest)[1..] == d[1..] + rest;
      DigitsBefore(d[1..], rest);
    }
  }

  /** What is printed is read back, up to the largest value. */
  lemma DecimalIsRead(n: nat)
    requires n <= ULONG_MAX
    ensures Strtoul(Decimal(n)) == n
  {
    StrtoulReads([], [], n, []);
    assert [] + [] + Decimal(n) + [] == Decimal(n);
  }

  // ----- a new id -----

  type Id = seq<byte>

  function LargestId(ids: seq<Id>): (m: nat)
    ensures m <= ULONG_MAX
  {
    if ids == [] then 0
    else
      var before, last := LargestId(ids[..|ids| - 1]), Strtoul(ids[|ids| - 1]);
      if last > before then last else before
  }

  lemma {:induction false} LargestIsLargest(ids: seq<Id>, id: Id)
    requires id in ids
    ensures Strtoul(id) <= LargestId(ids)
  {
    var n := |ids| - 1;
    if id != ids[n] {
      assert id in ids[..n];
      LargestIsLargest(ids[..n], id);
    }
  }

  /** One more than the largest, in 64 bits. */
  function NewId(ids: seq<Id>): Id
  {
    Decimal(Successor(LargestId(ids)))
  }

  /** One more, as an unsigned 64-bit variable holds it. */
  function Successor(n: nat): nat
  {
    if n == ULONG_MAX then 0 else n + 1
  }

  const ZERO: Id := [48]

  /**
   * A new id differs from all ids there are, except that it is "0" once an id reads as the
   * largest number, and then it is new exactly if no snapshot has that id.
   */
  lemma NewIdIsNewExactlyWhen(ids: seq<Id>)
    ensures NewId(ids) !in ids <==> LargestId(ids) < ULONG_MAX || ZERO !in ids
  {
    if LargestId(ids) < ULONG_MAX {
      DecimalIsRead(LargestId(ids) + 1);
      if NewId(ids) in ids {
        LargestIsLargest(ids, NewId(ids));
      }
    } else {
      assert NewId(ids) == ZERO;
    }
  }

  lemma {:induction false} LargestIsOne(ids: seq<Id>)
    ensures LargestId(ids) == 0 || exists i :: 0 <= i < |ids| && Strtoul(ids[i]) == LargestId(ids)
  {
    var n := |ids| - 1;
    if ids != [] && Strtoul(ids[n]) <= LargestId(ids[..n]) {
      LargestIsOne(ids[..n]);
    }
  }

  lemma LargestIs(ids: seq<Id>, m: nat)
    requires forall i :: 0 <= i < |ids| ==> Strtoul(ids[i]) <= m
    requires m == 0 || exists i :: 0 <= i < |ids| && Strtoul(ids[i]) == m
    ensures LargestId(ids) == m
  {
    LargestIsOne(ids);
    if m > 0 {
      var i :| 0 <= i < |ids| && Strtoul(ids[i]) == m;
      LargestIsLargest(ids, ids[i]);
    }
  }

  /** A new id reads as one more than all ids do, as long as there is such a number. */
  lemma NewIdIsNext(ids: seq<Id>, m: nat)
    requires forall i :: 0 <= i < |ids| ==> Strtoul(ids[i]) <= m
    requires m == 0 || exists i :: 0 <= i < |ids| && Strtoul(ids[i]) == m
    ensures Strtoul(NewId(ids)) == if m == ULONG_MAX then 0 else m + 1
  {
    LargestIs(ids, m);
    IdIsRead(ids, Successor(m));
  }

  lemma IdIsRead(ids: seq<Id>, n: nat)
    requires n == Successor(LargestId(ids))
    ensures Strtoul(NewId(ids)) == n
  {
    DecimalIsRead(n);
  }

  /** Two snapshots called 0 and 18446744073709551615 make the next one a second 0. */
  lemma NewIdMayBeTaken()
    ensures var ids := [ZERO, Decimal(ULONG_MAX)]; NewId(ids) in ids
  {
    var ids := [ZERO, Decimal(ULONG_MAX)];
    DecimalIsRead(ULONG_MAX);
    assert ids[1] in ids && ids[0] in ids;
    LargestIsLargest(ids, Decimal(ULONG_MAX));
    NewIdIsNewExactlyWhen(ids);
  }

  datatype NamedOf<S> = Named(id: S, name: S)

  type Named = NamedOf<seq<byte>>

  function IdsOf(sns: seq<Named>): (ids: seq<Id>)
    ensures |ids| == |sns| && forall i :: 0 <= i < |sns| ==> ids[i] == sns[i].id
  {
    seq(|sns|, i requires 0 <= i < |sns| => sns[i].id)
  }

  method FindNewSnapshotId(sns: seq<Named>) returns (id: Id)
    ensures id == NewId(IdsOf(sns))
  {
    var idMax := 0;
    ghost var ids := IdsOf(sns);
    for i := 0 to |sns|
      invariant idMax == LargestId(ids[..i])
    {
      assert ids[..i + 1][..i] == ids[..i];
      var n := Strtoul(sns[i].id);
      if n > idMax {
        idMax := n;
      }
    }
    assert ids[..|sns|] == ids;
    id := Decimal(Successor(idMax));
  }

  // ----- lookup -----

  /** A criterion that is not given is met by every snapshot. */
  predicate Meets(sn: Named, id: Option<seq<byte>>, name: Option<seq<byte>>)
  {
    (id.Some? ==> sn.id == id.value) && (name.Some? ==> sn.name == name.value)
  }

  /** The first snapshot that meets the criteria; -1 if there is none, or no criterion. */
  method FindByIdAndName(sns: seq<Named>, id: Option<seq<byte>>, name: Option<seq<byte>>) returns (r: int)
    ensures -1 <= r < |sns|
    ensures r == -1 <==> (id.None? && name.None?) || forall i :: 0 <= i < |sns| ==> !Meets(sns[i], id, name)
    ensures r >= 0 ==> Meets(sns[r], id, name) && forall i :: 0 <= i < r ==> !Meets(sns[i], id, name)
  {
    if id.Some? && name.Some? {
      for i := 0 to |sns|
        invariant forall k :: 0 <= k < i ==> !Meets(sns[k], id, name)
      {
        if sns[i].id == id.value && sns[i].name == name.value {
          return i;
        }
      }
    } else if id.Some? {
      for i := 0 to |sns|
        invariant forall k :: 0 <= k < i ==> !Meets(sns[k], id, name)
      {
        if sns[i].id == id.value {
          return i;
        }
      }
    } else if name.Some? {
      for i := 0 to |sns|
        invariant forall k :: 0 <= k < i ==> !Meets(sns[k], id, name)
      {
        if sns[i].name == name.value {
          return i;
        }
      }
    }
    return -1;
  }

  /** An id matches before a name does, even one that comes earlier in the list. */
  method FindByIdOrName(sns: seq<Named>, key: seq<byte>) returns (r: int)
    ensures -1 <= r < |sns|
    ensures r >= 0 ==> sns[r].id == key || (sns[r].name == key && forall i :: 0 <= i < |sns| ==> sns[i].id != key)
    ensures r == -1 <==> forall i :: 0 <= i < |sns| ==> sns[i].id != key && sns[i].name != key
  {
    r := FindByIdAndName(sns, Some(key), None);
    if r >= 0 {
      return;
    }
    assert forall i :: 0 <= i < |sns| ==> !Meets(sns[i], Some(key), None);
    assert forall i :: 0 <= i < |sns| ==> sns[i].id != key;
    r := FindByIdAndName(sns, None, Some(key));
    if r < 0 {
      assert forall i :: 0 <= i < |sns| ==> !Meets(sns[i], None, Some(key));
      assert forall i :: 0 <= i < |sns| ==> sns[i].name != key;
    }
  }
}
