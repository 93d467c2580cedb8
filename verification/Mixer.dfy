/**
 * The playback mixer: soft voices resampled and added into the ring buffer of one hardware
 * voice, each at its own fill level, while the driver plays the ring from its read position.
 */
module Mixer {
  import opened Resampler
  import Bytes

  // ----- the sum of the voices -----

  /** What a voice adds at distance `k`: silence beyond what it has mixed. */
  function PartAt(p: seq<Sample>, k: nat): Sample
  {
    if k < |p| then p[k] else SILENCE
  }

  function Total(ps: seq<seq<Sample>>, k: nat): Sample
  {
    if ps == [] then SILENCE else Plus(PartAt(ps[0], k), Total(ps[1..], k))
  }

  lemma {:induction false} TotalUpdate(ps: seq<seq<Sample>>, i: nat, p: seq<Sample>, k: nat)
    requires i < |ps|
    ensures Plus(Total(ps[i := p], k), PartAt(ps[i], k)) == Plus(Total(ps, k), PartAt(p, k))
  {
    if i == 0 {
      assert ps[i := p][1..] == ps[1..];
    } else {
      assert ps[i := p][1..] == ps[1..][i - 1 := p];
      TotalUpdate(ps[1..], i - 1, p, k);
    }
  }

  /** Sums agree when every voice adds the same at `k` as the other does at `m`. */
  lemma {:induction false} TotalAgrees(ps: seq<seq<Sample>>, k: nat, qs: seq<seq<Sample>>, m: nat)
    requires |ps| == |qs|
    requires forall i :: 0 <= i < |ps| ==> PartAt(ps[i], k) == PartAt(qs[i], m)
    ensures Total(ps, k) == Total(qs, m)
  {
    if ps != [] {
      TotalAgrees(ps[1..], k, qs[1..], m);
    }
  }

  lemma {:induction false} TotalBeyond(ps: seq<seq<Sample>>, k: nat)
    requires forall i :: 0 <= i < |ps| ==> |ps[i]| <= k
    ensures Total(ps, k) == SILENCE
  {
    if ps != [] {
      var rest := ps[1..];
      assert forall i :: 0 <= i < |rest| ==> rest[i] == ps[i + 1];
      TotalBeyond(rest, k);
      assert |ps[0]| <= k;
      assert PartAt(ps[0], k) == SILENCE;
    }
  }

  // ----- the ring -----

  /** The ring slot `k` samples after the read position. */
  function Slot(rpos: nat, k: nat, n: nat): nat
  {
    if rpos + k < n then rpos + k else rpos + k - n
  }

  lemma SlotIsRemainder(rpos: nat, k: nat, n: nat)
    requires rpos < n && k <= n
    ensures (rpos + k) % n == Slot(rpos, k, n)
  {
    if rpos + k < n {
      Bytes.DivModUnique(rpos + k, n, 0, rpos + k);
    } else {
      Bytes.DivModUnique(rpos + k, n, 1, rpos + k - n);
    }
  }

  predicate SlotHolds(ring: seq<Sample>, rpos: nat, ps: seq<seq<Sample>>, k: nat)
    requires rpos < |ring| && k < |ring|
  {
    ring[Slot(rpos, k, |ring|)] == WrapSample(Total(ps, k))
  }

  /** Every slot is the sum of the voices that have mixed that far, as 64-bit samples. */
  predicate RingHolds(ring: seq<Sample>, rpos: nat, ps: seq<seq<Sample>>)
  {
    && rpos < |ring|
    && (forall i :: 0 <= i < |ps| ==> |ps[i]| <= |ring|)
    && (forall k :: 0 <= k < |ring| ==> SlotHolds(ring, rpos, ps, k))
  }

  /** Slots no voice has reached are silent. */
  lemma UnreachedSlotsAreSilent(ring: seq<Sample>, rpos: nat, ps: seq<seq<Sample>>, k: nat)
    requires RingHolds(ring, rpos, ps) && k < |ring|
    requires forall i :: 0 <= i < |ps| ==> |ps[i]| <= k
    ensures ring[Slot(rpos, k, |ring|)] == SILENCE
  {
    assert SlotHolds(ring, rpos, ps, k);
    TotalBeyond(ps, k);
  }

  lemma WrapSampleAdd(a: Sample, b: Sample)
    ensures WrapSample(Plus(WrapSample(a), b)) == WrapSample(Plus(a, b))
  {
    Wrap64Add(a.l, b.l);
    Wrap64Add(a.r, b.r);
  }

  /** Mixing a voice's next samples where its last ones ended keeps the ring the sum. */
  lemma MixingKeepsSum(ring: seq<Sample>, rpos: nat, ps: seq<seq<Sample>>, i: nat,
                       out: seq<Sample>, ring': seq<Sample>)
    requires RingHolds(ring, rpos, ps) && i < |ps|
    requires |ps[i]| + |out| <= |ring|
    requires Poured(Mix, ring, Slot(rpos, |ps[i]|, |ring|), out, ring')
    ensures RingHolds(ring', rpos, ps[i := ps[i] + out])
  {
    var n, live := |ring|, |ps[i]|;
    var qs := ps[i := ps[i] + out];
    forall k | 0 <= k < n
      ensures SlotHolds(ring', rpos, qs, k)
    {
      var s, w := Slot(rpos, k, n), Slot(rpos, live, n);
      assert SlotHolds(ring, rpos, ps, k);
      assert ring'[s] == Cell(Mix, ring, w, out, s);
      TotalUpdate(ps, i, ps[i] + out, k);
      if live <= k < live + |out| {
        assert s == w + (k - live);
        assert Total(qs, k) == Plus(Total(ps, k), out[k - live]);
        WrapSampleAdd(Total(ps, k), out[k - live]);
      } else {
        assert !(w <= s < w + |out|);
        assert PartAt(ps[i] + out, k) == PartAt(ps[i], k);
      }
    }
  }

  /** A voice's samples still to be played once `n` have been. */
  function Rest(p: seq<Sample>, n: nat): seq<Sample>
  {
    if n <= |p| then p[n..] else []
  }

  ghost predicate AllRest(ps: seq<seq<Sample>>, n: nat, qs: seq<seq<Sample>>)
  {
    && |qs| == |ps|
    && forall i :: 0 <= i < |ps| ==> (n <= |ps[i]| || ps[i] == []) && qs[i] == Rest(ps[i], n)
  }

  predicate ClearedSlot(rpos: nat, played: nat, n: nat, j: nat)
  {
    var piece := if played < n - rpos then played else n - rpos;
    rpos <= j < rpos + piece || j < played - piece
  }

  /** The two runs of cells that playing leaves behind are silent, the others as before. */
  predicate Cleared(ring: seq<Sample>, rpos: nat, played: nat, ring': seq<Sample>)
  {
    && |ring'| == |ring| && rpos < |ring|
    && forall j :: 0 <= j < |ring| ==>
         ring'[j] == if ClearedSlot(rpos, played, |ring|, j) then SILENCE else ring[j]
  }

  lemma PlayingKeepsSum(ring: seq<Sample>, rpos: nat, ps: seq<seq<Sample>>, played: nat,
                        ring': seq<Sample>, qs: seq<seq<Sample>>)
    requires RingHolds(ring, rpos, ps) && played <= |ring|
    requires Cleared(ring, rpos, played, ring') && AllRest(ps, played, qs)
    ensures RingHolds(ring', Slot(rpos, played, |ring|), qs)
  {
    var n, rpos' := |ring|, Slot(rpos, played, |ring|);
    forall k | 0 <= k < n
      ensures SlotHolds(ring', rpos', qs, k)
    {
      var s := Slot(rpos', k, n);
      if k + played < n {
        assert s == Slot(rpos, k + played, n);
        assert SlotHolds(ring, rpos, ps, k + played);
        assert !ClearedSlot(rpos, played, n, s);
        TotalAgrees(qs, k, ps, k + played);
      } else {
        assert ClearedSlot(rpos, played, n, s);
        TotalBeyond(qs, k);
      }
    }
  }

  // ----- what the listener hears -----

  predicate HeardAt(heard: seq<Sample>, past: seq<seq<Sample>>, t: nat)
    requires t < |heard|
  {
    heard[t] == WrapSample(Total(past, t))
  }

  /** Everything played so far is the sum of what the voices contributed, sample by sample. */
  predicate HeardSum(heard: seq<Sample>, past: seq<seq<Sample>>)
  {
    && (forall i :: 0 <= i < |past| ==> |past[i]| == |heard|)
    && (forall t :: 0 <= t < |heard| ==> HeardAt(heard, past, t))
  }

  function Quiet(n: nat): (s: seq<Sample>)
    ensures |s| == n && forall k :: 0 <= k < n ==> s[k] == SILENCE
  {
    seq(n, _ => SILENCE)
  }

  /** A voice's part in the next `n` samples: its own, or silence when it has none. */
  function Played(p: seq<Sample>, n: nat): (s: seq<Sample>)
    ensures |s| == n
  {
    if n <= |p| then p[..n] else Quiet(n)
  }

  /** The next `n` samples in the ring. */
  function Ahead(ring: seq<Sample>, rpos: nat, n: nat): (s: seq<Sample>)
    requires rpos < |ring| && n <= |ring|
    ensures |s| == n
    ensures forall k :: 0 <= k < n ==> s[k] == ring[Slot(rpos, k, |ring|)]
  {
    seq(n, k requires 0 <= k < n => ring[Slot(rpos, k, |ring|)])
  }

  ghost predicate AllPlayed(past: seq<seq<Sample>>, ps: seq<seq<Sample>>, n: nat, past': seq<seq<Sample>>)
  {
    && |past'| == |past| == |ps|
    && forall i :: 0 <= i < |ps| ==> past'[i] == past[i] + Played(ps[i], n)
  }

  lemma PlayingIsHeard(heard: seq<Sample>, past: seq<seq<Sample>>, ring: seq<Sample>, rpos: nat,
                       ps: seq<seq<Sample>>, n: nat, past': seq<seq<Sample>>)
    requires HeardSum(heard, past) && RingHolds(ring, rpos, ps) && n <= |ring|
    requires AllPlayed(past, ps, n, past')
    requires forall i :: 0 <= i < |ps| ==> n <= |ps[i]| || ps[i] == []
    ensures HeardSum(heard + Ahead(ring, rpos, n), past')
  {
    var heard' := heard + Ahead(ring, rpos, n);
    forall t | 0 <= t < |heard'|
      ensures HeardAt(heard', past', t)
    {
      forall i | 0 <= i < |ps|
        ensures PartAt(past'[i], t) == if t < |heard| then PartAt(past[i], t) else PartAt(ps[i], t - |heard|)
      {
        PartOfPlayed(past[i], ps[i], n, t);
      }
      if t < |heard| {
        assert HeardAt(heard, past, t);
        TotalAgrees(past', t, past, t);
      } else {
        assert SlotHolds(ring, rpos, ps, t - |heard|);
        TotalAgrees(past', t, ps, t - |heard|);
      }
    }
  }

  lemma PartOfPlayed(past: seq<Sample>, p: seq<Sample>, n: nat, t: nat)
    requires (n <= |p| || p == []) && t < |past| + n
    ensures PartAt(past + Played(p, n), t)
         == if t < |past| then PartAt(past, t) else PartAt(p, t - |past|)
  {
  }

  // ----- one write -----

  /** Input samples that `dead` free slots may take, at `ratio` / 2^32 outputs a sample. */
  function RoomFor(dead: nat, ratio: nat): (n: nat)
    requires ratio > 0
    ensures n * ratio <= dead * 0x1_0000_0000 < (n + 1) * ratio
  {
    assert dead * TWO32 == dead * TWO32 / ratio * ratio + dead * TWO32 % ratio;
    dead * TWO32 / ratio
  }

  /** A write of `data` by a voice with `fill` samples pending: what a single conversion does. */
  function Fed(r: Rate, ratio: nat, n: nat, fill: nat, data: seq<Sample>): Progress
    requires ratio > 0 && fill <= n
  {
    Advance(data, Progress(r, 0, []), Bytes.Min(RoomFor(n - fill, ratio), |data|), n - fill)
  }

  lemma NothingFed(r: Rate, ratio: nat, n: nat, fill: nat, data: seq<Sample>)
    requires ratio > 0 && fill <= n
    requires fill == n || RoomFor(n - fill, ratio) == 0
    ensures Fed(r, ratio, n, fill, data) == Progress(r, 0, [])
  {
  }

  /** Part of the way through a write: `pos` samples taken, `out` mixed. */
  predicate Writing(data: seq<Sample>, lim: nat, dead: nat, start: Rate, r: Rate, pos: nat, out: seq<Sample>)
  {
    && pos <= lim <= |data| && |out| <= dead && RateOk(r)
    && Leads(data, Progress(start, 0, []), Progress(r, pos, out), lim, dead)
  }

  lemma WriteOn(data: seq<Sample>, lim: nat, dead: nat, start: Rate, r: Rate, pos: nat, out: seq<Sample>, room: nat)
    requires Writing(data, lim, dead, start, r, pos, out) && |out| + room <= dead
    ensures var q := Advance(data, Progress(r, pos, []), lim, room);
            Writing(data, lim, dead, start, q.state, q.pos, out + q.out)
  {
    CallBounds(data, Progress(r, pos, []), lim, room);
    CallContinues(data, r, pos, out, lim, room);
    CutAnywhere(data, Progress(r, pos, out), lim, |out| + room, lim, dead);
    ConversionKeepsRate(data, Progress(r, pos, []), lim, room);
  }

  lemma MixOn(ring: seq<Sample>, rpos: nat, ps: seq<seq<Sample>>, i: nat, out: seq<Sample>,
              more: seq<Sample>, ring': seq<Sample>)
    requires i < |ps| && RingHolds(ring, rpos, ps[i := ps[i] + out])
    requires |ps[i]| + |out| + |more| <= |ring|
    requires Poured(Mix, ring, Slot(rpos, |ps[i]| + |out|, |ring|), more, ring')
    ensures RingHolds(ring', rpos, ps[i := ps[i] + (out + more)])
  {
    var qs := ps[i := ps[i] + out];
    MixingKeepsSum(ring, rpos, qs, i, more, ring');
    assert (ps[i] + out) + more == ps[i] + (out + more);
    assert qs[i := qs[i] + more] == ps[i := ps[i] + (out + more)];
  }

  /** A write's place: its data and limit, the voice, and the state it began in. */
  datatype WriteWith<S, P> = WriteCall(data: S, lim: nat, voice: nat, rate: Rate, pending: P, rpos: nat, slots: nat)

  type WriteCall = WriteWith<seq<Sample>, seq<seq<Sample>>>

  function Dead(c: WriteCall): int
    requires c.voice < |c.pending|
  {
    c.slots - |c.pending[c.voice]|
  }

  predicate Mixing(c: WriteCall, r: Rate, pos: nat, out: seq<Sample>, ring: seq<Sample>)
  {
    && c.voice < |c.pending| && |ring| == c.slots && |c.pending[c.voice]| <= c.slots
    && Writing(c.data, c.lim, Dead(c), c.rate, r, pos, out)
    && RingHolds(ring, c.rpos, c.pending[c.voice := c.pending[c.voice] + out])
  }

  lemma MixingStarts(c: WriteCall, ring: seq<Sample>)
    requires c.voice < |c.pending| && |ring| == c.slots && c.lim <= |c.data| && RateOk(c.rate)
    requires RingHolds(ring, c.rpos, c.pending)
    ensures Mixing(c, c.rate, 0, [], ring)
  {
    assert c.pending[c.voice] + [] == c.pending[c.voice];
    assert c.pending[c.voice := c.pending[c.voice] + []] == c.pending;
  }

  lemma WritingGoesOn(c: WriteCall, r: Rate, pos: nat, out: seq<Sample>, room: nat,
                      was: seq<Sample>, off: nat, used: nat, made: nat, r': Rate, ring': seq<Sample>)
    returns (more: seq<Sample>)
    requires c.voice < |c.pending| && |c.pending[c.voice]| <= c.slots
    requires Writing(c.data, c.lim, Dead(c), c.rate, r, pos, out) && |out| + room <= Dead(c)
    requires Converted(Mix, c.data, r, pos, c.lim, room, was, off, used, made, r', ring')
    ensures |more| == made <= room && pos + used <= c.lim
    ensures pos < c.lim && room > 0 ==> used + made > 0
    ensures Writing(c.data, c.lim, Dead(c), c.rate, r', pos + used, out + more) == true
    ensures Poured(Mix, was, off, more, ring') == true
  {
    var q := Advance(c.data, Progress(r, pos, []), c.lim, room);
    more := q.out;
    CallBounds(c.data, Progress(r, pos, []), c.lim, room);
    WriteOn(c.data, c.lim, Dead(c), c.rate, r, pos, out, room);
  }

  lemma MixingGoesOn(c: WriteCall, r: Rate, pos: nat, out: seq<Sample>, ring: seq<Sample>,
                     room: nat, used: nat, made: nat, r': Rate, ring': seq<Sample>) returns (more: seq<Sample>)
    requires Mixing(c, r, pos, out, ring) && |out| + room <= Dead(c)
    requires Converted(Mix, c.data, r, pos, c.lim, room, ring, Slot(c.rpos, |c.pending[c.voice]| + |out|, c.slots),
                       used, made, r', ring') == true
    ensures |more| == made <= room && pos + used <= c.lim
    ensures pos < c.lim && room > 0 ==> used + made > 0
    ensures Mixing(c, r', pos + used, out + more, ring') == true
  {
    var off := Slot(c.rpos, |c.pending[c.voice]| + |out|, c.slots);
    more := WritingGoesOn(c, r, pos, out, room, ring, off, used, made, r', ring');
    MixOn(ring, c.rpos, c.pending, c.voice, out, more, ring');
  }

  lemma MixingEnds(c: WriteCall, r: Rate, pos: nat, out: seq<Sample>, ring: seq<Sample>)
    requires Mixing(c, r, pos, out, ring) && (pos == c.lim || |out| == Dead(c))
    ensures Advance(c.data, Progress(c.rate, 0, []), c.lim, Dead(c)) == Progress(r, pos, out)
    ensures RingHolds(ring, c.rpos, c.pending[c.voice := c.pending[c.voice] + out]) && RateOk(r)
  {
  }

  // ----- one run of the timer -----

  datatype VoiceState = VoiceState(mixed: nat, empty: bool, active: bool, rate: Rate)

  /** Voices that take part in playing: active ones, and others until they have run dry. */
  predicate Playing(v: VoiceState)
  {
    v.active || !v.empty
  }

  predicate Filled(v: VoiceState, n: nat)
  {
    v.mixed == n && (v.empty <==> n == 0) && RateOk(v.rate)
  }

  predicate AllFilled(vs: seq<VoiceState>, ps: seq<seq<Sample>>, n: nat)
  {
    |vs| == |ps| && forall i :: 0 <= i < |vs| ==> Filled(vs[i], |ps[i]|) && |ps[i]| <= n
  }

  /** `live` is the least fill among the playing voices, or 0 if there are none. */
  ghost predicate LeastFill(vs: seq<VoiceState>, ps: seq<seq<Sample>>, live: nat, count: nat)
  {
    && AllHave(vs, ps, live)
    && (count == 0 ==> live == 0 && forall i :: 0 <= i < |vs| ==> !Playing(vs[i]))
    && (count > 0 ==> exists i :: 0 <= i < |vs| && Playing(vs[i]) && live == |ps[i]|)
  }

  predicate NobodyPlays(vs: seq<VoiceState>)
  {
    forall i :: 0 <= i < |vs| ==> !Playing(vs[i])
  }

  /** As much is played as every playing voice has, or as the driver takes; nothing if no voice plays. */
  ghost predicate PlaysLeast(s: Snapshot, budget: nat, played: nat)
  {
    exists live: nat, count: nat :: LeastFill(s.voices, s.pending, live, count) && played == Bytes.Min(live, budget)
  }

  /** Whether a hardware voice is on, and whether it is to go off. */
  datatype Power = Power(enabled: bool, pendingDisable: bool)

  /** A voice that is to go off does so once no voice plays any more; nothing else switches it. */
  ghost predicate GoesOn(s: Snapshot, was: Power, now: Power)
  {
    now == if was.pendingDisable && NobodyPlays(s.voices) then Power(false, false) else was
  }

  lemma LeastIsPlayed(s: Snapshot, live: nat, count: nat, budget: nat, was: Power)
    requires LeastFill(s.voices, s.pending, live, count) == true
    ensures PlaysLeast(s, budget, if live == 0 then 0 else Bytes.Min(live, budget)) == true && (count == 0 ==> live == 0)
    ensures GoesOn(s, was, if was.pendingDisable && count == 0 then Power(false, false) else was) == true
  {
    assert LeastFill(s.voices, s.pending, live, count);
  }

  /** Every playing voice has at least `n` samples pending. */
  predicate AllHave(vs: seq<VoiceState>, ps: seq<seq<Sample>>, n: nat)
  {
    |vs| == |ps| && forall i :: 0 <= i < |vs| && Playing(vs[i]) ==> n <= |ps[i]|
  }

  /** What a voice's owner has mixed when it is asked for more: active voices are, others are not. */
  function Answer(v: VoiceState, ratio: nat, n: nat, fill: nat, data: seq<Sample>): Progress
    requires ratio > 0 && fill <= n
  {
    if v.active then Fed(v.rate, ratio, n, fill, data) else Progress(v.rate, 0, [])
  }

  /** A voice across a run that played `played` samples and offered its owner the free slots. */
  predicate VoiceRan(v: VoiceState, p: seq<Sample>, ratio: nat, n: nat, played: nat, data: seq<Sample>,
                     v': VoiceState, p': seq<Sample>)
  {
    && ratio > 0 && |Rest(p, played)| <= n && (Playing(v) ==> played <= |p|)
    && var q := Answer(v, ratio, n, |Rest(p, played)|, data);
    && p' == Rest(p, played) + q.out && v'.rate == q.state
    && v'.active == v.active && Filled(v', |p'|)
  }

  /** The loop over the voices has come to voice `k`. */
  predicate Served(k: nat, vs: seq<VoiceState>, ps: seq<seq<Sample>>, ratios: seq<nat>, n: nat, played: nat,
                   refill: seq<seq<Sample>>, vs': seq<VoiceState>, ps': seq<seq<Sample>>)
  {
    && |vs| == |ps| == |ratios| == |refill| == |vs'| == |ps'|
    && (forall j :: 0 <= j < k && j < |vs| ==>
          VoiceRan(vs[j], ps[j], ratios[j], n, played, refill[j], vs'[j], ps'[j]))
    && (forall j :: k <= j < |vs| ==> vs'[j] == vs[j] && ps'[j] == Rest(ps[j], played))
  }

  lemma ServedNext(k: nat, vs: seq<VoiceState>, ps: seq<seq<Sample>>, ratios: seq<nat>, n: nat, played: nat,
                   refill: seq<seq<Sample>>, vs': seq<VoiceState>, ps': seq<seq<Sample>>,
                   v: VoiceState, p: seq<Sample>)
    requires k < |vs| && Served(k, vs, ps, ratios, n, played, refill, vs', ps')
    requires VoiceRan(vs[k], ps[k], ratios[k], n, played, refill[k], v, p)
    ensures Served(k + 1, vs, ps, ratios, n, played, refill, vs'[k := v], ps'[k := p]) == true
  {
  }

  /** Playing no samples changes nothing. */
  lemma NothingPlayed(heard: seq<Sample>, past: seq<seq<Sample>>, ring: seq<Sample>, rpos: nat, ps: seq<seq<Sample>>)
    requires rpos < |ring| && |past| == |ps|
    ensures heard + Ahead(ring, rpos, 0) == heard
    ensures AllPlayed(past, ps, 0, past)
  {
    forall i | 0 <= i < |ps|
      ensures past[i] == past[i] + Played(ps[i], 0)
    {
    }
  }

  lemma NobodyServed(vs: seq<VoiceState>, ps: seq<seq<Sample>>, ratios: seq<nat>, n: nat, refill: seq<seq<Sample>>)
    requires |vs| == |ratios| == |refill| && AllFilled(vs, ps, n)
    requires forall i :: 0 <= i < |vs| ==> !Playing(vs[i]) && ratios[i] > 0
    ensures Served(|vs|, vs, ps, ratios, n, 0, refill, vs, ps) == true
  {
  }

  lemma ServingStarts(vs: seq<VoiceState>, ps: seq<seq<Sample>>, ratios: seq<nat>, n: nat, played: nat,
                      refill: seq<seq<Sample>>, qs: seq<seq<Sample>>)
    requires |vs| == |ratios| == |refill| && AllFilled(vs, ps, n)
    requires AllRest(ps, played, qs)
    ensures Served(0, vs, ps, ratios, n, played, refill, vs, qs) == true
  {
  }

  lemma AllServed(vs: seq<VoiceState>, ps: seq<seq<Sample>>, ratios: seq<nat>, n: nat, played: nat,
                  refill: seq<seq<Sample>>, vs': seq<VoiceState>, ps': seq<seq<Sample>>, ring: seq<Sample>, rpos: nat)
    requires Served(|vs|, vs, ps, ratios, n, played, refill, vs', ps')
    requires RingHolds(ring, rpos, ps') && |ring| == n
    ensures AllFilled(vs', ps', n) == true
  {
    forall i | 0 <= i < |vs'|
      ensures Filled(vs'[i], |ps'[i]|)
    {
      assert VoiceRan(vs[i], ps[i], ratios[i], n, played, refill[i], vs'[i], ps'[i]);
    }
  }

  lemma EnoughToPlay(vs: seq<VoiceState>, ps: seq<seq<Sample>>, n: nat, live: nat, played: nat)
    requires AllFilled(vs, ps, n) && AllHave(vs, ps, live) && played <= live
    ensures AllHave(vs, ps, played) == true
    ensures forall i :: 0 <= i < |ps| ==> played <= |ps[i]| || ps[i] == []
  {
    forall i | 0 <= i < |ps|
      ensures played <= |ps[i]| || ps[i] == []
    {
      assert Filled(vs[i], |ps[i]|);
    }
  }

  lemma RestIsWhole(ps: seq<seq<Sample>>)
    ensures AllRest(ps, 0, ps) == true
  {
  }

  /** A hardware voice as a value. */
  datatype Snapshot = Snapshot(ring: seq<Sample>, rpos: nat, voices: seq<VoiceState>, ratios: seq<nat>,
                               pending: seq<seq<Sample>>, past: seq<seq<Sample>>, heard: seq<Sample>)

  ghost predicate Sound(s: Snapshot)
  {
    && |s.ratios| == |s.voices| && |s.past| == |s.pending|
    && AllFilled(s.voices, s.pending, |s.ring|)
    && RingHolds(s.ring, s.rpos, s.pending) && HeardSum(s.heard, s.past)
    && forall i :: 0 <= i < |s.ratios| ==> s.ratios[i] > 0
  }

  /** The driver played `played` samples of `s`: they are heard, and gone from every voice. */
  ghost predicate PlayedOn(s: Snapshot, played: nat, s': Snapshot)
  {
    && s.rpos < |s.ring| && played <= |s.ring| == |s'.ring|
    && s'.heard == s.heard + Ahead(s.ring, s.rpos, played)
    && AllPlayed(s.past, s.pending, played, s'.past) && AllRest(s.pending, played, s'.pending)
    && s'.voices == s.voices && s'.ratios == s.ratios
    && RingHolds(s'.ring, s'.rpos, s'.pending) && HeardSum(s'.heard, s'.past)
  }

  function RestOfAll(ps: seq<seq<Sample>>, n: nat): (qs: seq<seq<Sample>>)
    ensures |qs| == |ps| && forall i :: 0 <= i < |ps| ==> qs[i] == Rest(ps[i], n)
  {
    seq(|ps|, i requires 0 <= i < |ps| => Rest(ps[i], n))
  }

  function PastOfAll(past: seq<seq<Sample>>, ps: seq<seq<Sample>>, n: nat): (qs: seq<seq<Sample>>)
    requires |past| == |ps|
    ensures |qs| == |ps| && forall i :: 0 <= i < |ps| ==> qs[i] == past[i] + Played(ps[i], n)
  {
    seq(|ps|, i requires 0 <= i < |ps| => past[i] + Played(ps[i], n))
  }

  lemma PlayingAdvances(s: Snapshot, live: nat, played: nat, s': Snapshot)
    requires Sound(s) && AllHave(s.voices, s.pending, live) && played <= live <= |s.ring|
    requires Cleared(s.ring, s.rpos, played, s'.ring) && s'.rpos == Slot(s.rpos, played, |s.ring|)
    requires s'.heard == s.heard + Ahead(s.ring, s.rpos, played)
    requires s'.past == PastOfAll(s.past, s.pending, played) && s'.pending == RestOfAll(s.pending, played)
    requires s'.voices == s.voices && s'.ratios == s.ratios
    ensures PlayedOn(s, played, s') == true
  {
    EnoughToPlay(s.voices, s.pending, |s.ring|, live, played);
    PlayingKeepsSum(s.ring, s.rpos, s.pending, played, s'.ring, s'.pending);
    PlayingIsHeard(s.heard, s.past, s.ring, s.rpos, s.pending, played, s'.past);
  }

  /** A whole run: what was played is heard, and every voice went on as `VoiceRan` says. */
  ghost predicate Ran(s: Snapshot, played: nat, refill: seq<seq<Sample>>, s': Snapshot)
  {
    && s.rpos < |s.ring| && played <= |s.ring|
    && s'.heard == s.heard + Ahead(s.ring, s.rpos, played)
    && AllPlayed(s.past, s.pending, played, s'.past) && AllHave(s.voices, s.pending, played)
    && Served(|s.voices|, s.voices, s.pending, s.ratios, |s.ring|, played, refill, s'.voices, s'.pending)
    && Sound(s')
  }

  /** The refilling part of a run that began in `s`, from `s1` to `s2`. */
  ghost predicate Refilled(s: Snapshot, played: nat, refill: seq<seq<Sample>>, s1: Snapshot, s2: Snapshot)
  {
    && |s2.ring| == |s.ring| && s2.heard == s1.heard && s2.past == s1.past && s2.ratios == s.ratios
    && Served(|s.voices|, s.voices, s.pending, s.ratios, |s.ring|, played, refill, s2.voices, s2.pending)
    && RingHolds(s2.ring, s2.rpos, s2.pending)
  }

  lemma RanByRefill(s: Snapshot, played: nat, refill: seq<seq<Sample>>, s1: Snapshot, s2: Snapshot)
    requires Sound(s) && AllHave(s.voices, s.pending, played) && PlayedOn(s, played, s1)
    requires Refilled(s, played, refill, s1, s2)
    ensures Ran(s, played, refill, s2) == true && Sound(s2) == true
  {
    AllServed(s.voices, s.pending, s.ratios, |s.ring|, played, refill, s2.voices, s2.pending, s2.ring, s2.rpos);
  }

  lemma NothingPlayedOn(s: Snapshot)
    requires Sound(s)
    ensures PlayedOn(s, 0, s) == true
  {
    RestIsWhole(s.pending);
    NothingPlayed(s.heard, s.past, s.ring, s.rpos, s.pending);
  }

  lemma RanIdle(s: Snapshot, refill: seq<seq<Sample>>, live: nat, count: nat)
    requires Sound(s) == true && LeastFill(s.voices, s.pending, live, count) == true
    ensures PlayedOn(s, 0, s) == true && AllHave(s.voices, s.pending, live) == true
    ensures |refill| == |s.voices| && count == 0 ==> Ran(s, 0, refill, s) == true
  {
    RestIsWhole(s.pending);
    NothingPlayed(s.heard, s.past, s.ring, s.rpos, s.pending);
    EnoughToPlay(s.voices, s.pending, |s.ring|, live, 0);
    if |refill| == |s.voices| && count == 0 {
      NobodyServed(s.voices, s.pending, s.ratios, |s.ring|, refill);
    }
  }

  function ActiveCount(vs: seq<VoiceState>): nat
  {
    if vs == [] then 0
    else ActiveCount(vs[..|vs| - 1]) + if vs[|vs| - 1].active then 1 else 0
  }

  /**
   * A voice's timeline, what it has had played and what it still has pending, only ever grows
   * at its end: by what its owner mixes, while it plays; a voice that has run dry and is not
   * active is silent meanwhile. Nothing is lost, repeated or moved.
   */
  lemma TimelineOnlyGrows(s: Snapshot, played: nat, refill: seq<seq<Sample>>, s': Snapshot, i: nat)
    requires Sound(s) && Ran(s, played, refill, s') && i < |s.voices|
    ensures var p, v := s.pending[i], s.voices[i];
            && |Rest(p, played)| <= |s.ring| && s.ratios[i] > 0
            && var more := Answer(v, s.ratios[i], |s.ring|, |Rest(p, played)|, refill[i]).out;
            && (Playing(v) ==> s'.past[i] + s'.pending[i] == s.past[i] + p + more)
            && (!Playing(v) ==> p == more == [] && s'.past[i] == s.past[i] + Quiet(played))
  {
    var p, v := s.pending[i], s.voices[i];
    assert VoiceRan(v, p, s.ratios[i], |s.ring|, played, refill[i], s'.voices[i], s'.pending[i]);
    assert Filled(v, |p|);
    if Playing(v) {
      assert p == p[..played] + p[played..];
    } else {
      assert Played(p, played) == Quiet(played);
    }
  }

  lemma SilentHead(p: seq<Sample>, ps: seq<seq<Sample>>, k: nat)
    requires PartAt(p, k) == SILENCE
    ensures Total([p] + ps, k) == Total(ps, k)
  {
    assert ([p] + ps)[1..] == ps;
  }

  lemma RingWithSilent(ring: seq<Sample>, rpos: nat, ps: seq<seq<Sample>>)
    requires RingHolds(ring, rpos, ps)
    ensures RingHolds(ring, rpos, [[]] + ps) == true
  {
    forall k | 0 <= k < |ring|
      ensures SlotHolds(ring, rpos, [[]] + ps, k)
    {
      assert SlotHolds(ring, rpos, ps, k);
      SilentHead([], ps, k);
    }
  }

  lemma HeardWithSilent(heard: seq<Sample>, past: seq<seq<Sample>>)
    requires HeardSum(heard, past)
    ensures HeardSum(heard, [Quiet(|heard|)] + past) == true
  {
    forall t | 0 <= t < |heard|
      ensures HeardAt(heard, [Quiet(|heard|)] + past, t)
    {
      assert HeardAt(heard, past, t);
      SilentHead(Quiet(|heard|), past, t);
    }
  }

  /** A new voice has mixed nothing and was silent so far. */
  lemma NewVoiceIsSilent(s: Snapshot, v: VoiceState, ratio: nat, s': Snapshot)
    requires Sound(s) && Filled(v, 0) && ratio > 0
    requires s' == Snapshot(s.ring, s.rpos, [v] + s.voices, [ratio] + s.ratios, [[]] + s.pending,
                            [Quiet(|s.heard|)] + s.past, s.heard)
    ensures Sound(s') == true
  {
    RingWithSilent(s.ring, s.rpos, s.pending);
    HeardWithSilent(s.heard, s.past);
    forall i | 0 <= i < |s'.voices|
      ensures Filled(s'.voices[i], |s'.pending[i]|) && |s'.pending[i]| <= |s'.ring| && s'.ratios[i] > 0
    {
      if i > 0 {
        assert s'.voices[i] == s.voices[i - 1] && s'.pending[i] == s.pending[i - 1];
      }
    }
  }

  /** Mixing by one voice changes that voice's pending samples and the ring, nothing else. */
  lemma WriteIsSound(s: Snapshot, i: nat, v: VoiceState, p: seq<Sample>, ring: seq<Sample>)
    requires Sound(s) && i < |s.voices| && Filled(v, |p|) && |ring| == |s.ring|
    requires RingHolds(ring, s.rpos, s.pending[i := p])
    ensures Sound(s.(ring := ring, voices := s.voices[i := v], pending := s.pending[i := p])) == true
  {
    var qs := s.pending[i := p];
    assert |qs[i]| <= |ring|;
  }

  function Switched(v: VoiceState, on: bool): VoiceState
  {
    VoiceState(v.mixed, v.empty, on, v.rate)
  }

  function WithSwitched(s: Snapshot, i: nat, on: bool): Snapshot
    requires i < |s.voices|
  {
    Snapshot(s.ring, s.rpos, s.voices[i := Switched(s.voices[i], on)], s.ratios, s.pending, s.past, s.heard)
  }

  lemma SwitchIsSound(s: Snapshot, i: nat, on: bool)
    requires Sound(s) && i < |s.voices|
    ensures Sound(WithSwitched(s, i, on)) == true
    ensures s.voices[i].active == on ==> WithSwitched(s, i, on) == s
  {
  }

  // ----- voices -----

  class SoftVoice {
    /** Hardware rate over voice rate, in 32.32 fixed point. */
    const ratio: nat
    const converter: Converter
    var mixed: nat
    var empty: bool
    var active: bool

    constructor (voiceRate: nat, hardRate: nat)
      requires 0 < voiceRate < TWO31 && 0 < hardRate
      ensures fresh(converter) && mixed == 0 && empty && !active
      ensures ratio == hardRate * TWO32 / voiceRate
      ensures converter.View() == Fresh(voiceRate * TWO32 / hardRate) && RateOk(converter.View())
    {
      ratio := hardRate * TWO32 / voiceRate;
      converter := new Converter(voiceRate, hardRate);
      mixed, empty, active := 0, true, false;
    }

    ghost function State(): VoiceState
      reads this, converter
    {
      VoiceState(mixed, empty, active, converter.View())
    }
  }

  class HardVoice {
    const samples: nat
    const mixBuf: array<Sample>
    var rpos: nat
    var voices: seq<SoftVoice>
    /** For each voice, what it has mixed that has not been played. */
    ghost var pending: seq<seq<Sample>>
    /** For each voice, its part in what has been played. */
    ghost var past: seq<seq<Sample>>
    /** What has been played. */
    ghost var heard: seq<Sample>
    var enabled: bool
    var pendingDisable: bool

    ghost predicate Shape()
      reads `voices, `pending
    {
      && 0 < samples == mixBuf.Length && |voices| == |pending|
      && (forall i :: 0 <= i < |voices| ==> voices[i].ratio > 0)
      && (forall i, j :: 0 <= i < j < |voices| ==>
            voices[i] != voices[j] && voices[i].converter != voices[j].converter)
    }

    method Write(i: nat, data: seq<Sample>) returns (ret: nat)
      requires Shape() && i < |voices| && Filled(voices[i].State(), |pending[i]|)
      requires RingHolds(mixBuf[..], rpos, pending)
      modifies mixBuf, `pending, voices[i], voices[i].converter
      ensures Shape() && Filled(voices[i].State(), |pending[i]|) && RingHolds(mixBuf[..], rpos, pending)
      ensures voices[i].active == old(voices[i].active)
      ensures var q := Fed(old(voices[i].converter.View()), voices[i].ratio, samples, |old(pending)[i]|, data);
              && ret == q.pos && voices[i].converter.View() == q.state
              && pending == old(pending)[i := old(pending)[i] + q.out]
    {
      var sw := voices[i];
      var live := sw.mixed;
      ghost var r := sw.converter.View();
      if live == samples {
        NothingFed(r, sw.ratio, samples, live, data);
        assert pending[i] + [] == pending[i];
        return 0;
      }
      SlotIsRemainder(rpos, live, samples);
      var wpos := (rpos + live) % samples;
      var dead := samples - live;
      var lim := Bytes.Min(RoomFor(dead, sw.ratio), |data|);
      var total;
      ghost var out;
      ret, total, out := MixIn(i, data, lim, wpos);
      sw.mixed := sw.mixed + total;
      sw.empty := sw.mixed == 0;
    }

    /** One round of that loop: `block` free slots from `wpos`, in one piece. */
    method MixBlock(sw: SoftVoice, data: seq<Sample>, pos: nat, lim: nat, wpos: nat, block: nat,
                    ghost c: WriteCall, ghost out: seq<Sample>)
      returns (used: nat, made: nat, ghost more: seq<Sample>)
      requires Mixing(c, sw.converter.View(), pos, out, mixBuf[..]) == true
      requires RateOk(sw.converter.View()) && c.data == data && c.lim == lim && pos <= lim <= |data|
      requires |out| + block <= Dead(c) && wpos + block <= mixBuf.Length
      requires wpos == Slot(c.rpos, |c.pending[c.voice]| + |out|, c.slots)
      modifies mixBuf, sw.converter
      ensures Mixing(c, sw.converter.View(), pos + used, out + more, mixBuf[..]) == true
      ensures RateOk(sw.converter.View()) && |more| == made <= block && pos + used <= lim
      ensures pos < lim && block > 0 ==> used + made > 0
    {
      ghost var r, ring := sw.converter.View(), mixBuf[..];
      used, made := sw.converter.Flow(Mix, data, pos, lim, mixBuf, wpos, block);
      more := MixingGoesOn(c, r, pos, out, ring, block, used, made, sw.converter.View(), mixBuf[..]);
    }

    /** The loop of a write: convert into the free slots, from `start` round the end of the ring. */
    method MixIn(i: nat, data: seq<Sample>, lim: nat, start: nat)
      returns (pos: nat, total: nat, ghost out: seq<Sample>)
      requires Shape() && i < |voices| && Filled(voices[i].State(), |pending[i]|) && lim <= |data|
      requires RingHolds(mixBuf[..], rpos, pending) && start == Slot(rpos, |pending[i]|, samples) && start < samples
      modifies mixBuf, `pending, voices[i].converter
      ensures RingHolds(mixBuf[..], rpos, pending) == true && RateOk(voices[i].converter.View())
      ensures Advance(data, Progress(old(voices[i].converter.View()), 0, []), lim, samples - |old(pending)[i]|)
           == Progress(voices[i].converter.View(), pos, out)
      ensures total == |out| && pending == old(pending)[i := old(pending)[i] + out]
    {
      var sw := voices[i];
      var wpos, live := start, sw.mixed;
      ghost var c := WriteCall(data, lim, i, sw.converter.View(), pending, rpos, samples);
      pos, total, out := 0, 0, [];
      MixingStarts(c, mixBuf[..]);
      while pos < lim
        invariant sw.mixed + total == live <= samples && total == |out| && pos <= lim
        invariant wpos == Slot(rpos, live, samples) && wpos < samples
        invariant RateOk(sw.converter.View()) && pending == c.pending
        invariant Mixing(c, sw.converter.View(), pos, out, mixBuf[..]) == true
        decreases lim - pos + (samples - live)
      {
        var dead, left := samples - live, samples - wpos;
        var block := Bytes.Min(dead, left);
        if block == 0 {
          break;
        }
        var used, made;
        ghost var more;
        used, made, more := MixBlock(sw, data, pos, lim, wpos, block, c, out);
        SlotIsRemainder(wpos, made, samples);
        pos, live, total := pos + used, live + made, total + made;
        wpos := (wpos + made) % samples;
        out := out + more;
      }
      MixingEnds(c, sw.converter.View(), pos, out, mixBuf[..]);
      pending := pending[i := pending[i] + out];
    }

    ghost function Ratios(): (rs: seq<nat>)
      reads `voices
      ensures |rs| == |voices| && forall i :: 0 <= i < |voices| ==> rs[i] == voices[i].ratio
    {
      var vs := voices;
      seq(|vs|, (i: nat) requires i < |vs| => vs[i].ratio)
    }

    ghost function States(): (vs: seq<VoiceState>)
      reads `voices, voices, set v: SoftVoice | v in voices :: v.converter
      ensures |vs| == |voices|
      ensures forall i :: 0 <= i < |voices| ==> vs[i] == voices[i].State()
    {
      var vs := voices;
      seq(|vs|, i requires 0 <= i < |vs| reads vs, set v: SoftVoice | v in vs :: v.converter => vs[i].State())
    }

    ghost function Snap(): Snapshot
      reads mixBuf, `rpos, `voices, `pending, `past, `heard, voices, set v: SoftVoice | v in voices :: v.converter
    {
      Snapshot(mixBuf[..], rpos, States(), Ratios(), pending, past, heard)
    }

    ghost predicate Valid()
      reads mixBuf, `rpos, `voices, `pending, `past, `heard, voices, set v: SoftVoice | v in voices :: v.converter
    {
      Shape() && Sound(Snap())
    }

    constructor (samples: nat)
      requires samples > 0
      ensures Valid() && this.samples == samples && voices == [] && heard == [] && fresh(mixBuf)
    {
      this.samples := samples;
      mixBuf := new Sample[samples](_ => SILENCE);
      rpos, voices, enabled, pendingDisable := 0, [], false, false;
      pending, past, heard := [], [], [];
      new;
      forall k | 0 <= k < samples
        ensures SlotHolds(mixBuf[..], 0, [], k)
      {
      }
    }

    /** The smallest fill among the playing voices, which is what may be played. */
    method FindLive() returns (live: nat, count: nat)
      requires Valid() == true
      ensures LeastFill(States(), pending, live, count) == true && live <= samples
    {
      live, count := 0, 0;
      for i := 0 to |voices|
        invariant count == 0 ==> forall j :: 0 <= j < i ==> !Playing(States()[j])
        invariant count > 0 ==> exists j :: 0 <= j < i && Playing(States()[j]) && live == |pending[j]|
        invariant count == 0 ==> live == 0
        invariant count > 0 ==> forall j :: 0 <= j < i && Playing(States()[j]) ==> live <= |pending[j]|
      {
        var sw := voices[i];
        assert States()[i] == sw.State();
        if sw.active || !sw.empty {
          live := if count == 0 then sw.mixed else Bytes.Min(live, sw.mixed);
          count := count + 1;
        }
      }
    }

    /** A voice's owner is asked to fill the slots the voice has free, and writes `data`. */
    method Ask(i: nat, data: seq<Sample>)
      requires Shape() && i < |voices| && Filled(voices[i].State(), |pending[i]|)
      requires RingHolds(mixBuf[..], rpos, pending)
      modifies mixBuf, `pending, voices[i], voices[i].converter
      ensures Shape() && Filled(voices[i].State(), |pending[i]|) && RingHolds(mixBuf[..], rpos, pending)
      ensures voices[i].active == old(voices[i].active)
      ensures var v, fill := old(voices[i].State()), |old(pending)[i]|;
              var q := Answer(v, voices[i].ratio, samples, fill, data);
              voices[i].converter.View() == q.state && pending == old(pending)[i := old(pending)[i] + q.out]
    {
      var sw := voices[i];
      assert pending[i] + [] == pending[i];
      if sw.active {
        var free := RoomFor(samples - sw.mixed, sw.ratio);
        if free > 0 {
          var _ := Write(i, data);
        } else {
          NothingFed(sw.converter.View(), sw.ratio, samples, |pending[i]|, data);
        }
      }
    }

    /** The voices, with `refill` mixed by the owners of those before `k`; everything else as in a run. */
    ghost predicate Serving(k: nat, vs: seq<VoiceState>, ps: seq<seq<Sample>>, played: nat, refill: seq<seq<Sample>>)
      reads this, mixBuf, voices, set v: SoftVoice | v in voices :: v.converter
    {
      && Shape() && RingHolds(mixBuf[..], rpos, pending)
      && AllFilled(vs, ps, samples) && AllHave(vs, ps, played)
      && Served(k, vs, ps, Ratios(), samples, played, refill, States(), pending)
    }

    /** One voice after playing: its fill goes down, and its owner is asked for more. */
    method AfterPlay(k: nat, played: nat, refill: seq<seq<Sample>>, ghost vs: seq<VoiceState>, ghost ps: seq<seq<Sample>>)
      requires k < |voices| && |refill| == |voices| && Serving(k, vs, ps, played, refill)
      modifies mixBuf, `pending, voices[k], voices[k].converter
      ensures Serving(k + 1, vs, ps, played, refill) == true
    {
      var sw := voices[k];
      ghost var before, fills := States(), pending;
      assert before[k] == sw.State() == vs[k];
      if !sw.active && sw.empty {
        assert fills[k] + [] == fills[k];
      } else {
        sw.mixed := sw.mixed - played;
        if sw.mixed == 0 {
          sw.empty := true;
        }
        assert Filled(sw.State(), |pending[k]|);
        Ask(k, refill[k]);
      }
      ServedNext(k, vs, ps, Ratios(), samples, played, refill, before, fills, sw.State(), pending[k]);
      assert States() == before[k := sw.State()];
      assert pending == fills[k := pending[k]];
    }

    /** Silences `len` cells of the ring, as mixeng_clear does. */
    method Clear(off: nat, len: nat)
      requires off + len <= mixBuf.Length
      modifies mixBuf
      ensures forall j :: 0 <= j < mixBuf.Length ==>
                mixBuf[j] == if off <= j < off + len then SILENCE else old(mixBuf[j])
    {
      for k := 0 to len
        invariant forall j :: 0 <= j < mixBuf.Length ==>
                    mixBuf[j] == if off <= j < off + k then SILENCE else old(mixBuf[j])
      {
        mixBuf[off + k] := SILENCE;
      }
    }

    /** Silences what was played, in two pieces when it runs round the end of the ring. */
    method ClearPlayed(from: nat, played: nat)
      requires from < mixBuf.Length && played <= mixBuf.Length
      modifies mixBuf
      ensures Cleared(old(mixBuf[..]), from, played, mixBuf[..])
    {
      var n := Bytes.Min(played, mixBuf.Length - from);
      Clear(from, n);
      Clear(0, played - n);
    }

    /** Lets the driver play up to `budget` of the `live` samples. */
    method Play(live: nat, budget: nat) returns (played: nat)
      requires Valid() && live <= samples && AllHave(States(), pending, live)
      modifies mixBuf, `rpos, `pending, `past, `heard
      ensures played == Bytes.Min(live, budget) && Shape()
      ensures PlayedOn(old(Snap()), played, Snap()) == true
    {
      ghost var s := Snap();
      played := Bytes.Min(live, budget);
      SlotIsRemainder(rpos, played, samples);
      if played > 0 {
        ClearPlayed(rpos, played);
      }
      assert Cleared(s.ring, s.rpos, played, mixBuf[..]);
      rpos := (rpos + played) % samples;
      heard := heard + Ahead(s.ring, s.rpos, played);
      past := PastOfAll(past, pending, played);
      pending := RestOfAll(pending, played);
      PlayingAdvances(s, live, played, Snap());
    }

    /** One voice when there is nothing to play: its owner is asked for more. */
    method Idle(k: nat, refill: seq<seq<Sample>>, ghost vs: seq<VoiceState>, ghost ps: seq<seq<Sample>>)
      requires k < |voices| && |refill| == |voices| && Serving(k, vs, ps, 0, refill)
      modifies mixBuf, `pending, voices[k], voices[k].converter
      ensures Serving(k + 1, vs, ps, 0, refill) == true
    {
      var sw := voices[k];
      ghost var before, fills := States(), pending;
      assert before[k] == sw.State() == vs[k];
      Ask(k, refill[k]);
      ServedNext(k, vs, ps, Ratios(), samples, 0, refill, before, fills, sw.State(), pending[k]);
      assert States() == before[k := sw.State()];
      assert pending == fills[k := pending[k]];
    }

    /** The loop over the voices; `idle` when nothing was there to be played. */
    method ServeAll(played: nat, refill: seq<seq<Sample>>, ghost s: Snapshot, idle: bool)
      requires Shape() && |refill| == |voices| && |s.ring| == samples && s.ratios == Ratios()
      requires Sound(s) && AllHave(s.voices, s.pending, played) && PlayedOn(s, played, Snap())
      requires idle ==> played == 0
      modifies mixBuf, `pending, voices, set v: SoftVoice | v in voices :: v.converter
      ensures Shape() && Refilled(s, played, refill, old(Snap()), Snap()) == true
    {
      ServingStarts(s.voices, s.pending, s.ratios, samples, played, refill, pending);
      for k := 0 to |voices|
        invariant Serving(k, s.voices, s.pending, played, refill) == true
      {
        if idle {
          Idle(k, refill, s.voices, s.pending);
        } else {
          AfterPlay(k, played, refill, s.voices, s.pending);
        }
      }
    }

    /**
     * The timer's work for an enabled hardware voice: play what every playing voice has, then
     * let the owners of the active ones refill their free slots.
     */
    method RunOut(budget: nat, refill: seq<seq<Sample>>) returns (played: nat)
      requires Valid() == true && |refill| == |voices|
      modifies mixBuf, `rpos, `pending, `past, `heard, `enabled, `pendingDisable
      modifies voices, set v: SoftVoice | v in voices :: v.converter
      ensures Valid() == true && Ran(old(Snap()), played, refill, Snap()) == true
      ensures PlaysLeast(old(Snap()), budget, played) == true
      ensures GoesOn(old(Snap()), Power(old(enabled), old(pendingDisable)), Power(enabled, pendingDisable)) == true
    {
      ghost var s := Snap();
      var live, dry := FindPlayable(budget, refill, s);
      if dry {
        Disable(s);
        return 0;
      }
      played := RunLive(live, budget, refill, s);
    }

    /** How much may be played, and whether this voice is to go off now. */
    method FindPlayable(budget: nat, ghost refill: seq<seq<Sample>>, ghost s: Snapshot) returns (live: nat, dry: bool)
      requires Valid() == true && |refill| == |voices| && s == Snap()
      ensures live <= samples && AllHave(s.voices, s.pending, live) == true
      ensures PlaysLeast(s, budget, if live == 0 then 0 else Bytes.Min(live, budget)) == true
      ensures dry ==> Ran(s, 0, refill, s) == true && live == 0
      ensures GoesOn(s, Power(enabled, pendingDisable),
                     if dry then Power(false, false) else Power(enabled, pendingDisable)) == true
    {
      var count;
      live, count := FindLive();
      RanIdle(s, refill, live, count);
      LeastIsPlayed(s, live, count, budget, Power(enabled, pendingDisable));
      dry := pendingDisable && count == 0;
    }

    /** The part of a run for a hardware voice that stays on. */
    method RunLive(live: nat, budget: nat, refill: seq<seq<Sample>>, ghost s: Snapshot) returns (played: nat)
      requires Valid() == true && |refill| == |voices| && s == Snap()
      requires live <= samples && AllHave(s.voices, s.pending, live) == true
      modifies mixBuf, `rpos, `pending, `past, `heard, voices, set v: SoftVoice | v in voices :: v.converter
      ensures Valid() == true && Ran(s, played, refill, Snap()) == true
      ensures played == if live == 0 then 0 else Bytes.Min(live, budget)
    {
      played := if live == 0 then 0 else Bytes.Min(live, budget);
      PlayAndServe(live, played, refill);
    }

    method Disable(ghost s: Snapshot)
      requires Valid() == true && Snap() == s
      modifies `enabled, `pendingDisable
      ensures Valid() == true && Snap() == s && !enabled && !pendingDisable
    {
      enabled, pendingDisable := false, false;
    }

    method PlayAndServe(live: nat, played: nat, refill: seq<seq<Sample>>)
      requires Valid() == true && |refill| == |voices|
      requires played <= live <= samples && AllHave(States(), pending, live) == true
      modifies mixBuf, `rpos, `pending, `past, `heard, voices, set v: SoftVoice | v in voices :: v.converter
      ensures Shape() && Ran(old(Snap()), played, refill, Snap()) == true && Sound(Snap()) == true
    {
      ghost var s := Snap();
      EnoughToPlay(s.voices, s.pending, samples, live, played);
      if live == 0 {
        NothingPlayedOn(s);
      } else {
        var _ := Play(live, played);
      }
      ghost var s1 := Snap();
      ServeAll(played, refill, s, live == 0);
      RanByRefill(s, played, refill, s1, Snap());
    }

    /** A soft voice's write, as AUD_write passes it on: nothing is taken while the hardware voice is off. */
    method AudWrite(i: nat, data: seq<Sample>) returns (ret: nat)
      requires Valid() && i < |voices|
      modifies mixBuf, `pending, voices[i], voices[i].converter
      ensures Valid() == true && past == old(past) && heard == old(heard)
      ensures !enabled ==> ret == 0 && Snap() == old(Snap())
      ensures enabled ==>
              var v := old(voices[i].State());
              var q := Fed(v.rate, voices[i].ratio, samples, |old(pending)[i]|, data);
              && ret == q.pos && pending == old(pending)[i := old(pending)[i] + q.out]
              && voices[i].State().rate == q.state && voices[i].active == v.active
    {
      if !enabled {
        return 0;
      }
      ghost var s := Snap();
      ret := Write(i, data);
      WriteIsSound(s, i, voices[i].State(), pending[i], mixBuf[..]);
      assert States() == s.voices[i := voices[i].State()];
      assert pending == s.pending[i := pending[i]];
      assert Snap() == s.(ring := mixBuf[..], voices := States(), pending := pending);
    }

    /** Opens a voice: it is put at the head of the list. */
    method AddVoice(voiceRate: nat, hardRate: nat)
      requires Valid() && 0 < voiceRate < TWO31 && 0 < hardRate && hardRate * TWO32 / voiceRate > 0
      modifies `voices, `pending, `past
      ensures Valid() == true && heard == old(heard) && |voices| == |old(voices)| + 1 && voices[1..] == old(voices)
      ensures pending[1..] == old(pending) && past[1..] == old(past)
      ensures var v := voices[0].State();
              && fresh(voices[0]) && !v.active && v.mixed == 0 && pending[0] == []
              && v.rate == Fresh(voiceRate * TWO32 / hardRate)
    {
      ghost var s := Snap();
      var sw := new SoftVoice(voiceRate, hardRate);
      voices := [sw] + voices;
      pending, past := [[]] + pending, [Quiet(|heard|)] + past;
      assert States() == [sw.State()] + s.voices;
      assert Ratios() == [sw.ratio] + s.ratios;
      NewVoiceIsSilent(s, sw.State(), sw.ratio, Snap());
    }

    method CountActive() returns (active: nat)
      requires Shape()
      ensures active == ActiveCount(States())
    {
      active := 0;
      ghost var vs := States();
      for j := 0 to |voices|
        invariant active == ActiveCount(vs[..j])
      {
        assert vs[..j + 1][..j] == vs[..j] && vs[j] == voices[j].State();
        if voices[j].active {
          active := active + 1;
        }
      }
      assert vs[..|vs|] == vs;
    }

    /** Switches a voice on or off; the hardware voice goes off once its last voice has run dry. */
    method SetActive(i: nat, on: bool)
      requires Valid() && i < |voices|
      modifies `enabled, `pendingDisable, voices[i]
      ensures Valid() == true && Snap() == WithSwitched(old(Snap()), i, on)
      ensures on && !old(voices[i].active) ==> enabled && !pendingDisable
      ensures !on && old(voices[i].active) && old(enabled) ==> (pendingDisable <==> ActiveCount(old(States())) == 1)
    {
      SwitchIsSound(Snap(), i, on);
      if voices[i].active != on {
        Switch(on);
        Mark(i, on);
      }
    }

    method Mark(i: nat, on: bool)
      requires Shape() && i < |voices|
      modifies voices[i]
      ensures Snap() == WithSwitched(old(Snap()), i, on)
    {
      voices[i].active := on;
    }

    method Switch(on: bool)
      requires Shape()
      modifies `enabled, `pendingDisable
      ensures Snap() == old(Snap())
      ensures on ==> enabled && !pendingDisable
      ensures !on ==> enabled == old(enabled)
      ensures !on && enabled ==> (pendingDisable <==> ActiveCount(States()) == 1)
    {
      if on {
        pendingDisable, enabled := false, true;
      } else if enabled {
        var active := CountActive();
        pendingDisable := active == 1;
      }
    }
  }
}
