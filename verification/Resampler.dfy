/**
 * The linear resampler of the audio mixer: positions in 32.32 fixed point, integer
 * samples, and the unsigned and signed 64-bit wrap-around of the program's arithmetic.
 */
module Resampler {
  datatype Sample = Sample(l: int, r: int)

  const SILENCE := Sample(0, 0)
  const TWO31: int := 0x8000_0000
  const TWO32: int := 0x1_0000_0000
  const TWO63: int := 0x8000_0000_0000_0000
  const TWO64: int := 0x1_0000_0000_0000_0000

  /** The integer part of a 32.32 position. */
  function Whole(p: nat): nat
  {
    if p < TWO32 then 0 else Whole(p - TWO32) + 1
  }

  /** The fraction of a 32.32 position, in units of 2^-32. */
  function Part(p: nat): (f: nat)
    ensures f < TWO32
  {
    if p < TWO32 then p else Part(p - TWO32)
  }

  lemma {:induction false} WholeAndPart(p: nat)
    ensures p == Whole(p) * 0x1_0000_0000 + Part(p)
  {
    if p >= TWO32 {
      WholeAndPart(p - TWO32);
    }
  }

  /** The sum of two positions as an unsigned 64-bit variable holds it. */
  function Position(p: nat, step: nat): (q: nat)
    ensures p + step < TWO64 ==> q == p + step
    ensures p < TWO64 && step < TWO64 ==> q < TWO64
  {
    if p + step < TWO64 then p + step else p + step - TWO64
  }

  /** One more, as an unsigned 32-bit variable holds it. */
  function Increment(n: nat): (m: nat)
    ensures n < TWO32 ==> m < TWO32
  {
    if n + 1 == TWO32 then 0 else n + 1
  }

  /** The value a signed 64-bit variable holds after `x` is stored in it. */
  function Wrap64(x: int): (w: int)
    ensures -TWO63 <= w < TWO63
    ensures -TWO63 <= x < TWO63 ==> w == x
    decreases if x >= TWO63 then x else if x < -TWO63 then -x else 0
  {
    if x >= TWO63 then Wrap64(x - TWO64)
    else if x < -TWO63 then Wrap64(x + TWO64)
    else x
  }

  predicate Fits64(x: int)
  {
    -TWO63 <= x < TWO63
  }

  lemma {:induction false} Wrap64Add(x: int, y: int)
    ensures Wrap64(Wrap64(x) + y) == Wrap64(x + y)
    decreases if x >= TWO63 then x else if x < -TWO63 then -x else 0
  {
    if x >= TWO63 {
      Wrap64Add(x - TWO64, y);
      Wrap64Shift(x + y - TWO64);
    } else if x < -TWO63 {
      Wrap64Add(x + TWO64, y);
      Wrap64Shift(x + y);
    }
  }

  lemma {:induction false} Wrap64Shift(x: int)
    ensures Wrap64(x + TWO64) == Wrap64(x)
    decreases if x >= TWO63 then x else if x < -TWO63 then -x else 0
  {
    if x < -TWO63 - TWO64 {
      Wrap64Shift(x + TWO64);
    }
  }

  function Plus(a: Sample, b: Sample): Sample
  {
    Sample(a.l + b.l, a.r + b.r)
  }

  function WrapSample(a: Sample): Sample
  {
    Sample(Wrap64(a.l), Wrap64(a.r))
  }

  /** The product `x * n`, as the sum of `n` terms. */
  function Times(x: int, n: nat): int
  {
    if n == 0 then 0 else Times(x, n - 1) + x
  }

  lemma {:induction false} TimesIsProduct(x: int, n: nat)
    ensures Times(x, n) == x * n
  {
    if n > 0 {
      TimesIsProduct(x, n - 1);
      assert x * n == x * (n - 1) + x;
    }
  }

  /** One channel between two neighbouring input samples, `t` / 2^32 of the way. */
  function Interpolate(last: int, cur: int, t: nat): int
    requires t < TWO32
  {
    Wrap64(Wrap64(Times(last, TWO32 - 1 - t)) + Wrap64(Times(cur, t))) / 0x1_0000_0000
  }

  function Between(last: Sample, cur: Sample, t: nat): Sample
    requires t < TWO32
  {
    Sample(Interpolate(last.l, cur.l, t), Interpolate(last.r, cur.r, t))
  }

  /**
   * What the converter keeps between calls: the output position in 32.32 fixed point and
   * its step, the number of input samples taken (32 bits), and the last sample taken.
   */
  datatype Rate = Rate(opos: nat, step: nat, ipos: nat, last: Sample)

  predicate RateOk(r: Rate)
  {
    r.opos < TWO64 && r.step < TWO64 && r.ipos < TWO32
  }

  function Fresh(step: nat): Rate
  {
    Rate(0, step, 0, SILENCE)
  }

  predicate Copies(r: Rate)
  {
    r.step == TWO32
  }

  predicate Wants(r: Rate)
  {
    r.ipos <= Whole(r.opos)
  }

  function Take(r: Rate, s: Sample): (n: Rate)
    ensures RateOk(r) ==> RateOk(n)
  {
    Rate(r.opos, r.step, Increment(r.ipos), s)
  }

  function Step(r: Rate): (n: Rate)
    ensures RateOk(r) ==> RateOk(n)
  {
    Rate(Position(r.opos, r.step), r.step, r.ipos, r.last)
  }

  function Emitted(r: Rate, cur: Sample): Sample
  {
    Between(r.last, cur, Part(r.opos))
  }

  datatype Produced = None | Some(value: Sample)

  /** What a machine does next, seeing the first sample not yet taken. */
  datatype Move = Move(state: Rate, takes: bool, makes: Produced)

  /** One move: pass a sample on, take a sample, or produce one from the next input sample. */
  function Flowing(r: Rate, cur: Sample): (m: Move)
    ensures m.takes || m.makes.Some?
  {
    if Copies(r) then Move(r, true, Some(cur))
    else if Wants(r) then Move(Take(r, cur), true, None)
    else Move(Step(r), false, Some(Emitted(r, cur)))
  }

  /** How far a conversion has come: samples taken from the input, samples produced. */
  datatype ProgressWith<O> = Progress(state: Rate, pos: nat, out: O)

  type Progress = ProgressWith<seq<Sample>>

  function After(p: Progress, m: Move): Progress
  {
    Progress(m.state,
             if m.takes then p.pos + 1 else p.pos,
             if m.makes.Some? then p.out + [m.makes.value] else p.out)
  }

  predicate CanMove(p: Progress, end: nat, limit: nat)
  {
    p.pos < end && |p.out| < limit
  }

  /** One call: moves while there is input before `end` and fewer than `limit` outputs. */
  function Advance(input: seq<Sample>, p: Progress, end: nat, limit: nat): Progress
    requires end <= |input|
    decreases if CanMove(p, end, limit) then end - p.pos + (limit - |p.out|) else 0
  {
    if !CanMove(p, end, limit) then p
    else
      var m := Flowing(p.state, input[p.pos]);
      Advance(input, After(p, m), end, limit)
  }

  /** A call stays within its input and its room, stops only for want of one, and gets somewhere. */
  lemma {:induction false} CallBounds(input: seq<Sample>, p: Progress, end: nat, limit: nat)
    requires end <= |input|
    ensures var q := Advance(input, p, end, limit);
            && p.pos <= q.pos && |p.out| <= |q.out| && !CanMove(q, end, limit)
            && (p.pos <= end ==> q.pos <= end) && (|p.out| <= limit ==> |q.out| <= limit)
            && (CanMove(p, end, limit) ==> p.pos < q.pos || |p.out| < |q.out|)
    decreases if CanMove(p, end, limit) then end - p.pos + (limit - |p.out|) else 0
  {
    if CanMove(p, end, limit) {
      CallBounds(input, After(p, Flowing(p.state, input[p.pos])), end, limit);
    }
  }

  /** Stopping for want of input or room and going on with more later is the same as one call. */
  lemma {:induction false} CutAnywhere(input: seq<Sample>, p: Progress, cut: nat, room: nat, end: nat, limit: nat)
    requires cut <= end <= |input| && room <= limit
    ensures Advance(input, Advance(input, p, cut, room), end, limit)
         == Advance(input, p, end, limit)
    decreases if CanMove(p, cut, room) then cut - p.pos + (room - |p.out|) else 0
  {
    if CanMove(p, cut, room) {
      var m := Flowing(p.state, input[p.pos]);
      CutAnywhere(input, After(p, m), cut, room, end, limit);
    }
  }

  /** Outputs that were there before a call only stand in front of its own. */
  lemma {:induction false} EarlierOutputStays(input: seq<Sample>, r: Rate, pos: nat, before: seq<Sample>,
                                              out: seq<Sample>, end: nat, limit: nat)
    requires end <= |input|
    ensures var q := Advance(input, Progress(r, pos, out), end, limit);
            Advance(input, Progress(r, pos, before + out), end, |before| + limit)
            == Progress(q.state, q.pos, before + q.out)
    decreases if pos < end && |out| < limit then end - pos + (limit - |out|) else 0
  {
    if pos < end && |out| < limit {
      var m := Flowing(r, input[pos]);
      var next := After(Progress(r, pos, out), m);
      if m.makes.Some? {
        assert before + (out + [m.makes.value]) == (before + out) + [m.makes.value];
      }
      EarlierOutputStays(input, m.state, next.pos, before, next.out, end, limit);
    }
  }

  lemma CallContinues(input: seq<Sample>, r: Rate, pos: nat, before: seq<Sample>, end: nat, room: nat)
    requires end <= |input|
    ensures var q := Advance(input, Progress(r, pos, []), end, room);
            Advance(input, Progress(r, pos, before), end, |before| + room) == Progress(q.state, q.pos, before + q.out)
  {
    assert before + [] == before;
    EarlierOutputStays(input, r, pos, before, [], end, room);
  }

  lemma {:induction false} ConversionKeepsRate(input: seq<Sample>, p: Progress, end: nat, limit: nat)
    requires end <= |input|
    ensures var q := Advance(input, p, end, limit);
            q.state.step == p.state.step && (RateOk(p.state) ==> RateOk(q.state))
    decreases if CanMove(p, end, limit) then end - p.pos + (limit - |p.out|) else 0
  {
    if CanMove(p, end, limit) {
      ConversionKeepsRate(input, After(p, Flowing(p.state, input[p.pos])), end, limit);
    }
  }

  /** More input samples, more room, or both, handed over before a call. */
  datatype Delivery = Delivery(samples: nat, room: nat)

  function AllSamples(ds: seq<Delivery>): nat
  {
    if ds == [] then 0 else ds[0].samples + AllSamples(ds[1..])
  }

  function AllRoom(ds: seq<Delivery>): nat
  {
    if ds == [] then 0 else ds[0].room + AllRoom(ds[1..])
  }

  /** A call after every delivery; what a call leaves unused is offered to the next. */
  function Session(input: seq<Sample>, p: Progress, end: nat, limit: nat, ds: seq<Delivery>): Progress
    requires end + AllSamples(ds) <= |input|
    decreases |ds|
  {
    if ds == [] then p else
      var end', limit' := end + ds[0].samples, limit + ds[0].room;
      Session(input, Advance(input, p, end', limit'), end', limit', ds[1..])
  }

  /** However a stream and its output space are cut into calls, the result is that of one call. */
  lemma {:induction false} ChunkingDoesNotMatter(input: seq<Sample>, p: Progress, end: nat, limit: nat, ds: seq<Delivery>)
    requires ds != [] && end + AllSamples(ds) <= |input|
    ensures Session(input, p, end, limit, ds)
         == Advance(input, p, end + AllSamples(ds), limit + AllRoom(ds))
    decreases |ds|
  {
    var end', limit' := end + ds[0].samples, limit + ds[0].room;
    var rest := ds[1..];
    if rest != [] {
      CutAnywhere(input, p, end', limit', end' + AllSamples(rest), limit' + AllRoom(rest));
      ChunkingDoesNotMatter(input, Advance(input, p, end', limit'), end', limit', rest);
    }
  }

  // ----- where every output sample comes from -----

  /** The output position after `j` outputs. */
  function Reached(step: nat, j: nat): nat
  {
    if j == 0 then 0 else Reached(step, j - 1) + step
  }

  lemma {:induction false} ReachedIsProduct(step: nat, j: nat)
    ensures Reached(step, j) == j * step
  {
    if j > 0 {
      ReachedIsProduct(step, j - 1);
      assert j * step == (j - 1) * step + step;
    }
  }

  predicate InRange(step: nat, input: seq<Sample>, j: nat)
  {
    if step == TWO32 then j < |input| else Whole(Reached(step, j)) + 1 < |input|
  }

  /** Output number `j` of a stream: interpolated at the j-th output position. */
  function Ideal(step: nat, input: seq<Sample>, j: nat): Sample
    requires InRange(step, input, j)
  {
    var at := Reached(step, j);
    if step == TWO32 then input[j] else Between(input[Whole(at)], input[Whole(at) + 1], Part(at))
  }

  predicate IdealOutput(step: nat, input: seq<Sample>, out: seq<Sample>)
  {
    forall j :: 0 <= j < |out| ==> InRange(step, input, j) && out[j] == Ideal(step, input, j)
  }

  /** Short enough that neither 32.32 position wraps around. */
  predicate NoWrap(step: nat, input: seq<Sample>)
  {
    |input| < TWO32 && (|input| - 1) * 0x1_0000_0000 + step <= TWO64
  }

  /** Where a converter is after `pos` input samples and the outputs `out`. */
  predicate OnCourse(p: Progress, step: nat, input: seq<Sample>)
  {
    var r, made := p.state, |p.out|;
    && p.pos <= |input| && r.step == step
    && (if step == TWO32 then p.pos == made else
        && r.ipos == p.pos && r.opos == Reached(step, made)
        && p.pos <= Whole(r.opos) + 1
        && (p.pos > 0 ==> r.last == input[p.pos - 1])
        && (made > 0 ==> Whole(Reached(step, made - 1)) < p.pos))
  }

  lemma MoveStaysOnCourse(p: Progress, step: nat, input: seq<Sample>)
    requires NoWrap(step, input) && OnCourse(p, step, input) && IdealOutput(step, input, p.out)
    requires p.pos < |input|
    ensures var q := After(p, Flowing(p.state, input[p.pos]));
            OnCourse(q, step, input) && IdealOutput(step, input, q.out)
  {
    var r := p.state;
    if Copies(r) {
      OutputStaysIdeal(step, input, p.out, input[p.pos]);
    } else if Wants(r) {
      TakeStaysOnCourse(p, step, input);
    } else {
      StepStaysOnCourse(p, step, input);
    }
  }

  lemma TakeStaysOnCourse(p: Progress, step: nat, input: seq<Sample>)
    requires NoWrap(step, input) && OnCourse(p, step, input) && p.pos < |input|
    requires step != TWO32 && Wants(p.state)
    ensures OnCourse(Progress(Take(p.state, input[p.pos]), p.pos + 1, p.out), step, input)
  {
  }

  lemma StepStaysOnCourse(p: Progress, step: nat, input: seq<Sample>)
    requires NoWrap(step, input) && OnCourse(p, step, input) && p.pos < |input|
    requires step != TWO32 && !Wants(p.state) && IdealOutput(step, input, p.out)
    ensures var q := Progress(Step(p.state), p.pos, p.out + [Emitted(p.state, input[p.pos])]);
            OnCourse(q, step, input) && IdealOutput(step, input, q.out)
  {
    var opos := p.state.opos;
    WholeAndPart(opos);
    assert Whole(opos) + 1 == p.pos;
    assert opos + step < TWO64;
    OutputStaysIdeal(step, input, p.out, Emitted(p.state, input[p.pos]));
    WholeGrows(opos, step);
  }

  lemma {:induction false} WholeGrows(p: nat, step: nat)
    ensures Whole(p) <= Whole(p + step)
  {
    if p >= TWO32 {
      WholeGrows(p - TWO32, step);
    }
  }

  lemma OutputStaysIdeal(step: nat, input: seq<Sample>, out: seq<Sample>, s: Sample)
    requires IdealOutput(step, input, out)
    requires InRange(step, input, |out|) && s == Ideal(step, input, |out|)
    ensures IdealOutput(step, input, out + [s])
  {
  }

  lemma {:induction false} StaysOnCourse(input: seq<Sample>, p: Progress, step: nat, limit: nat)
    requires NoWrap(step, input) && OnCourse(p, step, input) && IdealOutput(step, input, p.out)
    ensures var q := Advance(input, p, |input|, limit);
            OnCourse(q, step, input) && IdealOutput(step, input, q.out)
    decreases if CanMove(p, |input|, limit) then |input| - p.pos + (limit - |p.out|) else 0
  {
    if CanMove(p, |input|, limit) {
      MoveStaysOnCourse(p, step, input);
      StaysOnCourse(input, After(p, Flowing(p.state, input[p.pos])), step, limit);
    }
  }

  /**
   * A whole stream through a new converter: output j interpolates its two neighbours in
   * the input, and outputs stop only for want of room or of a neighbour.
   */
  lemma StreamIsIdeal(step: nat, input: seq<Sample>, limit: nat)
    requires NoWrap(step, input)
    ensures var q := Advance(input, Progress(Fresh(step), 0, []), |input|, limit);
            && IdealOutput(step, input, q.out)
            && |q.out| <= limit
            && (|q.out| < limit ==> !InRange(step, input, |q.out|))
  {
    CallBounds(input, Progress(Fresh(step), 0, []), |input|, limit);
    StaysOnCourse(input, Progress(Fresh(step), 0, []), step, limit);
  }

  /** Input taken follows output produced over the whole stream: nothing drifts. */
  lemma NoDrift(step: nat, input: seq<Sample>, limit: nat)
    requires NoWrap(step, input)
    ensures var q := Advance(input, Progress(Fresh(step), 0, []), |input|, limit);
            var made := |q.out|;
            && q.pos <= Whole(Reached(step, made)) + 1
            && (made > 0 ==> Whole(Reached(step, made - 1)) < q.pos)
  {
    StaysOnCourse(input, Progress(Fresh(step), 0, []), step, limit);
    if step == TWO32 {
      WholeSteps(|Advance(input, Progress(Fresh(step), 0, []), |input|, limit).out|);
    }
  }

  lemma {:induction false} WholeSteps(n: nat)
    ensures Whole(Reached(TWO32, n)) == n
    ensures n > 0 ==> Whole(Reached(TWO32, n - 1)) == n - 1
  {
    if n > 0 {
      WholeSteps(n - 1);
    }
  }

  // ----- how close an output sample is to its neighbours -----

  predicate Overflows(last: int, cur: int, t: nat)
    requires t < TWO32
  {
    var a, b := Times(last, TWO32 - 1 - t), Times(cur, t);
    !Fits64(a) || !Fits64(b) || !Fits64(a + b)
  }

  predicate Moderate(x: int)
  {
    -TWO31 <= x <= TWO31
  }

  lemma {:induction false} TimesOrder(a: int, b: int, n: nat)
    requires a <= b
    ensures Times(a, n) <= Times(b, n)
  {
    if n > 0 {
      TimesOrder(a, b, n - 1);
    }
  }

  lemma {:induction false} TimesSplit(x: int, n: nat, m: nat)
    ensures Times(x, n) + Times(x, m) == Times(x, n + m)
  {
    if m > 0 {
      TimesSplit(x, n, m - 1);
    }
  }

  /** Magnitudes up to 2^31, and no others, are safe from overflow at every position. */
  lemma NoOverflowExactlyWhenModerate(last: int, cur: int)
    ensures (forall t: nat :: t < TWO32 ==> !Overflows(last, cur, t)) <==> Moderate(last) && Moderate(cur)
  {
    if Moderate(last) && Moderate(cur) {
      forall t: nat | t < TWO32
        ensures !Overflows(last, cur, t)
      {
        BoundsHold(-TWO31, last, cur, TWO31, t);
      }
    } else if !Moderate(last) {
      TimesIsProduct(last, 0xFFFF_FFFF);
      assert Overflows(last, cur, 0);
    } else {
      TimesIsProduct(cur, 0xFFFF_FFFF);
      assert Overflows(last, cur, TWO32 - 1);
    }
  }

  /** Scaled samples stay between the scaled bounds of the samples. */
  lemma BoundsHold(lo: int, last: int, cur: int, hi: int, t: nat)
    requires lo <= last <= hi && lo <= cur <= hi && t < TWO32
    ensures var a, b := Times(last, TWO32 - 1 - t), Times(cur, t);
            && lo * 0xFFFF_FFFF <= a + b <= hi * 0xFFFF_FFFF
            && (lo <= 0 <= hi ==> lo * 0xFFFF_FFFF <= a <= hi * 0xFFFF_FFFF && lo * 0xFFFF_FFFF <= b <= hi * 0xFFFF_FFFF)
  {
    var u := TWO32 - 1 - t;
    TimesOrder(lo, last, u);
    TimesOrder(lo, cur, t);
    TimesOrder(last, hi, u);
    TimesOrder(cur, hi, t);
    TimesSplit(lo, u, t);
    TimesSplit(hi, u, t);
    TimesIsProduct(lo, 0xFFFF_FFFF);
    TimesIsProduct(hi, 0xFFFF_FFFF);
    if lo <= 0 <= hi {
      TimesSign(lo, u);
      TimesSign(lo, t);
      TimesSign(hi, u);
      TimesSign(hi, t);
    }
  }

  lemma {:induction false} TimesSign(x: int, n: nat)
    ensures x <= 0 ==> Times(x, n) <= 0
    ensures x >= 0 ==> Times(x, n) >= 0
  {
    if n > 0 {
      TimesSign(x, n - 1);
    }
  }

  /** `x` is the value on the line from `a` to `b`, `f` / 2^32 of the way, rounded down. */
  predicate OnLine(a: int, b: int, f: int, x: int)
  {
    x * 0x1_0000_0000 <= a * (0xFFFF_FFFF - f) + b * f < (x + 1) * 0x1_0000_0000
  }

  lemma InterpolatesOnLine(last: int, cur: int, t: nat)
    requires Moderate(last) && Moderate(cur) && t < TWO32
    ensures OnLine(last, cur, t, Interpolate(last, cur, t))
  {
    NoOverflowExactlyWhenModerate(last, cur);
    assert !Overflows(last, cur, t);
    TimesIsProduct(last, TWO32 - 1 - t);
    TimesIsProduct(cur, t);
    Shifted(last * (0xFFFF_FFFF - t) + cur * t);
  }

  lemma Shifted(x: int)
    ensures x / 0x1_0000_0000 * 0x1_0000_0000 <= x < (x / 0x1_0000_0000 + 1) * 0x1_0000_0000
  {
  }

  lemma WholeAndPartAre(p: nat)
    ensures Whole(p) == p / 0x1_0000_0000 && Part(p) == p % 0x1_0000_0000
  {
    WholeAndPart(p);
  }

  /**
   * Both channels of output `j` of a stream of moderate samples are on the line between the two input
   * samples around position `j` times the step; at equal rates samples are passed on.
   */
  lemma StreamIsLinear(step: nat, input: seq<Sample>, limit: nat, j: nat)
    requires NoWrap(step, input) && forall i :: 0 <= i < |input| ==> Moderate(input[i].l) && Moderate(input[i].r)
    requires j < |Advance(input, Progress(Fresh(step), 0, []), |input|, limit).out|
    ensures var out := Advance(input, Progress(Fresh(step), 0, []), |input|, limit).out[j];
            if step == TWO32 then j < |input| && out == input[j]
            else
              var k, f := j * step / 0x1_0000_0000, j * step % 0x1_0000_0000;
              k + 1 < |input| && OnLine(input[k].l, input[k + 1].l, f, out.l) && OnLine(input[k].r, input[k + 1].r, f, out.r)
  {
    StreamIsIdeal(step, input, limit);
    var out := Advance(input, Progress(Fresh(step), 0, []), |input|, limit).out;
    assert InRange(step, input, j) && out[j] == Ideal(step, input, j);
    if step != TWO32 {
      ReachedIsProduct(step, j);
      IdealIsLinear(step, input, j, Reached(step, j));
    }
  }

  lemma IdealIsLinear(step: nat, input: seq<Sample>, j: nat, at: nat)
    requires forall i :: 0 <= i < |input| ==> Moderate(input[i].l) && Moderate(input[i].r)
    requires step != TWO32 && InRange(step, input, j) && at == Reached(step, j)
    ensures var k, f, out := at / 0x1_0000_0000, at % 0x1_0000_0000, Ideal(step, input, j);
            k + 1 < |input| && OnLine(input[k].l, input[k + 1].l, f, out.l) && OnLine(input[k].r, input[k + 1].r, f, out.r)
  {
    WholeAndPartAre(at);
    var k, f := Whole(at), Part(at);
    InterpolatesOnLine(input[k].l, input[k + 1].l, f);
    InterpolatesOnLine(input[k].r, input[k + 1].r, f);
  }

  function Lesser(a: int, b: int): int { if a < b then a else b }

  function Greater(a: int, b: int): int { if a > b then a else b }

  /** Up to one unit of rounding, an interpolated value lies between its neighbours. */
  lemma InterpolationStaysBetween(last: int, cur: int, t: nat)
    requires Moderate(last) && Moderate(cur) && t < TWO32
    ensures Lesser(last, cur) - 1 <= Interpolate(last, cur, t) <= Greater(last, cur)
  {
    NoOverflowExactlyWhenModerate(last, cur);
    assert !Overflows(last, cur, t);
    BoundsHold(Lesser(last, cur), last, cur, Greater(last, cur), t);
  }

  /**
   * A constant signal comes through (less than one unit lower) exactly when its magnitude
   * is at most 2^31: beyond it the 64-bit products overflow, although samples have 64 bits.
   */
  lemma ConstantSignalExactlyWhenModerate(v: int)
    ensures (forall t: nat :: t < TWO32 ==> v - 1 <= Interpolate(v, v, t) <= v) <==> Moderate(v)
  {
    if Moderate(v) {
      forall t: nat | t < TWO32
        ensures v - 1 <= Interpolate(v, v, t) <= v
      {
        InterpolationStaysBetween(v, v, t);
      }
    } else {
      assert -TWO31 <= Interpolate(v, v, 0) < TWO31;
      assert !(v - 1 <= Interpolate(v, v, 0) <= v);
    }
  }

  /** At magnitude 2^32 a constant signal even changes sign. */
  lemma FullScaleSignalFlips()
    ensures Interpolate(TWO32, TWO32, 0) == -1
  {
    TimesIsProduct(TWO32, 0xFFFF_FFFF);
  }

  // ----- the converter -----

  /** How a produced sample meets the sample already in the output buffer. */
  datatype Operation = Mix | Replace

  function Combine(op: Operation, old': Sample, s: Sample): Sample
  {
    if op == Mix then WrapSample(Plus(old', s)) else s
  }

  /** Cell `k` of a buffer after `out` is combined into it from `off` on. */
  function Cell(op: Operation, buf: seq<Sample>, off: nat, out: seq<Sample>, k: nat): Sample
    requires k < |buf|
  {
    if off <= k < off + |out| then Combine(op, buf[k], out[k - off]) else buf[k]
  }

  predicate Poured(op: Operation, buf: seq<Sample>, off: nat, out: seq<Sample>, now: seq<Sample>)
  {
    && off + |out| <= |buf| && |now| == |buf|
    && forall k :: 0 <= k < |now| ==> now[k] == Cell(op, buf, off, out, k)
  }

  lemma PourOne(op: Operation, buf: seq<Sample>, off: nat, out: seq<Sample>, now: seq<Sample>, s: Sample)
    requires Poured(op, buf, off, out, now) && off + |out| < |buf|
    ensures var at := off + |out|;
            Poured(op, buf, off, out + [s], now[at := Combine(op, now[at], s)])
  {
  }

  /** A call that started at `p` will end as one that has come to `q`. */
  predicate Leads(input: seq<Sample>, p: Progress, q: Progress, end: nat, limit: nat)
  {
    end <= |input| && Advance(input, p, end, limit) == Advance(input, q, end, limit)
  }

  /** Within a call that started at `start` on the buffer `was`: it has come to `p`. */
  predicate Underway(op: Operation, input: seq<Sample>, start: Progress, end: nat, room: nat,
                     was: seq<Sample>, off: nat, p: Progress, buf: seq<Sample>)
  {
    && p.pos <= end && |p.out| <= room && RateOk(p.state) && p.state.step == start.state.step
    && Leads(input, start, p, end, room) && Poured(op, was, off, p.out, buf)
  }

  lemma SampleIn(op: Operation, input: seq<Sample>, start: Progress, end: nat, room: nat,
                 was: seq<Sample>, off: nat, p: Progress, buf: seq<Sample>)
    requires Underway(op, input, start, end, room, was, off, p, buf) && CanMove(p, end, room)
    requires !Copies(p.state) && Wants(p.state)
    ensures Underway(op, input, start, end, room, was, off,
                     Progress(Take(p.state, input[p.pos]), p.pos + 1, p.out), buf)
  {
  }

  lemma SampleOut(op: Operation, input: seq<Sample>, start: Progress, end: nat, room: nat,
                  was: seq<Sample>, off: nat, p: Progress, buf: seq<Sample>)
    requires Underway(op, input, start, end, room, was, off, p, buf) && CanMove(p, end, room)
    requires !Copies(p.state) && !Wants(p.state) && off + room <= |was|
    ensures var s, at := Emitted(p.state, input[p.pos]), off + |p.out|;
            Underway(op, input, start, end, room, was, off,
                     Progress(Step(p.state), p.pos, p.out + [s]), buf[at := Combine(op, buf[at], s)])
  {
    PourOne(op, was, off, p.out, buf, Emitted(p.state, input[p.pos]));
  }

  lemma SamplePassed(op: Operation, input: seq<Sample>, start: Progress, end: nat, room: nat,
                     was: seq<Sample>, off: nat, p: Progress, buf: seq<Sample>)
    requires Underway(op, input, start, end, room, was, off, p, buf) && CanMove(p, end, room)
    requires Copies(p.state) && off + room <= |was|
    ensures var s, at := input[p.pos], off + |p.out|;
            Underway(op, input, start, end, room, was, off,
                     Progress(p.state, p.pos + 1, p.out + [s]), buf[at := Combine(op, buf[at], s)])
  {
    PourOne(op, was, off, p.out, buf, input[p.pos]);
  }

  /** A finished call: where it leaves the input, the converter and the buffer. */
  predicate Converted(op: Operation, input: seq<Sample>, r: Rate, pos: nat, end: nat, room: nat,
                      was: seq<Sample>, off: nat, used: nat, made: nat, r': Rate, buf: seq<Sample>)
  {
    end <= |input| &&
    var q := Advance(input, Progress(r, pos, []), end, room);
    && pos + used == q.pos && made == |q.out| && r' == q.state && RateOk(r')
    && Poured(op, was, off, q.out, buf)
  }

  lemma CallEnds(op: Operation, input: seq<Sample>, start: Progress, end: nat, room: nat,
                 was: seq<Sample>, off: nat, p: Progress, buf: seq<Sample>)
    requires Underway(op, input, start, end, room, was, off, p, buf) && !CanMove(p, end, room)
    requires start.out == [] && start.pos <= p.pos
    ensures Converted(op, input, start.state, start.pos, end, room, was, off,
                      p.pos - start.pos, |p.out|, p.state, buf)
  {
  }

  method PourInto(op: Operation, buf: array<Sample>, at: nat, s: Sample)
    requires at < buf.Length
    modifies buf
    ensures buf[..] == old(buf[..])[at := Combine(op, old(buf[at]), s)]
  {
    buf[at] := Combine(op, buf[at], s);
  }

  class Converter {
    var opos: nat
    var step: nat
    var ipos: nat
    var last: Sample

    ghost function View(): Rate
      reads this
    {
      Rate(opos, step, ipos, last)
    }

    constructor (inRate: nat, outRate: nat)
      requires outRate > 0 && inRate < TWO31
      ensures View() == Fresh(inRate * TWO32 / outRate) && RateOk(View())
    {
      opos := 0;
      step := inRate * TWO32 / outRate;
      ipos := 0;
      last := SILENCE;
      new;
      assert inRate * TWO32 == inRate * 0x1_0000_0000;
    }

    /** Converts `input[pos..end]` into at most `room` samples at `off`. */
    method Flow(op: Operation, input: seq<Sample>, pos: nat, end: nat, buf: array<Sample>, off: nat, room: nat)
      returns (used: nat, made: nat)
      requires RateOk(View()) && pos <= end <= |input| && off + room <= buf.Length
      modifies this, buf
      ensures Converted(op, input, old(View()), pos, end, room, old(buf[..]), off,
                        used, made, View(), buf[..]) == true
    {
      if step == TWO32 {
        used, made := PassOn(op, input, pos, end, buf, off, room);
      } else {
        used, made := Interpolating(op, input, pos, end, buf, off, room);
      }
    }

    /** Equal rates: samples are passed on as they are. */
    method PassOn(op: Operation, input: seq<Sample>, pos: nat, end: nat, buf: array<Sample>, off: nat, room: nat)
      returns (used: nat, made: nat)
      requires Copies(View()) && RateOk(View()) && pos <= end <= |input| && off + room <= buf.Length
      modifies buf
      ensures Converted(op, input, View(), pos, end, room, old(buf[..]), off,
                        used, made, View(), buf[..]) == true
    {
      ghost var start, was := Progress(View(), pos, []), buf[..];
      ghost var p := start;
      var n := if end - pos > room then room else end - pos;
      used := 0;
      while used < n
        invariant used <= n && p.state == View() && p.pos == pos + used && |p.out| == used
        invariant Underway(op, input, start, end, room, was, off, p, buf[..]) == true
      {
        SamplePassed(op, input, start, end, room, was, off, p, buf[..]);
        p := Progress(p.state, p.pos + 1, p.out + [input[p.pos]]);
        PourInto(op, buf, off + used, input[pos + used]);
        used := used + 1;
      }
      made := used;
      CallEnds(op, input, start, end, room, was, off, p, buf[..]);
    }

    method TakeOne(cur: Sample)
      modifies this
      ensures View() == Take(old(View()), cur)
    {
      last := cur;
      ipos := Increment(ipos);
    }

    method ProduceOne(cur: Sample, op: Operation, buf: array<Sample>, at: nat)
      requires at < buf.Length
      modifies this, buf
      ensures View() == Step(old(View()))
      ensures buf[..] == old(buf[..])[at := Combine(op, old(buf[at]), Emitted(old(View()), cur))]
    {
      PourInto(op, buf, at, Between(last, cur, Part(opos)));
      opos := Position(opos, step);
    }

    /** One round of the loop: take the sample `cur`, or produce one towards it. */
    method OneMove(op: Operation, cur: Sample, buf: array<Sample>, at: nat,
                   ghost input: seq<Sample>, ghost start: Progress, ghost end: nat, ghost room: nat,
                   ghost was: seq<Sample>, ghost off: nat, ghost p: Progress)
      returns (took: bool, ghost q: Progress)
      requires Underway(op, input, start, end, room, was, off, p, buf[..]) == true
      requires end <= |input| && CanMove(p, end, room) && cur == input[p.pos] && p.state == View() && !Copies(View())
      requires off + room <= |was| == buf.Length && at == off + |p.out| < buf.Length
      modifies this, buf
      ensures Underway(op, input, start, end, room, was, off, q, buf[..]) == true
      ensures q.state == View() && !Copies(View())
      ensures q.pos == p.pos + (if took then 1 else 0) && |q.out| == |p.out| + (if took then 0 else 1)
    {
      took := ipos <= Whole(opos);
      if took {
        SampleIn(op, input, start, end, room, was, off, p, buf[..]);
        TakeOne(cur);
        q := Progress(Take(p.state, cur), p.pos + 1, p.out);
      } else {
        SampleOut(op, input, start, end, room, was, off, p, buf[..]);
        ProduceOne(cur, op, buf, at);
        q := Progress(Step(p.state), p.pos, p.out + [Emitted(p.state, cur)]);
      }
    }

    method Interpolating(op: Operation, input: seq<Sample>, pos: nat, end: nat, buf: array<Sample>, off: nat, room: nat)
      returns (used: nat, made: nat)
      requires !Copies(View()) && RateOk(View()) && pos <= end <= |input| && off + room <= buf.Length
      modifies this, buf
      ensures Converted(op, input, old(View()), pos, end, room, old(buf[..]), off,
                        used, made, View(), buf[..]) == true
    {
      ghost var start, was := Progress(View(), pos, []), buf[..];
      ghost var p := start;
      used, made := 0, 0;
      while made < room && pos + used < end
        invariant pos + used <= end && made <= room
        invariant p.state == View() && !Copies(p.state) && p.pos == pos + used && |p.out| == made
        invariant Underway(op, input, start, end, room, was, off, p, buf[..]) == true
        decreases room - made + (end - pos - used)
      {
        var took;
        took, p := OneMove(op, input[pos + used], buf, off + made, input, start, end, room, was, off, p);
        if took {
          used := used + 1;
        } else {
          made := made + 1;
        }
      }
      CallEnds(op, input, start, end, room, was, off, p, buf[..]);
    }
  }
}
