/**
 * What is heard of the state sounds: segment after segment, each from its first frame to its last, and
 * in a fade the two segments with their weights; in every run of one state and in every frame that the
 * mixer writes (server/mixer.c:506-561, 617-629, 748-854).
 */
module StateHearing {
  import opened Events
  import opened Options
  import opened Samples
  import opened Sounds
  import opened States
  import opened Output
  import opened Hearing
  import C = CrossFade
  import opened StateRuns

  // How loud a sample of a state is on one side, for its volume and stereo position.
  function StateHeard(x: int, vol: real, position: real, side: Side): int {
    Trunc(Part(x as real, vol, if side.Left? then position else 1.0 - position))
  }

  function Part(x: real, vol: real, position: real): real {
    x * vol * 0.4 * position
  }

  lemma PlainIsHeard(x: int, vol: real, position: real, side: Side)
    ensures Level(Plain(vol, Pan(position, side), x)) == StateHeard(x, vol, position, side)
  {
    GainIs(x as real, vol, Pan(position, side));
  }

  lemma GainIs(x: real, vol: real, pan: real)
    ensures Scaled(Gain(vol, pan), x) == Part(x, vol, pan)
  {
  }

  // What is put out is heard as these samples.
  ghost predicate HeardAs(out: seq<int>, samples: seq<Sample>, vol: real, position: real, side: Side) {
    |out| == |samples| && forall i :: 0 <= i < |out| ==> out[i] == StateHeard(samples[i], vol, position, side)
  }

  lemma HeardAsJoins(out: seq<int>, a: seq<Sample>, b: seq<Sample>, vol: real, position: real, side: Side)
    requires |a| <= |out| && HeardAs(out[..|a|], a, vol, position, side) && HeardAs(out[|a|..], b, vol, position, side)
    ensures HeardAs(out, a + b, vol, position, side)
  {
    hide StateHeard;
    forall i | 0 <= i < |out| ensures out[i] == StateHeard((a + b)[i], vol, position, side) {
      assert out[i] == if i < |a| then out[..|a|][i] else out[|a|..][i - |a|];
    }
  }

  // ---------- A state without a fade ----------

  // The state that the next frame of segment `seg` goes on to play.
  ghost predicate PlaysSegment(sb: StateBuf, fr: FadeRec, t: nat, seg: Segment) {
    && SndIndex(sb) == Some(t) && sb.vol != 0.0 && Unfaded(sb, fr)
    && var ss := Current(sb, t);
       ss.sndNo < |ss.bufs.value| && ss.bufs.value[ss.sndNo] == Some(seg)
  }

  lemma MoveKeepsSettings(sb: StateBuf, fr: FadeRec, t: nat, sndNo: nat, pos: nat)
    requires SndIndex(sb) == Some(t)
    ensures var sb' := C.MovedTo(sb, t, sndNo, pos);
            && SndIndex(sb') == Some(t) && sb'.vol == sb.vol && sb'.stereo == sb.stereo && sb'.flags == sb.flags
            && Current(sb', t) == Current(sb, t).(sndNo := sndNo, pos := pos)
  {
    C.SameIndex(sb, C.MovedTo(sb, t, sndNo, pos));
  }

  // The sound that the draw picks, of `cnt`.
  function Drawn(cnt: nat, draw: Draw): nat {
    cnt * draw / 0x8000_0000
  }

  // A frame plays the two samples that the segment is at. The frame at its end draws the next segment,
  // which then begins.
  lemma UnfadedFrameIs(sb: StateBuf, fr: FadeRec, t: nat, seg: Segment, d: Draws)
    requires PlaysSegment(sb, fr, t, seg) && Current(sb, t).pos + 1 < |seg|
    ensures var ss := Current(sb, t);
            var ends := ss.pos + 2 >= |seg|;
            StateFrame(sb, fr, d)
            == Frame(Plain(sb.vol, sb.stereo, seg[ss.pos]), Plain(sb.vol, 1.0 - sb.stereo, seg[ss.pos + 1]),
                     C.MovedTo(sb, t, if ends then Drawn(|ss.bufs.value|, d.end) else ss.sndNo,
                               if ends then 0 else ss.pos + 2), fr)
  {
    hide FadePoint;
    var ss := Current(sb, t);
    var l, r := Plain(sb.vol, sb.stereo, seg[ss.pos]), Plain(sb.vol, 1.0 - sb.stereo, seg[ss.pos + 1]);
    assert ApplyFilters(sb, fr, l, ss.pos, d.left) == Faded(l, sb, fr);
    assert ApplyFilters(sb, fr, r, ss.pos + 1, d.right) == Faded(r, sb, fr);
    assert PickSnd(ss, d.end) == Drawn(|ss.bufs.value|, d.end);
  }

  // What a state adds to the output in a run of frames.
  function StateOutputs(sb: StateBuf, fr: FadeRec, ds: seq<Draws>, side: Side): (out: seq<int>)
    ensures |out| == |ds|
    decreases |ds|
  {
    if ds == [] then []
    else
      var f := StateFrame(sb, fr, ds[0]);
      [StateLevel(f, side)] + StateOutputs(NextBuf(f, sb), NextRec(f, fr), ds[1..], side)
  }

  // One side of a segment.
  function OneSide(seg: Segment, side: Side): (r: seq<Sample>)
    ensures |r| == |seg| / 2
  {
    seq(|seg| / 2, i requires 0 <= i < |seg| / 2 => if side.Left? then seg[2 * i] else seg[2 * i + 1])
  }

  // The place after n frames from frame q of a segment on.
  function Further(sb: StateBuf, t: nat, frames: nat, q: nat, ds: seq<Draws>, n: nat): StateBuf
    requires SndIndex(sb) == Some(t) && 0 < n <= |ds| && q + n <= frames
  {
    var ss := Current(sb, t);
    if q + n == frames then C.MovedTo(sb, t, Drawn(|ss.bufs.value|, ds[n - 1].end), 0)
    else C.MovedTo(sb, t, ss.sndNo, 2 * (q + n))
  }

  // The first n frames of `ds` play these samples and lead to the state `next`, which goes on from there.
  ghost predicate LeadsTo(sb: StateBuf, fr: FadeRec, ds: seq<Draws>, n: nat, samples: seq<Sample>, next: StateBuf,
                          side: Side)
    requires n <= |ds|
  {
    var out := StateOutputs(sb, fr, ds, side);
    && out[n..] == StateOutputs(next, fr, ds[n..], side)
    && C.After(sb, fr, ds[..n]) == Some((next, fr))
    && HeardAs(out[..n], samples, sb.vol, sb.stereo, side)
  }

  lemma OneFrameLeads(sb: StateBuf, fr: FadeRec, t: nat, seg: Segment, q: nat, ds: seq<Draws>, side: Side)
    requires PlaysSegment(sb, fr, t, seg) && |seg| % 2 == 0 && Current(sb, t).pos == 2 * q
    requires ds != [] && q < |seg| / 2
    ensures LeadsTo(sb, fr, ds, 1, [OneSide(seg, side)[q]], Further(sb, t, |seg| / 2, q, ds, 1), side)
  {
    hide StateFrame, SndIndex, Unfaded, StateHeard, Level, WithSnd;
    UnfadedFrameIs(sb, fr, t, seg, ds[0]);
    PlainIsHeard(OneSide(seg, side)[q], sb.vol, sb.stereo, side);
    var out, next := StateOutputs(sb, fr, ds, side), Further(sb, t, |seg| / 2, q, ds, 1);
    assert StateFrame(sb, fr, ds[0]).sb == next;
    assert out[1..] == StateOutputs(next, fr, ds[1..], side);
    assert HeardAs(out[..1], [OneSide(seg, side)[q]], sb.vol, sb.stereo, side);
    assert ds[..1] == [ds[0]] && [ds[0]][1..] == [];
    assert C.After(sb, fr, [ds[0]]) == C.After(next, fr, []);
  }

  lemma LeadsFurther(sb: StateBuf, fr: FadeRec, ds: seq<Draws>, x: Sample, mid: StateBuf, n: nat,
                     samples: seq<Sample>, next: StateBuf, side: Side)
    requires n < |ds| && LeadsTo(sb, fr, ds, 1, [x], mid, side) && LeadsTo(mid, fr, ds[1..], n, samples, next, side)
    requires mid.vol == sb.vol && mid.stereo == sb.stereo
    ensures LeadsTo(sb, fr, ds, n + 1, [x] + samples, next, side)
  {
    hide StateFrame, StateLevel, HeardAs;
    var out := StateOutputs(sb, fr, ds, side);
    assert ds[1..][n..] == ds[n + 1..] && out[1..][n..] == out[n + 1..];
    assert out[..n + 1][..1] == out[..1] && out[..n + 1][1..] == out[1..][..n];
    HeardAsJoins(out[..n + 1], [x], samples, sb.vol, sb.stereo, side);
    AfterFirst(sb, fr, ds[..n + 1]);
    assert ds[..n + 1][..1] == ds[..1] && ds[..n + 1][1..] == ds[1..][..n];
  }

  lemma AfterFirst(sb: StateBuf, fr: FadeRec, ds: seq<Draws>)
    requires ds != [] && C.After(sb, fr, ds[..1]).Some?
    ensures var r := C.After(sb, fr, ds[..1]).value; C.After(sb, fr, ds) == C.After(r.0, r.1, ds[1..])
  {
    hide StateFrame;
    assert ds[..1][1..] == [];
  }

  // From any frame on a segment is played frame by frame. After its last one the state is at the first
  // frame of the segment that was drawn by that one.
  lemma {:induction false} SegmentGoesOn(sb: StateBuf, fr: FadeRec, t: nat, seg: Segment, q: nat,
                                         ds: seq<Draws>, n: nat, side: Side)
    requires PlaysSegment(sb, fr, t, seg) && |seg| % 2 == 0 && Current(sb, t).pos == 2 * q
    requires 0 < n <= |ds| && q + n <= |seg| / 2
    ensures LeadsTo(sb, fr, ds, n, OneSide(seg, side)[q..q + n], Further(sb, t, |seg| / 2, q, ds, n), side)
    decreases n
  {
    hide SndIndex, Unfaded, OneSide, LeadsTo, WithSnd;
    var one := OneSide(seg, side);
    OneFrameLeads(sb, fr, t, seg, q, ds, side);
    if n == 1 {
      assert one[q..q + 1] == [one[q]];
    } else {
      var ss := Current(sb, t);
      var mid := Further(sb, t, |seg| / 2, q, ds, 1);
      MoveKeepsSettings(sb, fr, t, ss.sndNo, 2 * q + 2);
      UnfadedByFlags(sb, mid, fr);
      SegmentGoesOn(mid, fr, t, seg, q + 1, ds[1..], n - 1, side);
      MovedOver(sb, t, ss.sndNo, 2 * q + 2, ss.sndNo, 2 * (q + n));
      MovedOver(sb, t, ss.sndNo, 2 * q + 2, Drawn(|ss.bufs.value|, ds[n - 1].end), 0);
      assert one[q..q + n] == [one[q]] + one[q + 1..q + n];
      LeadsFurther(sb, fr, ds, one[q], mid, n - 1, one[q + 1..q + n], Further(sb, t, |seg| / 2, q, ds, n), side);
    }
  }

  lemma UnfadedByFlags(sb: StateBuf, sb': StateBuf, fr: FadeRec)
    requires Unfaded(sb, fr) && sb'.flags == sb.flags
    ensures Unfaded(sb', fr)
  {
  }

  lemma MovedOver(sb: StateBuf, t: nat, a: nat, p: nat, b: nat, q: nat)
    requires sb.thresh.Some? && t < |sb.thresh.value|
    ensures C.MovedTo(C.MovedTo(sb, t, a, p), t, b, q) == C.MovedTo(sb, t, b, q)
  {
    assert C.MovedTo(C.MovedTo(sb, t, a, p), t, b, q).thresh.value == C.MovedTo(sb, t, b, q).thresh.value;
  }

  // From its first frame a segment plays each of its frames once; the last one leaves the state at the
  // first frame of the segment that it drew.
  lemma UnfadedSegmentPlaysThrough(sb: StateBuf, fr: FadeRec, t: nat, seg: Segment, ds: seq<Draws>, side: Side)
    requires PlaysSegment(sb, fr, t, seg) && seg != [] && |seg| == 2 * |ds| && Current(sb, t).pos == 0
    ensures var out := StateOutputs(sb, fr, ds, side);
            var r := C.After(sb, fr, ds);
            && (forall i :: 0 <= i < |ds| ==>
                  out[i] == StateHeard(if side.Left? then seg[2 * i] else seg[2 * i + 1], sb.vol, sb.stereo, side))
            && r.Some? && r.value.1 == fr
            && SndIndex(r.value.0) == Some(t)
            && var ss := Current(r.value.0, t);
               var cnt := |ss.bufs.value|;
               && ss.pos == 0 && ss.bufs == Current(sb, t).bufs
               && ss.sndNo * 0x8000_0000 <= cnt * ds[|ds| - 1].end < (ss.sndNo + 1) * 0x8000_0000
  {
    hide StateFrame, StateOutputs, SndIndex, Unfaded, StateHeard, WithSnd;
    SegmentGoesOn(sb, fr, t, seg, 0, ds, |ds|, side);
    var out := StateOutputs(sb, fr, ds, side);
    assert ds[..|ds|] == ds && out[..|ds|] == out && OneSide(seg, side)[0..0 + |ds|] == OneSide(seg, side);
    MoveKeepsSettings(sb, fr, t, Drawn(|Current(sb, t).bufs.value|, ds[|ds| - 1].end), 0);
  }

  // ---------- Whole runs ----------

  // One side of what a state plays that begins segment k: the segment, then the one that is drawn at its
  // end, and so on; silence from a segment on that is not there.
  function Track(bufs: seq<Option<Segment>>, k: nat, ds: seq<Draws>, side: Side): (r: seq<Sample>)
    ensures |r| == |ds|
    decreases |ds|
  {
    if k >= |bufs| || bufs[k].None? || |bufs[k].value| < 2 then seq(|ds|, _ => 0)
    else
      var one := OneSide(bufs[k].value, side);
      if |ds| <= |one| then one[..|ds|]
      else one + Track(bufs, Drawn(|bufs|, ds[|one| - 1].end), ds[|one|..], side)
  }

  ghost predicate BeginsSegment(sb: StateBuf, fr: FadeRec, t: nat) {
    && SndIndex(sb) == Some(t) && sb.vol != 0.0 && Unfaded(sb, fr)
    && var ss := Current(sb, t);
       && ss.pos == 0 && ss.sndNo < |ss.bufs.value|
       && forall k :: 0 <= k < |ss.bufs.value| ==> WholeFrames(ss.bufs.value[k])
  }

  lemma {:induction false} MissingSegmentIsSilent(sb: StateBuf, fr: FadeRec, t: nat, ds: seq<Draws>, side: Side)
    requires BeginsSegment(sb, fr, t) && Current(sb, t).bufs.value[Current(sb, t).sndNo].None?
    ensures forall i :: 0 <= i < |ds| ==> StateOutputs(sb, fr, ds, side)[i] == 0
    decreases |ds|
  {
    if ds != [] {
      assert StateFrame(sb, fr, ds[0]).Silent?;
      MissingSegmentIsSilent(sb, fr, t, ds[1..], side);
    }
  }

  lemma DrawnInRange(cnt: nat, draw: Draw)
    requires cnt > 0
    ensures Drawn(cnt, draw) < cnt
  {
    PickInRange(cnt, draw);
  }

  // In every run a state without a fade is heard as its segments, one after the other, each from its
  // first frame to its last, and each drawn at the end of the one before.
  lemma {:induction false} UnfadedIsHeard(sb: StateBuf, fr: FadeRec, t: nat, ds: seq<Draws>, side: Side)
    requires BeginsSegment(sb, fr, t)
    ensures var track := Track(Current(sb, t).bufs.value, Current(sb, t).sndNo, ds, side);
            HeardAs(StateOutputs(sb, fr, ds, side), track, sb.vol, sb.stereo, side)
    decreases |ds|
  {
    hide StateFrame, StateOutputs, SndIndex, Unfaded, WithSnd, StateHeard, OneSide;
    var ss := Current(sb, t);
    var out := StateOutputs(sb, fr, ds, side);
    assert WholeFrames(ss.bufs.value[ss.sndNo]);
    if ss.bufs.value[ss.sndNo].None? {
      MissingSegmentIsSilent(sb, fr, t, ds, side);
      ZeroIsSilent(sb.vol, sb.stereo, side);
    } else if ds != [] {
      var seg := ss.bufs.value[ss.sndNo].value;
      var n := |seg| / 2;
      var one := OneSide(seg, side);
      if |ds| <= n {
        SegmentGoesOn(sb, fr, t, seg, 0, ds, |ds|, side);
        assert out[..|ds|] == out && one[0..0 + |ds|] == one[..|ds|];
      } else {
        SegmentGoesOn(sb, fr, t, seg, 0, ds, n, side);
        var next := Further(sb, t, n, 0, ds, n);
        var k := Drawn(|ss.bufs.value|, ds[n - 1].end);
        DrawnInRange(|ss.bufs.value|, ds[n - 1].end);
        MoveKeepsSettings(sb, fr, t, k, 0);
        UnfadedByFlags(sb, next, fr);
        UnfadedIsHeard(next, fr, t, ds[n..], side);
        assert one[0..0 + n] == one;
        HeardAsJoins(out, one, Track(ss.bufs.value, k, ds[n..], side), sb.vol, sb.stereo, side);
      }
    }
  }

  lemma ZeroIsSilent(vol: real, position: real, side: Side)
    ensures StateHeard(0, vol, position, side) == 0
  {
  }

  // ---------- A state with a fade ----------

  function Blend(a: real, b: real, w: real): real {
    a * w + b * (1.0 - w)
  }

  lemma BlendIs(a: real, b: real, w: real)
    ensures Blend(a, b, w) == Mixture(a, b, w)
  {
  }

  // A sample of the segment that fades out, and one of the segment that fades in, of which as much is
  // heard as the other has lost. `rest` of the `all` samples of the fade are left.
  function FadeHeard(own: int, incoming: int, vol: real, position: real, side: Side, rest: int, all: int): int
    requires all > 0
  {
    var w := rest as real / all as real;
    Trunc(Blend(StateHeard(own, vol, position, side) as real, Part(incoming as real, vol, position), w))
  }

  lemma MixIsHeard(own: int, incoming: int, vol: real, position: real, side: Side, rest: int, all: int)
    requires all > 0
    ensures Level(Mix(Plain(vol, Pan(position, side), own), incoming, position, vol, rest, all))
            == FadeHeard(own, incoming, vol, position, side, rest, all)
  {
    hide StateHeard, Scaled, Gain, Trunc, Mixture, Blend, Part;
    PlainIsHeard(own, vol, position, side);
    GainIs(incoming as real, vol, position);
    BlendIs(Level(Plain(vol, Pan(position, side), own)) as real, Part(incoming as real, vol, position),
            rest as real / all as real);
  }

  // A frame of a state whose fades are in step: outside a fade the samples of its segment; in a fade
  // these and, one sample late, those of the segment that was drawn, both at the position of the left
  // side. A fade starts on the right side, and ends before it.
  lemma SteadyFrameIsHeard(sb: StateBuf, fr: FadeRec, t: nat, d: Draws)
    requires C.Steady(sb, fr, t)
    ensures var f := StateFrame(sb, fr, d);
            var ss := Current(sb, t);
            var seg := C.Playing(sb, fr, t);
            var (rest, all) := (|seg| - ss.pos, FadePoint(fr.fadeTime));
            var drawn := PickSnd(ss, d.left);
            && all > 0 && ss.pos + 1 < |seg| && f.Frame?
            && (C.AtStart(sb, fr, t) ==>
                  drawn < |ss.bufs.value| && ss.bufs.value[drawn].Some? && ss.bufs.value[drawn].value != [])
            && (C.InFade(sb, fr, t) ==> fr.pos + 1 < |C.Incoming(sb, fr, t)|)
            && StateLevel(f, Left)
               == (if C.InFade(sb, fr, t)
                   then FadeHeard(seg[ss.pos], C.Incoming(sb, fr, t)[fr.pos], sb.vol, sb.stereo, Left, rest, all)
                   else StateHeard(seg[ss.pos], sb.vol, sb.stereo, Left))
            && StateLevel(f, Right)
               == (if C.AtStart(sb, fr, t)
                   then FadeHeard(seg[ss.pos + 1], ss.bufs.value[drawn].value[0],
                                  sb.vol, sb.stereo, Right, rest - 1, all)
                   else if C.InFade(sb, fr, t) && !C.AtEnd(sb, t)
                   then FadeHeard(seg[ss.pos + 1], C.Incoming(sb, fr, t)[fr.pos + 1],
                                  sb.vol, sb.stereo, Right, rest - 1, all)
                   else StateHeard(seg[ss.pos + 1], sb.vol, sb.stereo, Right))
  {
    hide StateFrame, Level, StateHeard, FadeHeard, FadePoint, WithSnd, SndIndex;
    var ss := Current(sb, t);
    var seg := C.Playing(sb, fr, t);
    var (rest, all) := (|seg| - ss.pos, FadePoint(fr.fadeTime));
    assert C.LongSegment(ss.bufs.value[ss.sndNo], all);
    PlainIsHeard(seg[ss.pos], sb.vol, sb.stereo, Left);
    PlainIsHeard(seg[ss.pos + 1], sb.vol, sb.stereo, Right);
    if C.AtEnd(sb, t) {
      C.FrameHandsOver(sb, fr, t, d);
      MixIsHeard(seg[ss.pos], C.Incoming(sb, fr, t)[fr.pos], sb.vol, sb.stereo, Left, rest, all);
    } else if C.InFade(sb, fr, t) {
      C.FrameInFade(sb, fr, t, d);
      MixIsHeard(seg[ss.pos], C.Incoming(sb, fr, t)[fr.pos], sb.vol, sb.stereo, Left, rest, all);
      MixIsHeard(seg[ss.pos + 1], C.Incoming(sb, fr, t)[fr.pos + 1], sb.vol, sb.stereo, Right, rest - 1, all);
    } else if C.AtStart(sb, fr, t) {
      C.FrameStartsFade(sb, fr, t, d);
      assert C.LongSegment(ss.bufs.value[PickSnd(ss, d.left)], all);
      MixIsHeard(seg[ss.pos + 1], ss.bufs.value[PickSnd(ss, d.left)].value[0], sb.vol, sb.stereo, Right, rest - 1, all);
    } else {
      C.FrameBeforeFade(sb, fr, t, d);
    }
  }

  // A state event sets the volume, the position and the flags, each in its unit, and the length of the
  // fades unless that is 255; a fade under way and the places in the segments stay.
  lemma StateEventSets(sb: StateBuf, fr: FadeRec, ev: Event)
    ensures var r := SetState(sb, fr, ev);
            && r.0.vol * 255.0 == ev.vol as real && r.0.stereo * 255.0 == ev.loc as real
            && r.0.flags == ev.flags && r.0.thresh == sb.thresh
            && r.1 == fr.(fadeTime := r.1.fadeTime)
            && (if ev.dither == 255 then r.1.fadeTime == fr.fadeTime
                else r.1.fadeTime * 255.0 == ev.dither as real * 2.0)
  {
  }

  // ---------- The frames that the mixer writes ----------

  // What rand() gives state k in the frames of a run.
  function DrawsFor(acts: seq<MachineAct>, k: nat): seq<Draws>
    decreases |acts|
  {
    if acts == [] then []
    else (if acts[0].FrameAct? && k < |acts[0].ds| then [acts[0].ds[k]] else []) + DrawsFor(acts[1..], k)
  }

  // A state to which no event is sent goes through the frames of a run as if it were alone.
  lemma {:induction false} StateAfterFrames(table: SoundTable, m: Machine, acts: seq<MachineAct>, k: nat)
    requires GoodMachine(m) && MachineRunFits(table, m, acts) && k < |m.sbs|
    requires forall i :: 0 <= i < |acts| ==> !(acts[i].StateAct? && acts[i].k == k)
    ensures var r := MachineRun(table, m, acts);
            C.After(m.sbs[k], m.frs[k], DrawsFor(acts, k)) == Some((r.sbs[k], r.frs[k]))
    decreases |acts|
  {
    hide StateFrame, VoicesAfter, SetState, VolSum, C.RoomToHandOver;
    if acts != [] {
      MachineStepGood(table, m, acts[0]);
      var next := MachineStep(table, m, acts[0]);
      StateAfterFrames(table, next, acts[1..], k);
      if acts[0].FrameAct? {
        var ds := acts[0].ds;
        assert !StateOutcome(m.sbs, m.frs, ds, k).FrameFault?;
        var rest := DrawsFor(acts[1..], k);
        assert DrawsFor(acts, k)[0] == ds[k] && DrawsFor(acts, k)[1..] == rest;
      } else {
        assert DrawsFor(acts, k) == DrawsFor(acts[1..], k);
        assert next.sbs[k] == m.sbs[k] && next.frs[k] == m.frs[k];
      }
    }
  }

  function Muted(sbs: StateBufs, k: nat): (r: StateBufs)
    requires k < |sbs|
    ensures |r| == |sbs|
  {
    sbs[k := sbs[k].(vol := 0.0)]
  }

  lemma MutedIsSilent(sb: StateBuf, fr: FadeRec, d: Draws)
    ensures StateFrame(sb.(vol := 0.0), fr, d).Silent?
  {
  }

  // The state part of a frame is the sum over its states.
  lemma {:induction false} StatePartSplits(sbs: StateBufs, frs: FadeRecs, ds: seq<Draws>, side: Side, n: nat, k: nat)
    requires |sbs| == |frs| == |ds| && n <= |sbs| && k < |sbs|
    ensures StatePart(sbs, frs, ds, side, n)
            == StatePart(Muted(sbs, k), frs, ds, side, n)
               + if k < n then StateLevel(StateFrame(sbs[k], frs[k], ds[k]), side) else 0
  {
    hide StateFrame;
    if n > 0 {
      StatePartSplits(sbs, frs, ds, side, n - 1, k);
      assert StateOutcome(Muted(sbs, k), frs, ds, k).Silent? by {
        MutedIsSilent(sbs[k], frs[k], ds[k]);
      }
    }
  }

  lemma {:induction false} OutputAfter(sb: StateBuf, fr: FadeRec, ds: seq<Draws>, d: Draws, side: Side)
    requires C.After(sb, fr, ds).Some?
    ensures var r := C.After(sb, fr, ds).value;
            StateOutputs(sb, fr, ds + [d], side)[|ds|] == StateLevel(StateFrame(r.0, r.1, d), side)
    decreases |ds|
  {
    hide StateFrame, StateLevel;
    if ds == [] {
      assert ds + [d] == [d];
    } else {
      var f := StateFrame(sb, fr, ds[0]);
      assert (ds + [d])[0] == ds[0] && (ds + [d])[1..] == ds[1..] + [d];
      OutputAfter(NextBuf(f, sb), NextRec(f, fr), ds[1..], d, side);
    }
  }

  // Each frame that the mixer writes holds, besides what the others play, what each state gives in its
  // turn.
  lemma FrameHoldsState(table: SoundTable, m: Machine, acts: seq<MachineAct>, ds: seq<Draws>, k: nat, side: Side)
    requires GoodMachine(m) && MachineRunFits(table, m, acts) && |ds| == |m.sbs| && k < |m.sbs|
    requires forall i :: 0 <= i < |acts| ==> !(acts[i].StateAct? && acts[i].k == k)
    ensures var r := MachineRun(table, m, acts);
            var before := DrawsFor(acts, k);
            FrameSum(r, ds, side)
            == StateOutputs(m.sbs[k], m.frs[k], before + [ds[k]], side)[|before|]
               + EventPart(r.voices, side, |r.voices.ebuffs|)
               + StatePart(Muted(r.sbs, k), r.frs, ds, side, |r.sbs|)
  {
    hide StateFrame, StateLevel, AllPanned, VolSum, MachineRunFits, EventPart, StatePart, StateOutputs, MachineRun;
    StateAfterFrames(table, m, acts, k);
    var r := MachineRun(table, m, acts);
    StatePartSplits(r.sbs, r.frs, ds, side, |r.sbs|, k);
    OutputAfter(m.sbs[k], m.frs[k], DrawsFor(acts, k), ds[k], side);
  }
}
