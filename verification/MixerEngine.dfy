/**
 * The engine and the mixer on their arrays (server/engine.c:235-252, 396-635, server/mixer.c:119-250,
 * 436-568, 645-668). Each method is proved against the function of the same name on values, so what
 * is proved of those functions holds of the arrays.
 *
 * Clock readings and random numbers are parameters. The locks are left out: a method is one step.
 */
module MixerEngine {
  import opened Events
  import opened Options
  import opened Sounds
  import opened Samples
  import D = DynamicVolume
  import opened MixerQueue
  import V = Voices
  import R = VoiceRuns
  import O = Output
  import Hearing
  import StateHearing
  import States
  import Recording
  import PlaybackFile

  const MIXER_SUCCESS: int := 1
  const MIXER_CHAN_BUSY: int := -4

  const EVENT_QUEUE_ENTRIES: nat := 64

  class Mixer {
    const ebuffs: array<V.EventBuf>
    const dynMul: array<real>
    const sched: array<V.Sched>
    const heap: MixerHeap
    const sbuffs: array<States.StateBuf>
    const linFade: array<States.FadeRec>
    const output: array<int>
    var dynBufCnt: int
    var lastc: nat
    ghost var account: V.Account

    ghost predicate Valid()
      reads this, heap
    {
      && heap.Valid()
      && ebuffs.Length >= 2
      && dynMul.Length == sched.Length == |account.playing| == ebuffs.Length
      && sbuffs.Length == linFade.Length
      && lastc < ebuffs.Length
    }

    ghost function Model(): V.Voices
      requires Valid()
      reads this, ebuffs, dynMul, sched, heap, heap.heap
    {
      V.Voices(ebuffs[..], dynMul[..], dynBufCnt, sched[..], lastc, heap.Contents(), heap.heap.Length, account)
    }

    // mixerInit and engineInit, with EVENT_QUEUE_ENTRIES places in the heap.
    constructor (ebuf: nat, sbuf: nat, chunkSize: nat)
      requires ebuf >= 2
      ensures Valid() && Model() == R.Initial(ebuf, EVENT_QUEUE_ENTRIES)
      ensures ebuffs.Length == ebuf && sbuffs.Length == sbuf && output.Length == chunkSize
      ensures forall j :: 0 <= j < sbuf ==> sbuffs[j].thresh.None? && sbuffs[j].vol == 0.0
      ensures forall j :: 0 <= j < sbuf ==> linFade[j] == States.FadeRec(0.0, 0, 0, Some(0))
      ensures fresh(ebuffs) && fresh(dynMul) && fresh(sched) && fresh(heap) && fresh(heap.heap)
      ensures fresh(sbuffs) && fresh(linFade) && fresh(output)
    {
      ebuffs := new V.EventBuf[ebuf](_ => V.EventBuf(None, 0, 0, 0.0, 0));
      dynMul := new real[ebuf](_ => 0.0);
      sched := new V.Sched[ebuf](_ => V.Sched(0.0, 0, 0.0));
      heap := new MixerHeap(EVENT_QUEUE_ENTRIES);
      sbuffs := new States.StateBuf[sbuf](_ => States.StateBuf(None, 0.0, 0.0, 0));
      linFade := new States.FadeRec[sbuf](_ => States.FadeRec(0.0, 0, 0, Some(0)));
      output := new int[chunkSize](_ => 0);
      dynBufCnt := 0;
      lastc := 0;
      account := V.Account(seq(ebuf, _ => None), multiset{}, multiset{}, multiset{});
    }

    // mixerDynTotVol
    method DynTotVol() returns (sum: real)
      ensures sum == D.TotVol(dynMul[..])
    {
      sum := 0.0;
      for i := 0 to dynMul.Length
        invariant sum == D.TotVol(dynMul[..i])
      {
        assert dynMul[..i + 1][..i] == dynMul[..i];
        sum := sum + dynMul[i];
      }
      assert dynMul[..dynMul.Length] == dynMul[..];
    }

    // mixerDynVol
    method DynVol() returns (share: real)
      requires dynMul.Length >= 2
      ensures share == D.DynVol(dynMul[..], dynBufCnt)
    {
      var totVol := DynTotVol();
      var im := D.IMul(dynBufCnt, dynMul.Length);
      var gm := D.GMul(dynBufCnt, dynMul.Length);
      share := im * gm * (1.0 - totVol);
    }

    // mixerAddEvent
    method AddEvent(snd: Sound, loc: real, flags: int, voice: nat, ghost who: V.Arrival) returns (rc: int)
      requires Valid() && voice < ebuffs.Length
      modifies this, ebuffs, dynMul
      ensures Valid() && Model() == V.AddEvent(old(Model()), voice, snd, loc, flags, who)
      ensures rc == if old(ebuffs[voice].snd).Some? then MIXER_CHAN_BUSY else MIXER_SUCCESS
    {
      hide D.DynVol;
      if ebuffs[voice].snd.Some? {
        return MIXER_CHAN_BUSY;
      }
      ebuffs[voice] := ebuffs[voice].(snd := Some(snd));
      ebuffs[voice] := ebuffs[voice].(len := |snd|);
      ebuffs[voice] := ebuffs[voice].(stereo := loc);
      ebuffs[voice] := ebuffs[voice].(flags := flags);
      dynBufCnt := dynBufCnt + 1;
      var share := DynVol();
      dynMul[voice] := share;
      account := account.(playing := account.playing[voice := Some(who)]);
      return MIXER_SUCCESS;
    }

    // engineSchedulerInit
    method SchedulerInit(index: nat, start: real, prior: int, minendt: real)
      requires Valid() && index < sched.Length
      modifies sched
      ensures Valid() && Model() == V.SetSched(old(Model()), index, V.Sched(start, prior, minendt))
    {
      sched[index] := sched[index].(startt := start);
      sched[index] := sched[index].(priorit := prior);
      sched[index] := sched[index].(minendt := minendt);
    }

    // mixerRemoveEvent
    method RemoveEvent(j: nat)
      requires Valid() && j < ebuffs.Length
      modifies this, ebuffs, dynMul, sched
      ensures Valid() && Model() == V.RemoveEvent(old(Model()), j)
    {
      ebuffs[j] := ebuffs[j].(snd := None);
      ebuffs[j] := ebuffs[j].(len := 0, pos := 0, stereo := 0.0);
      dynMul[j] := 0.0;
      dynBufCnt := dynBufCnt - 1;
      account := account.(playing := account.playing[j := None],
                          finished := account.finished + V.One(account.playing[j]));
      SchedulerInit(j, 0.0, 0, 0.0);
    }

    // mixerAddOldEvent
    method AddOldEvent(table: SoundTable, j: nat, now: real, later: real, draw: Draw)
      requires Valid() && j < ebuffs.Length && !heap.IsEmpty()
      modifies this, ebuffs, dynMul, sched, heap, heap.heap
      ensures Valid() && Model() == V.AddOldEvent(table, old(Model()), j, now, later, draw)
    {
      var oldEvent := heap.Dequeue();
      if now - oldEvent.mixTime < V.QUEUE_EXPIRED {
        var snds := table(oldEvent.event.sound);
        var nextSnd := PickIndex(|snds|, draw);
        var _ := AddEvent(snds[nextSnd], oldEvent.event.loc as real / 255.0, oldEvent.event.flags, j, oldEvent);
        SchedulerInit(j, later, oldEvent.event.prior, later);
      } else {
        account := account.(expired := account.expired + multiset{oldEvent});
      }
    }

    // The selection loop of engineIO: the first idle channel, or -1. While no idle channel is found
    // bestc is -1, so the tests for bestc == 0 do nothing.
    method FindChannel() returns (bestc: int)
      requires Valid()
      ensures bestc == V.IdleFrom(sched[..], lastc, 0)
    {
      bestc := -1;
      var ind: nat := 0;
      while ind < ebuffs.Length
        invariant ind <= ebuffs.Length && bestc == -1
        invariant V.IdleFrom(sched[..], lastc, ind) == V.IdleFrom(sched[..], lastc, 0)
      {
        var c := (lastc + ind) % ebuffs.Length;
        if sched[c].startt == 0.0 {
          bestc := c;
          break;
        }
        if sched[0].priorit < sched[c].priorit && bestc == 0 {
          bestc := c;
        } else if sched[0].priorit == sched[c].priorit && sched[0].startt > sched[c].startt && bestc == 0 {
          bestc := c;
        }
        ind := ind + 1;
      }
    }

    // engineIO without an idle channel.
    method QueueEvent(who: EngineEvent)
      requires Valid()
      modifies this, heap, heap.heap
      ensures Valid() && Model() == V.Queued(old(Model()), who)
    {
      if heap.IsFull() {
        account := account.(discarded := account.discarded + multiset{who});
        return;
      }
      heap.Enqueue(who);
    }

    // engineIO with one.
    method StartEvent(table: SoundTable, bestc: nat, ev: Event, now: real, draw: Draw)
      requires Valid() && bestc < ebuffs.Length
      modifies this, ebuffs, dynMul, sched
      ensures Valid() && Model() == V.Allocated(table, old(Model()), bestc, ev, now, draw)
    {
      lastc := (bestc + 1) % ebuffs.Length;
      var snds := table(ev.sound);
      var nextSnd := PickIndex(|snds|, draw);
      var _ := AddEvent(snds[nextSnd], ev.loc as real / 255.0, ev.flags, bestc, EngineEvent(ev, now));
      SchedulerInit(bestc, now, ev.prior, sched[bestc].minendt);
    }

    // engineIO for a state event, mixerSetFadeTime and mixerSetStateSnd.
    method SetState(k: nat, ev: Event)
      requires Valid() && k < sbuffs.Length
      modifies sbuffs, linFade
      ensures var r := States.SetState(old(sbuffs[k]), old(linFade[k]), ev);
              sbuffs[..] == old(sbuffs[..])[k := r.0] && linFade[..] == old(linFade[..])[k := r.1]
    {
      if ev.dither != 255 {
        linFade[k] := linFade[k].(fadeTime := ev.dither as real / (255.0 / States.MAX_FADE_TIME));
      }
      sbuffs[k] := sbuffs[k].(vol := ev.vol as real / 255.0);
      sbuffs[k] := sbuffs[k].(stereo := ev.loc as real / 255.0);
      sbuffs[k] := sbuffs[k].(flags := ev.flags);
    }

    // engineIO. The channel that is found is idle, so nothing is interrupted (server/engine.c:529-539).
    // `stateIndex` is the mixer index that the sound table gives for a state sound; `recorder` is the
    // file that events are recorded in, if they are, at the time `at`.
    method EngineIO(table: SoundTable, stateIndex: seq<Byte> -> nat, recorder: PlaybackFile.Stream?,
                    ev: Event, at: real, now: real, draw: Draw)
      requires Valid() && R.Coherent(Model())
      requires recorder != null ==> recorder.Valid()
      requires ev.kind == STATE_T ==> stateIndex(ev.sound) < sbuffs.Length
      modifies this, ebuffs, dynMul, sched, heap, heap.heap, sbuffs, linFade
      modifies if recorder == null then {} else {recorder}
      ensures Valid() && Model() == V.Arrive(table, old(Model()), ev, now, draw)
      ensures recorder != null ==>
                recorder.Valid() && recorder.State() == Recording.Recorded(old(recorder.State()), EngineEvent(ev, at))
      ensures ev.kind != STATE_T ==> sbuffs[..] == old(sbuffs[..]) && linFade[..] == old(linFade[..])
      ensures ev.kind == STATE_T ==>
                var k := stateIndex(ev.sound);
                var r := States.SetState(old(sbuffs[k]), old(linFade[k]), ev);
                sbuffs[..] == old(sbuffs[..])[k := r.0] && linFade[..] == old(linFade[..])[k := r.1]
    {
      hide V.Allocated, V.Queued, States.SetState, Recording.Recorded;
      if recorder != null {
        recorder.RecordEvent(EngineEvent(ev, at));
      }
      if ev.kind == EVENT_T {
        var bestc := FindChannel();
        V.IdleFromInRange(sched[..], lastc, 0);
        if bestc == -1 {
          QueueEvent(EngineEvent(ev, now));
        } else {
          StartEvent(table, bestc, ev, now, draw);
        }
      } else if ev.kind == STATE_T {
        SetState(stateIndex(ev.sound), ev);
      }
    }

    // ---------- The mixer's loops ----------

    // One pass over an event channel: what it adds to the frame, and its next position.
    method MixVoice(table: SoundTable, j: nat, p: O.Pass) returns (eleft: int, eright: int)
      requires Valid() && R.Coherent(Model()) && j < ebuffs.Length
      modifies this, ebuffs, dynMul, sched, heap, heap.heap
      ensures Valid() && Model() == V.Advance(table, old(Model()), j, p.now, p.later, p.draw)
      ensures eleft == O.EventLevel(old(ebuffs[j]), old(dynMul[j]), O.Left)
      ensures eright == O.EventLevel(old(ebuffs[j]), old(dynMul[j]), O.Right)
      ensures var b := old(ebuffs[j]);
              b.snd.Some? ==>
                && b.pos % 2 == 0 && b.pos + 1 < |b.snd.value|
                && eleft == Hearing.Heard(b.snd.value, b.pos / 2, old(dynMul[j]), b.stereo, O.Left)
                && eright == Hearing.Heard(b.snd.value, b.pos / 2, old(dynMul[j]), b.stereo, O.Right)
    {
      hide Scaled, Trunc, Hearing.Heard;
      assert R.ChannelOkAt(Model(), j);
      if ebuffs[j].snd.Some? {
        Hearing.PassIsHeard(ebuffs[j], dynMul[j], O.Left);
        Hearing.PassIsHeard(ebuffs[j], dynMul[j], O.Right);
      }
      var b := ebuffs[j];
      if b.snd.None? {
        return 0, 0;
      }
      eleft := Trunc(Scaled(O.EventGain(dynMul[j], b.stereo), b.snd.value[b.pos] as real));
      eright := Trunc(Scaled(O.EventGain(dynMul[j], 1.0 - b.stereo), b.snd.value[b.pos + 1] as real));
      ebuffs[j] := b.(pos := b.pos + STEREO);
      if ebuffs[j].pos == ebuffs[j].len {
        RemoveEvent(j);
        if !heap.IsEmpty() {
          AddOldEvent(table, j, p.now, p.later, p.draw);
        }
      }
    }

    // mixerGetStateSndPtr, as the index of the threshold.
    method GetStateSndPtr(j: nat) returns (r: Option<nat>)
      requires j < sbuffs.Length
      ensures r == States.SndIndex(sbuffs[j])
    {
      if sbuffs[j].thresh.None? {
        return None;
      }
      var ts := sbuffs[j].thresh.value;
      var vol := sbuffs[j].vol;
      var index: nat := 0;
      for i := 0 to |ts|
        invariant States.LastMatch(ts, vol, i, index) == States.LastMatch(ts, vol, 0, 0)
      {
        if vol >= ts[i].lBound && vol <= ts[i].hBound {
          index := i;
        }
      }
      if |ts| <= index || ts[index].snd.bufs.None? {
        return None;
      }
      return Some(index);
    }

    // mixerGetStateThreshIndex; None where the C function ends without a value.
    method GetStateThreshIndex(j: nat) returns (r: Option<nat>)
      requires j < sbuffs.Length && sbuffs[j].thresh.Some?
      ensures r == States.FirstMatch(sbuffs[j].thresh.value, sbuffs[j].vol, 0)
    {
      var ts := sbuffs[j].thresh.value;
      var vol := sbuffs[j].vol;
      for i := 0 to |ts|
        invariant States.FirstMatch(ts, vol, i) == States.FirstMatch(ts, vol, 0)
      {
        if vol >= ts[i].lBound && vol <= ts[i].hBound {
          return Some(i);
        }
      }
      return None;
    }

    // mixerFadeEffect for the sample `data`, the value of the signal `sig`, where it is defined.
    method FadeEffect(data: int, ghost sig: States.Signal, pos: nat, j: nat, draw: Draw)
      returns (result: int, ghost sig': States.Signal)
      requires j < sbuffs.Length && sbuffs.Length == linFade.Length
      requires data == States.Level(sig)
      requires !States.FadeEffect(sbuffs[j], linFade[j], sig, pos, draw).Fault?
      modifies sbuffs, linFade
      ensures States.FadeEffect(old(sbuffs[j]), old(linFade[j]), sig, pos, draw)
              == States.Faded(sig', sbuffs[j], linFade[j])
      ensures result == States.Level(sig')
      ensures sbuffs[..] == old(sbuffs[..])[j := sbuffs[j]] && linFade[..] == old(linFade[..])[j := linFade[j]]
    {
      hide Scaled, Mixture, Trunc, States.Gain, States.Weight;
      var t := GetStateSndPtr(j);
      if t.None? {
        return 0, States.Zero;
      }
      var snd := States.Current(sbuffs[j], t.value);
      var fadePt := Trunc(linFade[j].fadeTime * STEREO as real * States.SAMPLE_RATE as real);
      var remainder := States.SegLen(snd, snd.sndNo) - pos;
      if fadePt % 2 == 1 {
        fadePt := if fadePt > 0 then fadePt + 1 else fadePt - 1;
      }
      if remainder > fadePt {
        return data, sig;
      } else if remainder == fadePt {
        linFade[j] := linFade[j].(snd := States.PickSnd(snd, draw));
        linFade[j] := linFade[j].(pos := snd.pos % 2);
        var oldThresh := GetStateThreshIndex(j);
        linFade[j] := linFade[j].(oldThresh := oldThresh);
        return data, sig;
      }
      var mul := States.Weight(remainder, fadePt);
      var stereo := if snd.pos % 2 == 1 then 1.0 - sbuffs[j].stereo else sbuffs[j].stereo;
      var x := sbuffs[j].thresh.value[linFade[j].oldThresh.value].snd.bufs.value[linFade[j].snd].value[linFade[j].pos];
      result := Trunc(Mixture(data as real, Scaled(States.Gain(sbuffs[j].vol, stereo), x as real), mul));
      sig' := States.Mix(sig, x, stereo, sbuffs[j].vol, remainder, fadePt);
      linFade[j] := linFade[j].(pos := linFade[j].pos + 1);
      if snd.pos + STEREO >= States.SegLen(snd, snd.sndNo) {
        snd := snd.(sndNo := linFade[j].snd);
        snd := snd.(pos := linFade[j].pos);
        sbuffs[j] := States.WithSnd(sbuffs[j], t.value, snd);
      }
    }

    // mixerApplyStateFilters
    method ApplyStateFilters(data: int, ghost sig: States.Signal, pos: nat, j: nat, draw: Draw)
      returns (result: int, ghost sig': States.Signal)
      requires j < sbuffs.Length && sbuffs.Length == linFade.Length
      requires data == States.Level(sig)
      requires !States.ApplyFilters(sbuffs[j], linFade[j], sig, pos, draw).Fault?
      modifies sbuffs, linFade
      ensures States.ApplyFilters(old(sbuffs[j]), old(linFade[j]), sig, pos, draw)
              == States.Faded(sig', sbuffs[j], linFade[j])
      ensures result == States.Level(sig')
      ensures sbuffs[..] == old(sbuffs[..])[j := sbuffs[j]] && linFade[..] == old(linFade[..])[j := linFade[j]]
    {
      hide States.FadeEffect, States.Level;
      if sbuffs[j].flags % 2 == 1 {
        result, sig' := FadeEffect(data, sig, pos, j, draw);
      } else {
        result, sig' := data, sig;
      }
    }

    // One state buffer's part of a frame, where it is defined.
    method MixState(j: nat, d: States.Draws) returns (sleft: int, sright: int)
      requires j < sbuffs.Length && sbuffs.Length == linFade.Length
      requires !States.StateFrame(sbuffs[j], linFade[j], d).FrameFault?
      modifies sbuffs, linFade
      ensures var f := States.StateFrame(old(sbuffs[j]), old(linFade[j]), d);
              && sleft == O.StateLevel(f, O.Left) && sright == O.StateLevel(f, O.Right)
              && sbuffs[..] == old(sbuffs[..])[j := O.NextBuf(f, old(sbuffs[j]))]
              && linFade[..] == old(linFade[..])[j := O.NextRec(f, old(linFade[j]))]
    {
      hide Scaled, Trunc, States.Gain, States.ApplyFilters, PickIndex;
      ghost var sb, fr := sbuffs[j], linFade[j];
      var idx := GetStateSndPtr(j);
      if sbuffs[j].vol == 0.0 || idx.None? {
        return 0, 0;
      }
      var t := idx.value;
      var snd := States.Current(sbuffs[j], t);
      if snd.bufs.value[snd.sndNo].None? {
        return 0, 0;
      }
      var seg := snd.bufs.value[snd.sndNo].value;
      ghost var lsig := States.Plain(sbuffs[j].vol, sbuffs[j].stereo, seg[snd.pos]);
      ghost var rsig := States.Plain(sbuffs[j].vol, 1.0 - sbuffs[j].stereo, seg[snd.pos + 1]);
      sleft := Trunc(Scaled(States.Gain(sbuffs[j].vol, sbuffs[j].stereo), seg[snd.pos] as real));
      sright := Trunc(Scaled(States.Gain(sbuffs[j].vol, 1.0 - sbuffs[j].stereo), seg[snd.pos + 1] as real));
      ghost var sig;
      sleft, sig := ApplyStateFilters(sleft, lsig, snd.pos, j, d.left);
      sright, sig := ApplyStateFilters(sright, rsig, States.Current(sbuffs[j], t).pos + 1, j, d.right);
      snd := States.Current(sbuffs[j], t);
      snd := snd.(pos := snd.pos + STEREO);
      if snd.pos >= States.SegLen(snd, snd.sndNo) {
        snd := snd.(sndNo := States.PickSnd(snd, d.end));
        snd := snd.(pos := 0);
      }
      sbuffs[j] := States.WithSnd(sbuffs[j], t, snd);
    }

    // Adds to the two cells of a frame, which are shorts.
    method Store(i: nat, left: int, right: int)
      requires i + 1 < output.Length
      modifies output
      ensures output[..] == old(output[..])[i := Wrap16(old(output[i]) + left)]
                                           [i + 1 := Wrap16(old(output[i + 1]) + right)]
    {
      output[i] := Wrap16(output[i] + left);
      output[i + 1] := Wrap16(output[i + 1] + right);
    }

    // The event channels of the frame at output[i], which memset has cleared.
    method MixVoices(table: SoundTable, i: nat, ps: seq<O.Pass>)
      requires Valid() && R.Coherent(Model())
      requires i + 1 < output.Length && output[i] == output[i + 1] == 0
      requires |ps| == ebuffs.Length && O.PassesOk(ps)
      modifies this, ebuffs, dynMul, sched, heap, heap.heap, output
      ensures Valid() && Model() == O.VoicesAfter(table, old(Model()), ps, |ps|)
      ensures output[..] == old(output[..])
                [i := Wrap16(O.EventPart(old(Model()), O.Left, |ps|))]
                [i + 1 := Wrap16(O.EventPart(old(Model()), O.Right, |ps|))]
    {
      hide V.Advance, O.EventLevel, R.Coherent, Wrap16;
      ghost var s, before := Model(), output[..];
      assert before == Summed(before, i, s, 0) by {
        ZeroIsShort();
      }
      for j := 0 to ebuffs.Length
        invariant Valid() && Model() == O.VoicesAfter(table, s, ps, j)
        invariant output[..] == Summed(before, i, s, j)
      {
        MixVoiceInTurn(table, s, ps, i, j, before);
      }
    }

    // The output with the first j channels of a frame that began in the state `s` summed up.
    static ghost function Summed(before: seq<int>, i: nat, s: V.Voices, j: nat): (r: seq<int>)
      requires i + 1 < |before| && V.Shape(s) && j <= |s.ebuffs|
      ensures |r| == |before|
    {
      before[i := Wrap16(O.EventPart(s, O.Left, j))][i + 1 := Wrap16(O.EventPart(s, O.Right, j))]
    }

    // The round for channel j of a frame that began in the state `s`: the channel still plays what it
    // played then.
    method MixVoiceInTurn(table: SoundTable, ghost s: V.Voices, ps: seq<O.Pass>, i: nat, j: nat, ghost before: seq<int>)
      requires V.Shape(s) && R.Coherent(s) && |ps| == |s.ebuffs| && O.PassesOk(ps) && j < |ps|
      requires Valid() && Model() == O.VoicesAfter(table, s, ps, j)
      requires i + 1 < |before| && output[..] == Summed(before, i, s, j)
      modifies this, ebuffs, dynMul, sched, heap, heap.heap, output
      ensures Valid() && Model() == O.VoicesAfter(table, s, ps, j + 1)
      ensures output[..] == Summed(before, i, s, j + 1)
    {
      hide V.Advance, O.EventLevel, R.Coherent, Wrap16;
      O.VoicesAfterCoherent(table, s, ps, j);
      O.NotYetPassed(table, s, ps, j, j);
      var eleft, eright := MixVoice(table, j, ps[j]);
      WrapAdds(O.EventPart(s, O.Left, j), eleft);
      WrapAdds(O.EventPart(s, O.Right, j), eright);
      Store(i, eleft, eright);
    }

    // The state buffers of the frame at output[i].
    method MixStates(i: nat, ds: seq<States.Draws>)
      requires sbuffs.Length == linFade.Length == |ds| && i + 1 < output.Length
      requires O.FrameDefined(sbuffs[..], linFade[..], ds)
      requires InShort(output[i]) && InShort(output[i + 1])
      modifies sbuffs, linFade, output
      ensures sbuffs[..] == O.BufsAfter(old(sbuffs[..]), old(linFade[..]), ds, |ds|)
      ensures linFade[..] == O.RecsAfter(old(sbuffs[..]), old(linFade[..]), ds, |ds|)
      ensures output[..] == old(output[..])
                [i := Wrap16(old(output[i] + O.StatePart(sbuffs[..], linFade[..], ds, O.Left, |ds|)))]
                [i + 1 := Wrap16(old(output[i + 1] + O.StatePart(sbuffs[..], linFade[..], ds, O.Right, |ds|)))]
    {
      hide States.StateFrame, O.StateLevel, O.FrameDefined, Wrap16, O.NextBuf, O.NextRec;
      ghost var sbs, frs, before := sbuffs[..], linFade[..], output[..];
      ghost var l, r := output[i], output[i + 1];
      ShortStays(l);
      ShortStays(r);
      for j := 0 to sbuffs.Length
        invariant sbuffs[..] == O.BufsAfter(sbs, frs, ds, j) && linFade[..] == O.RecsAfter(sbs, frs, ds, j)
        invariant output[..] == before[i := Wrap16(l + O.StatePart(sbs, frs, ds, O.Left, j))]
                                      [i + 1 := Wrap16(r + O.StatePart(sbs, frs, ds, O.Right, j))]
      {
        var sleft, sright := MixStateInTurn(sbs, frs, ds, j);
        WrapAdds(l + O.StatePart(sbs, frs, ds, O.Left, j), sleft);
        WrapAdds(r + O.StatePart(sbs, frs, ds, O.Right, j), sright);
        Store(i, sleft, sright);
      }
    }

    method MixStateInTurn(ghost sbs: O.StateBufs, ghost frs: O.FadeRecs, ds: seq<States.Draws>, j: nat)
      returns (sleft: int, sright: int)
      requires |ds| == |sbs| == |frs| && O.FrameDefined(sbs, frs, ds) && j < |sbs|
      requires sbuffs[..] == O.BufsAfter(sbs, frs, ds, j) && linFade[..] == O.RecsAfter(sbs, frs, ds, j)
      modifies sbuffs, linFade
      ensures sbuffs[..] == O.BufsAfter(sbs, frs, ds, j + 1) && linFade[..] == O.RecsAfter(sbs, frs, ds, j + 1)
      ensures sleft == O.StateLevel(O.StateOutcome(sbs, frs, ds, j), O.Left)
      ensures sright == O.StateLevel(O.StateOutcome(sbs, frs, ds, j), O.Right)
    {
      hide States.StateFrame, O.StateLevel, O.NextBuf, O.NextRec;
      assert sbuffs[..][j] == sbs[j] && linFade[..][j] == frs[j];
      assert !O.StateOutcome(sbs, frs, ds, j).FrameFault?;
      sleft, sright := MixState(j, ds[j]);
    }

    ghost function MachineOf(): O.Machine
      requires Valid()
      reads this, ebuffs, dynMul, sched, heap, heap.heap, sbuffs, linFade
    {
      O.Machine(Model(), sbuffs[..], linFade[..])
    }

    // One frame of the mixer: both cells hold the sum of everything that plays, which has not wrapped.
    method MixFrame(table: SoundTable, i: nat, ps: seq<O.Pass>, ds: seq<States.Draws>)
      requires Valid() && O.GoodMachine(MachineOf()) && O.ActFits(MachineOf(), O.FrameAct(ps, ds))
      requires i + 1 < output.Length && output[i] == output[i + 1] == 0
      modifies this, ebuffs, dynMul, sched, heap, heap.heap, sbuffs, linFade, output
      ensures Valid() && MachineOf() == O.MachineStep(table, old(MachineOf()), O.FrameAct(ps, ds))
      ensures output[..] == old(output[..])[i := O.FrameSum(old(MachineOf()), ds, O.Left)]
                                           [i + 1 := O.FrameSum(old(MachineOf()), ds, O.Right)]
    {
      hide Wrap16, R.Coherent, O.FrameDefined, O.VoicesAfter, O.EventPart, O.StatePart;
      ghost var m := MachineOf();
      NoWrap(m, ds);
      MixVoices(table, i, ps);
      MixStates(i, ds);
    }

    // mixer: clears the buffer and fills it frame by frame. Every cell is the sum of what the machine
    // plays at that frame.
    method Mix(table: SoundTable, acts: seq<O.MachineAct>)
      requires Valid() && O.GoodMachine(MachineOf()) && O.MachineRunFits(table, MachineOf(), acts)
      requires output.Length == 2 * |acts| && forall f :: 0 <= f < |acts| ==> acts[f].FrameAct?
      modifies this, ebuffs, dynMul, sched, heap, heap.heap, sbuffs, linFade, output
      ensures Valid() && MachineOf() == O.MachineRun(table, old(MachineOf()), acts)
      ensures forall f :: 0 <= f < |acts| ==>
                output[2 * f] == FrameCell(table, old(MachineOf()), acts, f, O.Left)
                && output[2 * f + 1] == FrameCell(table, old(MachineOf()), acts, f, O.Right)
    {
      hide R.Coherent, O.FrameDefined, O.MachineStep, FrameCell, V.Shape;
      forall i | 0 <= i < output.Length {
        output[i] := 0;
      }
      ghost var m := MachineOf();
      assert acts[..0] == [];
      for f := 0 to |acts|
        invariant O.MachineRunFits(table, m, acts[..f])
        invariant Valid() && MachineOf() == O.MachineRun(table, m, acts[..f])
        invariant forall i :: 2 * f <= i < output.Length ==> output[i] == 0
        invariant forall g :: 0 <= g < f ==> output[2 * g] == FrameCell(table, m, acts, g, O.Left)
        invariant forall g :: 0 <= g < f ==> output[2 * g + 1] == FrameCell(table, m, acts, g, O.Right)
      {
        MixFrameInTurn(table, m, acts, f);
      }
      assert acts[..|acts|] == acts;
    }

    // Frame f of a chunk that began in the state `m`.
    method MixFrameInTurn(table: SoundTable, ghost m: O.Machine, acts: seq<O.MachineAct>, f: nat)
      requires O.GoodMachine(m) && O.MachineRunFits(table, m, acts) && f < |acts| && acts[f].FrameAct?
      requires O.MachineRunFits(table, m, acts[..f])
      requires Valid() && MachineOf() == O.MachineRun(table, m, acts[..f])
      requires 2 * f + 1 < output.Length && output[2 * f] == output[2 * f + 1] == 0
      modifies this, ebuffs, dynMul, sched, heap, heap.heap, sbuffs, linFade, output
      ensures O.MachineRunFits(table, m, acts[..f + 1])
      ensures Valid() && MachineOf() == O.MachineRun(table, m, acts[..f + 1])
      ensures output[..] == old(output[..])[2 * f := FrameCell(table, m, acts, f, O.Left)]
                                           [2 * f + 1 := FrameCell(table, m, acts, f, O.Right)]
    {
      hide R.Coherent, O.FrameDefined, O.MachineStep, O.FrameSum, V.Shape;
      assert acts[..f + 1] == acts[..f] + [acts[f]];
      O.MachineRunPrefix(table, m, acts, f + 1);
      O.MachineRunAppends(table, m, acts[..f], acts[f]);
      MixFrame(table, 2 * f, acts[f].ps, acts[f].ds);
    }

    static lemma FrameOfRun(table: SoundTable, m: O.Machine, acts: seq<O.MachineAct>, f: nat)
      requires O.GoodMachine(m) && O.MachineRunFits(table, m, acts) && f < |acts|
      ensures O.MachineRunFits(table, m, acts[..f]) && O.ActFits(O.MachineRun(table, m, acts[..f]), acts[f])
    {
      hide O.GoodMachine, O.ActFits, O.MachineStep;
      O.MachineRunPrefix(table, m, acts, f + 1);
      assert acts[..f + 1] == acts[..f] + [acts[f]];
      O.MachineRunAppends(table, m, acts[..f], acts[f]);
    }

    // What frame f of the chunk puts in a cell.
    static ghost function FrameCell(table: SoundTable, m: O.Machine, acts: seq<O.MachineAct>, f: nat, side: O.Side): int
      requires O.GoodMachine(m) && O.MachineRunFits(table, m, acts) && f < |acts| && acts[f].FrameAct?
    {
      FrameOfRun(table, m, acts, f);
      O.FrameSum(O.MachineRun(table, m, acts[..f]), acts[f].ds, side)
    }

    static lemma {:induction false} FramesOnly(acts: seq<O.MachineAct>)
      requires forall f :: 0 <= f < |acts| ==> acts[f].FrameAct?
      ensures Hearing.Frames(acts) == |acts|
    {
      if acts != [] {
        FramesOnly(acts[1..]);
      }
    }

    // So the cells of frame f hold frame f of the sound of every voice that is at its first frame when the
    // chunk begins and lasts so long, added to what the others play; frame n + f if it is at frame n.
    static lemma CellHoldsVoice(table: SoundTable, m: O.Machine, acts: seq<O.MachineAct>, f: nat, j: nat, side: O.Side)
      requires O.GoodMachine(m) && O.MachineRunFits(table, m, acts) && f < |acts|
      requires forall g :: 0 <= g < |acts| ==> acts[g].FrameAct?
      requires j < |m.voices.ebuffs| && m.voices.ebuffs[j].snd.Some?
      requires m.voices.ebuffs[j].pos + STEREO * f < m.voices.ebuffs[j].len
      ensures O.MachineRunFits(table, m, acts[..f]) && |acts[f].ds| == |m.sbs|
      ensures var b := m.voices.ebuffs[j];
              var r := O.MachineRun(table, m, acts[..f]);
              && b.pos % 2 == 0 && b.pos + STEREO * f + 1 < |b.snd.value|
              && FrameCell(table, m, acts, f, side)
                 == Hearing.Heard(b.snd.value, b.pos / 2 + f, m.voices.dynMul[j], b.stereo, side)
                    + O.EventPart(Hearing.Without(r.voices, j), side, |r.voices.ebuffs|)
                    + O.StatePart(r.sbs, r.frs, acts[f].ds, side, |r.sbs|)
    {
      hide O.GoodMachine, O.MachineStep, O.MachineRun, O.FrameSum, Hearing.Heard, O.EventPart, O.StatePart;
      FrameOfRun(table, m, acts, f);
      FramesOnly(acts[..f]);
      Hearing.FrameHoldsVoice(table, m, acts[..f], acts[f].ds, j, side);
    }

    // And they hold what each state gives in its f-th frame.
    static lemma CellHoldsState(table: SoundTable, m: O.Machine, acts: seq<O.MachineAct>, f: nat, k: nat, side: O.Side)
      requires O.GoodMachine(m) && O.MachineRunFits(table, m, acts) && f < |acts| && k < |m.sbs|
      requires forall g :: 0 <= g < |acts| ==> acts[g].FrameAct?
      ensures O.MachineRunFits(table, m, acts[..f]) && |acts[f].ds| == |m.sbs|
      ensures var r := O.MachineRun(table, m, acts[..f]);
              var before := StateHearing.DrawsFor(acts[..f], k);
              FrameCell(table, m, acts, f, side)
              == StateHearing.StateOutputs(m.sbs[k], m.frs[k], before + [acts[f].ds[k]], side)[|before|]
                 + O.EventPart(r.voices, side, |r.voices.ebuffs|)
                 + O.StatePart(StateHearing.Muted(r.sbs, k), r.frs, acts[f].ds, side, |r.sbs|)
    {
      hide O.GoodMachine, O.MachineStep, O.MachineRun, O.FrameSum, O.EventPart, O.StatePart, StateHearing.StateOutputs;
      FrameOfRun(table, m, acts, f);
      StateHearing.FrameHoldsState(table, m, acts[..f], acts[f].ds, k, side);
    }

    static lemma NoWrap(m: O.Machine, ds: seq<States.Draws>)
      requires O.GoodMachine(m) && |ds| == |m.sbs| && O.FrameDefined(m.sbs, m.frs, ds)
      ensures forall side: O.Side ::
                && InShort(O.EventPart(m.voices, side, |m.voices.ebuffs|))
                && Wrap16(O.EventPart(m.voices, side, |m.voices.ebuffs|))
                   == O.EventPart(m.voices, side, |m.voices.ebuffs|)
                && Wrap16(O.FrameSum(m, ds, side)) == O.FrameSum(m, ds, side)
    {
      hide R.ChannelOkAt, O.FrameDefined;
      forall side: O.Side
        ensures InShort(O.EventPart(m.voices, side, |m.voices.ebuffs|))
        ensures InShort(O.FrameSum(m, ds, side))
      {
        O.NoSumWraps(m.voices, m.sbs, m.frs, ds, side, |m.voices.ebuffs|, |m.sbs|);
      }
    }
  }
}