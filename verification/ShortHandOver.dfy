/**
 * A fade that hands over a segment shorter than what has been played of it, from its start on
 * (server/mixer.c:799-846): the input with which a frame is louder than its state's volume.
 */
module ShortHandOver {
  import opened Events
  import opened Options
  import opened Samples
  import opened Sounds
  import opened States
  import opened Output
  import CrossFade
  import Voices

  // The volume 153 of 255 lies on the bound of two thresholds. The sound of the upper one plays, far
  // left; its second segment has a single frame.
  function Ahead(low: Segment, playing: Segment, short: Segment, pos: nat): StateBuf {
    StateBuf(Some([Threshold(0.0, 0.6, StateSnd(Some([Some(low), Some(low)]), 0, 0)),
                   Threshold(0.6, 1.0, StateSnd(Some([Some(playing), Some(short)]), 0, pos))]),
             1.0, 153 as real / 255.0, 1)
  }

  // The fade of the dither 1, which has mixed in `mixed` samples of the second segment.
  function Fading(mixed: nat): FadeRec {
    FadeRec(1 as real / (255.0 / MAX_FADE_TIME), 1, mixed, Some(0))
  }

  ghost predicate ShortAhead(low: Segment, playing: Segment, short: Segment) {
    && |low| >= 692 && low[689] == 0 && low[690] == -0x8000
    && |playing| >= 1384 && |playing| % 2 == 0 && short == [0, 0]
  }

  lemma AheadPlays(low: Segment, playing: Segment, short: Segment, pos: nat)
    ensures var sb := Ahead(low, playing, short, pos);
            SndIndex(sb) == Some(1) && FirstMatch(sb.thresh.value, sb.vol, 0) == Some(0)
    ensures FadePoint(Fading(0).fadeTime) == 692
  {
    var sb := Ahead(low, playing, short, pos);
    LastMatchIs(sb.thresh.value, sb.vol, 0, 0);
    FirstMatchIs(sb.thresh.value, sb.vol, 0);
    assert Matches(sb.thresh.value[0], sb.vol) && Matches(sb.thresh.value[1], sb.vol);
  }

  // The fade starts in the frame 692 samples from the end, and draws the second segment.
  lemma AheadStarts(low: Segment, playing: Segment, short: Segment, fr: FadeRec, d: Draws)
    requires ShortAhead(low, playing, short) && fr.fadeTime == Fading(0).fadeTime && d.left == RAND_MAX
    ensures var f := StateFrame(Ahead(low, playing, short, |playing| - 692), fr, d);
            f.Frame? && f.sb == Ahead(low, playing, short, |playing| - 690) && f.fr == Fading(1)
  {
    var sb := Ahead(low, playing, short, |playing| - 692);
    AheadPlays(low, playing, short, |playing| - 692);
    hide FadePoint;
    assert PickSnd(Current(sb, 1), d.left) == 1;
    var next := Ahead(low, playing, short, |playing| - 690);
    assert WithSnd(sb, 1, Current(next, 1)).thresh.value == next.thresh.value;
  }

  // And goes on frame by frame.
  lemma AheadGoesOn(low: Segment, playing: Segment, short: Segment, m: nat, d: Draws)
    requires ShortAhead(low, playing, short) && m % 2 == 1 && m < 689
    ensures var f := StateFrame(Ahead(low, playing, short, |playing| - 691 + m), Fading(m), d);
            f.Frame? && f.sb == Ahead(low, playing, short, |playing| - 691 + m + 2) && f.fr == Fading(m + 2)
  {
    var sb, next := Ahead(low, playing, short, |playing| - 691 + m), Ahead(low, playing, short, |playing| - 689 + m);
    AheadPlays(low, playing, short, |playing| - 691 + m);
    hide FadePoint, PickSnd;
    assert WithSnd(sb, 1, Current(next, 1)).thresh.value == next.thresh.value;
  }

  // So a state that starts its fade like that comes, 345 frames later, to the last frame of the segment.
  lemma {:induction false} AheadComesToTheEnd(low: Segment, playing: Segment, short: Segment, m: nat, ds: seq<Draws>)
    requires ShortAhead(low, playing, short) && m % 2 == 1 && m + 2 * |ds| == 689
    ensures CrossFade.After(Ahead(low, playing, short, |playing| - 691 + m), Fading(m), ds)
            == Some((Ahead(low, playing, short, |playing| - 2), Fading(689)))
    decreases |ds|
  {
    hide StateFrame;
    if ds != [] {
      AheadGoesOn(low, playing, short, m, ds[0]);
      AheadComesToTheEnd(low, playing, short, m + 2, ds[1..]);
    }
  }

  // There it makes the single frame the current segment, 690 samples into it: the weight of the right
  // sample is -689 / 692, and the lower sound is heard at almost twice the volume.
  lemma ShortHandOverIsTooLoud(low: Segment, playing: Segment, short: Segment, fr: FadeRec, ds: seq<Draws>, d: Draws)
    requires ShortAhead(low, playing, short) && fr.fadeTime == Fading(0).fadeTime
    requires |ds| == 345 && ds[0].left == RAND_MAX
    ensures var r := CrossFade.After(Ahead(low, playing, short, |playing| - 692), fr, ds);
            && r == Some((Ahead(low, playing, short, |playing| - 2), Fading(689)))
            && !CrossFade.RoomToHandOver(r.value.0, r.value.1)
            && var f := StateFrame(r.value.0, r.value.1, d);
               && f.Frame? && f.right.Mix? && f.right.remainder == -689 && f.right.fadePt == 692
               && Level(f.right) == -15694
  {
    AheadToTheEnd(low, playing, short, fr, ds);
    var sb, late := Ahead(low, playing, short, |playing| - 2), Fading(689);
    AheadPlays(low, playing, short, |playing| - 2);
    hide FadePoint, CrossFade.After;
    var l, r := playing[|playing| - 2], playing[|playing| - 1];
    var left := FadeEffect(sb, late, Plain(sb.vol, 1.0, l), |playing| - 2, d.left);
    assert left.Faded? && Current(left.sb, 1).sndNo == 1 && Current(left.sb, 1).pos == 690;
    CrossFade.SameIndex(sb, left.sb);
    var right := FadeEffect(left.sb, left.fr, Plain(sb.vol, 0.0, r), 691, d.right);
    assert right.Faded? && right.signal == Mix(Plain(sb.vol, 0.0, r), -0x8000, 1.0, sb.vol, -689, 692);
    LateLevel(r);
  }

  lemma AheadToTheEnd(low: Segment, playing: Segment, short: Segment, fr: FadeRec, ds: seq<Draws>)
    requires ShortAhead(low, playing, short) && fr.fadeTime == Fading(0).fadeTime
    requires |ds| == 345 && ds[0].left == RAND_MAX
    ensures CrossFade.After(Ahead(low, playing, short, |playing| - 692), fr, ds)
            == Some((Ahead(low, playing, short, |playing| - 2), Fading(689)))
  {
    hide StateFrame;
    AheadStarts(low, playing, short, fr, ds[0]);
    AheadComesToTheEnd(low, playing, short, 1, ds[1..]);
  }

  lemma LateLevel(x: Sample)
    ensures Level(Mix(Plain(0.6, 0.0, x), -0x8000, 1.0, 0.6, -689, 692)) == -15694
  {
    assert Scaled(Gain(0.6, 0.0), x as real) == 0.0;
    assert Scaled(Gain(0.6, 1.0), -32768.0) == -7864.32;
    assert Weight(-689, 692) == -689.0 / 692.0;
  }

  // With that state, another one at the volume 102 of 255, and two event channels, all at full scale and
  // on one side, a sum wraps, although the volumes and the shares are within their bounds.
  lemma SumWrapsAfterShortHandOver(low: Segment, playing: Segment, short: Segment,
                                   fr: FadeRec, ds: seq<Draws>, d: Draws)
    requires ShortAhead(low, playing, short) && fr.fadeTime == Fading(0).fadeTime
    requires |ds| == 345 && ds[0].left == RAND_MAX
    ensures var r := CrossFade.After(Ahead(low, playing, short, |playing| - 692), fr, ds);
            r.Some? &&
            var f := StateFrame(r.value.0, r.value.1, d);
            var b := Voices.EventBuf(Some(LOUD), 2, 0, 0.0, 0);
            && f.Frame?
            && !InShort(EventLevel(b, 0.5, Right) + EventLevel(b, 0.28125, Right)
                        + Level(f.right) + Level(Plain(102 as real / 255.0, 1.0, -0x8000)))
  {
    hide CrossFade.After, StateFrame;
    ShortHandOverIsTooLoud(low, playing, short, fr, ds, d);
  }
}
