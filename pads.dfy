/**
 * The soundboard pads: the button hit test, `init_pad`, and the per-frame
 * loop that turns touches into triggers. Coordinates are whole numbers (every
 * rectangle the program builds has integral corners).
 */
module Pads {
  import opened Bytes
  import opened Keys
  import opened Sample
  import opened Playback

  const SCREEN_WIDTH := 320
  const BUTTON_X := SCREEN_WIDTH - 60
  const BUTTON_Y := 10
  const BUTTON_W := 50
  const BUTTON_H := 50
  /** The pad loop always triggers this channel, whichever pad fired. */
  const PAD_TRIGGER_CHANNEL := 0

  /** A `touchPosition`. */
  datatype Touch = Touch(px: int, py: int)

  /** `pointInButton`: the on-screen button, bounds included. */
  function PointInButton(t: Touch): (r: bool)
    ensures r <==> 260 <= t.px <= 310 && 10 <= t.py <= 60
  {
    t.px >= BUTTON_X && t.px <= BUTTON_X + BUTTON_W &&
    t.py >= BUTTON_Y && t.py <= BUTTON_Y + BUTTON_H
  }

  /** A `PadRect`: geometry, two colours, the pressed flag and the sample it plays. */
  datatype Pad = Pad(x: int, y: int, w: int, h: int, colorIdle: u32, colorPressed: u32,
                     pressed: bool, sample: AudioSample)

  /** `init_pad` on the pad at index `i` of the pad table. */
  method InitPad(pads: array<Pad>, i: nat, x: int, y: int, w: int, h: int,
                 idle: u32, pressed: u32, sample: AudioSample)
    requires i < pads.Length
    modifies pads
    ensures pads[i] == Pad(x, y, w, h, idle, pressed, false, sample)
    ensures forall j :: 0 <= j < pads.Length && j != i ==> pads[j] == old(pads[j])
  {
    pads[i] := Pad(x, y, w, h, idle, pressed, false, sample);
  }

  /**
   * A pad is touched when the screen is held (`touching`: KEY_TOUCH is among
   * the held keys) inside its rectangle, edges included.
   */
  predicate Touched(p: Pad, touching: bool, t: Touch)
  {
    touching && p.x <= t.px <= p.x + p.w && p.y <= t.py <= p.y + p.h
  }

  /** The rising edge on which a pad fires. */
  predicate Fires(p: Pad, touching: bool, t: Touch)
  {
    Touched(p, touching, t) && !p.pressed
  }

  /** Whether one of the first `n` pads of `ps` that plays `s` fires. */
  predicate FiredAmong(ps: seq<Pad>, touching: bool, t: Touch, n: nat, s: AudioSample)
    requires n <= |ps|
  {
    n > 0 && (FiredAmong(ps, touching, t, n - 1, s) || (ps[n - 1].sample == s && Fires(ps[n - 1], touching, t)))
  }

  /** How many of the first `n` pads of `ps` fire. */
  function FiredCount(ps: seq<Pad>, touching: bool, t: Touch, n: nat): (r: nat)
    requires n <= |ps|
    ensures r <= n
  {
    if n == 0 then 0 else FiredCount(ps, touching, t, n - 1) + (if Fires(ps[n - 1], touching, t) then 1 else 0)
  }

  /** The state of each sample in `samples`. */
  ghost function StateMap(samples: set<AudioSample>): (r: map<AudioSample, SampleState>)
    reads samples
    ensures r.Keys == samples
  {
    map s | s in samples :: s.State()
  }

  /** A pad after its pressed flag has followed the touch. */
  function Settle(p: Pad, touching: bool, t: Touch): Pad
  {
    p.(pressed := Touched(p, touching, t))
  }

  /** The pads of `ps` with the first `n` settled. */
  function SettledUpTo(ps: seq<Pad>, touching: bool, t: Touch, n: nat): (r: seq<Pad>)
    requires n <= |ps|
    ensures |r| == |ps|
    ensures forall k :: 0 <= k < |ps| ==> r[k] == if k < n then Settle(ps[k], touching, t) else ps[k]
  {
    if n == 0 then ps else SettledUpTo(ps, touching, t, n - 1)[n - 1 := Settle(ps[n - 1], touching, t)]
  }

  /** The state a sample is left in by one pad's turn. */
  function AfterTurn(p: Pad, touching: bool, t: Touch, s: SampleState): SampleState
  {
    if Fires(p, touching, t) then Played(s) else s
  }

  /** The driver calls of one pad's turn. */
  function TurnCalls(p: Pad, touching: bool, t: Touch, s: SampleState): seq<DspCall>
  {
    if Fires(p, touching, t) then PlayCalls(s, PAD_TRIGGER_CHANNEL) else []
  }

  /**
   * The states of the samples after the first `n` turns of a pass over `ps`
   * that found them in the states `st`: each turn works on its sample's
   * state as the turns before it left it.
   */
  function StatesAfter(ps: seq<Pad>, st: map<AudioSample, SampleState>, touching: bool, t: Touch, n: nat)
    : (r: map<AudioSample, SampleState>)
    requires n <= |ps| && forall k :: 0 <= k < |ps| ==> ps[k].sample in st
    ensures r.Keys == st.Keys
  {
    if n == 0 then st
    else
      var prev := StatesAfter(ps, st, touching, t, n - 1);
      var s := ps[n - 1].sample;
      prev[s := AfterTurn(ps[n - 1], touching, t, prev[s])]
  }

  /** The driver calls of the first `n` turns of a pass, each made on its sample's state at that turn. */
  function PassCalls(ps: seq<Pad>, st: map<AudioSample, SampleState>, touching: bool, t: Touch, n: nat)
    : seq<DspCall>
    requires n <= |ps| && forall k :: 0 <= k < |ps| ==> ps[k].sample in st
  {
    if n == 0 then []
    else
      PassCalls(ps, st, touching, t, n - 1) +
      TurnCalls(ps[n - 1], touching, t, StatesAfter(ps, st, touching, t, n - 1)[ps[n - 1].sample])
  }

  /**
   * One pass of the pad loop. Afterwards each pad's pressed flag equals
   * whether it is touched, and nothing else about the pads changes; the
   * samples are in the states the turns leave them in one after another
   * (`StatesAfterMeans` says which), and the calls are those of the
   * triggers in index order, each on the sample's state at its turn.
   */
  method UpdatePads(pads: array<Pad>, ghost samples: set<AudioSample>, held: bv32, touch: Touch)
    returns (calls: seq<DspCall>)
    requires forall k :: 0 <= k < pads.Length ==> pads[k].sample in samples
    modifies pads, samples
    ensures pads[..] == SettledUpTo(old(pads[..]), Has(held, KEY_TOUCH), touch, pads.Length)
    ensures forall s | s in samples ::
      s.State() == StatesAfter(old(pads[..]), old(StateMap(samples)), Has(held, KEY_TOUCH), touch, pads.Length)[s]
    ensures calls == PassCalls(old(pads[..]), old(StateMap(samples)), Has(held, KEY_TOUCH), touch, pads.Length)
  {
    var touching := Has(held, KEY_TOUCH);
    ghost var ps := pads[..];
    ghost var orig := StateMap(samples);
    calls := [];
    var i := 0;
    while i < pads.Length
      invariant i <= pads.Length
      invariant PassState(pads, samples, ps, orig, touching, touch, i, calls)
    {
      var c := UpdatePad(pads, samples, ps, orig, touching, touch, i, calls);
      calls := calls + c;
      i := i + 1;
    }
  }

  /** The pads, the samples and the driver calls after the first `i` turns of a pass over `ps`. */
  ghost predicate PassState(pads: array<Pad>, samples: set<AudioSample>, ps: seq<Pad>,
                            orig: map<AudioSample, SampleState>, touching: bool, touch: Touch, i: nat,
                            calls: seq<DspCall>)
    reads pads, samples
  {
    |ps| == pads.Length && orig.Keys == samples &&
    PassValues(pads[..], ps, orig, touching, touch, i, calls) &&
    forall s | s in samples :: s.State() == StatesAfter(ps, orig, touching, touch, i)[s]
  }

  /** The pad table and the driver calls after the first `i` turns of a pass over `ps`. */
  predicate PassValues(cur: seq<Pad>, ps: seq<Pad>, orig: map<AudioSample, SampleState>,
                       touching: bool, touch: Touch, i: nat, calls: seq<DspCall>)
  {
    i <= |ps| && (forall k :: 0 <= k < |ps| ==> ps[k].sample in orig) &&
    cur == SettledUpTo(ps, touching, touch, i) &&
    calls == PassCalls(ps, orig, touching, touch, i)
  }

  /**
   * The body of the pad loop for the pad at index `i` of a pass over `ps`
   * (the pads as the pass found them): its pressed flag follows the touch,
   * and a rising edge triggers its sample, in its current state, on channel 0.
   */
  method UpdatePad(pads: array<Pad>, ghost samples: set<AudioSample>, ghost ps: seq<Pad>,
                   ghost orig: map<AudioSample, SampleState>, touching: bool, touch: Touch, i: nat,
                   ghost prior: seq<DspCall>)
    returns (calls: seq<DspCall>)
    requires i < pads.Length && PassState(pads, samples, ps, orig, touching, touch, i, prior)
    modifies pads, samples
    ensures PassState(pads, samples, ps, orig, touching, touch, i + 1, prior + calls)
    ensures calls == TurnCalls(ps[i], touching, touch, StatesAfter(ps, orig, touching, touch, i)[ps[i].sample])
  {
    ghost var padsBefore := pads[..];
    ghost var before := StatesAfter(ps, orig, touching, touch, i);
    var pad := pads[i];
    var isTouched := touching &&
                     touch.px >= pad.x && touch.px <= pad.x + pad.w &&
                     touch.py >= pad.y && touch.py <= pad.y + pad.h;
    calls := [];
    if isTouched && !pad.pressed {
      pads[i] := pad.(pressed := true);
      calls := PlaySample(pad.sample, PAD_TRIGGER_CHANNEL);
    } else if !isTouched && pad.pressed {
      pads[i] := pad.(pressed := false);
    }
    TurnKeeps(padsBefore, ps, orig, touching, touch, i, prior, calls);
    assert pads[..] == padsBefore[i := Settle(pad, touching, touch)];
    ghost var after := StatesAfter(ps, orig, touching, touch, i + 1);
    forall s | s in samples
      ensures s.State() == after[s]
    {
    }
  }

  /** One turn of the loop body takes `PassValues` from `i` turns to `i + 1`. */
  lemma TurnKeeps(cur: seq<Pad>, ps: seq<Pad>, orig: map<AudioSample, SampleState>,
                  touching: bool, touch: Touch, i: nat, prior: seq<DspCall>, turn: seq<DspCall>)
    requires i < |ps| && PassValues(cur, ps, orig, touching, touch, i, prior)
    requires turn == TurnCalls(ps[i], touching, touch, StatesAfter(ps, orig, touching, touch, i)[ps[i].sample])
    ensures cur[i] == ps[i]
    ensures PassValues(cur[i := Settle(ps[i], touching, touch)], ps, orig, touching, touch, i + 1, prior + turn)
  {
    PassCallsStep(ps, orig, touching, touch, i, prior, turn);
  }

  /** The calls of `i` turns followed by those of turn `i` are the calls of `i + 1` turns. */
  lemma PassCallsStep(ps: seq<Pad>, st: map<AudioSample, SampleState>, touching: bool, t: Touch, i: nat,
                      prior: seq<DspCall>, turn: seq<DspCall>)
    requires i < |ps| && forall k :: 0 <= k < |ps| ==> ps[k].sample in st
    requires prior == PassCalls(ps, st, touching, t, i)
    requires turn == TurnCalls(ps[i], touching, t, StatesAfter(ps, st, touching, t, i)[ps[i].sample])
    ensures prior + turn == PassCalls(ps, st, touching, t, i + 1)
  {
  }

  /** The state of `s` after some turns of a pass, by whether a pad playing it has fired. */
  function Expected(orig: map<AudioSample, SampleState>, fired: bool, s: AudioSample): SampleState
    requires s in orig
  {
    if fired then Played(orig[s]) else orig[s]
  }

  /**
   * However many pads share a sample, the first `n` turns leave it as one
   * trigger leaves it when one of them fired, and untouched otherwise.
   */
  lemma {:induction false} StatesAfterMeans(ps: seq<Pad>, st: map<AudioSample, SampleState>,
                                            touching: bool, t: Touch, n: nat, s: AudioSample)
    requires n <= |ps| && s in st && forall k :: 0 <= k < |ps| ==> ps[k].sample in st
    ensures StatesAfter(ps, st, touching, t, n)[s] == Expected(st, FiredAmong(ps, touching, t, n, s), s)
  {
    if n > 0 {
      StatesAfterMeans(ps, st, touching, t, n - 1, s);
      PlayTwice(st[s], PAD_TRIGGER_CHANNEL);
    }
  }

  /** A sample counts as fired exactly when some pad among the first `n` that plays it fires. */
  lemma {:induction false} FiredAmongMeans(ps: seq<Pad>, touching: bool, t: Touch, n: nat, s: AudioSample)
    requires n <= |ps|
    ensures FiredAmong(ps, touching, t, n, s) <==>
            exists k :: 0 <= k < n && ps[k].sample == s && Fires(ps[k], touching, t)
  {
    if n > 0 {
      FiredAmongMeans(ps, touching, t, n - 1, s);
    }
  }

  /**
   * Within one pass, a pad whose sample an earlier pad already fired makes
   * no call when the sample holds at least one frame: the first trigger
   * either queued its buffer or was itself turned away.
   */
  lemma RefireIgnored(ps: seq<Pad>, st: map<AudioSample, SampleState>, touching: bool, t: Touch, n: nat)
    requires n < |ps| && forall k :: 0 <= k < |ps| ==> ps[k].sample in st
    requires FiredAmong(ps, touching, t, n, ps[n].sample) && st[ps[n].sample].size >= 4
    ensures TurnCalls(ps[n], touching, t, StatesAfter(ps, st, touching, t, n)[ps[n].sample]) == []
  {
    StatesAfterMeans(ps, st, touching, t, n, ps[n].sample);
    PlayTwice(st[ps[n].sample], PAD_TRIGGER_CHANNEL);
  }

  /**
   * Two pads playing one sample that both fire on the same frame trigger it
   * once: six calls, all from the first pad, when its buffer was DONE or
   * FREE and it holds a frame.
   */
  lemma SharedSampleOnce(p: Pad, q: Pad, st: map<AudioSample, SampleState>, touching: bool, t: Touch)
    requires p.sample == q.sample && p.sample in st && st[p.sample].size >= 4
    requires Fires(p, touching, t) && Fires(q, touching, t) && Accepts(st[p.sample].waveBuf.status)
    ensures PassCalls([p, q], st, touching, t, 2) == PlayCalls(st[p.sample], PAD_TRIGGER_CHANNEL)
    ensures |PassCalls([p, q], st, touching, t, 2)| == 6
  {
    var ps := [p, q];
    assert FiredAmong(ps, touching, t, 1, q.sample);
    RefireIgnored(ps, st, touching, t, 1);
    assert PassCalls(ps, st, touching, t, 1) == TurnCalls(p, touching, t, st[p.sample]);
    AcceptedTrigger(st[p.sample], PAD_TRIGGER_CHANNEL);
  }

  /** Every call of a pass that names a channel names channel 0. */
  lemma {:induction false} PassOnChannelZero(ps: seq<Pad>, st: map<AudioSample, SampleState>,
                                             touching: bool, t: Touch, n: nat)
    requires n <= |ps| && forall k :: 0 <= k < |ps| ==> ps[k].sample in st
    ensures forall j :: 0 <= j < |PassCalls(ps, st, touching, t, n)| ==>
      OnChannel(PassCalls(ps, st, touching, t, n)[j], PAD_TRIGGER_CHANNEL)
  {
    if n > 0 {
      PassOnChannelZero(ps, st, touching, t, n - 1);
      var cur := StatesAfter(ps, st, touching, t, n - 1)[ps[n - 1].sample];
      if Accepts(cur.waveBuf.status) {
        AcceptedTrigger(cur, PAD_TRIGGER_CHANNEL);
      }
    }
  }

  /**
   * A pass makes a driver call exactly when some pad fires whose sample's
   * wave buffer was DONE or FREE when the pass began.
   */
  lemma {:induction false} PassSilent(ps: seq<Pad>, st: map<AudioSample, SampleState>,
                                      touching: bool, t: Touch, n: nat)
    requires n <= |ps| && forall k :: 0 <= k < |ps| ==> ps[k].sample in st
    ensures PassCalls(ps, st, touching, t, n) == [] <==>
            forall k :: 0 <= k < n && Fires(ps[k], touching, t) ==> !Accepts(st[ps[k].sample].waveBuf.status)
  {
    if n > 0 {
      var m := n - 1;
      var p := ps[m];
      PassSilent(ps, st, touching, t, m);
      StatesAfterMeans(ps, st, touching, t, m, p.sample);
      var cur := StatesAfter(ps, st, touching, t, m)[p.sample];
      if Fires(p, touching, t) && Accepts(st[p.sample].waveBuf.status) {
        FiredAmongMeans(ps, touching, t, m, p.sample);
        if FiredAmong(ps, touching, t, m, p.sample) {
          var k :| 0 <= k < m && ps[k].sample == p.sample && Fires(ps[k], touching, t);
          assert PassCalls(ps, st, touching, t, m) != [];
        } else {
          assert TurnCalls(p, touching, t, cur) != [];
        }
      } else if Fires(p, touching, t) {
        assert cur == st[p.sample];
      }
    }
  }

  /** A pass makes at most six calls for each pad that fires. */
  lemma {:induction false} PassCallsBound(ps: seq<Pad>, st: map<AudioSample, SampleState>,
                                          touching: bool, t: Touch, n: nat)
    requires n <= |ps| && forall k :: 0 <= k < |ps| ==> ps[k].sample in st
    ensures |PassCalls(ps, st, touching, t, n)| <= 6 * FiredCount(ps, touching, t, n)
  {
    if n > 0 {
      PassCallsBound(ps, st, touching, t, n - 1);
    }
  }

  /** With the screen not held, a pass triggers nothing. */
  lemma NoTouchNoCalls(ps: seq<Pad>, st: map<AudioSample, SampleState>, t: Touch)
    requires forall k :: 0 <= k < |ps| ==> ps[k].sample in st
    ensures PassCalls(ps, st, false, t, |ps|) == []
  {
    PassSilent(ps, st, false, t, |ps|);
  }

  /**
   * Triggering is edge-driven: holding the same touch for a second frame
   * triggers nothing, whatever state the samples are in.
   */
  lemma HeldTouchFiresOnce(ps: seq<Pad>, st: map<AudioSample, SampleState>, touching: bool, t: Touch)
    requires forall k :: 0 <= k < |ps| ==> ps[k].sample in st
    ensures PassCalls(SettledUpTo(ps, touching, t, |ps|), st, touching, t, |ps|) == []
  {
    PassSilent(SettledUpTo(ps, touching, t, |ps|), st, touching, t, |ps|);
  }
}
