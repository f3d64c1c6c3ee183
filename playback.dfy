/**
 * `play_sample`: a trigger is taken only when the sample's wave buffer is
 * DONE or FREE; the buffer is then zeroed and refilled (PCM pointer, `size / 4`
 * stereo 16-bit frames, no looping) and submitted to the given DSP channel,
 * which is configured with the sample's rate and a fixed stereo PCM16 format.
 * Submission queues the buffer, so the next trigger is turned away until the
 * driver has played it.
 */
module Playback {
  import opened Bytes
  import opened Options
  import opened Sample

  datatype Interp = InterpLinear
  datatype Format = StereoPcm16
  /** The mix array with its first two (front left and right) gains at 1 and the rest at 0. */
  datatype Mix = UnityLeftRight

  /**
   * A call into the NDSP driver or the data cache, recorded in the order
   * made. `rate` is the signed value of the C `int` passed; `buf` is the
   * descriptor as it stands when handed over.
   */
  datatype DspCall =
    | SetInterp(channel: int, interp: Interp)
    | SetRate(channel: int, rate: int)
    | SetFormat(channel: int, format: Format)
    | SetMix(channel: int, mix: Mix)
    | FlushDataCache(data: Option<seq<byte>>, size: u32)
    | WaveBufAdd(channel: int, buf: WaveBuf)

  /** A call that configures or feeds a channel names `channel`. */
  predicate OnChannel(c: DspCall, channel: int)
  {
    c.FlushDataCache? || c.channel == channel
  }

  /** The status test at the head of `play_sample`. */
  predicate Accepts(status: WaveStatus)
  {
    status == Done || status == Free
  }

  /** The descriptor `play_sample` builds for a sample and hands to the driver. */
  function Armed(s: SampleState): WaveBuf
  {
    ZERO_WAVE_BUF.(data := s.data, nsamples := s.size / 4, looping := false)
  }

  /**
   * What `ndspChnWaveBufAdd` does to the descriptor before it returns: a
   * buffer with frames is marked QUEUED (and linked into the channel's
   * queue); an empty one is turned away untouched.
   */
  function Enqueue(b: WaveBuf): (r: WaveBuf)
    ensures r == b.(status := r.status)
    ensures r.status == if b.nsamples != 0 then Queued else b.status
  {
    if b.nsamples != 0 then b.(status := Queued) else b
  }

  /** The sample after a trigger. */
  function Played(s: SampleState): (r: SampleState)
    ensures r == s.(waveBuf := r.waveBuf)
  {
    if Accepts(s.waveBuf.status) then s.(waveBuf := Enqueue(Armed(s))) else s
  }

  /** The driver calls a trigger makes. */
  function PlayCalls(s: SampleState, channel: int): (r: seq<DspCall>)
    ensures |r| == if Accepts(s.waveBuf.status) then 6 else 0
  {
    if Accepts(s.waveBuf.status) then
      [SetInterp(channel, InterpLinear), SetRate(channel, Int32(s.sampleRate)), SetFormat(channel, StereoPcm16),
       SetMix(channel, UnityLeftRight), FlushDataCache(s.data, s.size), WaveBufAdd(channel, Armed(s))]
    else
      []
  }

  method PlaySample(sample: AudioSample, channel: int) returns (calls: seq<DspCall>)
    modifies sample
    ensures sample.State() == Played(old(sample.State()))
    ensures calls == PlayCalls(old(sample.State()), channel)
  {
    if sample.waveBuf.status != Done && sample.waveBuf.status != Free {
      return [];
    }
    calls := [SetInterp(channel, InterpLinear), SetRate(channel, Int32(sample.sampleRate)),
              SetFormat(channel, StereoPcm16), SetMix(channel, UnityLeftRight)];
    sample.waveBuf := ZERO_WAVE_BUF;
    sample.waveBuf := sample.waveBuf.(data := sample.data);
    sample.waveBuf := sample.waveBuf.(nsamples := sample.size / 4);
    sample.waveBuf := sample.waveBuf.(looping := false);
    calls := calls + [FlushDataCache(sample.data, sample.size), WaveBufAdd(channel, sample.waveBuf)];
    // The driver's own update of the descriptor it was handed.
    sample.waveBuf := Enqueue(sample.waveBuf);
  }

  /** A queued or playing buffer is left alone: no field changes and no driver call is made. */
  lemma BusyIgnored(s: SampleState, channel: int)
    requires s.waveBuf.status == Queued || s.waveBuf.status == Playing
    ensures Played(s) == s && PlayCalls(s, channel) == []
  {
  }

  /**
   * An accepted trigger: only the descriptor changes; it is zero apart from the
   * data pointer, the frame count `size / 4` (4 bytes per stereo 16-bit frame)
   * and looping off, and it is left QUEUED when it holds a frame. The channel
   * gets linear interpolation, the sample's rate as a signed `int`, stereo
   * PCM16 and the unity left/right mix; the data is flushed; and the
   * descriptor, still FREE, is submitted to that same channel.
   */
  lemma AcceptedTrigger(s: SampleState, channel: int)
    requires Accepts(s.waveBuf.status)
    ensures var p := Played(s); var b := p.waveBuf;
      p == s.(waveBuf := b) &&
      b.data == s.data && !b.looping && b.offset == 0 &&
      4 * b.nsamples <= s.size < 4 * b.nsamples + 4 &&
      b.status == if s.size >= 4 then Queued else Free
    ensures var calls := PlayCalls(s, channel);
      |calls| == 6 &&
      (forall i :: 0 <= i < 6 ==> OnChannel(calls[i], channel)) &&
      calls[0] == SetInterp(channel, InterpLinear) &&
      calls[1] == SetRate(channel, Int32(s.sampleRate)) &&
      calls[2] == SetFormat(channel, StereoPcm16) &&
      calls[3] == SetMix(channel, UnityLeftRight) &&
      calls[4] == FlushDataCache(s.data, s.size) &&
      calls[5] == WaveBufAdd(channel, Played(s).waveBuf.(status := Free))
  {
  }

  /** The channel count read from the file plays no part in a trigger. */
  lemma ChannelCountIgnored(s: SampleState, channels: u32, channel: int)
    ensures Played(s.(channels := channels)) == Played(s).(channels := channels)
    ensures PlayCalls(s.(channels := channels), channel) == PlayCalls(s, channel)
  {
  }

  /**
   * A second trigger right after the first changes nothing more. When the
   * first was accepted and the sample holds at least one frame, the buffer
   * is queued and the second trigger makes no call; a sample of fewer than
   * four bytes gives an empty buffer the driver turns away, so the second
   * trigger repeats the first one's calls.
   */
  lemma PlayTwice(s: SampleState, channel: int)
    ensures Played(Played(s)) == Played(s)
    ensures Accepts(s.waveBuf.status) && s.size >= 4 ==> PlayCalls(Played(s), channel) == []
    ensures s.size < 4 ==> PlayCalls(Played(s), channel) == PlayCalls(s, channel)
  {
  }
}
