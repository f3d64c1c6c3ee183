/**
 * The soundboard's AudioSample and `load_wav`, which reads the fixed 44-byte
 * header layout of a RIFF WAVE file: channel count (16 bits) at offset 22,
 * sample rate (32 bits) at 24, data-chunk size (32 bits) at 40, PCM from 44.
 * No tag, chunk, format or bit depth is checked.
 */
module Sample {
  import opened Bytes
  import opened Options

  /** The NDSP_WBUF_* states of a wave buffer; `Free` (0) is what `memset` leaves. */
  datatype WaveStatus = Free | Queued | Playing | Done

  /**
   * An `ndspWaveBuf` descriptor. `data` is the PCM buffer `data_vaddr`
   * points at (`None` for a null pointer). The ADPCM-data pointer and the
   * driver's queue link are null in every descriptor this program builds;
   * the sequence number the driver assigns is not part of this model.
   */
  datatype WaveBuf = WaveBuf(data: Option<seq<byte>>, nsamples: u32, offset: u32,
                             looping: bool, status: WaveStatus)

  /** A descriptor after `memset(buf, 0, sizeof(ndspWaveBuf))`. */
  const ZERO_WAVE_BUF := WaveBuf(None, 0, 0, false, Free)

  /** The value of every field of an AudioSample. */
  datatype SampleState = SampleState(data: Option<seq<byte>>, size: u32, sampleRate: u32,
                                     channels: u32, waveBuf: WaveBuf)

  /**
   * One decoded sample. `channels` and `sampleRate` are C `int`s and are
   * kept as their 32-bit patterns. `data` holds the bytes `fread` stored in
   * the buffer (`None` when the pointer is null).
   */
  class AudioSample {
    var data: Option<seq<byte>>
    var size: u32
    var sampleRate: u32
    var channels: u32
    var waveBuf: WaveBuf

    /** A sample whose fields hold whatever the memory held before. */
    constructor (s: SampleState)
      ensures State() == s
    {
      data, size, sampleRate, channels, waveBuf := s.data, s.size, s.sampleRate, s.channels, s.waveBuf;
    }

    function State(): SampleState
      reads this
    {
      SampleState(data, size, sampleRate, channels, waveBuf)
    }
  }

  /**
   * What the `fread`s of `load_wav` produce from a file image: the two bytes
   * at 22 over the low half of `channels`, the four at 24 over `sampleRate`,
   * the four at 40 over the local `dataSize` (whose uninitialised value is
   * `staleSize`), and then up to `dataSize` payload bytes from offset 44.
   */
  datatype Header = Header(channels: u32, sampleRate: u32, dataSize: u32, payload: seq<byte>)

  function ReadHeader(file: seq<byte>, priorChannels: u32, priorRate: u32, staleSize: u32): (r: Header)
    ensures |r.payload| <= r.dataSize
    ensures |file| <= 44 ==> r.payload == []
    ensures |file| <= 40 ==> r.dataSize == staleSize
  {
    var dataSize := Patch(staleSize, ReadAt(file, 40, 4));
    Header(Patch(priorChannels, ReadAt(file, 22, 2)), Patch(priorRate, ReadAt(file, 24, 4)),
           dataSize, ReadAt(file, 44, dataSize))
  }

  /**
   * `load_wav`: `file` is the file's contents, `None` when `fopen` fails;
   * `allocOk` says whether `linearAlloc` returns a buffer. The stream
   * position `pos` moves as `fseek` and `fread` move it.
   */
  method LoadWav(file: Option<seq<byte>>, out: AudioSample, allocOk: bool, staleSize: u32)
    returns (ok: bool)
    modifies out
    ensures file.None? ==> !ok && unchanged(out)
    ensures file.Some? ==>
      var h := ReadHeader(file.value, old(out.channels), old(out.sampleRate), staleSize);
      ok == allocOk &&
      out.channels == h.channels && out.sampleRate == h.sampleRate &&
      out.data == (if ok then Some(h.payload) else None) &&
      out.size == (if ok then h.dataSize else old(out.size)) &&
      out.waveBuf == old(out.waveBuf)
  {
    if file.None? {
      return false;
    }
    var f := file.value;
    var pos := 22;
    var got := ReadAt(f, pos, 2);
    pos := pos + |got|;
    out.channels := Patch(out.channels, got);
    ReadContinues(f, 22, 2, 4);
    got := ReadAt(f, pos, 4);
    pos := pos + |got|;
    out.sampleRate := Patch(out.sampleRate, got);
    pos := 40;
    got := ReadAt(f, pos, 4);
    pos := pos + |got|;
    var dataSize := Patch(staleSize, got);
    if !allocOk {
      out.data := None;
      return false;
    }
    ReadContinues(f, 40, 4, dataSize);
    out.data := Some(ReadAt(f, pos, dataSize));
    out.size := dataSize;
    ok := true;
  }

  /** With a full header, the fields come from the fixed offsets 22, 24 and 40. */
  lemma HeaderFields(file: seq<byte>, priorChannels: u32, priorRate: u32, staleSize: u32)
    requires |file| >= 44
    ensures var h := ReadHeader(file, priorChannels, priorRate, staleSize);
      h.channels % 65536 == LE(file[22..24]) &&
      h.channels / 65536 == priorChannels / 65536 &&
      (priorChannels < 65536 ==> h.channels == LE(file[22..24])) &&
      h.sampleRate == LE(file[24..28]) &&
      h.dataSize == LE(file[40..44])
  {
    PatchLow16(priorChannels, file[22..24]);
    PatchFull(priorRate, file[24..28]);
    PatchFull(staleSize, file[40..44]);
  }

  /**
   * The payload is the bytes from offset 44 on, cut at the declared size:
   * verbatim and complete when the file holds `44 + dataSize` bytes, a short
   * prefix otherwise (the short read goes unnoticed).
   */
  lemma Payload(file: seq<byte>, priorChannels: u32, priorRate: u32, staleSize: u32)
    requires |file| >= 44
    ensures var h := ReadHeader(file, priorChannels, priorRate, staleSize);
      h.payload == file[44..Min(44 + h.dataSize, |file|)] &&
      (|file| >= 44 + h.dataSize <==> |h.payload| == h.dataSize) &&
      (|file| >= 44 + h.dataSize ==> h.payload == file[44..44 + h.dataSize])
  {
    HeaderFields(file, priorChannels, priorRate, staleSize);
  }

  /** Two files of equal length that agree on the bytes a read covers give the same read. */
  lemma ReadAtAgree(f1: seq<byte>, f2: seq<byte>, pos: nat, n: nat)
    requires |f1| == |f2|
    requires forall i :: pos <= i < pos + n && i < |f1| ==> f1[i] == f2[i]
    ensures ReadAt(f1, pos, n) == ReadAt(f2, pos, n)
  {
    if pos < |f1| {
      var r1, r2 := ReadAt(f1, pos, n), ReadAt(f2, pos, n);
      assert |r1| == |r2|;
      forall k | 0 <= k < |r1|
        ensures r1[k] == r2[k]
      {
        assert r1[k] == f1[pos + k] && r2[k] == f2[pos + k];
      }
    }
  }

  /**
   * Only bytes 22-27 and 40 onward are read: two files of equal length that
   * agree there load the same, whatever their tags, format chunk, byte rate,
   * block alignment or bit depth, and however short they are.
   */
  lemma OnlyFixedOffsetsRead(f1: seq<byte>, f2: seq<byte>, priorChannels: u32, priorRate: u32, staleSize: u32)
    requires |f1| == |f2|
    requires forall i :: 22 <= i < 28 && i < |f1| ==> f1[i] == f2[i]
    requires forall i :: 40 <= i < |f1| ==> f1[i] == f2[i]
    ensures ReadHeader(f1, priorChannels, priorRate, staleSize) == ReadHeader(f2, priorChannels, priorRate, staleSize)
  {
    ReadAtAgree(f1, f2, 22, 2);
    ReadAtAgree(f1, f2, 24, 4);
    ReadAtAgree(f1, f2, 40, 4);
    ReadAtAgree(f1, f2, 44, Patch(staleSize, ReadAt(f1, 40, 4)));
  }

  // The canonical 44-byte header, as a writer of 16-bit PCM files lays it out.

  function Ascii(s: string): (r: seq<byte>)
    requires forall i :: 0 <= i < |s| ==> s[i] as int < 256
    ensures |r| == |s|
  {
    seq(|s|, i requires 0 <= i < |s| => s[i] as int)
  }

  function U16(x: nat): seq<byte>
    requires x < 65536
  {
    assert Pow256(2) == 65536;
    ToLE(x, 2)
  }

  function U32(x: u32): seq<byte>
  {
    assert Pow256(4) == 0x1_0000_0000;
    ToLE(x, 4)
  }

  /** A canonical stereo-or-mono 16-bit PCM WAVE file holding `payload`. */
  function WavFile(channels: nat, sampleRate: u32, payload: seq<byte>): (r: seq<byte>)
    requires 1 <= channels <= 2 && |payload| < 0x1_0000_0000 - 36
    ensures |r| == 44 + |payload|
  {
    Ascii("RIFF") + U32(36 + |payload|) + Ascii("WAVE") +
    Ascii("fmt ") + U32(16) + U16(1) + U16(channels) + U32(sampleRate) +
    U32((sampleRate * channels * 2) % 0x1_0000_0000) + U16(channels * 2) + U16(16) +
    Ascii("data") + U32(|payload|) + payload
  }

  /**
   * Loading a canonical file gives back its channel count, rate and payload
   * (the channel count exactly when the upper half of `channels` was zero).
   */
  lemma {:induction false} WavFileRoundTrip(channels: nat, sampleRate: u32, payload: seq<byte>,
                                            priorChannels: u32, priorRate: u32, staleSize: u32)
    requires 1 <= channels <= 2 && |payload| < 0x1_0000_0000 - 36
    requires priorChannels < 65536
    ensures ReadHeader(WavFile(channels, sampleRate, payload), priorChannels, priorRate, staleSize)
         == Header(channels, sampleRate, |payload|, payload)
  {
    var f := WavFile(channels, sampleRate, payload);
    assert Pow256(2) == 65536 && Pow256(4) == 0x1_0000_0000;
    assert f[22..24] == U16(channels);
    assert f[24..28] == U32(sampleRate);
    assert f[40..44] == U32(|payload|);
    assert f[44..] == payload;
    LEOfToLE(channels, 2);
    LEOfToLE(sampleRate, 4);
    LEOfToLE(|payload|, 4);
    HeaderFields(f, priorChannels, priorRate, staleSize);
    Payload(f, priorChannels, priorRate, staleSize);
  }
}
