/** BeepPlayer.kt: the size and fade-out envelope of the beep's samples, and the
    player's discipline of holding at most one live AudioTrack. */
module BeepAudio {

  const SampleRate: nat := 44100
  const DurationMs: nat := 300

  /** `numSamples = (durationMs * sampleRate) / 1000`. */
  function SampleCount(durationMs: nat, sampleRate: nat): nat {
    (durationMs * sampleRate) / 1000
  }

  /** `fadeOutSamples = (0.2 * numSamples).toInt()`: the number of trailing
      samples that fade out, a fifth of them rounded down. */
  function FadeOutCount(numSamples: nat): (r: nat)
    ensures r == numSamples / 5
  {
    var q := numSamples / 5;
    assert 0.2 * numSamples as real == q as real + (numSamples % 5) as real / 5.0;
    (0.2 * numSamples as real).Floor
  }

  /** The beep lasts 13230 samples, of which the last 2646 fade out. */
  lemma BeepSizes()
    ensures SampleCount(DurationMs, SampleRate) == 13230
    ensures FadeOutCount(SampleCount(DurationMs, SampleRate)) == 2646
  {
  }

  /** The gain applied to sample `i` of `numSamples`: 1 before the fade-out,
      and `(numSamples - i) / fadeOutSamples` in the last `fadeOutSamples`
      samples. */
  function Amplitude(numSamples: nat, fadeOutSamples: nat, i: nat): (a: real)
    requires i < numSamples
    ensures 0.0 < a <= 1.0
    ensures i < numSamples - fadeOutSamples ==> a == 1.0
  {
    if i >= numSamples - fadeOutSamples then
      (numSamples - i) as real / fadeOutSamples as real
    else
      1.0
  }

  /** The fade-out starts at full gain. */
  lemma FadeStartsAtFullGain(numSamples: nat, fadeOutSamples: nat)
    requires 0 < fadeOutSamples <= numSamples
    ensures Amplitude(numSamples, fadeOutSamples, numSamples - fadeOutSamples) == 1.0
  {
  }

  /** Within the fade-out, each sample is quieter than the one before it, down
      to `1 / fadeOutSamples` for the last one. */
  lemma FadeStrictlyDecreasing(numSamples: nat, fadeOutSamples: nat, i: nat, j: nat)
    requires numSamples - fadeOutSamples <= i < j < numSamples
    ensures Amplitude(numSamples, fadeOutSamples, j) < Amplitude(numSamples, fadeOutSamples, i)
    ensures Amplitude(numSamples, fadeOutSamples, numSamples - 1) == 1.0 / fadeOutSamples as real
  {
    var f := fadeOutSamples as real;
    assert f > 0.0;
    assert (numSamples - j) as real < (numSamples - i) as real;
    DivideMonotonic((numSamples - j) as real, (numSamples - i) as real, f);
  }

  lemma DivideMonotonic(x: real, y: real, d: real)
    requires x < y && d > 0.0
    ensures x / d < y / d
  {
    assert y / d - x / d == (y - x) / d;
  }

  // ---------------------------------------------------------------------------
  // The samples

  /** Kotlin's `Short`. */
  newtype Short = s: int | -32768 <= s < 32768

  /** `Short.MAX_VALUE`. */
  const ShortMax: real := 32767.0

  /** `Double.toInt()` on a value within `Int`'s range: rounds toward zero. */
  function TruncateToInt(x: real): (r: int)
    ensures 0.0 <= x ==> 0 <= r && r as real <= x < r as real + 1.0
    ensures x < 0.0 ==> r <= 0 && r as real - 1.0 < x <= r as real
  {
    if x >= 0.0 then x.Floor else -((-x).Floor)
  }

  /** `Int.toShort()`: keeps the low 16 bits as a two's-complement value. */
  function ToShort(v: int): (r: Short)
    ensures (r as int - v) % 65536 == 0
    ensures -32768 <= v < 32768 ==> r as int == v
  {
    ((v + 32768) % 65536 - 32768) as Short
  }

  /** Sample `i` of the beep: `(Short.MAX_VALUE * amplitude * tone).toInt().toShort()`,
      where `tone` is the value of the 1000 Hz sine at that sample. */
  function Sample(numSamples: nat, fadeOutSamples: nat, tone: real, i: nat): Short
    requires i < numSamples
  {
    ToShort(TruncateToInt(ShortMax * Amplitude(numSamples, fadeOutSamples, i) * tone))
  }

  /** With the sine between -1 and 1 the scaled sample fits in a `Short`, so
      `toShort` never wraps around and the sample is the truncated product. */
  lemma SampleNeverWraps(numSamples: nat, fadeOutSamples: nat, tone: real, i: nat)
    requires i < numSamples && -1.0 <= tone <= 1.0
    ensures Sample(numSamples, fadeOutSamples, tone, i) as int
            == TruncateToInt(ShortMax * Amplitude(numSamples, fadeOutSamples, i) * tone)
    ensures -32767 <= Sample(numSamples, fadeOutSamples, tone, i) as int <= 32767
  {
    var a := Amplitude(numSamples, fadeOutSamples, i);
    var scaled := ShortMax * a;
    assert 0.0 < scaled <= ShortMax;
    if tone >= 0.0 {
      assert scaled * tone <= scaled * 1.0;
    } else {
      assert scaled * (-tone) <= scaled * 1.0;
    }
    assert -ShortMax <= ShortMax * a * tone <= ShortMax;
  }

  /** All the samples `playBeep` computes, given the sine value at each. */
  function Samples(numSamples: nat, fadeOutSamples: nat, tone: nat -> real): (r: seq<Short>)
    ensures |r| == numSamples
  {
    seq(numSamples, i requires 0 <= i < numSamples => Sample(numSamples, fadeOutSamples, tone(i), i))
  }

  /** The `for (i in samples.indices)` loop of `playBeep`: every index of a new
      array of `numSamples` shorts is written with its sample. */
  method FillSamples(numSamples: nat, fadeOutSamples: nat, tone: nat -> real) returns (samples: array<Short>)
    ensures samples.Length == numSamples
    ensures samples[..] == Samples(numSamples, fadeOutSamples, tone)
  {
    samples := new Short[numSamples];
    var i := 0;
    while i < numSamples
      invariant i <= numSamples
      invariant forall k :: 0 <= k < i ==> samples[k] == Sample(numSamples, fadeOutSamples, tone(k), k)
    {
      samples[i] := Sample(numSamples, fadeOutSamples, tone(i), i);
      i := i + 1;
    }
  }

  /** The samples before the fade-out are at full scale and the fade-out ones
      are scaled by the envelope; none of them wraps around. */
  lemma SamplesAt(numSamples: nat, fadeOutSamples: nat, tone: nat -> real, i: nat)
    requires i < numSamples && -1.0 <= tone(i) <= 1.0
    ensures i < numSamples - fadeOutSamples ==>
      Samples(numSamples, fadeOutSamples, tone)[i] as int == TruncateToInt(ShortMax * tone(i))
    ensures i >= numSamples - fadeOutSamples ==>
      Samples(numSamples, fadeOutSamples, tone)[i] as int
      == TruncateToInt(ShortMax * ((numSamples - i) as real / fadeOutSamples as real) * tone(i))
  {
    SampleNeverWraps(numSamples, fadeOutSamples, tone(i), i);
  }

  // ---------------------------------------------------------------------------
  // The audio track

  datatype StreamType = StreamMusic | StreamAlarm | StreamNotification
  datatype ChannelConfig = ChannelOutMono | ChannelOutStereo
  datatype Encoding = Pcm8Bit | Pcm16Bit | PcmFloat
  datatype TrackMode = Static | Stream

  /** The arguments an AudioTrack is constructed with. */
  datatype TrackConfig = TrackConfig(
    streamType: StreamType,
    sampleRate: nat,
    channels: ChannelConfig,
    encoding: Encoding,
    bufferSizeInBytes: nat,
    mode: TrackMode)

  /** The track `playBeep` creates: music stream, 44100 Hz, mono, 16-bit PCM,
      static mode, with two bytes of buffer per sample. */
  function BeepTrackConfig(): (c: TrackConfig)
    ensures c.bufferSizeInBytes == 2 * 13230
    ensures c.sampleRate == 44100 && c.channels == ChannelOutMono && c.encoding == Pcm16Bit
  {
    var numSamples := SampleCount(DurationMs, SampleRate);
    TrackConfig(StreamMusic, SampleRate, ChannelOutMono, Pcm16Bit, numSamples * 2, Static)
  }

  datatype TrackState = Initialized | Playing | Stopped | Released

  /** `android.media.AudioTrack`: its configuration, the samples written to it
      and its state. Playback itself is the platform's. */
  class AudioTrack {
    const config: TrackConfig
    var data: seq<Short>
    var state: TrackState

    constructor (config: TrackConfig)
      ensures this.config == config && data == [] && state == Initialized
    {
      this.config := config;
      data := [];
      state := Initialized;
    }

    /** `write(audioData, offsetInShorts, sizeInShorts)`. */
    method Write(audioData: array<Short>, offset: nat, size: nat)
      requires state != Released && offset + size <= audioData.Length
      modifies this
      ensures data == old(data) + audioData[offset .. offset + size]
      ensures state == old(state)
    {
      data := data + audioData[offset .. offset + size];
    }

    /** The platform refuses to play a released track. */
    method Play()
      requires state != Released
      modifies this
      ensures state == Playing && data == old(data)
    {
      state := Playing;
    }

    /** The platform refuses to stop a released track. */
    method Stop()
      requires state != Released
      modifies this
      ensures state == Stopped && data == old(data)
    {
      state := Stopped;
    }

    method Release()
      modifies this
      ensures state == Released && data == old(data)
    {
      state := Released;
    }
  }

  // ---------------------------------------------------------------------------
  // The player

  /** `BeepPlayer`: holds the track of the latest beep, or none. */
  class BeepPlayer {
    var audioTrack: AudioTrack?
    /** Every track this player has created, oldest first. */
    ghost var tracks: seq<AudioTrack>
    /** The 1000 Hz sine the source computes with `Math.sin` at each sample
        index, given as values. */
    const tone: nat -> real

    /** The held track is the newest one and is not released; every other
        track the player created has been released. */
    ghost predicate Valid()
      reads this, tracks
    {
      && (audioTrack != null ==> |tracks| > 0 && audioTrack == tracks[|tracks| - 1] && audioTrack.state != Released)
      && (forall k :: 0 <= k < |tracks| && tracks[k] != audioTrack ==> tracks[k].state == Released)
    }

    /** The tracks that have not been released. */
    ghost function LiveTracks(): set<AudioTrack>
      reads this, tracks
    {
      set k | 0 <= k < |tracks| && tracks[k].state != Released :: tracks[k]
    }

    constructor (tone: nat -> real)
      ensures Valid() && audioTrack == null && tracks == [] && this.tone == tone
    {
      audioTrack := null;
      tracks := [];
      this.tone := tone;
    }

    /** At most one track is live at any time: the held one, if any. */
    lemma AtMostOneLive()
      requires Valid()
      ensures LiveTracks() == if audioTrack == null then {} else {audioTrack}
      ensures |LiveTracks()| <= 1
    {
      if audioTrack != null {
        assert tracks[|tracks| - 1] in LiveTracks();
      }
    }

    /** `stopBeep`: stops and releases the held track, if any, and drops it.
        Without a track it changes nothing, so a second call is harmless. */
    method StopBeep()
      requires Valid()
      modifies this, audioTrack
      ensures Valid() && audioTrack == null && tracks == old(tracks)
      ensures old(audioTrack) != null ==> old(audioTrack).state == Released
      ensures old(audioTrack) == null ==> unchanged(this)
    {
      if audioTrack != null {
        audioTrack.Stop();
        audioTrack.Release();
      }
      audioTrack := null;
    }

    /** `playBeep`: stops the previous beep, then fills the samples, creates a
        static track for them, writes all of them and starts it. */
    method PlayBeep()
      requires Valid()
      modifies this, audioTrack
      ensures Valid()
      ensures old(audioTrack) != null ==> old(audioTrack).state == Released
      ensures audioTrack != null && fresh(audioTrack) && tracks == old(tracks) + [audioTrack]
      ensures audioTrack.config == BeepTrackConfig() && audioTrack.state == Playing
      ensures audioTrack.data == Samples(13230, 2646, tone)
    {
      StopBeep();
      var numSamples := SampleCount(DurationMs, SampleRate);
      var fadeOutSamples := FadeOutCount(numSamples);
      var samples := FillSamples(numSamples, fadeOutSamples, tone);
      var track := new AudioTrack(TrackConfig(StreamMusic, SampleRate, ChannelOutMono, Pcm16Bit, numSamples * 2, Static));
      audioTrack := track;
      tracks := tracks + [track];
      track.Write(samples, 0, numSamples);
      track.Play();
    }
  }
}
