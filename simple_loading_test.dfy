/** simple_loading_test.py: the one-second 800 Hz beep written as signed
    16-bit little-endian samples (aplay's S16_LE format) and played through
    aplay.

    The sine itself is floating point: `wave(i)` stands for
    `int(32767 * math.sin(2 * math.pi * 800 * i / 22050))`, and aplay is an
    oracle boolean. */
module SimpleLoadingTest {

  newtype byte = x: int | 0 <= x < 256

  const SampleRate: nat := 22050

  /** `int(sample_rate * duration)` with a duration of exactly one second. */
  const SampleCount: nat := SampleRate * 1

  /** `sample & 0xFF`: Python's `&` on a negative int works on its two's
      complement, which is the remainder modulo 256. */
  function Lo(sample: int): byte {
    (sample % 256) as byte
  }

  /** `(sample >> 8) & 0xFF`: the shift rounds towards minus infinity, as
      Dafny's division by a positive number does. */
  function Hi(sample: int): byte {
    ((sample / 256) % 256) as byte
  }

  /** The byte list the loop extends: low byte, then high byte, per sample. */
  function Encode(samples: seq<int>): seq<byte>
    decreases |samples|
  {
    if samples == [] then []
    else
      var s := samples[|samples| - 1];
      Encode(samples[..|samples| - 1]) + [Lo(s), Hi(s)]
  }

  /** How aplay reads two bytes in S16_LE. */
  function DecodeSample(lo: byte, hi: byte): int {
    var v := lo as int + 256 * hi as int;
    if v >= 32768 then v - 65536 else v
  }

  /** S16_LE decoding of a whole buffer. */
  function Decode(bytes: seq<byte>): seq<int>
    requires |bytes| % 2 == 0
    decreases |bytes|
  {
    if bytes == [] then []
    else Decode(bytes[..|bytes| - 2]) + [DecodeSample(bytes[|bytes| - 2], bytes[|bytes| - 1])]
  }

  predicate IsSample(s: int) {
    -32768 <= s <= 32767
  }

  /** Every 16-bit sample survives the two-byte encoding. */
  lemma SampleRoundTrip(s: int)
    requires IsSample(s)
    ensures DecodeSample(Lo(s), Hi(s)) == s
  {
    var q, r := s / 256, s % 256;
    assert s == 256 * q + r;
    assert -128 <= q < 128;
    if q >= 0 {
      assert Hi(s) as int == q;
    } else {
      assert Hi(s) as int == q + 256;
    }
  }

  /** Two bytes per sample, and aplay reads back exactly the samples written. */
  lemma {:induction false} EncodeSpec(samples: seq<int>)
    ensures |Encode(samples)| == 2 * |samples|
    ensures (forall i :: 0 <= i < |samples| ==> IsSample(samples[i])) ==> Decode(Encode(samples)) == samples
    decreases |samples|
  {
    if samples != [] {
      var init, s := samples[..|samples| - 1], samples[|samples| - 1];
      EncodeSpec(init);
      var bytes := Encode(samples);
      assert bytes[..|bytes| - 2] == Encode(init);
      if forall i :: 0 <= i < |samples| ==> IsSample(samples[i]) {
        assert forall i :: 0 <= i < |init| ==> init[i] == samples[i];
        SampleRoundTrip(s);
      }
    }
  }

  /** The sample-generating loop of `play_loading_sound`. */
  method GenerateBeep(wave: nat -> int) returns (audio: seq<byte>)
    ensures audio == Encode(seq(SampleCount, i requires 0 <= i < SampleCount => wave(i)))
  {
    ghost var samples: seq<int> := [];
    audio := [];
    for i := 0 to SampleCount
      invariant samples == seq(i, k requires 0 <= k < i => wave(k))
      invariant audio == Encode(samples)
    {
      var sample := wave(i);
      assert (samples + [sample])[..|samples|] == samples;
      audio := audio + [Lo(sample), Hi(sample)];
      samples := samples + [sample];
    }
  }

  /** `play_loading_sound`: the beep is 44100 bytes, and a wave that stays
      in 16-bit range is what aplay plays back; the result says whether
      aplay succeeded. */
  method PlayLoadingSound(wave: nat -> int, aplayOk: bool) returns (played: bool, audio: seq<byte>)
    ensures |audio| == 2 * SampleCount == 44100
    ensures (forall i :: 0 <= i < SampleCount ==> IsSample(wave(i))) ==>
      Decode(audio) == seq(SampleCount, i requires 0 <= i < SampleCount => wave(i))
    ensures played == aplayOk
  {
    audio := GenerateBeep(wave);
    EncodeSpec(seq(SampleCount, i requires 0 <= i < SampleCount => wave(i)));
    played := aplayOk;
  }
}
