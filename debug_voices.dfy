/** debug_voices.py: which of the six voice files exist, testing one voice
    after checking its model and config, and the main pass that tests every
    voice whose model is present.

    piper succeeds on the models in `renders`, aplay on the output files in
    `plays`; the shared synthesise-and-play step does the file handling. */
module DebugVoices {
  import opened Common
  import opened Synthesis

  // ---------------------------------------------------------------------------
  // check_voice_files()

  /** The six files the script looks for, model then config for each voice. */
  function VoiceFiles(): seq<Path> {
    ["en_US-amy-medium.onnx", "en_US-amy-medium.onnx.json",
     "en_US-ryan-medium.onnx", "en_US-ryan-medium.onnx.json",
     "en_US-ryan-low.onnx", "en_US-ryan-low.onnx.json"]
  }

  /** The listed files that exist, in list order. */
  function Existing(files: seq<Path>, fs: set<Path>): seq<Path> {
    Filter(files, f => f in fs)
  }

  /** The loop that appends each listed file that exists. */
  method CheckVoiceFiles(files: seq<Path>, fs: set<Path>) returns (existing: seq<Path>)
    ensures existing == Existing(files, fs)
  {
    existing := [];
    for i := 0 to |files|
      invariant existing == Existing(files[..i], fs)
    {
      assert files[..i + 1] == files[..i] + [files[i]];
      FilterSnoc(files[..i], f => f in fs, files[i]);
      if files[i] in fs {
        existing := existing + [files[i]];
      }
    }
    assert files[..|files|] == files;
  }

  /** The existing files are exactly the listed files that exist, kept in list
      order. */
  lemma ExistingSpec(files: seq<Path>, fs: set<Path>)
    ensures IsSubsequence(Existing(files, fs), files)
    ensures forall f :: f in Existing(files, fs) <==> f in files && f in fs
  {
    FilterIsSubsequence(files, f => f in fs);
    forall f | f in files && f in fs
      ensures f in Existing(files, fs)
    {
      FilterKeepsAll(files, f => f in fs, f);
    }
  }

  // ---------------------------------------------------------------------------
  // test_single_voice(model_file, voice_name)

  const DebugTempFile: Path := "temp_debug.txt"

  /** `f"debug_{voice_name.replace(' ', '_')}.wav"`: unlike the other scripts,
      parentheses are kept. */
  function DebugOutputName(voiceName: string): Path {
    "debug_" + ReplaceChar(voiceName, ' ', '_') + ".wav"
  }

  /** The debug output name has no spaces, keeps every other character of the
      voice name, and lies among the debug scratch files. */
  lemma DebugOutputNameSpec(voiceName: string)
    ensures ' ' !in DebugOutputName(voiceName)
    ensures forall c :: c != ' ' && c in voiceName ==> c in DebugOutputName(voiceName)
    ensures Scratch(DebugOutputName(voiceName))
  {
    var out := DebugOutputName(voiceName);
    var middle := ReplaceChar(voiceName, ' ', '_');
    assert out == "debug_" + middle + ".wav";
    assert ' ' !in middle;
    forall c | c != ' ' && c in voiceName
      ensures c in out
    {
      var i :| 0 <= i < |voiceName| && voiceName[i] == c;
      assert out[6 + i] == middle[i] == c;
    }
  }

  /** The files a debug test may create and remove. */
  predicate Scratch(p: Path) {
    p == DebugTempFile || (|p| >= 6 && p[..6] == "debug_")
  }

  /** Which check stopped a test, or that it ran and whether it passed. */
  datatype DebugOutcome = ModelMissing | ConfigMissing | Ran(ok: bool)

  /** The model is checked first, then `model + ".json"`; only when both
      exist does the synthesise-and-play step run. */
  function SingleVoiceTest(model: Path, voiceName: string, fs: set<Path>, piperOk: bool, aplayOk: bool)
    : (DebugOutcome, set<Path>)
  {
    if model !in fs then (ModelMissing, fs)
    else if model + ".json" !in fs then (ConfigMissing, fs)
    else (Ran(piperOk && aplayOk), fs - {DebugTempFile, DebugOutputName(voiceName)})
  }

  method TestSingleVoice(model: Path, voiceName: string, fs: set<Path>, piperOk: bool, aplayOk: bool)
    returns (outcome: DebugOutcome, after: set<Path>)
    ensures (outcome, after) == SingleVoiceTest(model, voiceName, fs, piperOk, aplayOk)
    ensures outcome != Ran(true) <==> !(model in fs && model + ".json" in fs && piperOk && aplayOk)
    ensures forall p :: !Scratch(p) ==> (p in after <==> p in fs)
  {
    if model !in fs {
      return ModelMissing, fs;
    }
    var config := model + ".json";
    if config !in fs {
      return ConfigMissing, fs;
    }
    var ok;
    ok, after := SynthesizeAndPlay(fs, DebugTempFile, DebugOutputName(voiceName), piperOk, aplayOk);
    DebugOutputNameSpec(voiceName);
    outcome := Ran(ok);
  }

  // ---------------------------------------------------------------------------
  // main()

  /** The voices the main pass tries: model file and display name. */
  function VoicesToTest(): seq<(Path, string)> {
    [("en_US-amy-medium.onnx", "Amy (Medium)"),
     ("en_US-ryan-medium.onnx", "Ryan (Medium)"),
     ("en_US-ryan-low.onnx", "Ryan (Low)")]
  }

  /** One entry per voice: `None` when its model was absent and the voice
      was skipped; and the filesystem after the pass. */
  datatype DebugLog = DebugLog(outcomes: seq<Option<DebugOutcome>>, after: set<Path>)

  function DebugPass(voices: seq<(Path, string)>, fs: set<Path>, renders: set<Path>, plays: set<Path>): DebugLog
    decreases |voices|
  {
    if voices == [] then DebugLog([], fs)
    else
      var prev := DebugPass(voices[..|voices| - 1], fs, renders, plays);
      var (model, name) := voices[|voices| - 1];
      if model !in prev.after then DebugLog(prev.outcomes + [None], prev.after)
      else
        var (o, after) := SingleVoiceTest(model, name, prev.after, model in renders, DebugOutputName(name) in plays);
        DebugLog(prev.outcomes + [Some(o)], after)
  }

  /** The main pass stopped at the guard, or ran. */
  datatype DebugRun = NoFiles | Tested(log: DebugLog)

  method DebugMain(fs: set<Path>, renders: set<Path>, plays: set<Path>) returns (run: DebugRun)
    ensures Existing(VoiceFiles(), fs) == [] ==> run == NoFiles
    ensures Existing(VoiceFiles(), fs) != [] ==> run == Tested(DebugPass(VoicesToTest(), fs, renders, plays))
  {
    var existing := CheckVoiceFiles(VoiceFiles(), fs);
    if existing == [] {
      return NoFiles;
    }
    var log := RunDebugPass(VoicesToTest(), fs, renders, plays);
    run := Tested(log);
  }

  /** The `for model_file, voice_name in voices_to_test` loop. */
  method RunDebugPass(voices: seq<(Path, string)>, fs: set<Path>, renders: set<Path>, plays: set<Path>)
    returns (log: DebugLog)
    ensures log == DebugPass(voices, fs, renders, plays)
  {
    var outcomes: seq<Option<DebugOutcome>> := [];
    var after := fs;
    for i := 0 to |voices|
      invariant DebugLog(outcomes, after) == DebugPass(voices[..i], fs, renders, plays)
    {
      assert voices[..i + 1][..i] == voices[..i];
      var (model, name) := voices[i];
      if model in after {
        var o;
        o, after := TestSingleVoice(model, name, after, model in renders, DebugOutputName(name) in plays);
        outcomes := outcomes + [Some(o)];
      } else {
        outcomes := outcomes + [None];
      }
    }
    assert voices[..|voices|] == voices;
    log := DebugLog(outcomes, after);
  }

  /** The pass only removes scratch files, so when no model is a scratch file
      a voice is tested exactly when its model existed before the pass. */
  lemma {:induction false} DebugPassTestsPresent(voices: seq<(Path, string)>, fs: set<Path>, renders: set<Path>, plays: set<Path>)
    requires forall k :: 0 <= k < |voices| ==> !Scratch(voices[k].0)
    ensures var log := DebugPass(voices, fs, renders, plays);
      |log.outcomes| == |voices| &&
      (forall p :: !Scratch(p) ==> (p in log.after <==> p in fs)) &&
      forall k :: 0 <= k < |voices| ==> (log.outcomes[k].Some? <==> voices[k].0 in fs)
    decreases |voices|
  {
    if voices != [] {
      var init := voices[..|voices| - 1];
      var prev := DebugPass(init, fs, renders, plays);
      var log := DebugPass(voices, fs, renders, plays);
      var (model, name) := voices[|voices| - 1];
      DebugPassTestsPresent(init, fs, renders, plays);
      DebugOutputNameSpec(name);
      assert forall p :: !Scratch(p) ==> (p in log.after <==> p in prev.after);
      forall k | 0 <= k < |voices|
        ensures log.outcomes[k].Some? <==> voices[k].0 in fs
      {
        if k < |voices| - 1 {
          assert log.outcomes[k] == prev.outcomes[k] && init[k] == voices[k];
        }
      }
    }
  }

  /** None of the three models is a scratch file, so the main pass tests
      exactly the voices whose model exists. */
  lemma VoicesToTestArePersistent(fs: set<Path>, renders: set<Path>, plays: set<Path>)
    ensures forall k :: 0 <= k < |VoicesToTest()| ==> !Scratch(VoicesToTest()[k].0)
    ensures var log := DebugPass(VoicesToTest(), fs, renders, plays);
      |log.outcomes| == 3 &&
      forall k :: 0 <= k < 3 ==> (log.outcomes[k].Some? <==> VoicesToTest()[k].0 in fs)
  {
    assert forall k :: 0 <= k < |VoicesToTest()| ==> VoicesToTest()[k].0[0] == 'e';
    DebugPassTestsPresent(VoicesToTest(), fs, renders, plays);
  }
}
