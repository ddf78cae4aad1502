/** list_all_voices.py: the table of eight English Piper voices, downloading
    and testing one voice, the Ryan filter and the numbered selection of the
    interactive menu. */
module ListAllVoices {
  import opened Common
  import opened Downloads
  import opened Synthesis
  import Menu

  datatype PiperVoice = PiperVoice(name: string, url: string, config: string)

  /** `get_all_piper_voices()`: US, UK and Australian English, in this order. */
  function AllPiperVoices(): seq<PiperVoice> {
    [AmyUsMedium, AmyUsLow, RyanUsMedium, RyanUsLow, AmyUkMedium, RyanUkMedium, AmyAuMedium, RyanAuMedium]
  }

  /** A voice named "<speaker> (<variant>)" whose model is `<dir>/<stem>.onnx`
      under the release directory and whose config is the same URL with ".json"
      appended. */
  function HostedVoice(speaker: string, variant: string, dir: string, stem: string): (v: PiperVoice)
    ensures v.config == v.url + ".json"
  {
    var model := stem + ".onnx";
    PiperVoice(speaker + " (" + variant + ")", PiperVoicesBase + dir + "/" + model,
               PiperVoicesBase + dir + "/" + (model + ".json"))
  }

  const AmyUsMedium := HostedVoice("Amy", "US - Medium", "en_US/amy/medium", "en_US-amy-medium")
  const AmyUsLow := HostedVoice("Amy", "US - Low", "en_US/amy/low", "en_US-amy-low")
  const RyanUsMedium := HostedVoice("Ryan", "US - Medium", "en_US/ryan/medium", "en_US-ryan-medium")
  const RyanUsLow := HostedVoice("Ryan", "US - Low", "en_US/ryan/low", "en_US-ryan-low")
  const AmyUkMedium := HostedVoice("Amy", "UK - Medium", "en_GB/amy/medium", "en_GB-amy-medium")
  const RyanUkMedium := HostedVoice("Ryan", "UK - Medium", "en_GB/ryan/medium", "en_GB-ryan-medium")
  const AmyAuMedium := HostedVoice("Amy", "AU - Medium", "en_AU/amy/medium", "en_AU-amy-medium")
  const RyanAuMedium := HostedVoice("Ryan", "AU - Medium", "en_AU/ryan/medium", "en_AU-ryan-medium")

  /** The files `download_voice` saves a hosted voice under are its stem with
      ".onnx" and ".onnx.json". */
  lemma HostedVoiceFiles(speaker: string, variant: string, dir: string, stem: string)
    requires '/' !in stem
    ensures FileNameOf(HostedVoice(speaker, variant, dir, stem).url) == stem + ".onnx"
    ensures FileNameOf(HostedVoice(speaker, variant, dir, stem).config) == stem + ".onnx.json"
  {
    var model := stem + ".onnx";
    assert '/' !in model && '/' !in model + ".json";
    LastSegmentOfJoin(PiperVoicesBase + dir, model);
    LastSegmentOfJoin(PiperVoicesBase + dir, model + ".json");
    assert model + ".json" == stem + ".onnx.json";
  }

  /** The Ryan (US - Medium) entry downloads exactly the model file the
      spiritual assistant and the TTS loading cue speak with. */
  lemma RyanUsMediumModelFile()
    ensures AllPiperVoices()[2] == RyanUsMedium
    ensures FileNameOf(RyanUsMedium.url) == "en_US-ryan-medium.onnx"
    ensures FileNameOf(RyanUsMedium.config) == "en_US-ryan-medium.onnx.json"
  {
    HostedVoiceFiles("Ryan", "US - Medium", "en_US/ryan/medium", "en_US-ryan-medium");
  }

  // ---------------------------------------------------------------------------
  // download_voice(voice)

  /** Model first, then config: a file that exists is skipped, a failed
      download returns False at once (so a failed model download means the
      config is never tried, and leaves an empty model file behind), and True
      is returned when both are in place.
      This is the shared download walk over the two URLs. */
  method DownloadVoice(voice: PiperVoice, fs: set<Path>, reachable: set<string>)
    returns (ok: bool, after: set<Path>, attempted: seq<string>)
    ensures Fetch(ok, after, attempted) == FetchAll([voice.url, voice.config], fs, reachable)
    ensures FileNameOf(voice.url) !in fs && voice.url !in reachable ==>
      !ok && after == fs + {FileNameOf(voice.url)} && attempted == [voice.url]
  {
    var modelName := FileNameOf(voice.url);
    var configName := FileNameOf(voice.config);
    ghost var urls := [voice.url, voice.config];
    assert urls[0] == voice.url && urls[1..] == [voice.config] && [voice.config][1..] == [];
    after, attempted := fs, [];
    if modelName !in after {
      attempted := attempted + [voice.url];
      after := after + {modelName};
      if voice.url !in reachable {
        return false, after, attempted;
      }
    }
    assert FetchAll(urls, fs, reachable) == var t := FetchAll([voice.config], after, reachable);
      Fetch(t.ok, t.after, attempted + t.attempted);
    if configName !in after {
      attempted := attempted + [voice.config];
      after := after + {configName};
      if voice.config !in reachable {
        return false, after, attempted;
      }
    }
    ok := true;
  }

  // ---------------------------------------------------------------------------
  // test_voice(voice)

  const TestTempFile: Path := "temp_voice_test.txt"

  /** Without the model file the test returns False and touches nothing;
      otherwise it is the shared synthesise-and-play step, whose temp input
      and output file are gone afterwards once both tools could be started. */
  method TestVoice(voice: PiperVoice, fs: set<Path>, piperOk: bool, aplayOk: bool)
    returns (ok: bool, after: set<Path>)
    ensures FileNameOf(voice.url) !in fs ==> !ok && after == fs
    ensures FileNameOf(voice.url) in fs ==>
      (ok <==> piperOk && aplayOk) && after == fs - {TestTempFile, TestOutputName(voice.name)}
  {
    var modelName := FileNameOf(voice.url);
    if modelName !in fs {
      return false, fs;
    }
    ok, after := SynthesizeAndPlay(fs, TestTempFile, TestOutputName(voice.name), piperOk, aplayOk);
  }

  // ---------------------------------------------------------------------------
  // main(): the Ryan filter and the numbered selection

  predicate IsRyan(v: PiperVoice) {
    Contains(v.name, "Ryan")
  }

  /** `[v for v in voices if "Ryan" in v["name"]]` */
  function RyanVoices(voices: seq<PiperVoice>): seq<PiperVoice> {
    Filter(voices, IsRyan)
  }

  /** The filter of a two-element list. */
  lemma FilterOfTwo<T>(x: T, y: T, p: T -> bool)
    ensures Filter([x, y], p) == (if p(x) then [x] else []) + (if p(y) then [y] else [])
  {
    FilterSnoc([], p, x);
    assert [] + [x] == [x];
    FilterSnoc([x], p, y);
    assert [x] + [y] == [x, y];
  }

  // "Ryan" occurs exactly in the names whose speaker is Ryan: the variants
  // contain no capital 'R'.

  lemma RyanSpeaker(variant: string, dir: string, stem: string)
    ensures IsRyan(HostedVoice("Ryan", variant, dir, stem))
  {
    var name := HostedVoice("Ryan", variant, dir, stem).name;
    assert name == "Ryan" + (" (" + variant + ")");
    ContainsAt(name, "Ryan", 0);
  }

  lemma AmySpeaker(variant: string, dir: string, stem: string)
    requires 'R' !in variant
    ensures !IsRyan(HostedVoice("Amy", variant, dir, stem))
  {
    var name := HostedVoice("Amy", variant, dir, stem).name;
    assert name == "Amy" + " (" + variant + ")";
    NotContainsFirstChar(name, "Ryan");
  }

  lemma RyanOfAmyUs()
    ensures RyanVoices([AmyUsMedium, AmyUsLow]) == []
  {
    AmySpeaker("US - Medium", "en_US/amy/medium", "en_US-amy-medium");
    AmySpeaker("US - Low", "en_US/amy/low", "en_US-amy-low");
    FilterOfTwo(AmyUsMedium, AmyUsLow, IsRyan);
  }

  lemma RyanOfRyanUs()
    ensures RyanVoices([RyanUsMedium, RyanUsLow]) == [RyanUsMedium, RyanUsLow]
  {
    RyanSpeaker("US - Medium", "en_US/ryan/medium", "en_US-ryan-medium");
    RyanSpeaker("US - Low", "en_US/ryan/low", "en_US-ryan-low");
    FilterOfTwo(RyanUsMedium, RyanUsLow, IsRyan);
  }

  lemma RyanOfUk()
    ensures RyanVoices([AmyUkMedium, RyanUkMedium]) == [RyanUkMedium]
  {
    AmySpeaker("UK - Medium", "en_GB/amy/medium", "en_GB-amy-medium");
    RyanSpeaker("UK - Medium", "en_GB/ryan/medium", "en_GB-ryan-medium");
    FilterOfTwo(AmyUkMedium, RyanUkMedium, IsRyan);
  }

  lemma RyanOfAu()
    ensures RyanVoices([AmyAuMedium, RyanAuMedium]) == [RyanAuMedium]
  {
    AmySpeaker("AU - Medium", "en_AU/amy/medium", "en_AU-amy-medium");
    RyanSpeaker("AU - Medium", "en_AU/ryan/medium", "en_AU-ryan-medium");
    FilterOfTwo(AmyAuMedium, RyanAuMedium, IsRyan);
  }

  lemma RyanOfUs()
    ensures RyanVoices([AmyUsMedium, AmyUsLow] + [RyanUsMedium, RyanUsLow]) == [RyanUsMedium, RyanUsLow]
  {
    RyanOfAmyUs();
    RyanOfRyanUs();
    FilterAppend([AmyUsMedium, AmyUsLow], [RyanUsMedium, RyanUsLow], IsRyan);
  }

  lemma RyanOfUkAu()
    ensures RyanVoices([AmyUkMedium, RyanUkMedium] + [AmyAuMedium, RyanAuMedium]) == [RyanUkMedium, RyanAuMedium]
  {
    RyanOfUk();
    RyanOfAu();
    FilterAppend([AmyUkMedium, RyanUkMedium], [AmyAuMedium, RyanAuMedium], IsRyan);
  }

  /** Of the eight voices, the four named Ryan, in table order. */
  lemma RyanVoicesOfAll()
    ensures RyanVoices(AllPiperVoices()) == [RyanUsMedium, RyanUsLow, RyanUkMedium, RyanAuMedium]
  {
    var us := [AmyUsMedium, AmyUsLow] + [RyanUsMedium, RyanUsLow];
    var rest := [AmyUkMedium, RyanUkMedium] + [AmyAuMedium, RyanAuMedium];
    RyanOfUs();
    RyanOfUkAu();
    FilterAppend(us, rest, IsRyan);
    EightInPairs(AmyUsMedium, AmyUsLow, RyanUsMedium, RyanUsLow, AmyUkMedium, RyanUkMedium, AmyAuMedium, RyanAuMedium);
  }

  lemma EightInPairs<T>(a: T, b: T, c: T, d: T, e: T, f: T, g: T, h: T)
    ensures [a, b, c, d, e, f, g, h] == ([a, b] + [c, d]) + ([e, f] + [g, h])
  {
  }

  /** `voices[int(voice_num) - 1]` on the eight voices: any number from -7 to
      8 is accepted (0 and the negatives by Python's negative subscripts),
      everything else prints "Invalid choice!". */
  lemma SelectionRange(answer: string)
    ensures Menu.Choose(AllPiperVoices(), answer).Some? <==>
      Menu.ParseInt(answer).Some? && -7 <= Menu.ParseInt(answer).value <= 8
  {
    Menu.ChooseAccepts(AllPiperVoices(), answer);
  }
}
