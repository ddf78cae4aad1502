/** Voice_output_test.py: the three voices known to work, downloading one
    voice by walking its URL list, testing it, the Ryan filter and the
    numbered selection. */
module VoiceOutputTest {
  import opened Common
  import opened Downloads
  import opened Synthesis
  import Menu

  const AmyUsMedium := HostedEntry("Amy (US - Medium)", "en_US/amy/medium", "en_US-amy-medium")
  const RyanUsMedium := HostedEntry("Ryan (US - Medium)", "en_US/ryan/medium", "en_US-ryan-medium")
  const RyanUsLow := HostedEntry("Ryan (US - Low)", "en_US/ryan/low", "en_US-ryan-low")

  /** `get_verified_voices()` */
  function VerifiedVoices(): seq<VoiceEntry> {
    [AmyUsMedium, RyanUsMedium, RyanUsLow]
  }

  /** There are three verified voices, and each one's URLs end in the model and
      config file names it declares, so downloading a voice produces exactly
      the files `test_voice` looks for. */
  lemma VerifiedVoicesConsistent()
    ensures |VerifiedVoices()| == 3
    ensures forall v :: v in VerifiedVoices() ==> Consistent(v)
  {
    HostedEntryConsistent("Amy (US - Medium)", "en_US/amy/medium", "en_US-amy-medium");
    HostedEntryConsistent("Ryan (US - Medium)", "en_US/ryan/medium", "en_US-ryan-medium");
    HostedEntryConsistent("Ryan (US - Low)", "en_US/ryan/low", "en_US-ryan-low");
  }

  // ---------------------------------------------------------------------------
  // download_voice(voice)

  /** The loop over `voice['urls']`: a file that exists is skipped, the first
      failed download returns False, and reaching the end returns True. */
  method DownloadVoice(voice: VoiceEntry, fs: set<Path>, reachable: set<string>)
    returns (ok: bool, after: set<Path>, attempted: seq<string>)
    ensures Fetch(ok, after, attempted) == FetchAll(voice.urls, fs, reachable)
  {
    after, attempted := fs, [];
    for i := 0 to |voice.urls|
      invariant FetchAll(voice.urls, fs, reachable) ==
        var t := FetchAll(voice.urls[i..], after, reachable); Fetch(t.ok, t.after, attempted + t.attempted)
    {
      var url := voice.urls[i];
      var filename := FileNameOf(url);
      FetchAllStep(voice.urls, i, after, reachable);
      if filename !in after {
        ghost var before, tried := after, attempted;
        ghost var rest := FetchAll(voice.urls[i + 1..], after + {filename}, reachable);
        attempted := attempted + [url];
        after := after + {filename};
        if url !in reachable {
          assert FetchAll(voice.urls[i..], before, reachable) == Fetch(false, after, [url]);
          return false, after, attempted;
        }
        assert tried + ([url] + rest.attempted) == attempted + rest.attempted;
      }
    }
    assert voice.urls[|voice.urls|..] == [];
    assert attempted + [] == attempted;
    ok := true;
  }

  /** On a consistent voice whose two files have different names, the download
      succeeds exactly when each of the two files exists or can be fetched, and
      afterwards both files are in place. */
  lemma DownloadVoiceOutcome(voice: VoiceEntry, fs: set<Path>, reachable: set<string>)
    requires Consistent(voice) && voice.model != voice.config
    ensures var r := FetchAll(voice.urls, fs, reachable);
      (r.ok <==> (voice.model in fs || voice.urls[0] in reachable) && (voice.config in fs || voice.urls[1] in reachable))
      && (r.ok ==> voice.model in r.after && voice.config in r.after)
  {
    assert DistinctNames(voice.urls);
    FetchAllOkIff(voice.urls, fs, reachable);
    FetchAllFiles(voice.urls, fs, reachable);
  }

  // ---------------------------------------------------------------------------
  // test_voice(voice)

  const SpiritualTempFile: Path := "temp_spiritual.txt"

  /** Without the declared model file the test returns False and touches
      nothing; otherwise the shared synthesise-and-play step runs on
      `temp_spiritual.txt` and the sanitised output name. */
  method TestVoice(voice: VoiceEntry, fs: set<Path>, piperOk: bool, aplayOk: bool)
    returns (ok: bool, after: set<Path>)
    ensures voice.model !in fs ==> !ok && after == fs
    ensures voice.model in fs ==>
      (ok <==> piperOk && aplayOk) && after == fs - {SpiritualTempFile, TestOutputName(voice.name)}
  {
    if voice.model !in fs {
      return false, fs;
    }
    ok, after := SynthesizeAndPlay(fs, SpiritualTempFile, TestOutputName(voice.name), piperOk, aplayOk);
  }

  // ---------------------------------------------------------------------------
  // main(): the Ryan filter and the numbered selection

  predicate IsRyan(v: VoiceEntry) {
    Contains(v.name, "Ryan")
  }

  /** `[v for v in voices if "Ryan" in v["name"]]` */
  function RyanVoices(voices: seq<VoiceEntry>): seq<VoiceEntry> {
    Filter(voices, IsRyan)
  }

  lemma RyanOfRyans()
    ensures RyanVoices([RyanUsMedium, RyanUsLow]) == [RyanUsMedium, RyanUsLow]
  {
    assert RyanUsMedium.name == "Ryan (US - Medium)" && RyanUsLow.name == "Ryan (US - Low)";
    ContainsAt("Ryan (US - Medium)", "Ryan", 0);
    ContainsAt("Ryan (US - Low)", "Ryan", 0);
    FilterSnoc([], IsRyan, RyanUsMedium);
    assert [] + [RyanUsMedium] == [RyanUsMedium];
    FilterSnoc([RyanUsMedium], IsRyan, RyanUsLow);
    assert [RyanUsMedium] + [RyanUsLow] == [RyanUsMedium, RyanUsLow];
  }

  lemma RyanOfAmy()
    ensures RyanVoices([AmyUsMedium]) == []
  {
    NotContainsFirstChar(AmyUsMedium.name, "Ryan");
    FilterSnoc([], IsRyan, AmyUsMedium);
    assert [] + [AmyUsMedium] == [AmyUsMedium];
  }

  /** The filter yields the two Ryan voices, in table order. */
  lemma RyanVoicesOfVerified()
    ensures RyanVoices(VerifiedVoices()) == [RyanUsMedium, RyanUsLow]
  {
    RyanOfAmy();
    RyanOfRyans();
    FilterJoin([AmyUsMedium], [RyanUsMedium, RyanUsLow], IsRyan, [], [RyanUsMedium, RyanUsLow]);
    assert VerifiedVoices() == [AmyUsMedium] + [RyanUsMedium, RyanUsLow];
  }

  /** `voices[int(voice_num) - 1]` on the three voices: the numbers -2 to 3
      are accepted, everything else prints "Invalid choice!". */
  lemma SelectionRange(answer: string)
    ensures Menu.Choose(VerifiedVoices(), answer).Some? <==>
      Menu.ParseInt(answer).Some? && -2 <= Menu.ParseInt(answer).value <= 3
  {
    Menu.ChooseAccepts(VerifiedVoices(), answer);
  }
}
