/** piper.py: installing piper, downloading the three comparison voices with
    the `for ... else` inclusion rule, testing every downloaded voice, and
    the comparison that runs the install and then the tests.

    `which piper` and `pip install` are oracles given as booleans; wget is the
    `reachable` set of the download walk; piper succeeds on the models in
    `renders`, aplay on the output files in `plays`; `reply(i)` is what the
    user types at the prompt after the voice at position `i` played. */
module Piper {
  import opened Common
  import opened Downloads
  import opened Synthesis

  // ---------------------------------------------------------------------------
  // install_piper()

  /** When `which piper` exits 0 the answer is True and pip is never run;
      otherwise pip runs and its outcome is the answer. */
  method InstallPiper(whichFinds: bool, pipOk: bool) returns (ok: bool, ranPip: bool)
    ensures whichFinds ==> ok && !ranPip
    ensures !whichFinds ==> ranPip && (ok <==> pipOk)
  {
    if whichFinds {
      return true, false;
    }
    ranPip := true;
    ok := pipOk;
  }

  // ---------------------------------------------------------------------------
  // download_all_voices()

  const AmyGentle := HostedEntry("Amy (Gentle & Warm)", "en_US/amy/medium", "en_US-amy-medium")
  const RyanDeep := HostedEntry("Ryan (Deep & Wise)", "en_US/ryan/medium", "en_US-ryan-medium")
  const RyanVeryDeep := HostedEntry("Ryan (Very Deep & Resonant)", "en_US/ryan/low", "en_US-ryan-low")

  /** The three voices `download_all_voices` compares, in this order. */
  function ComparisonVoices(): seq<VoiceEntry> {
    [AmyGentle, RyanDeep, RyanVeryDeep]
  }

  /** Each comparison voice's URLs name the model and config it declares. */
  lemma ComparisonVoicesConsistent()
    ensures |ComparisonVoices()| == 3
    ensures forall v :: v in ComparisonVoices() ==> Consistent(v)
  {
    HostedEntryConsistent("Amy (Gentle & Warm)", "en_US/amy/medium", "en_US-amy-medium");
    HostedEntryConsistent("Ryan (Deep & Wise)", "en_US/ryan/medium", "en_US-ryan-medium");
    HostedEntryConsistent("Ryan (Very Deep & Resonant)", "en_US/ryan/low", "en_US-ryan-low");
  }

  /** One voice: already complete means included with nothing fetched;
      otherwise the URL walk decides, and a walk that breaks at a failed
      download leaves the voice out. */
  function VoiceStep(v: VoiceEntry, fs: set<Path>, reachable: set<string>): Fetch {
    if v.model in fs && v.config in fs then Fetch(true, fs, [])
    else FetchAll(v.urls, fs, reachable)
  }

  /** What the whole download pass produced: the included voices, the
      filesystem afterwards, and every URL wget was run on. */
  datatype Batch = Batch(downloaded: seq<VoiceEntry>, after: set<Path>, attempted: seq<string>)

  function DownloadAll(voices: seq<VoiceEntry>, fs: set<Path>, reachable: set<string>): Batch
    decreases |voices|
  {
    if voices == [] then Batch([], fs, [])
    else
      var prev := DownloadAll(voices[..|voices| - 1], fs, reachable);
      var v := voices[|voices| - 1];
      var step := VoiceStep(v, prev.after, reachable);
      Batch(prev.downloaded + (if step.ok then [v] else []), step.after, prev.attempted + step.attempted)
  }

  /** The outer loop over the voices: a complete voice is included with
      `continue`; otherwise the URL loop runs and its `else` branch, reached
      only without a `break`, includes the voice. */
  method DownloadAllVoices(voices: seq<VoiceEntry>, fs: set<Path>, reachable: set<string>)
    returns (downloaded: seq<VoiceEntry>, after: set<Path>, attempted: seq<string>)
    ensures Batch(downloaded, after, attempted) == DownloadAll(voices, fs, reachable)
  {
    downloaded, after, attempted := [], fs, [];
    for i := 0 to |voices|
      invariant Batch(downloaded, after, attempted) == DownloadAll(voices[..i], fs, reachable)
    {
      var voice := voices[i];
      assert voices[..i + 1][..i] == voices[..i];
      if voice.model in after && voice.config in after {
        downloaded := downloaded + [voice];
        continue;
      }
      var broke, tried;
      broke, after, tried := DownloadUrls(voice.urls, after, reachable);
      attempted := attempted + tried;
      if !broke {
        downloaded := downloaded + [voice];
      }
    }
    assert voices[..|voices|] == voices;
  }

  /** The inner `for url in voice["urls"]` loop: an existing file is skipped,
      a failed wget breaks out of the loop. */
  method DownloadUrls(urls: seq<string>, fs: set<Path>, reachable: set<string>)
    returns (broke: bool, after: set<Path>, tried: seq<string>)
    ensures Fetch(!broke, after, tried) == FetchAll(urls, fs, reachable)
  {
    after, tried := fs, [];
    var j;
    j, broke := 0, false;
    while j < |urls| && !broke
      invariant 0 <= j <= |urls|
      invariant !broke ==>
        FetchAll(urls, fs, reachable) ==
        (var t := FetchAll(urls[j..], after, reachable); Fetch(t.ok, t.after, tried + t.attempted))
      invariant broke ==> FetchAll(urls, fs, reachable) == Fetch(false, after, tried)
      decreases |urls| - j, !broke
    {
      var url := urls[j];
      var filename := FileNameOf(url);
      FetchAllStep(urls, j, after, reachable);
      if filename !in after {
        ghost var rest := FetchAll(urls[j + 1..], after + {filename}, reachable);
        assert (tried + [url]) + rest.attempted == tried + ([url] + rest.attempted);
        tried := tried + [url];
        after := after + {filename};
        if url !in reachable {
          broke := true;
          continue;
        }
      }
      j := j + 1;
    }
    if !broke {
      assert urls[j..] == [];
      assert tried + [] == tried;
    }
  }

  /** The included voices keep the declared order and are never repeated. */
  lemma {:induction false} DownloadAllSubsequence(voices: seq<VoiceEntry>, fs: set<Path>, reachable: set<string>)
    ensures IsSubsequence(DownloadAll(voices, fs, reachable).downloaded, voices)
    decreases |voices|
  {
    if voices == [] {
    } else {
      var init, v := voices[..|voices| - 1], voices[|voices| - 1];
      var prev := DownloadAll(init, fs, reachable);
      DownloadAllSubsequence(init, fs, reachable);
      SubsequenceExtend(prev.downloaded, init, v);
      assert voices == init + [v];
      if VoiceStep(v, prev.after, reachable).ok {
        assert DownloadAll(voices, fs, reachable).downloaded == prev.downloaded + [v];
      } else {
        assert DownloadAll(voices, fs, reachable).downloaded == prev.downloaded;
      }
    }
  }

  /** Downloading only ever adds files. */
  lemma {:induction false} DownloadAllGrows(voices: seq<VoiceEntry>, fs: set<Path>, reachable: set<string>)
    ensures fs <= DownloadAll(voices, fs, reachable).after
    decreases |voices|
  {
    if voices != [] {
      var init, v := voices[..|voices| - 1], voices[|voices| - 1];
      var prev := DownloadAll(init, fs, reachable);
      DownloadAllGrows(init, fs, reachable);
      FetchAllFiles(v.urls, prev.after, reachable);
    }
  }

  /** A voice whose model and config exist before the pass is included, even
      when the downloads of other voices fail. */
  lemma {:induction false} DownloadAllKeepsPresent(voices: seq<VoiceEntry>, fs: set<Path>, reachable: set<string>, k: nat)
    requires k < |voices| && voices[k].model in fs && voices[k].config in fs
    ensures voices[k] in DownloadAll(voices, fs, reachable).downloaded
    decreases |voices|
  {
    var init, v := voices[..|voices| - 1], voices[|voices| - 1];
    var prev := DownloadAll(init, fs, reachable);
    if k == |voices| - 1 {
      DownloadAllGrows(init, fs, reachable);
      assert VoiceStep(v, prev.after, reachable).ok;
    } else {
      assert init[k] == voices[k];
      DownloadAllKeepsPresent(init, fs, reachable, k);
    }
  }

  /** When every voice is already complete, all are included, wget is never
      run and the filesystem is unchanged. */
  lemma {:induction false} DownloadAllNothingMissing(voices: seq<VoiceEntry>, fs: set<Path>, reachable: set<string>)
    requires forall k :: 0 <= k < |voices| ==> voices[k].model in fs && voices[k].config in fs
    ensures DownloadAll(voices, fs, reachable) == Batch(voices, fs, [])
    decreases |voices|
  {
    if voices != [] {
      var init := voices[..|voices| - 1];
      DownloadAllNothingMissing(init, fs, reachable);
      assert init + [voices[|voices| - 1]] == voices;
    }
  }

  /** Every included voice whose URLs name its own files has both files in
      place afterwards. */
  lemma {:induction false} DownloadAllFilesPresent(voices: seq<VoiceEntry>, fs: set<Path>, reachable: set<string>)
    ensures var b := DownloadAll(voices, fs, reachable);
      forall v :: v in b.downloaded && Consistent(v) ==> v.model in b.after && v.config in b.after
    decreases |voices|
  {
    if voices != [] {
      var init, last := voices[..|voices| - 1], voices[|voices| - 1];
      var prev := DownloadAll(init, fs, reachable);
      var b := DownloadAll(voices, fs, reachable);
      var step := VoiceStep(last, prev.after, reachable);
      DownloadAllFilesPresent(init, fs, reachable);
      FetchAllFiles(last.urls, prev.after, reachable);
      assert prev.after <= b.after;
      forall v | v in b.downloaded && Consistent(v)
        ensures v.model in b.after && v.config in b.after
      {
        if v !in prev.downloaded {
          assert v == last && step.ok;
          if !(last.model in prev.after && last.config in prev.after) {
            assert FileNameOf(last.urls[0]) in b.after && FileNameOf(last.urls[1]) in b.after;
          }
        }
      }
    }
  }

  // ---------------------------------------------------------------------------
  // test_all_voices()

  const TestTempFile: Path := "temp_test.txt"

  /** What the test loop did: one outcome per voice it reached, and the
      filesystem afterwards. */
  datatype Tests = Tests(results: seq<bool>, after: set<Path>)

  /** The test loop from position `i`: each voice goes through the shared
      synthesise-and-play step; after a voice that played, the reply "q" (in
      any case) ends the loop. */
  function TestFrom(voices: seq<VoiceEntry>, i: nat, fs: set<Path>, renders: set<Path>,
                    plays: set<Path>, reply: nat -> string): Tests
    decreases |voices| - i
  {
    if i >= |voices| then Tests([], fs)
    else
      var ok := Played(voices[i], renders, plays);
      var fs' := fs - {TestTempFile, TestOutputName(voices[i].name)};
      if ok && IsQuit(reply(i)) then Tests([true], fs')
      else
        var rest := TestFrom(voices, i + 1, fs', renders, plays, reply);
        Tests([ok] + rest.results, rest.after)
  }

  /** piper rendered the voice's model and aplay played its output file. */
  predicate Played(v: VoiceEntry, renders: set<Path>, plays: set<Path>) {
    v.model in renders && TestOutputName(v.name) in plays
  }

  /** `choice.lower() == 'q'`: the reply is the single letter q in either case. */
  predicate IsQuit(choice: string) {
    |choice| == 1 && LowerChar(choice[0]) == 'q'
  }

  lemma IsQuitLower(choice: string)
    ensures IsQuit(choice) <==> Lower(choice) == "q"
  {
    if Lower(choice) == "q" {
      assert Lower(choice)[0] == LowerChar(choice[0]);
    }
  }

  /** The output files of the given voices. */
  function OutputsOf(voices: seq<VoiceEntry>): set<Path> {
    if voices == [] then {} else {TestOutputName(voices[0].name)} + OutputsOf(voices[1..])
  }

  /** The outcomes cover a prefix of the voices from `i`, and each one says
      whether piper rendered that voice's model and aplay played its output. */
  predicate OutcomesMatch(voices: seq<VoiceEntry>, i: nat, results: seq<bool>, renders: set<Path>, plays: set<Path>) {
    i + |results| <= |voices| &&
    forall k :: 0 <= k < |results| ==> (results[k] <==> Played(voices[i + k], renders, plays))
  }

  /** No outcome but the last was a played voice answered "q", and if the
      outcomes stop before the `n` voices from `i` run out, the last one was. */
  predicate StopsOnQuit(i: nat, n: nat, results: seq<bool>, reply: nat -> string) {
    (forall k :: 0 <= k < |results| - 1 ==> !(results[k] && IsQuit(reply(i + k)))) &&
    (|results| < n ==> results != [] && results[|results| - 1] && IsQuit(reply(i + |results| - 1)))
  }

  /** The test loop reaches a prefix of the voices, and each voice's outcome
      is whether piper rendered its model and aplay played its output. */
  lemma {:induction false} TestFromOutcomes(voices: seq<VoiceEntry>, i: nat, fs: set<Path>, renders: set<Path>,
                                            plays: set<Path>, reply: nat -> string)
    requires i <= |voices|
    ensures OutcomesMatch(voices, i, TestFrom(voices, i, fs, renders, plays, reply).results, renders, plays)
    decreases |voices| - i
  {
    if i < |voices| {
      var ok := Played(voices[i], renders, plays);
      var fs' := fs - {TestTempFile, TestOutputName(voices[i].name)};
      if !(ok && IsQuit(reply(i))) {
        var rest := TestFrom(voices, i + 1, fs', renders, plays, reply);
        TestFromOutcomes(voices, i + 1, fs', renders, plays, reply);
        OutcomesMatchCons(voices, i, ok, rest.results, renders, plays);
      }
    }
  }

  lemma OutcomesMatchCons(voices: seq<VoiceEntry>, i: nat, ok: bool, rest: seq<bool>, renders: set<Path>, plays: set<Path>)
    requires i < |voices| && ok == Played(voices[i], renders, plays)
    requires OutcomesMatch(voices, i + 1, rest, renders, plays)
    ensures OutcomesMatch(voices, i, [ok] + rest, renders, plays)
  {
    var results := [ok] + rest;
    forall k | 0 <= k < |results|
      ensures results[k] <==> Played(voices[i + k], renders, plays)
    {
      if k > 0 {
        assert results[k] == rest[k - 1];
      }
    }
  }

  /** The loop stops early only right after a voice that played and was
      answered "q", and no earlier voice got that answer after playing. */
  lemma {:induction false} TestFromStops(voices: seq<VoiceEntry>, i: nat, fs: set<Path>, renders: set<Path>,
                                         plays: set<Path>, reply: nat -> string)
    requires i <= |voices|
    ensures StopsOnQuit(i, |voices| - i, TestFrom(voices, i, fs, renders, plays, reply).results, reply)
    decreases |voices| - i
  {
    if i < |voices| {
      var ok := Played(voices[i], renders, plays);
      var fs' := fs - {TestTempFile, TestOutputName(voices[i].name)};
      var t := TestFrom(voices, i, fs, renders, plays, reply);
      if ok && IsQuit(reply(i)) {
        assert t.results == [true];
      } else {
        var rest := TestFrom(voices, i + 1, fs', renders, plays, reply);
        assert t.results == [ok] + rest.results;
        TestFromStops(voices, i + 1, fs', renders, plays, reply);
        StopsOnQuitCons(i, |voices| - i, ok, rest.results, reply);
      }
    }
  }

  lemma StopsOnQuitCons(i: nat, n: nat, ok: bool, rest: seq<bool>, reply: nat -> string)
    requires n > 0 && !(ok && IsQuit(reply(i)))
    requires StopsOnQuit(i + 1, n - 1, rest, reply)
    ensures StopsOnQuit(i, n, [ok] + rest, reply)
  {
    var results := [ok] + rest;
    forall k | 0 <= k < |results| - 1
      ensures !(results[k] && IsQuit(reply(i + k)))
    {
      if k > 0 {
        assert results[k] == rest[k - 1];
      }
    }
    if rest != [] {
      assert results[|results| - 1] == rest[|rest| - 1];
    }
  }

  /** The loop from `i` reached a prefix of the remaining voices, and the
      filesystem it left is `fs` without the temp file and the output of every
      voice it reached. */
  predicate CleanedUp(voices: seq<VoiceEntry>, i: nat, fs: set<Path>, t: Tests) {
    i + |t.results| <= |voices| &&
    t.after == fs - (if t.results == [] then {} else {TestTempFile} + OutputsOf(voices[i..i + |t.results|]))
  }

  /** Once piper and aplay could be started, the temp file and the output of
      every voice the loop reached are gone afterwards, and every other path
      is as it was. */
  lemma {:induction false} TestFromCleanup(voices: seq<VoiceEntry>, i: nat, fs: set<Path>, renders: set<Path>,
                                           plays: set<Path>, reply: nat -> string)
    requires i <= |voices|
    ensures CleanedUp(voices, i, fs, TestFrom(voices, i, fs, renders, plays, reply))
    decreases |voices| - i
  {
    if i < |voices| {
      var ok := Played(voices[i], renders, plays);
      var fs' := fs - {TestTempFile, TestOutputName(voices[i].name)};
      var t := TestFrom(voices, i, fs, renders, plays, reply);
      if ok && IsQuit(reply(i)) {
        assert t == Tests([true] + [], fs');
        CleanedCons(voices, i, fs, true, Tests([], fs'));
      } else {
        var rest := TestFrom(voices, i + 1, fs', renders, plays, reply);
        assert t == Tests([ok] + rest.results, rest.after);
        TestFromCleanup(voices, i + 1, fs', renders, plays, reply);
        CleanedCons(voices, i, fs, ok, rest);
      }
    }
  }

  /** The step of `TestFromCleanup`: removing the temp file and one voice's
      output before whatever the loop does with the voices after it. */
  lemma CleanedCons(voices: seq<VoiceEntry>, i: nat, fs: set<Path>, ok: bool, rest: Tests)
    requires i < |voices|
    requires CleanedUp(voices, i + 1, fs - {TestTempFile, TestOutputName(voices[i].name)}, rest)
    ensures CleanedUp(voices, i, fs, Tests([ok] + rest.results, rest.after))
  {
    var n := |rest.results|;
    var reached := voices[i..i + 1 + n];
    assert reached[0] == voices[i] && reached[1..] == voices[i + 1..i + 1 + n];
    var later := OutputsOf(voices[i + 1..i + 1 + n]);
    assert OutputsOf(reached) == {TestOutputName(voices[i].name)} + later;
    if n == 0 {
      assert later == {};
    }
  }

  /** The outcome of `test_all_voices` on the voices the download pass
      returned: nothing is tested when there are none. */
  datatype TestRun = NoVoices | Tested(tests: Tests)

  /** `test_all_voices()`: download, stop at the empty guard, otherwise test
      the downloaded voices in order. */
  method TestAllVoices(fs: set<Path>, reachable: set<string>, renders: set<Path>, plays: set<Path>,
                       reply: nat -> string)
    returns (run: TestRun)
    ensures var b := DownloadAll(ComparisonVoices(), fs, reachable);
      run == if b.downloaded == [] then NoVoices
             else Tested(TestFrom(b.downloaded, 0, b.after, renders, plays, reply))
  {
    var voices, after, attempted := DownloadAllVoices(ComparisonVoices(), fs, reachable);
    if voices == [] {
      return NoVoices;
    }
    var tests := TestVoices(voices, after, renders, plays, reply);
    run := Tested(tests);
  }

  /** The `for voice in voices` loop of `test_all_voices`. */
  method TestVoices(voices: seq<VoiceEntry>, fs: set<Path>, renders: set<Path>, plays: set<Path>,
                    reply: nat -> string)
    returns (tests: Tests)
    ensures tests == TestFrom(voices, 0, fs, renders, plays, reply)
  {
    var results: seq<bool> := [];
    var after := fs;
    var i := 0;
    var quit := false;
    while i < |voices| && !quit
      invariant 0 <= i <= |voices|
      invariant !quit ==>
        TestFrom(voices, 0, fs, renders, plays, reply) ==
        (var t := TestFrom(voices, i, after, renders, plays, reply); Tests(results + t.results, t.after))
      invariant quit ==> TestFrom(voices, 0, fs, renders, plays, reply) == Tests(results, after)
      decreases |voices| - i, !quit
    {
      var output := TestOutputName(voices[i].name);
      var ok;
      ok, after := SynthesizeAndPlay(after, TestTempFile, output, voices[i].model in renders, output in plays);
      if ok && IsQuit(reply(i)) {
        results := results + [true];
        quit := true;
      } else {
        ghost var rest := TestFrom(voices, i + 1, after, renders, plays, reply);
        assert results + ([ok] + rest.results) == (results + [ok]) + rest.results;
        results := results + [ok];
        i := i + 1;
      }
    }
    if !quit {
      assert results + [] == results;
    }
    tests := Tests(results, after);
  }

  // ---------------------------------------------------------------------------
  // piper_voice_comparison()

  /** What `piper_voice_comparison` did: gave up because piper could not be
      installed, or ran the whole comparison. */
  datatype Comparison = NotInstalled | Compared(run: TestRun)

  /** `piper_voice_comparison()`: nothing is downloaded or tested unless
      piper is there (found by `which`, or installed by pip); then every voice
      is downloaded and the downloaded ones are tested. */
  method PiperVoiceComparison(whichFinds: bool, pipOk: bool, fs: set<Path>, reachable: set<string>,
                              renders: set<Path>, plays: set<Path>, reply: nat -> string)
    returns (c: Comparison)
    ensures c.NotInstalled? <==> !whichFinds && !pipOk
    ensures c.Compared? ==>
      var b := DownloadAll(ComparisonVoices(), fs, reachable);
      c.run == if b.downloaded == [] then NoVoices
               else Tested(TestFrom(b.downloaded, 0, b.after, renders, plays, reply))
  {
    var installed, ranPip := InstallPiper(whichFinds, pipOk);
    if !installed {
      return NotInstalled;
    }
    var run := TestAllVoices(fs, reachable, renders, plays, reply);
    c := Compared(run);
  }
}
