/** The download rule that Voice_output_test.py (`download_voice`), piper.py
    (the inner loop of `download_all_voices`) and, unrolled to two URLs,
    list_all_voices.py (`download_voice`) implement: walk the URLs in order,
    name each file after the last '/' segment of its URL, skip a file that
    already exists, run `wget URL -O file` otherwise, and stop at the first
    download that fails.

    wget is an oracle: `reachable` is the set of URLs it fetches successfully.
    With `-O` wget opens the output file before it connects, so a run leaves
    the file behind whether it succeeds or not: a failed fetch leaves it
    empty, and a later walk skips it as if it had been downloaded. */
module Downloads {
  import opened Common

  /** `url.split('/')[-1]` */
  function FileNameOf(url: string): Path {
    LastSegment(url)
  }

  /** The release directory of the English Piper voices every script downloads from. */
  const PiperVoicesBase := "https://huggingface.co/" + "rhasspy/piper-voices/" + "resolve/v1.0.0/en/"

  /** A voice as Voice_output_test.py and piper.py describe it. */
  datatype VoiceEntry = VoiceEntry(name: string, model: Path, config: Path, urls: seq<string>)

  /** A voice published under `<dir>/<stem>.onnx` in the release directory:
      the model and config are the file names, and the URL list holds the model
      URL, then the config URL. */
  function HostedEntry(name: string, dir: string, stem: string): VoiceEntry {
    var model := stem + ".onnx";
    var config := stem + ".onnx.json";
    VoiceEntry(name, model, config, [PiperVoicesBase + dir + "/" + model, PiperVoicesBase + dir + "/" + config])
  }

  /** A voice is consistent when its URL list names its model, then its config. */
  predicate Consistent(v: VoiceEntry) {
    |v.urls| == 2 && FileNameOf(v.urls[0]) == v.model && FileNameOf(v.urls[1]) == v.config
  }

  /** A hosted entry whose stem has no '/' is consistent. */
  lemma HostedEntryConsistent(name: string, dir: string, stem: string)
    requires '/' !in stem
    ensures Consistent(HostedEntry(name, dir, stem))
  {
    var v := HostedEntry(name, dir, stem);
    assert '/' !in v.model && '/' !in v.config by {
      assert v.model == stem + ".onnx" && v.config == stem + ".onnx.json";
    }
    LastSegmentOfJoin(PiperVoicesBase + dir, v.model);
    LastSegmentOfJoin(PiperVoicesBase + dir, v.config);
  }

  /** What a walk over some URLs did: whether it got to the end without a
      failed download, the filesystem afterwards, and the URLs wget was run on. */
  datatype Fetch = Fetch(ok: bool, after: set<Path>, attempted: seq<string>)

  /** The walk never removes a file and runs wget at most once per URL. */
  function FetchAll(urls: seq<string>, fs: set<Path>, reachable: set<string>): (r: Fetch)
    ensures fs <= r.after && |r.attempted| <= |urls|
    decreases |urls|
  {
    if urls == [] then Fetch(true, fs, [])
    else if FileNameOf(urls[0]) in fs then FetchAll(urls[1..], fs, reachable)
    else if urls[0] !in reachable then Fetch(false, fs + {FileNameOf(urls[0])}, [urls[0]])
    else
      var rest := FetchAll(urls[1..], fs + {FileNameOf(urls[0])}, reachable);
      Fetch(rest.ok, rest.after, [urls[0]] + rest.attempted)
  }

  /** One step of the walk, taken from position `i` of the URL list. */
  lemma FetchAllStep(urls: seq<string>, i: nat, fs: set<Path>, reachable: set<string>)
    requires i < |urls|
    ensures FetchAll(urls[i..], fs, reachable) ==
      if FileNameOf(urls[i]) in fs then FetchAll(urls[i + 1..], fs, reachable)
      else if urls[i] !in reachable then Fetch(false, fs + {FileNameOf(urls[i])}, [urls[i]])
      else
        var rest := FetchAll(urls[i + 1..], fs + {FileNameOf(urls[i])}, reachable);
        Fetch(rest.ok, rest.after, [urls[i]] + rest.attempted)
  {
    assert urls[i..][0] == urls[i] && urls[i..][1..] == urls[i + 1..];
  }

  predicate DistinctNames(urls: seq<string>) {
    forall i, j :: 0 <= i < j < |urls| ==> FileNameOf(urls[i]) != FileNameOf(urls[j])
  }

  /** With distinct file names, the walk succeeds exactly when every file
      either exists already or can be fetched. */
  lemma {:induction false} FetchAllOkIff(urls: seq<string>, fs: set<Path>, reachable: set<string>)
    requires DistinctNames(urls)
    ensures FetchAll(urls, fs, reachable).ok <==>
      forall i :: 0 <= i < |urls| ==> FileNameOf(urls[i]) in fs || urls[i] in reachable
    decreases |urls|
  {
    if urls != [] {
      var name, tail := FileNameOf(urls[0]), urls[1..];
      var fs' := if name in fs then fs else fs + {name};
      assert DistinctNames(tail) by {
        forall i, j | 0 <= i < j < |tail| ensures FileNameOf(tail[i]) != FileNameOf(tail[j]) {
          assert tail[i] == urls[i + 1] && tail[j] == urls[j + 1];
        }
      }
      FetchAllOkIff(tail, fs', reachable);
      var here := name in fs || urls[0] in reachable;
      var later := forall i :: 0 <= i < |tail| ==> FileNameOf(tail[i]) in fs' || tail[i] in reachable;
      var all := forall i :: 0 <= i < |urls| ==> FileNameOf(urls[i]) in fs || urls[i] in reachable;
      assert FetchAll(urls, fs, reachable).ok <==> here && FetchAll(tail, fs', reachable).ok;
      assert all <==> here && later by {
        forall i | 0 <= i < |tail|
          ensures (FileNameOf(tail[i]) in fs' || tail[i] in reachable) <==>
                  (FileNameOf(urls[i + 1]) in fs || urls[i + 1] in reachable)
        {
          assert tail[i] == urls[i + 1];
          assert FileNameOf(urls[i + 1]) != name;
        }
        if here && later {
          forall i | 0 <= i < |urls| ensures FileNameOf(urls[i]) in fs || urls[i] in reachable {
            if i > 0 { assert tail[i - 1] == urls[i]; }
          }
        }
      }
    }
  }

  /** The walk only adds files, and only those named by its URLs; when it
      succeeds every named file exists afterwards. */
  lemma {:induction false} FetchAllFiles(urls: seq<string>, fs: set<Path>, reachable: set<string>)
    ensures fs <= FetchAll(urls, fs, reachable).after
    ensures forall f :: f in FetchAll(urls, fs, reachable).after && f !in fs ==>
      exists i :: 0 <= i < |urls| && FileNameOf(urls[i]) == f
    ensures FetchAll(urls, fs, reachable).ok ==>
      forall i :: 0 <= i < |urls| ==> FileNameOf(urls[i]) in FetchAll(urls, fs, reachable).after
    decreases |urls|
  {
    if urls != [] {
      var name, tail := FileNameOf(urls[0]), urls[1..];
      var r := FetchAll(urls, fs, reachable);
      if name !in fs && urls[0] !in reachable {
        assert r.after == fs + {name} && !r.ok;
        assert FileNameOf(urls[0]) == name;
      } else {
        var fs' := if name in fs then fs else fs + {name};
        assert r == (if name in fs then FetchAll(tail, fs', reachable)
                     else var t := FetchAll(tail, fs', reachable); Fetch(t.ok, t.after, [urls[0]] + t.attempted));
        FetchAllFiles(tail, fs', reachable);
        forall f | f in r.after && f !in fs
          ensures exists i :: 0 <= i < |urls| && FileNameOf(urls[i]) == f
        {
          if f == name {
            assert FileNameOf(urls[0]) == f;
          } else {
            var i :| 0 <= i < |tail| && FileNameOf(tail[i]) == f;
            assert tail[i] == urls[i + 1];
          }
        }
        if r.ok {
          forall i | 0 <= i < |urls|
            ensures FileNameOf(urls[i]) in r.after
          {
            if i > 0 {
              assert tail[i - 1] == urls[i];
            }
          }
        }
      }
    }
  }

  /** wget is run only on URLs whose file was missing, in the order given;
      every run but the last succeeded, and when the walk failed the last one
      is the failure that stopped it. */
  lemma {:induction false} FetchAllAttempts(urls: seq<string>, fs: set<Path>, reachable: set<string>)
    ensures IsSubsequence(FetchAll(urls, fs, reachable).attempted, urls)
    ensures forall u :: u in FetchAll(urls, fs, reachable).attempted ==> FileNameOf(u) !in fs
    ensures var a := FetchAll(urls, fs, reachable).attempted;
      forall k :: 0 <= k < |a| - 1 ==> a[k] in reachable
    ensures var r := FetchAll(urls, fs, reachable);
      r.ok <==> (r.attempted == [] || r.attempted[|r.attempted| - 1] in reachable)
    decreases |urls|
  {
    if urls == [] {
      assert IsSubsequence([], urls);
    } else {
      var name, tail := FileNameOf(urls[0]), urls[1..];
      var r := FetchAll(urls, fs, reachable);
      assert urls == [urls[0]] + tail;
      if name in fs {
        assert r == FetchAll(tail, fs, reachable);
        FetchAllAttempts(tail, fs, reachable);
        SubsequencePrepend(r.attempted, tail, urls[0]);
      } else if urls[0] !in reachable {
        assert r == Fetch(false, fs + {name}, [urls[0]]);
        assert IsSubsequence([], tail);
        SubsequencePrepend([], tail, urls[0]);
        assert [urls[0]] + [] == [urls[0]];
      } else {
        var fs' := fs + {name};
        var t := FetchAll(tail, fs', reachable);
        assert r == Fetch(t.ok, t.after, [urls[0]] + t.attempted);
        FetchAllAttempts(tail, fs', reachable);
        SubsequencePrepend(t.attempted, tail, urls[0]);
        forall u | u in r.attempted ensures FileNameOf(u) !in fs {
          if u != urls[0] {
            assert u in t.attempted;
          }
        }
        forall k | 0 <= k < |r.attempted| - 1 ensures r.attempted[k] in reachable {
          if k > 0 {
            assert r.attempted[k] == t.attempted[k - 1];
          }
        }
        if t.attempted != [] {
          assert r.attempted[|r.attempted| - 1] == t.attempted[|t.attempted| - 1];
        }
      }
    }
  }

  /** Every file wget was run for exists afterwards, fetched or not; in
      particular a walk that failed leaves the file of the failed download
      behind, so running the walk again skips that URL. */
  lemma {:induction false} FetchAllLeavesAttempted(urls: seq<string>, fs: set<Path>, reachable: set<string>)
    ensures forall u :: u in FetchAll(urls, fs, reachable).attempted ==> FileNameOf(u) in FetchAll(urls, fs, reachable).after
    ensures var r := FetchAll(urls, fs, reachable);
      !r.ok ==>
        r.attempted != [] && r.attempted[|r.attempted| - 1] !in reachable && FileNameOf(r.attempted[|r.attempted| - 1]) in r.after
    decreases |urls|
  {
    if urls != [] {
      var name, tail := FileNameOf(urls[0]), urls[1..];
      var r := FetchAll(urls, fs, reachable);
      if name in fs {
        FetchAllLeavesAttempted(tail, fs, reachable);
      } else if urls[0] in reachable {
        var t := FetchAll(tail, fs + {name}, reachable);
        FetchAllLeavesAttempted(tail, fs + {name}, reachable);
        FetchAllFiles(tail, fs + {name}, reachable);
        assert r == Fetch(t.ok, t.after, [urls[0]] + t.attempted);
        if !t.ok {
          assert r.attempted[|r.attempted| - 1] == t.attempted[|t.attempted| - 1];
        }
      }
    }
  }

  /** Putting the same element in front of both sequences, or in front of the
      larger one only, keeps the subsequence relation. */
  lemma {:induction false} SubsequencePrepend<T>(a: seq<T>, b: seq<T>, x: T)
    requires IsSubsequence(a, b)
    ensures IsSubsequence(a, [x] + b) && IsSubsequence([x] + a, [x] + b)
    decreases |b|
  {
    if a == [] {
      if b != [] {
        assert IsSubsequence([], b[..|b| - 1]);
        SubsequencePrepend([], b[..|b| - 1], x);
        assert ([x] + b)[..|b|] == [x] + b[..|b| - 1];
        assert [x] + a == [x];
      } else {
        assert [x] + b == [x] && [x] + a == [x];
        assert [x][..0] == [];
      }
    } else {
      var a', b' := a[..|a| - 1], b[..|b| - 1];
      assert ([x] + b)[..|b|] == [x] + b';
      assert ([x] + a)[..|a|] == [x] + a';
      if a[|a| - 1] == b[|b| - 1] && IsSubsequence(a', b') {
        SubsequencePrepend(a', b', x);
      } else {
        SubsequencePrepend(a, b', x);
      }
    }
  }
}
