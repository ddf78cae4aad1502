/** The "synthesise a message with piper, play it with aplay, clean up" step
    that list_all_voices.py, Voice_output_test.py, piper.py and debug_voices.py
    each write out, and the output-file naming three of them share.

    The filesystem is the set of existing paths. The two external programs are
    oracles: `piperOk` and `aplayOk` say whether each exits with status 0 (a
    non-zero status is the `CalledProcessError` the scripts catch); a piper run
    that succeeds has written its output file. */
module Synthesis {
  import opened Common

  /** `name.replace(' ', '_').replace('(', '').replace(')', '')`, one
      character at a time: a space becomes '_', parentheses are dropped.
      `SanitiseChained` shows it is the three replacements in a row. */
  function Sanitise(name: string): string
    decreases |name|
  {
    if name == [] then [] else SanitiseChar(name[0]) + Sanitise(name[1..])
  }

  function SanitiseChar(c: char): string {
    if c == ' ' then "_" else if c == '(' || c == ')' then [] else [c]
  }

  /** The character-wise definition agrees with the chained `str.replace` calls. */
  lemma {:induction false} SanitiseChained(name: string)
    ensures Sanitise(name) == DeleteChar(DeleteChar(ReplaceChar(name, ' ', '_'), '('), ')')
    decreases |name|
  {
    if name != [] {
      var head, rest := ReplaceChar([name[0]], ' ', '_'), ReplaceChar(name[1..], ' ', '_');
      assert ReplaceChar(name, ' ', '_') == head + rest;
      DeleteCharAppend(head, rest, '(');
      DeleteCharAppend(DeleteChar(head, '('), DeleteChar(rest, '('), ')');
      assert DeleteChar(DeleteChar(head, '('), ')') == SanitiseChar(name[0]) by {
        assert head == [head[0]];
        assert DeleteChar(head, '(') == (if head[0] == '(' then [] else [head[0]]) + DeleteChar([], '(');
      }
      SanitiseChained(name[1..]);
    }
  }

  /** `f"test_{Sanitise(name)}.wav"` */
  function TestOutputName(name: string): Path {
    "test_" + Sanitise(name) + ".wav"
  }

  /** The sanitised name has no spaces and no parentheses, every other
      character of the voice name survives, and a name already free of them is
      left as it is. */
  lemma SanitiseSpec(name: string)
    ensures ' ' !in Sanitise(name) && '(' !in Sanitise(name) && ')' !in Sanitise(name)
    ensures forall d :: d != ' ' && d != '(' && d != ')' && d != '_' ==>
      (d in name <==> d in Sanitise(name))
    ensures ' ' !in name && '(' !in name && ')' !in name ==> Sanitise(name) == name
  {
    SanitiseChained(name);
    var replaced := ReplaceChar(name, ' ', '_');
    var once := DeleteChar(replaced, '(');
    assert ' ' !in replaced;
    DeleteCharKeeps(replaced, '(', ' ');
    DeleteCharKeeps(once, ')', ' ');
    DeleteCharKeeps(once, ')', '(');
    forall d | d != ' ' && d != '(' && d != ')' && d != '_'
      ensures d in name <==> d in Sanitise(name)
    {
      assert d in name <==> d in replaced by {
        if d in name {
          var i :| 0 <= i < |name| && name[i] == d;
          assert replaced[i] == d;
        }
        if d in replaced {
          var i :| 0 <= i < |replaced| && replaced[i] == d;
          assert name[i] == d;
        }
      }
      DeleteCharKeeps(replaced, '(', d);
      DeleteCharKeeps(once, ')', d);
    }
    if ' ' !in name && '(' !in name && ')' !in name {
      assert replaced == name;
      DeleteCharAbsent(replaced, '(');
      DeleteCharAbsent(once, ')');
    }
  }

  /** `if os.path.exists(f): os.remove(f)` */
  function RemoveIfPresent(fs: set<Path>, f: Path): (after: set<Path>)
    ensures f !in after && after + {f} >= fs && after <= fs
  {
    if f in fs then fs - {f} else fs
  }

  /** The body shared by the scripts' voice tests: the message is written to
      `temp`, piper renders it into `output`, aplay plays it. On success both
      files are removed; when either program runs and fails, the error handler
      removes whichever of the two exists. So the result is true exactly when
      both programs succeed, and the two files are gone afterwards while every
      other path is as it was. A program that cannot be started at all raises
      `FileNotFoundError`, which the scripts do not catch; that abort is not
      modelled, and a missing program counts as one that failed. */
  method SynthesizeAndPlay(fs: set<Path>, temp: Path, output: Path, piperOk: bool, aplayOk: bool)
    returns (ok: bool, after: set<Path>)
    ensures ok <==> piperOk && aplayOk
    ensures after == fs - {temp, output}
  {
    after := fs + {temp};
    if piperOk {
      after := after + {output};
      if aplayOk {
        after := after - {temp};
        after := after - {output};
        return true, after;
      }
    }
    after := RemoveIfPresent(after, temp);
    after := RemoveIfPresent(after, output);
    ok := false;
  }
}
