/** cleanup_voice_files.py: search four directories for voice model and audio
    files, list them largest first, and remove them after a "y".

    `glob` stands for `glob.glob` on a joined pattern, `regular` for the paths
    `os.path.isfile` accepts and `size` for `os.path.getsize`; `fs` is the set
    of existing paths, directories included. */
module CleanupVoiceFiles {
  import opened Common
  import opened Listing
  import opened Removals

  /** The eleven file-name patterns, in search order. */
  function SearchPatterns(): seq<string> {
    ["*.onnx", "*.onnx.json", "*.wav", "*.mp3", "*.flac", "*.pth", "*.pt",
     "*.bin", "*.model", "*.ckpt", "*.safetensors"]
  }

  /** The current directory, the home directory, the project directory under
      it and /tmp, in search order. */
  function SearchDirs(home: Path): seq<Path> {
    [".", home, home + "/Scripture_Palpi", "/tmp"]
  }

  // ---------------------------------------------------------------------------
  // find_voice_files()

  /** One (path, size) entry per globbed path that is a regular file. */
  function FileEntries(files: seq<Path>, regular: set<Path>, size: Path -> nat): seq<Entry>
    decreases |files|
  {
    if files == [] then []
    else
      var f := files[|files| - 1];
      FileEntries(files[..|files| - 1], regular, size) + (if f in regular then [(f, size(f))] else [])
  }

  /** The entries of one directory, pattern by pattern. */
  function DirEntries(dir: Path, patterns: seq<string>, glob: string -> seq<Path>, regular: set<Path>, size: Path -> nat)
    : seq<Entry>
    decreases |patterns|
  {
    if patterns == [] then []
    else
      DirEntries(dir, patterns[..|patterns| - 1], glob, regular, size)
      + FileEntries(glob(Join(dir, patterns[|patterns| - 1])), regular, size)
  }

  /** The entries of every existing directory, directory by directory. */
  function Found(dirs: seq<Path>, patterns: seq<string>, fs: set<Path>, glob: string -> seq<Path>,
                 regular: set<Path>, size: Path -> nat): seq<Entry>
    decreases |dirs|
  {
    if dirs == [] then []
    else
      var dir := dirs[|dirs| - 1];
      Found(dirs[..|dirs| - 1], patterns, fs, glob, regular, size)
      + (if dir in fs then DirEntries(dir, patterns, glob, regular, size) else [])
  }

  /** The three nested loops: every existing directory, every pattern, every
      globbed regular file, appending its entry and adding its size. */
  method FindVoiceFiles(home: Path, fs: set<Path>, glob: string -> seq<Path>, regular: set<Path>, size: Path -> nat)
    returns (voiceFiles: seq<Entry>, totalSize: nat)
    ensures voiceFiles == Found(SearchDirs(home), SearchPatterns(), fs, glob, regular, size)
    ensures totalSize == SumSizes(voiceFiles)
  {
    voiceFiles, totalSize := SearchAll(SearchDirs(home), SearchPatterns(), fs, glob, regular, size);
  }

  method SearchAll(dirs: seq<Path>, patterns: seq<string>, fs: set<Path>, glob: string -> seq<Path>,
                   regular: set<Path>, size: Path -> nat)
    returns (voiceFiles: seq<Entry>, totalSize: nat)
    ensures voiceFiles == Found(dirs, patterns, fs, glob, regular, size)
    ensures totalSize == SumSizes(voiceFiles)
  {
    voiceFiles, totalSize := [], 0;
    for i := 0 to |dirs|
      invariant voiceFiles == Found(dirs[..i], patterns, fs, glob, regular, size)
      invariant totalSize == SumSizes(voiceFiles)
    {
      assert dirs[..i + 1][..i] == dirs[..i];
      var dir := dirs[i];
      ghost var before := voiceFiles;
      if dir in fs {
        for j := 0 to |patterns|
          invariant voiceFiles == before + DirEntries(dir, patterns[..j], glob, regular, size)
          invariant totalSize == SumSizes(voiceFiles)
        {
          assert patterns[..j + 1][..j] == patterns[..j];
          var files := glob(Join(dir, patterns[j]));
          voiceFiles, totalSize := AppendFileEntries(files, regular, size, voiceFiles, totalSize);
          AppendAssoc(before, DirEntries(dir, patterns[..j], glob, regular, size), FileEntries(files, regular, size));
        }
        assert patterns[..|patterns|] == patterns;
      }
    }
    assert dirs[..|dirs|] == dirs;
  }

  /** The innermost loop: the regular files among one pattern's matches,
      appended with their sizes to the entries found so far. */
  method AppendFileEntries(files: seq<Path>, regular: set<Path>, size: Path -> nat, found: seq<Entry>, foundSize: nat)
    returns (voiceFiles: seq<Entry>, totalSize: nat)
    requires foundSize == SumSizes(found)
    ensures voiceFiles == found + FileEntries(files, regular, size)
    ensures totalSize == SumSizes(voiceFiles)
  {
    voiceFiles, totalSize := found, foundSize;
    for k := 0 to |files|
      invariant voiceFiles == found + FileEntries(files[..k], regular, size)
      invariant totalSize == SumSizes(voiceFiles)
    {
      assert files[..k + 1][..k] == files[..k];
      var path := files[k];
      if path in regular {
        var fileSize := size(path);
        AppendAssoc(found, FileEntries(files[..k], regular, size), [(path, fileSize)]);
        assert (voiceFiles + [(path, fileSize)])[..|voiceFiles|] == voiceFiles;
        voiceFiles := voiceFiles + [(path, fileSize)];
        totalSize := totalSize + fileSize;
      }
    }
    assert files[..|files|] == files;
  }

  /** An entry comes from a globbed path that is a regular file, with that
      file's size; duplicates are kept, so every such path gives one entry. */
  lemma {:induction false} FileEntriesSpec(files: seq<Path>, regular: set<Path>, size: Path -> nat)
    ensures forall e :: e in FileEntries(files, regular, size) <==> e.0 in files && e.0 in regular && e.1 == size(e.0)
    ensures (forall f :: f in files ==> f in regular) ==> |FileEntries(files, regular, size)| == |files|
    decreases |files|
  {
    if files != [] {
      var init := files[..|files| - 1];
      FileEntriesSpec(init, regular, size);
      assert files == init + [files[|files| - 1]];
      if forall f :: f in files ==> f in regular {
        assert forall f :: f in init ==> f in files;
      }
    }
  }

  /** An entry of a directory comes from one of the patterns joined to it. */
  lemma {:induction false} DirEntriesSpec(dir: Path, patterns: seq<string>, glob: string -> seq<Path>,
                                          regular: set<Path>, size: Path -> nat, e: Entry)
    ensures e in DirEntries(dir, patterns, glob, regular, size) <==>
      exists j :: 0 <= j < |patterns| && e in FileEntries(glob(Join(dir, patterns[j])), regular, size)
    decreases |patterns|
  {
    if patterns != [] {
      var init := patterns[..|patterns| - 1];
      DirEntriesSpec(dir, init, glob, regular, size, e);
      if e in DirEntries(dir, init, glob, regular, size) {
        var j :| 0 <= j < |init| && e in FileEntries(glob(Join(dir, init[j])), regular, size);
        assert patterns[j] == init[j];
      }
      if exists j :: 0 <= j < |patterns| && e in FileEntries(glob(Join(dir, patterns[j])), regular, size) {
        var j :| 0 <= j < |patterns| && e in FileEntries(glob(Join(dir, patterns[j])), regular, size);
        if j < |init| {
          assert init[j] == patterns[j];
        }
      }
    }
  }

  /** An entry found comes from an existing search directory; a missing
      directory contributes nothing. */
  lemma {:induction false} FoundSpec(dirs: seq<Path>, patterns: seq<string>, fs: set<Path>, glob: string -> seq<Path>,
                                     regular: set<Path>, size: Path -> nat, e: Entry)
    ensures e in Found(dirs, patterns, fs, glob, regular, size) <==>
      exists i :: 0 <= i < |dirs| && FromDir(dirs[i], patterns, fs, glob, regular, size, e)
    decreases |dirs|
  {
    if dirs != [] {
      var init, dir := dirs[..|dirs| - 1], dirs[|dirs| - 1];
      FoundSpec(init, patterns, fs, glob, regular, size, e);
      assert e in Found(dirs, patterns, fs, glob, regular, size) <==>
        e in Found(init, patterns, fs, glob, regular, size) || FromDir(dir, patterns, fs, glob, regular, size, e);
      assert (exists i :: 0 <= i < |init| && FromDir(init[i], patterns, fs, glob, regular, size, e))
        ==> exists i :: 0 <= i < |dirs| && FromDir(dirs[i], patterns, fs, glob, regular, size, e) by {
        if exists i :: 0 <= i < |init| && FromDir(init[i], patterns, fs, glob, regular, size, e) {
          var i :| 0 <= i < |init| && FromDir(init[i], patterns, fs, glob, regular, size, e);
          assert dirs[i] == init[i];
        }
      }
      if exists i :: 0 <= i < |dirs| && FromDir(dirs[i], patterns, fs, glob, regular, size, e) {
        var i :| 0 <= i < |dirs| && FromDir(dirs[i], patterns, fs, glob, regular, size, e);
        if i < |init| {
          assert init[i] == dirs[i];
        }
      }
    }
  }

  /** The directory exists and its search yields the entry. */
  predicate FromDir(dir: Path, patterns: seq<string>, fs: set<Path>, glob: string -> seq<Path>,
                    regular: set<Path>, size: Path -> nat, e: Entry) {
    dir in fs && e in DirEntries(dir, patterns, glob, regular, size)
  }

  // ---------------------------------------------------------------------------
  // remove_voice_files(voice_files)

  /** `os.remove` on every entry in order; the counters grow only on success. */
  method RemoveVoiceFiles(voiceFiles: seq<Entry>, fs: set<Path>, removable: set<Path>)
    returns (removedCount: nat, removedSize: nat, after: set<Path>)
    ensures Tally(removedCount, removedSize, after) == RemoveEach(voiceFiles, fs, removable)
    ensures removedCount <= |voiceFiles| && removedSize <= SumSizes(voiceFiles)
  {
    removedCount, removedSize, after := 0, 0, fs;
    for i := 0 to |voiceFiles|
      invariant Tally(removedCount, removedSize, after) == RemoveEach(voiceFiles[..i], fs, removable)
    {
      assert voiceFiles[..i + 1][..i] == voiceFiles[..i];
      var (path, fileSize) := voiceFiles[i];
      if path in after && path in removable {
        after := after - {path};
        removedSize := removedSize + fileSize;
        removedCount := removedCount + 1;
      }
    }
    assert voiceFiles[..|voiceFiles|] == voiceFiles;
    RemoveEachBounds(voiceFiles, fs, removable);
  }

  // ---------------------------------------------------------------------------
  // main()

  datatype CleanupRun = NothingFound | Cancelled(report: Report) | Cleaned(report: Report, removal: Tally)

  /** No prompt when nothing is found; otherwise the list is sorted largest
      first and reported, and removed, in sorted order, only when the reply
      lowers to "y". */
  method CleanupMain(home: Path, fs: set<Path>, glob: string -> seq<Path>, regular: set<Path>, size: Path -> nat,
                     confirm: string, removable: set<Path>)
    returns (run: CleanupRun)
    ensures var found := Found(SearchDirs(home), SearchPatterns(), fs, glob, regular, size);
      var sorted := SortBySizeDesc(found);
      && (found == [] ==> run == NothingFound)
      && (found != [] && Lower(confirm) != "y" ==> run == Cancelled(ReportOf(sorted, SumSizes(found))))
      && (found != [] && Lower(confirm) == "y" ==>
            run == Cleaned(ReportOf(sorted, SumSizes(found)), RemoveEach(sorted, fs, removable)))
    ensures run.Cleaned? ==> run.removal.count <= run.report.found && run.removal.size <= run.report.totalSize
    ensures !run.NothingFound? ==>
      SortedBySizeDesc(run.report.shown) && run.report.found == |run.report.shown| + run.report.more.GetOr(0)
  {
    var voiceFiles, totalSize := FindVoiceFiles(home, fs, glob, regular, size);
    if voiceFiles == [] {
      return NothingFound;
    }
    var sorted := SortBySizeDesc(voiceFiles);
    SortBySizeDescSpec(voiceFiles);
    SortBySizeDescSum(voiceFiles);
    ShownSpec(sorted);
    var report := ReportOf(sorted, totalSize);
    if Lower(confirm) != "y" {
      return Cancelled(report);
    }
    var removedCount, removedSize, after := RemoveVoiceFiles(sorted, fs, removable);
    run := Cleaned(report, Tally(removedCount, removedSize, after));
  }
}
