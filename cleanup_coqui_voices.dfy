/** cleanup_coqui_voices.py: measure the directories where Coqui TTS keeps
    its models and remove them after a "y", then look for large files that
    look like voice models and remove those after a second "y".

    `walk(d)` stands for `os.walk(d)` flattened to its (root, file name)
    pairs, in walk order. `size` stands for `os.path.getsize`, `None` where
    it raises; a file that no longer exists cannot be measured either. */
module CleanupCoquiVoices {
  import opened Common
  import opened Listing
  import opened Removals

  type Walk = Path -> seq<(Path, string)>

  /** `os.path.getsize(p)`, which raises when `p` is gone. */
  function SizeOf(p: Path, fs: set<Path>, size: Path -> Option<nat>): Option<nat> {
    if p in fs then size(p) else None
  }

  // ---------------------------------------------------------------------------
  // find_coqui_voice_models()

  /** The six places Coqui TTS stores models, in search order. */
  function CoquiDirs(home: Path): seq<Path> {
    [home + "/.local/share/tts", home + "/.cache/tts", home + "/tts_models", home + "/.tts",
     "/tmp/tts", "/tmp/coqui_tts"]
  }

  /** No search directory is another one or lies beneath another one. */
  predicate DirsNotNested(dirs: seq<Path>) {
    forall i, j :: 0 <= i < |dirs| && 0 <= j < |dirs| && i != j ==> !Under(dirs[i], dirs[j])
  }

  /** For a home directory outside /tmp, none of the six Coqui places lies
      beneath another, so removing one never reaches into another. */
  lemma CoquiDirsNotNested(home: Path)
    requires |home| >= 4 && home[..4] != "/tmp"
    ensures DirsNotNested(CoquiDirs(home))
  {
    var d := CoquiDirs(home);
    var h := |home|;
    // the four places under the home directory part ways right after "/."
    assert d[0][h + 1] == '.' && d[0][h + 2] == 'l';
    assert d[1][h + 1] == '.' && d[1][h + 2] == 'c';
    assert d[2][h + 1] == 't';
    assert d[3][h + 1] == '.' && d[3][h + 2] == 't';
    DifferNotNested(d[0], d[1], h + 2);
    DifferNotNested(d[0], d[2], h + 1);
    DifferNotNested(d[0], d[3], h + 2);
    DifferNotNested(d[1], d[2], h + 1);
    DifferNotNested(d[1], d[3], h + 2);
    DifferNotNested(d[2], d[3], h + 1);
    // the two places in /tmp part ways after "/tmp/"
    DifferNotNested(d[4], d[5], 5);
    // and the home directory does not start with "/tmp"
    var k :| 0 <= k < 4 && home[k] != "/tmp"[k];
    forall i, j | 0 <= i < 4 && 4 <= j < 6
      ensures !Under(d[i], d[j]) && !Under(d[j], d[i])
    {
      assert d[i][k] == home[k] && d[j][k] == "/tmp"[k];
      DifferNotNested(d[i], d[j], k);
    }
  }

  datatype Scan = Scan(dirSize: nat, fileCount: nat)

  /** `dir_size` and `file_count` over the walked files: a file whose size
      cannot be read is passed over. */
  function DirScan(files: seq<(Path, string)>, fs: set<Path>, size: Path -> Option<nat>): Scan
    decreases |files|
  {
    if files == [] then Scan(0, 0)
    else
      var prev := DirScan(files[..|files| - 1], fs, size);
      var measured := Measured(files[|files| - 1], fs, size);
      if measured.Some? then Scan(prev.dirSize + measured.value, prev.fileCount + 1) else prev
  }

  /** The size of a walked file, found under its joined path. */
  function Measured(f: (Path, string), fs: set<Path>, size: Path -> Option<nat>): Option<nat> {
    SizeOf(Join(f.0, f.1), fs, size)
  }

  /** The file can be measured. */
  function Measurable(fs: set<Path>, size: Path -> Option<nat>): ((Path, string)) -> bool {
    (f: (Path, string)) => Measured(f, fs, size).Some?
  }

  /** The file count is the number of files that can be measured. */
  lemma {:induction false} DirScanCount(files: seq<(Path, string)>, fs: set<Path>, size: Path -> Option<nat>)
    ensures DirScan(files, fs, size).fileCount == |Filter(files, Measurable(fs, size))| <= |files|
    ensures DirScan(files, fs, size).fileCount == 0 ==> DirScan(files, fs, size).dirSize == 0
    decreases |files|
  {
    if files != [] {
      DirScanCount(files[..|files| - 1], fs, size);
    }
  }

  /** A directory reported as holding models: its path, the size of its
      files and how many were measured. */
  datatype CoquiModel = CoquiModel(dir: Path, size: nat, fileCount: nat)

  function SumModelSizes(models: seq<CoquiModel>): nat
    decreases |models|
  {
    if models == [] then 0 else SumModelSizes(models[..|models| - 1]) + models[|models| - 1].size
  }

  /** The directories that exist and whose measured size is positive. */
  function FoundModels(dirs: seq<Path>, fs: set<Path>, walk: Walk, size: Path -> Option<nat>): seq<CoquiModel>
    decreases |dirs|
  {
    if dirs == [] then []
    else
      var prev := FoundModels(dirs[..|dirs| - 1], fs, walk, size);
      var dir := dirs[|dirs| - 1];
      if dir !in fs then prev
      else
        var scan := DirScan(walk(dir), fs, size);
        if scan.dirSize > 0 then prev + [CoquiModel(dir, scan.dirSize, scan.fileCount)] else prev
  }

  /** The reported directories are distinct search directories, so when no
      search directory lies beneath another no reported one does either. */
  lemma {:induction false} FoundModelsNotNested(dirs: seq<Path>, fs: set<Path>, walk: Walk, size: Path -> Option<nat>)
    requires DirsNotNested(dirs)
    ensures NotNested(FoundModels(dirs, fs, walk, size))
    decreases |dirs|
  {
    if dirs != [] {
      var init, dir := dirs[..|dirs| - 1], dirs[|dirs| - 1];
      assert DirsNotNested(init) by {
        forall i, j | 0 <= i < |init| && 0 <= j < |init| && i != j
          ensures !Under(init[i], init[j])
        {
          assert init[i] == dirs[i] && init[j] == dirs[j];
        }
      }
      FoundModelsNotNested(init, fs, walk, size);
      FoundModelsSpec(init, fs, walk, size);
      var prev := FoundModels(init, fs, walk, size);
      var scan := DirScan(walk(dir), fs, size);
      if dir in fs && scan.dirSize > 0 {
        var found := prev + [CoquiModel(dir, scan.dirSize, scan.fileCount)];
        assert FoundModels(dirs, fs, walk, size) == found;
        forall i, j | 0 <= i < |found| && 0 <= j < |found| && i != j
          ensures !Under(found[i].dir, found[j].dir)
        {
          if i < |prev| && j < |prev| {
            assert found[i] == prev[i] && found[j] == prev[j];
          } else {
            var k := if i < |prev| then i else j;
            assert found[k] == prev[k] && prev[k] in prev;
            var p :| 0 <= p < |init| && init[p] == prev[k].dir;
            assert dirs[p] == prev[k].dir && found[|prev|].dir == dirs[|dirs| - 1];
          }
        }
      }
    }
  }

  /** The loop over one directory's walk. */
  method ScanDir(dir: Path, fs: set<Path>, walk: Walk, size: Path -> Option<nat>)
    returns (dirSize: nat, fileCount: nat)
    ensures Scan(dirSize, fileCount) == DirScan(walk(dir), fs, size)
  {
    var files := walk(dir);
    dirSize, fileCount := 0, 0;
    for k := 0 to |files|
      invariant Scan(dirSize, fileCount) == DirScan(files[..k], fs, size)
    {
      assert files[..k + 1][..k] == files[..k];
      var measured := Measured(files[k], fs, size);
      if measured.Some? {
        dirSize := dirSize + measured.value;
        fileCount := fileCount + 1;
      }
    }
    assert files[..|files|] == files;
  }

  method FindCoquiVoiceModels(home: Path, fs: set<Path>, walk: Walk, size: Path -> Option<nat>)
    returns (foundModels: seq<CoquiModel>, totalSize: nat)
    ensures foundModels == FoundModels(CoquiDirs(home), fs, walk, size)
    ensures totalSize == SumModelSizes(foundModels)
  {
    foundModels, totalSize := MeasureDirs(CoquiDirs(home), fs, walk, size);
  }

  /** The loop over the Coqui directories. */
  method MeasureDirs(dirs: seq<Path>, fs: set<Path>, walk: Walk, size: Path -> Option<nat>)
    returns (foundModels: seq<CoquiModel>, totalSize: nat)
    ensures foundModels == FoundModels(dirs, fs, walk, size)
    ensures totalSize == SumModelSizes(foundModels)
  {
    foundModels, totalSize := [], 0;
    for i := 0 to |dirs|
      invariant foundModels == FoundModels(dirs[..i], fs, walk, size)
      invariant totalSize == SumModelSizes(foundModels)
    {
      assert dirs[..i + 1][..i] == dirs[..i];
      var modelDir := dirs[i];
      if modelDir in fs {
        var dirSize, fileCount := ScanDir(modelDir, fs, walk, size);
        if dirSize > 0 {
          var model := CoquiModel(modelDir, dirSize, fileCount);
          assert (foundModels + [model])[..|foundModels|] == foundModels;
          foundModels := foundModels + [model];
          totalSize := totalSize + dirSize;
        }
      }
    }
    assert dirs[..|dirs|] == dirs;
  }

  /** A directory is reported exactly when it exists and its measured size is
      positive, at most once per listed directory, with its own measurements. */
  lemma {:induction false} FoundModelsSpec(dirs: seq<Path>, fs: set<Path>, walk: Walk, size: Path -> Option<nat>)
    ensures var found := FoundModels(dirs, fs, walk, size);
      |found| <= |dirs| &&
      forall m :: m in found <==>
        m.dir in dirs && m.dir in fs && m.size > 0 && Scan(m.size, m.fileCount) == DirScan(walk(m.dir), fs, size)
    decreases |dirs|
  {
    if dirs != [] {
      var init, dir := dirs[..|dirs| - 1], dirs[|dirs| - 1];
      FoundModelsSpec(init, fs, walk, size);
      InSnoc(dirs);
      var prev := FoundModels(init, fs, walk, size);
      var scan := DirScan(walk(dir), fs, size);
      if dir in fs && scan.dirSize > 0 {
        assert FoundModels(dirs, fs, walk, size) == prev + [CoquiModel(dir, scan.dirSize, scan.fileCount)];
      } else {
        assert FoundModels(dirs, fs, walk, size) == prev;
      }
    }
  }

  // ---------------------------------------------------------------------------
  // remove_coqui_models(found_models)

  /** `shutil.rmtree` on every reported directory; only successes count. A
      failed `rmtree` is taken to remove nothing (all or nothing). */
  function RemoveTrees(models: seq<CoquiModel>, fs: set<Path>, removable: set<Path>): Tally
    decreases |models|
  {
    if models == [] then Tally(0, 0, fs)
    else
      var prev := RemoveTrees(models[..|models| - 1], fs, removable);
      var m := models[|models| - 1];
      if m.dir in prev.after && m.dir in removable then Tally(prev.count + 1, prev.size + m.size, WithoutTree(prev.after, m.dir))
      else prev
  }

  /** The count is at most the number of directories, the freed size at most
      their total, and nothing outside the listed trees disappears. */
  lemma {:induction false} RemoveTreesBounds(models: seq<CoquiModel>, fs: set<Path>, removable: set<Path>)
    ensures var t := RemoveTrees(models, fs, removable);
      t.count <= |models| && t.size <= SumModelSizes(models) && t.after <= fs &&
      forall q :: q in fs && q !in t.after ==> exists m :: m in models && Under(q, m.dir)
    decreases |models|
  {
    if models != [] {
      RemoveTreesBounds(models[..|models| - 1], fs, removable);
      assert forall m :: m in models[..|models| - 1] ==> m in models;
      assert models[|models| - 1] in models;
    }
  }

  /** No listed directory is another one or lies beneath another one. */
  predicate NotNested(models: seq<CoquiModel>) {
    forall i, j :: 0 <= i < |models| && 0 <= j < |models| && i != j ==> !Under(models[i].dir, models[j].dir)
  }

  /** The directories whose `rmtree` succeeds when none is nested in another:
      those present and removable before the loop. */
  function TreeRemovable(fs: set<Path>, removable: set<Path>): CoquiModel -> bool {
    (m: CoquiModel) => m.dir in fs && m.dir in removable
  }

  /** With no directory nested in another, every listed directory that exists
      and may be removed goes, with everything beneath it, and is counted with
      its measured size; nothing else goes and nothing else is counted. */
  lemma RemoveTreesExact(models: seq<CoquiModel>, fs: set<Path>, removable: set<Path>)
    requires NotNested(models)
    ensures var t := RemoveTrees(models, fs, removable);
      var gone := Filter(models, TreeRemovable(fs, removable));
      t.count == |gone| && t.size == SumModelSizes(gone) &&
      forall q :: q in t.after <==> q in fs && !(exists m :: m in gone && Under(q, m.dir))
  {
    RemoveTreesExactAfter(models, fs, removable);
    RemoveTreesExactTally(models, fs, removable);
  }

  /** Exactly the trees of the present, removable directories are gone. */
  lemma {:induction false} RemoveTreesExactAfter(models: seq<CoquiModel>, fs: set<Path>, removable: set<Path>)
    requires NotNested(models)
    ensures forall q :: q in RemoveTrees(models, fs, removable).after <==>
      q in fs && !(exists m :: m in Filter(models, TreeRemovable(fs, removable)) && Under(q, m.dir))
    decreases |models|
  {
    if models != [] {
      var init, last := models[..|models| - 1], models[|models| - 1];
      var p := TreeRemovable(fs, removable);
      assert NotNested(init) by {
        forall i, j | 0 <= i < |init| && 0 <= j < |init| && i != j
          ensures !Under(init[i].dir, init[j].dir)
        {
          assert init[i] == models[i] && init[j] == models[j];
        }
      }
      RemoveTreesExactAfter(init, fs, removable);
      LastTreeNotUnder(models, Filter(init, p));
      InSnoc(models);
      var goneInit := Filter(init, p);
      if p(last) {
        assert Filter(models, p) == goneInit + [last];
        InSnoc(goneInit + [last]);
        assert (goneInit + [last])[..|goneInit|] == goneInit;
      } else {
        assert Filter(models, p) == goneInit;
      }
    }
  }

  /** The last directory lies beneath none of the earlier ones. */
  lemma LastTreeNotUnder(models: seq<CoquiModel>, earlier: seq<CoquiModel>)
    requires models != [] && NotNested(models)
    requires forall m :: m in earlier ==> m in models[..|models| - 1]
    ensures !(exists m :: m in earlier && Under(models[|models| - 1].dir, m.dir))
  {
    var init := models[..|models| - 1];
    forall m | m in earlier
      ensures !Under(models[|models| - 1].dir, m.dir)
    {
      var j :| 0 <= j < |init| && init[j] == m;
      assert models[j] == m;
    }
  }

  /** The count and freed size are those of the present, removable directories. */
  lemma {:induction false} RemoveTreesExactTally(models: seq<CoquiModel>, fs: set<Path>, removable: set<Path>)
    requires NotNested(models)
    ensures var t := RemoveTrees(models, fs, removable);
      var gone := Filter(models, TreeRemovable(fs, removable));
      t.count == |gone| && t.size == SumModelSizes(gone)
    decreases |models|
  {
    if models != [] {
      var init, last := models[..|models| - 1], models[|models| - 1];
      var p := TreeRemovable(fs, removable);
      assert NotNested(init) by {
        forall i, j | 0 <= i < |init| && 0 <= j < |init| && i != j
          ensures !Under(init[i].dir, init[j].dir)
        {
          assert init[i] == models[i] && init[j] == models[j];
        }
      }
      RemoveTreesExactTally(init, fs, removable);
      RemoveTreesExactAfter(init, fs, removable);
      var goneInit := Filter(init, p);
      LastTreeNotUnder(models, goneInit);
      assert last.dir in RemoveTrees(init, fs, removable).after <==> last.dir in fs;
      if p(last) {
        assert Filter(models, p) == goneInit + [last];
        assert (goneInit + [last])[..|goneInit|] == goneInit;
      } else {
        assert Filter(models, p) == goneInit;
      }
    }
  }

  method RemoveCoquiModels(foundModels: seq<CoquiModel>, fs: set<Path>, removable: set<Path>)
    returns (removedCount: nat, removedSize: nat, after: set<Path>)
    ensures Tally(removedCount, removedSize, after) == RemoveTrees(foundModels, fs, removable)
    ensures removedCount <= |foundModels| && removedSize <= SumModelSizes(foundModels)
  {
    removedCount, removedSize, after := 0, 0, fs;
    for i := 0 to |foundModels|
      invariant Tally(removedCount, removedSize, after) == RemoveTrees(foundModels[..i], fs, removable)
    {
      assert foundModels[..i + 1][..i] == foundModels[..i];
      var model := foundModels[i];
      if model.dir in after && model.dir in removable {
        after := WithoutTree(after, model.dir);
        removedSize := removedSize + model.size;
        removedCount := removedCount + 1;
      }
    }
    assert foundModels[..|foundModels|] == foundModels;
    RemoveTreesBounds(foundModels, fs, removable);
  }

  // ---------------------------------------------------------------------------
  // find_large_voice_files()

  /** 10 MB: only strictly larger files count. */
  const LargeThreshold: nat := 10 * 1024 * 1024

  /** The extensions looked for, anywhere in the lowered file name. */
  function VoiceExtensions(): seq<string> {
    [".pth", ".pt", ".onnx", ".bin", ".model", ".ckpt"]
  }

  predicate HasVoiceExtension(name: string) {
    exists k :: 0 <= k < |VoiceExtensions()| && Contains(Lower(name), VoiceExtensions()[k])
  }

  /** Larger than 10 MB, and one of the extensions occurs in the lowered
      name. */
  predicate IsLargeVoiceFile(name: string, fileSize: nat) {
    fileSize > LargeThreshold && HasVoiceExtension(name)
  }

  /** Only files over 10 MB are large, a larger file with the same name is
      large too, and the case of the name does not matter. */
  lemma IsLargeVoiceFileSpec(name: string, fileSize: nat, larger: nat)
    ensures IsLargeVoiceFile(name, fileSize) ==> fileSize > LargeThreshold
    ensures IsLargeVoiceFile(name, fileSize) && fileSize <= larger ==> IsLargeVoiceFile(name, larger)
    ensures IsLargeVoiceFile(Lower(name), fileSize) == IsLargeVoiceFile(name, fileSize)
  {
    LowerIdempotent(name);
  }

  /** The extension test is a substring test on the lowered name: a backup
      copy is picked up ... */
  lemma BackupCopyIsLarge()
    ensures IsLargeVoiceFile("voice.pth.bak", LargeThreshold + 1)
  {
    var lowered := Lower("voice.pth.bak");
    assert lowered[5..9] == ".pth";
    ContainsAt(lowered, ".pth", 5);
    assert VoiceExtensions()[0] == ".pth";
  }

  /** ... and so is an upper-case name. */
  lemma UpperCaseNameIsLarge()
    ensures IsLargeVoiceFile("MODEL.ONNX", LargeThreshold + 1)
  {
    var lowered := Lower("MODEL.ONNX");
    assert lowered[5..10] == ".onnx";
    ContainsAt(lowered, ".onnx", 5);
    assert VoiceExtensions()[2] == ".onnx";
  }

  /** A model of exactly 10 MB is not large, and a large audio file is not a
      voice model. */
  lemma LargeVoiceFileRejects()
    ensures !IsLargeVoiceFile("voice.onnx", LargeThreshold)
    ensures !IsLargeVoiceFile("voice.wav", LargeThreshold + 1)
  {
    var wav := Lower("voice.wav");
    assert wav == "voice.wav";
    forall k | 0 <= k < |VoiceExtensions()|
      ensures !Contains(wav, VoiceExtensions()[k])
    {
      NoExtensionInWav(VoiceExtensions()[k]);
    }
  }

  /** A dot followed by anything but 'w' does not occur in "voice.wav", whose
      only dot is followed by 'w'; every extension looked for is such a key. */
  lemma NoExtensionInWav(ext: string)
    requires |ext| >= 2 && ext[0] == '.' && ext[1] != 'w'
    ensures !Contains("voice.wav", ext)
  {
    var wav := "voice.wav";
    forall i | 0 <= i <= |wav| - |ext|
      ensures !(ext <= wav[i..])
    {
      if i == 5 {
        assert wav[i + 1] != ext[1];
      } else {
        assert wav[i] != ext[0];
      }
    }
  }

  /** The walked files that can be measured and that `isLarge` accepts by
      name and size, with their joined paths and sizes; the script's test is
      `IsLargeVoiceFile`. */
  function LargeIn(files: seq<(Path, string)>, fs: set<Path>, size: Path -> Option<nat>, isLarge: (string, nat) -> bool)
    : seq<Entry>
    decreases |files|
  {
    if files == [] then []
    else
      var prev := LargeIn(files[..|files| - 1], fs, size, isLarge);
      var f := files[|files| - 1];
      var measured := Measured(f, fs, size);
      if measured.Some? && isLarge(f.1, measured.value) then prev + [(Join(f.0, f.1), measured.value)]
      else prev
  }

  /** The home directory, the project directory and /tmp, in search order. */
  function LargeSearchDirs(home: Path): seq<Path> {
    [home, home + "/Scripture_Palpi", "/tmp"]
  }

  function LargeFiles(dirs: seq<Path>, fs: set<Path>, walk: Walk, size: Path -> Option<nat>): seq<Entry>
    decreases |dirs|
  {
    if dirs == [] then []
    else
      var dir := dirs[|dirs| - 1];
      LargeFiles(dirs[..|dirs| - 1], fs, walk, size) + (if dir in fs then LargeIn(walk(dir), fs, size, IsLargeVoiceFile) else [])
  }

  /** Every entry is a measured walked file accepted by `isLarge`, and every
      such file of the walk has an entry. */
  lemma {:induction false} LargeInSpec(files: seq<(Path, string)>, fs: set<Path>, size: Path -> Option<nat>,
                                       isLarge: (string, nat) -> bool, e: Entry)
    ensures e in LargeIn(files, fs, size, isLarge) <==>
      exists k :: 0 <= k < |files| && LargeAt(files[k], fs, size, isLarge, e)
    decreases |files|
  {
    if files != [] {
      var init, last := files[..|files| - 1], files[|files| - 1];
      LargeInSpec(init, fs, size, isLarge, e);
      LargeInLast(files, fs, size, isLarge, e);
      if e in LargeIn(files, fs, size, isLarge) {
        if e in LargeIn(init, fs, size, isLarge) {
          var k :| 0 <= k < |init| && LargeAt(init[k], fs, size, isLarge, e);
          assert files[k] == init[k];
        } else {
          assert LargeAt(files[|files| - 1], fs, size, isLarge, e);
        }
      } else {
        forall k | 0 <= k < |files|
          ensures !LargeAt(files[k], fs, size, isLarge, e)
        {
          if k < |init| {
            assert init[k] == files[k];
          }
        }
      }
    }
  }

  /** One step of `LargeIn`: the last walked file adds its own entry, if any. */
  lemma LargeInLast(files: seq<(Path, string)>, fs: set<Path>, size: Path -> Option<nat>, isLarge: (string, nat) -> bool, e: Entry)
    requires files != []
    ensures e in LargeIn(files, fs, size, isLarge) <==>
      e in LargeIn(files[..|files| - 1], fs, size, isLarge) || LargeAt(files[|files| - 1], fs, size, isLarge, e)
  {
  }

  /** The walked file `f` is measured at `e.1`, `isLarge` accepts its name
      and that size, and `e.0` is its joined path. */
  predicate LargeAt(f: (Path, string), fs: set<Path>, size: Path -> Option<nat>, isLarge: (string, nat) -> bool, e: Entry) {
    e.0 == Join(f.0, f.1) && Measured(f, fs, size) == Some(e.1) && isLarge(f.1, e.1)
  }

  /** One more walked file adds its entry to `LargeIn` exactly when it is large. */
  lemma LargeInStep(files: seq<(Path, string)>, k: nat, fs: set<Path>, size: Path -> Option<nat>, isLarge: (string, nat) -> bool)
    requires k < |files|
    ensures var m := Measured(files[k], fs, size);
      LargeIn(files[..k + 1], fs, size, isLarge) ==
        LargeIn(files[..k], fs, size, isLarge) +
        (if m.Some? && isLarge(files[k].1, m.value) then [(Join(files[k].0, files[k].1), m.value)] else [])
  {
    assert files[..k + 1][..k] == files[..k];
  }

  /** The loop over one directory's walk. */
  method AppendLargeIn(files: seq<(Path, string)>, fs: set<Path>, size: Path -> Option<nat>, found: seq<Entry>)
    returns (largeFiles: seq<Entry>)
    ensures largeFiles == found + LargeIn(files, fs, size, IsLargeVoiceFile)
  {
    largeFiles := found;
    for k := 0 to |files|
      invariant largeFiles == found + LargeIn(files[..k], fs, size, IsLargeVoiceFile)
    {
      var (root, name) := files[k];
      var filePath := Join(root, name);
      var measured := Measured(files[k], fs, size);
      LargeInStep(files, k, fs, size, IsLargeVoiceFile);
      if measured.Some? && IsLargeVoiceFile(name, measured.value) {
        AppendAssoc(found, LargeIn(files[..k], fs, size, IsLargeVoiceFile), [(filePath, measured.value)]);
        largeFiles := largeFiles + [(filePath, measured.value)];
      }
    }
    assert files[..|files|] == files;
  }

  method FindLargeVoiceFiles(home: Path, fs: set<Path>, walk: Walk, size: Path -> Option<nat>)
    returns (largeFiles: seq<Entry>)
    ensures largeFiles == LargeFiles(LargeSearchDirs(home), fs, walk, size)
  {
    largeFiles := SearchLarge(LargeSearchDirs(home), fs, walk, size);
  }

  /** The loop over the search directories. */
  method SearchLarge(dirs: seq<Path>, fs: set<Path>, walk: Walk, size: Path -> Option<nat>)
    returns (largeFiles: seq<Entry>)
    ensures largeFiles == LargeFiles(dirs, fs, walk, size)
  {
    largeFiles := [];
    for i := 0 to |dirs|
      invariant largeFiles == LargeFiles(dirs[..i], fs, walk, size)
    {
      assert dirs[..i + 1][..i] == dirs[..i];
      if dirs[i] in fs {
        largeFiles := AppendLargeIn(walk(dirs[i]), fs, size, largeFiles);
      }
    }
    assert dirs[..|dirs|] == dirs;
  }

  /** The `for file_path, file_size in large_files` removal loop of main. */
  method RemoveLargeFiles(largeFiles: seq<Entry>, fs: set<Path>, removable: set<Path>)
    returns (removedCount: nat, removedSize: nat, after: set<Path>)
    ensures Tally(removedCount, removedSize, after) == RemoveEach(largeFiles, fs, removable)
    ensures removedCount <= |largeFiles| && removedSize <= SumSizes(largeFiles)
  {
    removedCount, removedSize, after := 0, 0, fs;
    for i := 0 to |largeFiles|
      invariant Tally(removedCount, removedSize, after) == RemoveEach(largeFiles[..i], fs, removable)
    {
      assert largeFiles[..i + 1][..i] == largeFiles[..i];
      var (filePath, fileSize) := largeFiles[i];
      if filePath in after && filePath in removable {
        after := after - {filePath};
        removedCount := removedCount + 1;
        removedSize := removedSize + fileSize;
      }
    }
    assert largeFiles[..|largeFiles|] == largeFiles;
    RemoveEachBounds(largeFiles, fs, removable);
  }

  // ---------------------------------------------------------------------------
  // main()

  /** The Coqui part: nothing found, found and kept, or found and removed. */
  datatype ModelsPhase = NoModels | ModelsKept(found: nat, totalSize: nat) | ModelsRemoved(found: nat, totalSize: nat, removal: Tally)

  /** The large-file part: nothing found, reported and kept, or reported and removed. */
  datatype LargePhase = NoLargeFiles | LargeKept(report: Report) | LargeRemoved(report: Report, removal: Tally)

  function ModelsStep(found: seq<CoquiModel>, fs: set<Path>, confirm: string, removable: set<Path>): (ModelsPhase, set<Path>) {
    if found == [] then (NoModels, fs)
    else if Lower(confirm) != "y" then (ModelsKept(|found|, SumModelSizes(found)), fs)
    else
      var t := RemoveTrees(found, fs, removable);
      (ModelsRemoved(|found|, SumModelSizes(found), t), t.after)
  }

  function LargeStep(large: seq<Entry>, fs: set<Path>, confirm: string, removable: set<Path>): (LargePhase, set<Path>) {
    if large == [] then (NoLargeFiles, fs)
    else
      var sorted := SortBySizeDesc(large);
      var report := ReportOf(sorted, SumSizes(sorted));
      if Lower(confirm) != "y" then (LargeKept(report), fs)
      else
        var t := RemoveEach(sorted, fs, removable);
        (LargeRemoved(report, t), t.after)
  }

  /** The Coqui directories are measured and, after a "y", removed; the
      large-file search then runs on what is left, and its sorted list is
      reported and, after a second "y", removed. */
  method CoquiMain(home: Path, fs: set<Path>, walk: Walk, size: Path -> Option<nat>,
                   confirmModels: string, confirmLarge: string, removable: set<Path>)
    returns (models: ModelsPhase, large: LargePhase, after: set<Path>)
    ensures var (m, mid) := ModelsStep(FoundModels(CoquiDirs(home), fs, walk, size), fs, confirmModels, removable);
      models == m &&
      (large, after) == LargeStep(LargeFiles(LargeSearchDirs(home), mid, walk, size), mid, confirmLarge, removable)
    ensures models.ModelsRemoved? ==> models.removal.count <= models.found && models.removal.size <= models.totalSize
    ensures |home| >= 4 && home[..4] != "/tmp" && models.ModelsRemoved? ==>
      var gone := Filter(FoundModels(CoquiDirs(home), fs, walk, size), TreeRemovable(fs, removable));
      models.removal.count == |gone| && models.removal.size == SumModelSizes(gone)
    ensures large.LargeRemoved? ==> large.removal.count <= large.report.found && large.removal.size <= large.report.totalSize
    ensures !large.NoLargeFiles? ==> SortedBySizeDesc(large.report.shown) && forall e :: e in large.report.shown ==> e.1 > LargeThreshold
  {
    var foundModels, totalSize := FindCoquiVoiceModels(home, fs, walk, size);
    var mid;
    if |home| >= 4 && home[..4] != "/tmp" {
      CoquiDirsNotNested(home);
      FoundModelsNotNested(CoquiDirs(home), fs, walk, size);
    }
    models, mid := ConfirmModelRemoval(foundModels, totalSize, fs, confirmModels, removable);
    var largeFiles := FindLargeVoiceFiles(home, mid, walk, size);
    LargeFilesAreLarge(LargeSearchDirs(home), mid, walk, size);
    large, after := ConfirmLargeRemoval(largeFiles, mid, confirmLarge, removable);
  }

  /** The Coqui half of main: report the directories found and remove them
      after a "y". */
  method ConfirmModelRemoval(foundModels: seq<CoquiModel>, totalSize: nat, fs: set<Path>, confirm: string,
                             removable: set<Path>)
    returns (models: ModelsPhase, after: set<Path>)
    requires totalSize == SumModelSizes(foundModels)
    ensures (models, after) == ModelsStep(foundModels, fs, confirm, removable)
    ensures models.ModelsRemoved? ==> models.removal.count <= models.found && models.removal.size <= models.totalSize
    ensures NotNested(foundModels) && models.ModelsRemoved? ==>
      var gone := Filter(foundModels, TreeRemovable(fs, removable));
      models.removal.count == |gone| && models.removal.size == SumModelSizes(gone) &&
      forall q :: q in after <==> q in fs && !(exists m :: m in gone && Under(q, m.dir))
  {
    after := fs;
    if foundModels == [] {
      models := NoModels;
    } else if Lower(confirm) != "y" {
      models := ModelsKept(|foundModels|, totalSize);
    } else {
      var removedCount, removedSize;
      removedCount, removedSize, after := RemoveCoquiModels(foundModels, fs, removable);
      if NotNested(foundModels) {
        RemoveTreesExact(foundModels, fs, removable);
      }
      models := ModelsRemoved(|foundModels|, totalSize, Tally(removedCount, removedSize, after));
    }
  }

  /** The large-file half of main: sort, report the largest ten, and remove
      every listed file after a "y". */
  method ConfirmLargeRemoval(largeFiles: seq<Entry>, fs: set<Path>, confirm: string, removable: set<Path>)
    returns (large: LargePhase, after: set<Path>)
    ensures (large, after) == LargeStep(largeFiles, fs, confirm, removable)
    ensures large.LargeRemoved? ==> large.removal.count <= large.report.found && large.removal.size <= large.report.totalSize
    ensures !large.NoLargeFiles? ==> SortedBySizeDesc(large.report.shown) && forall e :: e in large.report.shown ==> e in largeFiles
  {
    after := fs;
    if largeFiles == [] {
      large := NoLargeFiles;
      return;
    }
    var sorted := SortBySizeDesc(largeFiles);
    ShownOfSorted(largeFiles);
    var report := ReportOf(sorted, SumSizes(sorted));
    if Lower(confirm) != "y" {
      large := LargeKept(report);
      return;
    }
    var removedCount, removedSize;
    removedCount, removedSize, after := RemoveLargeFiles(sorted, fs, removable);
    large := LargeRemoved(report, Tally(removedCount, removedSize, after));
  }

  /** Every entry of the large-file search is over 10 MB. */
  lemma {:induction false} LargeFilesAreLarge(dirs: seq<Path>, fs: set<Path>, walk: Walk, size: Path -> Option<nat>)
    ensures forall e :: e in LargeFiles(dirs, fs, walk, size) ==> e.1 > LargeThreshold
    decreases |dirs|
  {
    if dirs != [] {
      LargeFilesAreLarge(dirs[..|dirs| - 1], fs, walk, size);
      forall e | e in LargeIn(walk(dirs[|dirs| - 1]), fs, size, IsLargeVoiceFile)
        ensures e.1 > LargeThreshold
      {
        LargeInSpec(walk(dirs[|dirs| - 1]), fs, size, IsLargeVoiceFile, e);
      }
    }
  }
}
