/** Removal loops of the two cleanup scripts: each entry is removed in list
    order, and the count and the freed size grow only when the removal
    succeeds; a failure is reported and the loop goes on.

    `os.remove(p)` succeeds when `p` exists and the caller may remove it
    (`removable`, which stands for permissions and for `p` not being a
    directory); it then no longer exists. `shutil.rmtree(d)` succeeds on the
    same condition and takes everything under `d` with it; a failed `rmtree`
    is taken to remove nothing, although Python's may have deleted part of
    the tree before it raised. */
module Removals {
  import opened Common

  /** The two counters a removal loop returns, and the filesystem after it. */
  datatype Tally = Tally(count: nat, size: nat, after: set<Path>)

  // ---------------------------------------------------------------------------
  // os.remove over (path, size) entries

  function RemoveEach(files: seq<(Path, nat)>, fs: set<Path>, removable: set<Path>): (t: Tally)
    ensures t.count <= |files| && t.after <= fs
    decreases |files|
  {
    if files == [] then Tally(0, 0, fs)
    else
      var prev := RemoveEach(files[..|files| - 1], fs, removable);
      var (p, size) := files[|files| - 1];
      if p in prev.after && p in removable then Tally(prev.count + 1, prev.size + size, prev.after - {p})
      else prev
  }

  predicate HasPath(files: seq<(Path, nat)>, p: Path) {
    exists i :: 0 <= i < |files| && files[i].0 == p
  }

  /** Only successes are counted, so the count is at most the number of
      entries and the freed size at most their total; only listed paths
      disappear. */
  lemma {:induction false} RemoveEachBounds(files: seq<(Path, nat)>, fs: set<Path>, removable: set<Path>)
    ensures var t := RemoveEach(files, fs, removable);
      t.count <= |files| && t.size <= SumSizes(files) && t.after <= fs &&
      forall p :: p in fs && p !in t.after ==> HasPath(files, p) && p in removable
    decreases |files|
  {
    if files != [] {
      var init := files[..|files| - 1];
      RemoveEachBounds(init, fs, removable);
      forall p | HasPath(init, p)
        ensures HasPath(files, p)
      {
        var i :| 0 <= i < |init| && init[i].0 == p;
        assert files[i] == init[i];
      }
    }
  }

  predicate DistinctPaths(files: seq<(Path, nat)>) {
    forall i, j :: 0 <= i < j < |files| ==> files[i].0 != files[j].0
  }

  /** The entries whose removal succeeds when every path is listed once:
      those present and removable in the filesystem before the loop. */
  function Removable(fs: set<Path>, removable: set<Path>): ((Path, nat)) -> bool {
    (e: (Path, nat)) => e.0 in fs && e.0 in removable
  }

  /** With every path listed once, each removal meets the filesystem as it
      was: the count and the freed size are exactly those of the entries
      present and removable, and exactly those paths disappear. */
  lemma RemoveEachDistinct(files: seq<(Path, nat)>, fs: set<Path>, removable: set<Path>)
    requires DistinctPaths(files)
    ensures var t := RemoveEach(files, fs, removable);
      var ok := Filter(files, Removable(fs, removable));
      t.count == |ok| && t.size == SumSizes(ok) &&
      forall p :: p in t.after <==> p in fs && !(p in removable && HasPath(files, p))
  {
    RemoveEachDistinctTally(files, fs, removable);
    RemoveEachDistinctAfter(files, fs, removable);
  }

  /** Exactly the listed paths that existed and were removable disappear. */
  lemma {:induction false} RemoveEachDistinctAfter(files: seq<(Path, nat)>, fs: set<Path>, removable: set<Path>)
    requires DistinctPaths(files)
    ensures forall p :: p in RemoveEach(files, fs, removable).after <==> p in fs && !(p in removable && HasPath(files, p))
    decreases |files|
  {
    if files != [] {
      var init := files[..|files| - 1];
      assert DistinctPaths(init);
      RemoveEachDistinctAfter(init, fs, removable);
      LastPathNew(files);
      HasPathSnoc(files);
    }
  }

  /** The count and freed size are those of the entries present and removable. */
  lemma {:induction false} RemoveEachDistinctTally(files: seq<(Path, nat)>, fs: set<Path>, removable: set<Path>)
    requires DistinctPaths(files)
    ensures var t := RemoveEach(files, fs, removable);
      var ok := Filter(files, Removable(fs, removable));
      t.count == |ok| && t.size == SumSizes(ok)
    decreases |files|
  {
    if files != [] {
      var init, last := files[..|files| - 1], files[|files| - 1];
      assert DistinctPaths(init);
      RemoveEachDistinctTally(init, fs, removable);
      RemoveEachDistinctAfter(init, fs, removable);
      LastPathNew(files);
      var prev := RemoveEach(init, fs, removable);
      assert last.0 in prev.after <==> last.0 in fs;
      var okInit := Filter(init, Removable(fs, removable));
      if Removable(fs, removable)(last) {
        assert Filter(files, Removable(fs, removable)) == okInit + [last];
        assert (okInit + [last])[..|okInit|] == okInit;
      } else {
        assert Filter(files, Removable(fs, removable)) == okInit;
      }
    }
  }

  /** With every path listed once, the last path is not among the earlier ones. */
  lemma LastPathNew(files: seq<(Path, nat)>)
    requires files != [] && DistinctPaths(files)
    ensures !HasPath(files[..|files| - 1], files[|files| - 1].0)
  {
    var init := files[..|files| - 1];
    forall i | 0 <= i < |init|
      ensures init[i].0 != files[|files| - 1].0
    {
      assert init[i] == files[i];
    }
  }

  /** The paths of a list are those of all but its last entry, and the last one's. */
  lemma HasPathSnoc(files: seq<(Path, nat)>)
    requires files != []
    ensures forall p :: HasPath(files, p) <==> HasPath(files[..|files| - 1], p) || p == files[|files| - 1].0
  {
    var init := files[..|files| - 1];
    forall p
      ensures HasPath(files, p) <==> HasPath(init, p) || p == files[|files| - 1].0
    {
      if HasPath(files, p) && p != files[|files| - 1].0 {
        var i :| 0 <= i < |files| && files[i].0 == p;
        assert init[i] == files[i];
      }
      if HasPath(init, p) {
        var i :| 0 <= i < |init| && init[i].0 == p;
        assert files[i] == init[i];
      }
    }
  }

  // ---------------------------------------------------------------------------
  // shutil.rmtree over reported directories

  /** `q` is the directory `dir` or lies beneath it. */
  predicate Under(q: Path, dir: Path) {
    q == dir || (|q| > |dir| && q[..|dir| + 1] == dir + "/")
  }

  /** A path beneath `dir` starts with `dir`. */
  lemma UnderAgrees(q: Path, dir: Path, k: nat)
    ensures Under(q, dir) && k < |dir| ==> q[k] == dir[k]
  {
    if q != dir && |q| > |dir| && q[..|dir| + 1] == dir + "/" && k < |dir| {
      assert q[k] == q[..|dir| + 1][k] == (dir + "/")[k];
    }
  }

  /** Two paths that differ at a position both of them have lie beneath
      neither one another. */
  lemma DifferNotNested(a: Path, b: Path, k: nat)
    requires k < |a| && k < |b| && a[k] != b[k]
    ensures !Under(a, b) && !Under(b, a)
  {
    UnderAgrees(a, b, k);
    UnderAgrees(b, a, k);
  }

  /** The filesystem once `dir` and everything beneath it is gone. */
  function WithoutTree(fs: set<Path>, dir: Path): (r: set<Path>)
    ensures forall q :: q in r <==> q in fs && !Under(q, dir)
  {
    set q | q in fs && !Under(q, dir)
  }

  /** Whatever lies beneath a directory beneath `dir` lies beneath `dir`. */
  lemma UnderTransitive(q: Path, inner: Path, dir: Path)
    requires Under(q, inner) && Under(inner, dir)
    ensures Under(q, dir)
  {
    if q != inner && inner != dir {
      assert q[..|dir| + 1] == q[..|inner| + 1][..|dir| + 1];
      assert (inner + "/")[..|dir| + 1] == inner[..|dir| + 1];
    }
  }

  /** Removing a tree twice, or removing a tree already inside a removed
      tree, changes nothing more; and two removals can be made in either
      order. */
  lemma WithoutTreeLaws(fs: set<Path>, dir: Path, inner: Path, other: Path)
    requires Under(inner, dir)
    ensures WithoutTree(WithoutTree(fs, dir), inner) == WithoutTree(fs, dir)
    ensures WithoutTree(WithoutTree(fs, dir), other) == WithoutTree(WithoutTree(fs, other), dir)
  {
    forall q | q in fs && Under(q, inner)
      ensures Under(q, dir)
    {
      UnderTransitive(q, inner, dir);
    }
  }
}
