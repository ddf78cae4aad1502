/** The report both cleanup scripts print before asking to remove anything:
    `files.sort(key=lambda x: x[1], reverse=True)`, the first ten entries,
    and "... and N more" when there are more than ten.

    The sort is Python's built-in `list.sort`, whose algorithm is not part of
    the scripts; it is specified here by what it guarantees (descending by
    size, a permutation, stable among equal sizes) and given a reference
    definition, an insertion sort, that has those properties. */
module Listing {
  import opened Common

  type Entry = (Path, nat)

  predicate SortedBySizeDesc(s: seq<Entry>) {
    forall i, j :: 0 <= i < j < |s| ==> s[i].1 >= s[j].1
  }

  /** Puts `x` into a list sorted by descending size, after every entry at
      least as large. */
  function InsertBySize(x: Entry, s: seq<Entry>): seq<Entry>
    decreases |s|
  {
    if s == [] then [x]
    else if s[0].1 >= x.1 then [s[0]] + InsertBySize(x, s[1..])
    else [x] + s
  }

  /** The entries in descending order of size; entries of equal size keep
      their order. */
  function SortBySizeDesc(s: seq<Entry>): (r: seq<Entry>)
    ensures multiset(r) == multiset(s)
    decreases |s|
  {
    if s == [] then []
    else
      var init, last := s[..|s| - 1], s[|s| - 1];
      InsertBySizeMultiset(last, SortBySizeDesc(init));
      assert s == init + [last];
      InsertBySize(last, SortBySizeDesc(init))
  }

  lemma {:induction false} InsertBySizeSpec(x: Entry, s: seq<Entry>)
    requires SortedBySizeDesc(s)
    ensures SortedBySizeDesc(InsertBySize(x, s))
    ensures multiset(InsertBySize(x, s)) == multiset(s) + multiset{x}
    ensures |InsertBySize(x, s)| == |s| + 1
    decreases |s|
  {
    InsertBySizeMultiset(x, s);
    if s != [] && s[0].1 >= x.1 {
      InsertBySizeSpec(x, s[1..]);
      InsertBySizeMultiset(x, s[1..]);
      HeadBeforeInsert(x, s);
    } else if s != [] {
      assert forall j :: 0 < j < |s| ==> s[0].1 >= s[j].1;
    }
  }

  /** Inserting adds exactly the new entry. */
  lemma {:induction false} InsertBySizeMultiset(x: Entry, s: seq<Entry>)
    ensures multiset(InsertBySize(x, s)) == multiset(s) + multiset{x}
    ensures |InsertBySize(x, s)| == |s| + 1
    decreases |s|
  {
    if s != [] && s[0].1 >= x.1 {
      InsertBySizeMultiset(x, s[1..]);
      assert s == [s[0]] + s[1..];
    }
  }

  /** The step of `InsertBySizeSpec` where the head stays in front. */
  lemma HeadBeforeInsert(x: Entry, s: seq<Entry>)
    requires SortedBySizeDesc(s) && s != [] && s[0].1 >= x.1
    requires SortedBySizeDesc(InsertBySize(x, s[1..]))
    requires multiset(InsertBySize(x, s[1..])) == multiset(s[1..]) + multiset{x}
    ensures SortedBySizeDesc(InsertBySize(x, s))
  {
    var rest := InsertBySize(x, s[1..]);
    assert InsertBySize(x, s) == [s[0]] + rest;
    forall i, j | 0 <= i < j < |rest| + 1
      ensures ([s[0]] + rest)[i].1 >= ([s[0]] + rest)[j].1
    {
      if i == 0 {
        var e := rest[j - 1];
        assert e in multiset(rest);
        if e != x {
          assert e in multiset(s[1..]);
          var k :| 0 <= k < |s[1..]| && s[1..][k] == e;
          assert s[k + 1] == e;
        }
      }
    }
  }

  /** The sort yields a permutation of its input in descending order of size. */
  lemma {:induction false} SortBySizeDescSpec(s: seq<Entry>)
    ensures SortedBySizeDesc(SortBySizeDesc(s))
    ensures multiset(SortBySizeDesc(s)) == multiset(s)
    ensures |SortBySizeDesc(s)| == |s|
    decreases |s|
  {
    if s != [] {
      var init := s[..|s| - 1];
      SortBySizeDescSpec(init);
      InsertBySizeSpec(s[|s| - 1], SortBySizeDesc(init));
      assert s == init + [s[|s| - 1]];
    }
  }

  /** Inserting adds the entry's size to the total. */
  lemma {:induction false} InsertBySizeSum(x: Entry, s: seq<Entry>)
    ensures SumSizes(InsertBySize(x, s)) == SumSizes(s) + x.1
    decreases |s|
  {
    if s == [] {
      assert SumSizes([x]) == x.1 by { assert |[x][..0]| == 0; }
    } else if s[0].1 >= x.1 {
      InsertBySizeSum(x, s[1..]);
      SumSizesAppend([s[0]], InsertBySize(x, s[1..]));
      SumSizesAppend([s[0]], s[1..]);
      var head: seq<Entry> := [s[0]];
      assert SumSizes(head) == s[0].1 by { assert head[..0] == []; }
      assert s == [s[0]] + s[1..];
    } else {
      SumSizesAppend([x], s);
      assert SumSizes([x]) == x.1 by { assert |[x][..0]| == 0; }
    }
  }

  /** Sorting keeps the total size, so the total printed before sorting is
      the size of the sorted list. */
  lemma {:induction false} SortBySizeDescSum(s: seq<Entry>)
    ensures SumSizes(SortBySizeDesc(s)) == SumSizes(s)
    decreases |s|
  {
    if s != [] {
      SortBySizeDescSum(s[..|s| - 1]);
      InsertBySizeSum(s[|s| - 1], SortBySizeDesc(s[..|s| - 1]));
    }
  }

  // ---------------------------------------------------------------------------
  // stability: the entries of each size appear in their original order

  function SizeIs(k: nat): Entry -> bool {
    (e: Entry) => e.1 == k
  }

  lemma FilterCons<T>(a: T, t: seq<T>, p: T -> bool)
    ensures Filter([a] + t, p) == (if p(a) then [a] else []) + Filter(t, p)
  {
    FilterAppend([a], t, p);
    FilterSnoc([], p, a);
    assert [] + [a] == [a];
  }

  /** In a list sorted by descending size that starts below `k`, no entry has size `k`. */
  lemma NoneOfSize(s: seq<Entry>, k: nat)
    requires SortedBySizeDesc(s) && (s == [] || s[0].1 < k)
    ensures Filter(s, SizeIs(k)) == []
  {
    forall e | e in s
      ensures !SizeIs(k)(e)
    {
      var i :| 0 <= i < |s| && s[i] == e;
      assert s[0].1 >= s[i].1;
    }
    FilterNone(s, SizeIs(k));
  }

  lemma {:induction false} InsertBySizeStable(x: Entry, s: seq<Entry>, k: nat)
    requires SortedBySizeDesc(s)
    ensures Filter(InsertBySize(x, s), SizeIs(k)) == Filter(s, SizeIs(k)) + (if x.1 == k then [x] else [])
    decreases |s|
  {
    if s == [] {
      FilterSnoc([], SizeIs(k), x);
      assert [] + [x] == [x];
    } else if s[0].1 >= x.1 {
      assert SortedBySizeDesc(s[1..]);
      InsertBySizeStable(x, s[1..], k);
      InsertAfterHead(x, s, k);
    } else {
      if x.1 == k {
        NoneOfSize(s, k);
      }
      InsertAtHead(x, s, k);
    }
  }

  /** The step of `InsertBySizeStable` where the head stays in front. */
  lemma InsertAfterHead(x: Entry, s: seq<Entry>, k: nat)
    requires s != [] && s[0].1 >= x.1
    requires Filter(InsertBySize(x, s[1..]), SizeIs(k)) == Filter(s[1..], SizeIs(k)) + (if x.1 == k then [x] else [])
    ensures Filter(InsertBySize(x, s), SizeIs(k)) == Filter(s, SizeIs(k)) + (if x.1 == k then [x] else [])
  {
    var ins := InsertBySize(x, s);
    assert ins[0] == s[0] && ins[1..] == InsertBySize(x, s[1..]);
    FilterHead(ins, SizeIs(k));
    FilterHead(s, SizeIs(k));
    AppendAssoc(if s[0].1 == k then [s[0]] else [], Filter(s[1..], SizeIs(k)), if x.1 == k then [x] else []);
  }

  lemma FilterHead<T>(s: seq<T>, p: T -> bool)
    requires s != []
    ensures Filter(s, p) == (if p(s[0]) then [s[0]] else []) + Filter(s[1..], p)
  {
    assert s == [s[0]] + s[1..];
    FilterCons(s[0], s[1..], p);
  }


  /** The step of `InsertBySizeStable` where the new entry goes in front. */
  lemma InsertAtHead(x: Entry, s: seq<Entry>, k: nat)
    requires s != [] && s[0].1 < x.1
    requires x.1 == k ==> Filter(s, SizeIs(k)) == []
    ensures Filter(InsertBySize(x, s), SizeIs(k)) == Filter(s, SizeIs(k)) + (if x.1 == k then [x] else [])
  {
    assert InsertBySize(x, s) == [x] + s;
    FilterCons(x, s, SizeIs(k));
    assert Filter(s, SizeIs(k)) + [] == Filter(s, SizeIs(k));
  }

  /** The sort is stable: for every size, the entries of that size come out in
      the order they went in. */
  lemma {:induction false} SortBySizeDescStable(s: seq<Entry>, k: nat)
    ensures Filter(SortBySizeDesc(s), SizeIs(k)) == Filter(s, SizeIs(k))
    decreases |s|
  {
    if s != [] {
      var init, last := s[..|s| - 1], s[|s| - 1];
      SortBySizeDescStable(init, k);
      SortBySizeDescSpec(init);
      InsertBySizeStable(last, SortBySizeDesc(init), k);
    }
  }

  // ---------------------------------------------------------------------------
  // the top ten and the "... and N more" line

  const ShownLimit: nat := 10

  /** `files[:10]` */
  function Shown(sorted: seq<Entry>): seq<Entry> {
    if |sorted| <= ShownLimit then sorted else sorted[..ShownLimit]
  }

  /** The N of "... and N more files", printed only when there are more than ten. */
  function MoreCount(n: nat): Option<nat> {
    if n > ShownLimit then Some(n - ShownLimit) else None
  }

  /** At most ten entries are shown, they are the first ones, the count on the
      "more" line accounts for exactly the rest, and on a sorted list every
      shown entry is at least as large as every entry left out. */
  lemma ShownSpec(sorted: seq<Entry>)
    ensures |Shown(sorted)| <= ShownLimit && Shown(sorted) <= sorted
    ensures |Shown(sorted)| + MoreCount(|sorted|).GetOr(0) == |sorted|
    ensures MoreCount(|sorted|).Some? <==> |Shown(sorted)| < |sorted|
    ensures SortedBySizeDesc(sorted) ==>
      forall i, j :: 0 <= i < |Shown(sorted)| <= j < |sorted| ==> Shown(sorted)[i].1 >= sorted[j].1
  {
  }

  /** The entries shown after sorting are in descending order of size and
      each of them is one of the entries listed. */
  lemma ShownOfSorted(s: seq<Entry>)
    ensures SortedBySizeDesc(Shown(SortBySizeDesc(s)))
    ensures forall e :: e in Shown(SortBySizeDesc(s)) ==> e in s
  {
    var sorted := SortBySizeDesc(s);
    SortBySizeDescSpec(s);
    ShownSpec(sorted);
    forall e | e in Shown(sorted)
      ensures e in s
    {
      assert e in multiset(sorted);
    }
  }

  /** What is printed before the prompt: the number of entries, their total
      size, the largest ten and the count on the "... and N more" line. */
  datatype Report = Report(found: nat, totalSize: nat, shown: seq<Entry>, more: Option<nat>)

  function ReportOf(sorted: seq<Entry>, totalSize: nat): Report {
    Report(|sorted|, totalSize, Shown(sorted), MoreCount(|sorted|))
  }
}
