/** Helpers shared by every script of the voice service: an option type and the
    few Python string and list operations the scripts rely on (`str.lower`, the
    `in` substring test, `url.split('/')[-1]`, `str.replace`, list
    comprehensions and `sum`). */
module Common {

  datatype Option<+T> = None | Some(value: T) {
    function GetOr(default: T): T {
      match this
      case Some(v) => v
      case None => default
    }
  }

  type Path = string

  // ---------------------------------------------------------------------------
  // str.lower(), for the ASCII letters the scripts compare against

  function LowerChar(c: char): char {
    if 'A' <= c <= 'Z' then (c as int + 32) as char else c
  }

  predicate NoCapitals(s: string) {
    forall i :: 0 <= i < |s| ==> !('A' <= s[i] <= 'Z')
  }

  /** `r` is `s` with each capital replaced by the small letter at the same
      place in the alphabet, and every other character kept where it was. */
  predicate CapitalsLowered(s: string, r: string) {
    |r| == |s| &&
    (forall i :: 0 <= i < |s| && 'A' <= s[i] <= 'Z' ==> 'a' <= r[i] <= 'z' && r[i] as int - 'a' as int == s[i] as int - 'A' as int) &&
    (forall i :: 0 <= i < |s| && !('A' <= s[i] <= 'Z') ==> r[i] == s[i])
  }

  /** `str.lower()` on ASCII text. */
  function Lower(s: string): (r: string)
    ensures |r| == |s|
  {
    seq(|s|, i requires 0 <= i < |s| => LowerChar(s[i]))
  }

  /** No capital letter is left; each capital becomes the small letter at the
      same place in the alphabet, and every other character is kept where it
      was. */
  lemma LowerSpec(s: string)
    ensures NoCapitals(Lower(s)) && CapitalsLowered(s, Lower(s))
  {
    var r := Lower(s);
    forall i | 0 <= i < |s|
      ensures !('A' <= r[i] <= 'Z')
    {
      assert r[i] == LowerChar(s[i]);
    }
  }

  /** Lowering twice is lowering once, so `x.lower() == "y"` sees the reply as typed or as already lowered alike. */
  lemma LowerIdempotent(s: string)
    ensures Lower(Lower(s)) == Lower(s)
  {
    assert forall i :: 0 <= i < |s| ==> LowerChar(LowerChar(s[i])) == LowerChar(s[i]);
  }

  // ---------------------------------------------------------------------------
  // `key in text` for strings: a substring test

  predicate Contains(text: string, key: string) {
    exists i {:trigger text[i..]} :: 0 <= i <= |text| - |key| && key <= text[i..]
  }

  /** A witness position proves containment. */
  lemma ContainsAt(text: string, key: string, i: int)
    requires 0 <= i <= |text| - |key| && text[i..i + |key|] == key
    ensures Contains(text, key)
  {
    assert key <= text[i..];
  }

  /** A key whose first character never occurs in the text is not contained in it. */
  lemma NotContainsFirstChar(text: string, key: string)
    requires key != [] && key[0] !in text
    ensures !Contains(text, key)
  {
    NotContainsChar(text, key, 0);
  }

  /** A key with a character that never occurs in the text is not contained in it. */
  lemma NotContainsChar(text: string, key: string, k: nat)
    requires k < |key| && key[k] !in text
    ensures !Contains(text, key)
  {
    forall i | 0 <= i <= |text| - |key|
      ensures !(key <= text[i..])
    {
      assert text[i + k] in text;
    }
  }

  // ---------------------------------------------------------------------------
  // url.split('/')[-1]: the text after the last '/'

  function LastSegment(s: string): string {
    s[SegmentStart(s)..]
  }

  /** Where the last segment starts: just after the last '/', or 0. */
  function SegmentStart(s: string): (k: nat)
    ensures k <= |s|
  {
    if s == [] then 0
    else if s[|s| - 1] == '/' then |s|
    else SegmentStart(s[..|s| - 1])
  }

  /** The last segment is a '/'-free suffix of the string, and it is preceded
      by a '/' unless it is the whole string. */
  lemma {:induction false} LastSegmentSpec(s: string)
    ensures '/' !in LastSegment(s)
    ensures LastSegment(s) == s[|s| - |LastSegment(s)|..]
    ensures |LastSegment(s)| < |s| ==> s[|s| - |LastSegment(s)| - 1] == '/'
  {
    SegmentStartSpec(s);
  }

  lemma {:induction false} SegmentStartSpec(s: string)
    ensures forall i :: SegmentStart(s) <= i < |s| ==> s[i] != '/'
    ensures SegmentStart(s) > 0 ==> s[SegmentStart(s) - 1] == '/'
  {
    if s != [] && s[|s| - 1] != '/' {
      var init := s[..|s| - 1];
      SegmentStartSpec(init);
      assert forall i :: 0 <= i < |init| ==> init[i] == s[i];
    }
  }

  /** The segment after an explicit final '/' is the file name itself. */
  lemma {:induction false} LastSegmentOfJoin(dir: string, file: string)
    requires '/' !in file
    ensures LastSegment(dir + "/" + file) == file
  {
    SegmentStartOfJoin(dir, file);
    var s := dir + "/" + file;
    assert s[|dir| + 1..] == file;
  }

  lemma {:induction false} SegmentStartOfJoin(dir: string, file: string)
    requires '/' !in file
    ensures SegmentStart(dir + "/" + file) == |dir| + 1
  {
    var s := dir + "/" + file;
    if file == [] {
      assert s[|s| - 1] == '/';
    } else {
      assert file[|file| - 1] in file;
      assert s[..|s| - 1] == dir + "/" + file[..|file| - 1];
      SegmentStartOfJoin(dir, file[..|file| - 1]);
    }
  }

  // ---------------------------------------------------------------------------
  // os.path.join(a, b) with two arguments

  function Join(dir: Path, name: string): (r: Path)
    ensures name != [] && name[0] == '/' ==> r == name
  {
    if name != [] && name[0] == '/' then name
    else if dir == [] || dir[|dir| - 1] == '/' then dir + name
    else dir + "/" + name
  }

  /** An absolute name replaces the directory. A relative name is appended to
      the directory with one '/' in between, added only when the directory
      does not already end with one; so the file name of the joined path is
      the name itself. */
  lemma JoinSpec(dir: Path, name: string)
    ensures name != [] && name[0] == '/' ==> Join(dir, name) == name
    ensures !(name != [] && name[0] == '/') ==>
      var r := Join(dir, name);
      dir <= r && r[|r| - |name|..] == name && |r| <= |dir| + 1 + |name| &&
      (dir != [] ==> |r| > |name| && r[|r| - |name| - 1] == '/')
    ensures '/' !in name ==> LastSegment(Join(dir, name)) == name
  {
    if '/' !in name {
      if dir == [] {
        assert Join(dir, name) == name;
        LastSegmentSpec(name);
      } else if dir[|dir| - 1] == '/' {
        assert Join(dir, name) == dir[..|dir| - 1] + "/" + name;
        LastSegmentOfJoin(dir[..|dir| - 1], name);
      } else {
        LastSegmentOfJoin(dir, name);
      }
    }
  }

  // ---------------------------------------------------------------------------
  // str.replace with a one-character pattern

  /** No `from` is left (unless it is also `to`), every other character keeps
      its position, and each occurrence of `from` is now `to`. */
  function ReplaceChar(s: string, from: char, to: char): (r: string)
    ensures |r| == |s|
    ensures from != to ==> from !in r
    ensures forall i :: 0 <= i < |s| && s[i] != from ==> r[i] == s[i]
    ensures forall i :: 0 <= i < |s| && s[i] == from ==> r[i] == to
  {
    seq(|s|, i requires 0 <= i < |s| => if s[i] == from then to else s[i])
  }

  /** Replacing back undoes a replacement by a character the text did not
      contain. */
  lemma ReplaceCharBack(s: string, from: char, to: char)
    requires to !in s
    ensures ReplaceChar(ReplaceChar(s, from, to), to, from) == s
  {
    var r := ReplaceChar(s, from, to);
    assert forall i :: 0 <= i < |s| ==> (r[i] == to <==> s[i] == from);
  }

  /** `s.replace(c, '')`: every occurrence of `c` deleted, the other characters kept in order. */
  function DeleteChar(s: string, c: char): (r: string)
    ensures c !in r
    ensures |r| <= |s|
  {
    if s == [] then []
    else (if s[0] == c then [] else [s[0]]) + DeleteChar(s[1..], c)
  }

  /** Deleting distributes over concatenation. */
  lemma {:induction false} DeleteCharAppend(a: string, b: string, c: char)
    ensures DeleteChar(a + b, c) == DeleteChar(a, c) + DeleteChar(b, c)
  {
    if a == [] {
      assert a + b == b;
    } else {
      var head := if a[0] == c then [] else [a[0]];
      assert (a + b)[0] == a[0] && (a + b)[1..] == a[1..] + b;
      assert DeleteChar(a + b, c) == head + DeleteChar(a[1..] + b, c);
      DeleteCharAppend(a[1..], b, c);
      assert head + (DeleteChar(a[1..], c) + DeleteChar(b, c)) == (head + DeleteChar(a[1..], c)) + DeleteChar(b, c);
    }
  }

  /** Deleting a character that does not occur changes nothing. */
  lemma {:induction false} DeleteCharAbsent(s: string, c: char)
    requires c !in s
    ensures DeleteChar(s, c) == s
  {
    if s != [] {
      DeleteCharAbsent(s[1..], c);
    }
  }

  /** Every character other than the deleted one survives. */
  lemma {:induction false} DeleteCharKeeps(s: string, c: char, d: char)
    requires d != c
    ensures d in s <==> d in DeleteChar(s, c)
  {
    if s != [] {
      DeleteCharKeeps(s[1..], c, d);
      assert s == [s[0]] + s[1..];
    }
  }

  // ---------------------------------------------------------------------------
  // list comprehensions `[x for x in xs if p(x)]` and subsequences

  function Filter<T>(s: seq<T>, p: T -> bool): (r: seq<T>)
    ensures |r| <= |s|
    ensures forall x :: x in r ==> x in s && p(x)
  {
    if s == [] then []
    else Filter(s[..|s| - 1], p) + (if p(s[|s| - 1]) then [s[|s| - 1]] else [])
  }

  /** The elements of a sequence are those before its last one, and the last one. */
  lemma InSnoc<T>(s: seq<T>)
    requires s != []
    ensures forall x :: x in s <==> x in s[..|s| - 1] || x == s[|s| - 1]
  {
    assert s == s[..|s| - 1] + [s[|s| - 1]];
  }

  /** Concatenation is associative. */
  lemma AppendAssoc<T>(a: seq<T>, b: seq<T>, c: seq<T>)
    ensures a + (b + c) == (a + b) + c
  {
  }

  /** Filtering one more element at the end. */
  lemma FilterSnoc<T>(s: seq<T>, p: T -> bool, x: T)
    ensures Filter(s + [x], p) == Filter(s, p) + (if p(x) then [x] else [])
  {
    assert (s + [x])[..|s|] == s;
  }

  /** Filtering distributes over concatenation. */
  lemma {:induction false} FilterAppend<T>(a: seq<T>, b: seq<T>, p: T -> bool)
    ensures Filter(a + b, p) == Filter(a, p) + Filter(b, p)
    decreases |b|
  {
    if b == [] {
      assert a + b == a;
    } else {
      var init, last := b[..|b| - 1], b[|b| - 1];
      var ab := a + b;
      var kept := if p(last) then [last] else [];
      assert ab[..|ab| - 1] == a + init && ab[|ab| - 1] == last;
      assert Filter(ab, p) == Filter(a + init, p) + kept;
      assert Filter(b, p) == Filter(init, p) + kept;
      FilterAppend(a, init, p);
      AppendAssoc(Filter(a, p), Filter(init, p), kept);
    }
  }

  /** Filtering two parts whose filters are known. */
  lemma FilterJoin<T>(a: seq<T>, b: seq<T>, p: T -> bool, ra: seq<T>, rb: seq<T>)
    requires Filter(a, p) == ra && Filter(b, p) == rb
    ensures Filter(a + b, p) == ra + rb
  {
    FilterAppend(a, b, p);
  }

  /** Nothing passes a filter that no element satisfies. */
  lemma {:induction false} FilterNone<T>(s: seq<T>, p: T -> bool)
    requires forall x :: x in s ==> !p(x)
    ensures Filter(s, p) == []
  {
    if s != [] {
      assert s[|s| - 1] in s;
      FilterNone(s[..|s| - 1], p);
    }
  }

  /** The filter keeps every element that satisfies the predicate. */
  lemma {:induction false} FilterKeepsAll<T>(s: seq<T>, p: T -> bool, x: T)
    requires x in s && p(x)
    ensures x in Filter(s, p)
  {
    var last := s[|s| - 1];
    if x != last {
      assert x in s[..|s| - 1] by {
        var i :| 0 <= i < |s| && s[i] == x;
        assert i < |s| - 1;
        assert s[..|s| - 1][i] == x;
      }
      FilterKeepsAll(s[..|s| - 1], p, x);
    }
  }

  /** `a` is `b` with some elements dropped and the rest kept in order. */
  predicate IsSubsequence<T(==)>(a: seq<T>, b: seq<T>)
    decreases |b|
  {
    if a == [] then true
    else if b == [] then false
    else ((a[|a| - 1] == b[|b| - 1] && IsSubsequence(a[..|a| - 1], b[..|b| - 1]))
          || IsSubsequence(a, b[..|b| - 1]))
  }

  /** Appending an element to the larger sequence keeps the relation. */
  lemma {:induction false} SubsequenceExtend<T>(a: seq<T>, b: seq<T>, x: T)
    requires IsSubsequence(a, b)
    ensures IsSubsequence(a, b + [x]) && IsSubsequence(a + [x], b + [x])
  {
    assert (b + [x])[..|b|] == b;
    assert (a + [x])[..|a|] == a;
  }

  /** A filter yields a subsequence of its input. */
  lemma {:induction false} FilterIsSubsequence<T>(s: seq<T>, p: T -> bool)
    ensures IsSubsequence(Filter(s, p), s)
  {
    if s == [] {
    } else {
      var init, last := s[..|s| - 1], s[|s| - 1];
      assert s == init + [last];
      FilterIsSubsequence(init, p);
      SubsequenceExtend(Filter(init, p), init, last);
      if p(last) {
        assert Filter(s, p) == Filter(init, p) + [last];
      } else {
        assert Filter(s, p) == Filter(init, p);
      }
    }
  }

  // ---------------------------------------------------------------------------
  // sums over (path, size) lists

  function SumSizes(entries: seq<(Path, nat)>): nat {
    if entries == [] then 0 else SumSizes(entries[..|entries| - 1]) + entries[|entries| - 1].1
  }

  /** The sum of a concatenation is the sum of the parts. */
  lemma {:induction false} SumSizesAppend(a: seq<(Path, nat)>, b: seq<(Path, nat)>)
    ensures SumSizes(a + b) == SumSizes(a) + SumSizes(b)
    decreases |b|
  {
    if b == [] {
      assert a + b == a;
    } else {
      assert (a + b)[..|a + b| - 1] == a + b[..|b| - 1];
      SumSizesAppend(a, b[..|b| - 1]);
    }
  }
}
