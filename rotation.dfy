/** `_sorted_checkpoints` and the selection half of `_rotate_checkpoints`
    of finetuning_BERT_on_semeval_corpora.py. The glob listing of the
    output directory is a parameter; the directories `shutil.rmtree`
    would remove are the result. */
module Rotation {
  import opened Wrappers
  import opened Checkpoints
  import opened Ints

  /** The `(int(step), path)` tuple the listing loop collects. */
  datatype Entry = Entry(step: nat, path: string)

  /** Python's tuple order: by step, then by path. */
  predicate EntryLt(x: Entry, y: Entry) {
    x.step < y.step || (x.step == y.step && PathLt(x.path, y.path))
  }

  predicate EntryLe(x: Entry, y: Entry) {
    x == y || EntryLt(x, y)
  }

  lemma EntryLeTotal(x: Entry, y: Entry)
    ensures EntryLe(x, y) || EntryLt(y, x)
  {
    PathLtTrichotomy(x.path, y.path);
  }

  lemma EntryLeTransitive(x: Entry, y: Entry, z: Entry)
    requires EntryLe(x, y) && EntryLe(y, z)
    ensures EntryLe(x, z)
  {
    if x != y && y != z && x.step == y.step == z.step {
      PathLtTransitive(x.path, y.path, z.path);
    }
  }

  ghost predicate Ascending(es: seq<Entry>) {
    forall a, b :: 0 <= a < b < |es| ==> EntryLe(es[a], es[b])
  }

  // ---------------------------------------------------------------------
  // `sorted()` on the tuples

  /** `e` placed before the first element it does not exceed. */
  function Insert(e: Entry, s: seq<Entry>): (r: seq<Entry>)
    ensures multiset(r) == multiset(s) + multiset{e}
  {
    if s == [] then [e]
    else if EntryLe(e, s[0]) then [e] + s
    else
      assert s == [s[0]] + s[1..];
      [s[0]] + Insert(e, s[1..])
  }

  /** The builtin `sorted`: the tuples in ascending order. */
  function Sorted(es: seq<Entry>): seq<Entry>
  {
    if es == [] then [] else Insert(es[0], Sorted(es[1..]))
  }

  /** An element no larger than the head of an ascending list may go in
      front of it. */
  lemma InsertAscendingFront(e: Entry, s: seq<Entry>)
    requires Ascending(s) && s != [] && EntryLe(e, s[0])
    ensures Ascending([e] + s)
  {
    var r := [e] + s;
    forall a, b | 0 <= a < b < |r| ensures EntryLe(r[a], r[b]) {
      if a == 0 && b > 1 {
        EntryLeTransitive(e, s[0], s[b - 1]);
      }
    }
  }

  /** Inserting behind the head of an ascending list keeps the head below
      everything that follows it. */
  lemma InsertBehindHead(e: Entry, s: seq<Entry>)
    requires Ascending(s) && s != [] && EntryLe(s[0], e)
    ensures forall x :: x in Insert(e, s[1..]) ==> EntryLe(s[0], x)
  {
    forall x | x in Insert(e, s[1..]) ensures EntryLe(s[0], x) {
      assert x in multiset(Insert(e, s[1..]));
      if x != e {
        assert x in multiset(s[1..]);
        var k :| 0 <= k < |s[1..]| && s[1..][k] == x;
        assert s[k + 1] == x;
      }
    }
  }

  lemma {:induction false} InsertAscending(e: Entry, s: seq<Entry>)
    requires Ascending(s)
    ensures Ascending(Insert(e, s))
  {
    if s == [] {
    } else if EntryLe(e, s[0]) {
      InsertAscendingFront(e, s);
    } else {
      EntryLeTotal(e, s[0]);
      var t := Insert(e, s[1..]);
      InsertAscending(e, s[1..]);
      InsertBehindHead(e, s);
      var r := [s[0]] + t;
      forall a, b | 0 <= a < b < |r| ensures EntryLe(r[a], r[b]) {
        if a == 0 {
          assert r[b] in t;
        } else {
          assert r[a] == t[a - 1] && r[b] == t[b - 1];
        }
      }
    }
  }

  /** `sorted` returns its input in ascending tuple order, and nothing
      else: a permutation of it. */
  lemma {:induction false} SortedSpec(es: seq<Entry>)
    ensures Ascending(Sorted(es))
    ensures multiset(Sorted(es)) == multiset(es)
  {
    if es != [] {
      SortedSpec(es[1..]);
      InsertAscending(es[0], Sorted(es[1..]));
      assert es == [es[0]] + es[1..];
    }
  }

  // ---------------------------------------------------------------------
  // `_sorted_checkpoints`

  /** The tuples the listing loop keeps: the paths with a step number, in
      listing order. */
  function Numbered(paths: seq<string>, prefix: string): (es: seq<Entry>)
    ensures forall e :: e in es ==> e.path in paths && StepOf(e.path, prefix) == Some(e.step)
  {
    if paths == [] then []
    else
      var last := paths[|paths| - 1];
      var es := Numbered(paths[..|paths| - 1], prefix);
      match StepOf(last, prefix)
      case Some(n) => es + [Entry(n, last)]
      case None => es
  }

  /** A path is kept exactly when it has a step number. */
  lemma {:induction false} NumberedMembers(paths: seq<string>, prefix: string, p: string)
    ensures (exists e :: e in Numbered(paths, prefix) && e.path == p) <==> (p in paths && StepOf(p, prefix).Some?)
  {
    if paths != [] {
      var init := paths[..|paths| - 1];
      NumberedMembers(init, prefix, p);
      assert paths == init + [paths[|paths| - 1]];
      if p in paths && StepOf(p, prefix).Some? && p !in init {
        assert Entry(StepOf(p, prefix).value, p) in Numbered(paths, prefix);
      }
    }
  }

  /** The second components of the tuples: the list comprehension at the end. */
  function PathsOf(es: seq<Entry>): (ps: seq<string>)
    ensures |ps| == |es|
    ensures forall k :: 0 <= k < |es| ==> ps[k] == es[k].path
  {
    if es == [] then [] else [es[0].path] + PathsOf(es[1..])
  }

  /** What `_sorted_checkpoints` returns for a listing. */
  function SortedPaths(paths: seq<string>, prefix: string): seq<string>
  {
    PathsOf(Sorted(Numbered(paths, prefix)))
  }

  /** `_sorted_checkpoints` without `use_mtime`: collect the numbered
      paths in a loop, then sort the tuples and keep the paths. */
  method SortedCheckpoints(paths: seq<string>, prefix: string) returns (r: seq<string>)
    ensures r == SortedPaths(paths, prefix)
  {
    var ordering: seq<Entry> := [];
    for i := 0 to |paths|
      invariant ordering == Numbered(paths[..i], prefix)
    {
      assert paths[..i + 1][..i] == paths[..i];
      var m := StepOf(paths[i], prefix);
      if m.Some? {
        ordering := ordering + [Entry(m.value, paths[i])];
      }
    }
    assert paths[..|paths|] == paths;
    r := PathsOf(Sorted(ordering));
  }

  /** The listing order: each returned path has a step number, and the
      paths come in ascending (step, path) order. */
  lemma SortedPathsOrdered(paths: seq<string>, prefix: string)
    ensures var r := SortedPaths(paths, prefix);
      && (forall k :: 0 <= k < |r| ==> StepOf(r[k], prefix).Some?)
      && (forall a, b :: 0 <= a < b < |r| ==>
            EntryLe(Entry(StepOf(r[a], prefix).value, r[a]), Entry(StepOf(r[b], prefix).value, r[b])))
  {
    var es := Numbered(paths, prefix);
    var s := Sorted(es);
    SortedSpec(es);
    var r := PathsOf(s);
    forall k | 0 <= k < |s| ensures StepOf(r[k], prefix) == Some(s[k].step) && r[k] == s[k].path {
      assert s[k] in multiset(es);
    }
  }

  /** A path is returned exactly when it is listed and has a step number. */
  lemma SortedPathsHas(paths: seq<string>, prefix: string, p: string)
    ensures p in SortedPaths(paths, prefix) <==> p in paths && StepOf(p, prefix).Some?
  {
    var es := Numbered(paths, prefix);
    var s := Sorted(es);
    SortedSpec(es);
    var r := PathsOf(s);
    NumberedMembers(paths, prefix, p);
    if p in paths && StepOf(p, prefix).Some? {
      var e :| e in es && e.path == p;
      assert e in multiset(s);
      var k :| 0 <= k < |s| && s[k] == e;
      assert r[k] == p;
    }
    if p in r {
      var k :| 0 <= k < |r| && r[k] == p;
      assert s[k] in multiset(es);
    }
  }

  /** The returned paths are exactly the numbered paths of the listing,
      one per listed occurrence. */
  lemma SortedPathsMembers(paths: seq<string>, prefix: string)
    ensures var r := SortedPaths(paths, prefix);
      && |r| == |Numbered(paths, prefix)|
      && (forall p :: p in r <==> p in paths && StepOf(p, prefix).Some?)
  {
    var es := Numbered(paths, prefix);
    SortedSpec(es);
    forall p ensures p in SortedPaths(paths, prefix) <==> p in paths && StepOf(p, prefix).Some? {
      SortedPathsHas(paths, prefix, p);
    }
    assert |Sorted(es)| == |es| by {
      assert |multiset(Sorted(es))| == |multiset(es)|;
    }
  }

  // ---------------------------------------------------------------------
  // `_rotate_checkpoints`

  /** The checkpoints to delete from the sorted list. What is deleted is a
      prefix of it (the oldest); nothing is deleted exactly when the limit
      is unset, zero or negative, or the count is within it; and a positive
      limit leaves min(count, limit) checkpoints. */
  function ToDelete(sorted: seq<string>, limit: Option<int>): (d: seq<string>)
    ensures |d| <= |sorted| && d == sorted[..|d|]
    ensures d == [] <==> (limit.None? || limit.value <= 0 || |sorted| <= limit.value)
    ensures limit.Some? && limit.value > 0 ==> |sorted| - |d| == Min(|sorted|, limit.value)
  {
    if limit.None? || limit.value == 0 then []
    else if limit.value < 0 then []
    else if |sorted| <= limit.value then []
    else sorted[..Max(0, |sorted| - limit.value)]
  }

  /** `_rotate_checkpoints` without `use_mtime`: the early returns, the
      listing, and the loop over the directories to remove, each appended
      to `removed` in the order `shutil.rmtree` is called on it. */
  method RotateCheckpoints(paths: seq<string>, prefix: string, limit: Option<int>) returns (removed: seq<string>)
    ensures removed == ToDelete(SortedPaths(paths, prefix), limit)
  {
    removed := [];
    if limit.None? || limit.value == 0 {
      return;
    }
    if limit.value <= 0 {
      return;
    }
    var sorted := SortedCheckpoints(paths, prefix);
    if |sorted| <= limit.value {
      return;
    }
    var count := Max(0, |sorted| - limit.value);
    var toDelete := sorted[..count];
    for i := 0 to |toDelete|
      invariant removed == toDelete[..i]
    {
      removed := removed + [toDelete[i]];
    }
  }

  /** Rotation removes only listed checkpoints, every one of
      them older in (step, path) order than every checkpoint it keeps, and
      with a positive limit leaves min(count, limit) numbered ones. */
  lemma RotationDeletesOldest(paths: seq<string>, prefix: string, limit: Option<int>)
    ensures var sorted := SortedPaths(paths, prefix);
      var d := ToDelete(sorted, limit);
      && (forall k :: 0 <= k < |sorted| ==> StepOf(sorted[k], prefix).Some?)
      && (forall p :: p in d ==> p in paths)
      && (forall a, b :: 0 <= a < |d| <= b < |sorted| ==>
            EntryLe(Entry(StepOf(sorted[a], prefix).value, sorted[a]), Entry(StepOf(sorted[b], prefix).value, sorted[b])))
      && (limit.Some? && limit.value > 0 ==> |sorted| - |d| == Min(|Numbered(paths, prefix)|, limit.value))
  {
    var sorted := SortedPaths(paths, prefix);
    var d := ToDelete(sorted, limit);
    assert forall p :: p in d ==> p in paths by {
      SortedPathsMembers(paths, prefix);
      forall p | p in d ensures p in paths {
        var k :| 0 <= k < |d| && d[k] == p;
        assert sorted[k] == p;
      }
    }
    SortedPathsOrdered(paths, prefix);
    assert forall a, b :: 0 <= a < |d| <= b < |sorted| ==>
        EntryLe(Entry(StepOf(sorted[a], prefix).value, sorted[a]), Entry(StepOf(sorted[b], prefix).value, sorted[b])) by {
      assert |d| <= |sorted|;
    }
    assert |sorted| == |Numbered(paths, prefix)| by {
      SortedPathsMembers(paths, prefix);
    }
  }
}
