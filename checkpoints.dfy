/** Checkpoint bookkeeping of finetuning_BERT_on_semeval_corpora.py:
    `_sorted_checkpoints` orders the saved checkpoint directories by the
    step number in their names, and `_rotate_checkpoints` picks the oldest
    ones to delete so that at most `save_total_limit` remain. The directory
    listing is a parameter and the deletion is the returned list. */
module Checkpoints {
  import opened Wrappers
  import opened Decimal

  /** Python's `<` on strings: lexicographic by code point, a proper prefix
      before its extensions. */
  predicate PathLt(a: string, b: string)
    decreases |a|
  {
    if |b| == 0 then false
    else if |a| == 0 then true
    else if a[0] != b[0] then a[0] < b[0]
    else PathLt(a[1..], b[1..])
  }

  /** Exactly one of `a < b`, `a == b`, `b < a` holds. */
  lemma {:induction false} PathLtTrichotomy(a: string, b: string)
    ensures PathLt(a, b) || a == b || PathLt(b, a)
    ensures !(PathLt(a, b) && PathLt(b, a))
  {
    if |a| > 0 && |b| > 0 && a[0] == b[0] {
      PathLtTrichotomy(a[1..], b[1..]);
      if a[1..] == b[1..] {
        assert a == [a[0]] + a[1..] && b == [b[0]] + b[1..];
      }
    }
  }

  lemma {:induction false} PathLtTransitive(a: string, b: string, c: string)
    requires PathLt(a, b) && PathLt(b, c)
    ensures PathLt(a, c)
  {
    if |a| > 0 && a[0] == b[0] && b[0] == c[0] {
      PathLtTransitive(a[1..], b[1..], c[1..]);
    }
  }

  // ---------------------------------------------------------------------
  // The step number in a checkpoint path

  /** The first position at which `.` stops matching: the first newline,
      or the end of the path. */
  function DotLimit(path: string): (k: nat)
    ensures k <= |path|
  {
    if |path| == 0 || path[0] == '\n' then 0 else 1 + DotLimit(path[1..])
  }

  /** On a path without newlines, `.*` can take the whole path. */
  lemma {:induction false} DotLimitNoNewline(path: string)
    requires '\n' !in path
    ensures DotLimit(path) == |path|
  {
    if |path| > 0 {
      assert path[0] in path;
      DotLimitNoNewline(path[1..]);
    }
  }

  /** `p` is a prefix of `s`. */
  predicate StartsWith(s: string, p: string)
    decreases |p|
  {
    |p| == 0 || (|s| > 0 && s[0] == p[0] && StartsWith(s[1..], p[1..]))
  }

  lemma {:induction false} StartsWithPrefix(s: string, p: string)
    requires StartsWith(s, p)
    ensures |p| <= |s| && s[..|p|] == p
  {
    if |p| > 0 {
      StartsWithPrefix(s[1..], p[1..]);
      assert s[..|p|] == [s[0]] + s[1..][..|p| - 1];
    }
  }

  /** `prefix-` followed by at least one digit starts at position j. */
  predicate MatchAt(path: string, prefix: string, j: int)
  {
    && 0 <= j <= |path|
    && StartsWith(path[j..], prefix)
    && j + |prefix| + 1 < |path|
    && path[j + |prefix|] == '-'
    && IsDigit(path[j + |prefix| + 1])
  }

  /** The greatest j' <= j at which the rest of the pattern matches: the
      greedy `.*` gives back characters one at a time from the longest
      run it can take. */
  function LastMatch(path: string, prefix: string, j: int): (r: Option<nat>)
    decreases j
    ensures r.Some? ==> r.value <= j && MatchAt(path, prefix, r.value)
  {
    if j < 0 then None
    else if MatchAt(path, prefix, j) then Some(j)
    else LastMatch(path, prefix, j - 1)
  }

  /** No position after the one found matches up to j; with no position
      found, nothing up to j matches. */
  lemma {:induction false} LastMatchSpec(path: string, prefix: string, j: int)
    decreases j
    ensures var r := LastMatch(path, prefix, j);
      && (r.Some? ==> forall j' :: r.value < j' <= j ==> !MatchAt(path, prefix, j'))
      && (r.None? ==> forall j' :: 0 <= j' <= j ==> !MatchAt(path, prefix, j'))
  {
    if j >= 0 && !MatchAt(path, prefix, j) {
      LastMatchSpec(path, prefix, j - 1);
    }
  }

  /** The length of the run of digits at the start of s. */
  function DigitRun(s: string): (n: nat)
    ensures n <= |s|
    ensures forall k :: 0 <= k < n ==> IsDigit(s[k])
    ensures n < |s| ==> !IsDigit(s[n])
  {
    if |s| > 0 && IsDigit(s[0]) then 1 + DigitRun(s[1..]) else 0
  }

  /** `int` of the maximal run of digits at the start of s. */
  function ReadDigits(s: string): nat
  {
    var n := DigitRun(s);
    assert AllDigits(s[..n]);
    DigitsValue(s[..n])
  }

  /** `re.match(".*{prefix}-([0-9]+)", path)` and `int` of its group: the
      number after the last `prefix-` that is followed by a digit and
      starts before the first newline, read up to the first non-digit; no
      number when there is no such occurrence. The prefix is taken
      literally. */
  function StepOf(path: string, prefix: string): Option<nat>
  {
    match LastMatch(path, prefix, DotLimit(path))
    case None => None
    case Some(j) => Some(ReadDigits(path[j + |prefix| + 1..]))
  }

  /** A path has a step number exactly when `prefix-` and a digit start
      somewhere before its first newline. */
  lemma StepOfDefined(path: string, prefix: string)
    ensures StepOf(path, prefix).Some? <==> exists j :: 0 <= j <= DotLimit(path) && MatchAt(path, prefix, j)
  {
    LastMatchSpec(path, prefix, DotLimit(path));
  }

  /** The number read belongs to the last qualifying occurrence, and is the
      value of the whole digit run that follows it. */
  lemma {:induction false} StepOfLastOccurrence(path: string, prefix: string, j: nat)
    requires j <= DotLimit(path) && MatchAt(path, prefix, j)
    requires forall j' :: j < j' <= DotLimit(path) ==> !MatchAt(path, prefix, j')
    ensures StepOf(path, prefix) == Some(ReadDigits(path[j + |prefix| + 1..]))
  {
    LastMatchIs(path, prefix, j, DotLimit(path));
  }

  lemma {:induction false} StartsWithAppend(x: string, y: string)
    ensures StartsWith(x + y, x)
  {
    if |x| > 0 {
      assert (x + y)[1..] == x[1..] + y;
      StartsWithAppend(x[1..], y);
    }
  }

  lemma {:induction false} DigitRunAll(d: string)
    requires AllDigits(d)
    ensures DigitRun(d) == |d|
  {
    if |d| > 0 {
      DigitRunAll(d[1..]);
    }
  }

  lemma {:induction false} SavedPathNoNewline(dir: string, d: string)
    requires '\n' !in dir && AllDigits(d)
    ensures '\n' !in dir + "checkpoint-" + d
  {
    var p := dir + "checkpoint-" + d;
    var s := |dir|;
    forall i | 0 <= i < |p| ensures p[i] != '\n' {
      if i < s {
        assert p[i] in dir;
      } else if i >= s + 11 {
        assert p[i] == d[i - s - 11] && IsDigit(d[i - s - 11]);
      }
    }
  }

  /** Past the `checkpoint-` written by the trainer nothing matches again:
      no `c` starts a later `checkpoint` inside it or the digits. */
  lemma {:induction false} SavedPathLastMatch(dir: string, d: string)
    requires AllDigits(d)
    ensures forall j :: |dir| < j <= |dir + "checkpoint-" + d| ==> !MatchAt(dir + "checkpoint-" + d, "checkpoint", j)
  {
    var p := dir + "checkpoint-" + d;
    var s := |dir|;
    forall j | s < j <= |p| ensures !MatchAt(p, "checkpoint", j) {
      if j < |p| {
        if j >= s + 11 {
          assert p[j] == d[j - s - 11] && IsDigit(d[j - s - 11]);
        } else if j == s + 3 {
          assert p[j + 1] == 'k';
        } else {
          assert p[j] != 'c';
        }
      }
    }
  }

  /** A string of nothing but digits is read whole. */
  lemma {:induction false} ReadAllDigits(d: string)
    requires AllDigits(d)
    ensures ReadDigits(d) == DigitsValue(d)
  {
    DigitRunAll(d);
    assert d[..|d|] == d;
  }

  /** The greedy search settles on s when s matches and nothing after it
      up to j does. */
  lemma {:induction false} LastMatchIs(path: string, prefix: string, s: nat, j: int)
    requires s <= j && MatchAt(path, prefix, s)
    requires forall j' :: s < j' <= j ==> !MatchAt(path, prefix, j')
    ensures LastMatch(path, prefix, j) == Some(s)
  {
    LastMatchSpec(path, prefix, j);
  }

  /** A path whose last match is followed by nothing but digits reads as
      the value of those digits. */
  lemma {:induction false} StepOfTrailingDigits(p: string, c: string, s: nat, d: string)
    requires DotLimit(p) == |p| && LastMatch(p, c, |p|) == Some(s)
    requires AllDigits(d) && s + |c| + 1 <= |p| && p[s + |c| + 1..] == d
    ensures StepOf(p, c) == Some(DigitsValue(d))
  {
    ReadAllDigits(d);
  }

  /** The directory the trainer saves at step n, `checkpoint-{n}` under
      the output directory, reads back as step n. */
  lemma {:induction false} SavedStepRoundTrip(dir: string, n: nat)
    requires '\n' !in dir
    ensures StepOf(dir + "checkpoint-" + Numeral(n), "checkpoint") == Some(n)
  {
    var c := "checkpoint";
    var d := Numeral(n);
    var p := dir + "checkpoint-" + d;
    var s := |dir|;
    SavedPathNoNewline(dir, d);
    DotLimitNoNewline(p);
    assert p[s..] == c + ("-" + d);
    StartsWithAppend(c, "-" + d);
    assert LastMatch(p, c, |p|) == Some(s) by {
      SavedPathLastMatch(dir, d);
      LastMatchIs(p, c, s, |p|);
    }
    assert p[s + |c| + 1..] == d;
    StepOfTrailingDigits(p, c, s, d);
    NumeralRoundTrip(n);
  }
}
