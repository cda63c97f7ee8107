/** `truncate_sequences` of the tokenizer wrapper in
    finetuning_BERT_on_semeval_corpora.py: cut a token sequence, or a pair of
    them, by a number of tokens according to a strategy, and return the cut
    tokens (with a stride window of context) as overflow. Token ids are
    plain integers. */
module Truncation {
  import opened Wrappers
  import opened Ints

  /** The strategy names the source recognises; any other name is `Unrecognised`. */
  datatype Strategy = LongestFirst | OnlyFirst | OnlySecond | DoNotTruncate | Unrecognised(name: string)

  const StrategyNames: set<string> := {"longest_first", "only_first", "only_second", "do_not_truncate"}

  /** A strategy as `truncation_strategy` can denote it: an unrecognised
      strategy never carries one of the four recognised names. */
  type TruncationStrategy = s: Strategy | s.Unrecognised? ==> s.name !in StrategyNames witness LongestFirst

  /** The string comparisons of lines 355-380: each recognised name selects
      its strategy and every other string is unrecognised. */
  function StrategyOf(name: string): (s: TruncationStrategy)
    ensures s.Unrecognised? <==> name !in StrategyNames
    ensures s.Unrecognised? ==> s.name == name
    ensures s == LongestFirst <==> name == "longest_first"
    ensures s == OnlyFirst <==> name == "only_first"
    ensures s == OnlySecond <==> name == "only_second"
    ensures s == DoNotTruncate <==> name == "do_not_truncate"
  {
    if name == "longest_first" then LongestFirst
    else if name == "only_first" then OnlyFirst
    else if name == "only_second" then OnlySecond
    else if name == "do_not_truncate" then DoNotTruncate
    else Unrecognised(name)
  }

  /** The exceptions the source raises: `ids[-1]` on an empty list, a failed
      `assert`, and the explicit `ValueError`s. */
  datatype TruncError = IndexError | AssertionError | ValueError

  /** The returned triple `(ids, pair_ids, overflowing_tokens)`. */
  datatype Truncated = Truncated(ids: seq<int>, pair: Option<seq<int>>, overflow: seq<int>)

  /** Python's `s[:-1]`: the last element dropped; an empty list stays empty. */
  function DropLast(s: seq<int>): (r: seq<int>)
    ensures r == if s == [] then [] else s[..|s| - 1]
  {
    if s == [] then [] else s[..|s| - 1]
  }

  /** Python's `s[-w:]` for any integer w: the last w elements when
      0 < w <= |s|, the whole list when w is 0, and `s[k:]` with k = -w
      (clamped) when w is negative. */
  function PyTail(s: seq<int>, w: int): (r: seq<int>)
    requires w <= |s|
    ensures 0 < w ==> r == s[|s| - w..]
    ensures w == 0 ==> r == s
    ensures w < 0 ==> r == s[Min(-w, |s|)..]
  {
    if w > 0 then s[|s| - w..]
    else if w == 0 then s
    else s[Min(-w, |s|)..]
  }

  /** The lengths `longest_first` leaves of a pair of lengths a and b after
      n removals, in closed form: t tokens remain in all; the first sequence
      keeps its length while the second is longer, and once both are even
      the second one gives up its token first. */
  function LongestFirstLengths(a: nat, b: nat, n: nat): (r: (nat, nat))
    ensures r.0 <= a && r.1 <= b
    ensures r.0 + r.1 == if n <= a + b then a + b - n else 0
  {
    var t := if n <= a + b then a + b - n else 0;
    var x := Min(a, Max(t - b, (t + 1) / 2));
    (x, t - x)
  }

  /** One more removal takes a token from the first sequence when it is
      strictly longer, and otherwise from the second (`[:-1]` of an empty
      second sequence removes nothing). */
  lemma LongestFirstStep(a: nat, b: nat, k: nat)
    ensures var (x, y) := LongestFirstLengths(a, b, k);
      LongestFirstLengths(a, b, k + 1) == if x > y then (x - 1, y) else (x, Max(y - 1, 0))
  {
    var (x, y) := LongestFirstLengths(a, b, k);
    var (x', y') := LongestFirstLengths(a, b, k + 1);
    var t := if k <= a + b then a + b - k else 0;
    if k < a + b {
      assert x' + y' == t - 1;
      if x > y {
        assert x == Min(a, Max(t - b, (t + 1) / 2));
        assert x' == Min(a, Max(t - 1 - b, t / 2));
      } else {
        assert x' == Min(a, Max(t - 1 - b, t / 2));
      }
    } else {
      assert x == 0 && y == 0 && x' == 0 && y' == 0;
    }
  }

  /** The same lengths one removal at a time, as the loop takes them. */
  function LongestFirstIter(a: nat, b: nat, n: nat): (nat, nat)
  {
    if n == 0 then (a, b)
    else
      var (x, y) := LongestFirstIter(a, b, n - 1);
      if x > y then (x - 1, y) else (x, Max(y - 1, 0))
  }

  /** Removing tokens one at a time lands on the closed form. */
  lemma {:induction false} LongestFirstIterClosed(a: nat, b: nat, n: nat)
    ensures LongestFirstIter(a, b, n) == LongestFirstLengths(a, b, n)
  {
    if n > 0 {
      LongestFirstIterClosed(a, b, n - 1);
      LongestFirstStep(a, b, n - 1);
    }
  }

  /** The overflow of `longest_first`: the removed tokens of the first
      sequence in their order, behind a window of the last `stride` kept
      tokens when that window is not empty. */
  function LongestFirstOverflow(ids: seq<int>, kept: nat, stride: int): (r: seq<int>)
    requires kept <= |ids|
    ensures |r| >= |ids| - kept && r[|r| - (|ids| - kept)..] == ids[kept..]
  {
    var w := Min(kept, stride);
    (if w > 0 then ids[kept - w..kept] else []) + ids[kept..]
  }

  /** The specification of `truncate_sequences` (lines 340-382). */
  function Truncate(ids: seq<int>, pair: Option<seq<int>>, n: int, strategy: TruncationStrategy, stride: int): Result<Truncated, TruncError>
  {
    if n <= 0 then Success(Truncated(ids, pair, []))
    else match strategy
      case LongestFirst =>
        if pair.None? then
          if n <= |ids| then Success(Truncated(ids[..|ids| - n], None, LongestFirstOverflow(ids, |ids| - n, stride)))
          else Failure(IndexError)
        else
          var (x, y) := LongestFirstLengths(|ids|, |pair.value|, n);
          Success(Truncated(ids[..x], Some(pair.value[..y]), LongestFirstOverflow(ids, x, stride)))
      case OnlyFirst =>
        if |ids| <= n then Failure(AssertionError)
        else Success(Truncated(ids[..|ids| - n], pair, PyTail(ids, Min(|ids|, stride + n))))
      case OnlySecond =>
        if pair.None? || |pair.value| <= n then Failure(AssertionError)
        else
          var p := pair.value;
          Success(Truncated(ids, Some(p[..|p| - n]), PyTail(p, Min(|p|, stride + n))))
      case DoNotTruncate => Failure(ValueError)
      case Unrecognised(_) => Failure(ValueError)
  }

  /** Lines 355-365: remove n tokens one at a time from the longer
      sequence, collecting the first sequence's removed tokens, then put the
      stride window in front of them. */
  method LongestFirstLoop(ids: seq<int>, pair: Option<seq<int>>, n: nat, stride: int)
    returns (r: Result<Truncated, TruncError>)
    requires n > 0
    ensures r == Truncate(ids, pair, n, LongestFirst, stride)
  {
    var cur, curPair, overflow := ids, pair, [];
    for step := 0 to n
      invariant |cur| <= |ids| && cur == ids[..|cur|] && overflow == ids[|cur|..]
      invariant curPair.Some? <==> pair.Some?
      invariant pair.None? ==> |cur| == |ids| - step
      invariant pair.Some? ==>
                  && |curPair.value| <= |pair.value| && curPair.value == pair.value[..|curPair.value|]
                  && (|cur|, |curPair.value|) == LongestFirstIter(|ids|, |pair.value|, step)
    {
      if curPair.None? || |cur| > |curPair.value| {
        if cur == [] {
          return Failure(IndexError);
        }
        assert ids[|cur| - 1..] == [cur[|cur| - 1]] + ids[|cur|..];
        overflow := [cur[|cur| - 1]] + overflow;
        cur := cur[..|cur| - 1];
      } else {
        curPair := Some(DropLast(curPair.value));
      }
    }
    if pair.Some? {
      LongestFirstIterClosed(|ids|, |pair.value|, n);
    }
    var windowLen := Min(|cur|, stride);
    if windowLen > 0 {
      overflow := cur[|cur| - windowLen..] + overflow;
    }
    r := Success(Truncated(cur, curPair, overflow));
  }

  /** `truncate_sequences`: the loop of `longest_first` and the slicing of
      the other strategies. */
  method TruncateSequences(ids: seq<int>, pair: Option<seq<int>>, n: int, strategy: TruncationStrategy, stride: int)
    returns (r: Result<Truncated, TruncError>)
    ensures r == Truncate(ids, pair, n, strategy, stride)
  {
    if n <= 0 {
      return Success(Truncated(ids, pair, []));
    }
    match strategy {
      case LongestFirst =>
        r := LongestFirstLoop(ids, pair, n, stride);
      case OnlyFirst =>
        if |ids| <= n {
          return Failure(AssertionError);
        }
        var windowLen := Min(|ids|, stride + n);
        r := Success(Truncated(ids[..|ids| - n], pair, PyTail(ids, windowLen)));
      case OnlySecond =>
        if pair.None? || |pair.value| <= n {
          return Failure(AssertionError);
        }
        var p := pair.value;
        var windowLen := Min(|p|, stride + n);
        r := Success(Truncated(ids, Some(p[..|p| - n]), PyTail(p, windowLen)));
      case DoNotTruncate =>
        r := Failure(ValueError);
      case Unrecognised(_) =>
        r := Failure(ValueError);
    }
  }

  /** The total number of tokens of a sequence and an optional second one. */
  function Total(ids: seq<int>, pair: Option<seq<int>>): nat {
    |ids| + (if pair.Some? then |pair.value| else 0)
  }

  /** When the call fails: a strategy that does not truncate, the first
      sequence running out with no second one, or a failed length assertion. */
  lemma TruncateFailsExactly(ids: seq<int>, pair: Option<seq<int>>, n: int, strategy: TruncationStrategy, stride: int)
    ensures Truncate(ids, pair, n, strategy, stride).Failure? <==>
              n > 0 && match strategy
                case LongestFirst => pair.None? && n > |ids|
                case OnlyFirst => |ids| <= n
                case OnlySecond => pair.None? || |pair.value| <= n
                case _ => true
    ensures Truncate(ids, pair, n, strategy, stride).Failure? ==>
              Truncate(ids, pair, n, strategy, stride).error
                == match strategy
                     case LongestFirst => IndexError
                     case OnlyFirst => AssertionError
                     case OnlySecond => AssertionError
                     case _ => ValueError
  {
  }

  /** Truncation only shortens: the kept sequences are prefixes of the
      inputs, the second one present exactly when it was given, and the
      removed tokens number n, or all of them when fewer remain. */
  lemma TruncateKeepsPrefixes(ids: seq<int>, pair: Option<seq<int>>, n: int, strategy: TruncationStrategy, stride: int)
    requires Truncate(ids, pair, n, strategy, stride).Success?
    ensures var t := Truncate(ids, pair, n, strategy, stride).value;
      && t.ids <= ids
      && t.pair.Some? == pair.Some?
      && (pair.Some? ==> t.pair.value <= pair.value)
      && Total(ids, pair) - Total(t.ids, t.pair) == if n <= 0 then 0 else Min(n, Total(ids, pair))
  {
  }

  /** Once both sequences of a pair have been cut, `longest_first` leaves
      them even, or the first one a single token longer. */
  lemma LongestFirstBalances(ids: seq<int>, pair: seq<int>, n: int, stride: int)
    requires n > 0
    ensures var t := Truncate(ids, Some(pair), n, LongestFirst, stride).value;
      |t.ids| < |ids| && |t.pair.value| < |pair| ==>
        |t.ids| == |t.pair.value| || |t.ids| == |t.pair.value| + 1
  {
  }

  /** A shorter second sequence is only cut after the first has come down
      to its length, and a shorter first sequence the other way round. */
  lemma LongestFirstCutsLongerFirst(ids: seq<int>, pair: seq<int>, n: int, stride: int)
    requires n > 0
    ensures var t := Truncate(ids, Some(pair), n, LongestFirst, stride).value;
      && (n <= |ids| - |pair| ==> t.ids == ids[..|ids| - n] && t.pair.value == pair)
      && (n <= |pair| - |ids| ==> t.ids == ids && t.pair.value == pair[..|pair| - n])
  {
  }

  /** The overflow of `longest_first` ends with the removed tokens of the
      first sequence, behind at most `stride` kept tokens. */
  lemma LongestFirstOverflowShape(ids: seq<int>, pair: Option<seq<int>>, n: int, stride: int)
    requires n > 0 && Truncate(ids, pair, n, LongestFirst, stride).Success?
    ensures var t := Truncate(ids, pair, n, LongestFirst, stride).value;
      var w := |t.overflow| - (|ids| - |t.ids|);
      && 0 <= w == Max(0, Min(|t.ids|, stride))
      && t.overflow == ids[|t.ids| - w..]
  {
    var t := Truncate(ids, pair, n, LongestFirst, stride).value;
    OverflowIsSuffix(ids, |t.ids|, stride);
  }

  /** The overflow kept `kept` tokens of the first sequence is the suffix
      starting a clamped window of `stride` tokens before the cut. */
  lemma OverflowIsSuffix(ids: seq<int>, kept: nat, stride: int)
    requires kept <= |ids|
    ensures LongestFirstOverflow(ids, kept, stride) == ids[kept - Max(0, Min(kept, stride))..]
  {
    var w := Min(kept, stride);
    if w > 0 {
      assert ids[kept - w..kept] + ids[kept..] == ids[kept - w..];
    }
  }

  /** With a non-negative stride, `only_first` returns the n removed tokens
      behind at most `stride` kept ones as overflow. */
  lemma OnlyFirstOverflowShape(ids: seq<int>, pair: Option<seq<int>>, n: int, stride: int)
    requires n > 0 && stride >= 0 && Truncate(ids, pair, n, OnlyFirst, stride).Success?
    ensures var t := Truncate(ids, pair, n, OnlyFirst, stride).value;
      && t.ids + ids[|ids| - n..] == ids
      && t.overflow == ids[|ids| - Min(|ids|, stride + n)..]
      && |t.overflow| >= n && t.overflow[|t.overflow| - n..] == ids[|ids| - n..]
  {
  }
}
