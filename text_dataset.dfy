/** `TextDataset` of finetuning_BERT_on_semeval_corpora.py: the whole token
    stream of a file is cut into consecutive blocks of a fixed size, each
    block wrapped with the tokenizer's special tokens; the trailing
    remainder shorter than a block is dropped. The tokenizer (text to ids,
    and the special-token wrapper) is a parameter. */
module Chunking {
  import opened Wrappers

  /** `range(0, n, 0)` raises `ValueError`. */
  datatype ChunkError = ZeroStep

  /** The raw blocks `tokens[i:i+bs]` for i in `range(0, len - bs + 1, bs)`.
      A negative step counts down from 0 to a positive bound, so it yields
      nothing; a zero step raises and is excluded here. */
  function RawBlocks(tokens: seq<int>, bs: int): seq<seq<int>>
    requires bs != 0
    decreases |tokens|
  {
    if bs < 0 || |tokens| < bs then []
    else [tokens[..bs]] + RawBlocks(tokens[bs..], bs)
  }

  /** Concatenation of a list of blocks. */
  function Flatten(blocks: seq<seq<int>>): seq<int>
  {
    if blocks == [] then [] else blocks[0] + Flatten(blocks[1..])
  }

  /** Removing one block from the front of a stream of at least one block
      takes one off the quotient and leaves the remainder alone. */
  lemma DivStep(n: int, b: int)
    requires 0 < b <= n
    ensures n / b == (n - b) / b + 1
    ensures n % b == (n - b) % b
  {
    var q, r := (n - b) / b, (n - b) % b;
    assert n - b == b * q + r && 0 <= r < b;
    assert n == b * (q + 1) + r;
    DivUnique(n, b, q + 1, r);
  }

  lemma DivUnique(n: int, b: int, q: int, r: int)
    requires 0 < b && n == b * q + r && 0 <= r < b
    ensures n / b == q && n % b == r
  {
    var q', r' := n / b, n % b;
    assert n == b * q' + r' && 0 <= r' < b;
    var d := q - q';
    assert b * q == b * q' + b * d;
    assert b * d == r' - r;
    if d > 0 {
      MulMonotone(b, d);
    } else if d < 0 {
      MulMonotone(b, -d);
    }
  }

  lemma MulMonotone(b: int, d: int)
    requires 0 < b && 1 <= d
    ensures b * d >= b && b * (-d) <= -b
  {
    assert b * d == b * (d - 1) + b;
    assert b * (-d) == -(b * d);
  }

  /** With a positive block size there are `len / bs` raw blocks. */
  lemma {:induction false} RawBlocksCount(tokens: seq<int>, bs: int)
    requires bs > 0
    ensures |RawBlocks(tokens, bs)| == |tokens| / bs
  {
    if |tokens| < bs {
      DivUnique(|tokens|, bs, 0, |tokens|);
    } else {
      RawBlocksCount(tokens[bs..], bs);
      DivStep(|tokens|, bs);
    }
  }

  /** Every raw block is exactly `bs` long. */
  lemma {:induction false} RawBlocksSized(tokens: seq<int>, bs: int)
    requires bs > 0
    ensures forall k :: 0 <= k < |RawBlocks(tokens, bs)| ==> |RawBlocks(tokens, bs)[k]| == bs
  {
    if |tokens| >= bs {
      RawBlocksSized(tokens[bs..], bs);
    }
  }

  /** Together the raw blocks are the stream without its last `len % bs`
      tokens. */
  lemma {:induction false} RawBlocksFlatten(tokens: seq<int>, bs: int)
    requires bs > 0
    ensures Flatten(RawBlocks(tokens, bs)) == tokens[..|tokens| - |tokens| % bs]
  {
    if |tokens| < bs {
      DivUnique(|tokens|, bs, 0, |tokens|);
    } else {
      var rest := tokens[bs..];
      RawBlocksFlatten(rest, bs);
      DivStep(|tokens|, bs);
      var m := |tokens| - |tokens| % bs;
      assert tokens[..bs] + rest[..|rest| - |rest| % bs] == tokens[..m];
    }
  }

  /** With a positive block size there are `len / bs` raw blocks, each
      exactly `bs` long, and together they are the stream without its last
      `len % bs` tokens. */
  lemma RawBlocksShape(tokens: seq<int>, bs: int)
    requires bs > 0
    ensures |RawBlocks(tokens, bs)| == |tokens| / bs
    ensures forall k :: 0 <= k < |RawBlocks(tokens, bs)| ==> |RawBlocks(tokens, bs)[k]| == bs
    ensures Flatten(RawBlocks(tokens, bs)) == tokens[..|tokens| - |tokens| % bs]
  {
    RawBlocksCount(tokens, bs);
    RawBlocksSized(tokens, bs);
    RawBlocksFlatten(tokens, bs);
  }

  /** A non-positive block size yields no blocks at all. */
  lemma NonPositiveBlockSizeEmpty(tokens: seq<int>, bs: int)
    requires bs < 0
    ensures RawBlocks(tokens, bs) == []
  {
  }

  /** The size a block takes once room is left for the special tokens the
      wrapper adds (`max_len - max_len_single_sentence` of them). */
  function AdjustedBlockSize(blockSize: int, maxLen: int, maxLenSingleSentence: int): int
  {
    blockSize - (maxLen - maxLenSingleSentence)
  }

  class TextDataset {
    /** `self.examples`: the wrapped blocks, in stream order. */
    var examples: seq<seq<int>>

    /** The examples are the wrapped raw blocks of the stream, in order. */
    predicate Holds(tokens: seq<int>, bs: int, wrap: seq<int> -> seq<int>)
      requires bs != 0
      reads this
    {
      && |examples| == |RawBlocks(tokens, bs)|
      && forall k :: 0 <= k < |examples| ==> examples[k] == wrap(RawBlocks(tokens, bs)[k])
    }

    /** The block loop of `__init__` on an already adjusted, non-zero
        block size: one wrapped block appended per step. */
    constructor (tokens: seq<int>, bs: int, wrap: seq<int> -> seq<int>)
      requires bs != 0
      ensures Holds(tokens, bs, wrap)
    {
      examples := [];
      new;
      var i := 0;
      if bs > 0 {
        while i < |tokens| - bs + 1
          invariant 0 <= i <= |tokens|
          invariant |examples| + |RawBlocks(tokens[i..], bs)| == |RawBlocks(tokens, bs)|
          invariant forall k :: 0 <= k < |examples| ==> examples[k] == wrap(RawBlocks(tokens, bs)[k])
          invariant RawBlocks(tokens, bs) == RawBlocks(tokens, bs)[..|examples|] + RawBlocks(tokens[i..], bs)
          decreases |tokens| - i
        {
          var rest := tokens[i..];
          assert rest[..bs] == tokens[i..i + bs] && rest[bs..] == tokens[i + bs..];
          assert RawBlocks(rest, bs) == [tokens[i..i + bs]] + RawBlocks(tokens[i + bs..], bs);
          examples := examples + [wrap(tokens[i..i + bs])];
          i := i + bs;
        }
      }
    }

    /** `__init__` without the cache: adjust the block size for the special
        tokens, then chunk; a block size that adjusts to zero makes `range`
        raise. */
    static method Create(tokens: seq<int>, blockSize: int, maxLen: int, maxLenSingleSentence: int,
                         wrap: seq<int> -> seq<int>)
      returns (r: Result<TextDataset, ChunkError>)
      ensures var bs := AdjustedBlockSize(blockSize, maxLen, maxLenSingleSentence);
        && (r.Failure? <==> bs == 0)
        && (r.Success? ==> fresh(r.value) && r.value.Holds(tokens, bs, wrap))
    {
      var bs := AdjustedBlockSize(blockSize, maxLen, maxLenSingleSentence);
      if bs == 0 {
        return Failure(ZeroStep);
      }
      var d := new TextDataset(tokens, bs, wrap);
      return Success(d);
    }

    /** `__len__`. */
    function Length(): nat
      reads this
    {
      |examples|
    }
  }

  /** A dataset built from a stream holds one example per whole block: the
      stream length divided by the block size, or none when the adjusted
      size is negative. */
  lemma LengthOfHolds(d: TextDataset, tokens: seq<int>, bs: int, wrap: seq<int> -> seq<int>)
    requires bs != 0 && d.Holds(tokens, bs, wrap)
    ensures d.Length() == if bs > 0 then |tokens| / bs else 0
  {
    if bs > 0 {
      RawBlocksShape(tokens, bs);
    } else {
      NonPositiveBlockSizeEmpty(tokens, bs);
    }
  }

  /** When the wrapper adds exactly `maxLen - maxLenSingleSentence` tokens
      and the adjusted size is positive, every example is exactly
      `blockSize` long: the adjustment leaves the room the wrapper fills. */
  lemma ExamplesFillBlock(d: TextDataset, tokens: seq<int>, blockSize: int, maxLen: int, maxLenSingleSentence: int,
                          wrap: seq<int> -> seq<int>)
    requires AdjustedBlockSize(blockSize, maxLen, maxLenSingleSentence) > 0
    requires d.Holds(tokens, AdjustedBlockSize(blockSize, maxLen, maxLenSingleSentence), wrap)
    requires forall b :: |wrap(b)| == |b| + (maxLen - maxLenSingleSentence)
    ensures forall k :: 0 <= k < |d.examples| ==> |d.examples[k]| == blockSize
  {
    var bs := AdjustedBlockSize(blockSize, maxLen, maxLenSingleSentence);
    RawBlocksShape(tokens, bs);
    forall k | 0 <= k < |d.examples| ensures |d.examples[k]| == blockSize {
      assert d.examples[k] == wrap(RawBlocks(tokens, bs)[k]);
    }
  }
}
