/** The encoding helpers of `LineByLineTextDataset` in
    finetuning_BERT_on_semeval_corpora.py: joining a sequence pair, its
    token-type ids and special-tokens mask, `custom_prepare_for_model` on
    its non-padding path, `get_input_ids` and the per-key merge of
    `custom_batch_encode_plus`. The tokenizer's `encode` is a parameter. */
module Encoding {
  import opened Wrappers
  import opened Truncation
  import opened Ints

  /** `[v] * n` */
  function Repeat(v: int, n: nat): (r: seq<int>)
    ensures |r| == n && forall i :: 0 <= i < n ==> r[i] == v
  {
    seq(n, _ => v)
  }

  function PairLength(pair: Option<seq<int>>): nat {
    if pair.Some? then |pair.value| else 0
  }

  /** `build_inputs_with_special_tokens` (lines 386-390): plain concatenation. */
  function BuildInputs(ids: seq<int>, pair: Option<seq<int>>): seq<int> {
    if pair.None? then ids else ids + pair.value
  }

  /** `create_token_type_ids_from_sequences` (lines 392-395). */
  function TokenTypeIds(ids: seq<int>, pair: Option<seq<int>>): seq<int> {
    if pair.None? then Repeat(0, |ids|) else Repeat(0, |ids|) + Repeat(1, |pair.value|)
  }

  /** The joined sequence holds the first sequence and then the second one,
      and each position's token type says which of the two it came from. */
  lemma TokenTypesMarkSegments(ids: seq<int>, pair: Option<seq<int>>)
    ensures |BuildInputs(ids, pair)| == |TokenTypeIds(ids, pair)| == |ids| + PairLength(pair)
    ensures BuildInputs(ids, pair)[..|ids|] == ids
    ensures pair.Some? ==> BuildInputs(ids, pair)[|ids|..] == pair.value
    ensures forall i :: 0 <= i < |ids| ==> TokenTypeIds(ids, pair)[i] == 0
    ensures forall i :: |ids| <= i < |ids| + PairLength(pair) ==> TokenTypeIds(ids, pair)[i] == 1
  {
  }

  /** The module-level `get_special_tokens_mask` (lines 449-451): a zero for
      every token of both sequences. */
  function SpecialTokensMask(ids: seq<int>, pair: Option<seq<int>>): (r: seq<int>)
    ensures |r| == |BuildInputs(ids, pair)| && forall i :: 0 <= i < |r| ==> r[i] == 0
  {
    Repeat(0, |ids| + (if pair.Some? && pair.value != [] then |pair.value| else 0))
  }

  /** Python's `s[:k]` for any integer k. */
  function PyHead(s: seq<int>, k: int): (r: seq<int>)
    ensures 0 <= k ==> r == s[..Min(k, |s|)]
    ensures k < 0 ==> r == s[..Max(|s| + k, 0)]
  {
    if k >= 0 then s[..Min(k, |s|)] else s[..Max(|s| + k, 0)]
  }

  /** The dictionary `custom_prepare_for_model` returns, one field per key;
      `None` is a key the call did not set. `input_ids` is always set. */
  datatype Encoded = Encoded(
    overflowingTokens: Option<seq<int>>,
    numTruncatedTokens: Option<int>,
    specialTokensMask: Option<seq<int>>,
    inputIds: seq<int>,
    tokenTypeIds: Option<seq<int>>,
    attentionMask: Option<seq<int>>)

  /** The exceptions of the encoding path: a truncation error, an
      `AttributeError` naming the missing attribute, the `ValueError` of
      `get_input_ids`, the failed `assert` of a batch entry that is not a
      pair, and the `NotImplementedError` for offset mappings. */
  datatype EncodeError =
    | TruncationFailed(cause: TruncError)
    | AttributeError(name: string)
    | InvalidInput
    | NotAPair
    | OffsetsUnsupported

  /** The flags of `custom_prepare_for_model` this model keeps; padding is
      off. */
  datatype Options = Options(
    maxLength: Option<int>,
    addSpecialTokens: bool,
    stride: int,
    strategy: TruncationStrategy,
    returnTokenTypeIds: bool,
    returnAttentionMask: bool,
    returnOverflowingTokens: bool,
    returnSpecialTokensMask: bool)

  /** `if max_length`: set and not zero. */
  predicate Truthy(maxLength: Option<int>) {
    maxLength.Some? && maxLength.value != 0
  }

  /** The number of tokens the length check of lines 244-259 asks to remove;
      zero or less when it does not truncate. */
  function Excess(ids: seq<int>, pair: Option<seq<int>>, opts: Options): int {
    if Truthy(opts.maxLength) then |ids| + PairLength(pair) - opts.maxLength.value else 0
  }

  /** The sequences after the length check of lines 244-259, or the
      truncation error. */
  function Trimmed(ids: seq<int>, pair: Option<seq<int>>, opts: Options): Result<Truncated, EncodeError> {
    var n := Excess(ids, pair, opts);
    if n <= 0 then Success(Truncated(ids, pair, []))
    else
      var t := Truncate(ids, pair, n, opts.strategy, opts.stride);
      if t.Failure? then Failure(TruncationFailed(t.error)) else Success(t.value)
  }

  /** The dictionary built from the (truncated) sequences t, lines 255-337,
      where n is the number of tokens the length check asked to remove. */
  function Fill(t: Truncated, n: int, opts: Options): Result<Encoded, EncodeError> {
    if opts.returnSpecialTokensMask && opts.addSpecialTokens then Failure(AttributeError("get_special_tokens_mask"))
    else if opts.maxLength.None? then Failure(AttributeError("max_len"))
    else
      var sequence := BuildInputs(t.ids, t.pair);
      var cap := if opts.maxLength.value != 0 && |sequence| > opts.maxLength.value then opts.maxLength.value else |sequence|;
      var inputIds := PyHead(sequence, cap);
      Success(Encoded(
        if n > 0 && opts.returnOverflowingTokens then Some(t.overflow) else None,
        if n > 0 && opts.returnOverflowingTokens then Some(n) else None,
        if opts.returnSpecialTokensMask then Some(PyHead(Repeat(0, |sequence|), cap)) else None,
        inputIds,
        if opts.returnTokenTypeIds then Some(PyHead(TokenTypeIds(t.ids, t.pair), cap)) else None,
        if opts.returnAttentionMask then Some(Repeat(1, |inputIds|)) else None))
  }

  /** The dictionary `custom_prepare_for_model` returns (lines 226-337) when
      no padding is asked for. Two attributes it reads do not exist on the
      dataset class: `get_special_tokens_mask` (a module-level function)
      when a special-tokens mask is asked for with special tokens added, and
      `max_len` whenever `max_length` is None. */
  function Prepare(ids: seq<int>, pair: Option<seq<int>>, opts: Options): Result<Encoded, EncodeError> {
    var tr := Trimmed(ids, pair, opts);
    if tr.Failure? then Failure(tr.error) else Fill(tr.value, Excess(ids, pair, opts), opts)
  }

  /** `custom_prepare_for_model`: the length check and truncation, then the
      dictionary. */
  method PrepareForModel(ids: seq<int>, pair: Option<seq<int>>, opts: Options) returns (r: Result<Encoded, EncodeError>)
    ensures r == Prepare(ids, pair, opts)
  {
    var hasPair := pair.Some?;
    var lenIds := |ids|;
    var lenPairIds := if hasPair then |pair.value| else 0;
    var encoded := Encoded(None, None, None, [], None, None);
    var curIds, curPair, overflow := ids, pair, [];

    var totalLen := lenIds + lenPairIds;
    var truncated := Truthy(opts.maxLength) && totalLen > opts.maxLength.value;
    assert Excess(ids, pair, opts) == if Truthy(opts.maxLength) then totalLen - opts.maxLength.value else 0;
    if truncated {
      var t := TruncateSequences(ids, pair, totalLen - opts.maxLength.value, opts.strategy, opts.stride);
      if t.Failure? {
        assert Trimmed(ids, pair, opts) == Failure(TruncationFailed(t.error));
        return Failure(TruncationFailed(t.error));
      }
      curIds, curPair, overflow := t.value.ids, t.value.pair, t.value.overflow;
      if opts.returnOverflowingTokens {
        encoded := encoded.(overflowingTokens := Some(t.value.overflow));
        encoded := encoded.(numTruncatedTokens := Some(totalLen - opts.maxLength.value));
      }
    }
    assert Trimmed(ids, pair, opts) == Success(Truncated(curIds, curPair, overflow));
    r := FillEncoded(Truncated(curIds, curPair, overflow), Excess(ids, pair, opts), opts, encoded);
  }

  /** Lines 255-337 on the dictionary the length check started. */
  method FillEncoded(t: Truncated, n: int, opts: Options, encoded0: Encoded) returns (r: Result<Encoded, EncodeError>)
    requires encoded0 == Encoded(if n > 0 && opts.returnOverflowingTokens then Some(t.overflow) else None,
                                 if n > 0 && opts.returnOverflowingTokens then Some(n) else None,
                                 None, [], None, None)
    ensures r == Fill(t, n, opts)
  {
    var encoded := encoded0;
    var hasPair := t.pair.Some?;
    var sequence, tokenTypeIds;
    if opts.addSpecialTokens {
      sequence := BuildInputs(t.ids, t.pair);
      tokenTypeIds := TokenTypeIds(t.ids, t.pair);
    } else {
      sequence := if hasPair then t.ids + t.pair.value else t.ids;
      tokenTypeIds := Repeat(0, |t.ids|) + (if hasPair then Repeat(1, |t.pair.value|) else []);
      assert !hasPair ==> tokenTypeIds == Repeat(0, |t.ids|);
    }
    TokenTypesMarkSegments(t.ids, t.pair);
    assert sequence[..|sequence|] == sequence && tokenTypeIds[..|tokenTypeIds|] == tokenTypeIds;
    assert Repeat(0, |sequence|)[..|sequence|] == Repeat(0, |sequence|);

    if opts.returnSpecialTokensMask {
      if opts.addSpecialTokens {
        return Failure(AttributeError("get_special_tokens_mask"));
      }
      encoded := encoded.(specialTokensMask := Some(Repeat(0, |sequence|)));
    }

    encoded := encoded.(inputIds := sequence);
    if opts.returnTokenTypeIds {
      encoded := encoded.(tokenTypeIds := Some(tokenTypeIds));
    }

    if Truthy(opts.maxLength) && |encoded.inputIds| > opts.maxLength.value {
      encoded := encoded.(inputIds := PyHead(encoded.inputIds, opts.maxLength.value));
      if opts.returnTokenTypeIds {
        encoded := encoded.(tokenTypeIds := Some(PyHead(encoded.tokenTypeIds.value, opts.maxLength.value)));
      }
      if opts.returnSpecialTokensMask {
        encoded := encoded.(specialTokensMask := Some(PyHead(encoded.specialTokensMask.value, opts.maxLength.value)));
      }
    }

    if opts.maxLength.None? {
      return Failure(AttributeError("max_len"));
    }

    if opts.returnAttentionMask {
      encoded := encoded.(attentionMask := Some(Repeat(1, |encoded.inputIds|)));
    }
    r := Success(encoded);
  }

  /** The length check leaves at most `max_length` tokens; after a
      truncation exactly that many. Token types, special-tokens mask and
      attention mask run parallel to `input_ids`, and `input_ids` is the
      (truncated) first sequence followed by the (truncated) second one. */
  lemma PrepareLengths(ids: seq<int>, pair: Option<seq<int>>, opts: Options)
    requires opts.maxLength.Some? && opts.maxLength.value > 0
    requires Prepare(ids, pair, opts).Success?
    ensures var e := Prepare(ids, pair, opts).value;
      var t := Trimmed(ids, pair, opts).value;
      && |e.inputIds| == Min(|ids| + PairLength(pair), opts.maxLength.value)
      && e.inputIds == BuildInputs(t.ids, t.pair)
      && t.ids <= ids && (pair.Some? ==> t.pair.Some? && t.pair.value <= pair.value)
      && (e.tokenTypeIds.Some? ==> e.tokenTypeIds.value == TokenTypeIds(t.ids, t.pair))
      && (e.specialTokensMask.Some? ==> e.specialTokensMask.value == Repeat(0, |e.inputIds|))
      && (e.attentionMask.Some? ==> e.attentionMask.value == Repeat(1, |e.inputIds|))
      && (e.overflowingTokens.Some? <==> opts.returnOverflowingTokens && |ids| + PairLength(pair) > opts.maxLength.value)
  {
    var n := Excess(ids, pair, opts);
    var t := Trimmed(ids, pair, opts).value;
    if n > 0 {
      TruncateKeepsPrefixes(ids, pair, n, opts.strategy, opts.stride);
      assert Total(ids, pair) == |ids| + PairLength(pair);
      assert Total(t.ids, t.pair) == |t.ids| + PairLength(t.pair);
    }
    TokenTypesMarkSegments(t.ids, t.pair);
    var sequence := BuildInputs(t.ids, t.pair);
    assert sequence[..|sequence|] == sequence;
    assert TokenTypeIds(t.ids, t.pair)[..|sequence|] == TokenTypeIds(t.ids, t.pair);
    assert Repeat(0, |sequence|)[..|sequence|] == Repeat(0, |sequence|);
  }

  /** A Python value handed to `get_input_ids`: a string, an integer, a list
      or tuple, `None`, or anything else. */
  datatype Value = Str(s: string) | Int(i: int) | List(items: seq<Value>) | NoneValue | Other

  predicate AllInts(items: seq<Value>) {
    forall k :: 0 <= k < |items| ==> items[k].Int?
  }

  function IntsOf(items: seq<Value>): (r: seq<int>)
    requires AllInts(items)
    ensures |r| == |items| && forall k :: 0 <= k < |items| ==> r[k] == items[k].i
  {
    seq(|items|, k requires 0 <= k < |items| => items[k].i)
  }

  /** `get_input_ids` (lines 152-161): a string goes through the tokenizer's
      `encode`, a non-empty list of integers is passed through, anything
      else is a `ValueError`. */
  function InputIds(v: Value, encode: string -> seq<int>): (r: Result<seq<int>, EncodeError>)
    ensures v.Str? ==> r == Success(encode(v.s))
    ensures v.List? && v.items != [] && AllInts(v.items) ==> r == Success(IntsOf(v.items))
    ensures v.List? && v.items == [] ==> r == Failure(InvalidInput)
    ensures v.List? && v.items != [] && !AllInts(v.items) ==> r == Failure(InvalidInput)
    ensures v.NoneValue? || v.Int? || v.Other? ==> r == Failure(InvalidInput)
  {
    match v
    case Str(s) => Success(encode(s))
    case List(items) =>
      if items != [] && items[0].Int? && AllInts(items) then Success(IntsOf(items)) else Failure(InvalidInput)
    case _ => Failure(InvalidInput)
  }

  /** Lines 173-178: a list or tuple is a (first, second) pair and must have
      two elements, a `None` second element meaning no pair; anything else
      is a single sequence. */
  function SplitEntry(v: Value): (r: Result<(Value, Option<Value>), EncodeError>)
    ensures r.Failure? <==> v.List? && |v.items| != 2
  {
    match v
    case List(items) =>
      if |items| != 2 then Failure(NotAPair)
      else Success((items[0], if items[1].NoneValue? then None else Some(items[1])))
    case _ => Success((v, None))
  }

  /** One batch entry turned into token ids (lines 172-182). */
  function EntryIds(v: Value, encode: string -> seq<int>): Result<(seq<int>, Option<seq<int>>), EncodeError> {
    var sp := SplitEntry(v);
    if sp.Failure? then Failure(sp.error)
    else
      var (first, second) := sp.value;
      var f := InputIds(first, encode);
      if f.Failure? then Failure(f.error)
      else if second.None? then Success((f.value, None))
      else
        var g := InputIds(second.value, encode);
        if g.Failure? then Failure(g.error) else Success((f.value, Some(g.value)))
  }

  /** `batch_outputs`: per key, the values of the per-entry dictionaries that
      hold that key, in entry order. */
  datatype BatchOutputs = BatchOutputs(
    overflowingTokens: seq<seq<int>>,
    numTruncatedTokens: seq<int>,
    specialTokensMask: seq<seq<int>>,
    inputIds: seq<seq<int>>,
    tokenTypeIds: seq<seq<int>>,
    attentionMask: seq<seq<int>>,
    inputLen: seq<int>)

  /** The value of a key a dictionary may hold, as a list of at most one. */
  function Held<T>(v: Option<T>): (r: seq<T>)
    ensures v.Some? ==> r == [v.value]
    ensures v.None? ==> r == []
  {
    if v.Some? then [v.value] else []
  }

  /** One dictionary merged into the outputs (lines 220-223), with the
      `input_len` key of line 217 when asked for. */
  function MergeStep(m: BatchOutputs, e: Encoded, withLengths: bool): BatchOutputs {
    BatchOutputs(
      m.overflowingTokens + Held(e.overflowingTokens),
      m.numTruncatedTokens + Held(e.numTruncatedTokens),
      m.specialTokensMask + Held(e.specialTokensMask),
      m.inputIds + [e.inputIds],
      m.tokenTypeIds + Held(e.tokenTypeIds),
      m.attentionMask + Held(e.attentionMask),
      m.inputLen + (if withLengths then [|e.inputIds|] else []))
  }

  /** The merge of the per-entry dictionaries, in entry order. */
  function Merge(outs: seq<Encoded>, withLengths: bool): BatchOutputs {
    if outs == [] then BatchOutputs([], [], [], [], [], [], [])
    else MergeStep(Merge(outs[..|outs| - 1], withLengths), outs[|outs| - 1], withLengths)
  }

  lemma MergeAppend(outs: seq<Encoded>, e: Encoded, withLengths: bool)
    ensures Merge(outs + [e], withLengths) == MergeStep(Merge(outs, withLengths), e, withLengths)
  {
    assert (outs + [e])[..|outs|] == outs;
  }

  /** The token ids of every batch entry in order, or the first entry's error. */
  function AllEntryIds(batch: seq<Value>, encode: string -> seq<int>): (r: Result<seq<(seq<int>, Option<seq<int>>)>, EncodeError>)
    ensures r.Success? ==> |r.value| == |batch| && forall k :: 0 <= k < |batch| ==> EntryIds(batch[k], encode) == Success(r.value[k])
    ensures r.Failure? <==> exists k :: 0 <= k < |batch| && EntryIds(batch[k], encode).Failure?
  {
    if batch == [] then Success([])
    else
      var head := EntryIds(batch[0], encode);
      if head.Failure? then Failure(head.error)
      else
        var rest := AllEntryIds(batch[1..], encode);
        if rest.Failure? then rest
        else
          assert forall k :: 1 <= k < |batch| ==> batch[k] == batch[1..][k - 1];
          Success([head.value] + rest.value)
  }

  /** The dictionary of every entry in order, or the first entry's error. */
  function AllPrepared(pairs: seq<(seq<int>, Option<seq<int>>)>, opts: Options): (r: Result<seq<Encoded>, EncodeError>)
    ensures r.Success? ==> |r.value| == |pairs| && forall k :: 0 <= k < |pairs| ==> Prepare(pairs[k].0, pairs[k].1, opts) == Success(r.value[k])
    ensures r.Failure? <==> exists k :: 0 <= k < |pairs| && Prepare(pairs[k].0, pairs[k].1, opts).Failure?
  {
    if pairs == [] then Success([])
    else
      var head := Prepare(pairs[0].0, pairs[0].1, opts);
      if head.Failure? then Failure(head.error)
      else
        var rest := AllPrepared(pairs[1..], opts);
        if rest.Failure? then rest
        else
          assert forall k :: 1 <= k < |pairs| ==> pairs[k] == pairs[1..][k - 1];
          Success([head.value] + rest.value)
  }

  /** `rest` with `done` put in front of its value. */
  function Prepend<B>(done: seq<B>, rest: Result<seq<B>, EncodeError>): Result<seq<B>, EncodeError> {
    if rest.Failure? then rest else Success(done + rest.value)
  }

  lemma PrependNothing<B>(rest: Result<seq<B>, EncodeError>)
    ensures Prepend([], rest) == rest
  {
    if rest.Success? {
      assert [] + rest.value == rest.value;
    }
  }

  lemma PrependStep<B>(done: seq<B>, v: B, rest: Result<seq<B>, EncodeError>)
    ensures Prepend(done, Prepend([v], rest)) == Prepend(done + [v], rest)
  {
    if rest.Success? {
      assert done + ([v] + rest.value) == (done + [v]) + rest.value;
    }
  }

  /** `custom_batch_encode_plus` (lines 134-224) without padding: the token
      ids of every entry, then the dictionary of every entry, merged per
      key. */
  function BatchEncode(batch: seq<Value>, encode: string -> seq<int>, opts: Options,
                       returnOffsetsMapping: bool, returnInputLengths: bool): Result<BatchOutputs, EncodeError> {
    if returnOffsetsMapping then Failure(OffsetsUnsupported)
    else
      var pairs := AllEntryIds(batch, encode);
      if pairs.Failure? then Failure(pairs.error)
      else
        var outs := AllPrepared(pairs.value, opts);
        if outs.Failure? then Failure(outs.error)
        else Success(Merge(outs.value, returnInputLengths))
  }

  /** `custom_batch_encode_plus`: the offsets check, then the two loops. */
  method CustomBatchEncodePlus(batch: seq<Value>, encode: string -> seq<int>, opts: Options,
                               returnOffsetsMapping: bool, returnInputLengths: bool)
    returns (r: Result<BatchOutputs, EncodeError>)
    ensures r == BatchEncode(batch, encode, opts, returnOffsetsMapping, returnInputLengths)
  {
    if returnOffsetsMapping {
      return Failure(OffsetsUnsupported);
    }
    var inputIds := CollectInputIds(batch, encode);
    if inputIds.Failure? {
      return Failure(inputIds.error);
    }
    r := PrepareAndMerge(inputIds.value, opts, returnInputLengths);
  }

  /** Lines 172-182: the token ids of every entry, in order. */
  method CollectInputIds(batch: seq<Value>, encode: string -> seq<int>)
    returns (r: Result<seq<(seq<int>, Option<seq<int>>)>, EncodeError>)
    ensures r == AllEntryIds(batch, encode)
  {
    var inputIds: seq<(seq<int>, Option<seq<int>>)> := [];
    assert batch[0..] == batch;
    PrependNothing(AllEntryIds(batch, encode));
    for i := 0 to |batch|
      invariant AllEntryIds(batch, encode) == Prepend(inputIds, AllEntryIds(batch[i..], encode))
    {
      assert batch[i..][1..] == batch[i + 1..] && batch[i..][0] == batch[i];
      var ids := EntryIds(batch[i], encode);
      if ids.Failure? {
        assert AllEntryIds(batch[i..], encode) == Failure(ids.error);
        return Failure(ids.error);
      }
      PrependStep(inputIds, ids.value, AllEntryIds(batch[i + 1..], encode));
      inputIds := inputIds + [ids.value];
    }
    assert batch[|batch|..] == [] && inputIds + [] == inputIds;
    r := Success(inputIds);
  }

  /** Lines 220-223 for one entry: each key it holds gets its value appended. */
  method AppendEntry(outputs: BatchOutputs, enc: Encoded, returnInputLengths: bool) returns (r: BatchOutputs)
    ensures r == MergeStep(outputs, enc, returnInputLengths)
  {
    r := outputs;
    if returnInputLengths {
      r := r.(inputLen := r.inputLen + [|enc.inputIds|]);
    }
    if enc.overflowingTokens.Some? {
      r := r.(overflowingTokens := r.overflowingTokens + [enc.overflowingTokens.value]);
    }
    if enc.numTruncatedTokens.Some? {
      r := r.(numTruncatedTokens := r.numTruncatedTokens + [enc.numTruncatedTokens.value]);
    }
    if enc.specialTokensMask.Some? {
      r := r.(specialTokensMask := r.specialTokensMask + [enc.specialTokensMask.value]);
    }
    r := r.(inputIds := r.inputIds + [enc.inputIds]);
    if enc.tokenTypeIds.Some? {
      r := r.(tokenTypeIds := r.tokenTypeIds + [enc.tokenTypeIds.value]);
    }
    if enc.attentionMask.Some? {
      r := r.(attentionMask := r.attentionMask + [enc.attentionMask.value]);
    }
  }

  /** Lines 196-224: prepare every entry and merge its keys. */
  method PrepareAndMerge(inputIds: seq<(seq<int>, Option<seq<int>>)>, opts: Options, returnInputLengths: bool)
    returns (r: Result<BatchOutputs, EncodeError>)
    ensures var outs := AllPrepared(inputIds, opts);
      r == if outs.Failure? then Failure(outs.error) else Success(Merge(outs.value, returnInputLengths))
  {
    var outputs := BatchOutputs([], [], [], [], [], [], []);
    ghost var outs: seq<Encoded> := [];
    assert inputIds[0..] == inputIds;
    PrependNothing(AllPrepared(inputIds, opts));
    for i := 0 to |inputIds|
      invariant AllPrepared(inputIds, opts) == Prepend(outs, AllPrepared(inputIds[i..], opts))
      invariant outputs == Merge(outs, returnInputLengths)
    {
      assert inputIds[i..][1..] == inputIds[i + 1..] && inputIds[i..][0] == inputIds[i];
      var (first, second) := inputIds[i];
      var e := PrepareForModel(first, second, opts);
      if e.Failure? {
        assert AllPrepared(inputIds[i..], opts) == Failure(e.error);
        return Failure(e.error);
      }
      PrependStep(outs, e.value, AllPrepared(inputIds[i + 1..], opts));
      MergeAppend(outs, e.value, returnInputLengths);
      outputs := AppendEntry(outputs, e.value, returnInputLengths);
      outs := outs + [e.value];
    }
    assert inputIds[|inputIds|..] == [] && outs + [] == outs;
    r := Success(outputs);
  }

  /** `input_ids` (and `input_len` when asked for) gets one entry per
      dictionary, in order. */
  lemma {:induction false} MergeInputIds(outs: seq<Encoded>, withLengths: bool)
    ensures var m := Merge(outs, withLengths);
      && |m.inputIds| == |outs| && (forall k :: 0 <= k < |outs| ==> m.inputIds[k] == outs[k].inputIds)
      && (withLengths ==> |m.inputLen| == |outs| && forall k :: 0 <= k < |outs| ==> m.inputLen[k] == |outs[k].inputIds|)
  {
    if outs != [] {
      var init := outs[..|outs| - 1];
      MergeInputIds(init, withLengths);
      var mi := Merge(init, withLengths);
      var m := Merge(outs, withLengths);
      forall k | 0 <= k < |outs| - 1
        ensures m.inputIds[k] == outs[k].inputIds
        ensures withLengths ==> m.inputLen[k] == |outs[k].inputIds|
      {
        assert m.inputIds[k] == mi.inputIds[k] && init[k] == outs[k];
        if withLengths {
          assert m.inputLen[k] == mi.inputLen[k];
        }
      }
    }
  }

  /** `token_type_ids`: when every dictionary holds it, one entry per
      dictionary, in order. */
  lemma {:induction false} MergeTokenTypes(outs: seq<Encoded>, withLengths: bool)
    requires forall k :: 0 <= k < |outs| ==> outs[k].tokenTypeIds.Some?
    ensures var m := Merge(outs, withLengths);
      |m.tokenTypeIds| == |outs| && forall k :: 0 <= k < |outs| ==> m.tokenTypeIds[k] == outs[k].tokenTypeIds.value
  {
    if outs != [] {
      var init := outs[..|outs| - 1];
      assert forall k :: 0 <= k < |init| ==> init[k] == outs[k];
      MergeTokenTypes(init, withLengths);
      var mi := Merge(init, withLengths);
      var m := Merge(outs, withLengths);
      assert m.tokenTypeIds == mi.tokenTypeIds + [outs[|outs| - 1].tokenTypeIds.value];
    }
  }

  /** `attention_mask`: when every dictionary holds it, one entry per
      dictionary, in order. */
  lemma {:induction false} MergeAttentionMasks(outs: seq<Encoded>, withLengths: bool)
    requires forall k :: 0 <= k < |outs| ==> outs[k].attentionMask.Some?
    ensures var m := Merge(outs, withLengths);
      |m.attentionMask| == |outs| && forall k :: 0 <= k < |outs| ==> m.attentionMask[k] == outs[k].attentionMask.value
  {
    if outs != [] {
      var init := outs[..|outs| - 1];
      assert forall k :: 0 <= k < |init| ==> init[k] == outs[k];
      MergeAttentionMasks(init, withLengths);
      var mi := Merge(init, withLengths);
      var m := Merge(outs, withLengths);
      assert m.attentionMask == mi.attentionMask + [outs[|outs| - 1].attentionMask.value];
    }
  }

  /** The overflow keys get at most one entry per dictionary. */
  lemma {:induction false} MergeOverflowBound(outs: seq<Encoded>, withLengths: bool)
    ensures var m := Merge(outs, withLengths);
      |m.overflowingTokens| <= |outs| && |m.numTruncatedTokens| <= |outs|
  {
    if outs != [] {
      MergeOverflowBound(outs[..|outs| - 1], withLengths);
    }
  }

  /** The merged lists: `input_ids` (and `input_len`) has one entry per
      dictionary, a key every dictionary holds likewise, and the overflow
      keys at most one per dictionary. */
  lemma MergeColumns(outs: seq<Encoded>, withLengths: bool)
    ensures var m := Merge(outs, withLengths);
      && |m.inputIds| == |outs| && (forall k :: 0 <= k < |outs| ==> m.inputIds[k] == outs[k].inputIds)
      && (withLengths ==> |m.inputLen| == |outs| && forall k :: 0 <= k < |outs| ==> m.inputLen[k] == |outs[k].inputIds|)
      && ((forall k :: 0 <= k < |outs| ==> outs[k].tokenTypeIds.Some?) ==>
            |m.tokenTypeIds| == |outs| && forall k :: 0 <= k < |outs| ==> m.tokenTypeIds[k] == outs[k].tokenTypeIds.value)
      && ((forall k :: 0 <= k < |outs| ==> outs[k].attentionMask.Some?) ==>
            |m.attentionMask| == |outs| && forall k :: 0 <= k < |outs| ==> m.attentionMask[k] == outs[k].attentionMask.value)
      && |m.overflowingTokens| <= |outs| && |m.numTruncatedTokens| <= |outs|
  {
    MergeInputIds(outs, withLengths);
    if forall k :: 0 <= k < |outs| ==> outs[k].tokenTypeIds.Some? {
      MergeTokenTypes(outs, withLengths);
    }
    if forall k :: 0 <= k < |outs| ==> outs[k].attentionMask.Some? {
      MergeAttentionMasks(outs, withLengths);
    }
    MergeOverflowBound(outs, withLengths);
  }

  /** A successful batch has one `input_ids` entry per batch entry, in
      batch order (and one `input_len` when asked for); the overflow keys
      only hold the entries that were truncated. */
  lemma BatchAligned(batch: seq<Value>, encode: string -> seq<int>, opts: Options, returnInputLengths: bool)
    requires BatchEncode(batch, encode, opts, false, returnInputLengths).Success?
    ensures var b := BatchEncode(batch, encode, opts, false, returnInputLengths).value;
      var pairs := AllEntryIds(batch, encode).value;
      && |b.inputIds| == |batch|
      && (forall k :: 0 <= k < |batch| ==> b.inputIds[k] == Prepare(pairs[k].0, pairs[k].1, opts).value.inputIds)
      && (returnInputLengths ==> |b.inputLen| == |batch| && forall k :: 0 <= k < |batch| ==> b.inputLen[k] == |b.inputIds[k]|)
      && |b.overflowingTokens| <= |batch| && |b.numTruncatedTokens| <= |batch|
  {
    var pairs := AllEntryIds(batch, encode).value;
    var outs := AllPrepared(pairs, opts).value;
    assert BatchEncode(batch, encode, opts, false, returnInputLengths).value == Merge(outs, returnInputLengths);
    MergeInputIds(outs, returnInputLengths);
    MergeOverflowBound(outs, returnInputLengths);
  }

  /** In a successful batch, `token_type_ids` and `attention_mask`, when
      asked for, have one entry per batch entry, each as long as that
      entry's `input_ids`, the attention mask all ones. */
  lemma BatchMasksAligned(batch: seq<Value>, encode: string -> seq<int>, opts: Options, returnInputLengths: bool)
    requires BatchEncode(batch, encode, opts, false, returnInputLengths).Success?
    ensures var b := BatchEncode(batch, encode, opts, false, returnInputLengths).value;
      && (opts.returnTokenTypeIds ==>
            (|b.tokenTypeIds| == |b.inputIds| && forall k :: 0 <= k < |b.inputIds| ==> |b.tokenTypeIds[k]| == |b.inputIds[k]|))
      && (opts.returnAttentionMask ==>
            (|b.attentionMask| == |b.inputIds| && forall k :: 0 <= k < |b.inputIds| ==> b.attentionMask[k] == Repeat(1, |b.inputIds[k]|)))
  {
    var pairs := AllEntryIds(batch, encode).value;
    var outs := AllPrepared(pairs, opts).value;
    assert BatchEncode(batch, encode, opts, false, returnInputLengths).value == Merge(outs, returnInputLengths);
    var m := Merge(outs, returnInputLengths);
    MergeInputIds(outs, returnInputLengths);
    if opts.returnTokenTypeIds {
      forall k | 0 <= k < |outs|
        ensures outs[k].tokenTypeIds.Some? && |outs[k].tokenTypeIds.value| == |outs[k].inputIds|
      {
        PrepareParallel(pairs[k].0, pairs[k].1, opts);
      }
      MergeTokenTypes(outs, returnInputLengths);
    }
    if opts.returnAttentionMask {
      forall k | 0 <= k < |outs|
        ensures outs[k].attentionMask.Some? && outs[k].attentionMask.value == Repeat(1, |outs[k].inputIds|)
      {
        PrepareParallel(pairs[k].0, pairs[k].1, opts);
      }
      MergeAttentionMasks(outs, returnInputLengths);
    }
  }

  /** Every successful dictionary has `token_type_ids` and `attention_mask`
      exactly when asked for, parallel to its `input_ids`. */
  lemma PrepareParallel(ids: seq<int>, pair: Option<seq<int>>, opts: Options)
    requires Prepare(ids, pair, opts).Success?
    ensures var e := Prepare(ids, pair, opts).value;
      && (e.tokenTypeIds.Some? <==> opts.returnTokenTypeIds)
      && (e.tokenTypeIds.Some? ==> |e.tokenTypeIds.value| == |e.inputIds|)
      && (e.attentionMask.Some? <==> opts.returnAttentionMask)
      && (e.attentionMask.Some? ==> e.attentionMask.value == Repeat(1, |e.inputIds|))
      && (e.specialTokensMask.Some? ==> e.specialTokensMask.value == Repeat(0, |e.inputIds|))
  {
    var t := Trimmed(ids, pair, opts).value;
    TokenTypesMarkSegments(t.ids, t.pair);
  }

  /** The only call site (line 125) encodes lines of text with special
      tokens, `max_length` set to the block size and every other flag at
      its default. The lines are the non-blank lines of the file that line
      120 keeps; reading the file and that filter are not modelled, so
      `lines` is the filtered list. With a positive block size every given
      line is encoded, none longer than the block size. */
  lemma LineByLineExamples(lines: seq<string>, encode: string -> seq<int>, blockSize: int)
    requires blockSize > 0
    ensures var opts := Options(Some(blockSize), true, 0, LongestFirst, true, true, false, false);
      var b := BatchEncode(seq(|lines|, k requires 0 <= k < |lines| => Str(lines[k])), encode, opts, false, false);
      && b.Success? && |b.value.inputIds| == |lines|
      && forall k :: 0 <= k < |lines| ==> b.value.inputIds[k] == PyHead(encode(lines[k]), blockSize)
  {
    var opts := Options(Some(blockSize), true, 0, LongestFirst, true, true, false, false);
    var batch := seq(|lines|, k requires 0 <= k < |lines| => Str(lines[k]));
    forall k | 0 <= k < |batch| ensures EntryIds(batch[k], encode) == Success((encode(lines[k]), None)) {
    }
    var pairs := AllEntryIds(batch, encode);
    assert pairs.Success?;
    forall k | 0 <= k < |batch|
      ensures Prepare(pairs.value[k].0, pairs.value[k].1, opts).Success?
      ensures Prepare(pairs.value[k].0, pairs.value[k].1, opts).value.inputIds == PyHead(encode(lines[k]), blockSize)
    {
      var ids := encode(lines[k]);
      assert pairs.value[k] == (ids, None);
      PrepareSingle(ids, opts);
    }
    BatchAligned(batch, encode, opts, false);
  }

  /** A single sequence under `longest_first` and a positive `max_length`
      keeps its first `max_length` tokens. */
  lemma PrepareSingle(ids: seq<int>, opts: Options)
    requires opts.maxLength.Some? && opts.maxLength.value > 0 && opts.strategy == LongestFirst
    requires !(opts.returnSpecialTokensMask && opts.addSpecialTokens)
    ensures Prepare(ids, None, opts).Success?
    ensures Prepare(ids, None, opts).value.inputIds == PyHead(ids, opts.maxLength.value)
  {
    var n := Excess(ids, None, opts);
    if n > 0 {
      assert Trimmed(ids, None, opts).value.ids == ids[..|ids| - n];
    } else {
      assert ids[..|ids|] == ids;
    }
  }
}
