/** Two pieces of set-up arithmetic in finetuning_BERT_on_semeval_corpora.py:
    where training resumes when the model path names a saved checkpoint,
    and the block size chosen for the dataset. */
module TrainingSetup {
  import opened Wrappers
  import opened Decimal
  import opened Ints

  // ---------------------------------------------------------------------
  // Python's integer division

  /** `a // b`: rounds toward negative infinity. */
  function FloorDiv(a: int, b: int): int
    requires b != 0
  {
    if b > 0 then a / b else (-a) / (-b)
  }

  /** `a % b`: what `//` leaves, with the sign of the divisor. */
  function FloorMod(a: int, b: int): (m: int)
    requires b != 0
    ensures a == b * FloorDiv(a, b) + m
    ensures b > 0 ==> 0 <= m < b
    ensures b < 0 ==> b < m <= 0
  {
    if b > 0 then a % b
    else
      assert -a == (-b) * ((-a) / (-b)) + (-a) % (-b);
      -((-a) % (-b))
  }

  // ---------------------------------------------------------------------
  // Resuming from a checkpoint path

  /** What follows the last `sep` (the whole string when there is none):
      `s.split(sep)[-1]`. */
  function AfterLast(s: string, sep: char): (r: string)
    ensures sep !in r
    ensures |r| <= |s| && r == s[|s| - |r|..]
    ensures |r| < |s| ==> s[|s| - |r| - 1] == sep
  {
    if |s| == 0 then []
    else if s[|s| - 1] == sep then []
    else AfterLast(s[..|s| - 1], sep) + [s[|s| - 1]]
  }

  /** What precedes the first `sep` (the whole string when there is none):
      `s.split(sep)[0]`. */
  function BeforeFirst(s: string, sep: char): (r: string)
    ensures sep !in r
    ensures |r| <= |s| && r == s[..|r|]
    ensures |r| < |s| ==> s[|r|] == sep
  {
    if |s| == 0 || s[0] == sep then []
    else [s[0]] + BeforeFirst(s[1..], sep)
  }

  /** `model_name_or_path.split("-")[-1].split("/")[0]`. */
  function CheckpointSuffix(path: string): string
  {
    BeforeFirst(AfterLast(path, '-'), '/')
  }

  /** An uncaught `ZeroDivisionError` from the steps-per-epoch division. */
  datatype ResumeError = ZeroDivision

  /** `(global_step, epochs_trained, steps_trained_in_current_epoch)`. */
  datatype ResumePoint = ResumePoint(globalStep: int, epochsTrained: int, stepsInEpoch: int)

  /** The block at the start of `train`. `pathExists` stands for
      `os.path.exists(model_name_or_path)`; `batches` is
      `len(train_dataloader)`. A suffix `int()` rejects raises `ValueError`,
      which is caught: training starts from zero. */
  function Resume(path: string, pathExists: bool, batches: nat, accumulation: int): Result<ResumePoint, ResumeError>
  {
    if path == [] || !pathExists then Success(ResumePoint(0, 0, 0))
    else
      var suffix := CheckpointSuffix(path);
      if suffix == [] || !AllDigits(suffix) then Success(ResumePoint(0, 0, 0))
      else if accumulation == 0 then Failure(ZeroDivision)
      else
        var perEpoch := FloorDiv(batches, accumulation);
        if perEpoch == 0 then Failure(ZeroDivision)
        else
          var step := DigitsValue(suffix);
          Success(ResumePoint(step, FloorDiv(step, perEpoch), FloorMod(step, perEpoch)))
  }

  /** The resumed position is consistent: the global step is
      `epochs * steps_per_epoch + steps_in_epoch`, with the steps in the
      epoch below a full epoch. A positive accumulation count with fewer
      batches than it raises. */
  lemma ResumeDecomposes(path: string, pathExists: bool, batches: nat, accumulation: int)
    requires accumulation > 0
    requires Resume(path, pathExists, batches, accumulation).Success?
    ensures var r := Resume(path, pathExists, batches, accumulation).value;
      var perEpoch := batches / accumulation;
      && 0 <= r.globalStep
      && (r.globalStep != 0 ==> perEpoch > 0)
      && (perEpoch > 0 ==> r.globalStep == r.epochsTrained * perEpoch + r.stepsInEpoch && 0 <= r.stepsInEpoch < perEpoch)
  {
    var r := Resume(path, pathExists, batches, accumulation).value;
    var perEpoch := batches / accumulation;
    if perEpoch > 0 {
      assert FloorDiv(batches, accumulation) == perEpoch;
      if r != ResumePoint(0, 0, 0) {
        var step := r.globalStep;
        assert step == perEpoch * FloorDiv(step, perEpoch) + FloorMod(step, perEpoch);
      }
    }
  }

  /** The directory saved at step n has the numeral of n as its suffix. */
  lemma SavedCheckpointSuffix(dir: string, n: nat)
    ensures CheckpointSuffix(dir + "checkpoint-" + Numeral(n)) == Numeral(n)
  {
    var d := Numeral(n);
    assert '-' !in d && '/' !in d by {
      forall k | 0 <= k < |d| ensures d[k] != '-' && d[k] != '/' {
        assert IsDigit(d[k]);
      }
    }
    AfterLastOf(dir + "checkpoint", d);
    assert dir + "checkpoint-" + d == (dir + "checkpoint") + "-" + d;
    BeforeFirstWhole(d, '/');
  }

  /** A model path that names the directory saved at step n resumes at
      step n. */
  lemma ResumeFromSavedCheckpoint(dir: string, n: nat, batches: nat, accumulation: int)
    requires accumulation > 0 && batches / accumulation > 0
    ensures var perEpoch := batches / accumulation;
      Resume(dir + "checkpoint-" + Numeral(n), true, batches, accumulation)
        == Success(ResumePoint(n, n / perEpoch, n % perEpoch))
  {
    var path := dir + "checkpoint-" + Numeral(n);
    assert CheckpointSuffix(path) == Numeral(n) by {
      SavedCheckpointSuffix(dir, n);
    }
    assert path != [];
    NumeralRoundTrip(n);
  }

  lemma {:induction false} AfterLastOf(s: string, t: string)
    requires '-' !in t
    ensures AfterLast(s + "-" + t, '-') == t
  {
    if |t| > 0 {
      var init := t[..|t| - 1];
      AfterLastOf(s, init);
      assert (s + "-" + t)[..|s + "-" + t| - 1] == s + "-" + init;
      assert t == init + [t[|t| - 1]];
    }
  }

  lemma {:induction false} BeforeFirstWhole(s: string, sep: char)
    requires sep !in s
    ensures BeforeFirst(s, sep) == s
  {
    if |s| > 0 {
      assert s[0] in s;
      BeforeFirstWhole(s[1..], sep);
    }
  }

  /** A model path whose suffix is not a numeral (a hub model name such as
      `bert-base-uncased`, whose suffix is `uncased`) starts from zero. */
  lemma ResumeFreshStart(path: string, pathExists: bool, batches: nat, accumulation: int)
    requires CheckpointSuffix(path) == [] || !AllDigits(CheckpointSuffix(path))
    ensures Resume(path, pathExists, batches, accumulation) == Success(ResumePoint(0, 0, 0))
  {
  }

  // ---------------------------------------------------------------------
  // Block size

  const SwedishModel := "af-ai-center/bert-base-swedish-uncased"

  /** The `max_len` of the tokenizer `main` loads (lines 1034-1044): the
      Swedish model gets a `BertWordPieceTokenizer`, which has no such
      attribute; any other non-empty model name gets its hub tokenizer and
      its maximum; an empty name loads no tokenizer at all. */
  function TokenizerMaxLen(modelName: string, hubMaxLen: int): (r: Result<Option<int>, BlockSizeError>)
    ensures r.Failure? <==> modelName == ""
    ensures r.Success? ==> (r.value.None? <==> modelName == SwedishModel)
  {
    if modelName == SwedishModel then Success(None)
    else if modelName != "" then Success(Some(hubMaxLen))
    else Failure(NewTokenizer)
  }

  /** `NewTokenizer`: the `ValueError` of line 1041 for a model name that
      is empty, raised before any block size is chosen. `NoMaxLen`: reading
      `tokenizer.max_len` where the tokenizer has none raises
      `AttributeError`. */
  datatype BlockSizeError = NewTokenizer | NoMaxLen

  /** The block size `main` settles on (lines 1034-1053), once it has a
      tokenizer: a non-positive request takes 512 for the Swedish model and
      the tokenizer's maximum otherwise; a positive one is capped at the
      tokenizer's maximum, which the Swedish tokenizer does not have. */
  function ChooseBlockSize(requested: int, modelName: string, hubMaxLen: int): (r: Result<int, BlockSizeError>)
    ensures modelName == "" ==> r == Failure(NewTokenizer)
    ensures r.Failure? <==> modelName == "" || (requested > 0 && modelName == SwedishModel)
    ensures requested > 0 && modelName == SwedishModel ==> r == Failure(NoMaxLen)
    ensures requested <= 0 && modelName == SwedishModel ==> r == Success(512)
    ensures requested <= 0 && modelName != SwedishModel && modelName != "" ==> r == Success(hubMaxLen)
    ensures requested > 0 && modelName != SwedishModel && modelName != "" ==>
              r.Success? && r.value <= requested && r.value <= hubMaxLen && (r.value == requested || r.value == hubMaxLen)
    ensures r.Success? && modelName != SwedishModel && hubMaxLen > 0 ==> r.value > 0
  {
    match TokenizerMaxLen(modelName, hubMaxLen)
    case Failure(e) => Failure(e)
    case Success(maxLen) =>
      if requested <= 0 then
        if modelName == SwedishModel then Success(512)
        else if maxLen.None? then Failure(NoMaxLen) else Success(maxLen.value)
      else if maxLen.None? then Failure(NoMaxLen)
      else Success(Min(requested, maxLen.value))
  }
}
