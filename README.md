# Semantic change detection with BERT: a Dafny model of its discrete core

The repository measures how the meaning of target words shifts between two
time slices of a corpus. `calculate_semantic_change.py` reads contextual
embeddings of every occurrence of a target word. It keeps the occurrences
whose sentence holds the word, optionally one per sentence. It pools both
slices and clusters the pooled embeddings three ways (affinity propagation,
k-means with 5 and with 7 clusters). It splits each labelling back at the
slice boundary, scores the Jensen-Shannon divergence of the two per-slice
cluster count vectors, and keeps a results table sorted by the
affinity-propagation score. `finetuning_BERT_on_semeval_corpora.py`
fine-tunes the language model on the corpus. Its own list logic is modelled
here: sequence truncation and the input dictionary of its line-by-line
dataset, fixed-size block chunking, checkpoint naming, ordering and
rotation, and the resume and block-size arithmetic.

Modules, one file each:

- `Wrappers`: `Option` and `Result`.
- `Ints`: `min` and `max` of two integers.
- `WordMatch`: the target word with its `_vb`/`_nn` tags removed, and the
  whole-word search for it.
- `OccurrenceFilter`: the per-slice filter and deduplication loop.
- `ClusterCounts`: the label split, the union of labels and the two count
  vectors.
- `ResultsTable`: the result row and the descending sort.
- `SemanticChange`: one word as a function (`Analyze`), and the `Analyzer`
  class holding the six result columns and the pickled dictionaries, with
  the word loop as methods.
- `Truncation`: `truncate_sequences`.
- `Encoding`: the token-sequence helpers, `custom_prepare_for_model` and
  `custom_batch_encode_plus`.
- `Chunking`: the `TextDataset` class.
- `Decimal`: numerals as written into checkpoint names and read back.
- `Checkpoints`: the step number a checkpoint path carries.
- `Rotation`: `_sorted_checkpoints` and `_rotate_checkpoints`.
- `TrainingSetup`: the resume point and the block size.

Where the code loops or updates state, the model is a method or a class
proved equal to a specification function. The properties the code promises
are lemmas about those functions.

## Model

| member | source | states |
|---|---|---|
| WordMatch.TargetStripsPosTag | calculate_semantic_change.py:143 | a word without underscores, tagged `_nn` or `_vb`, has exactly that word as its target |
| WordMatch.SearchSpec | calculate_semantic_change.py:143 | the regex search succeeds exactly when the target occurs with a word boundary on both sides |
| WordMatch.SearchFromSpec | calculate_semantic_change.py:143 | scanning from position i succeeds exactly when some later position starts a whole-word occurrence |
| WordMatch.PlaneKeptExample | calculate_semantic_change.py:155-156 | for the word `plane_nn`, "a plane flew" and "the plane landed" are kept |
| WordMatch.PlaneRejectedExample | calculate_semantic_change.py:155-156 | for the word `plane_nn`, "airplane noise" is rejected: "plane" only occurs inside a word there |
| OccurrenceFilter.Kept | calculate_semantic_change.py:150-162 | the surviving indices are strictly increasing, below the slice length, and are exactly those whose sentence matches and (under dedupe) is not seen earlier in the slice |
| OccurrenceFilter.FilterSlice | calculate_semantic_change.py:146-169 | the loop with a fresh seen-set per slice yields embeddings and texts at the surviving indices, in slice order, as parallel lists |
| OccurrenceFilter.SeenStep | calculate_semantic_change.py:150-162 | with a seen-set holding the earlier matching texts, the loop's test keeps exactly the surviving occurrences, and the update keeps the seen-set exact |
| OccurrenceFilter.DedupedTextsDistinct | calculate_semantic_change.py:158-162 | under dedupe the surviving sentences of a slice are pairwise distinct |
| OccurrenceFilter.DedupeKeepsFirstOfEach | calculate_semantic_change.py:158-162 | every matching sentence of a slice survives dedupe through its first occurrence in that slice |
| OccurrenceFilter.KeptEmptyIff | calculate_semantic_change.py:150-169 | a slice loses every occurrence exactly when none of its sentences holds the target, with or without dedupe |
| ClusterCounts.SplitLabels | calculate_semantic_change.py:185-186 | the two halves concatenate to the labels and the first has `min(n1, len)` entries |
| ClusterCounts.SplitPooled | calculate_semantic_change.py:182-198 | labels of n1 + n2 pooled rows split into exactly n1 and n2 labels that concatenate back |
| ClusterCounts.Senses | calculate_semantic_change.py:79-82 | the label list is duplicate-free and holds exactly the labels of either slice |
| ClusterCounts.Counts | calculate_semantic_change.py:85-86 | one entry per label of the list, equal to that label's count in the slice |
| ClusterCounts.CountVectorsSound | calculate_semantic_change.py:78-86 | both vectors are as long as the label list, sum to the slice lengths, are zero exactly where the slice lacks the label, and never both zero |
| ClusterCounts.SensesCount | calculate_semantic_change.py:82 | the label list is as long as the number of distinct pooled labels |
| ClusterCounts.CountVectorsSwap | calculate_semantic_change.py:78-86 | swapping the two slices swaps the two count vectors |
| ClusterCounts.NumSensesOfSplit | calculate_semantic_change.py:187 | the cluster count of line 187 is the size of the common index of the count vectors |
| ClusterCounts.FixedKSenses | calculate_semantic_change.py:190-198 | labels drawn from [0, k) give at most k clusters |
| ClusterCounts.ClusterDivergence | calculate_semantic_change.py:78-94 | a divergence exists exactly when both slices have labels, and it is the divergence of the two count vectors |
| ClusterCounts.ClusterDivergenceSymmetric | calculate_semantic_change.py:78-94 | with a symmetric divergence measure the slice order does not matter |
| ResultsTable.InsertRow | calculate_semantic_change.py:226-227 | inserting a row into a descending table keeps it descending and adds exactly that row |
| ResultsTable.SortByAffProp | calculate_semantic_change.py:226-227 | the written table is a permutation of the rows, in non-increasing `aff_prop` order |
| SemanticChange.AnalyzeSucceedsIff | calculate_semantic_change.py:146-195 | a word is analysed exactly when its sentence lists cover its embedding lists, each slice keeps an occurrence and at least 7 rows are pooled; otherwise the error is the first one the source raises: a missing sentence, an empty first then second slice, too few rows for 5 then for 7 clusters |
| SemanticChange.AnalyzeSentences | calculate_semantic_change.py:178 | the recorded sentences are the survivors of each slice, non-empty, and pairwise distinct under dedupe |
| SemanticChange.StrategySplit | calculate_semantic_change.py:182-198 | a strategy's labels of the pooled rows split into halves as long as the two slices, concatenating back |
| SemanticChange.AnalyzeRow | calculate_semantic_change.py:182-215 | each strategy's halves have the slice lengths and concatenate to its labels; each score is the divergence of its count vectors; the cluster count is between 1 and the pooled size; k-means gives at most 5 and 7 clusters |
| SemanticChange.Analyzer.AppendRow | calculate_semantic_change.py:210-215 | each of the six columns grows by exactly the row's value, and the columns stay parallel |
| SemanticChange.Analyzer.Record | calculate_semantic_change.py:200-227 | the dictionaries get the word's entries, the row is appended and the written table is a sorted permutation of all rows |
| SemanticChange.Analyzer.ProcessWord | calculate_semantic_change.py:134-227 | the outcome is `Analyze` of the word, and the new state is `AfterWord` of the old one with that outcome: on failure only the sentence dictionary changes (once both slices were read); on success the word's row and dictionary entries are added and the written table is a sorted permutation of all rows |
| SemanticChange.Analyzer.Run | calculate_semantic_change.py:134-227 | every word before the stopping point is analysed; the state is `AfterWords` of the old one over all input words when the run completes, or over the words up to and including the first failing one, whose error is returned; the written table is a sorted permutation of all rows once a word succeeded, and unchanged otherwise |
| SemanticChange.AnalyzeWithNamesWord | calculate_semantic_change.py:210 | every successful analysis carries its own word in its row |
| SemanticChange.AllAnalysedIff | calculate_semantic_change.py:134-136 | a prefix of the input is analysed exactly when each of its words is |
| SemanticChange.AnalysesOfAt | calculate_semantic_change.py:134-136 | entry j of the analyses of a prefix is the analysis of input word j |
| SemanticChange.WordsOfAt | calculate_semantic_change.py:134-136 | entry j of the words of a prefix is input word j |
| SemanticChange.StoredSentencesLast | calculate_semantic_change.py:178 | a stored word's sentences are those of its last analysis |
| SemanticChange.StoredSentencesUntouched | calculate_semantic_change.py:178 | a word no analysis carries keeps its old entry, or stays absent |
| SemanticChange.StoredLabelsLast | calculate_semantic_change.py:200-208 | a stored word's three label entries are those of its last analysis |
| SemanticChange.StoredCentroidsLast | calculate_semantic_change.py:200-208 | a stored word's three centroid entries are those of its last analysis |
| SemanticChange.AfterWordsWords | calculate_semantic_change.py:134-215 | after words that all succeed, the table gained exactly their words, in input order |
| SemanticChange.AfterWordsRows | calculate_semantic_change.py:182-215 | after words that all succeed, the table gained exactly the rows of their analyses, in input order |
| SemanticChange.AfterWordsDicts | calculate_semantic_change.py:178-208 | after words that all succeed, the sentence dictionary and the six other dictionaries hold the entries of their analyses, the last one winning for a repeated word |
| SemanticChange.AfterWordsAnalysed | calculate_semantic_change.py:134-227 | after words that all succeed, the state is the old table extended by their words and rows and the old dictionaries updated by their analyses |
| SemanticChange.AfterWordsStopped | calculate_semantic_change.py:134-227 | a run stopped by a failing word leaves the state of the words before it, plus that word's surviving sentences once both of its slices were read |
| Truncation.StrategyOf | finetuning_BERT_on_semeval_corpora.py:355-381 | each of the four recognised names selects its own strategy, and exactly the other strings are unrecognised, keeping their name |
| Truncation.LongestFirstLengths | finetuning_BERT_on_semeval_corpora.py:355-365 | the kept lengths never exceed the inputs and sum to the total minus n, or 0 |
| Truncation.LongestFirstStep | finetuning_BERT_on_semeval_corpora.py:357-363 | each removal takes a token from the first sequence when it is strictly longer, and otherwise from the second |
| Truncation.LongestFirstIterClosed | finetuning_BERT_on_semeval_corpora.py:357-362 | taking the removals one at a time, as the loop does, ends on the closed-form lengths of `LongestFirstLengths` |
| Truncation.LongestFirstLoop | finetuning_BERT_on_semeval_corpora.py:355-365 | the removal loop returns what `Truncate` specifies for `longest_first` |
| Truncation.TruncateSequences | finetuning_BERT_on_semeval_corpora.py:340-382 | the call returns what `Truncate` specifies, for every strategy |
| Truncation.TruncateFailsExactly | finetuning_BERT_on_semeval_corpora.py:352-381 | the call fails exactly for a positive n with a non-truncating strategy, a first sequence that runs out, or a failed length assertion, with that error |
| Truncation.TruncateKeepsPrefixes | finetuning_BERT_on_semeval_corpora.py:352-375 | the kept sequences are prefixes of the inputs, and n tokens are removed (all of them when fewer remain), none when n <= 0 |
| Truncation.LongestFirstBalances | finetuning_BERT_on_semeval_corpora.py:355-365 | once both sequences are cut, they are even or the first is one longer |
| Truncation.LongestFirstCutsLongerFirst | finetuning_BERT_on_semeval_corpora.py:355-365 | a shorter sequence is left alone until the longer one has come down to its length |
| Truncation.LongestFirstOverflowShape | finetuning_BERT_on_semeval_corpora.py:355-365 | the overflow is the removed first-sequence tokens in order, behind a window of `min(kept, stride)` kept tokens |
| Truncation.OverflowIsSuffix | finetuning_BERT_on_semeval_corpora.py:363-365 | the window of kept tokens followed by the removed ones is one contiguous suffix of the first sequence, starting the clamped window before the cut |
| Truncation.OnlyFirstOverflowShape | finetuning_BERT_on_semeval_corpora.py:366-370 | with a non-negative stride, `only_first` drops exactly the last n tokens and returns the last `min(len(ids), stride + n)` tokens as overflow, which end with the n removed ones |
| Encoding.TokenTypesMarkSegments | finetuning_BERT_on_semeval_corpora.py:386-395 | the joined sequence is the first sequence then the second, and each token type is 0 or 1 by the sequence it came from |
| Encoding.SpecialTokensMask | finetuning_BERT_on_semeval_corpora.py:449-451 | the mask is all zeros, as long as the joined sequence |
| Encoding.PrepareForModel | finetuning_BERT_on_semeval_corpora.py:226-337 | the dictionary-building method returns what `Prepare` specifies |
| Encoding.FillEncoded | finetuning_BERT_on_semeval_corpora.py:255-337 | the dictionary updates after truncation return what `Fill` specifies |
| Encoding.PrepareLengths | finetuning_BERT_on_semeval_corpora.py:244-285 | `input_ids` has `min(total, max_length)` tokens and is the truncated first sequence then the truncated second; token types, masks and overflow follow it |
| Encoding.PrepareParallel | finetuning_BERT_on_semeval_corpora.py:262-335 | token types and attention mask are present exactly when asked for, as long as `input_ids`, the attention mask all ones |
| Encoding.PrepareSingle | finetuning_BERT_on_semeval_corpora.py:249-285 | a single sequence under `longest_first` keeps its first `max_length` tokens |
| Encoding.InputIds | finetuning_BERT_on_semeval_corpora.py:152-161 | a string is encoded, a non-empty list of integers passes through unchanged, and every other value is a `ValueError`: an empty list, a list holding a non-integer, `None`, a bare integer or anything else |
| Encoding.SplitEntry | finetuning_BERT_on_semeval_corpora.py:173-177 | a list or tuple entry fails exactly when it does not have two elements |
| Encoding.AllEntryIds | finetuning_BERT_on_semeval_corpora.py:172-182 | one id pair per entry in order, or failure exactly when some entry fails |
| Encoding.AllPrepared | finetuning_BERT_on_semeval_corpora.py:196-214 | one dictionary per id pair in order, or failure exactly when some pair fails |
| Encoding.CustomBatchEncodePlus | finetuning_BERT_on_semeval_corpora.py:134-224 | the batch method returns what `BatchEncode` specifies |
| Encoding.CollectInputIds | finetuning_BERT_on_semeval_corpora.py:172-182 | the first loop returns what `AllEntryIds` specifies |
| Encoding.PrepareAndMerge | finetuning_BERT_on_semeval_corpora.py:196-224 | the second loop returns the merge of `AllPrepared`, or its error |
| Encoding.MergeColumns | finetuning_BERT_on_semeval_corpora.py:216-223 | `input_ids` (and `input_len`) gets one entry per dictionary, in order; a key every dictionary holds likewise |
| Encoding.BatchAligned | finetuning_BERT_on_semeval_corpora.py:172-224 | a successful batch has one `input_ids` entry per input, in input order, each the entry's own dictionary value |
| Encoding.BatchMasksAligned | finetuning_BERT_on_semeval_corpora.py:196-224 | token types and attention masks, when asked for, have one entry per input, each as long as its `input_ids` |
| Encoding.LineByLineExamples | finetuning_BERT_on_semeval_corpora.py:125 | the dataset's call encodes every non-blank line it is given, in order, keeping at most `block_size` tokens of each |
| Chunking.RawBlocksShape | finetuning_BERT_on_semeval_corpora.py:94-95 | there are `len // block_size` blocks, each exactly `block_size` long, together the stream without its remainder |
| Chunking.ExamplesFillBlock | finetuning_BERT_on_semeval_corpora.py:74-95 | when the wrapper adds exactly `max_len - max_len_single_sentence` tokens, every example is exactly the requested `block_size` long |
| Chunking.TextDataset.constructor | finetuning_BERT_on_semeval_corpora.py:93-95 | the examples are the wrapped raw blocks, in stream order |
| Chunking.TextDataset.Create | finetuning_BERT_on_semeval_corpora.py:71-95 | the dataset is built exactly when the adjusted block size is not zero, holding the wrapped blocks |
| Chunking.LengthOfHolds | finetuning_BERT_on_semeval_corpora.py:94-105 | the dataset length is the stream length divided by the adjusted block size, or 0 for a negative one |
| Decimal.Numeral | finetuning_BERT_on_semeval_corpora.py:664 | a step number is written as a non-empty digit string without a leading zero |
| Decimal.NumeralRoundTrip | finetuning_BERT_on_semeval_corpora.py:664 | reading back a written step number gives the number |
| Checkpoints.PathLtTrichotomy | finetuning_BERT_on_semeval_corpora.py:427 | path order is total and antisymmetric |
| Checkpoints.PathLtTransitive | finetuning_BERT_on_semeval_corpora.py:427 | path order is transitive |
| Checkpoints.StepOfDefined | finetuning_BERT_on_semeval_corpora.py:423-425 | a path has a step number exactly when `prefix-` followed by a digit starts before its first newline |
| Checkpoints.LastMatchSpec | finetuning_BERT_on_semeval_corpora.py:423-425 | the backwards scan finds the last `prefix-`-and-digit occurrence at or before j, and finds none exactly when there is none |
| Checkpoints.StepOfLastOccurrence | finetuning_BERT_on_semeval_corpora.py:423-425 | the number is read after the last such occurrence, over its whole run of digits |
| Checkpoints.SavedStepRoundTrip | finetuning_BERT_on_semeval_corpora.py:423 | the directory saved at step n reads back as step n |
| Rotation.SortedSpec | finetuning_BERT_on_semeval_corpora.py:427 | `sorted` returns a permutation of the tuples in ascending (step, path) order |
| Rotation.Numbered | finetuning_BERT_on_semeval_corpora.py:419-425 | every collected tuple is a listed path with its own step number |
| Rotation.NumberedMembers | finetuning_BERT_on_semeval_corpora.py:419-425 | a path is collected exactly when it is listed and has a step number |
| Rotation.SortedCheckpoints | finetuning_BERT_on_semeval_corpora.py:414-429 | the listing loop and sort return what `SortedPaths` specifies |
| Rotation.SortedPathsOrdered | finetuning_BERT_on_semeval_corpora.py:414-429 | every returned path has a step number, in ascending (step, path) order |
| Rotation.SortedPathsMembers | finetuning_BERT_on_semeval_corpora.py:414-429 | the returned paths are exactly the numbered listed paths, one per listed occurrence |
| Rotation.ToDelete | finetuning_BERT_on_semeval_corpora.py:433-445 | a prefix of the sorted list is deleted; nothing when the limit is unset, zero or negative, or the count is within it; a positive limit keeps `min(count, limit)` |
| Rotation.RotateCheckpoints | finetuning_BERT_on_semeval_corpora.py:432-447 | the directories removed, in order, are what `ToDelete` selects |
| Rotation.RotationDeletesOldest | finetuning_BERT_on_semeval_corpora.py:432-447 | only listed checkpoints are deleted, each older than every one kept, and a positive limit keeps `min(count, limit)` |
| TrainingSetup.FloorMod | finetuning_BERT_on_semeval_corpora.py:588-589 | `//` and `%` decompose the dividend, the remainder taking the divisor's sign |
| TrainingSetup.ResumeDecomposes | finetuning_BERT_on_semeval_corpora.py:583-596 | the global step is epochs times steps-per-epoch plus the steps in the epoch, which stay below a full epoch |
| TrainingSetup.ResumeFromSavedCheckpoint | finetuning_BERT_on_semeval_corpora.py:586-589 | a path naming the directory saved at step n resumes at step n, epoch `n // S`, step `n % S` |
| TrainingSetup.ResumeFreshStart | finetuning_BERT_on_semeval_corpora.py:586-596 | a path whose suffix is not a numeral starts from zero |
| TrainingSetup.ChooseBlockSize | finetuning_BERT_on_semeval_corpora.py:1034-1053 | an empty model name is the `ValueError` of line 1041, before any size is chosen; otherwise a non-positive request takes 512 for the Swedish model and the hub tokenizer's maximum for the others; a positive one is capped at the hub tokenizer's maximum, and is an `AttributeError` for the Swedish model, whose tokenizer has no `max_len` |

## Left out

- Floating point: `compute_jsd`, the normalisation at lines 89-90 and the cosine distances are parameters of type `real` (`Library.jsd`, `Library.averagedDistance`). Their values are not computed.
- The sklearn clusterings are parameters (`Library.affProp`, `Library.kMeans`). They are only assumed to give one label per row, and k-means labels in [0, k) when given at least k rows. Fewer rows make `KMeans.fit` raise, which the model returns as `TooFewRows`. Affinity propagation is taken to succeed on any non-empty input. DBSCAN and `compute_mean_dist` are never called by the word loop.
- `aff_prop_pref = -430` (line 132) is never passed to the clustering, so the model does not use it.
- Pickle, CSV and `os.makedirs` output become the `written` table and the `Analyzer` maps. Argument parsing, the language check and loading the embeddings are left out.
- The source does not skip a word whose slice the filter leaves empty: the averaged distance and the clustering of line 180 onwards fail on empty input, so the run stops with `EmptySlice`.
- A sentence list shorter than its embedding list makes line 153 raise `IndexError`; the model returns `MissingSentence` for that slice, with nothing stored for the word.
- The iteration order of `set(labels_all)` is not fixed by Python; the model uses ascending order. Every property above holds for both vectors under any common order.
- ClusterCounts.ClusterDivergence: with an empty slice it returns no value, where numpy would give NaN. The word loop never reaches that case.
- WordMatch.Search: `\b` uses ASCII word characters (letters, digits, `_`). The target is matched as literal text, although the source does not escape regex metacharacters in it.
- ResultsTable.SortByAffProp: pandas' sort is not stable, so only the order and the permutation are stated, not the placement of equal scores.
- Training and evaluation loops, `mask_tokens` (random masking), the optimiser, GPU and distributed code, and logging are left out.
- The tokenizer is a parameter: `encode` stands for `tokenizer.encode(text).ids` in `get_input_ids`, and the special-token wrapper of `TextDataset` for `build_inputs_with_special_tokens`. Tokenisation of the file text is its token stream, given as input.
- The padding branch of `custom_prepare_for_model` (lines 294-332) and `total_sequence_length` (lines 184-194) are left out; the only caller passes no padding. `max_length` of None reads `self.max_len`, which the dataset class lacks, so it is an `AttributeError`. So is a special-tokens mask with special tokens added, since `self.get_special_tokens_mask` does not exist on the class.
- Encoding.InputIds: the source checks only the first element of a list; a list starting with an integer but holding other values is passed through by the source and is an error in the model.
- Encoding.Merge: keys absent from every dictionary are modelled as empty lists rather than missing keys of `batch_outputs`.
- Encoding.LineByLineExamples: reading the file and the blank-line filter of line 120 (`len(line) > 0 and not line.isspace()`, with Unicode whitespace) are left out; the lemma takes the already filtered lines.
- The cache file of `TextDataset` is left out; the examples are always built from the token stream.
- The `use_mtime` ordering of `_sorted_checkpoints` is left out (file modification times are I/O). The glob listing is a parameter, and `shutil.rmtree` is the returned list of directories.
- Checkpoints.StepOf: the checkpoint prefix is matched as literal text, not as a regex.
- TrainingSetup.Resume: `int()` also accepts surrounding whitespace, a sign, underscores between digits and non-ASCII digits; the model reads plain ASCII digit strings only, and treats the rest as `ValueError`.
- `os.path.exists` is a parameter of `Resume`.
