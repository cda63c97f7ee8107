/** The per-word loop of calculate_semantic_change.py (lines 134-227): for
    each target word, filter and deduplicate the occurrences of both time
    slices, pool them, cluster the pooled embeddings three ways, split each
    labelling back at the slice boundary, score the divergence, append one
    row to the six result columns and rewrite the sorted table.
    The clustering library and the floating-point measures are parameters
    (`Library`); pickle and CSV output is the `written` snapshot and the maps. */
module SemanticChange {
  import opened Wrappers
  import opened WordMatch
  import opened OccurrenceFilter
  import opened ClusterCounts
  import opened ResultsTable

  /** One entry of the embeddings pickle: per time slice, the embeddings
      (`t1`, `t2`) and their sentences (`t1_text`, `t2_text`). */
  datatype WordRecord = WordRecord(
    t1: seq<Embedding>,
    t2: seq<Embedding>,
    t1Text: seq<string>,
    t2Text: seq<string>)

  /** A record whose sentence lists cover its embedding lists; the source
      reads the sentence at each embedding position (line 153). */
  predicate WellFormed(rec: WordRecord) {
    |rec.t1| <= |rec.t1Text| && |rec.t2| <= |rec.t2Text|
  }

  /** What a clustering run returns: one label per row and the cluster
      exemplars or centroids. */
  datatype Clustering = Clustering(labels: seq<int>, centers: seq<Embedding>)

  /** The foreign computations: affinity propagation with its default
      preference, k-means with `random_state=0`, the Jensen-Shannon
      divergence of two count vectors and the cosine distance of the two
      slice means. */
  datatype Library = Library(
    affProp: seq<Embedding> -> Clustering,
    kMeans: (seq<Embedding>, nat) -> Clustering,
    jsd: (seq<nat>, seq<nat>) -> real,
    averagedDistance: (seq<Embedding>, seq<Embedding>) -> real)

  /** What the clustering library guarantees: one label per row, and, when
      k-means is given at least k rows (it raises otherwise, see `TooFewRows`),
      labels in [0, k). */
  ghost predicate LibraryContract(lib: Library) {
    && (forall x :: |lib.affProp(x).labels| == |x|)
    && (forall x, k :: 0 < k <= |x| ==> |lib.kMeans(x, k).labels| == |x|)
    && (forall x, k, i :: 0 < k <= |x| && 0 <= i < |lib.kMeans(x, k).labels| ==> 0 <= lib.kMeans(x, k).labels[i] < k)
  }

  /** A library that keeps its contract; one exists: the witness puts every
      row in cluster 0. */
  type ValidLibrary = lib: Library | LibraryContract(lib)
    ghost witness Library(x => Clustering(seq(|x|, _ => 0), []),
                          (x, k) => Clustering(seq(|x|, _ => 0), []),
                          (c1, c2) => 0.0,
                          (e1, e2) => 0.0)

  /** Why a word stops the run. */
  datatype WordError =
      /** A sentence list shorter than its embedding list: IndexError at line 153. */
    | MissingSentence(word: string, slice: nat)
      /** A slice left with no occurrence after filtering: the averaged
          embedding distance of line 180 fails. */
    | EmptySlice(word: string, slice: nat)
      /** Fewer pooled rows than k-means clusters: sklearn's `KMeans.fit`
          (line 48, called at lines 190 and 195) raises ValueError. */
    | TooFewRows(word: string, clusters: nat)

  /** The surviving embeddings and sentences of one slice. */
  function Survivors(embs: seq<Embedding>, texts: seq<string>, word: string, dedupe: bool): (seq<Embedding>, seq<string>)
    requires |embs| <= |texts|
  {
    var ks := Kept(texts, Target(word), dedupe, |embs|);
    (SelectAt(embs, ks), SelectAt(texts, ks))
  }

  /** The number of rows pooled for clustering (line 182). */
  function PooledCount(word: string, rec: WordRecord, dedupe: bool): nat
    requires WellFormed(rec)
  {
    |Survivors(rec.t1, rec.t1Text, word, dedupe).0| + |Survivors(rec.t2, rec.t2Text, word, dedupe).0|
  }

  /** Everything one word contributes: its filtered sentences, the two
      label halves and centers of each strategy, and its result row. */
  datatype Analysis = Analysis(
    sentences: (seq<string>, seq<string>),
    affLabels: (seq<int>, seq<int>),
    affCenters: seq<Embedding>,
    km5Labels: (seq<int>, seq<int>),
    km5Centers: seq<Embedding>,
    km7Labels: (seq<int>, seq<int>),
    km7Centers: seq<Embedding>,
    row: Row)

  /** The divergence of one strategy's labelling of the pooled rows, split at n1. */
  function StrategyDivergence(labels: seq<int>, n1: nat, n2: nat, lib: ValidLibrary): real
    requires |labels| == n1 + n2 && n1 > 0 && n2 > 0
  {
    var (l1, l2) := SplitLabels(labels, n1);
    ClusterDivergence(l1, l2, lib.jsd).value
  }

  /** Lines 136-215 for one word, as a function of its record. */
  function Analyze(word: string, rec: WordRecord, lib: ValidLibrary, dedupe: bool): Result<Analysis, WordError>
  {
    if |rec.t1| > |rec.t1Text| then Failure(MissingSentence(word, 1))
    else if |rec.t2| > |rec.t2Text| then Failure(MissingSentence(word, 2))
    else
      var (e1, s1) := Survivors(rec.t1, rec.t1Text, word, dedupe);
      var (e2, s2) := Survivors(rec.t2, rec.t2Text, word, dedupe);
      if e1 == [] then Failure(EmptySlice(word, 1))
      else if e2 == [] then Failure(EmptySlice(word, 2))
      else if |e1| + |e2| < 5 then Failure(TooFewRows(word, 5))
      else if |e1| + |e2| < 7 then Failure(TooFewRows(word, 7))
      else
        var pooled := e1 + e2;
        var aff := lib.affProp(pooled);
        var km5 := lib.kMeans(pooled, 5);
        var km7 := lib.kMeans(pooled, 7);
        var row := Row(word,
                       StrategyDivergence(aff.labels, |e1|, |e2|, lib),
                       StrategyDivergence(km5.labels, |e1|, |e2|, lib),
                       StrategyDivergence(km7.labels, |e1|, |e2|, lib),
                       lib.averagedDistance(e1, e2),
                       NumSenses(aff.labels));
        Success(Analysis((s1, s2),
                         SplitLabels(aff.labels, |e1|), aff.centers,
                         SplitLabels(km5.labels, |e1|), km5.centers,
                         SplitLabels(km7.labels, |e1|), km7.centers,
                         row))
  }

  /** The outcome of a word names that word, in its row or in its error. */
  lemma AnalyzeNamesWord(word: string, rec: WordRecord, lib: ValidLibrary, dedupe: bool)
    ensures Analyze(word, rec, lib, dedupe).Success? ==> Analyze(word, rec, lib, dedupe).value.row.word == word
    ensures Analyze(word, rec, lib, dedupe).Failure? ==> Analyze(word, rec, lib, dedupe).error.word == word
  {
  }

  /** A word is analysed exactly when its record is well formed, each slice
      has a sentence holding the word's target as a whole word, and at least
      seven occurrences survive in all; otherwise the error names the first
      of these that fails. */
  lemma AnalyzeSucceedsIff(word: string, rec: WordRecord, lib: ValidLibrary, dedupe: bool)
    ensures Analyze(word, rec, lib, dedupe).Success? <==>
              && WellFormed(rec)
              && (exists i :: 0 <= i < |rec.t1| && Search(rec.t1Text[i], Target(word)))
              && (exists i :: 0 <= i < |rec.t2| && Search(rec.t2Text[i], Target(word)))
              && PooledCount(word, rec, dedupe) >= 7
    ensures Analyze(word, rec, lib, dedupe).Failure? ==>
              Analyze(word, rec, lib, dedupe).error ==
                if !WellFormed(rec) then MissingSentence(word, if |rec.t1| > |rec.t1Text| then 1 else 2)
                else if !(exists i :: 0 <= i < |rec.t1| && Search(rec.t1Text[i], Target(word))) then EmptySlice(word, 1)
                else if !(exists i :: 0 <= i < |rec.t2| && Search(rec.t2Text[i], Target(word))) then EmptySlice(word, 2)
                else TooFewRows(word, if PooledCount(word, rec, dedupe) < 5 then 5 else 7)
  {
    if WellFormed(rec) {
      KeptEmptyIff(rec.t1Text, Target(word), dedupe, |rec.t1|);
      KeptEmptyIff(rec.t2Text, Target(word), dedupe, |rec.t2|);
    }
  }

  /** A pooled labelling of n1 + n2 rows, split at n1, gives halves of n1 and
      n2 labels whose shared count vectors have one entry per distinct label. */
  lemma StrategySplit(labels: seq<int>, n1: nat, n2: nat)
    requires |labels| == n1 + n2 && n1 > 0
    ensures var (l1, l2) := SplitLabels(labels, n1);
      && |l1| == n1 && |l2| == n2 && l1 + l2 == labels
      && 1 <= |CountVectors(l1, l2).0| == NumSenses(labels) <= n1 + n2
  {
    SplitPooled(labels, n1, n2);
    NumSensesOfSplit(labels, n1);
    LabelSetSize(labels);
    assert labels[0] in LabelSet(labels);
  }

  /** The sentences a successful word records: the survivors of each slice,
      one per surviving embedding, pairwise distinct in
      one-embedding-per-sentence mode. */
  lemma AnalyzeSentences(word: string, rec: WordRecord, lib: ValidLibrary, dedupe: bool)
    requires Analyze(word, rec, lib, dedupe).Success?
    ensures WellFormed(rec)
    ensures var a := Analyze(word, rec, lib, dedupe).value;
      var (e1, s1) := Survivors(rec.t1, rec.t1Text, word, dedupe);
      var (e2, s2) := Survivors(rec.t2, rec.t2Text, word, dedupe);
      && a.sentences == (s1, s2) && |s1| == |e1| > 0 && |s2| == |e2| > 0
      && (dedupe ==> forall i, j :: 0 <= i < j < |s1| ==> s1[i] != s1[j])
      && (dedupe ==> forall i, j :: 0 <= i < j < |s2| ==> s2[i] != s2[j])
  {
    if dedupe {
      SurvivingTextsDistinct(rec.t1, rec.t1Text, word);
      SurvivingTextsDistinct(rec.t2, rec.t2Text, word);
    }
  }

  lemma SurvivingTextsDistinct(embs: seq<Embedding>, texts: seq<string>, word: string)
    requires |embs| <= |texts|
    ensures var s := Survivors(embs, texts, word, true).1;
      forall i, j :: 0 <= i < j < |s| ==> s[i] != s[j]
  {
    var ks := Kept(texts, Target(word), true, |embs|);
    var s := Survivors(embs, texts, word, true).1;
    assert s == SelectAt(texts, ks);
    DedupedTextsDistinct(texts, Target(word), |embs|);
    forall i, j | 0 <= i < j < |s| ensures s[i] != s[j] {
      assert s[i] == texts[ks[i]] && s[j] == texts[ks[j]];
      assert texts[ks[i]] != texts[ks[j]];
    }
  }

  /** The row of a successful word: each strategy's pooled labels split at
      the slice boundary, each score the divergence of that split, and an
      exemplar count between 1 and the number of pooled occurrences; the
      k-means splits hold at most k senses. */
  lemma AnalyzeRow(word: string, rec: WordRecord, lib: ValidLibrary, dedupe: bool)
    requires Analyze(word, rec, lib, dedupe).Success?
    ensures WellFormed(rec)
    ensures var a := Analyze(word, rec, lib, dedupe).value;
      var e1 := Survivors(rec.t1, rec.t1Text, word, dedupe).0;
      var e2 := Survivors(rec.t2, rec.t2Text, word, dedupe).0;
      && |a.affLabels.0| == |a.km5Labels.0| == |a.km7Labels.0| == |e1|
      && |a.affLabels.1| == |a.km5Labels.1| == |a.km7Labels.1| == |e2|
      && a.affLabels.0 + a.affLabels.1 == lib.affProp(e1 + e2).labels
      && a.km5Labels.0 + a.km5Labels.1 == lib.kMeans(e1 + e2, 5).labels
      && a.km7Labels.0 + a.km7Labels.1 == lib.kMeans(e1 + e2, 7).labels
      && |e1| + |e2| >= 7
      && a.row.word == word
      && a.row.affProp == lib.jsd(CountVectors(a.affLabels.0, a.affLabels.1).0, CountVectors(a.affLabels.0, a.affLabels.1).1)
      && a.row.kmeans5 == lib.jsd(CountVectors(a.km5Labels.0, a.km5Labels.1).0, CountVectors(a.km5Labels.0, a.km5Labels.1).1)
      && a.row.kmeans7 == lib.jsd(CountVectors(a.km7Labels.0, a.km7Labels.1).0, CountVectors(a.km7Labels.0, a.km7Labels.1).1)
      && a.row.averaging == lib.averagedDistance(e1, e2)
      && a.row.affPropClusters == |CountVectors(a.affLabels.0, a.affLabels.1).0|
      && 1 <= a.row.affPropClusters <= |e1| + |e2|
      && |CountVectors(a.km5Labels.0, a.km5Labels.1).0| <= 5
      && |CountVectors(a.km7Labels.0, a.km7Labels.1).0| <= 7
  {
    var e1 := Survivors(rec.t1, rec.t1Text, word, dedupe).0;
    var e2 := Survivors(rec.t2, rec.t2Text, word, dedupe).0;
    var pooled := e1 + e2;
    var aff, km5, km7 := lib.affProp(pooled), lib.kMeans(pooled, 5), lib.kMeans(pooled, 7);
    assert Analyze(word, rec, lib, dedupe).value.row.affPropClusters == NumSenses(aff.labels);
    StrategySplit(aff.labels, |e1|, |e2|);
    StrategySplit(km5.labels, |e1|, |e2|);
    StrategySplit(km7.labels, |e1|, |e2|);
    FixedKSenses(km5.labels, 5);
    FixedKSenses(km7.labels, 7);
  }

  /** The six result columns read as rows. */
  function Zip(words: seq<string>, affProp: seq<real>, kmeans5: seq<real>, kmeans7: seq<real>,
               averaging: seq<real>, clusters: seq<nat>): (rows: seq<Row>)
    requires |affProp| == |kmeans5| == |kmeans7| == |averaging| == |clusters| == |words|
    ensures |rows| == |words|
    ensures forall i :: 0 <= i < |words| ==>
              rows[i] == Row(words[i], affProp[i], kmeans5[i], kmeans7[i], averaging[i], clusters[i])
  {
    if words == [] then []
    else [Row(words[0], affProp[0], kmeans5[0], kmeans7[0], averaging[0], clusters[0])]
         + Zip(words[1..], affProp[1..], kmeans5[1..], kmeans7[1..], averaging[1..], clusters[1..])
  }

  /** The words of the first n input entries, in input order. */
  function WordsOf(input: seq<(string, WordRecord)>, n: nat): (ws: seq<string>)
    requires n <= |input|
    ensures |ws| == n
  {
    if n == 0 then [] else WordsOf(input, n - 1) + [input[n - 1].0]
  }

  /** Entry j of the words is the word of input entry j. */
  lemma {:induction false} WordsOfAt(input: seq<(string, WordRecord)>, n: nat, j: nat)
    requires n <= |input| && j < n
    ensures WordsOf(input, n)[j] == input[j].0
  {
    if j < n - 1 {
      WordsOfAt(input, n - 1, j);
    }
  }

  /** A per-word analysis as the run sees it: `Analyze` with the library and
      the mode fixed, or any other function of a word and its record. */
  type Analyzing = (string, WordRecord) -> Result<Analysis, WordError>

  function AnalyzeWith(lib: ValidLibrary, dedupe: bool): Analyzing {
    (word, rec) => Analyze(word, rec, lib, dedupe)
  }

  /** Every successful analysis carries its own word in its row. */
  ghost predicate NamesWord(f: Analyzing) {
    forall word, rec :: f(word, rec).Success? ==> f(word, rec).value.row.word == word
  }

  lemma AnalyzeWithNamesWord(lib: ValidLibrary, dedupe: bool)
    ensures NamesWord(AnalyzeWith(lib, dedupe))
  {
    forall word, rec
      ensures AnalyzeWith(lib, dedupe)(word, rec).Success? ==> AnalyzeWith(lib, dedupe)(word, rec).value.row.word == word
    {
      AnalyzeNamesWord(word, rec, lib, dedupe);
    }
  }

  /** Each of the first n input words is analysed successfully. */
  predicate AllAnalysed(input: seq<(string, WordRecord)>, n: nat, f: Analyzing)
    requires n <= |input|
  {
    n == 0 || (AllAnalysed(input, n - 1, f) && f(input[n - 1].0, input[n - 1].1).Success?)
  }

  /** The prefix is analysed exactly when each of its words is. */
  lemma {:induction false} AllAnalysedIff(input: seq<(string, WordRecord)>, n: nat, f: Analyzing)
    requires n <= |input|
    ensures AllAnalysed(input, n, f) <==> forall j :: 0 <= j < n ==> f(input[j].0, input[j].1).Success?
  {
    if n > 0 {
      AllAnalysedIff(input, n - 1, f);
    }
  }

  /** The analyses of the first n input words, in input order. */
  function AnalysesOf(input: seq<(string, WordRecord)>, n: nat, f: Analyzing): (analyses: seq<Analysis>)
    requires n <= |input| && AllAnalysed(input, n, f)
    ensures |analyses| == n
  {
    if n == 0 then [] else AnalysesOf(input, n - 1, f) + [f(input[n - 1].0, input[n - 1].1).value]
  }

  /** Entry j of the analyses is the analysis of input word j. */
  lemma {:induction false} AnalysesOfAt(input: seq<(string, WordRecord)>, n: nat, f: Analyzing, j: nat)
    requires n <= |input| && AllAnalysed(input, n, f) && j < n
    ensures Success(AnalysesOf(input, n, f)[j]) == f(input[j].0, input[j].1)
  {
    if j < n - 1 {
      AnalysesOfAt(input, n - 1, f, j);
    }
  }

  /** The result rows of some analyses, in order. */
  function RowsOf(analyses: seq<Analysis>): (rows: seq<Row>)
    ensures |rows| == |analyses|
  {
    if analyses == [] then [] else RowsOf(analyses[..|analyses| - 1]) + [analyses[|analyses| - 1].row]
  }

  /** The sentence dictionary after some analyses stored their sentences, in
      order: a repeated word keeps its last entry. */
  function StoredSentences(m: map<string, (seq<string>, seq<string>)>, analyses: seq<Analysis>)
    : map<string, (seq<string>, seq<string>)>
  {
    if analyses == [] then m
    else
      var a := analyses[|analyses| - 1];
      StoredSentences(m, analyses[..|analyses| - 1])[a.row.word := a.sentences]
  }

  /** The entry of a stored word is the one of its last analysis. */
  lemma {:induction false} StoredSentencesLast(m: map<string, (seq<string>, seq<string>)>, analyses: seq<Analysis>, j: nat)
    requires j < |analyses|
    requires forall j' :: j < j' < |analyses| ==> analyses[j'].row.word != analyses[j].row.word
    ensures analyses[j].row.word in StoredSentences(m, analyses)
    ensures StoredSentences(m, analyses)[analyses[j].row.word] == analyses[j].sentences
  {
    var n := |analyses|;
    if j < n - 1 {
      var init := analyses[..n - 1];
      assert forall j' :: j < j' < |init| ==> init[j'].row.word != init[j].row.word;
      StoredSentencesLast(m, init, j);
    }
  }

  /** A word no analysis carries keeps its old entry, or stays absent. */
  lemma {:induction false} StoredSentencesUntouched(m: map<string, (seq<string>, seq<string>)>, analyses: seq<Analysis>, w: string)
    requires forall j :: 0 <= j < |analyses| ==> analyses[j].row.word != w
    ensures w in StoredSentences(m, analyses) <==> w in m
    ensures w in m ==> StoredSentences(m, analyses)[w] == m[w]
  {
    if analyses != [] {
      StoredSentencesUntouched(m, analyses[..|analyses| - 1], w);
    }
  }

  /** One more analysis extends the rows and the stored sentences by its own. */
  lemma StoredAppend(m: map<string, (seq<string>, seq<string>)>, analyses: seq<Analysis>, a: Analysis)
    ensures RowsOf(analyses + [a]) == RowsOf(analyses) + [a.row]
    ensures StoredSentences(m, analyses + [a]) == StoredSentences(m, analyses)[a.row.word := a.sentences]
  {
    assert (analyses + [a])[..|analyses|] == analyses;
  }

  /** The six label and centroid dictionaries pickled after every word. */
  datatype Dicts = Dicts(
    affPropLabels: map<string, (seq<int>, seq<int>)>,
    affPropCentroids: map<string, seq<Embedding>>,
    kmeans5Labels: map<string, (seq<int>, seq<int>)>,
    kmeans5Centroids: map<string, seq<Embedding>>,
    kmeans7Labels: map<string, (seq<int>, seq<int>)>,
    kmeans7Centroids: map<string, seq<Embedding>>)

  /** Lines 200-208: each dictionary stores the word's entry. */
  function StoreAnalysis(d: Dicts, word: string, a: Analysis): Dicts {
    Dicts(d.affPropLabels[word := a.affLabels], d.affPropCentroids[word := a.affCenters],
          d.kmeans5Labels[word := a.km5Labels], d.kmeans5Centroids[word := a.km5Centers],
          d.kmeans7Labels[word := a.km7Labels], d.kmeans7Centroids[word := a.km7Centers])
  }

  /** The dictionaries after some analyses stored their entries, in order. */
  function StoredAll(d: Dicts, analyses: seq<Analysis>): Dicts {
    if analyses == [] then d
    else
      var a := analyses[|analyses| - 1];
      StoreAnalysis(StoredAll(d, analyses[..|analyses| - 1]), a.row.word, a)
  }

  /** The label entries of a stored word are those of its last analysis. */
  lemma {:induction false} StoredLabelsLast(d: Dicts, analyses: seq<Analysis>, j: nat)
    requires j < |analyses|
    requires forall j' :: j < j' < |analyses| ==> analyses[j'].row.word != analyses[j].row.word
    ensures var r := StoredAll(d, analyses); var w := analyses[j].row.word; var a := analyses[j];
      && w in r.affPropLabels && r.affPropLabels[w] == a.affLabels
      && w in r.kmeans5Labels && r.kmeans5Labels[w] == a.km5Labels
      && w in r.kmeans7Labels && r.kmeans7Labels[w] == a.km7Labels
  {
    var n := |analyses|;
    if j < n - 1 {
      var init := analyses[..n - 1];
      assert forall j' :: j < j' < |init| ==> init[j'].row.word != init[j].row.word;
      StoredLabelsLast(d, init, j);
      var last := analyses[n - 1];
      assert analyses == init + [last];
      StoredAllStep(d, init, last);
      assert last.row.word != analyses[j].row.word;
    }
  }

  /** The centroid entries of a stored word are those of its last analysis. */
  lemma {:induction false} StoredCentroidsLast(d: Dicts, analyses: seq<Analysis>, j: nat)
    requires j < |analyses|
    requires forall j' :: j < j' < |analyses| ==> analyses[j'].row.word != analyses[j].row.word
    ensures var r := StoredAll(d, analyses); var w := analyses[j].row.word; var a := analyses[j];
      && w in r.affPropCentroids && r.affPropCentroids[w] == a.affCenters
      && w in r.kmeans5Centroids && r.kmeans5Centroids[w] == a.km5Centers
      && w in r.kmeans7Centroids && r.kmeans7Centroids[w] == a.km7Centers
  {
    var n := |analyses|;
    if j < n - 1 {
      var init := analyses[..n - 1];
      assert forall j' :: j < j' < |init| ==> init[j'].row.word != init[j].row.word;
      StoredCentroidsLast(d, init, j);
      var last := analyses[n - 1];
      assert analyses == init + [last];
      StoredAllStep(d, init, last);
      assert last.row.word != analyses[j].row.word;
    }
  }

  lemma StoredAllStep(d: Dicts, analyses: seq<Analysis>, a: Analysis)
    ensures StoredAll(d, analyses + [a]) == StoreAnalysis(StoredAll(d, analyses), a.row.word, a)
  {
    assert (analyses + [a])[..|analyses|] == analyses;
  }

  /** The sentence dictionary after a word, whatever its outcome: line 178
      stores the survivors once both slices are read, before any step that
      can fail. */
  function SentencesAfter(m: map<string, (seq<string>, seq<string>)>, word: string, rec: WordRecord, dedupe: bool)
    : map<string, (seq<string>, seq<string>)>
  {
    if WellFormed(rec) then
      m[word := (Survivors(rec.t1, rec.t1Text, word, dedupe).1, Survivors(rec.t2, rec.t2Text, word, dedupe).1)]
    else m
  }

  /** One more analysed word extends the analysed prefix, its words and its
      analyses by that word. */
  lemma AnalysedAdvances(input: seq<(string, WordRecord)>, i: nat, f: Analyzing, a: Analysis)
    requires i < |input| && AllAnalysed(input, i, f)
    requires f(input[i].0, input[i].1) == Success(a)
    ensures AllAnalysed(input, i + 1, f)
    ensures AnalysesOf(input, i + 1, f) == AnalysesOf(input, i, f) + [a]
    ensures WordsOf(input, i + 1) == WordsOf(input, i) + [input[i].0]
  {
  }

  /** The state the word loop carries from word to word: the words and rows
      of the results table, the sentence dictionary and the six label and
      centroid dictionaries. */
  datatype RunState = RunState(words: seq<string>, rows: seq<Row>,
                               sentences: map<string, (seq<string>, seq<string>)>, dicts: Dicts)

  /** The state after one word with the given outcome: the sentences are
      stored once both slices are read, and only a successful word adds its
      row and its dictionary entries. */
  function AfterWord(s: RunState, word: string, rec: WordRecord, outcome: Result<Analysis, WordError>, dedupe: bool): RunState {
    match outcome
    case Failure(_) => s.(sentences := SentencesAfter(s.sentences, word, rec, dedupe))
    case Success(a) => RunState(s.words + [word], s.rows + [a.row], s.sentences[word := a.sentences], StoreAnalysis(s.dicts, word, a))
  }

  /** The state after the first n input words, in input order. */
  function AfterWords(s: RunState, input: seq<(string, WordRecord)>, n: nat, f: Analyzing, dedupe: bool): RunState
    requires n <= |input|
  {
    if n == 0 then s
    else
      var (word, rec) := input[n - 1];
      AfterWord(AfterWords(s, input, n - 1, f, dedupe), word, rec, f(word, rec), dedupe)
  }

  /** After n words that all succeed, the table gained their words in input
      order. */
  lemma {:induction false} AfterWordsWords(s: RunState, input: seq<(string, WordRecord)>, n: nat, f: Analyzing, dedupe: bool)
    requires n <= |input| && AllAnalysed(input, n, f)
    ensures AfterWords(s, input, n, f, dedupe).words == s.words + WordsOf(input, n)
  {
    if n == 0 {
      assert s.words + [] == s.words;
    } else {
      var i := n - 1;
      var prev := AfterWords(s, input, i, f, dedupe);
      assert AfterWords(s, input, n, f, dedupe).words == prev.words + [input[i].0];
      AfterWordsWords(s, input, i, f, dedupe);
      assert s.words + WordsOf(input, i) + [input[i].0] == s.words + (WordsOf(input, i) + [input[i].0]);
    }
  }

  /** After n words that all succeed, the table gained the rows of their
      analyses in input order. */
  lemma {:induction false} AfterWordsRows(s: RunState, input: seq<(string, WordRecord)>, n: nat, f: Analyzing, dedupe: bool)
    requires n <= |input| && AllAnalysed(input, n, f)
    ensures AfterWords(s, input, n, f, dedupe).rows == s.rows + RowsOf(AnalysesOf(input, n, f))
  {
    if n == 0 {
      assert s.rows + [] == s.rows;
    } else {
      var i := n - 1;
      var a := f(input[i].0, input[i].1).value;
      var prev := AfterWords(s, input, i, f, dedupe);
      var done := AnalysesOf(input, i, f);
      assert AfterWords(s, input, n, f, dedupe).rows == prev.rows + [a.row];
      AfterWordsRows(s, input, i, f, dedupe);
      assert AnalysesOf(input, n, f) == done + [a];
      assert (done + [a])[..|done|] == done;
      assert RowsOf(done + [a]) == RowsOf(done) + [a.row];
      assert s.rows + RowsOf(done) + [a.row] == s.rows + (RowsOf(done) + [a.row]);
    }
  }

  /** After n words that all succeed, each dictionary holds the entries of
      their analyses, the last one winning for a repeated word. */
  lemma {:induction false} AfterWordsDicts(s: RunState, input: seq<(string, WordRecord)>, n: nat, f: Analyzing, dedupe: bool)
    requires n <= |input| && AllAnalysed(input, n, f) && NamesWord(f)
    ensures AfterWords(s, input, n, f, dedupe).sentences == StoredSentences(s.sentences, AnalysesOf(input, n, f))
    ensures AfterWords(s, input, n, f, dedupe).dicts == StoredAll(s.dicts, AnalysesOf(input, n, f))
  {
    if n > 0 {
      var i := n - 1;
      var a := f(input[i].0, input[i].1).value;
      AfterWordsDicts(s, input, i, f, dedupe);
      AnalysedAdvances(input, i, f, a);
      assert a.row.word == input[i].0;
      StoredAppend(s.sentences, AnalysesOf(input, i, f), a);
      StoredAllStep(s.dicts, AnalysesOf(input, i, f), a);
    }
  }

  /** After n words that all succeed, the state is the table and
      dictionaries of their analyses. */
  lemma AfterWordsAnalysed(s: RunState, input: seq<(string, WordRecord)>, n: nat, f: Analyzing, dedupe: bool)
    requires n <= |input| && AllAnalysed(input, n, f) && NamesWord(f)
    ensures AfterWords(s, input, n, f, dedupe)
         == RunState(s.words + WordsOf(input, n),
                     s.rows + RowsOf(AnalysesOf(input, n, f)),
                     StoredSentences(s.sentences, AnalysesOf(input, n, f)),
                     StoredAll(s.dicts, AnalysesOf(input, n, f)))
  {
    AfterWordsWords(s, input, n, f, dedupe);
    AfterWordsRows(s, input, n, f, dedupe);
    AfterWordsDicts(s, input, n, f, dedupe);
  }

  /** A run that stops at word k leaves the state of the k words before it,
      except that the failing word's surviving sentences are stored when it
      got past reading both slices. */
  lemma AfterWordsStopped(s: RunState, input: seq<(string, WordRecord)>, k: nat, f: Analyzing, dedupe: bool)
    requires k < |input| && AllAnalysed(input, k, f) && NamesWord(f)
    requires f(input[k].0, input[k].1).Failure?
    ensures AfterWords(s, input, k + 1, f, dedupe)
         == RunState(s.words + WordsOf(input, k),
                     s.rows + RowsOf(AnalysesOf(input, k, f)),
                     SentencesAfter(StoredSentences(s.sentences, AnalysesOf(input, k, f)),
                                    input[k].0, input[k].1, dedupe),
                     StoredAll(s.dicts, AnalysesOf(input, k, f)))
  {
    AfterWordsAnalysed(s, input, k, f, dedupe);
  }

  class Analyzer {
    const dedupe: bool

    // `results_dict`: six parallel columns
    var words: seq<string>
    var affProp: seq<real>
    var kmeans5: seq<real>
    var kmeans7: seq<real>
    var averaging: seq<real>
    var affPropClusters: seq<nat>

    // the dictionaries pickled after every word
    var sentences: map<string, (seq<string>, seq<string>)>
    var affPropLabels: map<string, (seq<int>, seq<int>)>
    var affPropCentroids: map<string, seq<Embedding>>
    var kmeans5Labels: map<string, (seq<int>, seq<int>)>
    var kmeans5Centroids: map<string, seq<Embedding>>
    var kmeans7Labels: map<string, (seq<int>, seq<int>)>
    var kmeans7Centroids: map<string, seq<Embedding>>

    /** The table as last written to the CSV file. */
    var written: seq<Row>

    ghost predicate Valid()
      reads this
    {
      |affProp| == |kmeans5| == |kmeans7| == |averaging| == |affPropClusters| == |words|
    }

    function Rows(): seq<Row>
      reads this
      requires Valid()
    {
      Zip(words, affProp, kmeans5, kmeans7, averaging, affPropClusters)
    }

    function AllDicts(): Dicts
      reads this
    {
      Dicts(affPropLabels, affPropCentroids, kmeans5Labels, kmeans5Centroids, kmeans7Labels, kmeans7Centroids)
    }

    /** The state the word loop carries, read from the fields. */
    function Snapshot(): RunState
      reads this
      requires Valid()
    {
      RunState(words, Rows(), sentences, AllDicts())
    }

    constructor (oneEmbeddingPerSentence: bool)
      ensures Valid() && dedupe == oneEmbeddingPerSentence
      ensures Rows() == [] && written == []
      ensures sentences == map[] && affPropLabels == map[] && affPropCentroids == map[]
      ensures kmeans5Labels == map[] && kmeans5Centroids == map[]
      ensures kmeans7Labels == map[] && kmeans7Centroids == map[]
    {
      dedupe := oneEmbeddingPerSentence;
      words, affProp, kmeans5, kmeans7, averaging, affPropClusters := [], [], [], [], [], [];
      sentences, affPropLabels, affPropCentroids := map[], map[], map[];
      kmeans5Labels, kmeans5Centroids, kmeans7Labels, kmeans7Centroids := map[], map[], map[], map[];
      written := [];
    }

    /** Lines 210-215: each column grows by one entry. */
    method AppendRow(row: Row)
      requires Valid()
      modifies this`words, this`affProp, this`kmeans5, this`kmeans7, this`averaging, this`affPropClusters
      ensures Valid()
      ensures Rows() == old(Rows()) + [row]
      ensures words == old(words) + [row.word]
    {
      words := words + [row.word];
      affProp := affProp + [row.affProp];
      kmeans5 := kmeans5 + [row.kmeans5];
      kmeans7 := kmeans7 + [row.kmeans7];
      averaging := averaging + [row.averaging];
      affPropClusters := affPropClusters + [row.affPropClusters];
      assert Rows() == old(Rows()) + [row];
    }

    /** Lines 200-227 once a word's analysis is done: the six dictionaries
        get the word's entries, its row is appended and the table rewritten
        in order. */
    method Record(word: string, a: Analysis)
      requires Valid()
      modifies this
      ensures Valid()
      ensures sentences == old(sentences)
      ensures words == old(words) + [a.row.word]
      ensures Rows() == old(Rows()) + [a.row]
      ensures multiset(written) == multiset(Rows()) && DescendingByAffProp(written)
      ensures AllDicts() == StoreAnalysis(old(AllDicts()), word, a)
    {
      AppendRow(a.row);
      var rows := Rows();
      written := SortByAffProp(rows);
      affPropLabels := affPropLabels[word := a.affLabels];
      affPropCentroids := affPropCentroids[word := a.affCenters];
      kmeans5Labels := kmeans5Labels[word := a.km5Labels];
      kmeans5Centroids := kmeans5Centroids[word := a.km5Centers];
      kmeans7Labels := kmeans7Labels[word := a.km7Labels];
      kmeans7Centroids := kmeans7Centroids[word := a.km7Centers];
      assert Rows() == rows;
    }

    /** One iteration of the word loop (lines 136-227). The outcome is the
        word's `Analyze`; the state changes as `Record` says on success, and
        only the sentence dictionary changes on failure. */
    method ProcessWord(word: string, rec: WordRecord, lib: ValidLibrary) returns (result: Result<Analysis, WordError>)
      requires Valid()
      modifies this
      ensures Valid()
      ensures result == Analyze(word, rec, lib, dedupe)
      ensures Snapshot() == AfterWord(old(Snapshot()), word, rec, result, dedupe)
      ensures result.Failure? ==> words == old(words) && written == old(written)
      ensures result.Success? ==>
                && words == old(words) + [word]
                && multiset(written) == multiset(Rows()) && DescendingByAffProp(written)
    {
      var target := Target(word);
      var slice1 := FilterSlice(rec.t1, rec.t1Text, target, dedupe);
      if slice1.None? {
        return Failure(MissingSentence(word, 1));
      }
      var slice2 := FilterSlice(rec.t2, rec.t2Text, target, dedupe);
      if slice2.None? {
        return Failure(MissingSentence(word, 2));
      }
      var (embeddings1, texts1) := slice1.value;
      var (embeddings2, texts2) := slice2.value;
      assert (embeddings1, texts1) == Survivors(rec.t1, rec.t1Text, word, dedupe);
      assert (embeddings2, texts2) == Survivors(rec.t2, rec.t2Text, word, dedupe);
      sentences := sentences[word := (texts1, texts2)];
      if embeddings1 == [] {
        return Failure(EmptySlice(word, 1));
      }
      if embeddings2 == [] {
        return Failure(EmptySlice(word, 2));
      }
      var averageDist := lib.averagedDistance(embeddings1, embeddings2);
      var pooled := embeddings1 + embeddings2;
      var n1, n2 := |embeddings1|, |embeddings2|;

      var aff := lib.affProp(pooled);
      var nSenses := NumSenses(aff.labels);
      var affJsd := StrategyDivergence(aff.labels, n1, n2, lib);

      if |pooled| < 5 {
        return Failure(TooFewRows(word, 5));
      }
      var km5 := lib.kMeans(pooled, 5);
      var km5Jsd := StrategyDivergence(km5.labels, n1, n2, lib);

      if |pooled| < 7 {
        return Failure(TooFewRows(word, 7));
      }
      var km7 := lib.kMeans(pooled, 7);
      var km7Jsd := StrategyDivergence(km7.labels, n1, n2, lib);

      var row := Row(word, affJsd, km5Jsd, km7Jsd, averageDist, nSenses);
      var analysis := Analysis((texts1, texts2),
                               SplitLabels(aff.labels, n1), aff.centers,
                               SplitLabels(km5.labels, n1), km5.centers,
                               SplitLabels(km7.labels, n1), km7.centers,
                               row);
      Record(word, analysis);
      result := Success(analysis);
    }

    /** The loop over all words of the input, in input order. The first word
        whose analysis fails stops the run; every word before it was
        analysed, the state is the one the words up to and including the
        failing one leave, and the table written is the one after the last
        successful word. */
    method Run(input: seq<(string, WordRecord)>, lib: ValidLibrary) returns (result: Result<nat, WordError>)
      requires Valid()
      modifies this
      ensures Valid() && old(|words|) <= |words|
      ensures var k := |words| - old(|words|);
        && k <= |input|
        && AllAnalysed(input, k, AnalyzeWith(lib, dedupe))
        && (k > 0 ==> multiset(written) == multiset(Rows()) && DescendingByAffProp(written))
        && (k == 0 ==> written == old(written))
      ensures result.Success? ==>
                && result.value == |input| == |words| - old(|words|)
                && Snapshot() == AfterWords(old(Snapshot()), input, |input|, AnalyzeWith(lib, dedupe), dedupe)
      ensures result.Failure? ==>
                var k := |words| - old(|words|);
                && k < |input|
                && Analyze(input[k].0, input[k].1, lib, dedupe) == Failure(result.error)
                && Snapshot() == AfterWords(old(Snapshot()), input, k + 1, AnalyzeWith(lib, dedupe), dedupe)
    {
      ghost var start, words0, written0 := Snapshot(), words, written;
      var i := 0;
      while i < |input|
        invariant Valid() && i <= |input| && |words| == |words0| + i
        invariant AllAnalysed(input, i, AnalyzeWith(lib, dedupe))
        invariant Snapshot() == AfterWords(start, input, i, AnalyzeWith(lib, dedupe), dedupe)
        invariant i > 0 ==> multiset(written) == multiset(Rows()) && DescendingByAffProp(written)
        invariant i == 0 ==> written == written0
      {
        var word, rec := input[i].0, input[i].1;
        ghost var before := Snapshot();
        var r := ProcessWord(word, rec, lib);
        assert AnalyzeWith(lib, dedupe)(word, rec) == r;
        assert AfterWords(start, input, i + 1, AnalyzeWith(lib, dedupe), dedupe) == AfterWord(before, word, rec, r, dedupe);
        if r.Failure? {
          assert |words| - old(|words|) == i;
          assert AllAnalysed(input, |words| - old(|words|), AnalyzeWith(lib, dedupe));
          return Failure(r.error);
        }
        assert Snapshot() == AfterWord(before, word, rec, r, dedupe);
        assert Snapshot() == AfterWords(start, input, i + 1, AnalyzeWith(lib, dedupe), dedupe);
        i := i + 1;
      }
      assert |words| - old(|words|) == i;
      assert AllAnalysed(input, |words| - old(|words|), AnalyzeWith(lib, dedupe));
      result := Success(i);
    }
  }
}
