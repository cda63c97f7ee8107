/** Cluster labels of the pooled occurrences, split back into the two time
    slices, and the count vectors `compute_divergence_from_cluster_labels`
    builds from them (calculate_semantic_change.py). The divergence itself is
    a floating-point computation and enters only as a parameter. */
module ClusterCounts {
  import opened Wrappers

  /** `labels[:n1]` and `labels[n1:]`; Python slices clamp at the end. */
  function SplitLabels(labels: seq<int>, n1: nat): (r: (seq<int>, seq<int>))
    ensures r.0 + r.1 == labels
    ensures |r.0| == if n1 <= |labels| then n1 else |labels|
  {
    var cut := if n1 <= |labels| then n1 else |labels|;
    (labels[..cut], labels[cut..])
  }

  /** Labels of a pooled set of n1 + n2 rows split into n1 and n2 labels
      that concatenate back to the pooled labels. */
  lemma SplitPooled(labels: seq<int>, n1: nat, n2: nat)
    requires |labels| == n1 + n2
    ensures |SplitLabels(labels, n1).0| == n1 && |SplitLabels(labels, n1).1| == n2
    ensures SplitLabels(labels, n1).0 + SplitLabels(labels, n1).1 == labels
  {
  }

  /** `Counter(labels)[x]` */
  function Count(labels: seq<int>, x: int): nat {
    if labels == [] then 0
    else (if labels[0] == x then 1 else 0) + Count(labels[1..], x)
  }

  lemma {:induction false} CountPositive(labels: seq<int>, x: int)
    ensures Count(labels, x) > 0 <==> x in labels
  {
    if labels != [] {
      CountPositive(labels[1..], x);
      assert labels == [labels[0]] + labels[1..];
    }
  }

  function Sum(s: seq<nat>): nat {
    if s == [] then 0 else s[0] + Sum(s[1..])
  }

  function LabelSet(labels: seq<int>): set<int> {
    set x | x in labels
  }

  /** `len(set(labels))`: the number of distinct labels (`n_senses`, line 187). */
  function NumSenses(labels: seq<int>): nat {
    |LabelSet(labels)|
  }

  ghost predicate StrictlyAscending(s: seq<int>) {
    forall a, b :: 0 <= a < b < |s| ==> s[a] < s[b]
  }

  /** A list is its head followed by its tail. */
  lemma TailMembers(s: seq<int>, y: int)
    requires s != []
    ensures y in s <==> y == s[0] || y in s[1..]
  {
    assert s == [s[0]] + s[1..];
  }

  /** The head of an ascending list is below everything in its tail. */
  lemma AscendingHeadBelow(s: seq<int>)
    requires StrictlyAscending(s) && s != []
    ensures forall y :: y in s[1..] ==> s[0] < y
  {
    forall y | y in s[1..] ensures s[0] < y {
      var j :| 0 <= j < |s[1..]| && s[1..][j] == y;
      assert s[j + 1] == y;
    }
  }

  /** A label below everything in an ascending list can go in front. */
  lemma PrependAscending(x: int, s: seq<int>)
    requires StrictlyAscending(s) && forall y :: y in s ==> x < y
    ensures StrictlyAscending([x] + s)
  {
    var r := [x] + s;
    forall a, b | 0 <= a < b < |r| ensures r[a] < r[b] {
      assert r[b] == s[b - 1] && s[b - 1] in s;
      if a > 0 {
        assert r[a] == s[a - 1];
      }
    }
  }

  /** Insert x into an ascending list of distinct labels, unless present. */
  function InsertAscending(x: int, s: seq<int>): (r: seq<int>)
    requires StrictlyAscending(s)
    ensures StrictlyAscending(r)
    ensures forall y :: y in r <==> y == x || y in s
  {
    if s == [] then [x]
    else if x < s[0] then
      assert forall y :: y in s ==> x < y by {
        AscendingHeadBelow(s);
        forall y | y in s ensures x < y {
          TailMembers(s, y);
        }
      }
      PrependAscending(x, s);
      [x] + s
    else if x == s[0] then
      assert forall y :: y == x || y in s <==> y in s by {
        assert s[0] in s;
      }
      s
    else
      var rest := InsertAscending(x, s[1..]);
      assert forall y :: y in rest ==> s[0] < y by {
        AscendingHeadBelow(s);
      }
      PrependAscending(s[0], rest);
      assert forall y :: y in [s[0]] + rest <==> y == x || y in s by {
        forall y ensures y in [s[0]] + rest <==> y == x || y in s {
          TailMembers(s, y);
        }
      }
      [s[0]] + rest
  }

  /** The distinct labels of a list in ascending order. */
  function AscendingLabels(labels: seq<int>): (r: seq<int>)
    ensures StrictlyAscending(r)
    ensures forall y :: y in r <==> y in labels
  {
    if labels == [] then []
    else
      var rest := AscendingLabels(labels[1..]);
      assert forall y :: y in labels <==> y == labels[0] || y in labels[1..] by {
        forall y {
          TailMembers(labels, y);
        }
      }
      InsertAscending(labels[0], rest)
  }

  /** Two ascending lists with the same elements are equal. */
  lemma {:induction false} AscendingUnique(r: seq<int>, s: seq<int>)
    requires StrictlyAscending(r) && StrictlyAscending(s)
    requires forall y :: y in r <==> y in s
    ensures r == s
    decreases |r|
  {
    if s != [] {
      assert s[0] in s;
    }
    if r != [] {
      assert r[0] in r && r[0] in s && s[0] in r;
      AscendingHeadBelow(r);
      AscendingHeadBelow(s);
      assert r[0] == s[0] by {
        TailMembers(r, s[0]);
        TailMembers(s, r[0]);
      }
      forall y ensures y in r[1..] <==> y in s[1..] {
        TailMembers(r, y);
        TailMembers(s, y);
      }
      AscendingUnique(r[1..], s[1..]);
      assert r == [r[0]] + r[1..] && s == [s[0]] + s[1..];
    }
  }

  /** A list of distinct labels has as many elements as its set. */
  lemma {:induction false} DistinctSize(s: seq<int>)
    requires forall a, b :: 0 <= a < b < |s| ==> s[a] != s[b]
    ensures |LabelSet(s)| == |s|
  {
    if s != [] {
      DistinctSize(s[1..]);
      assert s[0] !in s[1..] by {
        forall k | 0 <= k < |s[1..]| ensures s[1..][k] != s[0] {
          assert s[1..][k] == s[k + 1];
        }
      }
      assert LabelSet(s) == LabelSet(s[1..]) + {s[0]} by {
        assert forall y :: y in s <==> y == s[0] || y in s[1..] by {
          assert s == [s[0]] + s[1..];
        }
      }
    }
  }

  /** A list has at most as many distinct labels as elements. */
  lemma {:induction false} LabelSetSize(s: seq<int>)
    ensures |LabelSet(s)| <= |s|
  {
    if s != [] {
      LabelSetSize(s[1..]);
      assert LabelSet(s) <= LabelSet(s[1..]) + {s[0]} by {
        assert forall y :: y in s ==> y == s[0] || y in s[1..] by {
          assert s == [s[0]] + s[1..];
        }
      }
      SubsetSize(LabelSet(s), LabelSet(s[1..]) + {s[0]});
    }
  }

  /** `list(set(labels1 + labels2))`: every label of either slice, once. The
      iteration order of a Python set is not part of the language; the model
      fixes ascending order. Both count vectors are indexed by the same list,
      so the order only permutes their common index. */
  function Senses(labels1: seq<int>, labels2: seq<int>): (senses: seq<int>)
    ensures StrictlyAscending(senses)
    ensures forall x :: x in senses <==> x in labels1 || x in labels2
  {
    AscendingLabels(labels1 + labels2)
  }

  /** `[counts[i] for i in senses]` */
  function Counts(labels: seq<int>, senses: seq<int>): (t: seq<nat>)
    ensures |t| == |senses|
    ensures forall i :: 0 <= i < |senses| ==> t[i] == Count(labels, senses[i])
  {
    if senses == [] then [] else [Count(labels, senses[0])] + Counts(labels, senses[1..])
  }

  /** The two count vectors `t1`, `t2` of lines 79-86. */
  function CountVectors(labels1: seq<int>, labels2: seq<int>): (seq<nat>, seq<nat>) {
    var senses := Senses(labels1, labels2);
    (Counts(labels1, senses), Counts(labels2, senses))
  }

  /** How many labels of `labels` lie in `senses`. */
  function CountIn(labels: seq<int>, senses: seq<int>): nat {
    if labels == [] then 0
    else (if labels[0] in senses then 1 else 0) + CountIn(labels[1..], senses)
  }

  lemma {:induction false} CountInCons(labels: seq<int>, u: int, rest: seq<int>)
    requires u !in rest
    ensures CountIn(labels, [u] + rest) == Count(labels, u) + CountIn(labels, rest)
  {
    if labels != [] {
      CountInCons(labels[1..], u, rest);
    }
  }

  lemma {:induction false} SumCountsIsCountIn(labels: seq<int>, senses: seq<int>)
    requires forall a, b :: 0 <= a < b < |senses| ==> senses[a] != senses[b]
    ensures Sum(Counts(labels, senses)) == CountIn(labels, senses)
  {
    if senses == [] {
      CountInEmpty(labels);
    } else {
      var rest := senses[1..];
      assert senses == [senses[0]] + rest;
      assert senses[0] !in rest by {
        forall k | 0 <= k < |rest| ensures rest[k] != senses[0] {
          assert rest[k] == senses[k + 1];
        }
      }
      SumCountsIsCountIn(labels, rest);
      CountInCons(labels, senses[0], rest);
      assert Counts(labels, senses) == [Count(labels, senses[0])] + Counts(labels, rest);
    }
  }

  lemma {:induction false} CountInEmpty(labels: seq<int>)
    ensures CountIn(labels, []) == 0
  {
    if labels != [] {
      CountInEmpty(labels[1..]);
    }
  }

  lemma {:induction false} CountInCovering(labels: seq<int>, senses: seq<int>)
    requires forall i :: 0 <= i < |labels| ==> labels[i] in senses
    ensures CountIn(labels, senses) == |labels|
  {
    if labels != [] {
      assert labels[0] in senses;
      CountInCovering(labels[1..], senses);
      assert CountIn(labels, senses) == 1 + CountIn(labels[1..], senses);
    }
  }

  /** The count vectors have one entry per label of either slice; each entry
      is that label's number of occurrences in the slice (0 where it does not
      occur), every label occurs in at least one slice, and the entries add
      up to the slice sizes. */
  lemma CountVectorsSound(labels1: seq<int>, labels2: seq<int>)
    ensures var senses := Senses(labels1, labels2);
      var (t1, t2) := CountVectors(labels1, labels2);
      && |t1| == |t2| == |senses| == NumSenses(labels1 + labels2)
      && (forall x :: x in senses <==> x in labels1 || x in labels2)
      && (forall i :: 0 <= i < |senses| ==> t1[i] == Count(labels1, senses[i]) && t2[i] == Count(labels2, senses[i]))
      && (forall i :: 0 <= i < |senses| ==> (t1[i] == 0 <==> senses[i] !in labels1))
      && (forall i :: 0 <= i < |senses| ==> (t2[i] == 0 <==> senses[i] !in labels2))
      && (forall i :: 0 <= i < |senses| ==> t1[i] > 0 || t2[i] > 0)
      && Sum(t1) == |labels1| && Sum(t2) == |labels2|
  {
    var senses := Senses(labels1, labels2);
    var (t1, t2) := CountVectors(labels1, labels2);
    SensesCount(labels1, labels2);
    forall i | 0 <= i < |senses| ensures (t1[i] == 0 <==> senses[i] !in labels1) && (t2[i] == 0 <==> senses[i] !in labels2) {
      CountPositive(labels1, senses[i]);
      CountPositive(labels2, senses[i]);
    }
    SumCountsIsCountIn(labels1, senses);
    CountInCovering(labels1, senses);
    SumCountsIsCountIn(labels2, senses);
    CountInCovering(labels2, senses);
  }

  /** The senses are as many as the distinct labels of the pooled list. */
  lemma SensesCount(labels1: seq<int>, labels2: seq<int>)
    ensures |Senses(labels1, labels2)| == NumSenses(labels1 + labels2)
  {
    var senses := Senses(labels1, labels2);
    DistinctSize(senses);
    assert LabelSet(senses) == LabelSet(labels1 + labels2);
  }

  /** Swapping the two slices swaps the two count vectors. */
  lemma CountVectorsSwap(labels1: seq<int>, labels2: seq<int>)
    ensures CountVectors(labels2, labels1) == (CountVectors(labels1, labels2).1, CountVectors(labels1, labels2).0)
  {
    AscendingUnique(Senses(labels2, labels1), Senses(labels1, labels2));
  }

  /** The exemplar-based cluster count of line 187 is the number of entries
      of the count vectors built from its two halves. */
  lemma NumSensesOfSplit(labels: seq<int>, n1: nat)
    ensures var (l1, l2) := SplitLabels(labels, n1);
      NumSenses(labels) == |Senses(l1, l2)| == |CountVectors(l1, l2).0|
  {
    var (l1, l2) := SplitLabels(labels, n1);
    SensesCount(l1, l2);
  }

  /** Labels drawn from [0, k), as a k-means run assigns them, form at most
      k senses. */
  lemma FixedKSenses(labels: seq<int>, k: nat)
    requires forall i :: 0 <= i < |labels| ==> 0 <= labels[i] < k
    ensures NumSenses(labels) <= k
  {
    var range := seq(k, i => i);
    forall x | x in labels ensures x in range {
      assert range[x] == x;
    }
    assert LabelSet(labels) <= LabelSet(range);
    SubsetSize(LabelSet(labels), LabelSet(range));
    LabelSetSize(range);
  }

  lemma SubsetSize(a: set<int>, b: set<int>)
    requires a <= b
    ensures |a| <= |b|
  {
    assert b == a + (b - a);
  }

  /** The divergence of one clustering strategy (lines 78-94). `jsd` stands
      for the normalisation and the Jensen-Shannon computation on the two
      count vectors; None stands for the NaN that normalising an all-zero
      vector (an empty slice) yields. */
  function ClusterDivergence(labels1: seq<int>, labels2: seq<int>, jsd: (seq<nat>, seq<nat>) -> real): (d: Option<real>)
    ensures d.Some? <==> labels1 != [] && labels2 != []
    ensures d.Some? ==> d.value == jsd(CountVectors(labels1, labels2).0, CountVectors(labels1, labels2).1)
  {
    var (t1, t2) := CountVectors(labels1, labels2);
    CountVectorsSound(labels1, labels2);
    if Sum(t1) == 0 || Sum(t2) == 0 then None else Some(jsd(t1, t2))
  }

  /** With a symmetric divergence, the slice order does not matter. */
  lemma ClusterDivergenceSymmetric(labels1: seq<int>, labels2: seq<int>, jsd: (seq<nat>, seq<nat>) -> real)
    requires forall p, q :: jsd(p, q) == jsd(q, p)
    ensures ClusterDivergence(labels1, labels2, jsd) == ClusterDivergence(labels2, labels1, jsd)
  {
    CountVectorsSwap(labels1, labels2);
  }
}
