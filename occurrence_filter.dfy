/** The per-slice occurrence filter of calculate_semantic_change.py: keep
    the occurrences whose sentence holds the target as a whole word and, in
    one-embedding-per-sentence mode, only the first occurrence of each
    sentence text within the slice. */
module OccurrenceFilter {
  import opened Wrappers
  import opened WordMatch

  /** One contextual embedding; its values are never inspected here. */
  type Embedding = seq<real>

  /** Occurrence i of a slice survives. In dedupe mode the seen-set holds
      exactly the texts of earlier MATCHING occurrences; an earlier copy of
      the same text matches exactly when this one does, so "seen" is "occurs
      earlier in the slice". */
  predicate Keeps(texts: seq<string>, target: string, dedupe: bool, i: nat)
    requires i < |texts|
  {
    Search(texts[i], target) && (!dedupe || texts[i] !in texts[..i])
  }

  /** The indices among the first n occurrences that survive, in slice order. */
  function Kept(texts: seq<string>, target: string, dedupe: bool, n: nat): (ks: seq<nat>)
    requires n <= |texts|
    ensures forall k :: 0 <= k < |ks| ==> ks[k] < n
    ensures forall a, b :: 0 <= a < b < |ks| ==> ks[a] < ks[b]
    ensures forall i: nat :: i in ks <==> i < n && Keeps(texts, target, dedupe, i)
  {
    if n == 0 then []
    else
      var prev := Kept(texts, target, dedupe, n - 1);
      if Keeps(texts, target, dedupe, n - 1) then prev + [n - 1] else prev
  }

  /** The elements of xs at the given indices, in that order. */
  function SelectAt<T>(xs: seq<T>, ks: seq<nat>): (r: seq<T>)
    requires forall k :: 0 <= k < |ks| ==> ks[k] < |xs|
    ensures |r| == |ks| && forall k :: 0 <= k < |ks| ==> r[k] == xs[ks[k]]
  {
    seq(|ks|, k requires 0 <= k < |ks| => xs[ks[k]])
  }

  /** Selecting one more index appends that element. */
  lemma SelectAtAppend<T>(xs: seq<T>, ks: seq<nat>, i: nat)
    requires forall k :: 0 <= k < |ks| ==> ks[k] < |xs|
    requires i < |xs|
    ensures SelectAt(xs, ks + [i]) == SelectAt(xs, ks) + [xs[i]]
  {
  }

  /** The seen-set after the first idx occurrences: in dedupe mode, the
      matching texts among them. */
  ghost predicate SeenExactly(seen: map<string, int>, texts: seq<string>, target: string, dedupe: bool, idx: nat)
    requires idx <= |texts|
  {
    forall s :: s in seen <==> dedupe && s in texts[..idx] && Search(s, target)
  }

  /** The loop's test on occurrence idx is Keeps, and the seen-set update
      keeps SeenExactly. */
  lemma {:induction false} SeenStep(seen: map<string, int>, texts: seq<string>, target: string, dedupe: bool, idx: nat)
    requires idx < |texts|
    requires SeenExactly(seen, texts, target, dedupe, idx)
    ensures Keeps(texts, target, dedupe, idx) <==> Search(texts[idx], target) && !(dedupe && texts[idx] in seen)
    ensures Keeps(texts, target, dedupe, idx) && dedupe ==> SeenExactly(seen[texts[idx] := 1], texts, target, dedupe, idx + 1)
    ensures !(Keeps(texts, target, dedupe, idx) && dedupe) ==> SeenExactly(seen, texts, target, dedupe, idx + 1)
  {
    var text := texts[idx];
    assert texts[..idx + 1] == texts[..idx] + [text];
    if dedupe && Search(text, target) {
      assert text in seen <==> text in texts[..idx];
    }
  }

  /** The loop over one time slice (lines 147-169): a fresh seen-set, then
      each occurrence is filtered, deduplicated and appended to the two
      parallel lists. The sentence of occurrence idx is read at line 153, so
      a sentence list shorter than the embedding list raises IndexError
      (`None`) once the loop passes its end. */
  method FilterSlice(embs: seq<Embedding>, texts: seq<string>, target: string, dedupe: bool)
    returns (r: Option<(seq<Embedding>, seq<string>)>)
    ensures |embs| <= |texts| ==>
              r == Some((SelectAt(embs, Kept(texts, target, dedupe, |embs|)),
                         SelectAt(texts, Kept(texts, target, dedupe, |embs|))))
    ensures |embs| > |texts| ==> r == None
  {
    var textSeen: map<string, int> := map[];
    var keptEmbs: seq<Embedding>, keptTexts: seq<string> := [], [];
    for idx := 0 to |embs|
      invariant idx <= |texts|
      invariant SeenExactly(textSeen, texts, target, dedupe, idx)
      invariant keptEmbs == SelectAt(embs, Kept(texts, target, dedupe, idx))
      invariant keptTexts == SelectAt(texts, Kept(texts, target, dedupe, idx))
    {
      if idx == |texts| {
        return None;
      }
      var e := embs[idx];
      var text := texts[idx];
      ghost var ks := Kept(texts, target, dedupe, idx);
      SeenStep(textSeen, texts, target, dedupe, idx);
      if Search(text, target) && !(dedupe && text in textSeen) {
        if dedupe {
          textSeen := textSeen[text := 1];
        }
        SelectAtAppend(embs, ks, idx);
        SelectAtAppend(texts, ks, idx);
        keptEmbs := keptEmbs + [e];
        keptTexts := keptTexts + [text];
      }
    }
    r := Some((keptEmbs, keptTexts));
  }

  /** In dedupe mode the surviving texts of a slice are pairwise distinct. */
  lemma DedupedTextsDistinct(texts: seq<string>, target: string, n: nat)
    requires n <= |texts|
    ensures forall a, b :: 0 <= a < b < |Kept(texts, target, true, n)| ==>
              texts[Kept(texts, target, true, n)[a]] != texts[Kept(texts, target, true, n)[b]]
  {
    var ks := Kept(texts, target, true, n);
    forall a, b | 0 <= a < b < |ks| ensures texts[ks[a]] != texts[ks[b]] {
      assert ks[b] in ks;
      assert texts[ks[b]] !in texts[..ks[b]];
      assert texts[..ks[b]][ks[a]] == texts[ks[a]];
    }
  }

  /** Some occurrence at or before i carries the same text and is its first copy. */
  lemma {:induction false} FirstCopy(texts: seq<string>, i: nat)
    requires i < |texts|
    ensures exists j :: 0 <= j <= i && texts[j] == texts[i] && texts[j] !in texts[..j]
  {
    if texts[i] in texts[..i] {
      var j' :| 0 <= j' < i && texts[..i][j'] == texts[i];
      FirstCopy(texts, j');
    } else {
      assert texts[i] !in texts[..i];
    }
  }

  /** No earlier occurrence of the slice carries the same text as occurrence j. */
  ghost predicate IsFirstCopy(texts: seq<string>, j: nat)
    requires j < |texts|
  {
    forall j' :: 0 <= j' < j ==> texts[j'] != texts[j]
  }

  /** Occurrence j is the first copy of the text of occurrence i. */
  ghost predicate SurvivorOf(texts: seq<string>, j: nat, i: nat)
    requires j < |texts| && i < |texts|
  {
    j <= i && texts[j] == texts[i] && IsFirstCopy(texts, j)
  }

  /** Dedupe loses no sentence: every matching sentence of the slice is the
      text of exactly one survivor, its first occurrence. */
  lemma DedupeKeepsFirstOfEach(texts: seq<string>, target: string, n: nat, i: nat)
    requires i < n <= |texts|
    requires Search(texts[i], target)
    ensures exists k :: 0 <= k < |Kept(texts, target, true, n)| && SurvivorOf(texts, Kept(texts, target, true, n)[k], i)
  {
    var ks := Kept(texts, target, true, n);
    FirstCopy(texts, i);
    var j :| 0 <= j <= i && texts[j] == texts[i] && texts[j] !in texts[..j];
    assert Keeps(texts, target, true, j);
    assert j in ks;
    var k :| 0 <= k < |ks| && ks[k] == j;
    forall j' | 0 <= j' < j ensures texts[j'] != texts[i] {
      assert texts[..j][j'] == texts[j'];
    }
    assert SurvivorOf(texts, ks[k], i);
  }

  /** A slice loses every occurrence exactly when none of its sentences holds
      the target as a whole word; deduplication never empties a slice. */
  lemma KeptEmptyIff(texts: seq<string>, target: string, dedupe: bool, n: nat)
    requires n <= |texts|
    ensures Kept(texts, target, dedupe, n) == [] <==> forall i :: 0 <= i < n ==> !Search(texts[i], target)
  {
    var ks := Kept(texts, target, dedupe, n);
    if ks != [] {
      assert ks[0] in ks;
      assert Keeps(texts, target, dedupe, ks[0]);
    }
    if i :| 0 <= i < n && Search(texts[i], target) {
      if dedupe {
        DedupeKeepsFirstOfEach(texts, target, n, i);
      } else {
        assert Keeps(texts, target, dedupe, i);
        assert i in ks;
      }
    }
  }
}
