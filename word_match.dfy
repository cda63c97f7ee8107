/** The target regex of calculate_semantic_change.py: the word with its
    part-of-speech markers `_vb` and `_nn` removed, searched for as a whole
    word (`\b` on both sides). `\b` is modelled with ASCII word characters;
    the target is taken as literal text. */
module WordMatch {

  /** Python's `s.replace(pat, "")`: scan left to right and drop every
      non-overlapping occurrence of `pat`, in one pass. */
  function RemoveAll(s: string, pat: string): (r: string)
    requires pat != []
    ensures |r| <= |s|
    ensures pat[0] !in s ==> r == s
    decreases |s|
  {
    if |s| < |pat| then s
    else if s[..|pat|] == pat then RemoveAll(s[|pat|..], pat)
    else [s[0]] + RemoveAll(s[1..], pat)
  }

  /** `word.replace("_vb", "").replace("_nn", "")` */
  function Target(word: string): (t: string)
    ensures |t| <= |word|
    ensures '_' !in word ==> t == word
  {
    RemoveAll(RemoveAll(word, "_vb"), "_nn")
  }

  /** Removing a pattern that starts with `_` leaves an underscore-free prefix alone. */
  lemma {:induction false} RemoveAllAfterPlainPrefix(w: string, tail: string, pat: string)
    requires pat != [] && pat[0] == '_' && '_' !in w
    ensures RemoveAll(w + tail, pat) == w + RemoveAll(tail, pat)
    decreases |w|
  {
    if w != [] {
      var s := w + tail;
      if |s| < |pat| {
        assert RemoveAll(tail, pat) == tail;
      } else {
        assert s[0] == w[0] != '_';
        assert s[..|pat|][0] != pat[0];
        assert RemoveAll(s, pat) == [s[0]] + RemoveAll(s[1..], pat);
        assert s[1..] == w[1..] + tail;
        RemoveAllAfterPlainPrefix(w[1..], tail, pat);
        calc {
          RemoveAll(s, pat);
          [w[0]] + (w[1..] + RemoveAll(tail, pat));
          ([w[0]] + w[1..]) + RemoveAll(tail, pat);
          { assert [w[0]] + w[1..] == w; }
          w + RemoveAll(tail, pat);
        }
      }
    } else {
      assert w + tail == tail;
    }
  }

  /** A plain word tagged `_nn` or `_vb` has exactly the plain word as target. */
  lemma TargetStripsPosTag(w: string)
    requires '_' !in w
    ensures Target(w + "_nn") == w
    ensures Target(w + "_vb") == w
  {
    RemoveAllAfterPlainPrefix(w, "_nn", "_vb");
    assert "_nn"[..3][1] != "_vb"[1];
    assert "_nn"[1..] == "nn";
    assert RemoveAll("_nn", "_vb") == "_nn";
    RemoveAllAfterPlainPrefix(w, "_nn", "_nn");
    assert RemoveAll("_nn", "_nn") == [];
    RemoveAllAfterPlainPrefix(w, "_vb", "_vb");
    assert RemoveAll("_vb", "_vb") == [];
    assert w + [] == w;
  }

  /** Python's ASCII `\w`. */
  predicate IsWordChar(c: char) {
    ('a' <= c <= 'z') || ('A' <= c <= 'Z') || ('0' <= c <= '9') || c == '_'
  }

  /** `\b` holds at position i: exactly one of the two neighbouring
      characters exists and is a word character. */
  predicate IsBoundary(text: string, i: int)
    requires 0 <= i <= |text|
  {
    (i > 0 && IsWordChar(text[i - 1])) != (i < |text| && IsWordChar(text[i]))
  }

  /** `\btarget\b` matches text at position i. */
  predicate MatchesAt(text: string, target: string, i: int)
    requires 0 <= i <= |text|
  {
    && i + |target| <= |text|
    && text[i..i + |target|] == target
    && IsBoundary(text, i)
    && IsBoundary(text, i + |target|)
  }

  ghost predicate ContainsWholeWord(text: string, target: string) {
    exists i :: 0 <= i <= |text| && MatchesAt(text, target, i)
  }

  function SearchFrom(text: string, target: string, i: nat): bool
    requires i <= |text|
    decreases |text| - i
  {
    if MatchesAt(text, target, i) then true
    else if i == |text| then false
    else SearchFrom(text, target, i + 1)
  }

  /** The scan from position i finds a match exactly when one starts at or
      after i. */
  lemma {:induction false} SearchFromSpec(text: string, target: string, i: nat)
    requires i <= |text|
    decreases |text| - i
    ensures SearchFrom(text, target, i) <==> exists j :: i <= j <= |text| && MatchesAt(text, target, j)
  {
    if !MatchesAt(text, target, i) && i < |text| {
      SearchFromSpec(text, target, i + 1);
    }
  }

  /** `re.search(r"\b%s\b" % target, text)` is not None. */
  function Search(text: string, target: string): bool
  {
    SearchFrom(text, target, 0)
  }

  /** The search succeeds exactly when the target occurs with a word
      boundary on both sides. */
  lemma SearchSpec(text: string, target: string)
    ensures Search(text, target) <==> ContainsWholeWord(text, target)
  {
    SearchFromSpec(text, target, 0);
  }

  lemma PlaneTarget()
    ensures Target("plane_nn") == "plane"
  {
    TargetStripsPosTag("plane");
    assert "plane" + "_nn" == "plane_nn";
  }

  lemma WholeWordAt(text: string, target: string, i: nat)
    requires i + |target| <= |text| && text[i..i + |target|] == target
    requires IsBoundary(text, i) && IsBoundary(text, i + |target|)
    ensures Search(text, target)
  {
    assert MatchesAt(text, target, i);
    SearchSpec(text, target);
  }

  lemma WholeWordPlaneAt(t: string, i: nat)
    requires (t == "a plane flew" && i == 2) || (t == "the plane landed" && i == 4)
    ensures Search(t, "plane")
  {
    assert t[i..i + 5] == "plane";
    WholeWordAt(t, "plane", i);
  }

  /** The occurrence filter keeps "a plane flew" and "the plane landed"
      for the word "plane_nn". */
  lemma PlaneKeptExample()
    ensures Search("a plane flew", Target("plane_nn"))
    ensures Search("the plane landed", Target("plane_nn"))
  {
    PlaneTarget();
    WholeWordPlaneAt("a plane flew", 2);
    WholeWordPlaneAt("the plane landed", 4);
  }

  lemma NoWholeWord(t: string)
    requires t == "airplane noise"
    ensures !Search(t, "plane")
  {
    SearchSpec(t, "plane");
    forall j | 0 <= j <= |t| ensures !MatchesAt(t, "plane", j) {
      if j != 3 && j + 5 <= |t| {
        assert t[j..j + 5][0] == t[j];
        assert t[j] != 'p';
      } else if j == 3 {
        assert IsWordChar(t[2]) && IsWordChar(t[3]);
      }
    }
  }

  /** ... and rejects "airplane noise": "plane" occurs there only inside a word. */
  lemma PlaneRejectedExample()
    ensures !Search("airplane noise", Target("plane_nn"))
  {
    PlaneTarget();
    NoWholeWord("airplane noise");
  }
}
