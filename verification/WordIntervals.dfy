/** Texts that are intervals of a list of words, in order, and together leave no word out. */
module WordIntervals {
  import opened Words

  function Min(a: int, b: int): int { if a < b then a else b }

  function Max(a: int, b: int): int { if a < b then b else a }

  /** The text consists of the words from `a` to `b`. */
  predicate IsInterval(words: seq<string>, text: string, a: nat, b: nat) {
    a <= b <= |words| && Split(text) == words[a..b]
  }

  /**
    The texts are intervals of the words, in order: each starts no later than the
    point the ones before it reach and at most `slack` words in front of it, and
    together they take that point from `at` to `end`.
  */
  ghost predicate Covers(words: seq<string>, texts: seq<string>, at: nat, end: nat, slack: nat) {
    if texts == [] then at == end
    else exists a: nat, b: nat | IsInterval(words, texts[0], a, b) ::
      a <= at <= a + slack && Covers(words, texts[1..], Max(at, b), end, slack)
  }

  lemma CoversNothing(words: seq<string>, at: nat, slack: nat)
    ensures Covers(words, [], at, at, slack)
  {
  }

  lemma CoversCons(words: seq<string>, text: string, texts: seq<string>, a: nat, b: nat, at: nat, end: nat, slack: nat)
    requires IsInterval(words, text, a, b) && a <= at <= a + slack && Covers(words, texts, Max(at, b), end, slack)
    ensures Covers(words, [text] + texts, at, end, slack)
  {
    hide IsInterval;
    var all := [text] + texts;
    assert all[1..] == texts && IsInterval(words, all[0], a, b);
  }

  lemma CoversItself(text: string, slack: nat)
    ensures Covers(Split(text), [text], 0, |Split(text)|, slack)
  {
    var words := Split(text);
    CoversNothing(words, |words|, slack);
    assert words[0..|words|] == words;
    CoversCons(words, text, [], 0, |words|, 0, |words|, slack);
    assert [text] + [] == [text];
  }

  lemma FirstInterval(words: seq<string>, texts: seq<string>, at: nat, end: nat, slack: nat) returns (a: nat, b: nat)
    requires texts != [] && Covers(words, texts, at, end, slack)
    ensures IsInterval(words, texts[0], a, b) && a <= at <= a + slack
    ensures Covers(words, texts[1..], Max(at, b), end, slack)
  {
    hide IsInterval;
    a, b :| IsInterval(words, texts[0], a, b) && a <= at <= a + slack
        && Covers(words, texts[1..], Max(at, b), end, slack);
  }

  lemma {:induction false} CoversGrows(words: seq<string>, texts: seq<string>, at: nat, end: nat, slack: nat)
    requires Covers(words, texts, at, end, slack)
    ensures at <= end
    ensures at <= |words| ==> end <= |words|
    decreases |texts|
  {
    hide Split;
    if texts != [] {
      var a, b := FirstInterval(words, texts, at, end, slack);
      CoversGrows(words, texts[1..], Max(at, b), end, slack);
    }
  }

  lemma {:induction false} CoversOnward(words: seq<string>, xs: seq<string>, ys: seq<string>,
                                        at: nat, mid: nat, end: nat, slack: nat)
    requires Covers(words, xs, at, mid, slack) && Covers(words, ys, mid, end, slack)
    ensures Covers(words, xs + ys, at, end, slack)
    decreases |xs|
  {
    hide IsInterval;
    if xs == [] {
      assert xs + ys == ys;
    } else {
      hide Covers;
      var a, b := FirstInterval(words, xs, at, mid, slack);
      CoversOnward(words, xs[1..], ys, Max(at, b), mid, end, slack);
      CoversCons(words, xs[0], xs[1..] + ys, a, b, at, end, slack);
      assert xs + ys == [xs[0]] + (xs[1..] + ys);
    }
  }

  lemma IntervalOfPart(words: seq<string>, lo: nat, hi: nat, text: string, a: nat, b: nat)
    requires lo <= hi <= |words| && IsInterval(words[lo..hi], text, a, b)
    ensures IsInterval(words, text, lo + a, lo + b) && lo + b <= hi
  {
    hide Split;
    var part := words[lo..hi];
    forall k | 0 <= k < b - a
      ensures part[a..b][k] == words[lo + a..lo + b][k]
    {
      assert part[a..b][k] == part[a + k] && words[lo + a..lo + b][k] == words[lo + a + k];
    }
    assert part[a..b] == words[lo + a..lo + b];
  }

  /**
    What covers an interval of the words covers that interval inside the whole,
    from any point already reached that is at most the slack behind its start.
  */
  lemma {:induction false} CoversWithin(words: seq<string>, lo: nat, hi: nat, texts: seq<string>, c: nat, e: nat,
                                        base: nat, inner: nat, slack: nat)
    requires lo <= hi <= |words| && Covers(words[lo..hi], texts, c, e, inner)
    requires base <= lo + slack && inner <= slack
    ensures Covers(words, texts, Max(base, lo + c), Max(base, lo + e), slack)
    decreases |texts|
  {
    hide IsInterval;
    if texts != [] {
      hide Covers;
      var part := words[lo..hi];
      var a, b := FirstInterval(part, texts, c, e, inner);
      IntervalOfPart(words, lo, hi, texts[0], a, b);
      CoversGrows(part, texts[1..], Max(c, b), e, inner);
      CoversWithin(words, lo, hi, texts[1..], Max(c, b), e, base, inner, slack);
      CoversCons(words, texts[0], texts[1..], lo + a, lo + b, Max(base, lo + c), Max(base, lo + e), slack);
      assert texts == [texts[0]] + texts[1..];
    }
  }

  /** So every word before `end` is in one of the texts, at its place in the interval. */
  lemma {:induction false} CoveredWord(words: seq<string>, texts: seq<string>, at: nat, end: nat, slack: nat, i: nat)
    returns (k: nat, a: nat, b: nat)
    requires Covers(words, texts, at, end, slack) && at <= i < end
    ensures k < |texts| && a <= i < b && IsInterval(words, texts[k], a, b)
    decreases |texts|
  {
    hide IsInterval;
    a, b := FirstInterval(words, texts, at, end, slack);
    k := 0;
    if i >= b {
      k, a, b := CoveredWord(words, texts[1..], Max(at, b), end, slack, i);
      k := k + 1;
    }
  }

  // ---------- words that are left out ----------

  /** The last word occurs only once. */
  predicate LastIsNew(words: seq<string>) {
    words != [] && forall i | 0 <= i < |words| - 1 :: words[i] != words[|words| - 1]
  }

  /** The text is an interval of the words that ends before the last one. */
  ghost predicate EndsEarly(words: seq<string>, t: string) {
    exists lo: nat, hi: nat :: IsInterval(words, t, lo, hi) && hi < |words|
  }

  lemma UncoveredLast(words: seq<string>, texts: seq<string>, slack: nat)
    requires LastIsNew(words) && forall k | 0 <= k < |texts| :: EndsEarly(words, texts[k])
    ensures !Covers(words, texts, 0, |words|, slack)
  {
    hide Covers, Split;
    var n := |words|;
    if Covers(words, texts, 0, n, slack) {
      var k, a, b := CoveredWord(words, texts, 0, n, slack, n - 1);
      var lo: nat, hi: nat :| IsInterval(words, texts[k], lo, hi) && hi < n;
      SameWord(words, a, b, lo, hi, n - 1 - a);
    }
  }

  lemma SameWord(words: seq<string>, a: nat, b: nat, lo: nat, hi: nat, k: nat)
    requires a <= b <= |words| && lo <= hi <= |words| && words[a..b] == words[lo..hi] && k < b - a
    ensures lo + k < hi && words[a + k] == words[lo + k]
  {
    assert |words[a..b]| == |words[lo..hi]|;
    assert words[a..b][k] == words[a + k] && words[lo..hi][k] == words[lo + k];
  }

  /** Words without the punctuation that ends a sentence. */
  predicate Calm(words: seq<string>) {
    forall i | 0 <= i < |words| :: forall c | c in words[i] :: c !in ".!?"
  }

  lemma {:induction false} CalmJoin(words: seq<string>)
    requires Calm(words)
    ensures forall c | c in Join(words) :: c !in ".!?"
  {
    if |words| > 1 {
      CalmJoin(words[1..]);
    }
  }

  lemma {:induction false} NoSentenceEnd(text: string, from: nat)
    requires forall c | c in text :: c !in ".!?"
    ensures SentenceEnd(text, from).None?
    decreases |text| - from
  {
    if from < |text| {
      assert 0 < from ==> text[from - 1] in text;
      NoSentenceEnd(text, from + 1);
    }
  }

  /** `n` words of which the last differs from the others. */
  function MarkedWords(n: nat): (words: seq<string>)
    requires n >= 1
    ensures |words| == n && words[n - 1] == "b" && (forall i | 0 <= i < n - 1 :: words[i] == "a")
    ensures AllWords(words) && LastIsNew(words) && Calm(words)
  {
    seq(n, i => if i == n - 1 then "b" else "a")
  }
}
