/**
  The sliding window of the Markdown chunker, its sentence snapping and the final
  filter (src/minni/chunker.py).
*/
module MarkdownChunker {
  import opened WordIntervals
  import opened Words
  import opened Wrappers

  datatype Config = Config(chunkSize: nat, overlap: int, minTokens: int, maxTokens: nat, sentenceSnap: bool)

  const DEFAULT_CONFIG := Config(512, 128, 64, 1024, true)

  datatype Piece = Piece(text: string, index: nat, isCode: bool, truncated: bool)

  // ---------- sentence snapping ----------

  function MaxLookahead(overlap: int): int { Max(overlap / 2, 5) }

  /**
    The last length a sentence end in the look-ahead text gives the window, among
    those that pass both tests of `_snap_to_sentence`, or `best`.
  */
  function LastBoundary(text: string, from: nat, size: nat, reach: int, limit: nat, best: nat): (n: nat)
    ensures n == best || (size < n <= limit && n <= reach)
    decreases |text| - from
  {
    match SentenceEnd(text, from)
    case None => best
    case Some(p) =>
      var w := |Split(text[..p])|;
      LastBoundary(text, p + 1, size, reach, limit, if w <= reach && size < w <= limit then w else best)
  }

  /** The length of the window of `size` words at `start` after snapping. */
  function SnappedSize(words: seq<string>, start: nat, size: nat, overlap: int): (n: nat)
    requires start + size <= |words|
    ensures size <= n && start + n <= |words|
    ensures n > size ==> n <= MaxLookahead(overlap) / 2
  {
    if start + size >= |words| then size
    else
      var end := Min(start + size + MaxLookahead(overlap), |words|);
      LastBoundary(Join(words[start..end]), 0, size, MaxLookahead(overlap) / 2, end - start, size)
  }

  /** The number of words of the text so far gives the window an acceptable length. */
  predicate Passes(n: nat, size: nat, reach: int, limit: nat) {
    size < n <= limit && n <= reach
  }

  lemma {:induction false} LastBoundaryIsLast(text: string, from: nat, size: nat, reach: int, limit: nat, best: nat)
    returns (p: Option<nat>)
    ensures var n := LastBoundary(text, from, size, reach, limit, best);
            && (p.None? ==> n == best)
            && (p.Some? ==>
                  && from <= p.value && SentenceEndsAt(text, p.value) && n == |Split(text[..p.value])|
                  && Passes(n, size, reach, limit))
            && forall q | (if p.Some? then p.value + 1 else from) <= q && SentenceEndsAt(text, q) ::
                 !Passes(|Split(text[..q])|, size, reach, limit)
    decreases |text| - from
  {
    hide Split;
    SentenceEndIsFirst(text, from);
    match SentenceEnd(text, from)
    case None => p := None;
    case Some(q) =>
      var w := |Split(text[..q])|;
      p := LastBoundaryIsLast(text, q + 1, size, reach, limit, if Passes(w, size, reach, limit) then w else best);
      if p.None? && Passes(w, size, reach, limit) {
        p := Some(q);
      }
  }

  /** The window may end with its m-th word: more than it had, within the limits, and a sentence ends there. */
  predicate MaySnapTo(words: seq<string>, start: nat, size: nat, overlap: int, m: nat) {
    && size < m <= Max(overlap / 2, 5) / 2 && m < size + Max(overlap / 2, 5) && start + m < |words|
    && EndsSentence(words[start + m - 1])
  }

  /** The window is extended to the last word it may end with, if there is one. */
  lemma SnapsToLastSentence(words: seq<string>, start: nat, size: nat, overlap: int)
    requires AllWords(words) && start + size <= |words|
    ensures var n := SnappedSize(words, start, size, overlap);
            && (n == size || MaySnapTo(words, start, size, overlap, n))
            && forall m | n < m :: !MaySnapTo(words, start, size, overlap, m)
  {
    hide Split, Join, SentenceEnd, EndsSentence, LastBoundary, AllWords;
    if start + size < |words| {
      var end := Min(start + size + MaxLookahead(overlap), |words|);
      var ahead, reach := words[start..end], MaxLookahead(overlap) / 2;
      assert AllWords(ahead) by { PartsAreWords(words, start, end); }
      var p := LastBoundaryIsLast(Join(ahead), 0, size, reach, end - start, size);
      var n := SnappedSize(words, start, size, overlap);
      if p.Some? {
        BoundaryIsWord(ahead, p.value, n);
        assert ahead[n - 1] == words[start + n - 1];
      }
      forall m | n < m ensures !MaySnapTo(words, start, size, overlap, m) {
        if MaySnapTo(words, start, size, overlap, m) {
          WordPasses(words, start, size, overlap, m);
          if p.Some? {
            JoinGrows(ahead, n, m);
          }
        }
      }
    }
  }

  lemma WordPasses(words: seq<string>, start: nat, size: nat, overlap: int, m: nat)
    requires AllWords(words) && MaySnapTo(words, start, size, overlap, m)
    ensures var end := Min(start + size + MaxLookahead(overlap), |words|);
            var ahead := words[start..end];
            && m < |ahead| && SentenceEndsAt(Join(ahead), |Join(ahead[..m])|)
            && Passes(|Split(Join(ahead)[..|Join(ahead[..m])|])|, size, MaxLookahead(overlap) / 2, end - start)
  {
    hide Split, Join, EndsSentence, AllWords;
    var end := Min(start + size + MaxLookahead(overlap), |words|);
    var ahead := words[start..end];
    assert AllWords(ahead) by { PartsAreWords(words, start, end); }
    assert ahead[m - 1] == words[start + m - 1];
    WordIsBoundary(ahead, m);
  }

  lemma PartsAreWords(words: seq<string>, start: nat, end: nat)
    requires AllWords(words) && start <= end <= |words|
    ensures AllWords(words[start..end])
  {
  }

  lemma BoundaryIsWord(ahead: seq<string>, p: nat, n: nat)
    requires AllWords(ahead) && SentenceEndsAt(Join(ahead), p) && n == |Split(Join(ahead)[..p])|
    ensures 1 <= n < |ahead| && EndsSentence(ahead[n - 1]) && p == |Join(ahead[..n])|
  {
    hide Split, Join, EndsSentence;
    var m := SentenceInWords(ahead, p);
    SplitJoin(ahead[..m]);
  }

  lemma WordIsBoundary(ahead: seq<string>, m: nat)
    requires AllWords(ahead) && 1 <= m < |ahead| && EndsSentence(ahead[m - 1])
    ensures var q := |Join(ahead[..m])|;
            SentenceEndsAt(Join(ahead), q) && |Split(Join(ahead)[..q])| == m
  {
    hide Split, Join, EndsSentence;
    WordsInSentence(ahead, m);
    JoinOfParts(ahead, m);
    assert Join(ahead)[..|Join(ahead[..m])|] == Join(ahead[..m]);
    SplitJoin(ahead[..m]);
  }

  // ---------- the sliding window ----------

  /** The length of the window at `start`. */
  function WindowSize(words: seq<string>, start: nat, isCode: bool, cfg: Config): (n: nat)
    requires start <= |words|
    ensures start + n <= |words|
  {
    var size := Min(Min(cfg.chunkSize, |words| - start), cfg.maxTokens);
    if cfg.sentenceSnap && !isCode then SnappedSize(words, start, size, cfg.overlap) else size
  }

  /**
    Where a window ends. It has what is left of the chunk size and the cap; only
    prose, and only if the configuration says so, is extended to the last word it
    may end with.
  */
  lemma WindowEndsExactly(words: seq<string>, start: nat, isCode: bool, cfg: Config)
    requires AllWords(words) && start <= |words|
    ensures var size := Min(Min(cfg.chunkSize, |words| - start), cfg.maxTokens);
            var n := WindowSize(words, start, isCode, cfg);
            && size >= 0
            && if isCode || !cfg.sentenceSnap then n == size
               else
                 && (n == size || MaySnapTo(words, start, size, cfg.overlap, n))
                 && forall m | n < m :: !MaySnapTo(words, start, size, cfg.overlap, m)
  {
    SnapsToLastSentence(words, start, Min(Min(cfg.chunkSize, |words| - start), cfg.maxTokens), cfg.overlap);
    hide SnappedSize, MaySnapTo;
  }

  function StepOf(cfg: Config): nat { Max(cfg.chunkSize - cfg.overlap, 1) }

  predicate IsKept(size: nat, cfg: Config) {
    size > 0 && size >= cfg.minTokens
  }

  /** The chunks of the windows from `start` on. */
  function Slide(words: seq<string>, start: nat, index: nat, isCode: bool, cfg: Config): seq<Piece>
    decreases |words| - start
  {
    if start >= |words| then []
    else
      var size := WindowSize(words, start, isCode, cfg);
      var kept := IsKept(size, cfg);
      (if kept then [Piece(Join(words[start..start + size]), index, isCode, size >= cfg.maxTokens)] else []) +
      (if start + cfg.chunkSize >= |words| then []
       else Slide(words, start + StepOf(cfg), if kept then index + 1 else index, isCode, cfg))
  }

  method SlidingWindowRaw(words: seq<string>, index: nat, isCode: bool, cfg: Config) returns (chunks: seq<Piece>)
    ensures chunks == Slide(words, 0, index, isCode, cfg)
  {
    hide WindowSize, Join, Slide, IsKept;
    chunks := [];
    var start, idx := 0, index;
    ghost var all := Slide(words, 0, index, isCode, cfg);
    assert [] + all == all;
    if |words| == 0 {
      NothingToSlide(words, 0, index, isCode, cfg);
    }
    while start < |words|
      invariant start < |words| ==> chunks + Slide(words, start, idx, isCode, cfg) == all
      invariant start >= |words| ==> chunks == all
      decreases |words| - start
    {
      SlideStep(words, start, idx, isCode, cfg);
      ghost var before := chunks;
      var size := WindowSize(words, start, isCode, cfg);
      ghost var rest := Slide(words, start + StepOf(cfg), if IsKept(size, cfg) then idx + 1 else idx, isCode, cfg);
      if IsKept(size, cfg) {
        var piece := Piece(Join(words[start..start + size]), idx, isCode, size >= cfg.maxTokens);
        chunks := chunks + [piece];
        idx := idx + 1;
        assert before + ([piece] + rest) == chunks + rest;
      }
      if start + cfg.chunkSize >= |words| {
        assert chunks == all;
        break;
      }
      assert chunks + rest == all;
      start := start + StepOf(cfg);
      if start >= |words| {
        NothingToSlide(words, start, idx, isCode, cfg);
      }
    }
  }

  lemma SlideStep(words: seq<string>, start: nat, index: nat, isCode: bool, cfg: Config)
    requires start < |words|
    ensures var size := WindowSize(words, start, isCode, cfg);
            var kept := IsKept(size, cfg);
            Slide(words, start, index, isCode, cfg) ==
              (if kept then [Piece(Join(words[start..start + size]), index, isCode, size >= cfg.maxTokens)] else []) +
              (if start + cfg.chunkSize >= |words| then []
               else Slide(words, start + StepOf(cfg), if kept then index + 1 else index, isCode, cfg))
  {
    hide WindowSize, Join;
  }

  lemma NothingToSlide(words: seq<string>, start: nat, index: nat, isCode: bool, cfg: Config)
    requires start >= |words|
    ensures Slide(words, start, index, isCode, cfg) == []
  {
  }

  // ---------- no word is lost ----------

  /** By how much a window and the next share their plain extent. */
  function Shared(cfg: Config): int { cfg.chunkSize - StepOf(cfg) }

  /** What the windows need of a configuration to cover every text longer than a chunk. */
  predicate Lossless(cfg: Config) {
    0 <= cfg.overlap && 1 <= cfg.chunkSize <= cfg.maxTokens && cfg.minTokens <= Min(cfg.overlap + 1, cfg.chunkSize)
  }

  /** How far back a window may start: what two windows share and what snapping may have added. */
  function StepBack(cfg: Config): nat {
    Max(Shared(cfg), 0) + MaxLookahead(cfg.overlap) / 2
  }

  function Texts(pieces: seq<Piece>): (texts: seq<string>)
    ensures |texts| == |pieces| && forall i | 0 <= i < |pieces| :: texts[i] == pieces[i].text
  {
    seq(|pieces|, i requires 0 <= i < |pieces| => pieces[i].text)
  }

  lemma SubWords(words: seq<string>, lo: nat, hi: nat)
    requires AllWords(words) && lo <= hi <= |words|
    ensures IsInterval(words, Join(words[lo..hi]), lo, hi)
  {
    hide IsWord;
    SplitJoin(words[lo..hi]);
  }

  /** A window is never shorter than what is left, the chunk and the cap allow, and hardly longer. */
  lemma WindowIsFull(words: seq<string>, start: nat, isCode: bool, cfg: Config)
    requires start <= |words|
    ensures var size := WindowSize(words, start, isCode, cfg);
            && size >= Min(Min(cfg.chunkSize, |words| - start), cfg.maxTokens)
            && size <= cfg.chunkSize + MaxLookahead(cfg.overlap) / 2
  {
  }

  lemma WindowIsKept(words: seq<string>, start: nat, isCode: bool, cfg: Config)
    requires Lossless(cfg) && start + Shared(cfg) < |words|
    ensures var size := WindowSize(words, start, isCode, cfg);
            && IsKept(size, cfg)
            && size <= cfg.chunkSize + MaxLookahead(cfg.overlap) / 2
            && (start + cfg.chunkSize >= |words| ==> start + size == |words|)
            && (start + cfg.chunkSize < |words| ==> size >= cfg.chunkSize)
  {
    WindowIsFull(words, start, isCode, cfg);
    hide WindowSize;
  }

  /** The first window and the windows behind it, from a start that leaves more than the overlap. */
  lemma SlideUnfolds(words: seq<string>, start: nat, index: nat, isCode: bool, cfg: Config) returns (piece: Piece)
    requires Lossless(cfg) && start + Shared(cfg) < |words|
    ensures piece.index == index && piece.text == Join(words[start..start + WindowSize(words, start, isCode, cfg)])
    ensures Slide(words, start, index, isCode, cfg) ==
              if start + cfg.chunkSize >= |words| then [piece]
              else [piece] + Slide(words, start + StepOf(cfg), index + 1, isCode, cfg)
  {
    hide WindowSize, Join, Slide;
    var size := WindowSize(words, start, isCode, cfg);
    WindowIsKept(words, start, isCode, cfg);
    SlideStep(words, start, index, isCode, cfg);
    piece := Piece(Join(words[start..start + size]), index, isCode, size >= cfg.maxTokens);
  }

  /** From a start that leaves more than the overlap, every window is kept and they follow one another without a gap. */
  lemma {:induction false} SlideCovers(words: seq<string>, start: nat, index: nat, isCode: bool, cfg: Config, at: nat)
    requires AllWords(words) && Lossless(cfg)
    requires start + Shared(cfg) < |words| && start <= at <= |words| && at <= start + StepBack(cfg)
    ensures Covers(words, Texts(Slide(words, start, index, isCode, cfg)), at, |words|, StepBack(cfg))
    decreases |words| - start
  {
    hide WindowSize, Join, AllWords, Covers, IsInterval, Texts, Slide;
    var size := WindowSize(words, start, isCode, cfg);
    WindowIsKept(words, start, isCode, cfg);
    SubWords(words, start, start + size);
    var piece := SlideUnfolds(words, start, index, isCode, cfg);
    var reach := Max(at, start + size);
    if start + cfg.chunkSize >= |words| {
      CoversNothing(words, |words|, StepBack(cfg));
      CoversCons(words, piece.text, [], start, start + size, at, |words|, StepBack(cfg));
      assert Texts([piece]) == [piece.text] + [];
    } else {
      var next := start + StepOf(cfg);
      var rest := Slide(words, next, index + 1, isCode, cfg);
      SlideCovers(words, next, index + 1, isCode, cfg, reach);
      CoversCons(words, piece.text, Texts(rest), start, start + size, at, |words|, StepBack(cfg));
      assert Texts([piece] + rest) == [piece.text] + Texts(rest);
    }
  }

  /**
    Every chunk, of whatever configuration, has at least one word and the minimum,
    says whether it is code, and is marked truncated exactly when it has as many
    words as the cap allows.
  */
  lemma {:induction false} ChunksAreMarked(words: seq<string>, start: nat, index: nat, isCode: bool, cfg: Config)
    requires AllWords(words)
    ensures forall piece | piece in Slide(words, start, index, isCode, cfg) ::
              && var n := |Split(piece.text)|;
              && n >= 1 && n >= cfg.minTokens
              && piece.isCode == isCode && (piece.truncated <==> n >= cfg.maxTokens)
    decreases |words| - start
  {
    hide WindowSize, Join, Slide, AllWords, Split;
    if start < |words| {
      var size := WindowSize(words, start, isCode, cfg);
      SlideStep(words, start, index, isCode, cfg);
      SubWords(words, start, start + size);
      assert |words[start..start + size]| == size;
      ChunksAreMarked(words, start + StepOf(cfg), if IsKept(size, cfg) then index + 1 else index, isCode, cfg);
    } else {
      NothingToSlide(words, start, index, isCode, cfg);
    }
  }

  /** There are as many chunks as starts, numbered in turn. */
  lemma {:induction false} SlideCount(words: seq<string>, start: nat, index: nat, isCode: bool, cfg: Config)
    requires Lossless(cfg) && start + Shared(cfg) < |words|
    ensures var pieces := Slide(words, start, index, isCode, cfg);
            && (forall k | 0 <= k < |pieces| :: pieces[k].index == index + k)
            && |pieces| >= 1
            && start + (|pieces| - 1) * StepOf(cfg) + cfg.chunkSize >= |words|
            && (|pieces| > 1 ==> start + (|pieces| - 2) * StepOf(cfg) + cfg.chunkSize < |words|)
    decreases |words| - start
  {
    hide WindowSize, Join, Slide;
    var piece := SlideUnfolds(words, start, index, isCode, cfg);
    if start + cfg.chunkSize < |words| {
      var rest := Slide(words, start + StepOf(cfg), index + 1, isCode, cfg);
      SlideCount(words, start + StepOf(cfg), index + 1, isCode, cfg);
      StepsAdd(|rest|, StepOf(cfg));
    }
  }

  lemma StepsAdd(k: nat, step: nat)
    ensures (k + 1 - 1) * step == (k - 1) * step + step
    ensures (k + 1 - 2) * step == (k - 2) * step + step
  {
  }

  /** A text longer than a chunk keeps every word and every window; the chunks are numbered in turn. */
  lemma LongTextsKeepEveryWord(words: seq<string>, index: nat, isCode: bool, cfg: Config)
    requires AllWords(words) && Lossless(cfg) && |words| > cfg.chunkSize
    ensures var pieces := Slide(words, 0, index, isCode, cfg);
            && Covers(words, Texts(pieces), 0, |words|, StepBack(cfg))
            && (forall k | 0 <= k < |pieces| :: pieces[k].index == index + k)
            && |pieces| > 1
            && (|pieces| - 1) * StepOf(cfg) + cfg.chunkSize >= |words|
            && (|pieces| - 2) * StepOf(cfg) + cfg.chunkSize < |words|
  {
    SlideCovers(words, 0, index, isCode, cfg, 0);
    SlideCount(words, 0, index, isCode, cfg);
    hide Slide, Covers;
  }

  lemma DefaultsAreLossless()
    ensures Lossless(DEFAULT_CONFIG)
  {
  }

  // ---------- what is lost otherwise ----------

  /** Without a sentence end nothing snaps. */
  lemma CalmWindow(words: seq<string>, start: nat, isCode: bool, cfg: Config)
    requires start <= |words| && Calm(words)
    ensures WindowSize(words, start, isCode, cfg) == Min(Min(cfg.chunkSize, |words| - start), cfg.maxTokens)
  {
    hide Join, SentenceEnd;
    var size := Min(Min(cfg.chunkSize, |words| - start), cfg.maxTokens);
    if start + size < |words| {
      var lookahead := words[start..Min(start + size + MaxLookahead(cfg.overlap), |words|)];
      CalmJoin(lookahead);
      NoSentenceEnd(Join(lookahead), 0);
    }
  }

  /** The piece of a window of such words, if it is kept. */
  lemma SlideHead(words: seq<string>, start: nat, index: nat, isCode: bool, cfg: Config)
    returns (piece: Piece, next: nat)
    requires AllWords(words) && Calm(words) && start < |words|
    ensures var size := Min(Min(cfg.chunkSize, |words| - start), cfg.maxTokens);
            && IsInterval(words, piece.text, start, start + size)
            && Slide(words, start, index, isCode, cfg) ==
                 (if IsKept(size, cfg) then [piece] else []) +
                 (if start + cfg.chunkSize >= |words| then [] else Slide(words, start + StepOf(cfg), next, isCode, cfg))
  {
    hide WindowSize, Calm, Slide, IsInterval, AllWords, Join;
    var size := WindowSize(words, start, isCode, cfg);
    CalmWindow(words, start, isCode, cfg);
    SlideStep(words, start, index, isCode, cfg);
    SubWords(words, start, start + size);
    piece := Piece(Join(words[start..start + size]), index, isCode, size >= cfg.maxTokens);
    next := if IsKept(size, cfg) then index + 1 else index;
  }

  /** A configuration that does not meet the conditions drops the last word of some text. */
  lemma LossyLosesAWord(isCode: bool, cfg: Config, slack: nat) returns (n: nat)
    requires !Lossless(cfg)
    ensures n > cfg.chunkSize
    ensures !Covers(MarkedWords(n), Texts(Slide(MarkedWords(n), 0, 0, isCode, cfg)), 0, n, slack)
  {
    hide Slide, Covers, IsInterval, MarkedWords, AllWords;
    n := if cfg.chunkSize > cfg.maxTokens then cfg.chunkSize + StepOf(cfg) else cfg.chunkSize + 1;
    var words := MarkedWords(n);
    assert Calm(words);
    var first, next := SlideHead(words, 0, 0, isCode, cfg);
    var pieces := Slide(words, 0, 0, isCode, cfg);
    if StepOf(cfg) < n {
      var second, last := SlideHead(words, StepOf(cfg), next, isCode, cfg);
      forall k | 0 <= k < |pieces| ensures EndsEarly(words, pieces[k].text) {
        assert pieces[k] == first || pieces[k] == second;
      }
    } else {
      NothingToSlide(words, StepOf(cfg), next, isCode, cfg);
      forall k | 0 <= k < |pieces| ensures EndsEarly(words, pieces[k].text) {
        assert pieces[k] == first;
      }
    }
    UncoveredLast(words, Texts(pieces), slack);
  }

  /**
    For every configuration, of prose and of code, no text longer than a chunk
    loses a word exactly when the configuration meets the conditions.
  */
  lemma LosslessExactly(isCode: bool, cfg: Config)
    ensures (forall words | AllWords(words) && |words| > cfg.chunkSize ::
               Covers(words, Texts(Slide(words, 0, 0, isCode, cfg)), 0, |words|, StepBack(cfg))) <==> Lossless(cfg)
  {
    hide Slide, Covers, MarkedWords, Texts, AllWords, StepBack;
    if Lossless(cfg) {
      forall words | AllWords(words) && |words| > cfg.chunkSize
        ensures Covers(words, Texts(Slide(words, 0, 0, isCode, cfg)), 0, |words|, StepBack(cfg))
      {
        LongTextsKeepEveryWord(words, 0, isCode, cfg);
      }
    } else {
      var n := LossyLosesAWord(isCode, cfg, StepBack(cfg));
      assert AllWords(MarkedWords(n)) && |MarkedWords(n)| == n;
    }
  }

  // ---------- snapping ----------

  /**
    A window of at least half the look-ahead never moves its end: the limit is
    compared with the length of the whole window, not with what is added to it.
  */
  lemma LongWindowsNeverSnap(words: seq<string>, start: nat, isCode: bool, cfg: Config)
    requires start <= |words| && Min(cfg.chunkSize, cfg.maxTokens) >= MaxLookahead(cfg.overlap) / 2
    ensures WindowSize(words, start, isCode, cfg) == Min(Min(cfg.chunkSize, |words| - start), cfg.maxTokens)
  {
  }

  lemma DefaultsNeverSnap(words: seq<string>, start: nat, isCode: bool)
    requires start <= |words|
    ensures WindowSize(words, start, isCode, DEFAULT_CONFIG) == Min(512, |words| - start)
  {
    LongWindowsNeverSnap(words, start, isCode, DEFAULT_CONFIG);
  }

  lemma {:induction false} FirstBoundary(text: string, from: nat, p: nat)
    requires 0 < p < |text| && from <= p && text[p - 1] in ".!?" && IsSpace(text[p])
    requires forall i | 0 <= i < p - 1 :: text[i] !in ".!?"
    ensures SentenceEnd(text, from) == Some(p)
    decreases p - from
  {
    if from < p {
      FirstBoundary(text, from + 1, p);
    }
  }

  lemma {:induction false} JoinSnoc(ws: seq<string>, w: string)
    requires ws != []
    ensures Join(ws + [w]) == Join(ws) + " " + w
  {
    if |ws| == 1 {
      assert (ws + [w])[1..] == [w];
    } else {
      JoinSnoc(ws[1..], w);
      assert (ws + [w])[1..] == ws[1..] + [w];
    }
  }

  /** `k` times the word "a". */
  function Plain(k: nat): (ws: seq<string>)
    ensures |ws| == k && AllWords(ws)
  {
    seq(k, _ => "a")
  }

  lemma {:induction false} PlainJoin(k: nat)
    ensures forall c | c in Join(Plain(k)) :: c !in ".!?"
  {
    if k > 1 {
      PlainJoin(k - 1);
      JoinSnoc(Plain(k - 1), "a");
      assert Plain(k) == Plain(k - 1) + ["a"];
    } else if k == 1 {
      assert Join(Plain(1)) == "a";
    }
  }

  /** A sentence that ends one word behind the window. */
  lemma SentenceBehind(size: nat) returns (words: seq<string>, text: string)
    ensures AllWords(words) && |words| == size + 2
    ensures Join(words) == text + " a" && Split(text) == words[..size + 1] && text != "" && text[|text| - 1] == '.'
    ensures forall i | 0 <= i < |text| - 1 :: text[i] !in ".!?"
  {
    var front := Plain(size) + ["a."];
    words, text := front + ["a"], Join(front);
    assert IsWord("a") && IsWord("a.");
    JoinSnoc(front, "a");
    SplitJoin(front);
    assert words[..size + 1] == front;
    PlainJoin(size);
    if size == 0 {
      assert front == ["a."];
    } else {
      JoinSnoc(Plain(size), "a.");
    }
  }

  /** Snapping can move the end of a window exactly when the window is shorter than half the look-ahead. */
  lemma SnapMovesExactly(size: nat, overlap: int)
    ensures (exists words | AllWords(words) && size <= |words| :: SnappedSize(words, 0, size, overlap) > size)
            <==> size < MaxLookahead(overlap) / 2
  {
    if size < MaxLookahead(overlap) / 2 {
      var words, text := SentenceBehind(size);
      hide Split, Join, AllWords, SentenceEnd;
      var all := text + " a";
      assert words[0..size + 2] == words;
      assert all[|text|] == ' ' && all[..|text|] == text;
      assert forall i | 0 <= i < |text| :: all[i] == text[i];
      FirstBoundary(all, 0, |text|);
      assert SnappedSize(words, 0, size, overlap) > size;
    }
  }

  // ---------- the final filter ----------

  /** A chunk object, whose index is set in place. */
  class ChunkObject {
    const text: string
    var chunkIndex: nat

    constructor (text: string, chunkIndex: nat)
      ensures this.text == text && this.chunkIndex == chunkIndex
    {
      this.text, this.chunkIndex := text, chunkIndex;
    }
  }

  /** The chunks with enough tokens, in order. */
  function Large(chunks: seq<ChunkObject>, tokens: string -> int, minTokens: int): (large: seq<ChunkObject>)
    ensures forall c | c in large :: c in chunks && tokens(c.text) >= minTokens
    ensures forall c | c in chunks && tokens(c.text) >= minTokens :: c in large
    ensures (forall i, j | 0 <= i < j < |chunks| :: chunks[i] != chunks[j]) ==>
              forall i, j | 0 <= i < j < |large| :: large[i] != large[j]
  {
    if chunks == [] then []
    else
      var last := chunks[|chunks| - 1];
      Large(chunks[..|chunks| - 1], tokens, minTokens) + if tokens(last.text) < minTokens then [] else [last]
  }

  lemma {:induction false} LargeOfSum(a: seq<ChunkObject>, b: seq<ChunkObject>, tokens: string -> int, minTokens: int)
    ensures Large(a + b, tokens, minTokens) == Large(a, tokens, minTokens) + Large(b, tokens, minTokens)
  {
    if b == [] {
      assert a + b == a;
    } else {
      var front, last := b[..|b| - 1], b[|b| - 1];
      assert (a + b)[..|a + b| - 1] == a + front && (a + b)[|a + b| - 1] == last;
      LargeOfSum(a, front, tokens, minTokens);
    }
  }

  /** Each chunk is kept or left out by itself, between what is kept of those before it and of those behind it. */
  lemma LargeKeepsOrder(chunks: seq<ChunkObject>, k: nat, tokens: string -> int, minTokens: int)
    requires k < |chunks|
    ensures Large(chunks, tokens, minTokens) ==
              Large(chunks[..k], tokens, minTokens)
              + (if tokens(chunks[k].text) >= minTokens then [chunks[k]] else [])
              + Large(chunks[k + 1..], tokens, minTokens)
  {
    assert chunks == chunks[..k + 1] + chunks[k + 1..] && chunks[..k + 1][..k] == chunks[..k];
    LargeOfSum(chunks[..k + 1], chunks[k + 1..], tokens, minTokens);
  }

  method FilterAndFinalize(chunks: seq<ChunkObject>, tokens: string -> int, minTokens: int)
    returns (result: seq<ChunkObject>)
    requires forall i, j | 0 <= i < j < |chunks| :: chunks[i] != chunks[j]
    modifies chunks
    ensures result == Large(chunks, tokens, minTokens)
    ensures forall i | 0 <= i < |result| :: result[i].chunkIndex == i
    ensures forall c | c in chunks && c !in result :: c.chunkIndex == old(c.chunkIndex)
  {
    result := [];
    for i := 0 to |chunks|
      invariant result == Large(chunks[..i], tokens, minTokens)
    {
      assert chunks[..i + 1][..i] == chunks[..i];
      if tokens(chunks[i].text) >= minTokens {
        result := result + [chunks[i]];
      }
    }
    assert chunks[..|chunks|] == chunks;
    for i := 0 to |result|
      invariant forall k | 0 <= k < i :: result[k].chunkIndex == k
      invariant forall c | c in chunks && c !in result :: c.chunkIndex == old(c.chunkIndex)
    {
      assert result[i] in result;
      result[i].chunkIndex := i;
    }
  }
}
