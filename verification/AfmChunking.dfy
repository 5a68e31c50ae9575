/**
  Splitting a text field to fit the model's context window, and calling the model
  once per piece (src/minni/afm_chunking.py): sliding windows over words with
  sentence snapping, and recursive re-splitting of pieces that still overflow.
*/
module AfmChunking {
  import opened WordIntervals
  import opened Words
  import opened Wrappers

  const MIN_CHUNK_TOKENS := 200
  const DEFAULT_CHUNK_TOKENS := 2400
  const SENTENCE_SNAP_LOOKAHEAD_WORDS := 20

  // ---------- one split ----------

  /** The words up to the first sentence end in the look-ahead. */
  function ExtraWords(lookahead: seq<string>): seq<string> {
    var text := Join(lookahead);
    match SentenceEnd(text, 0)
    case None => []
    case Some(p) => Split(text[..p + 1])
  }

  /** `words[i:j]`: a negative bound counts from the end, one out of range is clipped. */
  function Slice(words: seq<string>, i: int, j: int): seq<string> {
    var lo := if i < 0 then Max(|words| + i, 0) else Min(i, |words|);
    var hi := if j < 0 then Max(|words| + j, 0) else Min(j, |words|);
    if lo <= hi then words[lo..hi] else []
  }

  /** What the window that starts at `lo` takes from behind its plain end. */
  function Extra(words: seq<string>, chunk: int, lo: nat): seq<string> {
    var end := Min(lo + chunk, |words|);
    if end < |words| then ExtraWords(Slice(words, end, end + SENTENCE_SNAP_LOOKAHEAD_WORDS)) else []
  }

  /** The words of the window that starts at `lo`. */
  function Window(words: seq<string>, chunk: int, lo: nat): seq<string> {
    Slice(words, lo, Min(lo + chunk, |words|)) + Extra(words, chunk, lo)
  }

  /** The pieces the window loop still produces from `lo` on; a blank one is left out. */
  function Windows(words: seq<string>, chunk: int, step: nat, lo: nat): seq<string>
    requires 1 <= step
    decreases |words| - lo
  {
    if lo >= |words| then []
    else
      var text := Join(Window(words, chunk, lo));
      (if Split(text) == [] then [] else [text]) +
      (if Min(lo + chunk, |words|) + |Extra(words, chunk, lo)| >= |words| then []
       else Windows(words, chunk, step, lo + step))
  }

  function Pieces(text: string, chunk: int, overlap: int, tokens: string -> nat): seq<string> {
    var words := Split(text);
    if words == [] || tokens(text) <= chunk then [text]
    else
      var pieces := Windows(words, chunk, Max(chunk - overlap, 1), 0);
      if pieces == [] then [text] else pieces
  }

  method SnappedWindow(words: seq<string>, chunk: int, start: nat) returns (windowWords: seq<string>, end: int)
    requires start < |words|
    ensures windowWords == Window(words, chunk, start)
    ensures end == Min(start + chunk, |words|) + |Extra(words, chunk, start)|
  {
    hide Split, Join, SentenceEnd;
    var n := |words|;
    end := Min(start + chunk, n);
    windowWords := Slice(words, start, end);
    if end < n {
      var lookaheadText := Join(Slice(words, end, end + SENTENCE_SNAP_LOOKAHEAD_WORDS));
      var found := SentenceEnd(lookaheadText, 0);
      if found.Some? {
        var extraWords := Split(lookaheadText[..found.value + 1]);
        windowWords := windowWords + extraWords;
        end := end + |extraWords|;
      }
    }
  }

  lemma WindowsStep(words: seq<string>, chunk: int, step: nat, lo: nat)
    requires lo < |words| && 1 <= step
    ensures var text := Join(Window(words, chunk, lo));
            Windows(words, chunk, step, lo) == (if Split(text) == [] then [] else [text]) +
              if Min(lo + chunk, |words|) + |Extra(words, chunk, lo)| >= |words| then []
              else Windows(words, chunk, step, lo + step)
  {
    hide Window, Join, Extra;
  }

  method SplitText(text: string, chunk: int, overlap: int, tokens: string -> nat) returns (chunks: seq<string>)
    ensures chunks == Pieces(text, chunk, overlap, tokens)
  {
    hide Split, Join, AllWords, Windows, Window, Extra;
    var words := Split(text);
    if words == [] || tokens(text) <= chunk {
      return [text];
    }
    var step := Max(chunk - overlap, 1);
    ghost var all := Windows(words, chunk, step, 0);
    chunks := [];
    var start, n := 0, |words|;
    while start < n
      invariant start < n ==> chunks + Windows(words, chunk, step, start) == all
      invariant start >= n ==> chunks == all
      decreases n - start
    {
      var windowWords, end := SnappedWindow(words, chunk, start);
      ghost var before, rest := chunks, Windows(words, chunk, step, start + step);
      WindowsStep(words, chunk, step, start);
      var chunkText := Join(windowWords);
      if Split(chunkText) != [] {
        chunks := chunks + [chunkText];
        assert chunks + rest == before + ([chunkText] + rest);
      }
      if end >= n {
        assert chunks == all;
        break;
      }
      assert chunks + rest == all;
      start := start + step;
      if start >= n {
        NoMoreWindows(words, chunk, step, start);
      }
    }
    if chunks == [] {
      chunks := [text];
    }
  }

  lemma NoMoreWindows(words: seq<string>, chunk: int, step: nat, lo: nat)
    requires lo >= |words| && 1 <= step
    ensures Windows(words, chunk, step, lo) == []
  {
  }

  /** What snapping adds are the next words, fewer than the look-ahead has. */
  lemma ExtraIsNext(words: seq<string>, chunk: nat, lo: nat)
    requires AllWords(words) && lo < |words|
    ensures var end, extra := Min(lo + chunk, |words|), Extra(words, chunk, lo);
            && |extra| < SENTENCE_SNAP_LOOKAHEAD_WORDS && end + |extra| <= |words|
            && extra == words[end..end + |extra|]
  {
    hide IsWord, Split, Join, SentenceEnd;
    var end := Min(lo + chunk, |words|);
    if end < |words| {
      var lookahead := words[end..Min(end + SENTENCE_SNAP_LOOKAHEAD_WORDS, |words|)];
      assert Slice(words, end, end + SENTENCE_SNAP_LOOKAHEAD_WORDS) == lookahead;
      match SentenceEnd(Join(lookahead), 0)
      case None =>
      case Some(p) =>
        CutAtSpace(lookahead, p);
        var extra := ExtraWords(lookahead);
        assert lookahead[..|extra|] == extra;
    }
  }

  /**
    What snapping adds ends with the first word of the look-ahead that ends a
    sentence, the last one of it left out of account; without one, nothing is added.
  */
  lemma SnapsToFirstSentence(words: seq<string>, chunk: nat, lo: nat)
    requires AllWords(words) && lo < |words|
    ensures var end, added := Min(lo + chunk, |words|), |Extra(words, chunk, lo)|;
            var reach := Min(end + SENTENCE_SNAP_LOOKAHEAD_WORDS, |words|);
            && (added > 0 ==> end + added < reach && EndsSentence(words[end + added - 1]))
            && forall k | end <= k < (if added > 0 then end + added else reach) - 1 :: !EndsSentence(words[k])
  {
    hide IsWord, Split, Join, SentenceEnd, EndsSentence;
    var end := Min(lo + chunk, |words|);
    if end < |words| {
      var ahead := words[end..Min(end + SENTENCE_SNAP_LOOKAHEAD_WORDS, |words|)];
      assert Slice(words, end, end + SENTENCE_SNAP_LOOKAHEAD_WORDS) == ahead;
      assert Extra(words, chunk, lo) == ExtraWords(ahead);
      ExtraIsFirstSentence(ahead);
      assert forall k | end <= k < end + |ahead| :: words[k] == ahead[k - end];
    }
  }

  lemma ExtraIsFirstSentence(ahead: seq<string>)
    requires AllWords(ahead)
    ensures var added := |ExtraWords(ahead)|;
            && (added > 0 ==> added < |ahead| && EndsSentence(ahead[added - 1]))
            && forall k | 0 <= k < (if added > 0 then added else |ahead|) - 1 :: !EndsSentence(ahead[k])
  {
    hide IsWord, Split, Join, SentenceEnd, EndsSentence;
    var text := Join(ahead);
    SentenceEndIsFirst(text, 0);
    var m := 0;
    if SentenceEnd(text, 0).Some? {
      var p := SentenceEnd(text, 0).value;
      m := SentenceInWords(ahead, p);
      assert text[..p + 1] == Join(ahead[..m]) + " " by { JoinOfParts(ahead, m); }
      SplitJoinSpace(ahead[..m]);
    }
    forall k | 0 <= k < (if m > 0 then m else |ahead|) - 1 ensures !EndsSentence(ahead[k]) {
      if EndsSentence(ahead[k]) {
        WordsInSentence(ahead, k + 1);
        if m > 0 {
          JoinGrows(ahead, k + 1, m);
        }
      }
    }
  }

  /** A window is an interval of the words: at most the chunk size and a look-ahead long, and all of it near the end. */
  lemma WindowIsInterval(words: seq<string>, chunk: nat, lo: nat)
    requires AllWords(words)
    requires lo < |words| && 1 <= chunk
    ensures var hi := lo + |Window(words, chunk, lo)|;
            && Min(lo + chunk, |words|) <= hi <= |words|
            && hi < lo + chunk + SENTENCE_SNAP_LOOKAHEAD_WORDS
            && Window(words, chunk, lo) == words[lo..hi]
            && hi == Min(lo + chunk, |words|) + |Extra(words, chunk, lo)|
  {
    hide AllWords, Extra;
    ExtraIsNext(words, chunk, lo);
    var end := Min(lo + chunk, |words|);
    assert Slice(words, lo, end) == words[lo..end];
  }

  lemma WindowJoins(words: seq<string>, chunk: nat, lo: nat)
    requires AllWords(words) && lo < |words| && 1 <= chunk
    ensures Split(Join(Window(words, chunk, lo))) == Window(words, chunk, lo)
  {
    hide IsWord;
    hide Split;
    hide Join;
    WindowIsInterval(words, chunk, lo);
    SplitJoin(Window(words, chunk, lo));
  }

  /** With a chunk size of at least one, no window is blank. */
  lemma WindowsUnfold(words: seq<string>, chunk: nat, step: nat, lo: nat)
    requires AllWords(words) && lo < |words| && 1 <= chunk && 1 <= step
    ensures var window := Window(words, chunk, lo);
            Windows(words, chunk, step, lo) == [Join(window)] +
              if lo + |window| >= |words| then [] else Windows(words, chunk, step, lo + step)
  {
    hide Split, Join, AllWords, Window, Extra, Windows;
    WindowIsInterval(words, chunk, lo);
    WindowJoins(words, chunk, lo);
    WindowsStep(words, chunk, step, lo);
  }

  /** So a text that is split at all is split into the windows. */
  lemma PiecesAreWindows(text: string, chunk: nat, overlap: int, tokens: string -> nat)
    requires 1 <= chunk && Split(text) != [] && tokens(text) > chunk
    ensures Pieces(text, chunk, overlap, tokens) == Windows(Split(text), chunk, Max(chunk - overlap, 1), 0)
  {
    hide Split, Join, AllWords, Window, Extra, Windows;
    WindowsUnfold(Split(text), chunk, Max(chunk - overlap, 1), 0);
  }

  // ---------- one split leaves no word out ----------

  lemma {:induction false} WindowsCover(words: seq<string>, chunk: nat, step: nat, lo: nat, at: nat, slack: nat)
    requires AllWords(words)
    requires 1 <= step <= chunk && lo < |words| && lo <= at <= |words|
    requires slack == chunk - step + SENTENCE_SNAP_LOOKAHEAD_WORDS && at <= lo + slack
    ensures Covers(words, Windows(words, chunk, step, lo), at, |words|, slack)
    decreases |words| - lo
  {
    hide Split, Join, AllWords, Window, Windows, Extra;
    hide Covers;
    var window := Window(words, chunk, lo);
    var hi := lo + |window|;
    WindowIsInterval(words, chunk, lo);
    WindowJoins(words, chunk, lo);
    WindowsUnfold(words, chunk, step, lo);
    var rest := if hi >= |words| then [] else Windows(words, chunk, step, lo + step);
    if hi < |words| {
      WindowsCover(words, chunk, step, lo + step, Max(at, hi), slack);
    } else {
      CoversNothing(words, |words|, slack);
    }
    CoversCons(words, Join(window), rest, lo, hi, at, |words|, slack);
  }

  /** How far back a piece may start: the overlap and the sentence look-ahead. */
  function StepBack(chunk: int, overlap: int): nat {
    Max(Min(overlap, chunk - 1), 0) + SENTENCE_SNAP_LOOKAHEAD_WORDS
  }

  /**
    With an overlap of at least zero, one split loses no word of the text and no
    piece starts further back than that.
  */
  lemma PiecesCover(text: string, chunk: nat, overlap: nat, tokens: string -> nat)
    requires 1 <= chunk
    ensures Covers(Split(text), Pieces(text, chunk, overlap, tokens), 0, |Split(text)|, StepBack(chunk, overlap))
  {
    var words := Split(text);
    if words == [] || tokens(text) <= chunk {
      CoversItself(text, StepBack(chunk, overlap));
    } else {
      hide Windows, Covers, Split;
      PiecesAreWindows(text, chunk, overlap, tokens);
      WindowsCover(words, chunk, Max(chunk - overlap, 1), 0, 0, StepBack(chunk, overlap));
    }
  }

  // ---------- what a split loses otherwise ----------

  lemma CalmExtra(words: seq<string>, chunk: int, lo: nat)
    requires Calm(words)
    ensures Extra(words, chunk, lo) == []
  {
    hide Join, SentenceEnd;
    var end := Min(lo + chunk, |words|);
    if end < |words| {
      var lookahead := Slice(words, end, end + SENTENCE_SNAP_LOOKAHEAD_WORDS);
      CalmJoin(lookahead);
      NoSentenceEnd(Join(lookahead), 0);
    }
  }

  /** A text that is an interval of the words other than the last. */
  lemma SliceEndsEarly(words: seq<string>, lo: nat, hi: nat)
    requires AllWords(words) && lo <= hi < |words|
    ensures EndsEarly(words, Join(words[lo..hi]))
  {
    SplitJoin(words[lo..hi]);
    assert IsInterval(words, Join(words[lo..hi]), lo, hi);
  }

  /** With a negative chunk size a window stops short of the last word, or is blank. */
  lemma NegativeWindow(words: seq<string>, chunk: int, lo: nat)
    requires AllWords(words) && Calm(words) && chunk < 0 && lo < |words|
    ensures var text := Join(Window(words, chunk, lo)); Split(text) == [] || EndsEarly(words, text)
  {
    hide Extra, EndsEarly, Split, Join, AllWords;
    var hi := if lo + chunk < 0 then Max(|words| + lo + chunk, 0) else lo + chunk;
    CalmExtra(words, chunk, lo);
    assert Window(words, chunk, lo) == if lo <= hi then words[lo..hi] else [];
    if lo <= hi {
      SliceEndsEarly(words, lo, hi);
    } else {
      NothingJoined();
    }
  }

  lemma {:induction false} NegativeWindows(words: seq<string>, chunk: int, step: nat, lo: nat)
    requires AllWords(words) && Calm(words) && chunk < 0 && 1 <= step
    ensures forall t | t in Windows(words, chunk, step, lo) :: EndsEarly(words, t)
    decreases |words| - lo
  {
    hide Extra, EndsEarly, Split, Join, AllWords, Window, Calm;
    if lo < |words| {
      NegativeWindow(words, chunk, lo);
      NegativeWindows(words, chunk, step, lo + step);
      WindowsStep(words, chunk, step, lo);
    } else {
      NoMoreWindows(words, chunk, step, lo);
    }
  }

  lemma NothingJoined()
    ensures Split(Join([])) == []
  {
  }

  /** The first window of a negative chunk size. */
  lemma NegativeWindowsExist(words: seq<string>, chunk: int, step: nat)
    requires AllWords(words) && Calm(words) && chunk < 0 && 1 <= step && |words| + chunk >= 1
    ensures Windows(words, chunk, step, 0) != []
  {
    hide Extra, Split, Join;
    CalmExtra(words, chunk, 0);
    assert Window(words, chunk, 0) == words[0..|words| + chunk];
    SplitJoin(words[0..|words| + chunk]);
  }

  const SENTENCE_THEN_WORD := ["a.", "b"]

  /** With a chunk size of zero a window holds nothing but what snapping adds: here the sentence, then nothing. */
  lemma ZeroWindow()
    ensures AllWords(SENTENCE_THEN_WORD)
    ensures Extra(SENTENCE_THEN_WORD, 0, 0) == ["a."] && Window(SENTENCE_THEN_WORD, 0, 0) == ["a."]
    ensures Join(["a."]) == "a." && Split("a.") == ["a."]
  {
    var words := SENTENCE_THEN_WORD;
    assert IsWord("a.") && IsWord("b") && AllWords(words);
    assert Join(words) == "a. b" by { assert words[1..] == ["b"]; }
    assert SentenceEnd("a. b", 0) == Some(2) by {
      assert SentenceEnd("a. b", 2) == Some(2);
      assert SentenceEnd("a. b", 1) == SentenceEnd("a. b", 2);
    }
    assert "a. b"[..3] == "a. " && Split("a. ") == ["a."] by {
      SplitFirstWord("a.", " ");
      assert "a." + " " == "a. " && " "[1..] == "";
    }
    assert Slice(words, 0, 20) == words;
    SplitJoin(["a."]);
  }

  lemma ZeroWindowAfter()
    ensures Extra(SENTENCE_THEN_WORD, 0, 1) == [] && Window(SENTENCE_THEN_WORD, 0, 1) == []
  {
    assert Slice(SENTENCE_THEN_WORD, 1, 21) == ["b"] && Join(["b"]) == "b";
    NoSentenceEnd("b", 0);
  }

  lemma ZeroWindows(step: nat)
    requires 1 <= step
    ensures Windows(SENTENCE_THEN_WORD, 0, step, 0) == ["a."]
  {
    ZeroWindow();
    ZeroWindowAfter();
    NothingJoined();
    hide Extra, Window, Split, Join, Windows;
    WindowsStep(SENTENCE_THEN_WORD, 0, step, 0);
    if step == 1 {
      WindowsStep(SENTENCE_THEN_WORD, 0, step, 1);
      NoMoreWindows(SENTENCE_THEN_WORD, 0, step, 2);
    } else {
      NoMoreWindows(SENTENCE_THEN_WORD, 0, step, step);
    }
  }

  /** With an overlap below zero, the word between the first window and the second is lost. */
  lemma GapLosesAWord(chunk: nat, overlap: int)
    requires 1 <= chunk && overlap < 0
    ensures var words := MarkedWords(chunk + 1);
            Windows(words, chunk, Max(chunk - overlap, 1), 0) == [Join(words[0..chunk])]
            && EndsEarly(words, Join(words[0..chunk]))
  {
    var words := MarkedWords(chunk + 1);
    hide MarkedWords, Split, Join, Windows, Extra, EndsEarly, AllWords;
    CalmExtra(words, chunk, 0);
    assert Window(words, chunk, 0) == words[0..chunk];
    WindowsUnfold(words, chunk, chunk - overlap, 0);
    NoMoreWindows(words, chunk, chunk - overlap, chunk - overlap);
    SliceEndsEarly(words, 0, chunk);
  }

  /** A text that loses a word, for every other chunk size and overlap. */
  lemma LossySplit(chunk: int, overlap: int, slack: nat) returns (text: string, tokens: string -> nat)
    requires chunk < 1 || overlap < 0
    ensures !Covers(Split(text), Pieces(text, chunk, overlap, tokens), 0, |Split(text)|, slack)
  {
    var step := Max(chunk - overlap, 1);
    var words := if chunk == 0 then SENTENCE_THEN_WORD
      else if chunk < 0 then MarkedWords(1 - chunk) else MarkedWords(chunk + 1);
    assert IsWord("a.") && IsWord("b");
    assert AllWords(words) && LastIsNew(words);
    text, tokens := Join(words), (t: string) => if chunk < 0 then 0 else chunk + 1;
    SplitJoin(words);
    hide MarkedWords, Split, Join, Windows, Covers, EndsEarly, AllWords;
    if chunk == 0 {
      ZeroWindows(step);
      assert words[0..1] == ["a."];
      SliceEndsEarly(words, 0, 1);
      assert Join(["a."]) == "a." by { JoinOne("a."); }
    } else if chunk < 0 {
      NegativeWindows(words, chunk, step, 0);
      NegativeWindowsExist(words, chunk, step);
    } else {
      GapLosesAWord(chunk, overlap);
    }
    UncoveredLast(words, Pieces(text, chunk, overlap, tokens), slack);
  }

  lemma JoinOne(w: string)
    ensures Join([w]) == w
  {
  }

  /**
    Exactly which splits lose nothing: for every chunk size and overlap, no word of
    any text is lost, whatever the tokenizer counts, if and only if the chunk size
    is positive and the overlap not negative.
  */
  lemma SplitsLoseNothingExactly(chunk: int, overlap: int)
    ensures (forall text, tokens: string -> nat ::
               Covers(Split(text), Pieces(text, chunk, overlap, tokens), 0, |Split(text)|, StepBack(chunk, overlap)))
            <==> chunk >= 1 && overlap >= 0
  {
    hide Split, Pieces, Covers, StepBack;
    if chunk >= 1 && overlap >= 0 {
      forall text, tokens: string -> nat
        ensures Covers(Split(text), Pieces(text, chunk, overlap, tokens), 0, |Split(text)|, StepBack(chunk, overlap))
      {
        PiecesCover(text, chunk, overlap, tokens);
      }
    } else {
      var text, tokens := LossySplit(chunk, overlap, StepBack(chunk, overlap));
    }
  }

  // ---------- how many pieces ----------

  function EffectiveOverlap(chunk: nat, overlap: int): (r: nat)
    ensures overlap <= 0 ==> r == 0
    ensures overlap >= 0 ==> r <= overlap && (r == overlap || r == chunk / 4)
    ensures r <= chunk / 4
    ensures 4 * (chunk - r) >= 3 * chunk
  {
    Max(Min(overlap, chunk / 4), 0)
  }

  lemma {:induction false} WindowCount(words: seq<string>, chunk: nat, step: nat, lo: nat)
    requires AllWords(words)
    requires 1 <= chunk && 1 <= step && lo < |words|
    ensures var k := |Windows(words, chunk, step, lo)|;
            k >= 2 ==> lo + (k - 2) * step + chunk < |words|
    decreases |words| - lo
  {
    hide Split, Join, AllWords, Window, Windows, Extra;
    WindowIsInterval(words, chunk, lo);
    WindowsUnfold(words, chunk, step, lo);
    var k := |Windows(words, chunk, step, lo)|;
    if lo + step >= |words| {
      NoMoreWindows(words, chunk, step, lo + step);
    } else if k >= 3 {
      WindowCount(words, chunk, step, lo + step);
      assert (k - 2) * step == (k - 3) * step + step;
    }
  }

  lemma FewWindows(k: nat, chunk: nat, step: nat, n: nat)
    requires 4 * step >= 3 * chunk
    requires k >= 2 ==> (k - 2) * step + chunk < n
    ensures k >= 2 ==> 3 * (k - 2) * chunk < 4 * (n - chunk)
  {
    if k >= 2 {
      assert (k - 2) * (4 * step) >= (k - 2) * (3 * chunk);
      assert (k - 2) * (4 * step) == 4 * ((k - 2) * step);
      assert (k - 2) * (3 * chunk) == 3 * (k - 2) * chunk;
    }
  }

  /**
    With the clamped overlap every window after the first starts at least three
    quarters of a chunk later, which bounds the number of pieces.
  */
  lemma PieceCount(text: string, chunk: nat, overlap: int, tokens: string -> nat)
    requires 1 <= chunk
    ensures var k, n := |Pieces(text, chunk, EffectiveOverlap(chunk, overlap), tokens)|, |Split(text)|;
            k >= 1 && (k >= 2 ==> 3 * (k - 2) * chunk < 4 * (n - chunk))
  {
    hide Window, Join, Split, Windows, Extra;
    var words := Split(text);
    var step := chunk - EffectiveOverlap(chunk, overlap);
    if words != [] && tokens(text) > chunk {
      PiecesAreWindows(text, chunk, EffectiveOverlap(chunk, overlap), tokens);
      WindowCount(words, chunk, step, 0);
      FewWindows(|Windows(words, chunk, step, 0)|, chunk, step, |words|);
    }
  }

  // ---------- recursive calling ----------

  datatype Reply = Reply(ok: bool, contextOverflow: bool)

  predicate Trips(r: Reply) { !r.ok && r.contextOverflow }

  /**
    One request: the text of its field, the model's answer, and the chunk size of
    the split the text is a piece of, if it was asked as a piece at all.
  */
  datatype Call = Call(text: string, reply: Reply, size: Option<nat>)

  function Texts(calls: seq<Call>): (texts: seq<string>)
    ensures |texts| == |calls| && forall i | 0 <= i < |calls| :: texts[i] == calls[i].text
  {
    seq(|calls|, i requires 0 <= i < |calls| => calls[i].text)
  }

  /**
    The tokenizer, the estimated size of the payload with a text in its field or
    without the field, and what the model answers to its t-th request.
  */
  datatype Env = Env(tokens: string -> nat, estimate: Option<string> -> int, native: (nat, string) -> Reply)

  /** The next request after those in the log. */
  function Ask(env: Env, text: string, size: Option<nat>, log: seq<Call>): Call {
    Call(text, env.native(|log|, text), size)
  }

  /** The results of `_chunk_and_call`, and the log of all requests made so far. */
  function ChunkAndCall(env: Env, text: string, chunk: int, overlap: int, log: seq<Call>): (seq<Call>, seq<Call>)
    decreases chunk, 2, 0
  {
    var whole := Ask(env, text, None, log);
    if Split(text) == [] || chunk < MIN_CHUNK_TOKENS then ([whole], log + [whole])
    else
      var pieces := Pieces(text, chunk, EffectiveOverlap(chunk, overlap), env.tokens);
      if |pieces| > 1 then CallPieces(env, pieces, chunk, overlap, log)
      else if chunk <= MIN_CHUNK_TOKENS then ([whole], log + [whole])
      else ChunkAndCall(env, text, Max(chunk / 2, MIN_CHUNK_TOKENS), overlap, log)
  }

  function CallPieces(env: Env, pieces: seq<string>, chunk: int, overlap: int, log: seq<Call>): (seq<Call>, seq<Call>)
    requires MIN_CHUNK_TOKENS <= chunk
    decreases chunk, 1, |pieces|
  {
    if pieces == [] then ([], log)
    else
      var (first, mid) := CallPiece(env, pieces[0], chunk, overlap, log);
      var (rest, after) := CallPieces(env, pieces[1..], chunk, overlap, mid);
      (first + rest, after)
  }

  function CallPiece(env: Env, piece: string, chunk: int, overlap: int, log: seq<Call>): (seq<Call>, seq<Call>)
    requires MIN_CHUNK_TOKENS <= chunk
    decreases chunk, 0, 0
  {
    var call := Ask(env, piece, Some(chunk), log);
    if Trips(call.reply) && chunk > MIN_CHUNK_TOKENS
    then ChunkAndCall(env, piece, Max(chunk / 2, MIN_CHUNK_TOKENS), overlap, log + [call])
    else ([call], log + [call])
  }

  method ChunkAndCallInOrder(env: Env, text: string, chunk: int, overlap: int, log: seq<Call>)
    returns (results: seq<Call>, after: seq<Call>)
    ensures (results, after) == ChunkAndCall(env, text, chunk, overlap, log)
    decreases chunk, 2
  {
    hide Split, Pieces, CallPieces;
    if Split(text) == [] || chunk < MIN_CHUNK_TOKENS {
      var whole := Ask(env, text, None, log);
      return [whole], log + [whole];
    }
    var pieces := SplitText(text, chunk, EffectiveOverlap(chunk, overlap), env.tokens);
    if |pieces| <= 1 {
      if chunk <= MIN_CHUNK_TOKENS {
        var whole := Ask(env, text, None, log);
        return [whole], log + [whole];
      }
      results, after := ChunkAndCallInOrder(env, text, Max(chunk / 2, MIN_CHUNK_TOKENS), overlap, log);
      return;
    }
    results, after := CallPiecesInOrder(env, pieces, chunk, overlap, log);
  }

  lemma CallPiecesStep(env: Env, pieces: seq<string>, i: nat, chunk: int, overlap: int, log: seq<Call>)
    requires MIN_CHUNK_TOKENS <= chunk && i < |pieces|
    ensures var (first, mid) := CallPiece(env, pieces[i], chunk, overlap, log);
            var (rest, after) := CallPieces(env, pieces[i + 1..], chunk, overlap, mid);
            CallPieces(env, pieces[i..], chunk, overlap, log) == (first + rest, after)
  {
    hide CallPiece;
    assert pieces[i..][0] == pieces[i] && pieces[i..][1..] == pieces[i + 1..];
  }

  method CallPiecesInOrder(env: Env, pieces: seq<string>, chunk: int, overlap: int, log: seq<Call>)
    returns (results: seq<Call>, after: seq<Call>)
    requires MIN_CHUNK_TOKENS <= chunk
    ensures (results, after) == CallPieces(env, pieces, chunk, overlap, log)
    decreases chunk, 1
  {
    hide CallPieces, ChunkAndCall;
    results, after := [], log;
    ghost var all := CallPieces(env, pieces, chunk, overlap, log);
    assert pieces[0..] == pieces && [] + all.0 == all.0;
    for i := 0 to |pieces|
      invariant var todo := CallPieces(env, pieces[i..], chunk, overlap, after);
                results + todo.0 == all.0 && todo.1 == all.1
    {
      CallPiecesStep(env, pieces, i, chunk, overlap, after);
      ghost var before, one := results, CallPiece(env, pieces[i], chunk, overlap, after);
      ghost var rest := CallPieces(env, pieces[i + 1..], chunk, overlap, one.1);
      var piece := pieces[i];
      var call := Ask(env, piece, Some(chunk), after);
      after := after + [call];
      if Trips(call.reply) && chunk > MIN_CHUNK_TOKENS {
        var inner;
        inner, after := ChunkAndCallInOrder(env, piece, Max(chunk / 2, MIN_CHUNK_TOKENS), overlap, after);
        results := results + inner;
      } else {
        results := results + [call];
      }
      assert before + (one.0 + rest.0) == results + rest.0;
    }
    NoMorePieces(env, chunk, overlap, after);
    assert pieces[|pieces|..] == [] && results + [] == results;
  }

  lemma NoMorePieces(env: Env, chunk: int, overlap: int, log: seq<Call>)
    requires MIN_CHUNK_TOKENS <= chunk
    ensures CallPieces(env, [], chunk, overlap, log) == ([], log)
  {
  }

  // ---------- which requests are made, and whose answers are returned ----------

  /** A piece that overflowed above the floor: its answer is of no use. */
  predicate Dropped(c: Call) {
    Trips(c.reply) && c.size.Some? && c.size.value > MIN_CHUNK_TOKENS
  }

  /** The requests whose answers are of use, in order. */
  function Kept(calls: seq<Call>): seq<Call> {
    if calls == [] then []
    else (if Dropped(calls[0]) then [] else [calls[0]]) + Kept(calls[1..])
  }

  lemma {:induction false} KeptAreUseful(calls: seq<Call>)
    ensures |Kept(calls)| <= |calls|
    ensures forall c :: c in Kept(calls) <==> c in calls && !Dropped(c)
  {
    hide Dropped;
    if calls != [] {
      KeptAreUseful(calls[1..]);
      assert forall c :: c in calls <==> c == calls[0] || c in calls[1..];
    }
  }

  lemma {:induction false} KeptIfUseful(calls: seq<Call>)
    requires forall c | c in calls :: !Dropped(c)
    ensures Kept(calls) == calls
  {
    hide Dropped;
    if calls != [] {
      KeptIfUseful(calls[1..]);
      assert calls == [calls[0]] + calls[1..];
    }
  }

  lemma {:induction false} KeptOfSum(xs: seq<Call>, ys: seq<Call>)
    ensures Kept(xs + ys) == Kept(xs) + Kept(ys)
  {
    hide Dropped;
    if xs == [] {
      assert xs + ys == ys;
    } else {
      assert (xs + ys)[1..] == xs[1..] + ys;
      KeptOfSum(xs[1..], ys);
    }
  }

  /** Every request from number `from` on is answered by the model's answer to that request. */
  predicate Numbered(env: Env, log: seq<Call>, from: nat) {
    forall k | from <= k < |log| :: log[k].reply == env.native(k, log[k].text)
  }

  /** The requests made since the log was `log`, if it is now `after`. */
  function Since(log: seq<Call>, after: seq<Call>): seq<Call>
    requires log <= after
  {
    after[|log|..]
  }

  lemma SinceOfSum(log: seq<Call>, mid: seq<Call>, after: seq<Call>)
    requires log <= mid <= after
    ensures Since(log, after) == Since(log, mid) + Since(mid, after)
  {
  }

  lemma SinceOne(log: seq<Call>, c: Call)
    ensures Since(log, log + [c]) == [c]
  {
  }

  /**
    No answer is thrown away and none is made up: the results are the requests
    made, in their order, without the pieces that overflowed above the floor; and
    every request is answered under its own number and for its own text.
  */
  lemma {:induction false} ResultsAreKept(env: Env, text: string, chunk: int, overlap: int, log: seq<Call>)
    ensures var (results, after) := ChunkAndCall(env, text, chunk, overlap, log);
            && log < after && results == Kept(Since(log, after)) && results != [] && Numbered(env, after, |log|)
    decreases chunk, 2, 0
  {
    hide Split, Pieces, CallPieces, Since, Kept;
    var whole := Ask(env, text, None, log);
    SinceOne(log, whole);
    KeptOne(whole);
    if Split(text) != [] && chunk >= MIN_CHUNK_TOKENS {
      var pieces := Pieces(text, chunk, EffectiveOverlap(chunk, overlap), env.tokens);
      if |pieces| > 1 {
        PieceResultsAreKept(env, pieces, chunk, overlap, log);
      } else if chunk > MIN_CHUNK_TOKENS {
        ResultsAreKept(env, text, Max(chunk / 2, MIN_CHUNK_TOKENS), overlap, log);
      }
    }
  }

  lemma KeptOne(c: Call)
    ensures Kept([c]) == if Dropped(c) then [] else [c]
  {
    assert [c][1..] == [];
  }

  lemma {:induction false} PieceResultsAreKept(env: Env, pieces: seq<string>, chunk: int, overlap: int, log: seq<Call>)
    requires MIN_CHUNK_TOKENS <= chunk
    ensures var (results, after) := CallPieces(env, pieces, chunk, overlap, log);
            && log <= after && results == Kept(Since(log, after)) && Numbered(env, after, |log|)
            && |log| + |pieces| <= |after| && |pieces| <= |results|
    decreases chunk, 1, |pieces|
  {
    hide ChunkAndCall, Kept, Since;
    if pieces == [] {
      assert Since(log, log) == [] && Kept([]) == [] by { EmptySince(log); }
    } else {
      var call := Ask(env, pieces[0], Some(chunk), log);
      var (first, mid) := CallPiece(env, pieces[0], chunk, overlap, log);
      SinceOne(log, call);
      KeptOne(call);
      if Dropped(call) {
        ResultsAreKept(env, pieces[0], Max(chunk / 2, MIN_CHUNK_TOKENS), overlap, log + [call]);
        SinceOfSum(log, log + [call], mid);
        KeptOfSum([call], Since(log + [call], mid));
      }
      hide CallPiece;
      var (rest, after) := CallPieces(env, pieces[1..], chunk, overlap, mid);
      PieceResultsAreKept(env, pieces[1..], chunk, overlap, mid);
      SinceOfSum(log, mid, after);
      KeptOfSum(Since(log, mid), Since(mid, after));
    }
  }

  lemma EmptySince(log: seq<Call>)
    ensures Since(log, log) == [] && Kept([]) == []
  {
  }

  // ---------- why a text is asked about ----------

  function Half(chunk: nat): nat {
    Max(chunk / 2, MIN_CHUNK_TOKENS)
  }

  /** `chunk` halved `j` times, but never below the floor. */
  function Halved(chunk: nat, j: nat): nat {
    if j == 0 then chunk else Half(Halved(chunk, j - 1))
  }

  function PiecesAt(env: Env, text: string, size: nat, overlap: int): seq<string> {
    Pieces(text, size, EffectiveOverlap(size, overlap), env.tokens)
  }

  /** What a text is first asked about as: the pieces of a split, or itself. */
  datatype Asked = Asked(size: Option<nat>, texts: seq<string>)

  /** The first split with several pieces among `chunk`, its half and so on down to the floor; without one, the text. */
  function First(env: Env, text: string, chunk: int, overlap: int): (r: Asked)
    ensures r.size.Some? ==> MIN_CHUNK_TOKENS <= r.size.value <= chunk
    decreases chunk
  {
    if Split(text) == [] || chunk < MIN_CHUNK_TOKENS then Asked(None, [text])
    else if |PiecesAt(env, text, chunk, overlap)| > 1 then Asked(Some(chunk), PiecesAt(env, text, chunk, overlap))
    else if chunk <= MIN_CHUNK_TOKENS then Asked(None, [text])
    else First(env, text, Half(chunk), overlap)
  }

  /** At every size tried the text is one piece. */
  ghost predicate NeverSplits(env: Env, text: string, chunk: nat, overlap: int, tries: nat) {
    forall j: nat | j < tries :: |PiecesAt(env, text, Halved(chunk, j), overlap)| <= 1
  }

  lemma {:induction false} HalvedOnward(chunk: nat, j: nat)
    ensures Halved(Half(chunk), j) == Halved(chunk, j + 1)
  {
    if j > 0 {
      HalvedOnward(chunk, j - 1);
    }
  }

  lemma {:induction false} HalvedStays(j: nat)
    ensures Halved(MIN_CHUNK_TOKENS, j) == MIN_CHUNK_TOKENS
  {
    if j > 0 {
      HalvedStays(j - 1);
    }
  }

  /** It is the first one indeed, and without one no number of halvings would give one. */
  lemma {:induction false} FirstIsFirst(env: Env, text: string, chunk: nat, overlap: int) returns (j: nat)
    requires Split(text) != [] && chunk >= MIN_CHUNK_TOKENS
    ensures var first := First(env, text, chunk, overlap);
            if first.size.Some? then
              && NeverSplits(env, text, chunk, overlap, j) && first.size.value == Halved(chunk, j)
              && first.texts == PiecesAt(env, text, Halved(chunk, j), overlap) && |first.texts| > 1
            else forall tries: nat :: NeverSplits(env, text, chunk, overlap, tries)
    decreases chunk
  {
    hide Split, PiecesAt, Half;
    j := 0;
    if |PiecesAt(env, text, chunk, overlap)| <= 1 {
      if chunk == MIN_CHUNK_TOKENS {
        forall tries: nat ensures NeverSplits(env, text, chunk, overlap, tries) {
          forall i: nat | i < tries ensures |PiecesAt(env, text, Halved(chunk, i), overlap)| <= 1 {
            HalvedStays(i);
          }
        }
      } else {
        HalfShrinks(chunk);
        var k := FirstIsFirst(env, text, Half(chunk), overlap);
        j := k + 1;
        HalvedOnward(chunk, k);
        if First(env, text, chunk, overlap).size.Some? {
          NeverOnward(env, text, chunk, overlap, k);
        } else {
          forall tries: nat ensures NeverSplits(env, text, chunk, overlap, tries) {
            NeverOnward(env, text, chunk, overlap, tries);
          }
        }
      }
    }
  }

  lemma NeverOnward(env: Env, text: string, chunk: nat, overlap: int, tries: nat)
    requires |PiecesAt(env, text, chunk, overlap)| <= 1 && NeverSplits(env, text, Half(chunk), overlap, tries)
    ensures NeverSplits(env, text, chunk, overlap, tries + 1) && NeverSplits(env, text, chunk, overlap, tries)
  {
    hide PiecesAt;
    forall i: nat | i < tries + 1 ensures |PiecesAt(env, text, Halved(chunk, i), overlap)| <= 1 {
      if i > 0 {
        HalvedOnward(chunk, i - 1);
      }
    }
  }

  lemma HalfShrinks(chunk: nat)
    requires chunk > MIN_CHUNK_TOKENS
    ensures MIN_CHUNK_TOKENS <= Half(chunk) < chunk
  {
  }

  /** The texts asked about as pieces of a split of this size, or whole. */
  function AskedAs(calls: seq<Call>, size: Option<nat>): seq<string> {
    if calls == [] then []
    else (if calls[0].size == size then [calls[0].text] else []) + AskedAs(calls[1..], size)
  }

  /** The second request is one of those that an overflow of the first one above the floor leads to. */
  predicate AsksAgain(env: Env, overlap: int, a: Call, b: Call) {
    && Dropped(a)
    && var first := First(env, a.text, Half(a.size.value), overlap);
    b.size == first.size && b.text in first.texts
  }

  /**
    Every request from number `from` on is one of the first ones, or asks again about
    a text whose request overflowed above the floor; and every such overflow is
    followed by a request that asks again.
  */
  ghost predicate Explained(env: Env, overlap: int, log: seq<Call>, from: nat, first: Asked) {
    && (forall k | from <= k < |log| ::
          || (log[k].size == first.size && log[k].text in first.texts)
          || exists i | from <= i < k :: AsksAgain(env, overlap, log[i], log[k]))
    && (forall k | from <= k < |log| && Dropped(log[k]) ::
          k + 1 < |log| && AsksAgain(env, overlap, log[k], log[k + 1]))
  }

  lemma {:induction false} AskedAsSum(xs: seq<Call>, ys: seq<Call>, size: Option<nat>)
    ensures AskedAs(xs + ys, size) == AskedAs(xs, size) + AskedAs(ys, size)
  {
    if xs == [] {
      assert xs + ys == ys;
    } else {
      assert (xs + ys)[1..] == xs[1..] + ys;
      AskedAsSum(xs[1..], ys, size);
    }
  }

  lemma AskedAsOne(c: Call, size: Option<nat>)
    ensures AskedAs([c], size) == if c.size == size then [c.text] else []
  {
    assert [c][1..] == [];
  }

  lemma {:induction false} NotAskedAs(calls: seq<Call>, size: Option<nat>)
    requires forall c | c in calls :: c.size != size
    ensures AskedAs(calls, size) == []
  {
    if calls != [] {
      NotAskedAs(calls[1..], size);
    }
  }

  lemma {:induction false} AllAskedAs(calls: seq<Call>, size: Option<nat>)
    requires forall c | c in calls :: c.size == size
    ensures AskedAs(calls, size) == Texts(calls)
  {
    if calls != [] {
      AllAskedAs(calls[1..], size);
    }
  }

  /** No request is about a piece of a larger size, and the first split's pieces are all asked about, in order. */
  lemma {:induction false} PiecesAreAsked(env: Env, text: string, chunk: int, overlap: int, log: seq<Call>)
    ensures var after, first := ChunkAndCall(env, text, chunk, overlap, log).1, First(env, text, chunk, overlap);
            && log <= after
            && (forall c | c in Since(log, after) :: c.size.Some? ==> c.size.value <= chunk)
            && AskedAs(Since(log, after), first.size) == first.texts
    decreases chunk, 2, 0
  {
    hide Split, Pieces, CallPieces, Since, AskedAs;
    var whole := Ask(env, text, None, log);
    SinceOne(log, whole);
    AskedAsOne(whole, None);
    if Split(text) != [] && chunk >= MIN_CHUNK_TOKENS {
      var pieces := PiecesAt(env, text, chunk, overlap);
      if |pieces| > 1 {
        EachPieceIsAsked(env, pieces, chunk, overlap, log);
      } else if chunk > MIN_CHUNK_TOKENS {
        PiecesAreAsked(env, text, Half(chunk), overlap, log);
      }
    }
  }

  lemma {:induction false} EachPieceIsAsked(env: Env, pieces: seq<string>, chunk: int, overlap: int, log: seq<Call>)
    requires MIN_CHUNK_TOKENS <= chunk
    ensures var after := CallPieces(env, pieces, chunk, overlap, log).1;
            && log <= after
            && (forall c | c in Since(log, after) :: c.size.Some? ==> c.size.value <= chunk)
            && AskedAs(Since(log, after), Some(chunk)) == pieces
    decreases chunk, 1, |pieces|
  {
    hide ChunkAndCall, AskedAs, Since;
    if pieces == [] {
      EmptySince(log);
      assert AskedAs([], Some(chunk)) == [] by { NotAskedAs([], Some(chunk)); }
    } else {
      var call := Ask(env, pieces[0], Some(chunk), log);
      var (first, mid) := CallPiece(env, pieces[0], chunk, overlap, log);
      SinceOne(log, call);
      AskedAsOne(call, Some(chunk));
      if Dropped(call) {
        HalfShrinks(chunk);
        PiecesAreAsked(env, pieces[0], Half(chunk), overlap, log + [call]);
        SinceOfSum(log, log + [call], mid);
        NotAskedAs(Since(log + [call], mid), Some(chunk));
        AskedAsSum([call], Since(log + [call], mid), Some(chunk));
      }
      hide CallPiece;
      assert AskedAs(Since(log, mid), Some(chunk)) == [pieces[0]];
      var (rest, after) := CallPieces(env, pieces[1..], chunk, overlap, mid);
      EachPieceIsAsked(env, pieces[1..], chunk, overlap, mid);
      SinceOfSum(log, mid, after);
      AskedAsSum(Since(log, mid), Since(mid, after), Some(chunk));
    }
  }

  /**
    A text is asked about again, in parts or whole, always and only if a
    request about it overflowed above the floor.
  */
  lemma {:induction false} RequestsAreExplained(env: Env, text: string, chunk: int, overlap: int, log: seq<Call>)
    ensures var after, first := ChunkAndCall(env, text, chunk, overlap, log).1, First(env, text, chunk, overlap);
            && log < after && Explained(env, overlap, after, |log|, first)
            && after[|log|].size == first.size && after[|log|].text in first.texts
    decreases chunk, 2, 0
  {
    hide Split, Pieces, CallPieces;
    if Split(text) != [] && chunk >= MIN_CHUNK_TOKENS {
      var pieces := PiecesAt(env, text, chunk, overlap);
      if |pieces| > 1 {
        PieceRequestsAreExplained(env, pieces, chunk, overlap, log);
      } else if chunk > MIN_CHUNK_TOKENS {
        RequestsAreExplained(env, text, Half(chunk), overlap, log);
      }
    }
  }

  /** What is explained up to some request stays so when explained requests follow. */
  lemma ExplainedOnward(env: Env, overlap: int, log: seq<Call>, after: seq<Call>, from: nat, first: Asked)
    requires from <= |log| && log <= after
    requires Explained(env, overlap, log, from, first) && Explained(env, overlap, after, |log|, first)
    ensures Explained(env, overlap, after, from, first)
  {
    hide AsksAgain, Dropped;
    forall k | from <= k < |after| && !(after[k].size == first.size && after[k].text in first.texts)
      ensures exists i | from <= i < k :: AsksAgain(env, overlap, after[i], after[k])
    {
      if k < |log| {
        var i :| from <= i < k && AsksAgain(env, overlap, log[i], log[k]);
        assert AsksAgain(env, overlap, after[i], after[k]);
      } else {
        var i :| |log| <= i < k && AsksAgain(env, overlap, after[i], after[k]);
      }
    }
  }

  /** The requests that follow an overflow are explained by it. */
  lemma ExplainedByOverflow(env: Env, overlap: int, log: seq<Call>, call: Call, after: seq<Call>, first: Asked)
    requires Dropped(call) && log + [call] < after && call.size == first.size && call.text in first.texts
    requires var next := First(env, call.text, Half(call.size.value), overlap);
             && Explained(env, overlap, after, |log| + 1, next)
             && after[|log| + 1].size == next.size && after[|log| + 1].text in next.texts
    ensures Explained(env, overlap, after, |log|, first)
  {
    hide First;
    assert after[|log|] == call;
    forall k | |log| <= k < |after| && !(after[k].size == first.size && after[k].text in first.texts)
      ensures exists i | |log| <= i < k :: AsksAgain(env, overlap, after[i], after[k])
    {
      var next := First(env, call.text, Half(call.size.value), overlap);
      if after[k].size == next.size && after[k].text in next.texts {
        assert AsksAgain(env, overlap, after[|log|], after[k]);
      }
    }
  }

  lemma {:induction false} PieceRequestsAreExplained(env: Env, pieces: seq<string>, chunk: int, overlap: int,
                                                     log: seq<Call>)
    requires MIN_CHUNK_TOKENS <= chunk
    ensures var after := CallPieces(env, pieces, chunk, overlap, log).1;
            && log <= after && (pieces != [] ==> log < after)
            && Explained(env, overlap, after, |log|, Asked(Some(chunk), pieces))
            && (pieces != [] ==> after[|log|].size == Some(chunk) && after[|log|].text == pieces[0])
    decreases chunk, 1, |pieces|
  {
    hide ChunkAndCall, Explained, CallPiece;
    if pieces == [] {
      NothingToExplain(env, overlap, log, Asked(Some(chunk), pieces));
    } else {
      var mid := CallPiece(env, pieces[0], chunk, overlap, log).1;
      PieceRequestIsExplained(env, pieces, chunk, overlap, log);
      var after := CallPieces(env, pieces[1..], chunk, overlap, mid).1;
      PieceRequestsAreExplained(env, pieces[1..], chunk, overlap, mid);
      FewerPieces(env, overlap, after, |mid|, chunk, pieces);
      ExplainedOnward(env, overlap, mid, after, |log|, Asked(Some(chunk), pieces));
    }
  }

  lemma NothingToExplain(env: Env, overlap: int, log: seq<Call>, first: Asked)
    ensures Explained(env, overlap, log, |log|, first)
  {
  }

  lemma {:induction false} PieceRequestIsExplained(env: Env, pieces: seq<string>, chunk: int, overlap: int,
                                                   log: seq<Call>)
    requires MIN_CHUNK_TOKENS <= chunk && pieces != []
    ensures var after := CallPiece(env, pieces[0], chunk, overlap, log).1;
            && log < after && Explained(env, overlap, after, |log|, Asked(Some(chunk), pieces))
            && after[|log|].size == Some(chunk) && after[|log|].text == pieces[0]
    decreases chunk, 0, 0
  {
    hide ChunkAndCall, Explained, First;
    var call := Ask(env, pieces[0], Some(chunk), log);
    if Dropped(call) {
      HalfShrinks(chunk);
      RequestsAreExplained(env, pieces[0], Half(chunk), overlap, log + [call]);
      ExplainedByOverflow(env, overlap, log, call, CallPiece(env, pieces[0], chunk, overlap, log).1,
                          Asked(Some(chunk), pieces));
    } else {
      AnsweredIsExplained(env, overlap, log, call, Asked(Some(chunk), pieces));
    }
  }

  lemma AnsweredIsExplained(env: Env, overlap: int, log: seq<Call>, call: Call, first: Asked)
    requires !Dropped(call) && call.size == first.size && call.text in first.texts
    ensures Explained(env, overlap, log + [call], |log|, first)
  {
    hide Dropped;
  }

  lemma FewerPieces(env: Env, overlap: int, log: seq<Call>, from: nat, chunk: nat, pieces: seq<string>)
    requires pieces != [] && Explained(env, overlap, log, from, Asked(Some(chunk), pieces[1..]))
    ensures Explained(env, overlap, log, from, Asked(Some(chunk), pieces))
  {
    hide AsksAgain, Dropped;
  }

  /**
    If no request overflows above the floor, one split is all there is: the results
    are the requests, one for each piece of the first split that has several, in
    order, or a single one about the whole text.
  */
  lemma OneSplitIsEnough(env: Env, text: string, chunk: int, overlap: int, log: seq<Call>)
    ensures var (results, after) := ChunkAndCall(env, text, chunk, overlap, log);
            && log <= after
            && ((forall c | c in Since(log, after) :: !Dropped(c)) ==>
                  after == log + results && Texts(results) == First(env, text, chunk, overlap).texts)
  {
    hide ChunkAndCall, AskedAs, Kept, First, Dropped, AsksAgain;
    var (results, after) := ChunkAndCall(env, text, chunk, overlap, log);
    var first := First(env, text, chunk, overlap);
    ResultsAreKept(env, text, chunk, overlap, log);
    PiecesAreAsked(env, text, chunk, overlap, log);
    RequestsAreExplained(env, text, chunk, overlap, log);
    var asked := Since(log, after);
    if forall c | c in asked :: !Dropped(c) {
      KeptIfUseful(asked);
      NothingAskedAgain(env, overlap, after, |log|, first);
      AllAskedAs(asked, first.size);
    }
  }

  lemma NothingAskedAgain(env: Env, overlap: int, log: seq<Call>, from: nat, first: Asked)
    requires from <= |log| && Explained(env, overlap, log, from, first) && forall c | c in log[from..] :: !Dropped(c)
    ensures forall c | c in log[from..] :: c.size == first.size
  {
    hide First, Dropped;
    forall k | from <= k < |log| ensures log[k].size == first.size {
      assert forall i | from <= i < k :: log[i] == log[from..][i - from];
    }
  }

  // ---------- nothing is lost ----------

  lemma TextsOfSum(xs: seq<Call>, ys: seq<Call>)
    ensures Texts(xs + ys) == Texts(xs) + Texts(ys)
  {
  }

  /** How far back a result may start: what one split allows. */
  function Slack(chunk: int, overlap: int): nat {
    (if chunk < 0 then 0 else EffectiveOverlap(chunk, overlap)) + SENTENCE_SNAP_LOOKAHEAD_WORDS
  }

  /** Splitting again with smaller chunks reaches back no further. */
  lemma SlackShrinks(chunk: int, overlap: int)
    requires MIN_CHUNK_TOKENS < chunk
    ensures Slack(Max(chunk / 2, MIN_CHUNK_TOKENS), overlap) <= Slack(chunk, overlap)
  {
  }

  /**
    Whichever requests overflow, the texts behind the returned results are word
    intervals of the field, in order, that leave no word out, and none starts
    further back than the overlap and the look-ahead of the first split.
  */
  lemma {:induction false} ChunkingLosesNothing(env: Env, text: string, chunk: int, overlap: int, log: seq<Call>,
                                                slack: nat)
    requires Slack(chunk, overlap) <= slack
    ensures var words := Split(text);
            Covers(words, Texts(ChunkAndCall(env, text, chunk, overlap, log).0), 0, |words|, slack)
    decreases chunk, 2, 0
  {
    hide Covers, EffectiveOverlap, Pieces, Split, CallPieces;
    var words := Split(text);
    CoversItself(text, slack);
    if words != [] && chunk >= MIN_CHUNK_TOKENS {
      var pieces := Pieces(text, chunk, EffectiveOverlap(chunk, overlap), env.tokens);
      if |pieces| > 1 {
        PiecesCover(text, chunk, EffectiveOverlap(chunk, overlap), env.tokens);
        var back := StepBack(chunk, EffectiveOverlap(chunk, overlap));
        PiecesLoseNothing(env, words, pieces, chunk, overlap, log, 0, |words|, back, slack);
      } else if chunk > MIN_CHUNK_TOKENS {
        SlackShrinks(chunk, overlap);
        ChunkingLosesNothing(env, text, Max(chunk / 2, MIN_CHUNK_TOKENS), overlap, log, slack);
      }
    }
    assert Texts([Ask(env, text, None, log)]) == [text];
  }

  lemma {:induction false} PiecesLoseNothing(env: Env, words: seq<string>, pieces: seq<string>, chunk: int,
                                             overlap: int, log: seq<Call>, at: nat, end: nat, back: nat, slack: nat)
    requires MIN_CHUNK_TOKENS <= chunk && Covers(words, pieces, at, end, back)
    requires back <= slack && Slack(chunk, overlap) <= slack
    ensures Covers(words, Texts(CallPieces(env, pieces, chunk, overlap, log).0), at, end, slack)
    decreases chunk, 1, |pieces|
  {
    hide Split, CallPiece, Texts, Slack;
    if pieces != [] {
      var a, b := FirstInterval(words, pieces, at, end, back);
      hide Covers;
      var (first, mid) := CallPiece(env, pieces[0], chunk, overlap, log);
      var (rest, after) := CallPieces(env, pieces[1..], chunk, overlap, mid);
      PieceLosesNothing(env, pieces[0], chunk, overlap, log, slack);
      CoversWithin(words, a, b, Texts(first), 0, b - a, at, slack, slack);
      PiecesLoseNothing(env, words, pieces[1..], chunk, overlap, mid, Max(at, b), end, back, slack);
      CoversOnward(words, Texts(first), Texts(rest), at, Max(at, b), end, slack);
      TextsOfSum(first, rest);
    }
  }

  lemma {:induction false} PieceLosesNothing(env: Env, piece: string, chunk: int, overlap: int, log: seq<Call>,
                                             slack: nat)
    requires MIN_CHUNK_TOKENS <= chunk && Slack(chunk, overlap) <= slack
    ensures var words := Split(piece);
            Covers(words, Texts(CallPiece(env, piece, chunk, overlap, log).0), 0, |words|, slack)
    decreases chunk, 0, 0
  {
    hide Covers, EffectiveOverlap, Split;
    var call := Ask(env, piece, Some(chunk), log);
    if Trips(call.reply) && chunk > MIN_CHUNK_TOKENS {
      SlackShrinks(chunk, overlap);
      ChunkingLosesNothing(env, piece, Max(chunk / 2, MIN_CHUNK_TOKENS), overlap, log + [call], slack);
    } else {
      CoversItself(piece, slack);
      assert Texts([call]) == [piece];
    }
  }

  // ---------- overflow does not survive ----------

  /** A text no larger than what the smallest split produces. */
  predicate Small(env: Env, text: string) {
    || env.tokens(text) <= MIN_CHUNK_TOKENS
    || |Split(text)| < MIN_CHUNK_TOKENS + SENTENCE_SNAP_LOOKAHEAD_WORDS
  }

  lemma {:induction false} WindowsAreSmall(env: Env, words: seq<string>, step: nat, lo: nat)
    requires AllWords(words)
    requires 1 <= step
    ensures forall p | p in Windows(words, MIN_CHUNK_TOKENS, step, lo) :: Small(env, p)
    decreases |words| - lo
  {
    hide Split, Join, AllWords, Window, Extra;
    if lo < |words| {
      WindowsUnfold(words, MIN_CHUNK_TOKENS, step, lo);
      WindowIsInterval(words, MIN_CHUNK_TOKENS, lo);
      WindowJoins(words, MIN_CHUNK_TOKENS, lo);
      WindowsAreSmall(env, words, step, lo + step);
    }
  }

  lemma PieceOfMinimumIsSmall(env: Env, text: string, overlap: int)
    requires |Pieces(text, MIN_CHUNK_TOKENS, EffectiveOverlap(MIN_CHUNK_TOKENS, overlap), env.tokens)| > 1
    ensures forall p | p in Pieces(text, MIN_CHUNK_TOKENS, EffectiveOverlap(MIN_CHUNK_TOKENS, overlap), env.tokens) ::
              Small(env, p)
  {
    hide Windows, Split;
    WindowsAreSmall(env, Split(text), Max(MIN_CHUNK_TOKENS - EffectiveOverlap(MIN_CHUNK_TOKENS, overlap), 1), 0);
  }

  /** One window of a split is the whole text. */
  lemma SingleWindowIsAll(words: seq<string>, chunk: nat, step: nat)
    requires AllWords(words) && words != [] && 1 <= step <= chunk && |Windows(words, chunk, step, 0)| <= 1
    ensures |words| < chunk + SENTENCE_SNAP_LOOKAHEAD_WORDS
  {
    hide Window, Split, Join, Extra, Windows, AllWords;
    WindowIsInterval(words, chunk, 0);
    WindowsUnfold(words, chunk, step, 0);
    if |Window(words, chunk, 0)| < |words| {
      WindowsUnfold(words, chunk, step, step);
    }
  }

  lemma SinglePieceIsSmall(env: Env, text: string, overlap: int)
    ensures var pieces := Pieces(text, MIN_CHUNK_TOKENS, EffectiveOverlap(MIN_CHUNK_TOKENS, overlap), env.tokens);
            |pieces| <= 1 ==> Small(env, text)
  {
    hide Split, Windows, Pieces;
    var overlap' := EffectiveOverlap(MIN_CHUNK_TOKENS, overlap);
    if Split(text) != [] && env.tokens(text) > MIN_CHUNK_TOKENS {
      PiecesAreWindows(text, MIN_CHUNK_TOKENS, overlap', env.tokens);
      if |Pieces(text, MIN_CHUNK_TOKENS, overlap', env.tokens)| <= 1 {
        SingleWindowIsAll(Split(text), MIN_CHUNK_TOKENS, Max(MIN_CHUNK_TOKENS - overlap', 1));
      }
    }
  }

  /**
    If the model never overflows on small texts, no result is an overflow:
    every piece that overflows is split until its parts are answered.
  */
  lemma {:induction false} OverflowIsResolved(env: Env, text: string, chunk: int, overlap: int, log: seq<Call>)
    requires MIN_CHUNK_TOKENS <= chunk
    requires forall i: nat, x: string | Small(env, x) :: !Trips(env.native(i, x))
    ensures forall c | c in ChunkAndCall(env, text, chunk, overlap, log).0 :: !Trips(c.reply)
    decreases chunk, 2, 0
  {
    if Split(text) != [] {
      var pieces := Pieces(text, chunk, EffectiveOverlap(chunk, overlap), env.tokens);
      if |pieces| > 1 {
        if chunk == MIN_CHUNK_TOKENS {
          PieceOfMinimumIsSmall(env, text, overlap);
        }
        OverflowIsResolvedInPieces(env, pieces, chunk, overlap, log);
      } else if chunk > MIN_CHUNK_TOKENS {
        OverflowIsResolved(env, text, Max(chunk / 2, MIN_CHUNK_TOKENS), overlap, log);
      } else {
        SinglePieceIsSmall(env, text, overlap);
      }
    }
  }

  lemma {:induction false} OverflowIsResolvedInPieces(env: Env, pieces: seq<string>, chunk: int, overlap: int,
                                                      log: seq<Call>)
    requires MIN_CHUNK_TOKENS <= chunk
    requires forall i: nat, x: string | Small(env, x) :: !Trips(env.native(i, x))
    requires chunk == MIN_CHUNK_TOKENS ==> forall p | p in pieces :: Small(env, p)
    ensures forall c | c in CallPieces(env, pieces, chunk, overlap, log).0 :: !Trips(c.reply)
    decreases chunk, 1, |pieces|
  {
    if pieces != [] {
      var (first, mid) := CallPiece(env, pieces[0], chunk, overlap, log);
      var call := Ask(env, pieces[0], Some(chunk), log);
      if Trips(call.reply) {
        OverflowIsResolved(env, pieces[0], Max(chunk / 2, MIN_CHUNK_TOKENS), overlap, log + [call]);
      }
      OverflowIsResolvedInPieces(env, pieces[1..], chunk, overlap, mid);
    }
  }

  // ---------- the entry point ----------

  /** The largest size within the one wanted and the room that the other fields leave, but never below the floor. */
  function ChunkSize(budget: int, base: int, chunk: Option<int>): (size: int)
    ensures size >= MIN_CHUNK_TOKENS
    ensures var wanted := if chunk.Some? then chunk.value else DEFAULT_CHUNK_TOKENS;
            && (size > MIN_CHUNK_TOKENS ==> size <= wanted && size <= budget - base)
            && (size >= wanted || size >= budget - base)
  {
    Max(Min(if chunk.Some? then chunk.value else DEFAULT_CHUNK_TOKENS, budget - base), MIN_CHUNK_TOKENS)
  }

  function TextOf(field: Option<string>): string {
    if field.Some? then field.value else ""
  }

  /**
    `call_native_op_chunked` on a payload with the given text field, if it has one:
    the results, whether the payload was chunked, and all requests made.
  */
  function CallChunked(env: Env, field: Option<string>, budget: int, chunk: Option<int>, overlap: int)
    : (seq<Call>, bool, seq<Call>)
  {
    var text, estimated, base := TextOf(field), env.estimate(field), env.estimate(None);
    var call := Ask(env, text, None, []);
    if estimated <= budget && !Trips(call.reply) then ([call], false, [call])
    else
      var log := if estimated <= budget then [call] else [];
      var again := Ask(env, text, None, log);
      if base > budget then ([again], false, log + [again])
      else
        var (results, after) := ChunkAndCall(env, text, ChunkSize(budget, base, chunk), overlap, log);
        (results, true, after)
  }

  /** The overlap and the look-ahead of the split a payload gets. */
  function FieldSlack(env: Env, budget: int, chunk: Option<int>, overlap: int): nat {
    Slack(ChunkSize(budget, env.estimate(None), chunk), overlap)
  }

  /**
    Chunked or not, the results cover the whole field in order; unchunked there is
    exactly one, about the field as it stands; a payload is chunked exactly when
    it is over the budget or its request overflows, and the rest of it fits. The
    first request of a payload within the budget is about the whole field; apart
    from it, if it overflows, the results are the requests made without the pieces
    that overflowed above the floor, each with the answer to its own number.
  */
  lemma CallChunkedCoversTheField(env: Env, field: Option<string>, budget: int, chunk: Option<int>, overlap: int)
    ensures var (results, chunked, log) := CallChunked(env, field, budget, chunk, overlap);
            var text, estimated := TextOf(field), env.estimate(field);
            var probe := Ask(env, text, None, []);
            && Covers(Split(text), Texts(results), 0, |Split(text)|, FieldSlack(env, budget, chunk, overlap))
            && (!chunked ==> |results| == 1 && results[0].text == text)
            && results != [] && log != [] && Numbered(env, log, 0)
            && (estimated <= budget ==> log[0] == probe)
            && results == Kept(if estimated <= budget && Trips(probe.reply) then log[1..] else log)
            && (chunked <==> env.estimate(None) <= budget && (estimated > budget || Trips(probe.reply)))
  {
    hide ChunkAndCall, Covers, Kept, Split, Slack, Since;
    var text, slack, size := TextOf(field), FieldSlack(env, budget, chunk, overlap),
        ChunkSize(budget, env.estimate(None), chunk);
    CoversItself(text, slack);
    var (results, chunked, log) := CallChunked(env, field, budget, chunk, overlap);
    var made := if env.estimate(field) <= budget then [Ask(env, text, None, [])] else [];
    var again := Ask(env, text, None, made);
    KeptOne(Ask(env, text, None, []));
    if chunked {
      ChunkingLosesNothing(env, text, size, overlap, made, slack);
      ResultsAreKept(env, text, size, overlap, made);
      assert Since(made, log) == log[|made|..] by { SinceIs(made, log); }
      assert log[0..] == log;
    } else {
      KeptOne(again);
      assert (made + [again])[|made|..] == [again];
      assert Texts(results) == [text];
    }
  }

  /** A chunked field is asked about as the pieces of its first split, in order; smaller ones follow overflows only. */
  lemma ChunkedFieldIsAskedInPieces(env: Env, field: Option<string>, budget: int, chunk: Option<int>, overlap: int)
    ensures var (results, chunked, log) := CallChunked(env, field, budget, chunk, overlap);
            var text, probes := TextOf(field), if env.estimate(field) <= budget then 1 else 0;
            var first := First(env, text, ChunkSize(budget, env.estimate(None), chunk), overlap);
            chunked ==>
              && probes <= |log|
              && AskedAs(log[probes..], first.size) == first.texts
              && Explained(env, overlap, log, probes, first)
  {
    hide ChunkAndCall, First, AskedAs, Since, ChunkSize;
    var made := if env.estimate(field) <= budget then [Ask(env, TextOf(field), None, [])] else [];
    var size := ChunkSize(budget, env.estimate(None), chunk);
    PiecesAreAsked(env, TextOf(field), size, overlap, made);
    RequestsAreExplained(env, TextOf(field), size, overlap, made);
    SinceIs(made, ChunkAndCall(env, TextOf(field), size, overlap, made).1);
  }

  lemma SinceIs(log: seq<Call>, after: seq<Call>)
    requires log <= after
    ensures Since(log, after) == after[|log|..]
  {
  }

  /** In particular every word of the field is inside the text of some result. */
  lemma NoWordIsLost(env: Env, field: Option<string>, budget: int, chunk: Option<int>, overlap: int, i: nat)
    returns (k: nat, a: nat, b: nat)
    requires i < |Split(TextOf(field))|
    ensures var calls := CallChunked(env, field, budget, chunk, overlap).0;
            k < |calls| && a <= i < b && IsInterval(Split(TextOf(field)), calls[k].text, a, b)
  {
    CallChunkedCoversTheField(env, field, budget, chunk, overlap);
    var words, texts := Split(TextOf(field)), Texts(CallChunked(env, field, budget, chunk, overlap).0);
    k, a, b := CoveredWord(words, texts, 0, |words|, FieldSlack(env, budget, chunk, overlap), i);
  }
}
