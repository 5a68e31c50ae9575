/**
  Splitting a section into atomic blocks (`_split_atomic_blocks` in
  src/minni/chunker.py): code fences, lists and paragraphs.
*/
module AtomicBlocks {
  import opened Words

  // ---------- lines ----------

  /** `text.split('\n')`. */
  function SplitLines(text: string): (lines: seq<string>)
    ensures lines != [] && forall l | l in lines :: '\n' !in l
  {
    if text == "" then [""]
    else
      var rest := SplitLines(text[1..]);
      if text[0] == '\n' then [""] + rest else [[text[0]] + rest[0]] + rest[1..]
  }

  /** `'\n'.join(lines)`. */
  function JoinLines(lines: seq<string>): string {
    if lines == [] then ""
    else if |lines| == 1 then lines[0]
    else lines[0] + "\n" + JoinLines(lines[1..])
  }

  lemma {:induction false} SplitFirstLine(l: string, text: string)
    requires '\n' !in l
    ensures SplitLines(l + "\n" + text) == [l] + SplitLines(text)
  {
    var all := l + "\n" + text;
    if l == "" {
      assert all[1..] == text;
    } else {
      SplitFirstLine(l[1..], text);
      assert all[1..] == l[1..] + "\n" + text && l == [l[0]] + l[1..];
    }
  }

  lemma {:induction false} SplitOneLine(l: string)
    requires '\n' !in l
    ensures SplitLines(l) == [l]
  {
    if l != "" {
      SplitOneLine(l[1..]);
      assert l == [l[0]] + l[1..];
    }
  }

  lemma {:induction false} SplitJoinLines(lines: seq<string>)
    requires lines != [] && forall l | l in lines :: '\n' !in l
    ensures SplitLines(JoinLines(lines)) == lines
  {
    if |lines| == 1 {
      SplitOneLine(lines[0]);
    } else {
      SplitJoinLines(lines[1..]);
      SplitFirstLine(lines[0], JoinLines(lines[1..]));
    }
  }

  predicate Blank(s: string) {
    forall i | 0 <= i < |s| :: IsSpace(s[i])
  }

  lemma {:induction false} BlankJoin(lines: seq<string>)
    ensures Blank(JoinLines(lines)) <==> forall l | l in lines :: Blank(l)
  {
    if |lines| == 1 {
      assert forall l :: l in lines <==> l == lines[0];
    } else if lines != [] {
      hide Blank;
      BlankJoin(lines[1..]);
      assert lines == [lines[0]] + lines[1..];
      NewlineIsBlank();
      BlankSum(lines[0] + "\n", JoinLines(lines[1..]));
      BlankSum(lines[0], "\n");
    }
  }

  lemma NewlineIsBlank()
    ensures Blank("\n")
  {
  }

  lemma BlankSum(a: string, b: string)
    ensures Blank(a + b) <==> Blank(a) && Blank(b)
  {
    var all := a + b;
    assert forall i | 0 <= i < |a| :: all[i] == a[i];
    assert forall i | 0 <= i < |b| :: all[|a| + i] == b[i];
  }

  /** A line that opens or closes a code block. */
  predicate IsFence(line: string) {
    "```" <= Lstrip(line)
  }

  // ---------- blocks ----------

  /** The loop's variables: finished blocks, the block being built, and whether it is code. */
  datatype State = State(blocks: seq<seq<string>>, current: seq<string>, inCode: bool)

  function Flush(s: State): seq<seq<string>> {
    if s.current == [] then s.blocks else s.blocks + [s.current]
  }

  predicate IsList(lines: seq<string>, item: string -> bool) {
    exists l | l in lines :: item(l)
  }

  /** One line. `item` says which lines start a list item. */
  function Step(s: State, line: string, item: string -> bool): State {
    if IsFence(line) then
      if s.inCode then State(s.blocks + [s.current + [line]], [], false)
      else State(Flush(s), [line], true)
    else if s.inCode then s.(current := s.current + [line])
    else if Blank(line) then
      if s.current == [] then s
      else if IsList(s.current, item) then s.(current := s.current + [line])
      else State(Flush(s), [], false)
    else s.(current := s.current + [line])
  }

  function Fold(lines: seq<string>, item: string -> bool): State {
    if lines == [] then State([], [], false)
    else Step(Fold(lines[..|lines| - 1], item), lines[|lines| - 1], item)
  }

  /** The text of each block that is not blank. */
  function Texts(blocks: seq<seq<string>>): seq<string> {
    if blocks == [] then []
    else
      var text := JoinLines(blocks[|blocks| - 1]);
      Texts(blocks[..|blocks| - 1]) + if Blank(text) then [] else [text]
  }

  function Blocks(text: string, item: string -> bool): seq<string> {
    Texts(Flush(Fold(SplitLines(text), item)))
  }

  method SplitAtomicBlocks(text: string, item: string -> bool) returns (texts: seq<string>)
    ensures texts == Blocks(text, item)
  {
    hide SplitLines, Blank, IsFence;
    var lines := SplitLines(text);
    var blocks: seq<seq<string>>, current: seq<string>, inCode := [], [], false;
    for i := 0 to |lines|
      invariant State(blocks, current, inCode) == Fold(lines[..i], item)
    {
      var line := lines[i];
      assert lines[..i + 1][..i] == lines[..i];
      if IsFence(line) {
        if inCode {
          current := current + [line];
          blocks := blocks + [current];
          current, inCode := [], false;
        } else {
          if current != [] {
            blocks := blocks + [current];
          }
          current, inCode := [line], true;
        }
        continue;
      }
      if inCode {
        current := current + [line];
        continue;
      }
      if Blank(line) {
        if current != [] && !IsList(current, item) {
          blocks := blocks + [current];
          current := [];
        } else if current != [] {
          current := current + [line];
        }
        continue;
      }
      current := current + [line];
    }
    assert lines[..|lines|] == lines;
    if current != [] {
      blocks := blocks + [current];
    }
    texts := Kept(blocks);
  }

  method Kept(blocks: seq<seq<string>>) returns (texts: seq<string>)
    ensures texts == Texts(blocks)
  {
    hide Blank, JoinLines;
    texts := [];
    for i := 0 to |blocks|
      invariant texts == Texts(blocks[..i])
    {
      assert blocks[..i + 1][..i] == blocks[..i];
      var text := JoinLines(blocks[i]);
      if !Blank(text) {
        texts := texts + [text];
      }
    }
    assert blocks[..|blocks|] == blocks;
  }

  // ---------- every non-blank line, once and in order ----------

  function NonBlank(lines: seq<string>): seq<string> {
    if lines == [] then []
    else NonBlank(lines[..|lines| - 1]) + if Blank(lines[|lines| - 1]) then [] else [lines[|lines| - 1]]
  }

  function Concat(blocks: seq<seq<string>>): seq<string> {
    if blocks == [] then [] else Concat(blocks[..|blocks| - 1]) + blocks[|blocks| - 1]
  }

  lemma {:induction false} NonBlankJoins(a: seq<string>, b: seq<string>)
    ensures NonBlank(a + b) == NonBlank(a) + NonBlank(b)
  {
    if b == [] {
      assert a + b == a;
    } else {
      assert (a + b)[..|a + b| - 1] == a + b[..|b| - 1];
      NonBlankJoins(a, b[..|b| - 1]);
    }
  }

  /** The lines a state holds. */
  function Held(s: State): seq<string> {
    Concat(s.blocks) + s.current
  }

  lemma FlushHolds(s: State)
    ensures Concat(Flush(s)) == Held(s)
  {
    if s.current != [] {
      assert Flush(s)[..|s.blocks|] == s.blocks;
    }
  }

  lemma {:induction false} FoldHolds(lines: seq<string>, item: string -> bool)
    ensures NonBlank(Held(Fold(lines, item))) == NonBlank(lines)
  {
    hide Blank, IsFence;
    if lines != [] {
      var front, line := lines[..|lines| - 1], lines[|lines| - 1];
      var s, next := Fold(front, item), Fold(lines, item);
      FoldHolds(front, item);
      FlushHolds(s);
      StepHolds(s, line, item);
      NonBlankJoins(Held(s), [line]);
      assert [line][..0] == [];
      assert Held(s) + [] == Held(s);
    }
  }

  lemma StepHolds(s: State, line: string, item: string -> bool)
    ensures Held(Step(s, line, item)) == Held(s) + [line] || (Blank(line) && Held(Step(s, line, item)) == Held(s))
  {
    hide Blank, IsFence;
    FlushHolds(s);
    var next := Step(s, line, item);
    if IsFence(line) && s.inCode {
      assert next.blocks[..|s.blocks|] == s.blocks;
    }
  }

  /** The lines of a list of texts. */
  function AllLines(texts: seq<string>): seq<string> {
    if texts == [] then [] else AllLines(texts[..|texts| - 1]) + SplitLines(texts[|texts| - 1])
  }

  /** A block of lines: at least one, none with a newline in it. */
  predicate IsBlock(b: seq<string>) {
    b != [] && forall l | l in b :: '\n' !in l
  }

  lemma {:induction false} TextsKeepLines(blocks: seq<seq<string>>)
    requires forall b | b in blocks :: IsBlock(b)
    ensures NonBlank(AllLines(Texts(blocks))) == NonBlank(Concat(blocks))
  {
    hide Blank, SplitLines;
    if blocks != [] {
      var front, last := blocks[..|blocks| - 1], blocks[|blocks| - 1];
      assert last in blocks;
      TextsKeepLines(front);
      NonBlankJoins(Concat(front), last);
      var text := JoinLines(last);
      BlankJoin(last);
      if Blank(text) {
        AllBlank(last);
        assert Texts(front) + [] == Texts(front) && NonBlank(Concat(front)) + [] == NonBlank(Concat(front));
      } else {
        SplitJoinLines(last);
        assert Texts(blocks)[..|Texts(blocks)| - 1] == Texts(front);
        NonBlankJoins(AllLines(Texts(front)), last);
      }
    }
  }

  lemma {:induction false} AllBlank(lines: seq<string>)
    requires forall l | l in lines :: Blank(l)
    ensures NonBlank(lines) == []
  {
    if lines != [] {
      AllBlank(lines[..|lines| - 1]);
    }
  }

  lemma {:induction false} FoldBlocks(lines: seq<string>, item: string -> bool)
    requires forall l | l in lines :: '\n' !in l
    ensures var s := Fold(lines, item);
            (forall b | b in Flush(s) :: IsBlock(b)) && forall l | l in s.current :: '\n' !in l
  {
    hide Blank, IsFence;
    if lines != [] {
      FoldBlocks(lines[..|lines| - 1], item);
      assert lines[|lines| - 1] in lines;
    }
  }

  /** Splitting keeps every line that is not blank, once and in order. */
  lemma BlocksKeepLines(text: string, item: string -> bool)
    ensures NonBlank(AllLines(Blocks(text, item))) == NonBlank(SplitLines(text))
  {
    var lines := SplitLines(text);
    var s := Fold(lines, item);
    FoldBlocks(lines, item);
    TextsKeepLines(Flush(s));
    FlushHolds(s);
    FoldHolds(lines, item);
  }

  // ---------- code fences ----------

  function Fences(lines: seq<string>): nat {
    if lines == [] then 0 else Fences(lines[..|lines| - 1]) + if IsFence(lines[|lines| - 1]) then 1 else 0
  }

  lemma {:induction false} InCodeIsOdd(lines: seq<string>, item: string -> bool)
    ensures Fold(lines, item).inCode <==> Fences(lines) % 2 == 1
  {
    hide Blank, IsFence;
    if lines != [] {
      InCodeIsOdd(lines[..|lines| - 1], item);
    }
  }

  lemma {:induction false} BlocksGrow(lines: seq<string>, m: nat, item: string -> bool)
    requires m <= |lines|
    ensures Fold(lines[..m], item).blocks <= Fold(lines, item).blocks
  {
    hide Blank, IsFence;
    if m < |lines| {
      var front := lines[..|lines| - 1];
      BlocksGrow(front, m, item);
      assert front[..m] == lines[..m];
    } else {
      assert lines[..m] == lines;
    }
  }

  /** From an opening fence on, every line up to the next fence is in the block being built. */
  lemma {:induction false} InsideFence(lines: seq<string>, i: nat, k: nat, item: string -> bool)
    requires i < k <= |lines| && IsFence(lines[i]) && Fences(lines[..i]) % 2 == 0
    requires forall m | i < m < k :: !IsFence(lines[m])
    ensures Fold(lines[..k], item) == State(Flush(Fold(lines[..i], item)), lines[i..k], true)
    decreases k
  {
    hide Blank, IsFence, Flush;
    assert lines[..k][..k - 1] == lines[..k - 1];
    SliceGrows(lines, i, k - 1);
    if k == i + 1 {
      InCodeIsOdd(lines[..i], item);
      assert lines[i..i] == [];
    } else {
      InsideFence(lines, i, k - 1, item);
    }
  }

  lemma ClosingFence(lines: seq<string>, i: nat, j: nat, item: string -> bool)
    requires i < j < |lines| && IsFence(lines[j])
    requires Fold(lines[..j], item) == State(Flush(Fold(lines[..i], item)), lines[i..j], true)
    ensures Fold(lines[..j + 1], item).blocks == Flush(Fold(lines[..i], item)) + [lines[i..j + 1]]
  {
    hide Blank, IsFence, Flush;
    assert lines[..j + 1][..j] == lines[..j];
    SliceGrows(lines, i, j);
  }

  lemma SliceGrows<T>(s: seq<T>, i: nat, j: nat)
    requires i <= j < |s|
    ensures s[i..j + 1] == s[i..j] + [s[j]]
  {
  }

  lemma PrefixOfFlush(prefix: seq<seq<string>>, s: State)
    requires prefix <= s.blocks
    ensures prefix <= Flush(s)
  {
  }

  /** An opening fence, the lines behind it and its closing fence are one block, at its place among the others. */
  lemma ClosedFenceIsOneBlock(lines: seq<string>, i: nat, j: nat, item: string -> bool)
    requires i < j < |lines| && IsFence(lines[i]) && IsFence(lines[j]) && Fences(lines[..i]) % 2 == 0
    requires forall m | i < m < j :: !IsFence(lines[m])
    ensures var blocks, before := Flush(Fold(lines, item)), Flush(Fold(lines[..i], item));
            before + [lines[i..j + 1]] <= blocks && NonBlank(Concat(before)) == NonBlank(lines[..i])
  {
    hide Fold, NonBlank, Concat, IsFence, Fences, Flush;
    InsideFence(lines, i, j, item);
    ClosingFence(lines, i, j, item);
    BlocksGrow(lines, j + 1, item);
    var before, upTo := Flush(Fold(lines[..i], item)), Fold(lines[..j + 1], item).blocks;
    assert upTo == before + [lines[i..j + 1]];
    PrefixOfFlush(upTo, Fold(lines, item));
    FlushHolds(Fold(lines[..i], item));
    FoldHolds(lines[..i], item);
  }

  lemma {:induction false} FenceIsNotBlank(line: string)
    requires IsFence(line)
    ensures !Blank(line)
    decreases |line|
  {
    if line != "" && IsSpace(line[0]) {
      FenceIsNotBlank(line[1..]);
    }
  }

  lemma {:induction false} TextOfBlock(blocks: seq<seq<string>>, b: nat)
    requires b < |blocks| && !Blank(JoinLines(blocks[b]))
    ensures JoinLines(blocks[b]) in Texts(blocks)
  {
    hide Blank, JoinLines;
    if b < |blocks| - 1 {
      TextOfBlock(blocks[..|blocks| - 1], b);
    }
  }

  /** A fence left open runs to the end as one block. */
  lemma OpenFenceIsOneBlock(lines: seq<string>, i: nat, item: string -> bool)
    requires i < |lines| && IsFence(lines[i]) && Fences(lines[..i]) % 2 == 0
    requires forall m | i < m < |lines| :: !IsFence(lines[m])
    ensures Flush(Fold(lines[..i], item)) + [lines[i..]] <= Flush(Fold(lines, item))
  {
    hide Fold, IsFence, Fences;
    InsideFence(lines, i, |lines|, item);
    assert lines[..|lines|] == lines && lines[i..|lines|] == lines[i..];
  }

  lemma BlockIsKept(before: seq<seq<string>>, block: seq<string>, blocks: seq<seq<string>>)
    requires before + [block] <= blocks && block != [] && IsFence(block[0])
    ensures JoinLines(block) in Texts(blocks)
  {
    hide IsFence, Blank, JoinLines, Texts;
    assert blocks[|before|] == (before + [block])[|before|] == block;
    assert block[0] in block;
    FenceIsNotBlank(block[0]);
    BlankJoin(block);
    TextOfBlock(blocks, |before|);
  }

  /** So a closed fence is never cut: its text is one of the blocks. An open one runs to the end as one block. */
  lemma FencesAreNotCut(text: string, i: nat, j: nat, item: string -> bool)
    requires var lines := SplitLines(text);
             && i < j <= |lines| && IsFence(lines[i]) && Fences(lines[..i]) % 2 == 0
             && forall m | i < m < j :: !IsFence(lines[m])
    requires j < |SplitLines(text)| ==> IsFence(SplitLines(text)[j])
    ensures var lines := SplitLines(text);
            JoinLines(if j < |lines| then lines[i..j + 1] else lines[i..]) in Blocks(text, item)
  {
    hide SplitLines, IsFence, JoinLines, Fold, Flush, Fences, Texts, NonBlank, Concat;
    var lines := SplitLines(text);
    if j < |lines| {
      ClosedFenceIsOneBlock(lines, i, j, item);
    } else {
      OpenFenceIsOneBlock(lines, i, item);
    }
    BlockIsKept(Flush(Fold(lines[..i], item)), if j < |lines| then lines[i..j + 1] else lines[i..],
                Flush(Fold(lines, item)));
  }

  // ---------- where blocks begin and end ----------

  /** The lines of a text, apart from the newlines between them, are the text. */
  lemma {:induction false} JoinSplitLines(text: string)
    ensures JoinLines(SplitLines(text)) == text
  {
    if text != "" {
      var rest := SplitLines(text[1..]);
      JoinSplitLines(text[1..]);
      if text[0] == '\n' {
        assert SplitLines(text)[1..] == rest;
      } else {
        assert SplitLines(text)[1..] == rest[1..];
      }
      assert text == [text[0]] + text[1..];
    }
  }

  /** The lines from `from` to `to`. */
  datatype Span = Span(from: nat, to: nat)

  /** No line from `a` to `b` opens or closes a code block. */
  predicate NoFence(lines: seq<string>, a: nat, b: nat)
    requires b <= |lines|
  {
    forall m | a <= m < b :: !IsFence(lines[m])
  }

  predicate AllBlankIn(lines: seq<string>, a: nat, b: nat)
    requires b <= |lines|
  {
    forall m | a <= m < b :: Blank(lines[m])
  }

  /** A fence and everything up to the next one, which is part of it, or up to the end. */
  predicate CodeSpan(lines: seq<string>, a: nat, b: nat) {
    && a < b <= |lines| && IsFence(lines[a])
    && if NoFence(lines, a + 1, b) then b == |lines|
       else IsFence(lines[b - 1]) && NoFence(lines, a + 1, b - 1)
  }

  /**
    Lines without a fence, of which the first is not blank and a blank one has a list
    item before it, as far as they go: to the end, to a fence, or to a blank line
    without a list item before it.
  */
  predicate TextSpan(lines: seq<string>, a: nat, b: nat, item: string -> bool) {
    && a < b <= |lines| && !Blank(lines[a]) && NoFence(lines, a, b)
    && (forall m | a < m < b && Blank(lines[m]) :: IsList(lines[a..m], item))
    && (b < |lines| && !IsFence(lines[b]) ==> Blank(lines[b]) && !IsList(lines[a..b], item))
  }

  predicate BlockSpan(lines: seq<string>, span: Span, item: string -> bool) {
    CodeSpan(lines, span.from, span.to) || TextSpan(lines, span.from, span.to, item)
  }

  /** Where the k-th block may begin. */
  function EndBefore(spans: seq<Span>, k: nat): nat
    requires k <= |spans|
  {
    if k == 0 then 0 else spans[k - 1].to
  }

  /** The k-th block is one, and only blank lines come between it and the one before it. */
  predicate BlockAt(lines: seq<string>, spans: seq<Span>, k: nat, item: string -> bool)
    requires k < |spans|
  {
    && BlockSpan(lines, spans[k], item)
    && EndBefore(spans, k) <= spans[k].from && AllBlankIn(lines, EndBefore(spans, k), spans[k].from)
  }

  /** Blocks in order, with nothing but blank lines between them, and behind the last one as far as `end`. */
  predicate Divides(lines: seq<string>, spans: seq<Span>, end: nat, item: string -> bool) {
    && (forall k | 0 <= k < |spans| :: BlockAt(lines, spans, k, item))
    && EndBefore(spans, |spans|) <= end <= |lines| && AllBlankIn(lines, EndBefore(spans, |spans|), end)
  }

  /** The block that the loop is building when it has come to line `n`. */
  predicate Unfinished(lines: seq<string>, a: nat, n: nat, inCode: bool, item: string -> bool) {
    && a < n <= |lines|
    && if inCode then IsFence(lines[a]) && NoFence(lines, a + 1, n)
       else
         && !Blank(lines[a]) && NoFence(lines, a, n)
         && forall m | a < m < n && Blank(lines[m]) :: IsList(lines[a..m], item)
  }

  /** The blocks are the lines of the spans. */
  predicate AreSpans(lines: seq<string>, blocks: seq<seq<string>>, spans: seq<Span>) {
    && |blocks| == |spans|
    && forall k | 0 <= k < |spans| ::
          spans[k].from <= spans[k].to <= |lines| && blocks[k] == lines[spans[k].from..spans[k].to]
  }

  /** The state of the loop at line `n`. */
  predicate AtLine(lines: seq<string>, n: nat, s: State, spans: seq<Span>, a: nat, item: string -> bool) {
    && a <= n <= |lines| && AreSpans(lines, s.blocks, spans) && Divides(lines, spans, a, item)
    && s.current == lines[a..n]
    && (if s.current == [] then !s.inCode else Unfinished(lines, a, n, s.inCode, item))
  }

  lemma NothingBetween(lines: seq<string>, b: nat)
    requires b <= |lines|
    ensures AllBlankIn(lines, b, b)
  {
  }

  lemma OneMoreSpan(lines: seq<string>, spans: seq<Span>, a: nat, b: nat, item: string -> bool)
    requires Divides(lines, spans, a, item) && BlockSpan(lines, Span(a, b), item)
    ensures a < b <= |lines| && Divides(lines, spans + [Span(a, b)], b, item)
  {
    assert a < b <= |lines|;
    NothingBetween(lines, b);
    hide BlockSpan, AllBlankIn;
    var more := spans + [Span(a, b)];
    forall k | 0 <= k < |more|
      ensures BlockAt(lines, more, k, item)
    {
      assert EndBefore(more, k) == EndBefore(spans, k);
      if k < |spans| {
        assert BlockAt(lines, spans, k, item);
      }
    }
    assert EndBefore(more, |more|) == b;
  }

  lemma OneMoreBlock(lines: seq<string>, blocks: seq<seq<string>>, spans: seq<Span>, a: nat, b: nat)
    requires AreSpans(lines, blocks, spans) && a <= b <= |lines|
    ensures AreSpans(lines, blocks + [lines[a..b]], spans + [Span(a, b)])
  {
  }

  /** A blank line between blocks. */
  lemma BlankOnward(lines: seq<string>, spans: seq<Span>, n: nat, item: string -> bool)
    requires Divides(lines, spans, n, item) && n < |lines| && Blank(lines[n])
    ensures Divides(lines, spans, n + 1, item)
  {
    hide Blank, BlockAt;
  }

  /** The block being built is finished when the line that comes next ends it. */
  lemma FinishText(lines: seq<string>, n: nat, s: State, spans: seq<Span>, a: nat, item: string -> bool)
    requires AtLine(lines, n, s, spans, a, item) && s.current != [] && !s.inCode
    requires n < |lines| && !IsFence(lines[n]) ==> Blank(lines[n]) && !IsList(s.current, item)
    ensures AreSpans(lines, Flush(s), spans + [Span(a, n)]) && Divides(lines, spans + [Span(a, n)], n, item)
  {
    assert TextSpan(lines, a, n, item) by { hide Blank, IsFence, IsList; }
    hide TextSpan, Unfinished, IsList, AreSpans, Divides;
    OneMoreSpan(lines, spans, a, n, item);
    OneMoreBlock(lines, s.blocks, spans, a, n);
  }

  lemma FinishCode(lines: seq<string>, n: nat, s: State, spans: seq<Span>, a: nat, item: string -> bool)
    requires AtLine(lines, n, s, spans, a, item) && s.inCode
    requires n < |lines| && IsFence(lines[n])
    ensures var blocks := s.blocks + [s.current + [lines[n]]];
            AreSpans(lines, blocks, spans + [Span(a, n + 1)]) && Divides(lines, spans + [Span(a, n + 1)], n + 1, item)
  {
    assert CodeSpan(lines, a, n + 1) by { hide Blank, IsFence, IsList; }
    hide CodeSpan, Unfinished, IsFence, AreSpans, Divides;
    assert s.current + [lines[n]] == lines[a..n + 1];
    OneMoreSpan(lines, spans, a, n + 1, item);
    OneMoreBlock(lines, s.blocks, spans, a, n + 1);
  }

  /** One line of the loop. */
  lemma StepDivides(lines: seq<string>, n: nat, s: State, spans: seq<Span>, a: nat, item: string -> bool)
    returns (spans': seq<Span>, a': nat)
    requires AtLine(lines, n, s, spans, a, item) && n < |lines|
    ensures AtLine(lines, n + 1, Step(s, lines[n], item), spans', a', item)
  {
    hide Blank, IsList, Divides, AreSpans, IsFence;
    spans', a' := spans, a;
    var line := lines[n];
    SliceGrows(lines, a, n);
    assert lines[n..n + 1] == [line] && lines[n + 1..n + 1] == [];
    if IsFence(line) {
      if s.inCode {
        FinishCode(lines, n, s, spans, a, item);
        spans', a' := spans + [Span(a, n + 1)], n + 1;
      } else {
        a' := n;
        if s.current != [] {
          FinishText(lines, n, s, spans, a, item);
          spans' := spans + [Span(a, n)];
        }
      }
    } else if !s.inCode && Blank(line) && !(s.current != [] && IsList(s.current, item)) {
      a' := n + 1;
      if s.current != [] {
        FinishText(lines, n, s, spans, a, item);
        spans' := spans + [Span(a, n)];
      }
      BlankOnward(lines, spans', n, item);
    }
  }

  lemma {:induction false} FoldDivides(lines: seq<string>, n: nat, item: string -> bool)
    returns (spans: seq<Span>, a: nat)
    requires n <= |lines|
    ensures AtLine(lines, n, Fold(lines[..n], item), spans, a, item)
  {
    spans, a := [], 0;
    if n > 0 {
      hide AtLine, Step;
      spans, a := FoldDivides(lines, n - 1, item);
      spans, a := StepDivides(lines, n - 1, Fold(lines[..n - 1], item), spans, a, item);
      assert lines[..n][..n - 1] == lines[..n - 1];
    }
  }

  lemma FinishLast(lines: seq<string>, s: State, spans: seq<Span>, a: nat, item: string -> bool)
    returns (all: seq<Span>)
    requires AtLine(lines, |lines|, s, spans, a, item)
    ensures AreSpans(lines, Flush(s), all) && Divides(lines, all, |lines|, item)
  {
    all := spans;
    if s.current != [] {
      all := spans + [Span(a, |lines|)];
      if s.inCode {
        assert CodeSpan(lines, a, |lines|) by { hide IsFence; }
        hide CodeSpan, Unfinished, AreSpans, Divides;
        OneMoreSpan(lines, spans, a, |lines|, item);
        OneMoreBlock(lines, s.blocks, spans, a, |lines|);
      } else {
        FinishText(lines, |lines|, s, spans, a, item);
      }
    }
  }

  lemma {:induction false} NoTextIsBlank(blocks: seq<seq<string>>)
    requires forall k | 0 <= k < |blocks| :: blocks[k] != [] && !Blank(blocks[k][0])
    ensures |Texts(blocks)| == |blocks| && forall k | 0 <= k < |blocks| :: Texts(blocks)[k] == JoinLines(blocks[k])
  {
    hide Blank, JoinLines;
    if blocks != [] {
      var front, last := blocks[..|blocks| - 1], blocks[|blocks| - 1];
      NoTextIsBlank(front);
      BlankJoin(last);
      assert last[0] in last;
    }
  }

  lemma SpanIsThere(lines: seq<string>, spans: seq<Span>, k: nat, item: string -> bool)
    requires Divides(lines, spans, |lines|, item) && k < |spans|
    ensures BlockAt(lines, spans, k, item)
  {
  }

  lemma BeginsWithText(lines: seq<string>, span: Span, item: string -> bool)
    requires BlockSpan(lines, span, item)
    ensures span.from < span.to <= |lines| && !Blank(lines[span.from])
  {
    hide Blank, IsFence, IsList, NoFence;
    if CodeSpan(lines, span.from, span.to) {
      FenceIsNotBlank(lines[span.from]);
    }
  }

  lemma SpansBeginWithText(lines: seq<string>, blocks: seq<seq<string>>, spans: seq<Span>, item: string -> bool)
    requires AreSpans(lines, blocks, spans) && Divides(lines, spans, |lines|, item)
    ensures |blocks| == |spans|
    ensures forall k | 0 <= k < |spans| ::
              && spans[k].from < spans[k].to <= |lines| && blocks[k] == lines[spans[k].from..spans[k].to]
              && blocks[k] != [] && !Blank(blocks[k][0])
  {
    hide Blank, BlockSpan, Divides;
    forall k | 0 <= k < |spans|
      ensures spans[k].from < spans[k].to <= |lines| && !Blank(lines[spans[k].from])
    {
      SpanIsThere(lines, spans, k, item);
      BeginsWithText(lines, spans[k], item);
    }
  }

  /**
    Where the blocks begin and end. They are the texts of stretches of lines, each a
    code block or a stretch that ends where a fence, a blank line not kept in a list,
    or the end of the text ends it, and nothing but blank lines is left between them.
  */
  lemma BlocksDivideTheText(text: string, item: string -> bool) returns (spans: seq<Span>)
    ensures var lines, blocks := SplitLines(text), Blocks(text, item);
            && Divides(lines, spans, |lines|, item) && |blocks| == |spans|
            && forall k | 0 <= k < |spans| ::
                 && spans[k].from < spans[k].to <= |lines|
                 && blocks[k] == JoinLines(lines[spans[k].from..spans[k].to])
  {
    hide Texts, Divides, AtLine, AreSpans, Fold, Flush, SplitLines, Blank;
    var lines := SplitLines(text);
    var a;
    spans, a := FoldDivides(lines, |lines|, item);
    assert lines[..|lines|] == lines;
    spans := FinishLast(lines, Fold(lines, item), spans, a, item);
    var blocks := Flush(Fold(lines, item));
    SpansBeginWithText(lines, blocks, spans, item);
    NoTextIsBlank(blocks);
  }

  /** Two spans that begin at the same line end at the same line. */
  lemma SpanEnd(lines: seq<string>, a: nat, b: nat, c: nat, item: string -> bool)
    requires BlockSpan(lines, Span(a, b), item) && BlockSpan(lines, Span(a, c), item) && b <= c
    ensures b == c
  {
    hide Blank, IsFence, IsList;
  }

  lemma SameSpan(lines: seq<string>, spans: seq<Span>, others: seq<Span>, k: nat, item: string -> bool)
    requires k < |spans| && k < |others| && EndBefore(spans, k) == EndBefore(others, k)
    requires BlockAt(lines, spans, k, item) && BlockAt(lines, others, k, item)
    ensures spans[k] == others[k]
  {
    hide BlockSpan, Blank;
    var one, other := spans[k], others[k];
    BeginsWithText(lines, one, item);
    BeginsWithText(lines, other, item);
    assert one.from == other.from;
    assert one == Span(one.from, one.to) && other == Span(one.from, other.to);
    if one.to <= other.to {
      SpanEnd(lines, one.from, one.to, other.to, item);
    } else {
      SpanEnd(lines, one.from, other.to, one.to, item);
    }
  }

  /** Where one division has come to its end, so has the other. */
  lemma NoSpanLeft(lines: seq<string>, spans: seq<Span>, others: seq<Span>, k: nat, item: string -> bool)
    requires Divides(lines, spans, |lines|, item) && Divides(lines, others, |lines|, item)
    requires |others| == k <= |spans| && EndBefore(spans, k) == EndBefore(others, k)
    ensures |spans| == k
  {
    hide Blank, BlockSpan;
    if k < |spans| {
      SpanIsThere(lines, spans, k, item);
      BeginsWithText(lines, spans[k], item);
    }
  }

  lemma SameEndBefore(spans: seq<Span>, others: seq<Span>, k: nat)
    requires k <= |spans| && k <= |others| && forall i | 0 <= i < k :: spans[i] == others[i]
    ensures EndBefore(spans, k) == EndBefore(others, k)
  {
  }

  /** There is only one way to divide the lines like that. */
  lemma {:induction false} DivisionIsUnique(lines: seq<string>, spans: seq<Span>, others: seq<Span>, k: nat,
                                            item: string -> bool)
    requires Divides(lines, spans, |lines|, item) && Divides(lines, others, |lines|, item)
    requires k <= |spans| && k <= |others| && forall i | 0 <= i < k :: spans[i] == others[i]
    ensures spans == others
    decreases |spans| - k
  {
    hide Divides, BlockAt;
    SameEndBefore(spans, others, k);
    if k < |spans| && k < |others| {
      SpanIsThere(lines, spans, k, item);
      SpanIsThere(lines, others, k, item);
      SameSpan(lines, spans, others, k, item);
      DivisionIsUnique(lines, spans, others, k + 1, item);
    } else if k < |spans| {
      NoSpanLeft(lines, spans, others, k, item);
    } else if k < |others| {
      NoSpanLeft(lines, others, spans, k, item);
    }
  }

  /**
    Whether lines stay together: after a line that is not blank, in a block outside
    code, the next such line that is no fence is in the same block if and only if it
    follows at once, or some line of the block so far is a list item.
  */
  lemma StaysTogether(lines: seq<string>, spans: seq<Span>, k: nat, i: nat, j: nat, item: string -> bool)
    requires Divides(lines, spans, |lines|, item) && k < |spans|
    requires spans[k].from <= i < spans[k].to && spans[k].to <= |lines| && !IsFence(lines[spans[k].from])
    requires i < j < |lines| && !Blank(lines[i]) && !Blank(lines[j]) && !IsFence(lines[j])
    requires forall m | i < m < j :: Blank(lines[m])
    ensures j < spans[k].to <==> j == i + 1 || IsList(lines[spans[k].from..i + 1], item)
  {
    hide Blank, IsFence;
    SpanIsThere(lines, spans, k, item);
    var a, b := spans[k].from, spans[k].to;
    assert TextSpan(lines, a, b, item);
    if j < b {
      if i + 1 < j {
        assert Blank(lines[i + 1]) && IsList(lines[a..i + 1], item);
      }
    } else {
      if IsFence(lines[b]) {
        FenceIsNotBlank(lines[b]);
      }
      assert b < j && Blank(lines[b]) && !IsList(lines[a..b], item);
      assert forall l | l in lines[a..i + 1] :: l in lines[a..b];
    }
  }

  /** As many lines without a blank one as there are next to each other. */
  predicate MaximalRun(lines: seq<string>, a: nat, b: nat) {
    && a < b <= |lines| && (forall m | a <= m < b :: !Blank(lines[m]))
    && (a > 0 ==> Blank(lines[a - 1])) && (b < |lines| ==> Blank(lines[b]))
  }

  /** The spans are the runs of lines that are not blank: each is one, in order, and each run is among them. */
  ghost predicate AreTheRuns(lines: seq<string>, spans: seq<Span>) {
    && (forall k | 0 <= k < |spans| :: MaximalRun(lines, spans[k].from, spans[k].to))
    && (forall k, l | 0 <= k < l < |spans| :: spans[k].to < spans[l].from)
    && (forall a: nat, b: nat | MaximalRun(lines, a, b) :: Span(a, b) in spans)
  }

  predicate Plain(lines: seq<string>, item: string -> bool) {
    forall l | l in lines :: !IsFence(l) && !item(l)
  }

  lemma PlainSpan(lines: seq<string>, spans: seq<Span>, k: nat, item: string -> bool)
    requires Plain(lines, item) && Divides(lines, spans, |lines|, item) && k < |spans|
    ensures var a, b := spans[k].from, spans[k].to;
            && a < b <= |lines| && (forall m | a <= m < b :: !Blank(lines[m])) && (b < |lines| ==> Blank(lines[b]))
  {
    hide Blank, IsFence;
    SpanIsThere(lines, spans, k, item);
    var a, b := spans[k].from, spans[k].to;
    assert a < b <= |lines|;
    assert lines[a] in lines && !CodeSpan(lines, a, b);
    forall m | a <= m <= b && m < |lines| ensures !IsList(lines[a..m], item) && !IsFence(lines[m]) {
      assert lines[m] in lines;
      assert forall l | l in lines[a..m] :: l in lines;
    }
  }

  /** Every block begins behind a blank line, so later than the one before it ends. */
  lemma PlainStart(lines: seq<string>, spans: seq<Span>, k: nat, item: string -> bool)
    requires Plain(lines, item) && Divides(lines, spans, |lines|, item) && k < |spans|
    ensures EndBefore(spans, k) <= spans[k].from <= |lines| && (k > 0 ==> EndBefore(spans, k) < spans[k].from)
    ensures spans[k].from > 0 ==> Blank(lines[spans[k].from - 1])
  {
    hide Blank, IsFence;
    SpanIsThere(lines, spans, k, item);
    PlainSpan(lines, spans, k, item);
    if k > 0 {
      PlainSpan(lines, spans, k - 1, item);
      assert spans[k].from != EndBefore(spans, k);
    }
  }

  lemma {:induction false} PlainOrder(lines: seq<string>, spans: seq<Span>, k: nat, l: nat, item: string -> bool)
    requires Plain(lines, item) && Divides(lines, spans, |lines|, item) && k < l < |spans|
    ensures spans[k].to < spans[l].from
  {
    hide Blank, IsFence, Divides, Plain;
    PlainStart(lines, spans, l, item);
    if k < l - 1 {
      PlainOrder(lines, spans, k, l - 1, item);
      PlainSpan(lines, spans, l - 1, item);
    }
  }

  /** A line that is not blank is in one of the blocks that begin no later than the k-th. */
  lemma {:induction false} LineIsInSpan(lines: seq<string>, spans: seq<Span>, n: nat, m: nat, item: string -> bool)
    returns (k: nat)
    requires Divides(lines, spans, |lines|, item) && n <= |spans| && m < EndBefore(spans, n) <= |lines|
    requires !Blank(lines[m])
    ensures k < n && spans[k].from <= m < spans[k].to
  {
    hide Blank, BlockSpan;
    k := n - 1;
    SpanIsThere(lines, spans, k, item);
    BeginsWithText(lines, spans[k], item);
    if m < spans[k].from {
      k := LineIsInSpan(lines, spans, n - 1, m, item);
    }
  }

  lemma RunIsSpan(lines: seq<string>, spans: seq<Span>, a: nat, b: nat, item: string -> bool)
    requires Plain(lines, item) && Divides(lines, spans, |lines|, item) && MaximalRun(lines, a, b)
    ensures Span(a, b) in spans
  {
    hide Blank, Plain;
    assert !Blank(lines[a]);
    assert a < EndBefore(spans, |spans|);
    var k := LineIsInSpan(lines, spans, |spans|, a, item);
    PlainSpan(lines, spans, k, item);
    PlainStart(lines, spans, k, item);
    hide Divides;
    var span := spans[k];
    assert span.from == a && span.to == b;
    assert span == Span(a, b);
  }

  /** A text without fences and list items is split into exactly its runs of lines that are not blank. */
  lemma PlainTextSplitsIntoRuns(text: string, item: string -> bool) returns (runs: seq<Span>)
    requires Plain(SplitLines(text), item)
    ensures var lines, blocks := SplitLines(text), Blocks(text, item);
            && AreTheRuns(lines, runs) && |blocks| == |runs|
            && forall k | 0 <= k < |runs| :: blocks[k] == JoinLines(lines[runs[k].from..runs[k].to])
  {
    hide SplitLines, Blocks, Plain, Divides, Blank;
    var lines := SplitLines(text);
    runs := BlocksDivideTheText(text, item);
    forall k | 0 <= k < |runs| ensures MaximalRun(lines, runs[k].from, runs[k].to) {
      PlainSpan(lines, runs, k, item);
      PlainStart(lines, runs, k, item);
    }
    forall k, l | 0 <= k < l < |runs| ensures runs[k].to < runs[l].from {
      PlainOrder(lines, runs, k, l, item);
    }
    forall a: nat, b: nat | MaximalRun(lines, a, b) ensures Span(a, b) in runs {
      RunIsSpan(lines, runs, a, b, item);
    }
  }
}
