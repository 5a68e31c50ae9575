/** `str.split()` and `" ".join(...)`, and why they undo each other. */
module Words {
  import opened Wrappers

  /** The characters Python's `str.isspace` accepts. */
  predicate IsSpace(c: char) {
    var k := c as int;
    || 0x09 <= k <= 0x0d || 0x1c <= k <= 0x20 || k == 0x85 || k == 0xa0 || k == 0x1680
    || 0x2000 <= k <= 0x200a || k == 0x2028 || k == 0x2029 || k == 0x202f || k == 0x205f || k == 0x3000
  }

  /** `s.lstrip()`. */
  function Lstrip(s: string): string {
    if s != "" && IsSpace(s[0]) then Lstrip(s[1..]) else s
  }

  /** The number of leading characters that are not white space. */
  function WordLength(s: string): (n: nat)
    ensures n <= |s|
    ensures forall i | 0 <= i < n :: !IsSpace(s[i])
    ensures n < |s| ==> IsSpace(s[n])
  {
    if s == "" || IsSpace(s[0]) then 0 else 1 + WordLength(s[1..])
  }

  predicate IsWord(w: string) {
    w != "" && forall i | 0 <= i < |w| :: !IsSpace(w[i])
  }

  predicate AllWords(ws: seq<string>) {
    forall w | w in ws :: IsWord(w)
  }

  function Split(s: string): (ws: seq<string>)
    ensures AllWords(ws)
  {
    if s == "" then []
    else if IsSpace(s[0]) then Split(s[1..])
    else [s[..WordLength(s)]] + Split(s[WordLength(s)..])
  }

  function Join(ws: seq<string>): string {
    if ws == [] then ""
    else if |ws| == 1 then ws[0]
    else ws[0] + " " + Join(ws[1..])
  }

  lemma {:induction false} WordLengthOfWord(w: string, rest: string)
    requires forall i | 0 <= i < |w| :: !IsSpace(w[i])
    requires rest == "" || IsSpace(rest[0])
    ensures WordLength(w + rest) == |w|
  {
    if w == "" {
      assert w + rest == rest;
    } else {
      WordLengthOfWord(w[1..], rest);
      assert (w + rest)[1..] == w[1..] + rest;
    }
  }

  lemma SplitFirstWord(w: string, rest: string)
    requires IsWord(w) && (rest == "" || IsSpace(rest[0]))
    ensures Split(w + rest) == [w] + Split(rest)
  {
    WordLengthOfWord(w, rest);
    assert (w + rest)[..|w|] == w && (w + rest)[|w|..] == rest;
  }

  /** Joining words and splitting the result gives the words back. */
  lemma {:induction false} SplitJoin(ws: seq<string>)
    requires AllWords(ws)
    ensures Split(Join(ws)) == ws
  {
    if |ws| == 1 {
      SplitFirstWord(ws[0], "");
      assert ws[0] + "" == ws[0];
    } else if ws != [] {
      var rest := " " + Join(ws[1..]);
      SplitFirstWord(ws[0], rest);
      assert rest[1..] == Join(ws[1..]);
      SplitJoin(ws[1..]);
      assert ws[0] + " " + Join(ws[1..]) == ws[0] + rest;
    }
  }

  /** Where `(?<=[.!?])\s+` first matches in `s`, at or after `from`. */
  function SentenceEnd(s: string, from: nat): (p: Option<nat>)
    ensures p.Some? ==> from <= p.value < |s| && IsSpace(s[p.value])
    decreases |s| - from
  {
    if from >= |s| then None
    else if 0 < from && s[from - 1] in ".!?" && IsSpace(s[from]) then Some(from)
    else SentenceEnd(s, from + 1)
  }

  /** At a space between two joined words, the text so far is a number of whole words. */
  lemma {:induction false} CutAtSpace(ws: seq<string>, p: nat)
    requires AllWords(ws)
    requires p < |Join(ws)| && IsSpace(Join(ws)[p])
    ensures |Split(Join(ws)[..p + 1])| < |ws|
    ensures Split(Join(ws)[..p + 1]) <= ws
    decreases |ws|
  {
    var w, text := ws[0], Join(ws);
    assert IsWord(w) && AllWords(ws[1..]);
    assert |ws| > 1;
    var rest := Join(ws[1..]);
    assert text == w + (" " + rest);
    assert forall q | 0 <= q < |w| :: text[q] == w[q];
    var tail := (" " + rest)[..p + 1 - |w|];
    assert text[..p + 1] == w + tail;
    SplitFirstWord(w, tail);
    assert tail[1..] == rest[..p - |w|];
    if p == |w| {
      assert tail[1..] == "";
    } else {
      assert rest[p - |w| - 1] == text[p];
      CutAtSpace(ws[1..], p - |w| - 1);
    }
  }

  // ---------- sentence ends in joined words ----------

  predicate SentenceEndsAt(s: string, q: nat) {
    0 < q < |s| && s[q - 1] in ".!?" && IsSpace(s[q])
  }

  lemma {:induction false} SentenceEndIsFirst(s: string, from: nat)
    ensures var p := SentenceEnd(s, from);
            if p.None? then forall q | from <= q :: !SentenceEndsAt(s, q)
            else
              && from <= p.value && SentenceEndsAt(s, p.value)
              && forall q | from <= q < p.value :: !SentenceEndsAt(s, q)
    decreases |s| - from
  {
    if from < |s| {
      SentenceEndIsFirst(s, from + 1);
    }
  }

  predicate EndsSentence(w: string) {
    w != "" && w[|w| - 1] in ".!?"
  }

  lemma {:induction false} JoinOfParts(ws: seq<string>, m: nat)
    requires 1 <= m < |ws|
    ensures Join(ws) == Join(ws[..m]) + (" " + Join(ws[m..]))
  {
    if m == 1 {
      assert ws[..1] == [ws[0]];
    } else {
      JoinOfParts(ws[1..], m - 1);
      assert ws[..m][1..] == ws[1..][..m - 1] && ws[1..][m - 1..] == ws[m..];
      assert ws[0] + " " + (Join(ws[1..][..m - 1]) + (" " + Join(ws[m..])))
          == ws[0] + " " + Join(ws[1..][..m - 1]) + (" " + Join(ws[m..]));
    }
  }

  /** White space in joined words stands between two of them. */
  lemma {:induction false} SpaceIsBetween(ws: seq<string>, p: nat) returns (m: nat)
    requires AllWords(ws) && p < |Join(ws)| && IsSpace(Join(ws)[p])
    ensures 1 <= m < |ws| && p == |Join(ws[..m])|
    decreases |ws|
  {
    var w := ws[0];
    assert IsWord(w);
    assert forall q | 0 <= q < |w| :: Join(ws)[q] == w[q];
    assert |ws| > 1;
    var rest := ws[1..];
    assert Join(ws) == w + (" " + Join(rest));
    m := 1;
    assert ws[..1] == [w];
    if p > |w| {
      assert Join(rest)[p - |w| - 1] == Join(ws)[p];
      var k := SpaceIsBetween(rest, p - |w| - 1);
      m := k + 1;
      assert ws[..m][1..] == rest[..k];
    }
  }

  lemma {:induction false} JoinEndsWithLast(ws: seq<string>)
    requires AllWords(ws) && ws != []
    ensures |Join(ws)| >= |ws[|ws| - 1]| >= 1
    ensures Join(ws)[|Join(ws)| - 1] == ws[|ws| - 1][|ws[|ws| - 1]| - 1]
  {
    assert IsWord(ws[|ws| - 1]);
    if |ws| > 1 {
      JoinEndsWithLast(ws[1..]);
    }
  }

  /** A sentence ends in joined words exactly behind a word, other than the last, that ends one. */
  lemma SentenceInWords(ws: seq<string>, p: nat) returns (m: nat)
    requires AllWords(ws) && SentenceEndsAt(Join(ws), p)
    ensures 1 <= m < |ws| && EndsSentence(ws[m - 1]) && p == |Join(ws[..m])| && Join(ws)[..p] == Join(ws[..m])
  {
    m := SpaceIsBetween(ws, p);
    hide Join;
    JoinOfParts(ws, m);
    JoinEndsWithLast(ws[..m]);
  }

  lemma WordsInSentence(ws: seq<string>, m: nat)
    requires AllWords(ws) && 1 <= m < |ws| && EndsSentence(ws[m - 1])
    ensures SentenceEndsAt(Join(ws), |Join(ws[..m])|)
  {
    hide Join;
    JoinOfParts(ws, m);
    JoinEndsWithLast(ws[..m]);
  }

  /** More words, more text. */
  lemma JoinGrows(ws: seq<string>, m: nat, n: nat)
    requires 1 <= m < n <= |ws|
    ensures |Join(ws[..m])| < |Join(ws[..n])|
  {
    assert ws[..n][..m] == ws[..m];
    JoinOfParts(ws[..n], m);
  }

  /** A space behind the last word changes nothing. */
  lemma {:induction false} SplitJoinSpace(ws: seq<string>)
    requires AllWords(ws)
    ensures Split(Join(ws) + " ") == ws
  {
    if ws == [] {
      assert "" + " " == " " && " "[1..] == "";
    } else {
      var w, rest := ws[0], ws[1..];
      var tail := if rest == [] then " " else " " + (Join(rest) + " ");
      assert IsWord(w) && Join(ws) + " " == w + tail;
      SplitFirstWord(w, tail);
      SplitJoinSpace(rest);
      hide Join, IsWord;
      assert tail[1..] == if rest == [] then "" else Join(rest) + " ";
    }
  }
}
