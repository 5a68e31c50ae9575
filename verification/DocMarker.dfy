/**
  The doc-id marker of the recall harness (bench/bisect_harness.py): an id is encoded,
  stamped into a document's first body line, and read back from what was ingested.
*/
module DocMarker {
  import opened Words
  import opened Wrappers

  // ---------- encoding ----------

  /** `s.replace(pat, rep)`. */
  function Replace(s: string, pat: string, rep: string): string
    requires pat != ""
  {
    if s == "" then ""
    else if pat <= s then rep + Replace(s[|pat|..], pat, rep)
    else [s[0]] + Replace(s[1..], pat, rep)
  }

  function Encode(id: string): string {
    Replace(Replace(Replace(id, "%", "%25"), "]", "%5D"), "\n", "%0A")
  }

  function Decode(encoded: string): string {
    Replace(Replace(Replace(encoded, "%5D", "]"), "%0A", "\n"), "%25", "%")
  }

  /** Each character on its own, with those escaped that the flags say. */
  function Escape(s: string, percent: bool, bracket: bool, newline: bool): string {
    if s == "" then ""
    else
      var rest := Escape(s[1..], percent, bracket, newline);
      if s[0] == '%' && percent then "%25" + rest
      else if s[0] == ']' && bracket then "%5D" + rest
      else if s[0] == '\n' && newline then "%0A" + rest
      else [s[0]] + rest
  }

  lemma {:induction false} NothingEscaped(s: string)
    ensures Escape(s, false, false, false) == s
  {
    if s != "" {
      NothingEscaped(s[1..]);
    }
  }

  lemma {:induction false} EncodePercent(s: string)
    ensures Replace(s, "%", "%25") == Escape(s, true, false, false)
  {
    if s != "" {
      EncodePercent(s[1..]);
    }
  }

  lemma {:induction false} EncodeBracket(s: string)
    ensures Replace(Escape(s, true, false, false), "]", "%5D") == Escape(s, true, true, false)
  {
    if s != "" {
      EncodeBracket(s[1..]);
      var rest := Escape(s[1..], true, false, false);
      if s[0] == '%' {
        ReplaceSkips("%25", rest, "]", "%5D");
      } else if s[0] == ']' {
        assert "]" <= "]" + rest && ("]" + rest)[1..] == rest;
      } else {
        ReplaceSkips([s[0]], rest, "]", "%5D");
      }
    }
  }

  lemma {:induction false} EncodeNewline(s: string)
    ensures Replace(Escape(s, true, true, false), "\n", "%0A") == Escape(s, true, true, true)
  {
    if s != "" {
      EncodeNewline(s[1..]);
      var rest := Escape(s[1..], true, true, false);
      if s[0] == '%' {
        ReplaceSkips("%25", rest, "\n", "%0A");
      } else if s[0] == ']' {
        ReplaceSkips("%5D", rest, "\n", "%0A");
      }
    }
  }

  /** Text without the first character of the pattern is passed over. */
  lemma {:induction false} ReplaceSkips(a: string, b: string, pat: string, rep: string)
    requires pat != "" && pat[0] !in a
    ensures Replace(a + b, pat, rep) == a + Replace(b, pat, rep)
  {
    if a == "" {
      assert a + b == b;
    } else {
      assert (a + b)[0] == a[0] && (a + b)[1..] == a[1..] + b;
      ReplaceSkips(a[1..], b, pat, rep);
    }
  }

  lemma {:induction false} DecodeBracket(s: string)
    ensures Replace(Escape(s, true, true, true), "%5D", "]") == Escape(s, true, false, true)
  {
    if s != "" {
      DecodeBracket(s[1..]);
      StepOver(s[0], Escape(s[1..], true, true, true), "%5D", "]");
    }
  }

  lemma {:induction false} DecodeNewline(s: string)
    ensures Replace(Escape(s, true, false, true), "%0A", "\n") == Escape(s, true, false, false)
  {
    if s != "" {
      DecodeNewline(s[1..]);
      StepOver(s[0], Escape(s[1..], true, false, true), "%0A", "\n");
    }
  }

  lemma {:induction false} DecodePercent(s: string)
    ensures Replace(Escape(s, true, false, false), "%25", "%") == Escape(s, false, false, false)
  {
    if s != "" {
      DecodePercent(s[1..]);
      StepOver(s[0], Escape(s[1..], true, false, false), "%25", "%");
    }
  }

  /** A decoding step passes over an escape that differs from its own in the second character. */
  lemma OtherEscape(other: string, rest: string, pat: string, rep: string)
    requires |other| == |pat| == 3 && pat[0] == other[0] == '%' && pat[1] != other[1]
    requires '%' !in other[1..]
    ensures Replace(other + rest, pat, rep) == other + Replace(rest, pat, rep)
  {
    var all := other + rest;
    assert all[1] == other[1] && all[0] == other[0];
    assert all[1..] == other[1..] + rest && other == [other[0]] + other[1..];
    ReplaceSkips(other[1..], rest, pat, rep);
  }

  /** A decoding step replaces its own escape, and passes over the other two and over plain characters. */
  lemma StepOver(c: char, rest: string, pat: string, rep: string)
    requires pat in {"%25", "%5D", "%0A"}
    ensures Replace(pat + rest, pat, rep) == rep + Replace(rest, pat, rep)
    ensures pat != "%25" ==> Replace("%25" + rest, pat, rep) == "%25" + Replace(rest, pat, rep)
    ensures pat != "%5D" ==> Replace("%5D" + rest, pat, rep) == "%5D" + Replace(rest, pat, rep)
    ensures pat != "%0A" ==> Replace("%0A" + rest, pat, rep) == "%0A" + Replace(rest, pat, rep)
    ensures c != '%' ==> Replace([c] + rest, pat, rep) == [c] + Replace(rest, pat, rep)
  {
    assert (pat + rest)[|pat|..] == rest && pat <= pat + rest;
    if c != '%' { ReplaceSkips([c], rest, pat, rep); }
    hide Replace;
    if pat != "%25" { OtherEscape("%25", rest, pat, rep); }
    if pat != "%5D" { OtherEscape("%5D", rest, pat, rep); }
    if pat != "%0A" { OtherEscape("%0A", rest, pat, rep); }
  }

  /** The encoding reads back as the id it came from, for every string. */
  lemma EncodeRoundTrip(id: string)
    ensures Decode(Encode(id)) == id
    ensures Encode(id) == Escape(id, true, true, true)
  {
    EncodePercent(id);
    EncodeBracket(id);
    EncodeNewline(id);
    DecodeBracket(id);
    DecodeNewline(id);
    DecodePercent(id);
    NothingEscaped(id);
  }

  lemma {:induction false} EscapedHasNoDelimiter(id: string)
    ensures ']' !in Escape(id, true, true, true) && '\n' !in Escape(id, true, true, true)
    ensures Escape(id, true, true, true) == "" <==> id == ""
  {
    if id != "" {
      EscapedHasNoDelimiter(id[1..]);
    }
  }

  lemma EncodedHasNoDelimiter(id: string)
    ensures ']' !in Encode(id) && '\n' !in Encode(id)
    ensures Encode(id) == "" <==> id == ""
  {
    EncodeRoundTrip(id);
    EscapedHasNoDelimiter(id);
  }

  // ---------- stamping ----------

  const PREFIX := "[membench_doc_id::"

  /** The line boundaries of `str.splitlines`. */
  predicate IsLineBreak(c: char) {
    var k := c as int;
    0x0a <= k <= 0x0d || 0x1c <= k <= 0x1e || k == 0x85 || k == 0x2028 || k == 0x2029
  }

  /** The length of the first line with its line end. */
  function LineLength(s: string): (n: nat)
    ensures n <= |s| && (s != "" ==> n > 0)
    ensures n < |s| ==> IsLineBreak(s[n - 1]) && !(s[n - 1] == '\r' && s[n] == '\n')
    ensures forall i | 0 <= i < n - 1 && IsLineBreak(s[i]) :: i == n - 2 && s[i] == '\r' && s[i + 1] == '\n'
  {
    if s == "" then 0
    else if s[0] == '\r' && |s| > 1 && s[1] == '\n' then 2
    else if IsLineBreak(s[0]) then 1
    else 1 + LineLength(s[1..])
  }

  function SplitLines(s: string): seq<string> {
    if s == "" then [] else [s[..LineLength(s)]] + SplitLines(s[LineLength(s)..])
  }

  function Concat(lines: seq<string>): string {
    if lines == [] then "" else lines[0] + Concat(lines[1..])
  }

  /** Neither blank nor a heading. */
  predicate IsBody(line: string) {
    Lstrip(line) != "" && Lstrip(line)[0] != '#'
  }

  /** The number of lines before the first body line. */
  function BodyIndex(lines: seq<string>): (i: nat)
    ensures i <= |lines|
    ensures forall k | 0 <= k < i :: !IsBody(lines[k])
    ensures i < |lines| ==> IsBody(lines[i])
  {
    if lines == [] || IsBody(lines[0]) then 0 else 1 + BodyIndex(lines[1..])
  }

  /** The text in front of the first body line. */
  function Lead(text: string): string {
    var lines := SplitLines(text);
    Concat(lines[..BodyIndex(lines)])
  }

  predicate HasBody(text: string) {
    BodyIndex(SplitLines(text)) < |SplitLines(text)|
  }

  /** The text from the first body line on, without its leading white space. */
  function Rest(text: string): string
    requires HasBody(text)
  {
    var lines := SplitLines(text);
    var i := BodyIndex(lines);
    Lstrip(lines[i]) + Concat(lines[i + 1..])
  }

  /** The stamped text: the marker at the first body line, or a marker line in front of everything. */
  function Marked(id: string, text: string): string {
    if HasBody(text) then Lead(text) + (PREFIX + Encode(id) + "]" + (" " + Rest(text)))
    else PREFIX + Encode(id) + "]" + ("\n\n" + text)
  }

  lemma StampedLine(id: string, text: string, i: nat)
    requires i < |SplitLines(text)| && BodyIndex(SplitLines(text)) == i
    ensures var lines := SplitLines(text);
            Concat(lines[i := PREFIX + Encode(id) + "] " + Lstrip(lines[i])]) == Marked(id, text)
  {
    hide SplitLines, Lstrip, Encode, BodyIndex, IsBody;
    var lines := SplitLines(text);
    var marker, body, rest := PREFIX + Encode(id) + "]", Lstrip(lines[i]), Concat(lines[i + 1..]);
    var line := PREFIX + Encode(id) + "] " + body;
    assert line == marker + (" " + body);
    var stamped := lines[i := line];
    ConcatAt(stamped, i);
    assert stamped[..i] == lines[..i] && stamped[i + 1..] == lines[i + 1..];
    hide Concat;
    assert Concat(lines[..i]) + (marker + (" " + body)) + rest == Concat(lines[..i]) + (marker + (" " + (body + rest)));
  }

  method MarkContent(id: string, text: string) returns (marked: string)
    ensures marked == Marked(id, text)
    ensures marked == if HasBody(text) then Lead(text) + ("[membench_doc_id::" + Encode(id) + "] ") + Rest(text)
                      else "[membench_doc_id::" + Encode(id) + "]\n\n" + text
  {
    hide SplitLines, Lstrip, Encode;
    var marker := PREFIX + Encode(id) + "] ";
    var lines := SplitLines(text);
    for i := 0 to |lines|
      invariant forall k | 0 <= k < i :: !IsBody(lines[k])
    {
      if IsBody(lines[i]) {
        StampedLine(id, text, i);
        lines := lines[i := marker + Lstrip(lines[i])];
        return Concat(lines);
      }
    }
    marked := PREFIX + Encode(id) + "]" + "\n\n" + text;
    assert marked == PREFIX + Encode(id) + "]" + ("\n\n" + text);
  }

  lemma {:induction false} ConcatAt(lines: seq<string>, i: nat)
    requires i < |lines|
    ensures Concat(lines) == Concat(lines[..i]) + lines[i] + Concat(lines[i + 1..])
  {
    if i > 0 {
      ConcatAt(lines[1..], i - 1);
      assert lines[..i][1..] == lines[1..][..i - 1];
    }
  }

  lemma {:induction false} LinesJoin(s: string)
    ensures Concat(SplitLines(s)) == s
    decreases |s|
  {
    if s != "" {
      var n := LineLength(s);
      LinesJoin(s[n..]);
      assert s == s[..n] + s[n..];
    }
  }

  lemma {:induction false} LstripDrops(s: string) returns (indent: string)
    ensures s == indent + Lstrip(s) && forall i | 0 <= i < |indent| :: IsSpace(indent[i])
  {
    indent := "";
    if s != "" && IsSpace(s[0]) {
      indent := LstripDrops(s[1..]);
      indent := [s[0]] + indent;
    }
  }

  /** Apart from the marker, stamping drops nothing but white space in front of the body line. */
  lemma StampKeepsText(text: string) returns (indent: string)
    requires HasBody(text)
    ensures text == Lead(text) + indent + Rest(text) && forall i | 0 <= i < |indent| :: IsSpace(indent[i])
  {
    hide SplitLines, BodyIndex, Lstrip;
    var lines, i := SplitLines(text), BodyIndex(SplitLines(text));
    LinesJoin(text);
    ConcatAt(lines, i);
    indent := LstripDrops(lines[i]);
    var lead, body, rest := Concat(lines[..i]), Lstrip(lines[i]), Concat(lines[i + 1..]);
    assert lead + (indent + body) + rest == lead + indent + (body + rest);
  }

  /** What comes before the first body line ends a line. */
  lemma {:induction false} LinesEnd(s: string, i: nat)
    requires i < |SplitLines(s)|
    ensures var lead := Concat(SplitLines(s)[..i]); lead == "" || IsLineBreak(lead[|lead| - 1])
    decreases i
  {
    if i > 0 {
      var n := LineLength(s);
      var lines, rest := SplitLines(s), SplitLines(s[n..]);
      assert n < |s|;
      LinesEnd(s[n..], i - 1);
      assert lines[..i][1..] == rest[..i - 1];
      assert Concat(lines[..i]) == s[..n] + Concat(rest[..i - 1]);
    }
  }

  // ---------- reading back ----------

  /** The length of `[^\]\n]*` at the start of a text. */
  function Run(s: string): (k: nat)
    ensures k <= |s|
    ensures forall i | 0 <= i < k :: s[i] != ']' && s[i] != '\n'
    ensures k < |s| ==> s[k] == ']' || s[k] == '\n'
  {
    if s == "" || s[0] == ']' || s[0] == '\n' then 0 else 1 + Run(s[1..])
  }

  /** The group `([^\]\n]+)\]` matches at the start of a text. */
  function Group(t: string): Option<string> {
    if 0 < Run(t) < |t| && t[Run(t)] == ']' then Some(t[..Run(t)]) else None
  }

  /** The group of the marker pattern matched at the start of a text. */
  function MatchAt(s: string): Option<string> {
    if PREFIX <= s then Group(s[|PREFIX|..]) else None
  }

  /** The group of the first match. */
  function Search(s: string): Option<string> {
    if s == "" then None
    else if MatchAt(s).Some? then MatchAt(s)
    else Search(s[1..])
  }

  /** `group` and a bracket are at the start of `t`. */
  predicate Begins(t: string, group: string) {
    |group| < |t| && t[..|group|] == group && t[|group|] == ']'
  }

  lemma GroupExactly(t: string, group: string)
    ensures Group(t) == Some(group) <==> group != "" && ']' !in group && '\n' !in group && Begins(t, group)
  {
    var k := Run(t);
    if Begins(t, group) && ']' !in group && '\n' !in group {
      assert forall i | 0 <= i < |group| :: t[i] == group[i] && t[i] in group;
      assert !(k < |group|) && !(|group| < k);
    }
  }

  /** What the pattern matches at the start of a text: the prefix, anything without brackets and newlines, a bracket. */
  lemma MatchExactly(s: string, group: string)
    ensures MatchAt(s) == Some(group) <==>
              && group != "" && ']' !in group && '\n' !in group
              && PREFIX <= s && Begins(s[|PREFIX|..], group)
  {
    if PREFIX <= s {
      GroupExactly(s[|PREFIX|..], group);
    }
    hide Group, Begins;
  }

  /** The search yields the first match. */
  lemma {:induction false} SearchIsFirst(s: string) returns (k: nat)
    ensures k <= |s| && (forall i | 0 <= i < k :: MatchAt(s[i..]).None?)
    ensures if k < |s| then Search(s) == MatchAt(s[k..]) && Search(s).Some? else Search(s).None?
  {
    hide MatchAt;
    k := 0;
    if s != "" {
      assert s[0..] == s;
      if MatchAt(s).None? {
        var l := SearchIsFirst(s[1..]);
        k := l + 1;
        forall i | 0 <= i < k ensures MatchAt(s[i..]).None? {
          assert i > 0 ==> s[i..] == s[1..][i - 1..];
        }
        assert s[k..] == s[1..][l..];
      }
    }
  }

  /** The id that the first marker names, if it is one of the valid ones. */
  function DocIdFromContent(content: string, valid: set<string>): (id: Option<string>)
    ensures id.Some? <==> Search(content).Some? && Decode(Search(content).value) in valid
    ensures id.Some? ==> id.value in valid
  {
    match Search(content)
    case None => None
    case Some(group) => if Decode(group) in valid then Some(Decode(group)) else None
  }

  lemma {:induction false} NoMatchWithoutBracket(s: string)
    requires ']' !in s
    ensures Search(s).None?
  {
    if s != "" {
      NoMatchWithoutBracket(s[1..]);
    }
  }

  lemma {:induction false} RunOfSum(a: string, b: string)
    ensures Run(a) < |a| ==> Run(a + b) == Run(a)
    ensures Run(a) == |a| ==> Run(a + b) == |a| + Run(b)
  {
    if a == "" {
      assert a + b == b;
    } else {
      RunOfSum(a[1..], b);
      assert (a + b)[1..] == a[1..] + b;
    }
  }

  /** Nothing a line ends with is part of the marker prefix. */
  predicate EndsLine(s: string) {
    s == "" || IsLineBreak(s[|s| - 1])
  }

  /** What stands for a marker behind `lead`: enough to close a marker that `lead` leaves open. */
  const CLOSER := "x]"

  /** No marker in `lead`, closed in it or left open at its end. */
  predicate Clear(lead: string) {
    Search(lead + CLOSER).None?
  }

  /** The prefix does not begin inside `lead` and end behind it. */
  lemma PrefixInside(lead: string, tail: string)
    requires lead != "" && EndsLine(lead)
    ensures PREFIX <= lead + tail <==> PREFIX <= lead
  {
    var all := lead + tail;
    var last := |lead| - 1;
    assert all[last] == lead[last];
    if |lead| < |PREFIX| {
      assert forall i | 0 <= i < |PREFIX| :: !IsLineBreak(PREFIX[i]);
    } else {
      assert all[..|PREFIX|] == lead[..|PREFIX|];
    }
  }

  lemma GroupOfSum(t: string, tail: string)
    requires Group(tail).Some?
    ensures Run(t) < |t| ==> Group(t + tail) == Group(t)
    ensures Run(t) == |t| ==> Group(t + tail) == Some(t + Group(tail).value) && Group(t).None?
  {
    hide Run;
    var k, all := Run(t), t + tail;
    RunOfSum(t, tail);
    if k < |t| {
      SumBefore(t, tail, k);
      assert Run(all) == k && all[k] == t[k] && all[..k] == t[..k];
    } else {
      SumBehind(t, tail, Run(tail));
      assert Run(all) == |t| + Run(tail) && all[Run(all)] == ']';
    }
  }

  lemma SumBefore(a: string, b: string, k: nat)
    requires k < |a|
    ensures (a + b)[k] == a[k] && (a + b)[..k] == a[..k]
  {
  }

  lemma SumBehind(a: string, b: string, k: nat)
    requires k < |b|
    ensures (a + b)[|a| + k] == b[k] && (a + b)[..|a| + k] == a + b[..k]
  {
  }

  /** What is matched at the start of `lead` when the rest of a marker follows. */
  lemma MatchAtStart(lead: string, tail: string)
    requires lead != "" && EndsLine(lead) && Group(tail).Some?
    ensures PREFIX <= lead + tail <==> PREFIX <= lead
    ensures PREFIX <= lead ==>
              var t := lead[|PREFIX|..];
              if Run(t) < |t| then MatchAt(lead + tail) == MatchAt(lead)
              else MatchAt(lead + tail) == Some(t + Group(tail).value) && MatchAt(lead).None?
  {
    PrefixInside(lead, tail);
    hide Group, EndsLine;
    if PREFIX <= lead {
      var t := lead[|PREFIX|..];
      GroupOfSum(t, tail);
      assert (lead + tail)[|PREFIX|..] == t + tail;
    }
  }

  lemma OpenHasNoBracket(lead: string)
    requires PREFIX <= lead && Run(lead[|PREFIX|..]) == |lead| - |PREFIX|
    ensures ']' !in lead
  {
    var t := lead[|PREFIX|..];
    assert lead == PREFIX + t;
    assert ']' !in PREFIX && ']' !in t;
  }

  lemma CloserCloses()
    ensures Group(CLOSER) == Some("x") && Search(CLOSER).None?
  {
    assert CLOSER[1..] == "]" && "]"[1..] == "" && Run("]") == 0 && CLOSER[..1] == "x";
    assert !(PREFIX <= CLOSER) && !(PREFIX <= "]");
  }

  /** What is matched first when a text that closes a marker body follows. */
  lemma {:induction false} SearchPastLead(lead: string, tail: string)
    requires EndsLine(lead) && Group(tail).Some?
    ensures Search(lead).Some? ==> Search(lead + tail) == Search(lead)
    ensures Search(lead).None? && Clear(lead) ==> Search(lead + tail) == Search(tail)
    ensures Search(lead).None? && !Clear(lead) ==>
              exists open: string :: Search(lead + tail) == Some(open + Group(tail).value)
  {
    CloserCloses();
    if lead == "" {
      assert lead + tail == tail && lead + CLOSER == CLOSER;
    } else {
      MatchAtStart(lead, tail);
      MatchAtStart(lead, CLOSER);
      assert (lead + tail)[1..] == lead[1..] + tail && (lead + CLOSER)[1..] == lead[1..] + CLOSER;
      hide Group, Run;
      if PREFIX <= lead && Run(lead[|PREFIX|..]) == |lead| - |PREFIX| {
        OpenHasNoBracket(lead);
        NoMatchWithoutBracket(lead);
      } else {
        SearchPastLead(lead[1..], tail);
      }
    }
  }

  // ---------- the stamped id comes back ----------

  lemma PatternInside(a: string, b: string, pat: string)
    requires b != "" && b[0] !in pat
    ensures pat <= a + b <==> pat <= a
  {
    var all := a + b;
    if |a| < |pat| {
      assert all[|a|] == b[0] && pat[|a|] in pat;
    } else {
      assert all[..|pat|] == a[..|pat|];
    }
  }

  lemma ReplaceHere(s: string, pat: string, rep: string)
    requires pat != "" && pat <= s
    ensures Replace(s, pat, rep) == rep + Replace(s[|pat|..], pat, rep)
  {
  }

  lemma ReplaceLater(s: string, pat: string, rep: string)
    requires pat != "" && s != "" && !(pat <= s)
    ensures Replace(s, pat, rep) == [s[0]] + Replace(s[1..], pat, rep)
  {
  }

  /** A text cut in front of a character the pattern does not have is replaced piece by piece. */
  lemma {:induction false} ReplaceSplits(a: string, b: string, pat: string, rep: string)
    requires pat != "" && b != "" && b[0] !in pat
    ensures Replace(a + b, pat, rep) == Replace(a, pat, rep) + Replace(b, pat, rep)
    decreases |a|
  {
    PatternInside(a, b, pat);
    if a == "" {
      assert a + b == b;
    } else if pat <= a {
      ReplaceSplits(a[|pat|..], b, pat, rep);
      SplitHere(a, b, pat, rep);
    } else {
      ReplaceSplits(a[1..], b, pat, rep);
      SplitLater(a, b, pat, rep);
    }
  }

  lemma SplitHere(a: string, b: string, pat: string, rep: string)
    requires pat != "" && pat <= a && pat <= a + b
    requires Replace(a[|pat|..] + b, pat, rep) == Replace(a[|pat|..], pat, rep) + Replace(b, pat, rep)
    ensures Replace(a + b, pat, rep) == Replace(a, pat, rep) + Replace(b, pat, rep)
  {
    hide Replace;
    ReplaceHere(a, pat, rep);
    ReplaceHere(a + b, pat, rep);
    assert (a + b)[|pat|..] == a[|pat|..] + b;
  }

  lemma SplitLater(a: string, b: string, pat: string, rep: string)
    requires pat != "" && a != "" && !(pat <= a) && !(pat <= a + b)
    requires Replace(a[1..] + b, pat, rep) == Replace(a[1..], pat, rep) + Replace(b, pat, rep)
    ensures Replace(a + b, pat, rep) == Replace(a, pat, rep) + Replace(b, pat, rep)
  {
    hide Replace;
    ReplaceLater(a, pat, rep);
    ReplaceLater(a + b, pat, rep);
    assert (a + b)[1..] == a[1..] + b;
  }

  lemma DecodeSplits(open: string, encoded: string)
    ensures Decode(open + (PREFIX + encoded)) == Decode(open) + (PREFIX + Decode(encoded))
  {
    var b0 := PREFIX + encoded;
    var e1 := Replace(encoded, "%5D", "]");
    var e2 := Replace(e1, "%0A", "\n");
    ReplaceSkips(PREFIX, encoded, "%5D", "]");
    ReplaceSkips(PREFIX, e1, "%0A", "\n");
    ReplaceSkips(PREFIX, e2, "%25", "%");
    ReplaceSplits(open, b0, "%5D", "]");
    var o1 := Replace(open, "%5D", "]");
    ReplaceSplits(o1, PREFIX + e1, "%0A", "\n");
    var o2 := Replace(o1, "%0A", "\n");
    ReplaceSplits(o2, PREFIX + e2, "%25", "%");
  }

  lemma {:induction false} RunOfClean(s: string)
    requires ']' !in s && '\n' !in s
    ensures Run(s) == |s|
  {
    if s != "" {
      assert s[0] in s;
      RunOfClean(s[1..]);
    }
  }

  lemma RunUntil(s: string, rest: string)
    requires ']' !in s && '\n' !in s
    ensures Run(s + "]" + rest) == |s|
  {
    RunOfClean(s);
    RunOfSum(s, "]" + rest);
    assert s + "]" + rest == s + ("]" + rest);
  }

  /** A marker at the start of a text is matched first, and its body closes one left open in front of it. */
  lemma MarkerMatches(encoded: string, rest: string)
    requires encoded != "" && ']' !in encoded && '\n' !in encoded
    ensures var tail := PREFIX + encoded + "]" + rest;
            Search(tail) == Some(encoded) && Group(tail) == Some(PREFIX + encoded)
  {
    var tail := PREFIX + encoded + "]" + rest;
    RunUntil(encoded, rest);
    assert ']' !in PREFIX && '\n' !in PREFIX;
    RunUntil(PREFIX + encoded, rest);
    assert tail[|PREFIX|..] == encoded + "]" + rest;
    assert (encoded + "]" + rest)[..|encoded|] == encoded;
    assert tail[..|PREFIX| + |encoded|] == PREFIX + encoded;
  }

  /**
    What is read back from a stamped text is the id exactly when the lead holds no
    marker, closed or left open, or its first closed marker names the same id.
  */
  lemma StampedIdComesBack(id: string, lead: string, rest: string, valid: set<string>)
    requires id != "" && id in valid && EndsLine(lead)
    ensures DocIdFromContent(lead + (PREFIX + Encode(id) + "]" + rest), valid) == Some(id) <==>
              Clear(lead) || (Search(lead).Some? && Decode(Search(lead).value) == id)
  {
    var tail := PREFIX + Encode(id) + "]" + rest;
    EncodedHasNoDelimiter(id);
    EncodeRoundTrip(id);
    hide Encode, Decode, Clear, Search, Group, EndsLine;
    MarkerMatches(Encode(id), rest);
    SearchPastLead(lead, tail);
    if Search(lead).Some? {
      ClearHasNoMatch(lead);
    } else if !Clear(lead) {
      var open: string :| Search(lead + tail) == Some(open + Group(tail).value);
      OpenDecodesLonger(open, Encode(id), id);
    }
  }

  lemma OpenDecodesLonger(open: string, encoded: string, id: string)
    requires Decode(encoded) == id
    ensures Decode(open + (PREFIX + encoded)) != id
  {
    hide Decode;
    DecodeSplits(open, encoded);
    assert |Decode(open + (PREFIX + encoded))| > |id|;
  }

  lemma ClearHasNoMatch(lead: string)
    requires EndsLine(lead) && Search(lead).Some?
    ensures !Clear(lead)
  {
    CloserCloses();
    SearchPastLead(lead, CLOSER);
  }

  predicate Mentions(s: string) {
    exists i | 0 <= i <= |s| :: PREFIX <= s[i..]
  }

  lemma {:induction false} NoMentionIsClear(lead: string)
    requires EndsLine(lead) && !Mentions(lead)
    ensures Clear(lead)
  {
    CloserCloses();
    if lead == "" {
      assert lead + CLOSER == CLOSER;
    } else {
      MatchAtStart(lead, CLOSER);
      assert lead[0..] == lead;
      assert forall i | 0 <= i <= |lead[1..]| :: lead[1..][i..] == lead[i + 1..];
      NoMentionIsClear(lead[1..]);
      assert (lead + CLOSER)[1..] == lead[1..] + CLOSER;
    }
  }

  /**
    A valid id stamped into a text is read back from it exactly when the blank and
    heading lines before the body hold no marker of their own, or one that names the
    same id; in particular when they do not mention the prefix, or there is no body.
  */
  lemma MarkedIdComesBack(id: string, text: string, valid: set<string>)
    requires id != "" && id in valid
    ensures var lead := if HasBody(text) then Lead(text) else "";
            && (DocIdFromContent(Marked(id, text), valid) == Some(id) <==>
                  Clear(lead) || (Search(lead).Some? && Decode(Search(lead).value) == id))
            && (!Mentions(lead) ==> Clear(lead))
  {
    hide Encode, Decode, Search, SplitLines, Rest;
    var lead := if HasBody(text) then Lead(text) else "";
    if HasBody(text) {
      LinesEnd(text, BodyIndex(SplitLines(text)));
      StampedIdComesBack(id, lead, " " + Rest(text), valid);
    } else {
      StampedIdComesBack(id, lead, "\n\n" + text, valid);
      assert lead + Marked(id, text) == Marked(id, text);
    }
    if !Mentions(lead) {
      NoMentionIsClear(lead);
    }
  }

  predicate OneLine(s: string) {
    forall c | c in s :: !IsLineBreak(c)
  }

  lemma {:induction false} FirstLine(s: string, rest: string)
    requires OneLine(s)
    ensures LineLength(s + "\n" + rest) == |s| + 1
  {
    var all := s + "\n" + rest;
    if s != "" {
      assert s[0] in s && all[1..] == s[1..] + "\n" + rest;
      FirstLine(s[1..], rest);
    }
  }

  /** A heading in front of a text stays in front of its first body line. */
  lemma HeadingLeads(line: string, body: string)
    requires OneLine(line) && line != "" && line[0] == '#'
    ensures HasBody(line + "\n" + body) <==> HasBody(body)
    ensures HasBody(body) ==> Lead(line + "\n" + body) == line + "\n" + Lead(body)
  {
    var heading, text := line + "\n", line + "\n" + body;
    FirstLine(line, body);
    assert text[..|heading|] == heading && text[|heading|..] == body;
    var lines := SplitLines(body);
    assert SplitLines(text) == [heading] + lines;
    assert heading[0] == '#' && Lstrip(heading) == heading && !IsBody(heading);
    assert ([heading] + lines)[1..] == lines;
    var i := BodyIndex(lines);
    assert ([heading] + lines)[..i + 1] == [heading] + lines[..i];
    assert ([heading] + lines[..i])[1..] == lines[..i];
  }

  /**
    A heading that holds the marker of another valid id is read back in place of
    the stamped id, from every document that has a body line behind it.
  */
  lemma HeadingMarkerWins(id: string, other: string, body: string, valid: set<string>)
    requires other != "" && other in valid && OneLine(Encode(other)) && id != "" && id in valid
    ensures var heading := "# " + (PREFIX + Encode(other) + "]");
            DocIdFromContent(Marked(id, heading + "\n" + body), valid) == Some(if HasBody(body) then other else id)
  {
    var heading, encoded := "# " + (PREFIX + Encode(other) + "]"), Encode(other);
    var text := heading + "\n" + body;
    HeadingIsOneLine(encoded);
    HeadingLeads(heading, body);
    hide Encode, Decode, Search, HasBody, Lead, Rest, OneLine, DocIdFromContent;
    if HasBody(body) {
      var stamp := PREFIX + Encode(id) + "]" + (" " + Rest(text));
      HeadingIsRead(other, "\n" + Lead(body) + stamp, valid);
      Regroup(heading, "\n", Lead(body), stamp);
    } else {
      StampIsRead(id, "\n\n" + text, valid);
    }
  }

  lemma Regroup(a: string, b: string, c: string, d: string)
    ensures (a + b + c) + d == a + (b + c + d)
  {
  }

  lemma StampIsRead(id: string, rest: string, valid: set<string>)
    requires id != "" && id in valid
    ensures DocIdFromContent(PREFIX + Encode(id) + "]" + rest, valid) == Some(id)
  {
    EncodedHasNoDelimiter(id);
    EncodeRoundTrip(id);
    hide Encode, Decode, Search;
    MarkerMatches(Encode(id), rest);
  }

  lemma HeadingIsOneLine(encoded: string)
    requires OneLine(encoded)
    ensures var heading := "# " + (PREFIX + encoded + "]"); OneLine(heading) && heading[0] == '#'
  {
    var heading := "# " + (PREFIX + encoded + "]");
    assert OneLine("# " + PREFIX) && OneLine("]");
    assert heading == ("# " + PREFIX) + encoded + "]";
  }

  lemma HeadingIsRead(other: string, after: string, valid: set<string>)
    requires other != "" && other in valid
    ensures DocIdFromContent("# " + (PREFIX + Encode(other) + "]") + after, valid) == Some(other)
  {
    EncodedHasNoDelimiter(other);
    EncodeRoundTrip(other);
    hide Encode, Decode, Search;
    MarkerMatches(Encode(other), after);
    var marker := PREFIX + Encode(other) + "]" + after;
    SearchSkips(' ', marker);
    SearchSkips('#', " " + marker);
    assert "# " + (PREFIX + Encode(other) + "]") + after == "#" + (" " + marker);
  }

  lemma SearchSkips(c: char, s: string)
    requires c != '['
    ensures Search([c] + s) == Search(s)
  {
    assert ([c] + s)[0] == c && ([c] + s)[1..] == s && PREFIX[0] == '[';
  }
}
