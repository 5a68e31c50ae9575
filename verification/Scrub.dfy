/**
  Choosing and applying redaction spans (bench/membench/scrub.py), given the
  matches of the patterns: longest first, no overlaps, emitted left to right.
*/
module Scrub {
  import opened StableSort

  /** The classes of match, in the order of their names. */
  datatype Kind = Email | Jwt | Key | Name | Pem | Secret

  function Rank(k: Kind): nat {
    match k
    case Email => 0
    case Jwt => 1
    case Key => 2
    case Name => 3
    case Pem => 4
    case Secret => 5
  }

  /** The name of the class. */
  function NameOf(k: Kind): string {
    match k
    case Email => "email"
    case Jwt => "jwt"
    case Key => "key"
    case Name => "name"
    case Pem => "pem"
    case Secret => "secret"
  }

  /** `a <= b` on strings. */
  predicate NotAfter(a: string, b: string) {
    a == "" || (b != "" && (a[0] < b[0] || (a[0] == b[0] && NotAfter(a[1..], b[1..]))))
  }

  lemma RanksFollowNames(a: Kind, b: Kind)
    ensures Rank(a) <= Rank(b) <==> NotAfter(NameOf(a), NameOf(b))
  {
    assert a == b ==> NotAfter(NameOf(a), NameOf(b)) by { NotAfterItself(NameOf(a)); }
  }

  lemma {:induction false} NotAfterItself(a: string)
    ensures NotAfter(a, a)
  {
    if a != "" {
      NotAfterItself(a[1..]);
    }
  }

  datatype Span = Span(start: nat, end: nat, kind: Kind, replacement: string)

  function Length(s: Span): int { s.end - s.start }

  predicate Overlap(a: Span, b: Span) {
    a.start < b.end && b.start < a.end
  }

  /** Longest first, then earliest, then by kind. */
  predicate Preferred(a: Span, b: Span) {
    || Length(a) > Length(b)
    || (Length(a) == Length(b) && (a.start < b.start || (a.start == b.start && Rank(a.kind) <= Rank(b.kind))))
  }

  function ByPreference(): (Span, Span) -> bool { (a, b) => Preferred(a, b) }

  function ByStart(): (Span, Span) -> bool { (a: Span, b: Span) => a.start <= b.start }

  /** The candidates kept on top of `chosen`. */
  function Keep(candidates: seq<Span>, chosen: seq<Span>): seq<Span> {
    if candidates == [] then chosen
    else if exists k | k in chosen :: Overlap(candidates[0], k) then Keep(candidates[1..], chosen)
    else Keep(candidates[1..], chosen + [candidates[0]])
  }

  function Chosen(matches: seq<Span>): seq<Span> {
    Sort(Keep(Sort(matches, ByPreference()), []), ByStart())
  }

  /** `text[i:j]` in Python, for non-negative bounds. */
  function Slice(text: string, i: nat, j: nat): string
    requires j <= |text|
  {
    if i <= j then text[i..j] else ""
  }

  predicate InText(spans: seq<Span>, text: string) {
    forall s | s in spans :: s.start <= s.end <= |text|
  }

  /** The text from `cursor` on with the spans replaced. */
  function Emit(text: string, spans: seq<Span>, cursor: nat): string
    requires InText(spans, text) && cursor <= |text|
  {
    if spans == [] then text[cursor..]
    else
      assert InText(spans[1..], text);
      Slice(text, cursor, spans[0].start) + spans[0].replacement + Emit(text, spans[1..], spans[0].end)
  }

  lemma ChosenFromMatches(matches: seq<Span>, text: string)
    requires InText(matches, text)
    ensures InText(Chosen(matches), text)
  {
    forall s | s in Chosen(matches) ensures s in matches { KeptIsMatch(matches, s); }
  }

  method KeepLongest(matches: seq<Span>) returns (chosen: seq<Span>)
    ensures chosen == Chosen(matches)
  {
    hide Sort, Overlap;
    var ordered := Sort(matches, ByPreference());
    chosen := [];
    assert ordered[0..] == ordered;
    for i := 0 to |ordered|
      invariant Keep(ordered[i..], chosen) == Keep(ordered, [])
    {
      assert ordered[i..][1..] == ordered[i + 1..];
      if !(exists k | k in chosen :: Overlap(ordered[i], k)) {
        chosen := chosen + [ordered[i]];
      }
    }
    chosen := Sort(chosen, ByStart());
  }

  lemma EmitStep(text: string, spans: seq<Span>, i: nat, cursor: nat)
    requires InText(spans, text) && i < |spans| && cursor <= |text|
    ensures InText(spans[i..], text) && InText(spans[i + 1..], text) && spans[i].start <= spans[i].end <= |text|
    ensures Emit(text, spans[i..], cursor)
         == Slice(text, cursor, spans[i].start) + spans[i].replacement + Emit(text, spans[i + 1..], spans[i].end)
  {
    assert spans[i] in spans && spans[i..][1..] == spans[i + 1..];
  }

  method ScrubText(text: string, matches: seq<Span>) returns (scrubbed: string, spans: seq<Span>)
    requires InText(matches, text)
    ensures spans == Chosen(matches) && InText(spans, text)
    ensures scrubbed == Emit(text, spans, 0)
  {
    hide Chosen, Emit, Slice;
    ChosenFromMatches(matches, text);
    var chosen := KeepLongest(matches);
    ghost var all := Emit(text, chosen, 0);
    scrubbed, spans := "", [];
    var cursor: nat := 0;
    assert chosen[0..] == chosen && "" + all == all;
    for i := 0 to |chosen|
      invariant cursor <= |text| && spans == chosen[..i]
      invariant InText(chosen[i..], text) && scrubbed + Emit(text, chosen[i..], cursor) == all
    {
      EmitStep(text, chosen, i, cursor);
      Regroup(scrubbed, Slice(text, cursor, chosen[i].start), chosen[i].replacement,
          Emit(text, chosen[i + 1..], chosen[i].end));
      scrubbed := scrubbed + Slice(text, cursor, chosen[i].start) + chosen[i].replacement;
      cursor := chosen[i].end;
      spans := spans + [chosen[i]];
    }
    EmitNothing(text, cursor);
    assert chosen[|chosen|..] == [];
    scrubbed := scrubbed + text[cursor..];
  }

  lemma Regroup(a: string, b: string, c: string, d: string)
    ensures a + (b + c + d) == a + b + c + d
  {
  }

  lemma EmitNothing(text: string, cursor: nat)
    requires cursor <= |text|
    ensures Emit(text, [], cursor) == text[cursor..]
  {
  }

  // ---------- what is kept ----------

  function Apart(): (Span, Span) -> bool { (a, b) => !Overlap(a, b) }

  lemma {:induction false} KeepFacts(candidates: seq<Span>, chosen: seq<Span>)
    requires Ordered(chosen, Apart()) && Ordered(chosen + candidates, ByPreference())
    ensures var kept := Keep(candidates, chosen);
            && Ordered(kept, Apart()) && Ordered(kept, ByPreference())
            && (forall s | s in kept :: s in chosen || s in candidates)
            && (forall s | s in chosen :: s in kept)
            && (forall s | s in candidates ::
                  s in kept || exists k | k in kept :: Overlap(s, k) && Preferred(k, s))
    decreases |candidates|
  {
    if candidates == [] {
      assert chosen + candidates == chosen;
    } else {
      var c, rest := candidates[0], candidates[1..];
      assert chosen + candidates == (chosen + [c]) + rest;
      var all := chosen + candidates;
      if k :| k in chosen && Overlap(c, k) {
        var i :| 0 <= i < |chosen| && chosen[i] == k;
        assert all[i] == k && all[|chosen|] == c && ByPreference()(all[i], all[|chosen|]);
        var less := chosen + rest;
        forall i, j | 0 <= i < j < |less| ensures ByPreference()(less[i], less[j]) {
          var i', j' := if i < |chosen| then i else i + 1, if j < |chosen| then j else j + 1;
          assert less[i] == all[i'] && less[j] == all[j'];
        }
        KeepFacts(rest, chosen);
      } else {
        forall i | 0 <= i < |chosen| ensures Apart()(chosen[i], c) {
          assert chosen[i] in chosen && !Overlap(c, chosen[i]);
        }
        KeepFacts(rest, chosen + [c]);
      }
    }
  }

  lemma PreferenceIsOrder()
    ensures TotalPreorder(ByPreference())
  {
  }

  lemma KeptFacts(matches: seq<Span>)
    ensures var kept := Keep(Sort(matches, ByPreference()), []);
            && Ordered(kept, Apart()) && Ordered(kept, ByPreference())
            && (forall s | s in kept :: s in matches)
            && (forall s | s in matches :: s in kept || exists k | k in kept :: Overlap(s, k) && Preferred(k, s))
  {
    var ordered := Sort(matches, ByPreference());
    PreferenceIsOrder();
    SortOrders(matches, ByPreference());
    SortKeeps(matches, ByPreference());
    assert [] + ordered == ordered;
    KeepFacts(ordered, []);
    forall s ensures s in ordered <==> s in matches {
      assert s in ordered <==> s in multiset(ordered);
    }
  }

  lemma KeptIsMatch(matches: seq<Span>, s: Span)
    requires s in Chosen(matches)
    ensures s in matches
  {
    var kept := Keep(Sort(matches, ByPreference()), []);
    KeptFacts(matches);
    SortKeeps(kept, ByStart());
    assert s in multiset(Chosen(matches));
  }

  predicate LeftToRight(spans: seq<Span>) {
    forall i, j | 0 <= i < j < |spans| ::
      && !Overlap(spans[i], spans[j])
      && spans[i].start <= spans[j].start
      && (spans[i].start == spans[j].start ==> Length(spans[i]) >= Length(spans[j]))
  }

  /** Longer, or as long and starting earlier, or alike in both and of a class whose name comes no later. */
  predicate GoesFirst(a: Span, b: Span) {
    || a.end - a.start > b.end - b.start
    || (a.end - a.start == b.end - b.start && a.start < b.start)
    || (a.end - a.start == b.end - b.start && a.start == b.start && NotAfter(NameOf(a.kind), NameOf(b.kind)))
  }

  /**
    The chosen spans do not overlap, come in order of start with the longer first,
    and every match left out overlaps a chosen one that goes first: a longer one, an
    equally long one that starts earlier, or one of the same place whose class is
    named no later.
  */
  lemma ChosenFacts(matches: seq<Span>)
    ensures var chosen := Chosen(matches);
            && LeftToRight(chosen)
            && (forall s | s in chosen :: s in matches)
            && (forall s | s in matches && s !in chosen ::
                  exists k | k in chosen :: Overlap(s, k) && GoesFirst(k, s))
  {
    var kept, chosen := Keep(Sort(matches, ByPreference()), []), Chosen(matches);
    KeptFacts(matches);
    SortKeeps(kept, ByStart());
    SortKeepsPairs(kept, ByStart(), Apart());
    SortIsStable(kept, ByStart(), ByPreference());
    forall s ensures s in kept <==> s in chosen {
      assert s in kept <==> s in multiset(kept);
      assert s in chosen <==> s in multiset(chosen);
    }
    forall s | s in matches && s !in chosen ensures exists k | k in chosen :: Overlap(s, k) && GoesFirst(k, s) {
      var k :| k in kept && Overlap(s, k) && Preferred(k, s);
      RanksFollowNames(k.kind, s.kind);
      assert k in chosen && GoesFirst(k, s);
    }
    forall i, j | 0 <= i < j < |chosen|
      ensures !Overlap(chosen[i], chosen[j]) && chosen[i].start <= chosen[j].start
      ensures chosen[i].start == chosen[j].start ==> Length(chosen[i]) >= Length(chosen[j])
    {
      assert Apart()(chosen[i], chosen[j]) && Then(ByStart(), ByPreference())(chosen[i], chosen[j]);
    }
  }

  // ---------- when the output is the text with the spans replaced ----------

  /** Each span starts where the one before it ends, or later. */
  predicate Orderly(spans: seq<Span>, cursor: nat) {
    spans == [] || (cursor <= spans[0].start && Orderly(spans[1..], spans[0].end))
  }

  /** An empty span stands where a chosen span that is not empty starts. */
  predicate EmptyAtStart(spans: seq<Span>, chosen: seq<Span>) {
    exists i, j | 0 <= i < |chosen| && 0 <= j < |spans| ::
      Length(chosen[i]) > 0 && Length(spans[j]) == 0 && chosen[i].start == spans[j].start
  }

  /** What contains an empty span in its inside overlaps every span that starts there. */
  lemma NotPushedAside(chosen: seq<Span>, i: nat, m: Span, k: Span)
    requires LeftToRight(chosen) && i < |chosen| && k in chosen
    requires Length(chosen[i]) > 0 && Length(m) == 0 && chosen[i].start == m.start
    ensures !Overlap(m, k)
  {
    var j :| 0 <= j < |chosen| && chosen[j] == k;
    assert i < j ==> !Overlap(chosen[i], chosen[j]);
    assert j < i ==> !Overlap(chosen[j], chosen[i]);
  }

  lemma ChosenUnlessOverlapped(matches: seq<Span>, m: Span)
    requires m in matches && forall k | k in Chosen(matches) :: !Overlap(m, k)
    ensures m in Chosen(matches)
  {
    hide Chosen, LeftToRight;
    ChosenFacts(matches);
  }

  /** So nothing longer pushes an empty match at the start of a chosen span aside: it is chosen as well. */
  lemma EmptyMatchIsChosen(matches: seq<Span>)
    ensures EmptyAtStart(matches, Chosen(matches)) <==> EmptyAtStart(Chosen(matches), Chosen(matches))
  {
    hide Chosen, LeftToRight, Overlap;
    var chosen := Chosen(matches);
    assert LeftToRight(chosen) by { ChosenFacts(matches); }
    if EmptyAtStart(matches, chosen) {
      var i, j :| 0 <= i < |chosen| && 0 <= j < |matches| &&
        Length(chosen[i]) > 0 && Length(matches[j]) == 0 && chosen[i].start == matches[j].start;
      var m := matches[j];
      forall k | k in chosen ensures !Overlap(m, k) {
        NotPushedAside(chosen, i, m, k);
      }
      ChosenUnlessOverlapped(matches, m);
      var c :| 0 <= c < |chosen| && chosen[c] == m;
    }
    if EmptyAtStart(chosen, chosen) {
      var i, j :| 0 <= i < |chosen| && 0 <= j < |chosen| &&
        Length(chosen[i]) > 0 && Length(chosen[j]) == 0 && chosen[i].start == chosen[j].start;
      KeptIsMatch(matches, chosen[j]);
      var c :| 0 <= c < |matches| && matches[c] == chosen[j];
    }
  }

  function Replaced(spans: seq<Span>): nat {
    if spans == [] then 0 else |spans[0].replacement| + Replaced(spans[1..])
  }

  function Removed(spans: seq<Span>): int {
    if spans == [] then 0 else Length(spans[0]) + Removed(spans[1..])
  }

  /** The original text: the output with each replacement taken out and the removed piece put back. */
  function Restore(out: string, spans: seq<Span>, pieces: seq<string>, cursor: nat): string
    requires |pieces| == |spans|
    decreases |spans|
  {
    if spans == [] then out
    else
      var gap := spans[0].start - cursor;
      if gap < 0 || gap + |spans[0].replacement| > |out| then ""
      else out[..gap] + pieces[0] + Restore(out[gap + |spans[0].replacement|..], spans[1..], pieces[1..], spans[0].end)
  }

  function Pieces(text: string, spans: seq<Span>): (pieces: seq<string>)
    requires InText(spans, text)
    ensures |pieces| == |spans|
  {
    if spans == [] then []
    else
      assert InText(spans[1..], text);
      [text[spans[0].start..spans[0].end]] + Pieces(text, spans[1..])
  }

  /** The output is longer than text and replacements account for by what is emitted twice. */
  lemma {:induction false} EmitLength(text: string, spans: seq<Span>, cursor: nat)
    requires InText(spans, text) && cursor <= |text|
    ensures |Emit(text, spans, cursor)| + Removed(spans) >= |text| - cursor + Replaced(spans)
    ensures |Emit(text, spans, cursor)| + Removed(spans) == |text| - cursor + Replaced(spans)
            <==> Orderly(spans, cursor)
    decreases |spans|
  {
    if spans != [] {
      assert InText(spans[1..], text);
      EmitLength(text, spans[1..], spans[0].end);
    }
  }

  lemma {:induction false} RestoreEmit(text: string, spans: seq<Span>, cursor: nat)
    requires InText(spans, text) && cursor <= |text| && Orderly(spans, cursor)
    ensures Restore(Emit(text, spans, cursor), spans, Pieces(text, spans), cursor) == text[cursor..]
    decreases |spans|
  {
    if spans != [] {
      var s, rest := spans[0], spans[1..];
      assert InText(rest, text);
      RestoreEmit(text, rest, s.end);
      var out, tail := Emit(text, spans, cursor), Emit(text, rest, s.end);
      var gap := s.start - cursor;
      assert out == text[cursor..s.start] + s.replacement + tail;
      hide Emit;
      Parts(text[cursor..s.start], s.replacement, tail);
      assert out[..gap] == text[cursor..s.start] && out[gap + |s.replacement|..] == tail;
      assert text[cursor..] == text[cursor..s.start] + text[s.start..s.end] + text[s.end..];
    }
  }

  lemma Parts(a: string, b: string, c: string)
    ensures (a + b + c)[..|a|] == a && (a + b + c)[|a| + |b|..] == c
  {
  }

  lemma {:induction false} OrderlyPairs(spans: seq<Span>, cursor: nat)
    requires forall i | 0 <= i < |spans| :: spans[i].start <= spans[i].end
    ensures Orderly(spans, cursor) <==>
              && (forall i | 0 <= i < |spans| :: cursor <= spans[i].start)
              && (forall i, j | 0 <= i < j < |spans| :: spans[i].end <= spans[j].start)
    decreases |spans|
  {
    if spans != [] {
      var rest := spans[1..];
      OrderlyPairs(rest, spans[0].end);
      if Orderly(spans, cursor) {
        forall i, j | 0 <= i < j < |spans| ensures spans[i].end <= spans[j].start {
          assert spans[j] == rest[j - 1];
          if i > 0 { assert spans[i] == rest[i - 1]; }
        }
        forall i | 0 <= i < |spans| ensures cursor <= spans[i].start {
          if i > 0 { assert spans[i] == rest[i - 1]; }
        }
      }
    }
  }

  lemma OrderlyUnlessEmptyAtStart(spans: seq<Span>)
    requires LeftToRight(spans) && forall i | 0 <= i < |spans| :: spans[i].start <= spans[i].end
    ensures Orderly(spans, 0) <==> !EmptyAtStart(spans, spans)
  {
    OrderlyPairs(spans, 0);
    hide Orderly;
    if EmptyAtStart(spans, spans) {
      var i, j :| 0 <= i < |spans| && 0 <= j < |spans| &&
        Length(spans[i]) > 0 && Length(spans[j]) == 0 && spans[i].start == spans[j].start;
      assert i < j;
    } else {
      forall i, j | 0 <= i < j < |spans| ensures spans[i].end <= spans[j].start {
        assert !Overlap(spans[i], spans[j]) && spans[i].start <= spans[j].start;
      }
    }
  }

  /**
    The output is the text with exactly the chosen spans replaced, its length
    accounted for and the text recoverable from it, unless one of the matches is
    empty and stands at the start of a chosen span that is not: then part of the
    text comes out again. Of the patterns only that of an empty alias name has
    empty matches.
  */
  lemma ScrubReplacesExactly(matches: seq<Span>, text: string)
    requires InText(matches, text)
    ensures InText(Chosen(matches), text)
    ensures var chosen := Chosen(matches);
            var out := Emit(text, chosen, 0);
            && (|out| == |text| - Removed(chosen) + Replaced(chosen) <==> !EmptyAtStart(matches, chosen))
            && (EmptyAtStart(matches, chosen) ==> |out| > |text| - Removed(chosen) + Replaced(chosen))
            && (!EmptyAtStart(matches, chosen) ==> Restore(out, chosen, Pieces(text, chosen), 0) == text)
            && ((forall m | m in matches :: Length(m) > 0) ==> !EmptyAtStart(matches, chosen))
  {
    ChosenFromMatches(matches, text);
    var chosen := Chosen(matches);
    ChosenFacts(matches);
    forall i | 0 <= i < |chosen| ensures chosen[i].start <= chosen[i].end { assert chosen[i] in chosen; }
    OrderlyUnlessEmptyAtStart(chosen);
    EmptyMatchIsChosen(matches);
    EmitLength(text, chosen, 0);
    assert forall j | 0 <= j < |matches| :: matches[j] in matches;
    if Orderly(chosen, 0) {
      RestoreEmit(text, chosen, 0);
      assert text[0..] == text;
    }
  }

  lemma SortPair(a: Span, b: Span, le: (Span, Span) -> bool)
    requires le(a, b)
    ensures Sort([a, b], le) == [a, b]
  {
    assert [a, b][..1] == [a] && [a][..0] == [];
    assert Sort([a], le) == Insert(a, [], le) == [a];
  }

  lemma KeepPair(a: Span, b: Span)
    requires !Overlap(b, a)
    ensures Keep([a, b], []) == [a, b]
  {
    var none: seq<Span> := [];
    assert [a, b][1..] == [b] && [b][1..] == none;
    assert Keep([a, b], none) == Keep([b], none + [a]) && none + [a] == [a];
    assert Keep([b], [a]) == Keep(none, [a] + [b]);
  }

  lemma ChosenPair(a: Span, b: Span)
    requires Preferred(a, b) && a.start <= b.start && !Overlap(b, a)
    ensures Chosen([a, b]) == [a, b]
  {
    SortPair(a, b, ByPreference());
    KeepPair(a, b);
    SortPair(a, b, ByStart());
    hide Sort, Keep, ByPreference, ByStart;
  }

  lemma EmitPair(text: string, a: Span, b: Span)
    requires a.start <= a.end <= |text| && b.start <= b.end <= |text|
    ensures InText([a, b], text)
    ensures Emit(text, [a, b], 0)
         == text[..a.start] + a.replacement + (Slice(text, a.end, b.start) + b.replacement + text[b.end..])
  {
    assert [a, b][1..] == [b] && [b][1..] == [];
    assert InText([b], text);
    assert Emit(text, [b], a.end) == Slice(text, a.end, b.start) + b.replacement + Emit(text, [], b.end);
    assert Slice(text, 0, a.start) == text[..a.start];
  }

  /** It happens: both matches are chosen, and the text of the first comes out behind its replacement. */
  lemma EmptyMatchRepeatsText(text: string, whole: Span, empty: Span)
    requires text != "" && whole.start == 0 && whole.end == |text| && empty.start == empty.end == 0
    ensures var chosen := Chosen([whole, empty]);
            && InText(chosen, text) && EmptyAtStart(chosen, chosen)
            && Emit(text, chosen, 0) == whole.replacement + (empty.replacement + text)
  {
    hide Chosen, Emit;
    ChosenPair(whole, empty);
    EmitPair(text, whole, empty);
    var spans := [whole, empty];
    assert spans[0] == whole && spans[1] == empty;
    assert text[..0] + whole.replacement == whole.replacement;
    assert Slice(text, |text|, 0) + empty.replacement == empty.replacement && text[0..] == text;
  }
}
