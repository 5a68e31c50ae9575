/**
  The two-phase inbox ledger of `_write_batch` (src/minni/afm_writer.py).

  A batch first commits a run of pending rows, then lands its wiki pages one by
  one, then flips the rows to their landed state. Every durable write is atomic
  and the process may die after any of them.
*/
module InboxLedger {
  import opened Wrappers

  /** A draft with the path its page gets; a forged body is refused and gets none. */
  datatype Draft = Draft(pageId: string, path: string, forged: bool, body: string)

  datatype Page = Page(pageId: string, body: string)

  datatype Row = Row(pageId: string, path: Option<string>, written: bool)

  datatype Run = Run(trace: string, created: string, rows: seq<Row>)

  datatype Batch = Batch(trace: string, created: string, drafts: seq<Draft>)

  /** The wiki and the day's ledger. */
  datatype Disk = Disk(pages: map<string, Page>, runs: seq<Run>)

  // ---------- which page ids have landed ----------

  /** The row names a page of the given id that is on disk. */
  predicate Names(row: Row, pages: map<string, Page>, pageId: string) {
    pageId != "" && row.pageId == pageId && row.path.Some? && row.path.value != "" && row.path.value in pages
  }

  function LastIn(rows: seq<Row>, pages: map<string, Page>, pageId: string): (r: Option<Row>)
    ensures r.Some? ==> r.value in rows && Names(r.value, pages, pageId)
    ensures r.None? ==> forall row | row in rows :: !Names(row, pages, pageId)
  {
    if rows == [] then None
    else
      var last := rows[|rows| - 1];
      if Names(last, pages, pageId) then Some(last) else LastIn(rows[..|rows| - 1], pages, pageId)
  }

  lemma NoRowNames(pages: map<string, Page>)
    ensures forall id :: LastIn([], pages, id).None?
  {
  }

  lemma LastInOneMore(rows: seq<Row>, pages: map<string, Page>, c: nat)
    requires c < |rows|
    ensures forall id :: LastIn(rows[..c + 1], pages, id) ==
              if Names(rows[c], pages, id) then Some(rows[c]) else LastIn(rows[..c], pages, id)
  {
    assert rows[..c + 1][..c] == rows[..c];
  }

  predicate HasRow(runs: seq<Run>, row: Row) {
    exists a :: 0 <= a < |runs| && row in runs[a].rows
  }

  /** The entry of `_landed_wiki_records` for a page id: later rows win. */
  function Landed(runs: seq<Run>, pages: map<string, Page>, pageId: string): (r: Option<Row>)
    ensures r.Some? ==> HasRow(runs, r.value) && Names(r.value, pages, pageId)
    ensures r.None? ==> forall row | HasRow(runs, row) :: !Names(row, pages, pageId)
  {
    if runs == [] then None
    else
      var front := runs[..|runs| - 1];
      var last := LastIn(runs[|runs| - 1].rows, pages, pageId);
      if last.Some? then last
      else
        var r := Landed(front, pages, pageId);
        assert forall row | HasRow(runs, row) :: row in runs[|runs| - 1].rows || HasRow(front, row) by {
          forall row | HasRow(runs, row) ensures row in runs[|runs| - 1].rows || HasRow(front, row) {
            var a :| 0 <= a < |runs| && row in runs[a].rows;
            assert a < |front| ==> front[a] == runs[a];
          }
        }
        r
  }

  /** The row at this place names a page of the id, and no row behind it does. */
  predicate LastNamed(runs: seq<Run>, pages: map<string, Page>, pageId: string, a: nat, c: nat) {
    && a < |runs| && c < |runs[a].rows| && Names(runs[a].rows[c], pages, pageId)
    && (forall d | c < d < |runs[a].rows| :: !Names(runs[a].rows[d], pages, pageId))
    && (forall b | a < b < |runs| :: forall row | row in runs[b].rows :: !Names(row, pages, pageId))
  }

  lemma {:induction false} LastInIsLast(rows: seq<Row>, pages: map<string, Page>, pageId: string) returns (c: nat)
    requires LastIn(rows, pages, pageId).Some?
    ensures c < |rows| && rows[c] == LastIn(rows, pages, pageId).value
    ensures forall d | c < d < |rows| :: !Names(rows[d], pages, pageId)
  {
    hide Names;
    c := |rows| - 1;
    if !Names(rows[c], pages, pageId) {
      c := LastInIsLast(rows[..|rows| - 1], pages, pageId);
    }
  }

  /** The record of a page id is the last row of all that names a page of it on disk; a blank id has none. */
  lemma {:induction false} LandedIsLast(runs: seq<Run>, pages: map<string, Page>, pageId: string)
    returns (a: nat, c: nat)
    ensures Landed(runs, pages, pageId).Some? ==>
              LastNamed(runs, pages, pageId, a, c) && Landed(runs, pages, pageId) == Some(runs[a].rows[c])
    ensures pageId == "" ==> Landed(runs, pages, pageId).None?
  {
    a, c := 0, 0;
    if runs != [] {
      var front, rows := runs[..|runs| - 1], runs[|runs| - 1].rows;
      if LastIn(rows, pages, pageId).Some? {
        a := |runs| - 1;
        c := LastInIsLast(rows, pages, pageId);
      } else {
        a, c := LandedIsLast(front, pages, pageId);
        assert a < |front| ==> runs[a] == front[a];
        assert forall b | a < b < |front| :: runs[b] == front[b];
      }
    }
  }

  // ---------- the batch, write by write ----------

  /** The record `_write_one` renders, or the row of a page that landed earlier. */
  function Planned(d: Disk, draft: Draft): Row {
    var landed := Landed(d.runs, d.pages, draft.pageId);
    if landed.Some? then landed.value
    else if draft.forged then Row(draft.pageId, None, false)
    else Row(draft.pageId, Some(draft.path), true)
  }

  /** The row committed before any page lands. */
  function Pending(d: Disk, draft: Draft): Row {
    var row := Planned(d, draft);
    if Landed(d.runs, d.pages, draft.pageId).Some? || row.path.None? then row else row.(written := false)
  }

  function PendingRun(d: Disk, b: Batch): Run {
    Run(b.trace, b.created, seq(|b.drafts|, i requires 0 <= i < |b.drafts| => Pending(d, b.drafts[i])))
  }

  /** The page of this draft is written now. */
  predicate Lands(d: Disk, draft: Draft, pages: map<string, Page>) {
    && Landed(d.runs, d.pages, draft.pageId).None?
    && !draft.forged
    && draft.path !in pages
  }

  function Land(d: Disk, draft: Draft, pages: map<string, Page>): map<string, Page> {
    if Lands(d, draft, pages) then pages[draft.path := Page(draft.pageId, draft.body)] else pages
  }

  /** The wiki after the first `n` drafts went through the landing loop. */
  function LandFirst(d: Disk, drafts: seq<Draft>, n: nat): map<string, Page>
    requires n <= |drafts|
  {
    if n == 0 then d.pages else Land(d, drafts[n - 1], LandFirst(d, drafts, n - 1))
  }

  /** The rows of the final payload: what was planned, which by then is true. */
  function FinalRun(d: Disk, b: Batch): Run {
    Run(b.trace, b.created, seq(|b.drafts|, i requires 0 <= i < |b.drafts| => Planned(d, b.drafts[i])))
  }

  function RowIds(rows: seq<Row>): seq<string> {
    seq(|rows|, i requires 0 <= i < |rows| => rows[i].pageId)
  }

  /** How the flip recognises its own run. */
  predicate SameKey(a: Run, b: Run) {
    a.trace == b.trace && a.created == b.created && RowIds(a.rows) == RowIds(b.rows)
  }

  /** The first run with the key of the pending run is replaced; without one the payload is appended. */
  function Flip(runs: seq<Run>, pending: Run, final: Run): seq<Run> {
    if runs == [] then [final]
    else if SameKey(runs[0], pending) then [final] + runs[1..]
    else [runs[0]] + Flip(runs[1..], pending, final)
  }

  /** The number of crash points: nothing, committed with `n` drafts handled, flipped. */
  function Points(b: Batch): nat {
    |b.drafts| + 2
  }

  /** The disk a crash at point `k` leaves behind; the last point is a completed batch. */
  function DiskAt(d: Disk, b: Batch, k: nat): Disk
    requires k <= Points(b)
  {
    if k == 0 then d
    else if k < Points(b) then Disk(LandFirst(d, b.drafts, k - 1), d.runs + [PendingRun(d, b)])
    else Disk(LandFirst(d, b.drafts, |b.drafts|), Flip(d.runs + [PendingRun(d, b)], PendingRun(d, b), FinalRun(d, b)))
  }

  // ---------- the landing loop ----------

  lemma {:induction false} LandFirstGrows(d: Disk, drafts: seq<Draft>, m: nat, n: nat)
    requires m <= n <= |drafts|
    ensures var before, after := LandFirst(d, drafts, m), LandFirst(d, drafts, n);
            before.Keys <= after.Keys && forall p | p in before :: after[p] == before[p]
  {
    if m < n {
      LandFirstGrows(d, drafts, m, n - 1);
    }
  }

  /** The page of draft `i` is written when its turn comes. */
  predicate LandsInTurn(d: Disk, drafts: seq<Draft>, i: nat)
    requires i < |drafts|
  {
    Lands(d, drafts[i], LandFirst(d, drafts, i))
  }

  /** A page in the wiki was there before or was written for one of the drafts handled. */
  lemma {:induction false} LandFirstOrigin(d: Disk, drafts: seq<Draft>, n: nat, p: string)
    requires n <= |drafts| && p in LandFirst(d, drafts, n)
    ensures p in d.pages ||
            exists i | 0 <= i < n ::
              && drafts[i].path == p && LandsInTurn(d, drafts, i)
              && !drafts[i].forged && Landed(d.runs, d.pages, drafts[i].pageId).None?
              && LandFirst(d, drafts, n)[p] == Page(drafts[i].pageId, drafts[i].body)
  {
    if n > 0 && p !in d.pages {
      if LandsInTurn(d, drafts, n - 1) && drafts[n - 1].path == p {
        assert drafts[n - 1].path == p && !drafts[n - 1].forged;
      } else {
        LandFirstOrigin(d, drafts, n - 1, p);
      }
    }
  }

  /** Every draft handled that is neither forged nor landed already has a page at its path. */
  lemma LandFirstReaches(d: Disk, drafts: seq<Draft>, i: nat, n: nat)
    requires i < n <= |drafts|
    requires !drafts[i].forged && Landed(d.runs, d.pages, drafts[i].pageId).None?
    ensures drafts[i].path in LandFirst(d, drafts, n)
  {
    assert drafts[i].path in LandFirst(d, drafts, i + 1);
    LandFirstGrows(d, drafts, i + 1, n);
  }

  // ---------- the flip ----------

  /** Index of the first run with the key, or the length of the list. */
  function FirstTwin(runs: seq<Run>, pending: Run): (t: nat)
    ensures t <= |runs|
    ensures t < |runs| ==> SameKey(runs[t], pending)
    ensures forall a | 0 <= a < t :: !SameKey(runs[a], pending)
  {
    if runs == [] || SameKey(runs[0], pending) then 0 else 1 + FirstTwin(runs[1..], pending)
  }

  /** The flip replaces exactly the first run with the key and touches no other; without one it appends. */
  lemma {:induction false} FlipReplacesFirstTwin(runs: seq<Run>, pending: Run, final: Run)
    ensures var t := FirstTwin(runs, pending);
            Flip(runs, pending, final) == if t < |runs| then runs[t := final] else runs + [final]
  {
    hide SameKey, RowIds;
    if runs != [] && !SameKey(runs[0], pending) {
      FlipReplacesFirstTwin(runs[1..], pending, final);
      var t := FirstTwin(runs[1..], pending);
      if t < |runs[1..]| {
        assert [runs[0]] + runs[1..][t := final] == runs[t + 1 := final];
      } else {
        assert [runs[0]] + (runs[1..] + [final]) == runs + [final];
      }
    }
  }

  /** Same trace, same time, and the same page ids in the same order. */
  predicate LooksLike(a: Run, b: Run) {
    && a.trace == b.trace && a.created == b.created && |a.rows| == |b.rows|
    && forall i | 0 <= i < |a.rows| :: a.rows[i].pageId == b.rows[i].pageId
  }

  lemma KeyIsLooks(a: Run, b: Run)
    ensures SameKey(a, b) <==> LooksLike(a, b)
  {
    if SameKey(a, b) {
      assert |RowIds(a.rows)| == |RowIds(b.rows)|;
      assert forall i | 0 <= i < |a.rows| :: a.rows[i].pageId == RowIds(a.rows)[i] == RowIds(b.rows)[i];
      assert forall i | 0 <= i < |b.rows| :: b.rows[i].pageId == RowIds(b.rows)[i];
    }
    if LooksLike(a, b) {
      assert RowIds(a.rows) == RowIds(b.rows);
    }
  }

  /**
    Whatever other runs were committed before and after ours, the flip puts the
    final payload in our place and leaves every other run alone exactly when no
    earlier run looks like ours. If the first one that does happens to equal the
    payload, the flip changes nothing at all and our own run stays pending.
  */
  lemma FlipTouchesOnlyOwnRun(before: seq<Run>, pending: Run, after: seq<Run>, final: Run)
    requires pending != final
    ensures Flip(before + [pending] + after, pending, final) == before + [final] + after
            <==> forall a | 0 <= a < |before| :: !LooksLike(before[a], pending)
    ensures forall t | 0 <= t < |before| && LooksLike(before[t], pending) && before[t] == final
                       && (forall a | 0 <= a < t :: !LooksLike(before[a], pending)) ::
              Flip(before + [pending] + after, pending, final) == before + [pending] + after
  {
    hide LooksLike, SameKey, RowIds;
    forall a | 0 <= a < |before| ensures SameKey(before[a], pending) <==> LooksLike(before[a], pending) {
      KeyIsLooks(before[a], pending);
    }
    var runs := before + [pending] + after;
    var t := FirstTwin(before, pending);
    FlipReplacesFirstTwin(runs, pending, final);
    TwinAmongMore(before, pending, after);
    hide Flip;
    assert t < |before| <==> exists a | 0 <= a < |before| :: LooksLike(before[a], pending);
    if t == |before| {
      InPlace(before, pending, after, final);
    } else {
      OutOfPlace(before, pending, after, final, t);
    }
  }

  lemma InPlace<T>(before: seq<T>, x: T, after: seq<T>, y: T)
    ensures (before + [x] + after)[|before| := y] == before + [y] + after
  {
  }

  lemma OutOfPlace<T>(before: seq<T>, x: T, after: seq<T>, y: T, t: nat)
    requires t < |before| && x != y
    ensures (before + [x] + after)[t := y] != before + [y] + after
    ensures before[t] == y ==> (before + [x] + after)[t := y] == before + [x] + after
  {
    assert (before + [x] + after)[t := y][|before|] == x && (before + [y] + after)[|before|] == y;
  }

  /** Our own run is the first twin unless an earlier one is. */
  lemma TwinAmongMore(before: seq<Run>, pending: Run, after: seq<Run>)
    ensures FirstTwin(before + [pending] + after, pending) == FirstTwin(before, pending)
  {
    hide RowIds;
    var runs := before + [pending] + after;
    var t, u := FirstTwin(before, pending), FirstTwin(runs, pending);
    assert forall a | 0 <= a < |before| :: runs[a] == before[a];
    assert runs[|before|] == pending && SameKey(pending, pending);
    hide SameKey, FirstTwin;
    if t < |before| {
      assert SameKey(runs[t], pending);
    }
    assert u <= t;
  }

  lemma FlipRows(runs: seq<Run>, pending: Run, final: Run, row: Row)
    requires HasRow(Flip(runs, pending, final), row)
    ensures HasRow(runs, row) || row in final.rows
  {
    FlipReplacesFirstTwin(runs, pending, final);
    var flipped := Flip(runs, pending, final);
    var a :| 0 <= a < |flipped| && row in flipped[a].rows;
    if a < |runs| && flipped[a] == runs[a] {
      assert row in runs[a].rows;
    }
  }

  // ---------- what the ledger promises ----------

  /** Each row marked written names an existing page. */
  ghost predicate WrittenExist(d: Disk) {
    forall row | HasRow(d.runs, row) && row.written :: row.path.Some? && row.path.value in d.pages
  }

  /** Each page this ledger is responsible for has a row. */
  ghost predicate Covered(d: Disk, foreign: set<string>) {
    forall p | p in d.pages && p !in foreign ::
      exists row :: HasRow(d.runs, row) && row.pageId == d.pages[p].pageId && row.path == Some(p)
  }

  /** No page id has two pages. */
  ghost predicate OnePage(d: Disk, foreign: set<string>) {
    forall p, q | p in d.pages && q in d.pages && p !in foreign && q !in foreign && p != q ::
      d.pages[p].pageId != d.pages[q].pageId
  }

  lemma OldRowsStay(runs: seq<Run>, more: Run, row: Row)
    ensures HasRow(runs, row) || row in more.rows <==> HasRow(runs + [more], row)
  {
    var all := runs + [more];
    if HasRow(runs, row) {
      var a :| 0 <= a < |runs| && row in runs[a].rows;
      assert all[a] == runs[a];
    }
    if row in more.rows {
      assert all[|runs|] == more;
    }
    if HasRow(all, row) {
      var a :| 0 <= a < |all| && row in all[a].rows;
      assert a < |runs| ==> all[a] == runs[a];
    }
  }

  /** At every crash point, rows marked written have their page. */
  lemma WrittenExistAtEveryCrash(d: Disk, b: Batch, k: nat)
    requires k <= Points(b) && WrittenExist(d)
    ensures WrittenExist(DiskAt(d, b, k))
  {
    var e := DiskAt(d, b, k);
    forall row | HasRow(e.runs, row) && row.written ensures row.path.Some? && row.path.value in e.pages {
      if k > 0 {
        LandFirstGrows(d, b.drafts, 0, if k < Points(b) then k - 1 else |b.drafts|);
        if k == Points(b) {
          FlipRows(d.runs + [PendingRun(d, b)], PendingRun(d, b), FinalRun(d, b), row);
        }
        OldRowsStay(d.runs, PendingRun(d, b), row);
        if !HasRow(d.runs, row) {
          var i :| 0 <= i < |b.drafts|
              && (row == Pending(d, b.drafts[i]) || (k == Points(b) && row == Planned(d, b.drafts[i])));
          if Landed(d.runs, d.pages, b.drafts[i].pageId).None? {
            LandFirstReaches(d, b.drafts, i, |b.drafts|);
          }
        }
      }
    }
  }

  /** No write ever replaces or removes a page. */
  lemma PagesSurvive(d: Disk, b: Batch, k: nat)
    requires k <= Points(b)
    ensures var e := DiskAt(d, b, k);
            d.pages.Keys <= e.pages.Keys && forall p | p in d.pages :: e.pages[p] == d.pages[p]
  {
    if k > 0 {
      LandFirstGrows(d, b.drafts, 0, if k < Points(b) then k - 1 else |b.drafts|);
    }
  }

  /** No run of the day carries the key of this batch yet. */
  predicate NewKey(d: Disk, b: Batch) {
    FirstTwin(d.runs, PendingRun(d, b)) == |d.runs|
  }

  lemma CompletedRuns(d: Disk, b: Batch)
    requires NewKey(d, b)
    ensures DiskAt(d, b, Points(b)).runs == d.runs + [FinalRun(d, b)]
  {
    var pending, final := PendingRun(d, b), FinalRun(d, b);
    if pending != final {
      FlipTouchesOnlyOwnRun(d.runs, pending, [], final);
      assert d.runs + [pending] + [] == d.runs + [pending];
      assert d.runs + [final] + [] == d.runs + [final];
    } else {
      FlipReplacesFirstTwin(d.runs + [pending], pending, final);
      var all := d.runs + [pending];
      assert SameKey(all[|d.runs|], pending);
      assert forall a | 0 <= a < |d.runs| :: all[a] == d.runs[a];
      assert FirstTwin(all, pending) == |d.runs|;
    }
  }

  /** The rows a batch leaves: those of before, and one per draft, either as pending or as final. */
  lemma RowOfDraft(d: Disk, b: Batch, k: nat, i: nat)
    requires 0 < k <= Points(b) && NewKey(d, b) && i < |b.drafts|
    ensures var e := DiskAt(d, b, k);
            && (forall row | HasRow(d.runs, row) :: HasRow(e.runs, row))
            && HasRow(e.runs, if k < Points(b) then Pending(d, b.drafts[i]) else Planned(d, b.drafts[i]))
  {
    var e := DiskAt(d, b, k);
    CompletedRuns(d, b);
    var run := if k < Points(b) then PendingRun(d, b) else FinalRun(d, b);
    assert e.runs == d.runs + [run];
    forall row | HasRow(d.runs, row) ensures HasRow(e.runs, row) {
      OldRowsStay(d.runs, run, row);
    }
    var row := if k < Points(b) then Pending(d, b.drafts[i]) else Planned(d, b.drafts[i]);
    assert run.rows[i] == row;
    OldRowsStay(d.runs, run, row);
  }

  /** A row of some run other than number `t`. */
  predicate HasRowBeside(runs: seq<Run>, t: nat, row: Row) {
    exists a :: 0 <= a < |runs| && a != t && row in runs[a].rows
  }

  /**
    What the flip needs to lose no page: each page has a row outside the run that
    the flip replaces, or the row the batch itself carries on.
  */
  ghost predicate CoveredAround(d: Disk, b: Batch, foreign: set<string>) {
    forall p | p in d.pages && p !in foreign ::
      exists row ::
        && (HasRowBeside(d.runs, FirstTwin(d.runs, PendingRun(d, b)), row) || row in PendingRun(d, b).rows)
        && row.pageId == d.pages[p].pageId && row.path == Some(p)
  }

  lemma FirstTwinOneMore(runs: seq<Run>, pending: Run)
    ensures FirstTwin(runs + [pending], pending) == FirstTwin(runs, pending)
  {
    var all, t, u := runs + [pending], FirstTwin(runs, pending), FirstTwin(runs + [pending], pending);
    assert forall a | 0 <= a < |runs| :: all[a] == runs[a];
    assert SameKey(all[|runs|], pending);
    assert t < |runs| ==> SameKey(all[t], pending);
  }

  /**
    The rows a completed batch leaves: those of the other runs, of the pending run if a twin was
    replaced, and the final ones.
  */
  lemma RowsAfterFlip(d: Disk, b: Batch, row: Row)
    ensures var pending, final := PendingRun(d, b), FinalRun(d, b);
            var t := FirstTwin(d.runs, pending);
            HasRow(DiskAt(d, b, Points(b)).runs, row)
            <==> HasRowBeside(d.runs, t, row) || row in final.rows || (t < |d.runs| && row in pending.rows)
  {
    var pending, final := PendingRun(d, b), FinalRun(d, b);
    var all, t := d.runs + [pending], FirstTwin(d.runs, pending);
    FirstTwinOneMore(d.runs, pending);
    FlipReplacesFirstTwin(all, pending, final);
    var flipped := all[t := final];
    assert DiskAt(d, b, Points(b)).runs == flipped;
    assert forall a | 0 <= a < |d.runs| && a != t :: flipped[a] == d.runs[a];
    assert flipped[t] == final;
    if t < |d.runs| {
      assert flipped[|d.runs|] == pending;
    }
  }

  /** Pending and final row of a draft differ in the landed mark only. */
  lemma SamePathEitherWay(d: Disk, b: Batch, p: string, pageId: string)
    ensures (exists row :: row in PendingRun(d, b).rows && row.pageId == pageId && row.path == Some(p)) <==>
            (exists row :: row in FinalRun(d, b).rows && row.pageId == pageId && row.path == Some(p))
  {
    hide Landed, LastIn;
    forall i | 0 <= i < |b.drafts|
      ensures Pending(d, b.drafts[i]) in PendingRun(d, b).rows && Planned(d, b.drafts[i]) in FinalRun(d, b).rows
    {
      assert PendingRun(d, b).rows[i] == Pending(d, b.drafts[i]) && FinalRun(d, b).rows[i] == Planned(d, b.drafts[i]);
    }
    if row :| row in PendingRun(d, b).rows && row.pageId == pageId && row.path == Some(p) {
      var i :| 0 <= i < |b.drafts| && row == Pending(d, b.drafts[i]);
      assert Planned(d, b.drafts[i]) in FinalRun(d, b).rows;
    }
    if row :| row in FinalRun(d, b).rows && row.pageId == pageId && row.path == Some(p) {
      var i :| 0 <= i < |b.drafts| && row == Planned(d, b.drafts[i]);
      assert Pending(d, b.drafts[i]) in PendingRun(d, b).rows;
    }
  }

  /** The rows before the flip. */
  lemma CoveredBeforeFlip(d: Disk, b: Batch, k: nat, foreign: set<string>)
    requires k < Points(b) && Covered(d, foreign)
    ensures Covered(DiskAt(d, b, k), foreign)
  {
    if k > 0 {
      var e := DiskAt(d, b, k);
      PagesSurvive(d, b, k);
      forall p | p in e.pages && p !in foreign
        ensures exists row :: HasRow(e.runs, row) && row.pageId == e.pages[p].pageId && row.path == Some(p)
      {
        if p in d.pages {
          var row :| HasRow(d.runs, row) && row.pageId == d.pages[p].pageId && row.path == Some(p);
          OldRowsStay(d.runs, PendingRun(d, b), row);
        } else {
          var row := NewPageHasRow(d, b, k - 1, p);
          OldRowsStay(d.runs, PendingRun(d, b), row);
        }
      }
    }
  }

  lemma NewPageHasRow(d: Disk, b: Batch, n: nat, p: string) returns (row: Row)
    requires n <= |b.drafts| && p in LandFirst(d, b.drafts, n) && p !in d.pages
    ensures row in PendingRun(d, b).rows && row.pageId == LandFirst(d, b.drafts, n)[p].pageId && row.path == Some(p)
  {
    LandFirstOrigin(d, b.drafts, n, p);
    var i :| 0 <= i < n && b.drafts[i].path == p && !b.drafts[i].forged
        && Landed(d.runs, d.pages, b.drafts[i].pageId).None?
             && LandFirst(d, b.drafts, n)[p] == Page(b.drafts[i].pageId, b.drafts[i].body);
    row := PendingRun(d, b).rows[i];
  }

  /**
    At every crash point every page the batch landed already has its ledger row,
    and no other page loses its row before the flip. At the flip none does exactly
    when each page had a row beside the run that is replaced; so always when no
    run of the day carries the key of the batch.
  */
  lemma CoveredAtEveryCrash(d: Disk, b: Batch, k: nat, foreign: set<string>)
    requires k <= Points(b) && Covered(d, foreign)
    ensures Covered(DiskAt(d, b, k), foreign) <==> k < Points(b) || CoveredAround(d, b, foreign)
    ensures NewKey(d, b) ==> CoveredAround(d, b, foreign)
  {
    hide Flip, Planned, Pending, PendingRun, FinalRun, LandFirst, Landed;
    if k < Points(b) {
      CoveredBeforeFlip(d, b, k, foreign);
    } else {
      var e := DiskAt(d, b, k);
      if CoveredAround(d, b, foreign) {
        forall p | p in e.pages && p !in foreign
          ensures exists row :: HasRow(e.runs, row) && row.pageId == e.pages[p].pageId && row.path == Some(p)
        {
          CoveredAfterFlip(d, b, foreign, p);
        }
      }
      if Covered(e, foreign) {
        PagesSurvive(d, b, k);
        forall p | p in d.pages && p !in foreign
          ensures exists row ::
                    && (HasRowBeside(d.runs, FirstTwin(d.runs, PendingRun(d, b)), row) || row in PendingRun(d, b).rows)
                    && row.pageId == d.pages[p].pageId && row.path == Some(p)
        {
          var row :| HasRow(e.runs, row) && row.pageId == e.pages[p].pageId && row.path == Some(p);
          RowsAfterFlip(d, b, row);
          SamePathEitherWay(d, b, p, d.pages[p].pageId);
        }
      }
    }
    if NewKey(d, b) {
      assert forall row | HasRow(d.runs, row) :: HasRowBeside(d.runs, |d.runs|, row);
    }
  }

  lemma CoveredAfterFlip(d: Disk, b: Batch, foreign: set<string>, p: string)
    requires CoveredAround(d, b, foreign) && p in DiskAt(d, b, Points(b)).pages && p !in foreign
    ensures var e := DiskAt(d, b, Points(b));
            exists row :: HasRow(e.runs, row) && row.pageId == e.pages[p].pageId && row.path == Some(p)
  {
    hide Flip, Planned, Pending, PendingRun, FinalRun, Landed;
    var e, t := DiskAt(d, b, Points(b)), FirstTwin(d.runs, PendingRun(d, b));
    PagesSurvive(d, b, Points(b));
    SamePathEitherWay(d, b, p, e.pages[p].pageId);
    if p !in d.pages {
      var row := NewPageHasRow(d, b, |b.drafts|, p);
      var final :| final in FinalRun(d, b).rows && final.pageId == e.pages[p].pageId && final.path == Some(p);
      RowsAfterFlip(d, b, final);
    } else {
      var row :| (HasRowBeside(d.runs, t, row) || row in PendingRun(d, b).rows)
                 && row.pageId == d.pages[p].pageId && row.path == Some(p);
      if HasRowBeside(d.runs, t, row) {
        RowsAfterFlip(d, b, row);
      } else {
        var final :| final in FinalRun(d, b).rows && final.pageId == e.pages[p].pageId && final.path == Some(p);
        RowsAfterFlip(d, b, final);
      }
    }
  }

  predicate DistinctIds(drafts: seq<Draft>) {
    && (forall i, j | 0 <= i < j < |drafts| :: drafts[i].pageId != drafts[j].pageId)
    && (forall i | 0 <= i < |drafts| :: drafts[i].pageId != "" && drafts[i].path != "")
  }

  /** Distinct page ids: at every crash point no page id has two pages. */
  lemma OnePageAtEveryCrash(d: Disk, b: Batch, k: nat, foreign: set<string>)
    requires k <= Points(b) && Covered(d, foreign) && OnePage(d, foreign) && DistinctIds(b.drafts)
    requires "" in foreign
    ensures OnePage(DiskAt(d, b, k), foreign)
  {
    if k > 0 {
      var e := DiskAt(d, b, k);
      var n := if k < Points(b) then k - 1 else |b.drafts|;
      PagesSurvive(d, b, k);
      forall p, q | p in e.pages && q in e.pages && p !in foreign && q !in foreign && p != q
        ensures e.pages[p].pageId != e.pages[q].pageId
      {
        LandFirstOrigin(d, b.drafts, n, p);
        LandFirstOrigin(d, b.drafts, n, q);
        if p in d.pages {
          LandedIfOnDisk(d, foreign, p);
        }
        if q in d.pages {
          LandedIfOnDisk(d, foreign, q);
        }
      }
    }
  }

  /** A page on disk with a row makes its page id count as landed. */
  lemma LandedIfOnDisk(d: Disk, foreign: set<string>, p: string)
    requires Covered(d, foreign) && p in d.pages && p !in foreign && "" in foreign
    ensures d.pages[p].pageId != "" ==> Landed(d.runs, d.pages, d.pages[p].pageId).Some?
  {
    var row :| HasRow(d.runs, row) && row.pageId == d.pages[p].pageId && row.path == Some(p);
    if d.pages[p].pageId != "" {
      assert Names(row, d.pages, d.pages[p].pageId);
    }
  }

  // ---------- crash and retry ----------

  lemma LandedStays(d: Disk, b: Batch, k: nat, pageId: string)
    requires 0 < k < Points(b) && Landed(d.runs, d.pages, pageId).Some?
    ensures var e := DiskAt(d, b, k); Landed(e.runs, e.pages, pageId).Some?
  {
    var row := Landed(d.runs, d.pages, pageId).value;
    PagesSurvive(d, b, k);
    OldRowsStay(d.runs, PendingRun(d, b), row);
    assert Names(row, DiskAt(d, b, k).pages, pageId);
  }

  /** An old row gives draft `j`, which lands, the path of draft `i`, which lands too. */
  ghost predicate StalePair(d: Disk, drafts: seq<Draft>, i: nat, j: nat)
    requires i < |drafts| && j < |drafts|
  {
    && LandsInTurn(d, drafts, i) && LandsInTurn(d, drafts, j)
    && exists row :: HasRow(d.runs, row) && row.pageId == drafts[j].pageId && row.path == Some(drafts[i].path)
  }

  /** Such a row with the crash between the two drafts. */
  ghost predicate StaleAcross(d: Disk, drafts: seq<Draft>, n: nat) {
    exists i, j | 0 <= i < n <= j < |drafts| :: StalePair(d, drafts, i, j)
  }

  ghost predicate NoStaleRow(d: Disk, drafts: seq<Draft>) {
    forall i, j | 0 <= i < j < |drafts| :: !StalePair(d, drafts, i, j)
  }

  /** The row a crashed attempt committed for a draft not landed before names the draft's own path or none. */
  lemma CommittedRow(d: Disk, b: Batch, j: nat, row: Row)
    requires j < |b.drafts| && DistinctIds(b.drafts) && Landed(d.runs, d.pages, b.drafts[j].pageId).None?
    requires HasRow(d.runs + [PendingRun(d, b)], row) && row.pageId == b.drafts[j].pageId
    ensures HasRow(d.runs, row) || row.path == Some(b.drafts[j].path) || row.path == None
  {
    hide Landed, LastIn;
    OldRowsStay(d.runs, PendingRun(d, b), row);
    if !HasRow(d.runs, row) {
      var i :| 0 <= i < |b.drafts| && row == Pending(d, b.drafts[i]);
      assert i == j;
    }
  }

  /** Only a stale row makes a draft that would have landed count as landed after the crash. */
  lemma NewlyLanded(d: Disk, b: Batch, k: nat, j: nat)
    requires 0 < k < Points(b) && DistinctIds(b.drafts) && k - 1 <= j < |b.drafts| && LandsInTurn(d, b.drafts, j)
    requires var e := DiskAt(d, b, k); Landed(e.runs, e.pages, b.drafts[j].pageId).Some?
    ensures StaleAcross(d, b.drafts, k - 1)
  {
    hide Landed, LastIn, Land, LandFirst;
    var e, draft := DiskAt(d, b, k), b.drafts[j];
    var row := Landed(e.runs, e.pages, draft.pageId).value;
    CommittedRow(d, b, j, row);
    LandFirstGrows(d, b.drafts, k - 1, j);
    assert HasRow(d.runs, row);
    assert !Names(row, d.pages, draft.pageId);
    LandFirstOrigin(d, b.drafts, k - 1, row.path.value);
    var i :| 0 <= i < k - 1 && b.drafts[i].path == row.path.value && LandsInTurn(d, b.drafts, i);
    assert StalePair(d, b.drafts, i, j);
  }

  /** A retry skips what the crashed attempt handled and decides the rest as that attempt would have. */
  lemma RetryDecides(d: Disk, b: Batch, k: nat, i: nat)
    requires 0 < k < Points(b) && DistinctIds(b.drafts) && !StaleAcross(d, b.drafts, k - 1) && i < |b.drafts|
    ensures var pages := LandFirst(d, b.drafts, if i < k - 1 then k - 1 else i);
            Lands(DiskAt(d, b, k), b.drafts[i], pages) <==> i >= k - 1 && LandsInTurn(d, b.drafts, i)
  {
    hide Landed, LastIn, Land, LandFirst;
    var draft := b.drafts[i];
    if Landed(d.runs, d.pages, draft.pageId).Some? {
      LandedStays(d, b, k, draft.pageId);
    } else if i < k - 1 {
      if !draft.forged {
        LandFirstReaches(d, b.drafts, i, k - 1);
      }
    } else if LandsInTurn(d, b.drafts, i) && Landed(DiskAt(d, b, k).runs, DiskAt(d, b, k).pages, draft.pageId).Some? {
      NewlyLanded(d, b, k, i);
    }
  }

  /** Turn by turn: the retry's wiki is that of the uninterrupted batch. */
  lemma {:induction false} RetryKeepsPace(d: Disk, b: Batch, k: nat, m: nat)
    requires 0 < k < Points(b) && DistinctIds(b.drafts) && !StaleAcross(d, b.drafts, k - 1) && m <= |b.drafts|
    ensures LandFirst(DiskAt(d, b, k), b.drafts, m) == LandFirst(d, b.drafts, if m < k - 1 then k - 1 else m)
  {
    hide Landed, LastIn, Lands;
    if m > 0 {
      RetryKeepsPace(d, b, k, m - 1);
      RetryDecides(d, b, k, m - 1);
    }
  }

  /** A stale row across the crash: the retry skips draft `j`, whose page an uninterrupted batch writes. */
  lemma StaleRowLosesADraft(d: Disk, b: Batch, k: nat, i: nat, j: nat)
    requires 0 < k < Points(b) && DistinctIds(b.drafts) && i < k - 1 <= j < |b.drafts| && StalePair(d, b.drafts, i, j)
    ensures var whole, e := LandFirst(d, b.drafts, |b.drafts|), LandFirst(DiskAt(d, b, k), b.drafts, |b.drafts|);
            var p, draft := b.drafts[j].path, b.drafts[j];
            p in whole && whole[p] == Page(draft.pageId, draft.body) && (p in e ==> e[p].pageId != draft.pageId)
  {
    hide Landed, LastIn;
    var m, draft := DiskAt(d, b, k), b.drafts[j];
    LandFirstGrows(d, b.drafts, k - 1, j);
    LandFirstGrows(d, b.drafts, j + 1, |b.drafts|);
    assert draft.path in LandFirst(d, b.drafts, j + 1);
    var row :| HasRow(d.runs, row) && row.pageId == draft.pageId && row.path == Some(b.drafts[i].path);
    LandFirstReaches(d, b.drafts, i, k - 1);
    OldRowsStay(d.runs, PendingRun(d, b), row);
    assert Names(row, m.pages, draft.pageId);
    if draft.path in LandFirst(m, b.drafts, |b.drafts|) {
      LandFirstOrigin(m, b.drafts, |b.drafts|, draft.path);
    }
  }

  /**
    A retry after a crash writes the rest of the pages and none a second time,
    exactly when no row of the day's ledger gives a draft still to come the path
    of a draft that had landed.
  */
  lemma RetryCatchesUp(d: Disk, b: Batch, k: nat, retry: Batch)
    requires 0 < k < Points(b) && DistinctIds(b.drafts) && retry.drafts == b.drafts
    ensures DiskAt(DiskAt(d, b, k), retry, Points(retry)).pages == DiskAt(d, b, Points(b)).pages
            <==> !StaleAcross(d, b.drafts, k - 1)
  {
    hide Landed, LastIn, Lands, Land, LandFirst, Flip, StalePair;
    if StaleAcross(d, b.drafts, k - 1) {
      var i, j :| 0 <= i < k - 1 <= j < |b.drafts| && StalePair(d, b.drafts, i, j);
      StaleRowLosesADraft(d, b, k, i, j);
    } else {
      RetryKeepsPace(d, b, k, |b.drafts|);
    }
  }

  /** A crashed attempt and the number of durable steps it managed. */
  datatype Attempt = Attempt(batch: Batch, point: nat)

  ghost predicate Crashed(attempts: seq<Attempt>, drafts: seq<Draft>) {
    forall a | 0 <= a < |attempts| ::
      attempts[a].batch.drafts == drafts && attempts[a].point < Points(attempts[a].batch)
  }

  ghost function AfterAttempts(d: Disk, attempts: seq<Attempt>, drafts: seq<Draft>): Disk
    requires Crashed(attempts, drafts)
    decreases |attempts|
  {
    if attempts == [] then d
    else AfterAttempts(DiskAt(d, attempts[0].batch, attempts[0].point), attempts[1..], drafts)
  }

  /** A crashed attempt makes no row stale. */
  lemma NoRowGetsStale(d: Disk, b: Batch, k: nat)
    requires 0 < k < Points(b) && DistinctIds(b.drafts) && NoStaleRow(d, b.drafts)
    ensures NoStaleRow(DiskAt(d, b, k), b.drafts)
  {
    hide Landed, LastIn, Land, LandFirst;
    var m, drafts := DiskAt(d, b, k), b.drafts;
    forall i, j | 0 <= i < j < |drafts| ensures !StalePair(m, drafts, i, j) {
      StillInTurn(d, b, k, i);
      StillInTurn(d, b, k, j);
      if StalePair(m, drafts, i, j) {
        StaleBefore(d, b, k, i, j);
      }
    }
  }

  lemma StaleBefore(d: Disk, b: Batch, k: nat, i: nat, j: nat)
    requires 0 < k < Points(b) && DistinctIds(b.drafts) && i < j < |b.drafts|
    requires LandsInTurn(d, b.drafts, i) && LandsInTurn(d, b.drafts, j) && StalePair(DiskAt(d, b, k), b.drafts, i, j)
    ensures StalePair(d, b.drafts, i, j)
  {
    hide Landed, LastIn, Land, LandFirst;
    var m, drafts := DiskAt(d, b, k), b.drafts;
    var row :| HasRow(m.runs, row) && row.pageId == drafts[j].pageId && row.path == Some(drafts[i].path);
    CommittedRow(d, b, j, row);
    LandFirstReaches(d, drafts, i, j);
    assert HasRow(d.runs, row);
  }

  lemma StillInTurn(d: Disk, b: Batch, k: nat, i: nat)
    requires 0 < k < Points(b) && DistinctIds(b.drafts) && NoStaleRow(d, b.drafts) && i < |b.drafts|
    ensures LandsInTurn(DiskAt(d, b, k), b.drafts, i) <==> i >= k - 1 && LandsInTurn(d, b.drafts, i)
  {
    hide Landed, LastIn, Lands, Land, LandFirst, StalePair;
    assert !StaleAcross(d, b.drafts, k - 1);
    RetryKeepsPace(d, b, k, i);
    RetryDecides(d, b, k, i);
  }

  lemma {:induction false} AttemptsCatchUp(d: Disk, b: Batch, attempts: seq<Attempt>)
    requires DistinctIds(b.drafts) && NoStaleRow(d, b.drafts) && Crashed(attempts, b.drafts)
    ensures DiskAt(AfterAttempts(d, attempts, b.drafts), b, Points(b)).pages == DiskAt(d, b, Points(b)).pages
    decreases |attempts|
  {
    hide Landed, LastIn, Lands, Land, LandFirst, Flip, StalePair;
    if attempts != [] {
      var first, k := attempts[0].batch, attempts[0].point;
      if k > 0 {
        NoRowGetsStale(d, first, k);
        RetryCatchesUp(d, first, k, b);
      }
      AttemptsCatchUp(DiskAt(d, first, k), b, attempts[1..]);
    }
  }

  /**
    Any number of crashed attempts, each dying at any point, followed by a batch
    that completes, leave exactly the pages of one uninterrupted batch, if and only
    if no row of the ledger gives a draft that lands the path of an earlier draft
    that lands.
  */
  lemma CrashesDoNotChangeThePages(d: Disk, b: Batch)
    requires DistinctIds(b.drafts)
    ensures (forall attempts | Crashed(attempts, b.drafts) ::
               DiskAt(AfterAttempts(d, attempts, b.drafts), b, Points(b)).pages == DiskAt(d, b, Points(b)).pages)
            <==> NoStaleRow(d, b.drafts)
  {
    hide Landed, LastIn, Lands, Land, LandFirst, Flip, StalePair;
    if NoStaleRow(d, b.drafts) {
      forall attempts | Crashed(attempts, b.drafts)
        ensures DiskAt(AfterAttempts(d, attempts, b.drafts), b, Points(b)).pages == DiskAt(d, b, Points(b)).pages
      {
        AttemptsCatchUp(d, b, attempts);
      }
    } else {
      var i, j :| 0 <= i < j < |b.drafts| && StalePair(d, b.drafts, i, j);
      var attempts := [Attempt(b, j + 1)];
      assert Crashed(attempts, b.drafts);
      assert attempts[1..] == [];
      assert StaleAcross(d, b.drafts, j);
      RetryCatchesUp(d, b, j + 1, b);
      assert AfterAttempts(d, attempts, b.drafts) == DiskAt(d, b, j + 1);
    }
  }

  /**
    What a retry does not repair: a draft whose page id counts as landed on the
    disk the retry finds has its old row copied, so the finished ledger marks a
    page of that id written exactly when it does not count as landed there. A page
    the crashed attempt wrote does, and stays pending.
  */
  lemma CrashedPageStaysPending(d: Disk, b: Batch, k: nat, retry: Batch, i: nat)
    requires 0 < k < Points(b) && i < |b.drafts| && retry.drafts == b.drafts && DistinctIds(b.drafts)
    requires !b.drafts[i].forged && forall row | HasRow(d.runs, row) && row.pageId == b.drafts[i].pageId :: !row.written
    requires NewKey(DiskAt(d, b, k), retry)
    ensures var m := DiskAt(d, b, k);
            var e := DiskAt(m, retry, Points(retry));
            && ((exists row :: HasRow(e.runs, row) && row.pageId == b.drafts[i].pageId && row.written)
                <==> Landed(m.runs, m.pages, b.drafts[i].pageId).None?)
            && (i < k - 1 ==> Landed(m.runs, m.pages, b.drafts[i].pageId).Some?)
  {
    hide Landed, LastIn, Lands, Land, LandFirst, Flip;
    var m := DiskAt(d, b, k);
    var e, draft := DiskAt(m, retry, Points(retry)), b.drafts[i];
    if i < k - 1 {
      CrashedPageCounts(d, b, k, i);
    }
    CompletedRuns(m, retry);
    assert FinalRun(m, retry).rows[i] == Planned(m, draft);
    OldRowsStay(m.runs, FinalRun(m, retry), Planned(m, draft));
    if Landed(m.runs, m.pages, draft.pageId).Some? {
      forall row | HasRow(e.runs, row) && row.pageId == draft.pageId ensures !row.written {
        RetriedRowUnwritten(d, b, k, retry, i, row);
      }
    }
  }

  lemma CrashedPageCounts(d: Disk, b: Batch, k: nat, i: nat)
    requires 0 < k < Points(b) && i < k - 1 && DistinctIds(b.drafts) && !b.drafts[i].forged
    ensures var m := DiskAt(d, b, k); Landed(m.runs, m.pages, b.drafts[i].pageId).Some?
  {
    hide Landed, LastIn, Lands, Land, LandFirst;
    var m, draft := DiskAt(d, b, k), b.drafts[i];
    if Landed(d.runs, d.pages, draft.pageId).Some? {
      LandedStays(d, b, k, draft.pageId);
    } else {
      LandFirstReaches(d, b.drafts, i, k - 1);
      assert Pending(d, draft) == PendingRun(d, b).rows[i];
      OldRowsStay(d.runs, PendingRun(d, b), Pending(d, draft));
      assert Names(Pending(d, draft), m.pages, draft.pageId);
    }
  }

  lemma RetriedRowUnwritten(d: Disk, b: Batch, k: nat, retry: Batch, i: nat, row: Row)
    requires 0 < k < Points(b) && i < |b.drafts| && retry.drafts == b.drafts && DistinctIds(b.drafts)
    requires forall earlier | HasRow(d.runs, earlier) && earlier.pageId == b.drafts[i].pageId :: !earlier.written
    requires var m := DiskAt(d, b, k);
             && Landed(m.runs, m.pages, b.drafts[i].pageId).Some?
             && HasRow(m.runs + [FinalRun(m, retry)], row) && row.pageId == b.drafts[i].pageId
    ensures !row.written
  {
    hide Landed, LastIn, Lands, Land, LandFirst;
    var m := DiskAt(d, b, k);
    OldRowsStay(m.runs, FinalRun(m, retry), row);
    OldRowsStay(d.runs, PendingRun(d, b), row);
    if HasRow(m.runs, row) {
      PendingRowUnwritten(d, b, i, row);
    } else {
      var landed := Landed(m.runs, m.pages, b.drafts[i].pageId).value;
      OldRowsStay(d.runs, PendingRun(d, b), landed);
      PendingRowUnwritten(d, b, i, landed);
    }
  }

  lemma PendingRowUnwritten(d: Disk, b: Batch, i: nat, row: Row)
    requires i < |b.drafts| && DistinctIds(b.drafts) && row.pageId == b.drafts[i].pageId
    requires forall earlier | HasRow(d.runs, earlier) && earlier.pageId == b.drafts[i].pageId :: !earlier.written
    requires HasRow(d.runs, row) || row in PendingRun(d, b).rows
    ensures !row.written
  {
    if !HasRow(d.runs, row) {
      var j :| 0 <= j < |b.drafts| && row == Pending(d, b.drafts[j]);
    }
  }

  // ---------- whose page a written row names ----------

  /** The batch would write the page of this draft if nothing stood at its path. */
  predicate Eligible(d: Disk, draft: Draft) {
    Landed(d.runs, d.pages, draft.pageId).None? && !draft.forged
  }

  /** Who gets the path: the page already there, else the first eligible draft that asks for it. */
  function Claimant(d: Disk, drafts: seq<Draft>, path: string): Option<string> {
    if path in d.pages then Some(d.pages[path].pageId)
    else if drafts == [] then None
    else if Eligible(d, drafts[0]) && drafts[0].path == path then Some(drafts[0].pageId)
    else Claimant(d, drafts[1..], path)
  }

  ghost predicate Faithful(d: Disk) {
    forall row | HasRow(d.runs, row) && row.written ::
      row.path.Some? && row.path.value in d.pages && d.pages[row.path.value].pageId == row.pageId
  }

  /** No draft of the batch asks for a path that goes to another page id. */
  predicate NoCollision(d: Disk, drafts: seq<Draft>) {
    forall i | 0 <= i < |drafts| && Eligible(d, drafts[i]) ::
        Claimant(d, drafts, drafts[i].path) == Some(drafts[i].pageId)
  }

  lemma {:induction false} ClaimantSplit(d: Disk, drafts: seq<Draft>, last: Draft, path: string)
    ensures Claimant(d, drafts + [last], path) ==
              if Claimant(d, drafts, path).Some? then Claimant(d, drafts, path)
              else if Eligible(d, last) && last.path == path then Some(last.pageId) else None
    decreases |drafts|
  {
    if drafts == [] {
      assert drafts + [last] == [last] && [last][1..] == [];
    } else {
      ClaimantSplit(d, drafts[1..], last, path);
      assert (drafts + [last])[1..] == drafts[1..] + [last];
    }
  }

  /** The landing loop gives every path to its claimant. */
  lemma {:induction false} PathGoesToClaimant(d: Disk, drafts: seq<Draft>, n: nat, path: string)
    requires n <= |drafts|
    ensures var pages := LandFirst(d, drafts, n);
            Claimant(d, drafts[..n], path) == if path in pages then Some(pages[path].pageId) else None
  {
    if n > 0 {
      PathGoesToClaimant(d, drafts, n - 1, path);
      ClaimantSplit(d, drafts[..n - 1], drafts[n - 1], path);
      assert drafts[..n - 1] + [drafts[n - 1]] == drafts[..n];
    }
  }

  /**
    After a completed batch every row marked written names a page of its own
    page id exactly when no two page ids compete for a path. Otherwise the loser's
    draft is nowhere on disk and its row still says written.
  */
  lemma FaithfulUnlessPathsCollide(d: Disk, b: Batch)
    requires Faithful(d) && NewKey(d, b)
    ensures Faithful(DiskAt(d, b, Points(b))) <==> NoCollision(d, b.drafts)
  {
    var e, n := DiskAt(d, b, Points(b)), |b.drafts|;
    CompletedRuns(d, b);
    assert b.drafts[..n] == b.drafts;
    PagesSurvive(d, b, Points(b));
    if Faithful(e) {
      forall i | 0 <= i < n && Eligible(d, b.drafts[i])
        ensures Claimant(d, b.drafts, b.drafts[i].path) == Some(b.drafts[i].pageId)
      {
        RowOfDraft(d, b, Points(b), i);
        PathGoesToClaimant(d, b.drafts, n, b.drafts[i].path);
      }
    }
    if NoCollision(d, b.drafts) {
      forall row | HasRow(e.runs, row) && row.written
        ensures row.path.Some? && row.path.value in e.pages && e.pages[row.path.value].pageId == row.pageId
      {
        OldRowsStay(d.runs, FinalRun(d, b), row);
        if !HasRow(d.runs, row) {
          var i :| 0 <= i < n && row == Planned(d, b.drafts[i]);
          if Landed(d.runs, d.pages, b.drafts[i].pageId).None? {
            PathGoesToClaimant(d, b.drafts, n, b.drafts[i].path);
          }
        }
      }
    }
  }

  // ---------- why the side conditions are there ----------

  /** Two drafts of one page id, titled differently, land two pages. */
  lemma DuplicateIdsLandTwice()
    ensures exists b: Batch ::
              && |b.drafts| == 2 && b.drafts[0].pageId == b.drafts[1].pageId
              && !OnePage(DiskAt(Disk(map[], []), b, Points(b)), {""})
  {
    var b := Batch("t", "now", [Draft("a", "p", false, "one"), Draft("a", "q", false, "two")]);
    var d := Disk(map[], []);
    var pages := LandFirst(d, b.drafts, 2);
    assert Landed(d.runs, d.pages, "a").None?;
    assert LandFirst(d, b.drafts, 1) == map["p" := Page("a", "one")];
    assert pages["p"].pageId == pages["q"].pageId;
    assert !OnePage(DiskAt(d, b, Points(b)), {""});
  }

  /** A disk and a batch with a stale row: the promise about retries can fail. */
  lemma StaleRowsExist()
    ensures exists d: Disk, b: Batch :: DistinctIds(b.drafts) && !NoStaleRow(d, b.drafts)
  {
    var stale := Row("b", Some("p"), false);
    var d := Disk(map[], [Run("old", "then", [stale])]);
    var b := Batch("t", "now", [Draft("a", "p", false, "one"), Draft("b", "q", false, "two")]);
    assert HasRow(d.runs, stale) by {
      assert stale in d.runs[0].rows;
    }
    assert LandFirst(d, b.drafts, 1).Keys == {"p"};
    assert StalePair(d, b.drafts, 0, 1);
    assert !NoStaleRow(d, b.drafts);
  }

  /** Two page ids that ask for one path: the second draft is nowhere, and a row says it was written. */
  lemma PathsCanCollide()
    ensures exists d: Disk, b: Batch ::
              && DistinctIds(b.drafts) && Faithful(d) && NewKey(d, b) && |b.drafts| == 2
              && !NoCollision(d, b.drafts) && !Faithful(DiskAt(d, b, Points(b)))
              && Row(b.drafts[1].pageId, Some(b.drafts[1].path), true) in FinalRun(d, b).rows
              && forall p | p in DiskAt(d, b, Points(b)).pages ::
                   DiskAt(d, b, Points(b)).pages[p].pageId != b.drafts[1].pageId
  {
    var d := Disk(map[], []);
    var b := Batch("t", "now", [Draft("a", "p", false, "one"), Draft("b", "p", false, "two")]);
    assert Claimant(d, b.drafts, "p") == Some("a");
    assert Eligible(d, b.drafts[1]) && b.drafts[1].path == "p";
    assert !NoCollision(d, b.drafts);
    FaithfulUnlessPathsCollide(d, b);
    assert LandFirst(d, b.drafts, 1) == map["p" := Page("a", "one")];
    assert LandFirst(d, b.drafts, 2) == LandFirst(d, b.drafts, 1);
    assert FinalRun(d, b).rows[1] == Row("b", Some("p"), true);
  }

  // ---------- the code ----------

  class Vault {
    var pages: map<string, Page>
    var runs: seq<Run>

    ghost function OnDisk(): Disk
      reads this
    {
      Disk(pages, runs)
    }

    /** `_landed_wiki_records`. */
    method LandedRecords() returns (landed: map<string, Row>)
      ensures forall id :: id in landed <==> Landed(runs, pages, id).Some?
      ensures forall id | id in landed :: landed[id] == Landed(runs, pages, id).value
    {
      landed := map[];
      for a := 0 to |runs|
        invariant forall id :: id in landed <==> Landed(runs[..a], pages, id).Some?
        invariant forall id | id in landed :: landed[id] == Landed(runs[..a], pages, id).value
      {
        landed := LandedInRun(runs[a].rows, landed, runs[..a]);
        assert runs[..a + 1][..a] == runs[..a];
      }
      assert runs[..|runs|] == runs;
    }

    method LandedInRun(rows: seq<Row>, before: map<string, Row>, ghost front: seq<Run>)
      returns (landed: map<string, Row>)
      requires forall id :: id in before <==> Landed(front, pages, id).Some?
      requires forall id | id in before :: before[id] == Landed(front, pages, id).value
      ensures forall id :: id in landed <==> LastIn(rows, pages, id).Some? || Landed(front, pages, id).Some?
      ensures forall id | id in landed ::
                landed[id] == if LastIn(rows, pages, id).Some? then LastIn(rows, pages, id).value
                    else Landed(front, pages, id).value
    {
      hide LastIn, Landed;
      landed := before;
      NoRowNames(pages);
      assert rows[..0] == [];
      for c := 0 to |rows|
        invariant forall id :: id in landed <==> LastIn(rows[..c], pages, id).Some? || Landed(front, pages, id).Some?
        invariant forall id | id in landed ::
                    landed[id] == if LastIn(rows[..c], pages, id).Some? then LastIn(rows[..c], pages, id).value
                        else Landed(front, pages, id).value
      {
        var row := rows[c];
        LastInOneMore(rows, pages, c);
        if row.pageId != "" && row.path.Some? && row.path.value != "" && row.path.value in pages {
          landed := landed[row.pageId := row];
        }
      }
      assert rows[..|rows|] == rows;
    }

    /** The planning loop: what the records will say, and what is committed first. */
    method Plan(b: Batch, landed: map<string, Row>) returns (planned: seq<Row>, pending: seq<Row>)
      requires forall id :: id in landed <==> Landed(runs, pages, id).Some?
      requires forall id | id in landed :: landed[id] == Landed(runs, pages, id).value
      ensures pending == PendingRun(OnDisk(), b).rows && planned == FinalRun(OnDisk(), b).rows
    {
      planned, pending := [], [];
      for i := 0 to |b.drafts|
        invariant |planned| == |pending| == i
        invariant forall j | 0 <= j < i ::
                    planned[j] == Planned(OnDisk(), b.drafts[j]) && pending[j] == Pending(OnDisk(), b.drafts[j])
      {
        var draft := b.drafts[i];
        if draft.pageId in landed {
          planned := planned + [landed[draft.pageId]];
          pending := pending + [landed[draft.pageId]];
        } else {
          var rec := if draft.forged then Row(draft.pageId, None, false) else Row(draft.pageId, Some(draft.path), true);
          planned := planned + [rec];
          pending := pending + [if rec.path.Some? then rec.(written := false) else rec];
        }
      }
    }

    /** The last loop of `_write_batch`: replace our run in place, or append it. */
    method FlipRows(pending: Run, final: Run)
      modifies this`runs
      ensures runs == Flip(old(runs), pending, final)
    {
      FlipReplacesFirstTwin(runs, pending, final);
      for i := 0 to |runs|
        invariant runs == old(runs)
        invariant forall a | 0 <= a < i :: !SameKey(runs[a], pending)
      {
        if SameKey(runs[i], pending) {
          runs := runs[i := final];
          return;
        }
      }
      runs := runs + [final];
    }

    /**
      `_write_batch` by a process that dies after `steps` durable steps: the
      commit, one step per draft, the flip. `swept` is the wiki as the expiry
      sweep leaves it, and `readable` says whether the ledger loads again at the
      flip; if not, the payload goes behind the runs read at the start.
    */
    method WriteBatch(b: Batch, swept: map<string, Page>, readable: bool, steps: nat) returns (finished: bool)
      requires swept.Keys == pages.Keys && forall p | p in pages :: swept[p].pageId == pages[p].pageId
      modifies this
      ensures finished <==> steps >= Points(b)
      ensures finished && !readable ==>
                OnDisk() == Disk(LandFirst(Disk(swept, old(runs)), b.drafts, |b.drafts|),
                                 old(runs) + [FinalRun(Disk(swept, old(runs)), b)])
      ensures !finished || readable || NewKey(Disk(swept, old(runs)), b) ==>
                OnDisk() == DiskAt(Disk(swept, old(runs)), b, if finished then Points(b) else steps)
    {
      pages := swept;
      ghost var d := OnDisk();
      var existing := runs;
      var landed := LandedRecords();
      var planned, pending := Plan(b, landed);
      var pendingRun := Run(b.trace, b.created, pending);
      if steps == 0 {
        return false;
      }
      runs := existing + [pendingRun];
      for i := 0 to |b.drafts|
        invariant i < steps
        invariant pages == LandFirst(d, b.drafts, i)
        invariant runs == existing + [pendingRun]
      {
        if i + 1 == steps {
          return false;
        }
        var draft, rec := b.drafts[i], planned[i];
        assert rec == Planned(d, draft);
        var already := draft.pageId in landed || (rec.path.Some? && rec.path.value in pages);
        if !already && rec.written && rec.path.Some? {
          pages := pages[draft.path := Page(draft.pageId, draft.body)];
        }
      }
      if |b.drafts| + 1 == steps {
        return false;
      }
      var final := Run(b.trace, b.created, planned);
      if NewKey(d, b) {
        CompletedRuns(d, b);
      }
      if readable {
        FlipRows(pendingRun, final);
      } else {
        runs := existing + [final];
      }
      return true;
    }
  }
}
