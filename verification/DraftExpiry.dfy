/**
  Draft expiry racing endorsement (`_expire_stale_drafts` and `endorse_draft`
  in src/minni/afm_writer.py). A page is a list of lines; both operations read
  and rewrite only the fenced frontmatter at its head. Any number of sweeps and
  endorsements run at once: each scans without a lock, takes the lock of the
  page id it saw, reads the page again, and decides on what it then finds. A
  third kind of step re-stamps a draft that nobody is working on.
*/
module DraftExpiry {
  import opened Wrappers

  /** A line as the frontmatter patterns see it; `Fence` is any line that begins with three dashes. */
  datatype Line =
    | Fence
    | Status(value: string)
    | Agent(value: string)
    | Expires(at: Option<int>)  // None when the stamp does not parse
    | PageId(id: string)
    | Other(text: string)

  type Page = seq<Line>

  // ---------- frontmatter ----------

  function ClosingFence(page: Page, from: nat): (end: Option<nat>)
    requires from <= |page|
    ensures end.Some? ==> from <= end.value < |page| && page[end.value].Fence?
    ensures end.Some? ==> forall i | from <= i < end.value :: !page[i].Fence?
    ensures end.None? ==> forall i | from <= i < |page| :: !page[i].Fence?
    decreases |page| - from
  {
    if from == |page| then None
    else if page[from].Fence? then Some(from)
    else ClosingFence(page, from + 1)
  }

  /** `_extract_frontmatter_block`: the number of lines of the closed block, if there is one. */
  function FrontLength(page: Page): (end: Option<nat>)
    ensures end.Some? ==> 0 < end.value < |page|
  {
    if page == [] || !page[0].Fence? then None else ClosingFence(page, 1)
  }

  predicate HasDraftStatus(front: seq<Line>) {
    Status("draft") in front
  }

  function FirstExpires(front: seq<Line>): Option<int> {
    if front == [] then None
    else if front[0].Expires? then front[0].at
    else FirstExpires(front[1..])
  }

  function FirstPageId(front: seq<Line>): Option<string> {
    if front == [] then None
    else if front[0].PageId? then Some(front[0].id)
    else FirstPageId(front[1..])
  }

  predicate IsDraft(page: Page) {
    FrontLength(page).Some? && HasDraftStatus(page[..FrontLength(page).value])
  }

  function PageIdOf(page: Page): Option<string> {
    if FrontLength(page).Some? then FirstPageId(page[..FrontLength(page).value]) else None
  }

  /** The gates of the sweep: a draft of the loop whose stamp parses and lies before `now`. */
  predicate Expirable(page: Page, now: int) {
    && IsDraft(page)
    && var front := page[..FrontLength(page).value];
    && Agent("afm-loop") in front
    && FirstExpires(front).Some? && FirstExpires(front).value < now
  }

  // ---------- what the fields of a page are ----------

  /** The frontmatter is closed by the line `n`: the first fence behind the one that opens the page. */
  predicate ClosedAt(page: Page, n: nat) {
    && 0 < n < |page| && page[0].Fence? && page[n].Fence?
    && forall i | 0 < i < n :: !page[i].Fence?
  }

  lemma FrontIsClosed(page: Page, n: nat)
    ensures FrontLength(page) == Some(n) <==> ClosedAt(page, n)
  {
    if ClosedAt(page, n) {
      var end := FrontLength(page);
      assert end.Some?;
      assert !(end.value < n) && !(n < end.value);
    }
  }

  /** Line `k` is the first page id of the frontmatter, and says this. */
  predicate IdAt(page: Page, n: nat, id: string, k: nat) {
    k < n <= |page| && page[k] == PageId(id) && forall i | 0 <= i < k :: !page[i].PageId?
  }

  ghost predicate Carries(page: Page, id: string) {
    exists n: nat, k: nat :: ClosedAt(page, n) && IdAt(page, n, id, k)
  }

  lemma {:induction false} FirstIdIs(front: seq<Line>) returns (k: nat)
    ensures k <= |front| && forall i | 0 <= i < k :: !front[i].PageId?
    ensures if k < |front| then front[k].PageId? && FirstPageId(front) == Some(front[k].id)
            else FirstPageId(front).None?
  {
    k := 0;
    if front != [] && !front[0].PageId? {
      k := FirstIdIs(front[1..]);
      k := k + 1;
    }
  }

  /** The id of a page is the one its closed frontmatter says first. */
  lemma PageIdExactly(page: Page, id: string)
    ensures PageIdOf(page) == Some(id) <==> Carries(page, id)
  {
    hide ClosedAt, FirstPageId, FrontLength;
    forall n: nat ensures FrontLength(page) == Some(n) <==> ClosedAt(page, n) { FrontIsClosed(page, n); }
    if FrontLength(page).Some? {
      var n := FrontLength(page).value;
      var k := FirstIdIs(page[..n]);
      assert forall i | 0 <= i < n :: page[..n][i] == page[i];
      if k < n && page[k] == PageId(id) {
        assert IdAt(page, n, id, k);
      }
    }
  }

  /** Line `k` is the first stamp of the frontmatter, and says this time. */
  predicate StampAt(page: Page, n: nat, at: int, k: nat) {
    k < n <= |page| && page[k] == Expires(Some(at)) && forall i | 0 <= i < k :: !page[i].Expires?
  }

  /**
    The frontmatter is closed, has a draft line and one of the loop's agent, and its
    first stamp is a time before `now`.
  */
  ghost predicate PastDue(page: Page, now: int) {
    exists n: nat, i: nat, j: nat, k: nat, at: int ::
      && ClosedAt(page, n) && StampAt(page, n, at, k) && at < now
      && i < n && page[i] == Status("draft") && j < n && page[j] == Agent("afm-loop")
  }

  lemma {:induction false} FirstStampIs(front: seq<Line>) returns (k: nat)
    ensures k <= |front| && forall i | 0 <= i < k :: !front[i].Expires?
    ensures if k < |front| then front[k].Expires? && FirstExpires(front) == front[k].at else FirstExpires(front).None?
  {
    k := 0;
    if front != [] && !front[0].Expires? {
      k := FirstStampIs(front[1..]);
      k := k + 1;
    }
  }

  /** The gates of the sweep, line by line. */
  lemma ExpirableExactly(page: Page, now: int)
    ensures Expirable(page, now) <==> PastDue(page, now)
  {
    hide ClosedAt, FirstExpires, FrontLength;
    forall n: nat ensures FrontLength(page) == Some(n) <==> ClosedAt(page, n) { FrontIsClosed(page, n); }
    if FrontLength(page).Some? {
      var n := FrontLength(page).value;
      var front := page[..n];
      var k := FirstStampIs(front);
      assert forall i | 0 <= i < n :: front[i] == page[i];
      if Expirable(page, now) {
        var i :| 0 <= i < n && front[i] == Status("draft");
        var j :| 0 <= j < n && front[j] == Agent("afm-loop");
        assert StampAt(page, n, page[k].at.value, k);
        assert page[i] == Status("draft") && page[j] == Agent("afm-loop");
      }
    }
  }

  /** The substitution with `count=1`. */
  function SubstituteFirst(front: seq<Line>, status: string): (r: seq<Line>)
    ensures |r| == |front|
    ensures forall i | 0 <= i < |front| :: r[i] == front[i] || (front[i] == Status("draft") && r[i] == Status(status))
  {
    if front == [] then []
    else if front[0] == Status("draft") then [Status(status)] + front[1..]
    else [front[0]] + SubstituteFirst(front[1..], status)
  }

  /** Rewriting inside the frontmatter slice and splicing it back. */
  function Settle(page: Page, status: string): Page
    requires FrontLength(page).Some?
  {
    var n := FrontLength(page).value;
    SubstituteFirst(page[..n], status) + page[n..]
  }

  function DraftLines(front: seq<Line>): nat {
    if front == [] then 0 else (if front[0] == Status("draft") then 1 else 0) + DraftLines(front[1..])
  }

  // ---------- what one rewrite does ----------

  lemma {:induction false} DraftLinesPositive(front: seq<Line>)
    ensures DraftLines(front) > 0 <==> HasDraftStatus(front)
  {
    if front != [] {
      DraftLinesPositive(front[1..]);
      assert front == [front[0]] + front[1..];
    }
  }

  lemma {:induction false} SubstituteRemovesOne(front: seq<Line>, status: string)
    requires status != "draft" && HasDraftStatus(front)
    ensures DraftLines(SubstituteFirst(front, status)) == DraftLines(front) - 1
    ensures Status(status) in SubstituteFirst(front, status)
  {
    if front[0] == Status("draft") {
      assert SubstituteFirst(front, status)[1..] == front[1..];
      assert SubstituteFirst(front, status)[0] == Status(status);
    } else {
      assert front == [front[0]] + front[1..];
      SubstituteRemovesOne(front[1..], status);
      assert SubstituteFirst(front, status)[1..] == SubstituteFirst(front[1..], status);
    }
  }

  lemma {:induction false} SubstituteKeepsFields(front: seq<Line>, status: string)
    ensures FirstPageId(SubstituteFirst(front, status)) == FirstPageId(front)
    ensures FirstExpires(SubstituteFirst(front, status)) == FirstExpires(front)
  {
    if front != [] {
      SubstituteKeepsFields(front[1..], status);
      var r := SubstituteFirst(front, status);
      assert front[0] == Status("draft") ==> r[1..] == front[1..];
      assert front[0] != Status("draft") ==> r[1..] == SubstituteFirst(front[1..], status);
    }
  }

  lemma {:induction false} SameFences(a: Page, b: Page, from: nat)
    requires |a| == |b| && from <= |a| && forall i | 0 <= i < |a| :: a[i].Fence? <==> b[i].Fence?
    ensures ClosingFence(a, from) == ClosingFence(b, from)
    decreases |a| - from
  {
    if from < |a| {
      SameFences(a, b, from + 1);
    }
  }

  /** The line is the same, or a status or a stamp of the frontmatter. */
  predicate SameLine(a: Page, b: Page, i: nat)
    requires i < |a| == |b|
  {
    || a[i] == b[i]
    || (FrontLength(a).Some? && i < FrontLength(a).value
        && ((a[i].Status? && b[i].Status?) || (a[i].Expires? && b[i].Expires?)))
  }

  /** What a page is apart from its status and its stamps. */
  ghost predicate SameBut(a: Page, b: Page) {
    |a| == |b| && forall i | 0 <= i < |a| :: SameLine(a, b, i)
  }

  /** The first draft line of the page, in its frontmatter, says something else; all the rest is as it was. */
  ghost predicate FirstDraftBecomes(page: Page, after: Page, status: string) {
    exists k | 0 <= k < |page| :: BecomesAt(page, after, status, k)
  }

  ghost predicate BecomesAt(page: Page, after: Page, status: string, k: nat)
    requires k < |page|
  {
    && page[k] == Status("draft") && (forall i | 0 <= i < k :: page[i] != Status("draft"))
    && FrontLength(page).Some? && k < FrontLength(page).value
    && after == page[k := Status(status)]
  }

  lemma {:induction false} SubstitutesFirst(front: seq<Line>, status: string) returns (k: nat)
    requires HasDraftStatus(front)
    ensures k < |front| && front[k] == Status("draft") && (forall i | 0 <= i < k :: front[i] != Status("draft"))
    ensures SubstituteFirst(front, status) == front[k := Status(status)]
  {
    k := 0;
    if front[0] != Status("draft") {
      var rest := front[1..];
      assert front == [front[0]] + rest && Status("draft") in rest;
      var l := SubstitutesFirst(rest, status);
      k := l + 1;
      assert SubstituteFirst(front, status) == [front[0]] + rest[l := Status(status)];
      hide SubstituteFirst;
      ConsUpdate(front[0], rest, l, Status(status));
      ConsBefore(front, k);
    }
  }

  lemma ConsBefore(front: seq<Line>, k: nat)
    requires 0 < k < |front| && front[0] != Status("draft")
    requires forall i | 0 <= i < k - 1 :: front[1..][i] != Status("draft")
    ensures forall i | 0 <= i < k :: front[i] != Status("draft")
  {
    assert forall i | 0 < i < k :: front[i] == front[1..][i - 1];
  }

  lemma ConsUpdate(first: Line, rest: seq<Line>, l: nat, line: Line)
    requires l < |rest|
    ensures ([first] + rest)[l + 1 := line] == [first] + rest[l := line]
  {
  }

  lemma SumUpdate(front: seq<Line>, tail: seq<Line>, k: nat, line: Line)
    requires k < |front|
    ensures (front + tail)[k := line] == front[k := line] + tail
  {
  }

  lemma SettlesFirst(page: Page, status: string)
    requires IsDraft(page)
    ensures FirstDraftBecomes(page, Settle(page, status), status)
  {
    hide SubstituteFirst, ClosingFence;
    var n := FrontLength(page).value;
    var front := page[..n];
    var k := SubstitutesFirst(front, status);
    assert forall i | 0 <= i <= k :: page[i] == front[i];
    assert page == front + page[n..];
    SumUpdate(front, page[n..], k, Status(status));
    assert BecomesAt(page, Settle(page, status), status, k);
  }

  /**
    One rewrite: the first draft line of the frontmatter changes and nothing else;
    identity and stamp stay, so does everything after the block, and the page stops
    being a draft exactly when it had a single draft line.
  */
  lemma SettleEffect(page: Page, status: string)
    requires IsDraft(page) && status != "draft"
    ensures var after := Settle(page, status);
            var n := FrontLength(page).value;
            && FirstDraftBecomes(page, after, status)
            && FrontLength(after) == FrontLength(page)
            && after[n..] == page[n..]
            && PageIdOf(after) == PageIdOf(page)
            && FirstExpires(after[..n]) == FirstExpires(page[..n])
            && Status(status) in after[..n]
            && SameBut(page, after)
            && (!IsDraft(after) <==> DraftLines(page[..n]) == 1)
  {
    SettlesFirst(page, status);
    hide FirstDraftBecomes;
    var after, n := Settle(page, status), FrontLength(page).value;
    var front := page[..n];
    assert forall i | 0 <= i < n :: after[i] == SubstituteFirst(front, status)[i];
    SameFences(page, after, 1);
    assert after[..n] == SubstituteFirst(front, status);
    SubstituteRemovesOne(front, status);
    SubstituteKeepsFields(front, status);
    DraftLinesPositive(front);
    DraftLinesPositive(after[..n]);
  }

  // ---------- the race ----------

  /** How an attempt of one thread on one page ended. */
  datatype Ending = Won(status: string) | Lost

  datatype Thread =
    | Scanned(path: string, key: Option<string>, now: int)             // the unlocked read found the page expirable
    | Expiring(path: string, key: Option<string>, now: int, seen: Page) // lock held if there is a key, page re-read
    | Found(path: string, id: string, status: string)                  // the unlocked search found the page
    | Endorsing(path: string, id: string, status: string, seen: Page)
    | Ended(path: string, ending: Ending, expiredAt: Option<int>)

  datatype State = State(pages: map<string, Page>, locks: set<string>, threads: map<nat, Thread>)

  function DecisionStatus(decision: string): Option<string> {
    match decision
    case "accept" => Some("accepted")
    case "reject" => Some("rejected")
    case "edit" => Some("edit_requested")
    case _ => None
  }

  datatype Step =
    | Scan(t: nat, path: string, now: int)
    | LockExpire(t: nat)
    | WriteExpire(t: nat)
    | Search(t: nat, path: string, id: string, decision: string)
    | LockEndorse(t: nat)
    | WriteEndorse(t: nat)
    | Restamp(path: string, page: Page)

  predicate Busy(th: Thread, path: string) {
    (th.Expiring? || th.Endorsing?) && th.path == path
  }

  ghost predicate Enabled(s: State, a: Step) {
    match a
    case Scan(t, path, now) => t !in s.threads && path in s.pages && Expirable(s.pages[path], now)
    case LockExpire(t) => t in s.threads && s.threads[t].Scanned? && s.threads[t].path in s.pages
                          && (s.threads[t].key.Some? ==> s.threads[t].key.value !in s.locks)
    case WriteExpire(t) => t in s.threads && s.threads[t].Expiring?
    case Search(t, path, id, decision) => t !in s.threads && path in s.pages && PageIdOf(s.pages[path]) == Some(id)
                                          && DecisionStatus(decision).Some?
    case LockEndorse(t) => t in s.threads && s.threads[t].Found? && s.threads[t].path in s.pages
        && s.threads[t].id !in s.locks
    case WriteEndorse(t) => t in s.threads && s.threads[t].Endorsing?
    // another writer moves the stamps of a page that stays a draft, outside any critical section on it
    case Restamp(path, page) => path in s.pages && IsDraft(s.pages[path]) && SameBut(s.pages[path], page)
                                && (forall i | 0 <= i < |page| && page[i].Status? :: page[i] == s.pages[path][i])
                                && forall t | t in s.threads :: !Busy(s.threads[t], path)
  }

  function Release(locks: set<string>, key: Option<string>): set<string> {
    if key.Some? then locks - {key.value} else locks
  }

  function Next(s: State, a: Step): State
    requires Enabled(s, a)
  {
    match a
    case Scan(t, path, now) => s.(threads := s.threads[t := Scanned(path, PageIdOf(s.pages[path]), now)])
    case LockExpire(t) =>
      var th := s.threads[t];
      s.(locks := if th.key.Some? then s.locks + {th.key.value} else s.locks,
         threads := s.threads[t := Expiring(th.path, th.key, th.now, s.pages[th.path])])
    case WriteExpire(t) =>
      var th := s.threads[t];
      var free := s.(locks := Release(s.locks, th.key));
      if Expirable(th.seen, th.now)
      then free.(pages := s.pages[th.path := Settle(th.seen, "expired")],
                 threads := s.threads[t := Ended(th.path, Won("expired"), Some(th.now))])
      else free.(threads := s.threads[t := Ended(th.path, Lost, None)])
    case Search(t, path, id, decision) => s.(threads := s.threads[t := Found(path, id, DecisionStatus(decision).value)])
    case LockEndorse(t) =>
      var th := s.threads[t];
      s.(locks := s.locks + {th.id}, threads := s.threads[t := Endorsing(th.path, th.id, th.status, s.pages[th.path])])
    case WriteEndorse(t) =>
      var th := s.threads[t];
      var free := s.(locks := s.locks - {th.id});
      if PageIdOf(th.seen) == Some(th.id) && IsDraft(th.seen)
      then free.(pages := s.pages[th.path := Settle(th.seen, th.status)],
                 threads := s.threads[t := Ended(th.path, Won(th.status), None)])
      else free.(threads := s.threads[t := Ended(th.path, Lost, None)])
    case Restamp(path, page) => s.(pages := s.pages[path := page])
  }

  // ---------- the invariant of the race, relative to the pages at the start ----------

  ghost predicate OneStatusLine(page: Page) {
    FrontLength(page).Some? ==> DraftLines(page[..FrontLength(page).value]) <= 1
  }

  /** Pages keep their identity and their text; a page that was no draft keeps everything. */
  ghost predicate PagesOk(start: map<string, Page>, pages: map<string, Page>) {
    && pages.Keys == start.Keys
    && forall path | path in pages ::
         && SameBut(start[path], pages[path])
         && FrontLength(pages[path]) == FrontLength(start[path])
         && PageIdOf(pages[path]) == PageIdOf(start[path])
         && OneStatusLine(pages[path])
         && (!IsDraft(start[path]) ==> pages[path] == start[path])
  }

  function KeyOf(th: Thread): Option<string> {
    match th
    case Scanned(_, key, _) => key
    case Expiring(_, key, _, _) => key
    case Found(_, id, _) => Some(id)
    case Endorsing(_, id, _, _) => Some(id)
    case Ended(_, _, _) => None
  }

  predicate InSection(th: Thread) {
    th.Expiring? || th.Endorsing?
  }

  /** Every active thread uses the page's own id as its lock. */
  ghost predicate ThreadOk(start: map<string, Page>, th: Thread) {
    && th.path in start
    && (!th.Ended? ==> KeyOf(th) == PageIdOf(start[th.path]))
    && (th.Scanned? || th.Expiring? ==> IsDraft(start[th.path]))
    && ((th.Found? || th.Endorsing?) ==> th.status in {"accepted", "rejected", "edit_requested"})
  }

  ghost predicate ExpiredMeanwhile(page: Page, seen: Page) {
    IsDraft(seen) && page == Settle(seen, "expired") && !IsDraft(page)
  }

  /**
    A thread inside a critical section sees the page as it is; only an id-less page may have been
    expired meanwhile.
  */
  ghost predicate SectionOk(s: State, th: Thread) {
    InSection(th) ==>
      && th.path in s.pages
      && (KeyOf(th).Some? ==> KeyOf(th).value in s.locks && th.seen == s.pages[th.path])
      && (KeyOf(th).None? ==>
            th.Expiring? && (th.seen == s.pages[th.path] || ExpiredMeanwhile(s.pages[th.path], th.seen)))
  }

  /** A winner's page is settled with the winner's status, and an expired page was past its stamp. */
  ghost predicate EndOk(s: State, start: map<string, Page>, th: Thread) {
    th.Ended? && th.ending.Won? ==>
      && th.path in s.pages && th.path in start
      && IsDraft(start[th.path])
      && !IsDraft(s.pages[th.path])
      && FrontLength(s.pages[th.path]).Some?
      && var front := s.pages[th.path][..FrontLength(s.pages[th.path]).value];
      && Status(th.ending.status) in front
      && (th.expiredAt.Some? <==> th.ending.status == "expired")
      && (th.expiredAt.Some? ==> FirstExpires(front).Some? && FirstExpires(front).value < th.expiredAt.value)
  }

  ghost predicate Winner(threads: map<nat, Thread>, t: nat, path: string) {
    t in threads && threads[t].Ended? && threads[t].ending.Won? && threads[t].path == path
  }

  ghost predicate ThreadsOk(s: State, start: map<string, Page>) {
    forall t | t in s.threads :: ThreadOk(start, s.threads[t])
  }

  ghost predicate SectionsOk(s: State) {
    forall t | t in s.threads :: SectionOk(s, s.threads[t])
  }

  ghost predicate EndsOk(s: State, start: map<string, Page>) {
    forall t | t in s.threads :: EndOk(s, start, s.threads[t])
  }

  /** No two critical sections hold the same lock. */
  ghost predicate LocksOk(threads: map<nat, Thread>) {
    forall t, u | t in threads && u in threads && t != u && InSection(threads[t]) && InSection(threads[u]) ::
      KeyOf(threads[t]).None? || KeyOf(threads[t]) != KeyOf(threads[u])
  }

  /** A page with an id has at most one winner. */
  ghost predicate OneWinner(threads: map<nat, Thread>, start: map<string, Page>) {
    forall t, u, path | path in start && PageIdOf(start[path]).Some?
                        && Winner(threads, t, path) && Winner(threads, u, path) :: t == u
  }

  /** A page that left `draft` has a winner. */
  ghost predicate SomeWinner(s: State, start: map<string, Page>) {
    forall path | path in start && path in s.pages && IsDraft(start[path]) && !IsDraft(s.pages[path]) ::
      exists t :: Winner(s.threads, t, path)
  }

  ghost predicate Inv(s: State, start: map<string, Page>) {
    && PagesOk(start, s.pages)
    && ThreadsOk(s, start)
    && SectionsOk(s)
    && EndsOk(s, start)
    && LocksOk(s.threads)
    && OneWinner(s.threads, start)
    && SomeWinner(s, start)
  }

  // ---------- steps that touch neither pages nor winners ----------

  /** One thread moves on without ending, and the locks only grow by its own key. */
  ghost predicate Quiet(s: State, t: State, start: map<string, Page>, id: nat) {
    && t.pages == s.pages && s.locks <= t.locks && id in t.threads
    && t.threads == s.threads[id := t.threads[id]]
    && (id in s.threads ==> !s.threads[id].Ended?)
    && ThreadOk(start, t.threads[id]) && SectionOk(t, t.threads[id]) && !t.threads[id].Ended?
    && (InSection(t.threads[id]) && KeyOf(t.threads[id]).Some? ==> KeyOf(t.threads[id]).value !in s.locks)
  }

  lemma QuietThreads(s: State, t: State, start: map<string, Page>, id: nat)
    requires Quiet(s, t, start, id) && ThreadsOk(s, start) && SectionsOk(s) && EndsOk(s, start)
    ensures ThreadsOk(t, start) && SectionsOk(t) && EndsOk(t, start)
  {
    hide ThreadOk, IsDraft, Expirable, Settle, FrontLength;
    forall u | u in t.threads ensures SectionOk(t, t.threads[u]) && EndOk(t, start, t.threads[u]) {
      if u != id {
        assert SectionOk(s, s.threads[u]) && EndOk(s, start, s.threads[u]);
      }
    }
  }

  lemma QuietLocks(s: State, t: State, start: map<string, Page>, id: nat)
    requires Quiet(s, t, start, id) && SectionsOk(s) && LocksOk(s.threads)
    ensures LocksOk(t.threads)
  {
    hide ThreadOk, IsDraft, Expirable, Settle, FrontLength;
    forall u | u in t.threads && u != id && InSection(t.threads[u]) && InSection(t.threads[id])
      ensures KeyOf(t.threads[id]).None? || KeyOf(t.threads[id]) != KeyOf(t.threads[u])
    {
      assert SectionOk(s, s.threads[u]);
    }
  }

  lemma QuietWinners(s: State, t: State, start: map<string, Page>, id: nat)
    requires Quiet(s, t, start, id) && OneWinner(s.threads, start) && SomeWinner(s, start)
    ensures OneWinner(t.threads, start) && SomeWinner(t, start)
  {
    hide ThreadOk, SectionOk, IsDraft, PageIdOf;
    assert forall u, path :: Winner(t.threads, u, path) <==> Winner(s.threads, u, path);
    forall path | path in start && path in t.pages && IsDraft(start[path]) && !IsDraft(t.pages[path])
      ensures exists u :: Winner(t.threads, u, path)
    {
      var u :| Winner(s.threads, u, path);
      assert Winner(t.threads, u, path);
    }
  }

  lemma QuietKeeps(s: State, t: State, start: map<string, Page>, id: nat)
    requires Inv(s, start) && Quiet(s, t, start, id)
    ensures Inv(t, start)
  {
    hide Quiet, PagesOk, ThreadsOk, SectionsOk, EndsOk, LocksOk, OneWinner, SomeWinner;
    assert t.pages == s.pages by {
      QuietPages(s, t, start, id);
    }
    QuietThreads(s, t, start, id);
    QuietLocks(s, t, start, id);
    QuietWinners(s, t, start, id);
  }

  lemma QuietPages(s: State, t: State, start: map<string, Page>, id: nat)
    requires Quiet(s, t, start, id)
    ensures t.pages == s.pages
  {}

  // ---------- steps that end a thread ----------

  /** The thread leaves its section without writing. */
  ghost predicate Loses(s: State, t: State, id: nat) {
    && id in s.threads && InSection(s.threads[id])
    && t == State(s.pages, Release(s.locks, KeyOf(s.threads[id])),
        s.threads[id := Ended(s.threads[id].path, Lost, None)])
  }

  lemma LoseKeeps(s: State, t: State, start: map<string, Page>, id: nat)
    requires Inv(s, start) && Loses(s, t, id)
    ensures Inv(t, start)
  {
    hide PagesOk, ThreadOk, IsDraft, PageIdOf, Expirable, Settle, FrontLength, FirstExpires;
    forall u | u in t.threads
      ensures ThreadOk(start, t.threads[u]) && SectionOk(t, t.threads[u]) && EndOk(t, start, t.threads[u])
    {
      assert SectionOk(s, s.threads[u]) && EndOk(s, start, s.threads[u]) && ThreadOk(start, s.threads[u]);
      LostThreadOk(start, s.threads[id]);
    }
    LostWinners(s, t, start, id);
  }

  lemma LostThreadOk(start: map<string, Page>, th: Thread)
    requires ThreadOk(start, th)
    ensures ThreadOk(start, Ended(th.path, Lost, None))
  {}

  lemma LostWinners(s: State, t: State, start: map<string, Page>, id: nat)
    requires Loses(s, t, id) && OneWinner(s.threads, start) && SomeWinner(s, start)
    ensures OneWinner(t.threads, start) && SomeWinner(t, start)
  {
    hide IsDraft, PageIdOf;
    assert forall u, path :: Winner(t.threads, u, path) <==> Winner(s.threads, u, path);
    forall path | path in start && path in t.pages && IsDraft(start[path]) && !IsDraft(t.pages[path])
      ensures exists u :: Winner(t.threads, u, path)
    {
      var u :| Winner(s.threads, u, path);
      assert Winner(t.threads, u, path);
    }
  }

  lemma SameButTrans(a: Page, b: Page, c: Page)
    requires SameBut(a, b) && SameBut(b, c) && FrontLength(a) == FrontLength(b)
    ensures SameBut(a, c)
  {
    forall i | 0 <= i < |a| ensures SameLine(a, c, i) {
      assert SameLine(a, b, i) && SameLine(b, c, i);
    }
  }

  /** The thread settles its page on the strength of what it sees, and what it sees is current. */
  ghost predicate Wins(s: State, t: State, id: nat, status: string, at: Option<int>) {
    && id in s.threads && InSection(s.threads[id])
    && var th := s.threads[id];
    && th.path in s.pages && th.seen == s.pages[th.path]
    && IsDraft(th.seen) && status != "draft"
    && (at.Some? <==> status == "expired")
    && (at.Some? ==> Expirable(th.seen, at.value))
    && t == State(s.pages[th.path := Settle(th.seen, status)], Release(s.locks, KeyOf(th)),
                  s.threads[id := Ended(th.path, Won(status), at)])
  }

  lemma WinPages(s: State, t: State, start: map<string, Page>, id: nat, status: string, at: Option<int>)
    requires Wins(s, t, id, status, at) && PagesOk(start, s.pages)
    ensures PagesOk(start, t.pages) && !IsDraft(t.pages[s.threads[id].path]) && IsDraft(start[s.threads[id].path])
  {
    hide Settle, FrontLength, SubstituteFirst, FirstExpires, FirstPageId, SameBut;
    var path := s.threads[id].path;
    var page := s.pages[path];
    SettleEffect(page, status);
    SameButTrans(start[path], page, t.pages[path]);
    DraftLinesPositive(page[..FrontLength(page).value]);
    DraftLinesPositive(t.pages[path][..FrontLength(page).value]);
  }

  lemma WinEnd(s: State, t: State, start: map<string, Page>, id: nat, status: string, at: Option<int>)
    requires Wins(s, t, id, status, at) && PagesOk(start, s.pages)
    ensures EndOk(t, start, t.threads[id])
  {
    WinPages(s, t, start, id, status, at);
    SettleEffect(s.pages[s.threads[id].path], status);
  }

  /** Who else is inside a section on the same page: nobody if the page has an id, only expirers otherwise. */
  lemma WinSection(s: State, t: State, start: map<string, Page>, id: nat, u: nat, status: string, at: Option<int>)
    requires Wins(s, t, id, status, at) && LocksOk(s.threads) && u in s.threads && u != id
    requires ThreadOk(start, s.threads[id]) && ThreadOk(start, s.threads[u]) && SectionOk(s, s.threads[u])
              && SectionOk(s, s.threads[id])
    requires KeyOf(s.threads[id]).None? ==> status == "expired"
    requires !IsDraft(t.pages[s.threads[id].path])
    ensures SectionOk(t, s.threads[u])
  {
    hide IsDraft, Expirable, Settle, FrontLength, PageIdOf;
    var th, other := s.threads[id], s.threads[u];
    if InSection(other) && other.path == th.path {
      assert KeyOf(other) == KeyOf(th);
    }
  }

  lemma WinSections(s: State, t: State, start: map<string, Page>, id: nat, status: string, at: Option<int>)
    requires Wins(s, t, id, status, at) && PagesOk(start, s.pages) && ThreadsOk(s, start) && SectionsOk(s)
              && LocksOk(s.threads)
    requires KeyOf(s.threads[id]).None? ==> status == "expired"
    ensures SectionsOk(t)
  {
    WinPages(s, t, start, id, status, at);
    WinShape(s, t, id, status, at);
    hide Wins, PagesOk, IsDraft, SectionOk, ThreadOk, LocksOk;
    forall u | u in t.threads ensures SectionOk(t, t.threads[u]) {
      if u != id {
        WinSection(s, t, start, id, u, status, at);
      } else {
        EndedOutside(t, t.threads[id]);
      }
    }
  }

  lemma WinShape(s: State, t: State, id: nat, status: string, at: Option<int>)
    requires Wins(s, t, id, status, at)
    ensures t.threads.Keys == s.threads.Keys && t.threads[id].Ended?
    ensures forall u | u in s.threads && u != id :: t.threads[u] == s.threads[u]
  {}

  lemma LocksAfterEnd(s: State, t: State, id: nat)
    requires LocksOk(s.threads) && id in s.threads && id in t.threads && t.threads == s.threads[id := t.threads[id]]
              && t.threads[id].Ended?
    ensures LocksOk(t.threads)
  {}

  lemma EndedOutside(s: State, th: Thread)
    requires th.Ended?
    ensures SectionOk(s, th)
  {}

  lemma NoWinnerYet(s: State, start: map<string, Page>, path: string)
    requires EndsOk(s, start) && path in s.pages && IsDraft(s.pages[path])
    ensures forall u :: !Winner(s.threads, u, path)
  {}

  lemma WinWinners(s: State, t: State, start: map<string, Page>, id: nat, status: string, at: Option<int>)
    requires Wins(s, t, id, status, at) && EndsOk(s, start) && OneWinner(s.threads, start) && SomeWinner(s, start)
    ensures OneWinner(t.threads, start) && SomeWinner(t, start)
  {
    hide Settle, PageIdOf, FrontLength, FirstExpires, Expirable, IsDraft;
    var path := s.threads[id].path;
    assert Winner(t.threads, id, path);
    NoWinnerYet(s, start, path);
    assert forall u, q | q != path :: Winner(t.threads, u, q) <==> Winner(s.threads, u, q);
    forall q | q in start && q in t.pages && IsDraft(start[q]) && !IsDraft(t.pages[q])
      ensures exists u :: Winner(t.threads, u, q)
    {
      if q != path {
        var u :| Winner(s.threads, u, q);
        assert Winner(t.threads, u, q);
      }
    }
  }

  lemma WinKeeps(s: State, t: State, start: map<string, Page>, id: nat, status: string, at: Option<int>)
    requires Inv(s, start) && Wins(s, t, id, status, at)
    requires KeyOf(s.threads[id]).None? ==> status == "expired"
    ensures Inv(t, start)
  {
    WinPages(s, t, start, id, status, at);
    WinEnd(s, t, start, id, status, at);
    WinSections(s, t, start, id, status, at);
    WinWinners(s, t, start, id, status, at);
    WinOthers(s, t, start, id, status, at);
  }

  lemma WinOthers(s: State, t: State, start: map<string, Page>, id: nat, status: string, at: Option<int>)
    requires Wins(s, t, id, status, at) && ThreadsOk(s, start) && EndsOk(s, start) && LocksOk(s.threads)
    requires EndOk(t, start, t.threads[id])
    ensures ThreadsOk(t, start) && EndsOk(t, start) && LocksOk(t.threads)
  {
    hide Settle, PageIdOf, FrontLength, FirstExpires, Expirable;
    forall u | u in t.threads ensures ThreadOk(start, t.threads[u]) && EndOk(t, start, t.threads[u]) {
      assert ThreadOk(start, s.threads[u]) && EndOk(s, start, s.threads[u]);
    }
  }

  /** A second sweep of a page without an id writes what the first one wrote. */
  ghost predicate WinsAgain(s: State, t: State, id: nat, at: int) {
    && id in s.threads && s.threads[id].Expiring? && s.threads[id].key.None?
    && var th := s.threads[id];
    && th.path in s.pages && ExpiredMeanwhile(s.pages[th.path], th.seen) && Expirable(th.seen, at)
    && t == State(s.pages[th.path := Settle(th.seen, "expired")], s.locks,
        s.threads[id := Ended(th.path, Won("expired"), Some(at))])
  }

  lemma WinAgainKeeps(s: State, t: State, start: map<string, Page>, id: nat, at: int)
    requires Inv(s, start) && WinsAgain(s, t, id, at)
    ensures Inv(t, start)
  {
    var th := s.threads[id];
    WonAgainEnd(s, t, start, id, at);
    LocksAfterEnd(s, t, id);
    hide WinsAgain, PagesOk, PageIdOf, EndOk, SectionOk, ThreadOk, LocksOk, OneWinner, SomeWinner;
    forall u | u in t.threads
      ensures ThreadOk(start, t.threads[u]) && SectionOk(t, t.threads[u]) && EndOk(t, start, t.threads[u])
    {
      if u != id {
        assert SectionOk(s, s.threads[u]) && EndOk(s, start, s.threads[u]) && ThreadOk(start, s.threads[u]);
        SamePagesEnd(s, t, start, s.threads[u]);
      }
    }
    WonAgainWinners(s, t, start, id, th.path);
  }

  lemma SamePagesEnd(s: State, t: State, start: map<string, Page>, th: Thread)
    requires s.pages == t.pages && s.locks == t.locks && EndOk(s, start, th) && SectionOk(s, th)
    ensures EndOk(t, start, th) && SectionOk(t, th)
  {}

  lemma WonAgainEnd(s: State, t: State, start: map<string, Page>, id: nat, at: int)
    requires WinsAgain(s, t, id, at) && ThreadsOk(s, start)
    ensures t.pages == s.pages && t.locks == s.locks && id in t.threads && t.threads == s.threads[id := t.threads[id]]
    ensures t.threads[id].Ended? && id in s.threads && t.threads[id].path == s.threads[id].path && !s.threads[id].Ended?
    ensures ThreadOk(start, t.threads[id]) && EndOk(t, start, t.threads[id]) && SectionOk(t, t.threads[id])
    ensures PageIdOf(start[s.threads[id].path]).None?
  {
    hide Settle, SubstituteFirst, ClosingFence, FirstPageId, SameBut;
    var th := s.threads[id];
    SettleEffect(th.seen, "expired");
    assert ThreadOk(start, th);
  }

  lemma WonAgainWinners(s: State, t: State, start: map<string, Page>, id: nat, path: string)
    requires OneWinner(s.threads, start) && SomeWinner(s, start) && id in s.threads && !s.threads[id].Ended?
              && t.pages == s.pages
    requires id in t.threads && t.threads == s.threads[id := t.threads[id]] && t.threads[id].path == path
    requires path in start ==> PageIdOf(start[path]).None?
    ensures OneWinner(t.threads, start) && SomeWinner(t, start)
  {
    hide IsDraft, PageIdOf;
    assert forall u, q | q != path :: Winner(t.threads, u, q) <==> Winner(s.threads, u, q);
    forall q | q in start && q in t.pages && IsDraft(start[q]) && !IsDraft(t.pages[q])
      ensures exists u :: Winner(t.threads, u, q)
    {
      var u :| Winner(s.threads, u, q);
      assert Winner(t.threads, u, q);
    }
  }

  // ---------- every step, every run ----------

  lemma RestampKeeps(s: State, start: map<string, Page>, path: string, page: Page)
    requires Inv(s, start) && Enabled(s, Restamp(path, page))
    ensures Inv(Next(s, Restamp(path, page)), start)
  {
    var t := Next(s, Restamp(path, page));
    RestampPage(s.pages[path], page);
    RestampPages(s, start, path, page);
    RestampThreads(s, t, start, path);
    RestampWinners(s, t, start, path);
  }

  lemma {:induction false} SameStatusSameDrafts(a: seq<Line>, b: seq<Line>)
    requires |a| == |b| && forall i | 0 <= i < |a| :: a[i] == b[i] || (a[i].Expires? && b[i].Expires?)
    ensures DraftLines(a) == DraftLines(b) && FirstPageId(a) == FirstPageId(b)
  {
    if a != [] {
      SameStatusSameDrafts(a[1..], b[1..]);
    }
  }

  lemma RestampPage(was: Page, now: Page)
    requires IsDraft(was) && SameBut(was, now)
    requires forall i | 0 <= i < |now| && now[i].Status? :: now[i] == was[i]
    ensures FrontLength(now) == FrontLength(was) && PageIdOf(now) == PageIdOf(was) && IsDraft(now)
    ensures OneStatusLine(was) ==> OneStatusLine(now)
  {
    forall i | 0 <= i < |was|
      ensures was[i].Fence? <==> now[i].Fence?
      ensures i < FrontLength(was).value ==> was[i] == now[i] || (was[i].Expires? && now[i].Expires?)
    {
      assert SameLine(was, now, i);
    }
    SameFences(was, now, 1);
    var n := FrontLength(was).value;
    SameStatusSameDrafts(was[..n], now[..n]);
    DraftLinesPositive(was[..n]);
    DraftLinesPositive(now[..n]);
  }

  lemma RestampPages(s: State, start: map<string, Page>, path: string, page: Page)
    requires PagesOk(start, s.pages) && Enabled(s, Restamp(path, page))
    requires FrontLength(page) == FrontLength(s.pages[path]) && PageIdOf(page) == PageIdOf(s.pages[path])
              && OneStatusLine(page)
    ensures PagesOk(start, s.pages[path := page])
  {
    SameButTrans(start[path], s.pages[path], page);
  }

  lemma RestampThreads(s: State, t: State, start: map<string, Page>, path: string)
    requires t.threads == s.threads && t.locks == s.locks && path in s.pages && path in t.pages
              && t.pages == s.pages[path := t.pages[path]]
    requires forall u | u in s.threads :: !Busy(s.threads[u], path)
    requires IsDraft(s.pages[path]) && IsDraft(t.pages[path])
    requires ThreadsOk(s, start) && SectionsOk(s) && EndsOk(s, start)
    ensures ThreadsOk(t, start) && SectionsOk(t) && EndsOk(t, start)
  {
    hide IsDraft, Expirable, Settle, FrontLength, PageIdOf, FirstExpires;
    forall u | u in t.threads
      ensures ThreadOk(start, t.threads[u]) && SectionOk(t, t.threads[u]) && EndOk(t, start, t.threads[u])
    {
      assert SectionOk(s, s.threads[u]) && EndOk(s, start, s.threads[u]) && ThreadOk(start, s.threads[u]);
      assert !Busy(s.threads[u], path);
    }
  }

  lemma RestampWinners(s: State, t: State, start: map<string, Page>, path: string)
    requires t.threads == s.threads && path in t.pages && path in s.pages && t.pages == s.pages[path := t.pages[path]]
    requires IsDraft(t.pages[path]) && SomeWinner(s, start)
    ensures SomeWinner(t, start)
  {
    hide IsDraft;
    forall q | q in start && q in t.pages && IsDraft(start[q]) && !IsDraft(t.pages[q])
      ensures exists u :: Winner(t.threads, u, q)
    {
      var u :| Winner(s.threads, u, q);
      assert Winner(t.threads, u, q);
    }
  }

  lemma WriteExpireKeeps(s: State, start: map<string, Page>, id: nat)
    requires Inv(s, start) && Enabled(s, WriteExpire(id))
    ensures Inv(Next(s, WriteExpire(id)), start)
  {
    var t, th := Next(s, WriteExpire(id)), s.threads[id];
    assert SectionOk(s, th);
    hide PagesOk, ThreadsOk, SectionsOk, EndsOk, LocksOk, OneWinner, SomeWinner, Settle, FrontLength, Inv;
    if !Expirable(th.seen, th.now) {
      LoseKeeps(s, t, start, id);
    } else if th.seen == s.pages[th.path] {
      WinKeeps(s, t, start, id, "expired", Some(th.now));
    } else {
      WinAgainKeeps(s, t, start, id, th.now);
    }
  }

  lemma WriteEndorseKeeps(s: State, start: map<string, Page>, id: nat)
    requires Inv(s, start) && Enabled(s, WriteEndorse(id))
    ensures Inv(Next(s, WriteEndorse(id)), start)
  {
    var t, th := Next(s, WriteEndorse(id)), s.threads[id];
    assert SectionOk(s, th) && ThreadOk(start, th);
    hide PagesOk, ThreadsOk, SectionsOk, EndsOk, LocksOk, OneWinner, SomeWinner, Settle, FrontLength, PageIdOf, Inv;
    if PageIdOf(th.seen) == Some(th.id) && IsDraft(th.seen) {
      WinKeeps(s, t, start, id, th.status, None);
    } else {
      LoseKeeps(s, t, start, id);
    }
  }

  lemma ScanKeeps(s: State, start: map<string, Page>, t: nat, path: string, now: int)
    requires Inv(s, start) && Enabled(s, Scan(t, path, now))
    ensures Inv(Next(s, Scan(t, path, now)), start)
  {
    hide ThreadsOk, SectionsOk, EndsOk, LocksOk, OneWinner, SomeWinner, Settle, FrontLength, SameBut, OneStatusLine,
        PageIdOf;
    QuietKeeps(s, Next(s, Scan(t, path, now)), start, t);
  }

  lemma SearchKeeps(s: State, start: map<string, Page>, t: nat, path: string, id: string, decision: string)
    requires Inv(s, start) && Enabled(s, Search(t, path, id, decision))
    ensures Inv(Next(s, Search(t, path, id, decision)), start)
  {
    hide ThreadsOk, SectionsOk, EndsOk, LocksOk, OneWinner, SomeWinner, Settle, FrontLength, SameBut, OneStatusLine,
        PageIdOf;
    QuietKeeps(s, Next(s, Search(t, path, id, decision)), start, t);
  }

  lemma LockIsQuiet(s: State, start: map<string, Page>, a: Step)
    requires Enabled(s, a) && (a.LockExpire? || a.LockEndorse?) && ThreadOk(start, s.threads[a.t])
    ensures Quiet(s, Next(s, a), start, a.t)
  {
    hide IsDraft, PageIdOf, Expirable, Settle, FrontLength, ExpiredMeanwhile;
  }

  lemma LockKeeps(s: State, start: map<string, Page>, a: Step)
    requires Inv(s, start) && Enabled(s, a) && (a.LockExpire? || a.LockEndorse?)
    ensures Inv(Next(s, a), start)
  {
    assert ThreadOk(start, s.threads[a.t]);
    hide Inv, Quiet, Next, ThreadOk;
    LockIsQuiet(s, start, a);
    QuietKeeps(s, Next(s, a), start, a.t);
  }

  lemma StepKeeps(s: State, start: map<string, Page>, a: Step)
    requires Inv(s, start) && Enabled(s, a)
    ensures Inv(Next(s, a), start)
  {
    hide Inv;
    match a
    case WriteExpire(t) => WriteExpireKeeps(s, start, t);
    case WriteEndorse(t) => WriteEndorseKeeps(s, start, t);
    case Restamp(path, page) => RestampKeeps(s, start, path, page);
    case Scan(t, path, now) => ScanKeeps(s, start, t, path, now);
    case LockExpire(_) => LockKeeps(s, start, a);
    case Search(t, path, id, decision) => SearchKeeps(s, start, t, path, id, decision);
    case LockEndorse(_) => LockKeeps(s, start, a);
  }

  ghost predicate Legal(s: State, run: seq<Step>)
    decreases |run|
  {
    run == [] || (Enabled(s, run[0]) && Legal(Next(s, run[0]), run[1..]))
  }

  ghost function Exec(s: State, run: seq<Step>): State
    requires Legal(s, run)
    decreases |run|
  {
    if run == [] then s else Exec(Next(s, run[0]), run[1..])
  }

  function Begin(start: map<string, Page>): State {
    State(start, {}, map[])
  }

  lemma BeginInv(start: map<string, Page>)
    requires forall path | path in start :: OneStatusLine(start[path])
    ensures Inv(Begin(start), start)
  {}

  lemma {:induction false} RunKeeps(s: State, start: map<string, Page>, run: seq<Step>)
    requires Inv(s, start) && Legal(s, run)
    ensures Inv(Exec(s, run), start)
    decreases |run|
  {
    hide Inv;
    if run != [] {
      StepKeeps(s, start, run[0]);
      RunKeeps(Next(s, run[0]), start, run[1..]);
    }
  }

  /**
    Every interleaving of sweeps, endorsements and re-stampings, for pages with at
    most one draft line. A page leaves `draft` exactly when somebody won it; a
    page with an id is won at most once; the page carries its winner's status; an
    expired page was past its stamp when it was flipped, whatever the unlocked scan
    had read; and nothing but status and stamps of the frontmatter ever changes.
  */
  lemma RaceIsSafe(start: map<string, Page>, run: seq<Step>)
    requires forall path | path in start :: OneStatusLine(start[path])
    requires Legal(Begin(start), run)
    ensures var s := Exec(Begin(start), run);
            && s.pages.Keys == start.Keys
            && (forall path | path in start ::
                  SameBut(start[path], s.pages[path]) && (!IsDraft(start[path]) ==> s.pages[path] == start[path]))
            && (forall path | path in start && IsDraft(start[path]) ::
                  !IsDraft(s.pages[path]) <==> exists t :: Winner(s.threads, t, path))
            && (forall path, t, u | path in start && PageIdOf(start[path]).Some?
                                    && Winner(s.threads, t, path) && Winner(s.threads, u, path) ::
                  t == u)
            && (forall path, t | path in start && Winner(s.threads, t, path) :: EndOk(s, start, s.threads[t]))
  {
    BeginInv(start);
    RunKeeps(Begin(start), start, run);
    var s := Exec(Begin(start), run);
    forall path, t | path in start && Winner(s.threads, t, path)
      ensures !IsDraft(s.pages[path]) && EndOk(s, start, s.threads[t])
    {
      assert EndOk(s, start, s.threads[t]);
    }
  }

  /** Whatever step comes next, a page that is not a draft stays as it is. */
  lemma SettledPagesAreFrozen(start: map<string, Page>, run: seq<Step>, a: Step, path: string)
    requires forall p | p in start :: OneStatusLine(start[p])
    requires Legal(Begin(start), run) && Enabled(Exec(Begin(start), run), a)
    requires path in Exec(Begin(start), run).pages && !IsDraft(Exec(Begin(start), run).pages[path])
    ensures path in Next(Exec(Begin(start), run), a).pages
    ensures Next(Exec(Begin(start), run), a).pages[path] == Exec(Begin(start), run).pages[path]
  {
    hide Inv, Next, Enabled;
    BeginInv(start);
    RunKeeps(Begin(start), start, run);
    FrozenStep(Exec(Begin(start), run), start, a, path);
  }

  lemma FrozenStep(s: State, start: map<string, Page>, a: Step, path: string)
    requires Inv(s, start) && Enabled(s, a) && path in s.pages && !IsDraft(s.pages[path])
    ensures path in Next(s, a).pages && Next(s, a).pages[path] == s.pages[path]
  {
    hide Inv, PagesOk, Settle, FrontLength, FirstExpires, SameBut, LocksOk, OneWinner, SomeWinner, EndsOk,
        SectionsOk, ThreadsOk;
    if a.WriteExpire? || a.WriteEndorse? {
      SectionHolds(s, start, a.t);
    }
  }

  lemma SectionHolds(s: State, start: map<string, Page>, t: nat)
    requires Inv(s, start) && t in s.threads
    ensures SectionOk(s, s.threads[t]) && ThreadOk(start, s.threads[t])
  {
    hide SectionOk, ThreadOk, PagesOk, LocksOk, OneWinner, SomeWinner, EndsOk;
  }

  // ---------- who wins carries out what was asked ----------

  /** The status that a page gets when this is decided about it. */
  predicate Means(decision: string, status: string) {
    || (decision == "accept" && status == "accepted")
    || (decision == "reject" && status == "rejected")
    || (decision == "edit" && status == "edit_requested")
  }

  /** A search by this thread for this page, in the course of the run, asked for this status. */
  ghost predicate AskedFor(run: seq<Step>, t: nat, path: string, status: string) {
    exists k | 0 <= k < |run| ::
      run[k].Search? && run[k].t == t && run[k].path == path && Means(run[k].decision, status)
  }

  /** A sweep's scan by this thread of this page, in the course of the run, was made at this time. */
  ghost predicate ScannedAt(run: seq<Step>, t: nat, path: string, now: int) {
    exists k | 0 <= k < |run| :: run[k] == Scan(t, path, now)
  }

  ghost predicate Backed(run: seq<Step>, t: nat, th: Thread) {
    match th
    case Scanned(path, _, now) => ScannedAt(run, t, path, now)
    case Expiring(path, _, now, _) => ScannedAt(run, t, path, now)
    case Found(path, _, status) => AskedFor(run, t, path, status)
    case Endorsing(path, _, status, _) => AskedFor(run, t, path, status)
    case Ended(path, ending, expiredAt) =>
      ending.Won? ==>
        if expiredAt.Some? then ending.status == "expired" && ScannedAt(run, t, path, expiredAt.value)
        else AskedFor(run, t, path, ending.status)
  }

  ghost predicate AllBacked(run: seq<Step>, threads: map<nat, Thread>) {
    forall t | t in threads :: Backed(run, t, threads[t])
  }

  lemma BackedOnward(run: seq<Step>, a: Step, t: nat, th: Thread)
    requires Backed(run, t, th)
    ensures Backed(run + [a], t, th)
  {
    var more := run + [a];
    forall path, status | AskedFor(run, t, path, status) ensures AskedFor(more, t, path, status) {
      var k :| 0 <= k < |run| && run[k].Search? && run[k].t == t && run[k].path == path
            && Means(run[k].decision, status);
      assert more[k] == run[k];
    }
    forall path, now | ScannedAt(run, t, path, now) ensures ScannedAt(more, t, path, now) {
      var k :| 0 <= k < |run| && run[k] == Scan(t, path, now);
      assert more[k] == run[k];
    }
  }

  /** The thread that a step moves is backed by that step or by what backed it before. */
  lemma MovedIsBacked(s: State, done: seq<Step>, a: Step)
    requires Enabled(s, a) && !a.Restamp? && AllBacked(done + [a], s.threads)
    ensures a.t in Next(s, a).threads && Backed(done + [a], a.t, Next(s, a).threads[a.t])
    ensures forall t | t in Next(s, a).threads && t != a.t :: t in s.threads && Next(s, a).threads[t] == s.threads[t]
  {
    hide Expirable, IsDraft, PageIdOf, Settle, FrontLength;
    assert (done + [a])[|done|] == a;
    if a.Scan? || a.Search? {
      assert a.Search? ==> Means(a.decision, DecisionStatus(a.decision).value);
    } else {
      assert Backed(done + [a], a.t, s.threads[a.t]);
      hide AskedFor, ScannedAt;
    }
  }

  lemma {:induction false} RunIsBacked(s: State, done: seq<Step>, run: seq<Step>)
    requires Legal(s, run) && AllBacked(done, s.threads)
    ensures AllBacked(done + run, Exec(s, run).threads)
    decreases |run|
  {
    hide Enabled, Next, Backed;
    if run == [] {
      assert done + run == done;
    } else {
      var a := run[0];
      forall t | t in s.threads ensures Backed(done + [a], t, s.threads[t]) {
        BackedOnward(done, a, t, s.threads[t]);
      }
      StepIsBacked(s, done, a);
      RunIsBacked(Next(s, a), done + [a], run[1..]);
      assert done + [a] + run[1..] == done + run;
    }
  }

  lemma StepIsBacked(s: State, done: seq<Step>, a: Step)
    requires Enabled(s, a) && AllBacked(done + [a], s.threads)
    ensures AllBacked(done + [a], Next(s, a).threads)
  {
    if a.Restamp? {
      hide Backed, IsDraft, SameBut;
    } else {
      MovedIsBacked(s, done, a);
      hide Backed, Enabled, Next;
    }
  }

  /**
    Every winner carries out what was asked of it: a page that an endorsement won
    has the status of the decision with which that very thread searched for it, a
    page that a sweep won is expired, past its stamp at the time of that thread's
    scan; and nobody wins without having searched or scanned.
  */
  lemma WinnersDoAsAsked(start: map<string, Page>, run: seq<Step>, t: nat, path: string)
    requires forall p | p in start :: OneStatusLine(start[p])
    requires Legal(Begin(start), run) && path in start && Winner(Exec(Begin(start), run).threads, t, path)
    ensures var s := Exec(Begin(start), run);
            var status := s.threads[t].ending.status;
            && path in s.pages && FrontLength(s.pages[path]).Some?
            && Status(status) in s.pages[path][..FrontLength(s.pages[path]).value]
            && if status == "expired" then exists now :: ScannedAt(run, t, path, now)
               else AskedFor(run, t, path, status)
  {
    hide Inv, Next, Enabled, FrontLength;
    var s := Exec(Begin(start), run);
    RaceIsSafe(start, run);
    assert EndOk(s, start, s.threads[t]);
    RunIsBacked(Begin(start), [], run);
    assert [] + run == run;
    assert Backed(run, t, s.threads[t]);
  }

  // ---------- what a sweep counts ----------

  /** The threads of a sweep that count a page with an id as expired. */
  ghost function Counted(start: map<string, Page>, threads: map<nat, Thread>, sweep: set<nat>): set<nat> {
    set t | t in sweep && t in threads && threads[t].Ended? && threads[t].ending == Won("expired")
            && threads[t].path in start && PageIdOf(start[threads[t].path]).Some?
  }

  /**
    The step is a write of one of the sweep's threads that turns a page with an id from a draft
    into something else.
  */
  ghost predicate Flips(start: map<string, Page>, s: State, a: Step, sweep: set<nat>)
    requires Enabled(s, a)
  {
    && a.WriteExpire? && a.t in sweep
    && var path := s.threads[a.t].path;
    && path in start && PageIdOf(start[path]).Some?
    && path in s.pages && IsDraft(s.pages[path])
    && path in Next(s, a).pages && !IsDraft(Next(s, a).pages[path])
  }

  /** The pages with an id that the threads of a sweep flip in the course of a run. */
  ghost function Flipped(start: map<string, Page>, s: State, run: seq<Step>, sweep: set<nat>): set<string>
    requires Legal(s, run)
    decreases |run|
  {
    if run == [] then {}
    else
      var later := Flipped(start, Next(s, run[0]), run[1..], sweep);
      if Flips(start, s, run[0], sweep) then {s.threads[run[0].t].path} + later else later
  }

  /** A page that is not a draft any more is not flipped again. */
  lemma {:induction false} FlippedOnce(start: map<string, Page>, s: State, run: seq<Step>, sweep: set<nat>,
                                       path: string)
    requires Inv(s, start) && Legal(s, run) && path in s.pages && !IsDraft(s.pages[path])
    ensures path !in Flipped(start, s, run, sweep)
    decreases |run|
  {
    hide Inv, Next, Enabled, IsDraft, PageIdOf;
    if run != [] {
      StepKeeps(s, start, run[0]);
      FrozenStep(s, start, run[0], path);
      FlippedOnce(start, Next(s, run[0]), run[1..], sweep, path);
    }
  }

  /** No other step makes a thread count or stop counting. */
  lemma OtherSteps(start: map<string, Page>, s: State, a: Step)
    requires Enabled(s, a) && !a.WriteExpire?
    requires a.WriteEndorse? ==> ThreadOk(start, s.threads[a.t])
    ensures a.Restamp? ==> Next(s, a).threads == s.threads
    ensures !a.Restamp? ==>
              && a.t in Next(s, a).threads && Next(s, a).threads == s.threads[a.t := Next(s, a).threads[a.t]]
              && (a.t in s.threads ==> !s.threads[a.t].Ended?)
              && (Next(s, a).threads[a.t].Ended? ==> Next(s, a).threads[a.t].ending != Won("expired"))
  {
    hide IsDraft, PageIdOf, Expirable, Settle, FrontLength, SameBut;
  }

  lemma SameCount(start: map<string, Page>, before: map<nat, Thread>, after: map<nat, Thread>, sweep: set<nat>, t: nat)
    requires t in after && after == before[t := after[t]]
    requires t in before ==> !before[t].Ended?
    requires after[t].Ended? ==> after[t].ending != Won("expired")
    ensures Counted(start, after, sweep) == Counted(start, before, sweep)
  {
    hide PageIdOf;
  }

  /**
    Only the write of an expiring thread makes that thread count, and on a page with an id only if
    it flips the page.
  */
  lemma StepCounts(start: map<string, Page>, s: State, a: Step, sweep: set<nat>)
    requires Inv(s, start) && Enabled(s, a)
    ensures Counted(start, Next(s, a).threads, sweep) ==
              Counted(start, s.threads, sweep) + if Flips(start, s, a, sweep) then {a.t} else {}
    ensures Flips(start, s, a, sweep) ==> a.t !in Counted(start, s.threads, sweep)
  {
    if a.WriteExpire? {
      WriteCounts(start, s, a, sweep);
    } else {
      if a.WriteEndorse? {
        SectionHolds(s, start, a.t);
      }
      OtherSteps(start, s, a);
      hide Inv, IsDraft, PageIdOf, Next, Enabled, ThreadOk, SectionOk, Counted;
      if !a.Restamp? {
        SameCount(start, s.threads, Next(s, a).threads, sweep, a.t);
      }
    }
  }

  lemma EndedCount(start: map<string, Page>, before: map<nat, Thread>, after: map<nat, Thread>, sweep: set<nat>, t: nat)
    requires t in before && !before[t].Ended? && t in after && after == before[t := after[t]] && after[t].Ended?
    ensures t !in Counted(start, before, sweep)
    ensures Counted(start, after, sweep) == Counted(start, before, sweep) +
              if t in sweep && after[t].ending == Won("expired") && after[t].path in start
                  && PageIdOf(start[after[t].path]).Some?
              then {t} else {}
  {
    hide PageIdOf;
  }

  lemma WriteCounts(start: map<string, Page>, s: State, a: Step, sweep: set<nat>)
    requires Inv(s, start) && Enabled(s, a) && a.WriteExpire?
    ensures Counted(start, Next(s, a).threads, sweep) ==
              Counted(start, s.threads, sweep) + if Flips(start, s, a, sweep) then {a.t} else {}
    ensures a.t !in Counted(start, s.threads, sweep)
  {
    var th, n := s.threads[a.t], Next(s, a);
    SectionHolds(s, start, a.t);
    WriteFlips(start, s, a);
    hide Inv, IsDraft, PageIdOf, Expirable, Settle, FrontLength, ThreadOk, SectionOk, Counted;
    EndedCount(start, s.threads, n.threads, sweep, a.t);
  }

  /** On a page with an id the write of an expiring thread flips the page exactly when it counts. */
  lemma WriteFlips(start: map<string, Page>, s: State, a: Step)
    requires Inv(s, start) && Enabled(s, a) && a.WriteExpire?
    ensures var th := s.threads[a.t];
            && th.path in start && th.path in s.pages && th.path in Next(s, a).pages
            && (PageIdOf(start[th.path]).Some? ==>
                  (Expirable(th.seen, th.now) <==> IsDraft(s.pages[th.path]) && !IsDraft(Next(s, a).pages[th.path])))
  {
    var th := s.threads[a.t];
    SectionHolds(s, start, a.t);
    hide SubstituteFirst, FirstExpires, FirstPageId, SameBut, FrontLength, ThreadsOk, SectionsOk, EndsOk, LocksOk,
         OneWinner, SomeWinner;
    if PageIdOf(start[th.path]).Some? && Expirable(th.seen, th.now) {
      assert th.seen == s.pages[th.path];
      WinPages(s, Next(s, a), start, a.t, "expired", Some(th.now));
    }
  }

  lemma FlipsFacts(start: map<string, Page>, s: State, a: Step, sweep: set<nat>)
    requires Enabled(s, a) && Flips(start, s, a, sweep)
    ensures a.WriteExpire? && a.t in s.threads
    ensures s.threads[a.t].path in Next(s, a).pages && !IsDraft(Next(s, a).pages[s.threads[a.t].path])
  {
    hide IsDraft, PageIdOf, Next;
  }

  lemma {:induction false} RunCounts(start: map<string, Page>, s: State, run: seq<Step>, sweep: set<nat>)
    requires Inv(s, start) && Legal(s, run)
    ensures |Counted(start, Exec(s, run).threads, sweep)| ==
              |Counted(start, s.threads, sweep)| + |Flipped(start, s, run, sweep)|
    decreases |run|
  {
    hide Inv, Next, Enabled, IsDraft, PageIdOf, Counted;
    if run != [] {
      var n := Next(s, run[0]);
      StepKeeps(s, start, run[0]);
      StepCounts(start, s, run[0], sweep);
      RunCounts(start, n, run[1..], sweep);
      if Flips(start, s, run[0], sweep) {
        FlipsFacts(start, s, run[0], sweep);
        FlippedOnce(start, n, run[1..], sweep, s.threads[run[0].t].path);
      }
    }
  }

  /**
    In every interleaving, and for any set of threads that make up a sweep, the
    number of pages with an id that the sweep counts as expired is the number of
    such pages its threads turned from drafts into expired pages.
  */
  lemma SweepCountsItsFlips(start: map<string, Page>, run: seq<Step>, sweep: set<nat>)
    requires forall path | path in start :: OneStatusLine(start[path])
    requires Legal(Begin(start), run)
    ensures |Counted(start, Exec(Begin(start), run).threads, sweep)| == |Flipped(start, Begin(start), run, sweep)|
  {
    hide Inv, Next, Enabled, IsDraft, PageIdOf;
    BeginInv(start);
    RunCounts(start, Begin(start), run, sweep);
    assert Counted(start, Begin(start).threads, sweep) == {};
  }

  // ---------- where the count goes wrong ----------

  lemma PlayStep(s: State, a: Step, rest: seq<Step>)
    requires Enabled(s, a) && Legal(Next(s, a), rest)
    ensures Legal(s, [a] + rest) && Exec(s, [a] + rest) == Exec(Next(s, a), rest)
  {
    assert ([a] + rest)[1..] == rest;
  }

  /** Two sweeps have both scanned the page and re-read it, which no lock prevents when it has no id. */
  lemma BothHold(page: Page, now: int) returns (s: State)
    requires Expirable(page, now) && PageIdOf(page).None?
    ensures s == State(map["p" := page], {},
            map[0 := Expiring("p", None, now, page)][1 := Expiring("p", None, now, page)])
    ensures var run := [Scan(0, "p", now), Scan(1, "p", now), LockExpire(0), LockExpire(1)];
            Legal(Begin(map["p" := page]), run) && Exec(Begin(map["p" := page]), run) == s
  {
    hide Expirable, PageIdOf;
    var s0 := Begin(map["p" := page]);
    var s1 := Next(s0, Scan(0, "p", now));
    var s2 := Next(s1, Scan(1, "p", now));
    var s3 := Next(s2, LockExpire(0));
    s := Next(s3, LockExpire(1));
    PlayStep(s3, LockExpire(1), []);
    PlayStep(s2, LockExpire(0), [LockExpire(1)]);
    PlayStep(s1, Scan(1, "p", now), [LockExpire(0), LockExpire(1)]);
    PlayStep(s0, Scan(0, "p", now), [Scan(1, "p", now), LockExpire(0), LockExpire(1)]);
    assert [Scan(0, "p", now)] + [Scan(1, "p", now), LockExpire(0), LockExpire(1)]
        == [Scan(0, "p", now), Scan(1, "p", now), LockExpire(0), LockExpire(1)];
  }

  lemma BothWrite(page: Page, now: int, s: State)
    requires Expirable(page, now)
    requires s == State(map["p" := page], {},
              map[0 := Expiring("p", None, now, page)][1 := Expiring("p", None, now, page)])
    ensures Legal(s, [WriteExpire(0), WriteExpire(1)])
    ensures var t := Exec(s, [WriteExpire(0), WriteExpire(1)]); Winner(t.threads, 0, "p") && Winner(t.threads, 1, "p")
  {
    hide Expirable, Settle;
    var s1 := Next(s, WriteExpire(0));
    PlayStep(s1, WriteExpire(1), []);
    PlayStep(s, WriteExpire(0), [WriteExpire(1)]);
    assert [WriteExpire(0)] + [WriteExpire(1)] == [WriteExpire(0), WriteExpire(1)];
  }

  lemma {:induction false} Concat(s: State, a: seq<Step>, b: seq<Step>)
    requires Legal(s, a) && Legal(Exec(s, a), b)
    ensures Legal(s, a + b) && Exec(s, a + b) == Exec(Exec(s, a), b)
    decreases |a|
  {
    hide Next, Enabled;
    if a == [] {
      assert a + b == b;
    } else {
      Concat(Next(s, a[0]), a[1..], b);
      assert (a + b)[1..] == a[1..] + b;
    }
  }

  /** Every expirable page without an id can be counted by two concurrent sweeps although it is flipped once. */
  lemma IdlessPageCountedTwice(page: Page, now: int)
    requires Expirable(page, now) && PageIdOf(page).None?
    ensures exists run: seq<Step> :: Legal(Begin(map["p" := page]), run)
              && Winner(Exec(Begin(map["p" := page]), run).threads, 0, "p")
              && Winner(Exec(Begin(map["p" := page]), run).threads, 1, "p")
  {
    hide Expirable, PageIdOf, Next, Enabled;
    var s := BothHold(page, now);
    BothWrite(page, now, s);
    var first := [Scan(0, "p", now), Scan(1, "p", now), LockExpire(0), LockExpire(1)];
    Concat(Begin(map["p" := page]), first, [WriteExpire(0), WriteExpire(1)]);
  }

  // ---------- the code ----------

  datatype EndorseError = BadDecision | NotFound | NotADraft

  /** What a read of a page yields; `None` if it fails. */
  type Read = Option<Page>

  function ReadOf(pages: map<string, Page>, path: string): Read {
    if path in pages then Some(pages[path]) else None
  }

  /** Both reads, the one before the lock and the one under it, find the page expirable. */
  predicate BothExpirable(scan: Read, current: Read, now: int) {
    scan.Some? && Expirable(scan.value, now) && current.Some? && Expirable(current.value, now)
  }

  /** The wiki after one page of the sweep. */
  function SweptPage(pages: map<string, Page>, path: string, scan: Read, now: int): map<string, Page> {
    if path in pages && BothExpirable(scan, Some(pages[path]), now)
    then pages[path := Settle(pages[path], "expired")] else pages
  }

  /** The locked section of a sweep on one page is the two steps of a thread that has scanned it. */
  lemma SweptPageIsTwoSteps(pages: map<string, Page>, path: string, scan: Page, now: int)
    requires path in pages && Expirable(scan, now)
    ensures var s := State(pages, {}, map[0 := Scanned(path, PageIdOf(scan), now)]);
            var run := [LockExpire(0), WriteExpire(0)];
            && Legal(s, run)
            && Exec(s, run).pages == SweptPage(pages, path, Some(scan), now)
            && (Winner(Exec(s, run).threads, 0, path) <==> BothExpirable(Some(scan), Some(pages[path]), now))
            && Exec(s, run).locks == {}
  {
    hide Expirable, Settle, PageIdOf;
    var s := State(pages, {}, map[0 := Scanned(path, PageIdOf(scan), now)]);
    var m := Next(s, LockExpire(0));
    PlayStep(m, WriteExpire(0), []);
    PlayStep(s, LockExpire(0), [WriteExpire(0)]);
    assert [LockExpire(0)] + [WriteExpire(0)] == [LockExpire(0), WriteExpire(0)];
  }

  /** The locked section of an endorsement is the two steps of a thread that has found the page. */
  lemma EndorsedPageIsTwoSteps(pages: map<string, Page>, path: string, id: string, status: string)
    requires path in pages
    ensures var s := State(pages, {}, map[0 := Found(path, id, status)]);
            var run := [LockEndorse(0), WriteEndorse(0)];
            var settles := PageIdOf(pages[path]) == Some(id) && IsDraft(pages[path]);
            && Legal(s, run)
            && Exec(s, run).pages == (if settles then pages[path := Settle(pages[path], status)] else pages)
            && (Winner(Exec(s, run).threads, 0, path) <==> settles)
            && Exec(s, run).locks == {}
  {
    hide Settle, PageIdOf, IsDraft;
    var s := State(pages, {}, map[0 := Found(path, id, status)]);
    var m := Next(s, LockEndorse(0));
    PlayStep(m, WriteEndorse(0), []);
    PlayStep(s, LockEndorse(0), [WriteEndorse(0)]);
    assert [LockEndorse(0)] + [WriteEndorse(0)] == [LockEndorse(0), WriteEndorse(0)];
  }

  /** The first page, in directory order, whose own frontmatter as read by the search carries the id. */
  function FirstWithId(scans: seq<Read>, id: string): (i: nat)
    ensures i <= |scans|
    ensures i < |scans| ==> scans[i].Some? && PageIdOf(scans[i].value) == Some(id)
    ensures forall j | 0 <= j < i :: !(scans[j].Some? && PageIdOf(scans[j].value) == Some(id))
  {
    if scans == [] || (scans[0].Some? && PageIdOf(scans[0].value) == Some(id)) then 0
    else 1 + FirstWithId(scans[1..], id)
  }

  /** The positions of the sweep at which a page was flipped, given the wiki each locked section found. */
  function FlipsOf(paths: seq<string>, scans: seq<Read>, found: seq<map<string, Page>>, now: int): set<nat>
    requires |paths| == |scans| == |found|
  {
    set i: nat | i < |paths| && BothExpirable(scans[i], ReadOf(found[i], paths[i]), now)
  }

  /** One page has its first draft line rewritten, every other page is as it was. */
  ghost predicate Rewrites(before: map<string, Page>, after: map<string, Page>, path: string, status: string) {
    && path in before && path in after && after == before[path := after[path]]
    && FirstDraftBecomes(before[path], after[path], status)
  }

  class Wiki {
    var pages: map<string, Page>

    /**
      `_expire_stale_drafts`. `scans` holds what the unlocked reads see and `others`
      what everybody else does to the wiki before each locked section; `found` is the
      wiki each section finds. The count is the number of sections that flip a page,
      and nothing else is written.
    */
    method ExpireStaleDrafts(paths: seq<string>, scans: seq<Read>, now: int,
                             others: (nat, map<string, Page>) -> map<string, Page>)
      returns (expired: nat, ghost found: seq<map<string, Page>>)
      requires |scans| == |paths|
      modifies this
      ensures |found| == |paths|
      ensures expired == |FlipsOf(paths, scans, found, now)|
      ensures paths != [] ==> found[0] == others(0, old(pages))
      ensures forall i | 0 < i < |paths| ::
                found[i] == others(i, SweptPage(found[i - 1], paths[i - 1], scans[i - 1], now))
      ensures pages == WikiAfter(old(pages), paths, scans, found, now, |paths|)
    {
      hide Expirable, Settle, SweptPage;
      expired, found := 0, [];
      for i := 0 to |paths|
        invariant |found| == i
        invariant expired == |FlipsOf(paths[..i], scans[..i], found, now)|
        invariant i > 0 ==> found[0] == others(0, old(pages))
        invariant forall j | 0 < j < i ::
                  found[j] == others(j, SweptPage(found[j - 1], paths[j - 1], scans[j - 1], now))
        invariant pages == if i == 0 then old(pages) else SweptPage(found[i - 1], paths[i - 1], scans[i - 1], now)
      {
        ghost var before := found;
        pages := others(i, pages);
        found := found + [pages];
        var flipped := SweepPage(paths[i], scans[i], now);
        FlipsOfOneMore(paths, scans, before, found, now, i);
        if flipped {
          expired := expired + 1;
        }
      }
      assert paths[..|paths|] == paths && scans[..|paths|] == scans;
    }

    /**
      One page: what the unlocked read saw decides whether the lock is taken, what is read under
      it whether the page is settled.
    */
    method SweepPage(path: string, scan: Read, now: int) returns (flipped: bool)
      modifies this
      ensures flipped <==> BothExpirable(scan, ReadOf(old(pages), path), now)
      ensures flipped <==>
                scan.Some? && PastDue(scan.value, now) && path in old(pages) && PastDue(old(pages)[path], now)
      ensures pages == SweptPage(old(pages), path, scan, now)
    {
      if scan.Some? {
        ExpirableExactly(scan.value, now);
      }
      if path in pages {
        ExpirableExactly(pages[path], now);
      }
      hide PastDue, Expirable, Settle;
      if scan.None? || !Expirable(scan.value, now) {
        return false;
      }
      if path !in pages || !Expirable(pages[path], now) {
        return false;
      }
      pages := pages[path := Settle(pages[path], "expired")];
      return true;
    }

    /**
      `endorse_draft`: `scans` is what the unlocked search reads of each page. The
      target is the first page found to carry the id; identity and status are
      checked again on the page as the lock finds it. Every error leaves the wiki
      alone, success settles exactly the target.
    */
    method EndorseDraft(paths: seq<string>, scans: seq<Read>, id: string, decision: string)
      returns (r: Result<string, EndorseError>)
      requires |scans| == |paths|
      modifies this
      ensures var i := FirstWithId(scans, id);
              r == if decision !in {"accept", "reject", "edit"} then Failure(BadDecision)
                   else if i == |paths| then Failure(NotFound)
                   else if paths[i] !in old(pages) || PageIdOf(old(pages)[paths[i]]) != Some(id) then Failure(NotFound)
                   else if !IsDraft(old(pages)[paths[i]]) then Failure(NotADraft)
                   else Success(paths[i])
      ensures r.Failure? ==> pages == old(pages)
      ensures r.Success? ==>
                (&& DecisionStatus(decision).Some? && r.value in old(pages) && FrontLength(old(pages)[r.value]).Some?
                 && pages == old(pages)[r.value := Settle(old(pages)[r.value], DecisionStatus(decision).value)])
      ensures r.Success? ==> r.value in old(pages) && Carries(old(pages)[r.value], id)
      ensures r.Success? && decision == "accept" ==> Rewrites(old(pages), pages, r.value, "accepted")
      ensures r.Success? && decision == "reject" ==> Rewrites(old(pages), pages, r.value, "rejected")
      ensures r.Success? && decision == "edit" ==> Rewrites(old(pages), pages, r.value, "edit_requested")
    {
      var status := DecisionStatus(decision);
      if status.None? {
        return Failure(BadDecision);
      }
      var target: Option<string> := None;
      for i := 0 to |paths|
        invariant target.None?
        invariant forall j | 0 <= j < i :: !(scans[j].Some? && PageIdOf(scans[j].value) == Some(id))
      {
        if scans[i].Some? && PageIdOf(scans[i].value) == Some(id) {
          target := Some(paths[i]);
          assert i == FirstWithId(scans, id);
          break;
        }
      }
      if target.None? || target.value !in pages {
        return Failure(NotFound);
      }
      var page := pages[target.value];
      if PageIdOf(page) != Some(id) {
        return Failure(NotFound);
      }
      if !IsDraft(page) {
        return Failure(NotADraft);
      }
      SettlesFirst(page, status.value);
      PageIdExactly(page, id);
      pages := pages[target.value := Settle(page, status.value)];
      return Success(target.value);
    }
  }

  lemma FlipsOfOneMore(paths: seq<string>, scans: seq<Read>, before: seq<map<string, Page>>,
                       found: seq<map<string, Page>>, now: int, i: nat)
    requires i < |paths| == |scans| && |before| == i && |found| == i + 1 && found[..i] == before
    ensures |FlipsOf(paths[..i + 1], scans[..i + 1], found, now)| ==
              |FlipsOf(paths[..i], scans[..i], before, now)| +
              if BothExpirable(scans[i], ReadOf(found[i], paths[i]), now) then 1 else 0
  {
    hide BothExpirable;
    var less := FlipsOf(paths[..i], scans[..i], before, now);
    var more := FlipsOf(paths[..i + 1], scans[..i + 1], found, now);
    assert forall j: nat | j < i :: before[j] == found[j];
    assert more == less + if BothExpirable(scans[i], ReadOf(found[i], paths[i]), now) then {i} else {};
  }

  function Swept(page: Page, now: int): Page {
    if Expirable(page, now) then Settle(page, "expired") else page
  }

  /** The listed pages past their stamp are settled, the others are as they were. */
  ghost predicate Settled(start: map<string, Page>, end: map<string, Page>, done: seq<string>, now: int) {
    && end.Keys == start.Keys
    && forall q | q in start :: end[q] == if q in done then Swept(start[q], now) else start[q]
  }

  /** One more page of an undisturbed sweep. */
  lemma SweptAlone(start: map<string, Page>, pages: map<string, Page>, done: seq<string>, path: string, now: int)
    requires path in start && path !in done && Settled(start, pages, done, now)
    ensures Settled(start, SweptPage(pages, path, Some(start[path]), now), done + [path], now)
  {
    hide Expirable, Settle;
  }

  /** The wiki after the first `n` pages of a sweep. */
  function WikiAfter(start: map<string, Page>, paths: seq<string>, scans: seq<Read>, found: seq<map<string, Page>>,
                     now: int, n: nat): map<string, Page>
    requires n <= |paths| == |scans| == |found|
  {
    if n == 0 then start else SweptPage(found[n - 1], paths[n - 1], scans[n - 1], now)
  }

  /** Each locked section finds the wiki as the one before it left it. */
  ghost predicate Undisturbed(start: map<string, Page>, paths: seq<string>, scans: seq<Read>,
                              found: seq<map<string, Page>>, now: int) {
    && |paths| == |scans| == |found|
    && (paths != [] ==> found[0] == start)
    && forall i | 0 < i < |paths| :: found[i] == SweptPage(found[i - 1], paths[i - 1], scans[i - 1], now)
  }

  lemma UndisturbedAt(start: map<string, Page>, paths: seq<string>, scans: seq<Read>, found: seq<map<string, Page>>,
                      now: int, i: nat)
    requires Undisturbed(start, paths, scans, found, now) && i < |paths|
    ensures WikiAfter(start, paths, scans, found, now, i + 1) ==
              SweptPage(WikiAfter(start, paths, scans, found, now, i), paths[i], scans[i], now)
  {
    hide SweptPage;
  }

  lemma NothingSwept(start: map<string, Page>, paths: seq<string>, scans: seq<Read>, found: seq<map<string, Page>>,
                     now: int)
    requires |paths| == |scans| == |found|
    ensures Settled(start, WikiAfter(start, paths, scans, found, now, 0), paths[..0], now)
  {
  }

  /** Undisturbed, the sweep settles exactly the listed pages past their stamp and touches no other. */
  lemma {:induction false} UndisturbedSweep(start: map<string, Page>, paths: seq<string>, scans: seq<Read>,
                                            found: seq<map<string, Page>>, now: int, n: nat)
    requires Undisturbed(start, paths, scans, found, now) && n <= |paths| == |scans| == |found|
    requires forall i | 0 <= i < |paths| :: paths[i] in start && scans[i] == Some(start[paths[i]])
    requires forall i, j | 0 <= i < j < |paths| :: paths[i] != paths[j]
    ensures Settled(start, WikiAfter(start, paths, scans, found, now, n), paths[..n], now)
  {
    hide SweptPage, Settled, Undisturbed, WikiAfter;
    if n == 0 {
      NothingSwept(start, paths, scans, found, now);
    } else {
      UndisturbedAt(start, paths, scans, found, now, n - 1);
      UndisturbedSweep(start, paths, scans, found, now, n - 1);
      var before, done := WikiAfter(start, paths, scans, found, now, n - 1), paths[..n - 1];
      assert paths[n - 1] !in done;
      SweptAlone(start, before, done, paths[n - 1], now);
      assert paths[..n] == done + [paths[n - 1]];
    }
  }
}
