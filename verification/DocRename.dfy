/**
  Renaming files whose ids carry names or addresses (bench/membench/scrub.py): every
  file keeps its content and ends up under an id of its own.
*/
module DocRename {
  import opened Sets
  import opened StableSort
  import opened Wrappers

  // ---------- disambiguated names ----------

  function Digit(d: nat): char
    requires d < 10
  {
    "0123456789"[d]
  }

  function Decimal(n: nat): string {
    if n < 10 then [Digit(n)] else Decimal(n / 10) + [Digit(n % 10)]
  }

  /** The index of the last dot. */
  function LastDot(s: string): (i: Option<nat>)
    ensures i.Some? ==> i.value < |s| && s[i.value] == '.' && '.' !in s[i.value + 1..]
    ensures i.None? ==> '.' !in s
  {
    if s == "" then None
    else if s[|s| - 1] == '.' then Some(|s| - 1)
    else LastDot(s[..|s| - 1])
  }

  /** The n-th name to try for an id that is taken, its suffix in front of the extension. */
  function Candidate(id: string, digest: string, n: nat): string {
    var suffix := "-" + digest + if n == 0 then "" else "-" + Decimal(n);
    match LastDot(id)
    case None => id + suffix
    case Some(dot) => id[..dot] + suffix + id[dot..]
  }

  /** The extension is what begins at the last dot, the stem what comes before it. */
  function Extension(id: string): string {
    if LastDot(id).Some? then id[LastDot(id).value..] else ""
  }

  function Stem(id: string): string {
    if LastDot(id).Some? then id[..LastDot(id).value] else id
  }

  function Count(n: nat): string {
    if n == 0 then "" else "-" + Decimal(n)
  }

  lemma StemAndExtension(id: string)
    ensures Stem(id) + Extension(id) == id
    ensures if '.' in id then Extension(id) != "" && Extension(id)[0] == '.' && '.' !in Extension(id)[1..]
            else Extension(id) == ""
  {
  }

  /** The suffix goes between the two. */
  lemma CandidateKeepsExtension(id: string, digest: string, n: nat)
    ensures Candidate(id, digest, n) == Stem(id) + "-" + digest + Count(n) + Extension(id)
  {
    hide LastDot, Decimal;
    var suffix := "-" + digest + Count(n);
    assert Candidate(id, digest, n) == Stem(id) + suffix + Extension(id);
    hide Candidate, Stem, Extension, Count;
    assert Stem(id) + suffix == Stem(id) + "-" + digest + Count(n);
  }

  function DigitValue(c: char): nat {
    if '0' <= c <= '9' then (c as int) - ('0' as int) else 0
  }

  function Value(s: string): nat {
    if s == "" then 0 else 10 * Value(s[..|s| - 1]) + DigitValue(s[|s| - 1])
  }

  lemma {:induction false} DecimalReadsBack(n: nat)
    ensures Value(Decimal(n)) == n && forall c | c in Decimal(n) :: '0' <= c <= '9'
    ensures n > 0 ==> Decimal(n)[0] != '0'
  {
    var s := Decimal(n);
    if n >= 10 {
      DecimalReadsBack(n / 10);
      assert s[..|s| - 1] == Decimal(n / 10);
    } else {
      assert s[..0] == "";
    }
  }

  lemma CandidateIsInjective(id: string, digest: string, m: nat, n: nat)
    requires Candidate(id, digest, m) == Candidate(id, digest, n)
    ensures m == n
  {
    hide Candidate, Stem, Extension, Decimal;
    CandidateKeepsExtension(id, digest, m);
    CandidateKeepsExtension(id, digest, n);
    Cancel(Stem(id) + "-" + digest, Count(m), Count(n), Extension(id));
    if m > 0 && n > 0 {
      assert Count(m)[1..] == Decimal(m) && Count(n)[1..] == Decimal(n);
      DecimalReadsBack(m);
      DecimalReadsBack(n);
    }
  }

  lemma Cancel(head: string, a: string, b: string, tail: string)
    requires head + a + tail == head + b + tail
    ensures a == b
  {
    var s := head + a + tail;
    assert |a| == |b|;
    assert a == s[|head|..|head| + |a|] == b;
  }

  function Candidates(id: string, digest: string, n: nat): set<string> {
    set k | 0 <= k < n :: Candidate(id, digest, k)
  }

  /** The candidates are as many as the tries, so a finite set of ids cannot take them all. */
  lemma {:induction false} CandidatesAreDistinct(id: string, digest: string, n: nat)
    ensures |Candidates(id, digest, n)| == n
  {
    hide Candidate;
    if n > 0 {
      CandidatesAreDistinct(id, digest, n - 1);
      var c := Candidate(id, digest, n - 1);
      assert Candidates(id, digest, n) == Candidates(id, digest, n - 1) + {c};
      if c in Candidates(id, digest, n - 1) {
        var k :| 0 <= k < n - 1 && Candidate(id, digest, k) == c;
        CandidateIsInjective(id, digest, k, n - 1);
      }
    }
  }

  /** The first candidate that is free. */
  method FreeCandidate(id: string, digest: string, used: set<string>) returns (name: string, ghost tries: nat)
    ensures name == Candidate(id, digest, tries) && name !in used
    ensures forall k | 0 <= k < tries :: Candidate(id, digest, k) in used
    ensures tries <= |used|
  {
    name := Candidate(id, digest, 0);
    tries := 0;
    var n := 1;
    while name in used
      invariant n == tries + 1 && name == Candidate(id, digest, tries)
      invariant forall k | 0 <= k < tries :: Candidate(id, digest, k) in used
      invariant tries <= |used|
      decreases |used| - tries
    {
      CandidatesAreDistinct(id, digest, tries + 1);
      SubsetIsSmaller(Candidates(id, digest, tries + 1), used);
      name := Candidate(id, digest, n);
      n, tries := n + 1, tries + 1;
    }
    CandidatesAreDistinct(id, digest, tries);
    SubsetIsSmaller(Candidates(id, digest, tries), used);
  }

  // ---------- renaming ----------

  /** Where a file ends up. */
  function Final(renames: map<string, string>, id: string): string {
    if id in renames then renames[id] else id
  }

  /** Every file is at its final id with its content, no two at the same one, and nothing else is there. */
  ghost predicate Moved(before: map<string, string>, after: map<string, string>, renames: map<string, string>) {
    && renames.Keys <= before.Keys
    && (forall id | id in before :: Final(renames, id) in after && after[Final(renames, id)] == before[id])
    && (forall a, b | a in before && b in before && a != b :: Final(renames, a) != Final(renames, b))
    && (forall f | f in after :: exists id | id in before :: Final(renames, id) == f)
  }

  /** One rename to a free id. */
  lemma MoveOne(before: map<string, string>, now: map<string, string>, renames: map<string, string>, id: string,
                name: string)
    requires Moved(before, now, renames) && id in before && id !in renames && name !in now
    ensures id in now
    ensures Moved(before, (now - {id})[name := now[id]], renames[id := name])
  {
    assert Final(renames, id) == id;
    var next, renames' := (now - {id})[name := now[id]], renames[id := name];
    forall other ensures Final(renames', other) == if other == id then name else Final(renames, other) {}
    hide Final;
    forall other | other in before
      ensures Final(renames', other) in next && next[Final(renames', other)] == before[other]
    {
      if other != id { assert Final(renames, other) != id && Final(renames, other) != name; }
    }
    forall f | f in next ensures exists other | other in before :: Final(renames', other) == f {
      if f == name {
        assert Final(renames', id) == f;
      } else {
        var other :| other in before && Final(renames, other) == f;
        assert Final(renames', other) == f;
      }
    }
  }

  lemma {:induction false} ImageSize(ids: set<string>, renames: map<string, string>)
    requires forall a, b | a in ids && b in ids && a != b :: Final(renames, a) != Final(renames, b)
    ensures |set id | id in ids :: Final(renames, id)| == |ids|
  {
    if ids != {} {
      var x :| x in ids;
      var rest := ids - {x};
      ImageSize(rest, renames);
      assert (set id | id in ids :: Final(renames, id)) ==
             (set id | id in rest :: Final(renames, id)) + {Final(renames, x)};
    }
  }

  /** So as many files are there as before, and exactly the moved ones. */
  lemma FileCountIsKept(before: map<string, string>, after: map<string, string>, renames: map<string, string>)
    requires Moved(before, after, renames)
    ensures |after| == |before|
    ensures forall a, b | a in renames && b in renames && a != b :: renames[a] != renames[b]
  {
    ImageSize(before.Keys, renames);
    assert after.Keys == set id | id in before.Keys :: Final(renames, id);
    assert |after| == |after.Keys| && |before| == |before.Keys|;
    forall a, b | a in renames && b in renames && a != b ensures renames[a] != renames[b] {
      assert Final(renames, a) != Final(renames, b);
    }
  }

  /**
    The name a file gets when these are taken: its scrubbed id if that is free, and
    the first free one of those derived from it otherwise.
  */
  ghost predicate Picked(name: string, scrubbed: string, digest: string, taken: set<string>) {
    if scrubbed !in taken then name == scrubbed
    else exists n: nat :: FirstFree(name, scrubbed, digest, taken, n)
  }

  ghost predicate FirstFree(name: string, scrubbed: string, digest: string, taken: set<string>, n: nat) {
    && name == Candidate(scrubbed, digest, n) && name !in taken
    && forall k: nat | k < n :: Candidate(scrubbed, digest, k) in taken
  }

  method PickName(id: string, scrubbed: string, digest: string, used: set<string>) returns (name: string)
    requires scrubbed != id
    ensures name !in used && Picked(name, scrubbed, digest, used)
  {
    name := scrubbed;
    if name in used {
      ghost var tries;
      name, tries := FreeCandidate(scrubbed, digest, used);
      assert FirstFree(name, scrubbed, digest, used, tries);
    }
  }

  lemma PrefixGrows(ids: seq<string>, i: nat)
    requires Distinct(ids) && i < |ids|
    ensures ids[i] !in ids[..i]
    ensures forall x :: x in ids[..i + 1] <==> x in ids[..i] || x == ids[i]
  {
    assert ids[..i + 1] == ids[..i] + [ids[i]];
  }

  lemma NothingMoved(files: map<string, string>)
    ensures Moved(files, files, map[])
  {
    forall f | f in files ensures Final(map[], f) == f {}
  }

  /** Where a file is when those in `done` have had their turn. */
  function Held(renames: map<string, string>, done: seq<string>, id: string): string {
    if id in done then Final(renames, id) else id
  }

  /** The ids in use when those in `done` have had their turn: original ones, and new ones of files in `done`. */
  ghost function Taken(files: set<string>, renames: map<string, string>, done: seq<string>): set<string> {
    set id | id in files :: Held(renames, done, id)
  }

  /** The i-th file has the name that was to be picked at its turn. */
  ghost predicate NamedAtItsTurn(files: set<string>, renames: map<string, string>, ids: seq<string>, i: nat,
                                 scrub: string -> string, digest: string -> string)
    requires i < |ids|
  {
    var id := ids[i];
    id in renames && Picked(renames[id], scrub(id), digest(id), Taken(files, renames, ids[..i]))
  }

  /** Every file whose id the policy changes, among the first `n`, got its name at its turn. */
  ghost predicate NamedInTurn(files: set<string>, renames: map<string, string>, ids: seq<string>, n: nat,
                              scrub: string -> string, digest: string -> string)
    requires n <= |ids|
  {
    forall i | 0 <= i < n && scrub(ids[i]) != ids[i] :: NamedAtItsTurn(files, renames, ids, i, scrub, digest)
  }

  /** The state of the loop when the first `n` files have had their turn. */
  ghost predicate Progress(before: map<string, string>, now: map<string, string>, renames: map<string, string>,
                           ids: seq<string>, n: nat, scrub: string -> string, digest: string -> string)
    requires n <= |ids|
  {
    && Moved(before, now, renames)
    && (forall id :: id in renames <==> id in ids[..n] && scrub(id) != id)
    && NamedInTurn(before.Keys, renames, ids, n, scrub, digest)
  }

  /** The ids in use are those at which there are files. */
  lemma TakenAreThere(before: map<string, string>, now: map<string, string>, renames: map<string, string>,
                      done: seq<string>)
    requires Moved(before, now, renames) && forall id | id in renames :: id in done
    ensures Taken(before.Keys, renames, done) == now.Keys
  {
    assert forall id | id in before :: Held(renames, done, id) == Final(renames, id);
  }

  /** A later rename does not change what was in use at an earlier turn. */
  lemma TakenStays(files: set<string>, renames: map<string, string>, done: seq<string>, id: string, name: string)
    requires id !in done
    ensures Taken(files, renames[id := name], done) == Taken(files, renames, done)
  {
    assert forall other :: Held(renames[id := name], done, other) == Held(renames, done, other);
  }

  lemma NamedOnward(files: set<string>, renames: map<string, string>, ids: seq<string>, n: nat, name: string,
                    scrub: string -> string, digest: string -> string)
    requires Distinct(ids) && n < |ids| && ids[n] !in renames
    requires NamedInTurn(files, renames, ids, n, scrub, digest)
    requires Picked(name, scrub(ids[n]), digest(ids[n]), Taken(files, renames, ids[..n]))
    ensures NamedInTurn(files, renames[ids[n] := name], ids, n + 1, scrub, digest)
  {
    hide Picked, Taken;
    var renames' := renames[ids[n] := name];
    forall i | 0 <= i < n + 1 && scrub(ids[i]) != ids[i]
      ensures NamedAtItsTurn(files, renames', ids, i, scrub, digest)
    {
      TakenStays(files, renames, ids[..i], ids[n], name);
      if i < n {
        assert NamedAtItsTurn(files, renames, ids, i, scrub, digest);
      }
    }
  }

  lemma ProgressStep(before: map<string, string>, now: map<string, string>, renames: map<string, string>,
                     ids: seq<string>, i: nat, scrub: string -> string, digest: string -> string, name: string)
    requires Distinct(ids) && i < |ids| && ids[i] in before && Progress(before, now, renames, ids, i, scrub, digest)
    requires scrub(ids[i]) != ids[i] ==> name !in now && Picked(name, scrub(ids[i]), digest(ids[i]), now.Keys)
    ensures ids[i] in now
    ensures if scrub(ids[i]) == ids[i] then Progress(before, now, renames, ids, i + 1, scrub, digest)
            else Progress(before, (now - {ids[i]})[name := now[ids[i]]], renames[ids[i] := name],
                          ids, i + 1, scrub, digest)
  {
    hide Moved, Picked, Distinct, Taken, NamedInTurn;
    PrefixGrows(ids, i);
    var id := ids[i];
    assert id !in renames;
    FinalIsThere(before, now, renames, id);
    TakenAreThere(before, now, renames, ids[..i]);
    if scrub(id) == id {
      NobodyNamed(before.Keys, renames, ids, i, scrub, digest);
    } else {
      MoveOne(before, now, renames, id, name);
      NamedOnward(before.Keys, renames, ids, i, name, scrub, digest);
    }
  }

  lemma NobodyNamed(files: set<string>, renames: map<string, string>, ids: seq<string>, n: nat,
                    scrub: string -> string, digest: string -> string)
    requires n < |ids| && scrub(ids[n]) == ids[n] && NamedInTurn(files, renames, ids, n, scrub, digest)
    ensures NamedInTurn(files, renames, ids, n + 1, scrub, digest)
  {
    hide NamedAtItsTurn;
  }

  lemma NoProgress(files: map<string, string>, ids: seq<string>, scrub: string -> string, digest: string -> string)
    ensures Progress(files, files, map[], ids, 0, scrub, digest)
  {
    NothingMoved(files);
  }

  lemma ProgressDone(before: map<string, string>, now: map<string, string>, renames: map<string, string>,
                     ids: seq<string>, scrub: string -> string, digest: string -> string)
    requires Progress(before, now, renames, ids, |ids|, scrub, digest) && forall id :: id in ids <==> id in before
    ensures Moved(before, now, renames)
    ensures forall id | id in before :: id in renames <==> scrub(id) != id
    ensures NamedInTurn(before.Keys, renames, ids, |ids|, scrub, digest)
  {
    assert ids[..|ids|] == ids;
    hide Moved, NamedInTurn;
  }

  /** The name is the scrubbed id or derived from it. */
  ghost predicate NameFor(name: string, scrubbed: string, digest: string) {
    name == scrubbed || exists n: nat :: name == Candidate(scrubbed, digest, n)
  }

  lemma PickedIsNameFor(name: string, scrubbed: string, digest: string, taken: set<string>)
    requires Picked(name, scrubbed, digest, taken)
    ensures NameFor(name, scrubbed, digest)
  {
    hide Candidate;
    if scrubbed in taken {
      var n: nat :| FirstFree(name, scrubbed, digest, taken, n);
    }
  }

  /**
    A scrubbed id that no file has at the start, and that is neither the scrubbed id
    of a file before this one nor derived from it, is used as it is.
  */
  lemma UncontestedIdIsUsed(files: set<string>, renames: map<string, string>, ids: seq<string>, i: nat,
                            scrub: string -> string, digest: string -> string)
    requires NamedInTurn(files, renames, ids, |ids|, scrub, digest) && i < |ids| && scrub(ids[i]) != ids[i]
    requires forall id | id in renames :: scrub(id) != id
    requires scrub(ids[i]) !in files
    requires forall j | 0 <= j < i && scrub(ids[j]) != ids[j] ::
               !NameFor(scrub(ids[i]), scrub(ids[j]), digest(ids[j]))
    ensures ids[i] in renames && renames[ids[i]] == scrub(ids[i])
  {
    hide NameFor;
    var name := scrub(ids[i]);
    assert NamedAtItsTurn(files, renames, ids, i, scrub, digest);
    if name in Taken(files, renames, ids[..i]) {
      var id :| id in files && Held(renames, ids[..i], id) == name;
      var j :| 0 <= j < i && ids[j] == id;
      assert NamedAtItsTurn(files, renames, ids, j, scrub, digest);
      PickedIsNameFor(name, scrub(id), digest(id), Taken(files, renames, ids[..j]));
    }
  }

  lemma FinalIsThere(before: map<string, string>, now: map<string, string>, renames: map<string, string>, id: string)
    requires Moved(before, now, renames) && id in before && id !in renames
    ensures id in now
  {
    assert Final(renames, id) == id;
  }

  class Corpus {
    var files: map<string, string>

    constructor (files: map<string, string>)
      ensures this.files == files
    {
      this.files := files;
    }

    /**
      `ids` lists the files once each, in any order, before the first of them moves.
      The files whose ids the policy changes are renamed, each to what was to be
      picked given the original ids and the new ones of the files before it.
    */
    method RenameScrubbed(ids: seq<string>, scrub: string -> string, digest: string -> string)
      returns (renames: map<string, string>)
      requires Distinct(ids) && forall id :: id in ids <==> id in files
      modifies this
      ensures Moved(old(files), files, renames)
      ensures forall id | id in old(files) :: id in renames <==> scrub(id) != id
      ensures NamedInTurn(old(files).Keys, renames, ids, |ids|, scrub, digest)
    {
      hide Progress, Moved, Picked, Distinct, NamedInTurn;
      renames := map[];
      var used := files.Keys;
      ghost var before := files;
      NoProgress(before, ids, scrub, digest);
      for i := 0 to |ids|
        invariant used == files.Keys && Progress(before, files, renames, ids, i, scrub, digest)
      {
        var id := ids[i];
        assert id in before;
        if scrub(id) == id {
          ProgressStep(before, files, renames, ids, i, scrub, digest, "");
        } else {
          var name := PickName(id, scrub(id), digest(id), used);
          ProgressStep(before, files, renames, ids, i, scrub, digest, name);
          used := used - {id} + {name};
          files := (files - {id})[name := files[id]];
          renames := renames[id := name];
        }
      }
      ProgressDone(before, files, renames, ids, scrub, digest);
    }
  }
}
