/**
  The programs of an upstream row: which are usable, and which play which role in a task. Digests are
  tuples of integers compared in order.
*/
module Corpus {
  import opened Ordering
  import opened Sorting
  import opened Wrappers

  type Digest = seq<int>

  datatype Policy = Policy(sources: set<int>, publicTests: nat, hiddenTests: nat, correct: nat, wrong: nat,
                           sourceBytes: nat, tasks: nat, oracles: nat, controls: nat, wrongPrograms: nat)

  datatype Meta = Meta(index: int, name: string, shard: string, source: int, publicTests: nat, hiddenTests: nat,
                       correct: nat, wrong: nat, usesFiles: bool)

  /** `blank` also stands for a value that is no text; text that is not blank has at least one byte. */
  datatype Upstream = Upstream(language: int, blank: bool, bytes: nat, normalized: Digest)

  datatype Row = Row(name: string, source: int, correct: seq<Upstream>, wrong: seq<Upstream>)

  datatype ProgramReceipt = ProgramReceipt(index: nat, normalized: Digest)

  datatype TaskReceipt = TaskReceipt(meta: Meta, oracles: seq<ProgramReceipt>, controls: seq<ProgramReceipt>,
                                     wrongs: seq<ProgramReceipt>)

  // ---------------------------------------------------------------- programs of a row

  predicate Usable(p: Upstream, policy: Policy) {
    p.language == 3 && !p.blank && 1 <= p.bytes <= policy.sourceBytes
  }

  predicate HasDigest(receipts: seq<ProgramReceipt>, d: Digest) {
    exists k :: 0 <= k < |receipts| && receipts[k].normalized == d
  }

  /** The first usable program of every normalised source, in upstream order. */
  function FirstUsable(programs: seq<Upstream>, policy: Policy): seq<ProgramReceipt> {
    if programs == [] then []
    else
      var n := |programs| - 1;
      var earlier := FirstUsable(programs[..n], policy);
      if Usable(programs[n], policy) && !HasDigest(earlier, programs[n].normalized)
      then earlier + [ProgramReceipt(n, programs[n].normalized)]
      else earlier
  }

  function ReceiptKey(r: ProgramReceipt): Digest { r.normalized + [r.index] }

  function Receipts(programs: seq<Upstream>, policy: Policy): seq<ProgramReceipt> {
    Sort(FirstUsable(programs, policy), ReceiptKey)
  }

  method ProgramReceipts(programs: seq<Upstream>, policy: Policy) returns (receipts: seq<ProgramReceipt>)
    ensures receipts == Receipts(programs, policy)
  {
    var unique: map<Digest, ProgramReceipt> := map[];
    var values: seq<ProgramReceipt> := [];
    for i := 0 to |programs|
      invariant values == FirstUsable(programs[..i], policy)
      invariant forall d :: d in unique <==> HasDigest(values, d)
      invariant forall d | d in unique :: unique[d].index < i
    {
      assert programs[..i + 1][..i] == programs[..i];
      if !Usable(programs[i], policy) {
        continue;
      }
      var receipt := ProgramReceipt(i, programs[i].normalized);
      if receipt.normalized !in unique || receipt.index < unique[receipt.normalized].index {
        DigestAppend(values, receipt);
        unique := unique[receipt.normalized := receipt];
        values := values + [receipt];
      }
    }
    assert programs[..|programs|] == programs;
    receipts := Sort(values, ReceiptKey);
  }

  lemma DigestAppend(receipts: seq<ProgramReceipt>, r: ProgramReceipt)
    ensures forall d :: HasDigest(receipts + [r], d) <==> HasDigest(receipts, d) || d == r.normalized
  {
    var more := receipts + [r];
    assert more[|receipts|] == r;
    forall d
      ensures HasDigest(more, d) <==> HasDigest(receipts, d) || d == r.normalized
    {
      if HasDigest(receipts, d) {
        var k :| 0 <= k < |receipts| && receipts[k].normalized == d;
        assert more[k].normalized == d;
      }
    }
  }

  predicate DistinctDigests(receipts: seq<ProgramReceipt>) {
    forall i, j | 0 <= i < j < |receipts| :: receipts[i].normalized != receipts[j].normalized
  }

  /** Python 3 source text that is not blank and within the policy's size. */
  predicate RunsHere(p: Upstream, policy: Policy) {
    p.language == 3 && p.blank == false && p.bytes > 0 && !(p.bytes > policy.sourceBytes)
  }

  /** The usable program at `r.index` has this digest and none before it has. */
  ghost predicate IsFirstUse(programs: seq<Upstream>, policy: Policy, r: ProgramReceipt) {
    && r.index < |programs| && RunsHere(programs[r.index], policy) && programs[r.index].normalized == r.normalized
    && forall k | 0 <= k < r.index :: !(RunsHere(programs[k], policy) && programs[k].normalized == r.normalized)
  }

  lemma {:induction false} FirstUsableMeaning(programs: seq<Upstream>, policy: Policy)
    ensures DistinctDigests(FirstUsable(programs, policy))
    ensures forall r | r in FirstUsable(programs, policy) :: IsFirstUse(programs, policy, r)
    ensures forall p | p in programs && Usable(p, policy) :: HasDigest(FirstUsable(programs, policy), p.normalized)
  {
    if programs != [] {
      var n := |programs| - 1;
      var front, p := programs[..n], programs[n];
      var earlier := FirstUsable(front, policy);
      assert programs == front + [p];
      FirstUsableMeaning(front, policy);
      forall r | r in earlier
        ensures IsFirstUse(programs, policy, r)
      {
        assert IsFirstUse(front, policy, r);
      }
      if Usable(p, policy) && !HasDigest(earlier, p.normalized) {
        var r := ProgramReceipt(n, p.normalized);
        DigestAppend(earlier, r);
        forall k | 0 <= k < n
          ensures !(Usable(programs[k], policy) && programs[k].normalized == r.normalized)
        {
          assert front[k] in front;
        }
      }
    }
  }

  lemma FirstUsableHas(programs: seq<Upstream>, policy: Policy, r: ProgramReceipt)
    ensures r in FirstUsable(programs, policy) <==> IsFirstUse(programs, policy, r)
  {
    var first := FirstUsable(programs, policy);
    FirstUsableMeaning(programs, policy);
    if IsFirstUse(programs, policy, r) {
      assert programs[r.index] in programs;
      var k :| 0 <= k < |first| && first[k].normalized == r.normalized;
      assert first[k] in first;
      SameFirstUse(programs, policy, r, first[k]);
    }
  }

  lemma SameFirstUse(programs: seq<Upstream>, policy: Policy, r: ProgramReceipt, s: ProgramReceipt)
    requires IsFirstUse(programs, policy, r) && IsFirstUse(programs, policy, s) && r.normalized == s.normalized
    ensures r == s
  {
  }

  lemma SortHas(receipts: seq<ProgramReceipt>, r: ProgramReceipt)
    ensures r in Sort(receipts, ReceiptKey) <==> r in receipts
  {
    SortSorts(receipts, ReceiptKey);
    assert r in Sort(receipts, ReceiptKey) <==> r in multiset(Sort(receipts, ReceiptKey));
    assert r in receipts <==> r in multiset(receipts);
  }

  /** The receipts of a row: one per usable normalised source, naming its first occurrence, in digest order. */
  lemma ReceiptsMeaning(programs: seq<Upstream>, policy: Policy, r: ProgramReceipt)
    ensures DistinctDigests(Receipts(programs, policy)) && Ordered(Receipts(programs, policy), ReceiptKey)
    ensures r in Receipts(programs, policy) <==> IsFirstUse(programs, policy, r)
  {
    FirstUsableMeaning(programs, policy);
    FirstUsableHas(programs, policy, r);
    SortHas(FirstUsable(programs, policy), r);
    SortKeepsDistinct(FirstUsable(programs, policy));
    SortSorts(FirstUsable(programs, policy), ReceiptKey);
  }

  lemma SortKeepsDistinct(receipts: seq<ProgramReceipt>)
    requires DistinctDigests(receipts)
    ensures DistinctDigests(Sort(receipts, ReceiptKey))
  {
    var sorted := Sort(receipts, ReceiptKey);
    SortSorts(receipts, ReceiptKey);
    assert NoRepeats(receipts);
    NoRepeatsCounts(receipts);
    NoRepeatsCounts(sorted);
    forall i, j | 0 <= i < j < |sorted|
      ensures sorted[i].normalized != sorted[j].normalized
    {
      assert sorted[i] in multiset(sorted) && sorted[j] in multiset(sorted);
      var a :| 0 <= a < |receipts| && receipts[a] == sorted[i];
      var b :| 0 <= b < |receipts| && receipts[b] == sorted[j];
      assert sorted[i] != sorted[j];
    }
  }

  // ---------------------------------------------------------------- roles

  function Digests(receipts: seq<ProgramReceipt>): set<Digest> {
    set r | r in receipts :: r.normalized
  }

  /** The validator of a task receipt. */
  predicate RolesDisjoint(t: TaskReceipt) {
    && |Digests(t.oracles)| == |t.oracles|
    && Digests(t.oracles) !! Digests(t.controls)
    && Digests(t.oracles) !! Digests(t.wrongs)
    && Digests(t.controls) !! Digests(t.wrongs)
  }

  /** Why a record is excluded: by its metadata, by its programs, or because enough were selected. */
  datatype Reason =
    | NotCodeNetOrigin | TooFewPublicTests | TooFewHiddenTests | TooFewPython3Accepted | TooFewPython3Wrong
    | NonStdioInvocation | TooFewAcceptedPrograms | TooFewWrongPrograms | AcceptedWrongOverlap | SelectionLimit

  datatype Attempt = Built(receipt: TaskReceipt) | Excluded(reasons: seq<Reason>) | Raised

  function RowReasons(correct: seq<ProgramReceipt>, wrong: seq<ProgramReceipt>, policy: Policy): seq<Reason> {
    (if |correct| < policy.oracles + policy.controls then [TooFewAcceptedPrograms] else [])
    + (if |wrong| < policy.wrongPrograms then [TooFewWrongPrograms] else [])
    + (if Digests(correct) !! Digests(wrong) then [] else [AcceptedWrongOverlap])
  }

  /** The upstream sources that have a name. */
  const NAMED_SOURCES := {6, 7}

  /** What the fields of a task receipt ask of the metadata. */
  predicate MetaFits(m: Meta) {
    && m.index >= 0 && m.source in NAMED_SOURCES
    && m.publicTests >= 1 && m.hiddenTests >= 1 && m.correct >= 1 && m.wrong >= 1
  }

  /** A receipt takes two oracle programs whatever the policy says, and needs a control and a wrong program besides. */
  predicate RolesFit(p: Policy) {
    p.oracles + p.controls >= 3 && p.wrongPrograms >= 1
  }

  function BuildTask(row: Option<Row>, meta: Meta, policy: Policy): Attempt {
    if row.None? || row.value.name != meta.name || row.value.source != meta.source then Raised
    else
      var correct, wrong := Receipts(row.value.correct, policy), Receipts(row.value.wrong, policy);
      var reasons := RowReasons(correct, wrong, policy);
      if reasons != [] then Excluded(reasons)
      else if !MetaFits(meta) || !RolesFit(policy) then Raised
      else
        Built(TaskReceipt(meta, correct[..2], correct[2..policy.oracles + policy.controls], wrong[..policy.wrongPrograms]))
  }

  /** A policy whose own limits are those of the receipt. */
  predicate CoversReceipt(p: Policy) {
    && p.sources <= NAMED_SOURCES && p.publicTests >= 1 && p.hiddenTests >= 1 && p.correct >= 1 && p.wrong >= 1
    && RolesFit(p)
  }

  lemma DigestsOfDistinct(receipts: seq<ProgramReceipt>)
    requires DistinctDigests(receipts)
    ensures |Digests(receipts)| == |receipts|
  {
    if receipts != [] {
      var n := |receipts| - 1;
      DigestsOfDistinct(receipts[..n]);
      assert Digests(receipts) == Digests(receipts[..n]) + {receipts[n].normalized};
    }
  }

  /** No receipt that is built trips the validator. */
  lemma BuiltRolesAreDisjoint(row: Option<Row>, meta: Meta, policy: Policy)
    requires BuildTask(row, meta, policy).Built?
    ensures var t := BuildTask(row, meta, policy).receipt;
      && RolesDisjoint(t) && |t.oracles| == 2
      && |t.controls| == policy.oracles + policy.controls - 2 && |t.wrongs| == policy.wrongPrograms
      && t.meta == meta
      && t.oracles + t.controls <= Receipts(row.value.correct, policy) && t.wrongs <= Receipts(row.value.wrong, policy)
  {
    var correct, wrong := Receipts(row.value.correct, policy), Receipts(row.value.wrong, policy);
    FirstUsableMeaning(row.value.correct, policy);
    SortKeepsDistinct(FirstUsable(row.value.correct, policy));
    DigestsOfDistinct(correct[..2]);
    var t := BuildTask(row, meta, policy).receipt;
    assert Digests(t.oracles) <= Digests(correct) && Digests(t.controls) <= Digests(correct);
    assert Digests(t.wrongs) <= Digests(wrong);
    forall d | d in Digests(t.oracles)
      ensures d !in Digests(t.controls)
    {
      var i :| 0 <= i < 2 && correct[i].normalized == d;
    }
  }
}
