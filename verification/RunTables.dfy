/**
  The durable tables behind a run (src/coursefuzz/repositories/sqlite.py). Each repository call is one
  transaction, given first as a function on table values and then as a method of RunRepository.
*/
module RunTables {
  import opened Domain
  import opened Wrappers

  // ---------------------------------------------------------------- documents

  /** SHA-256 of the three kinds of hashed content, taken as injective. */
  datatype BodyDigest = HashBody(body: Body)
  datatype SpecDigest = HashSpec(spec: Spec)
  datatype BytesDigest = HashBytes(bytes: Bytes)

  type Bytes = seq<bv8>
  type Token = nat

  datatype Status =
    | Queued | Analyzing | ApprovalRequired | Approved | Applying
    | ExternalCiPending | Verified | NoActionRequired | ExternalCiFailed | Failed

  /** The messages the service records, by where they come from. */
  datatype RunError = AnalysisStopped | ReauthorizePayload | InterruptedApply | CiDidNotPass

  datatype CiConclusion = Passed | Concluded(conclusion: string) | TimedOut

  datatype Kind = LocalArtifact | GitHubPullRequest

  /** A GitHub target gets its head branch and base commit before the payload is bound. */
  datatype Target = Target(
    kind: Kind, path: string, repository: string, baseBranch: string, headBranch: string, baseCommit: nat)

  /** Everything of a candidate its payload hash covers. */
  datatype Body = Body(inputs: seq<int>, expected: string, targets: seq<string>, source: Bytes, target: Target)

  datatype Candidate = Candidate(body: Body, payload: BodyDigest)

  datatype Analysis = Analysis(candidate: Option<Candidate>, projectedAfter: Metrics)

  datatype Receipt = Receipt(
    kind: Kind, artifact: BytesDigest, readBackVerified: bool, repository: Option<string>, commit: Option<nat>,
    ciStartedAt: Option<int>, ciCompletedAt: Option<int>, ciConclusion: Option<CiConclusion>, ciVerified: bool)

  /** An assignment's immutable content; its snapshot hash is the hash of this. */
  datatype Spec = Spec(content: string)

  datatype Snapshot = Snapshot(id: string, seeded: bool, spec: Spec)

  function SnapshotSha(s: Snapshot): SpecDigest {
    HashSpec(s.spec)
  }

  datatype RunDoc = RunDoc(
    id: string, assignmentId: string, snapshotSha: Option<SpecDigest>, status: Status,
    analysis: Option<Analysis>, approvalPayload: Option<BodyDigest>, artifactSha: Option<BytesDigest>,
    receipt: Option<Receipt>, error: Option<RunError>)

  predicate HasCandidate(d: RunDoc) {
    d.analysis.Some? && d.analysis.value.candidate.Some?
  }

  function CandidateOf(d: RunDoc): Candidate
    requires HasCandidate(d)
  {
    d.analysis.value.candidate.value
  }

  /** src/coursefuzz/domain/engine.py:32-39. */
  function BindPayload(b: Body): Candidate {
    Candidate(b, HashBody(b))
  }

  // ---------------------------------------------------------------- tables

  datatype Row = Row(owner: string, doc: RunDoc, updatedAt: int)
  datatype Approval = Approval(payload: BodyDigest, token: Token, consumed: bool)

  datatype Tables = Tables(
    runs: map<string, Row>, keys: map<string, string>, approvals: map<string, Approval>,
    assignments: map<string, Snapshot>, access: set<(string, string)>, artifacts: map<string, BytesDigest>)

  const GLOBAL_TENANT := "*"

  function Get(t: Tables, id: string, tenant: string): Option<RunDoc> {
    if id in t.runs && t.runs[id].owner == tenant then Some(t.runs[id].doc) else None
  }

  /** The update of one row; None is the KeyError for a row that does not exist. */
  function Save(t: Tables, d: RunDoc, now: int): Option<Tables> {
    if d.id in t.runs then Some(t.(runs := t.runs[d.id := Row(t.runs[d.id].owner, d, now)])) else None
  }

  /** The idempotency key as it is stored. */
  function ScopedKey(owner: string, key: string): string {
    owner + [':'] + key
  }

  /** An insert-or-return by scoped idempotency key; None is the primary-key violation. */
  function Create(t: Tables, d: RunDoc, key: string, owner: string, now: int): Option<(Tables, RunDoc)> {
    if ScopedKey(owner, key) in t.keys then
      if t.keys[ScopedKey(owner, key)] in t.runs then Some((t, t.runs[t.keys[ScopedKey(owner, key)]].doc)) else None
    else if d.id in t.runs then None
    else Some((t.(runs := t.runs[d.id := Row(owner, d, now)], keys := t.keys[ScopedKey(owner, key) := d.id]), d))
  }

  /** The first owner, a colon and some text: what a second owner must look like to reach the first one's keys. */
  predicate Extends(longer: string, owner: string) {
    |longer| > |owner| && longer[..|owner|] == owner && longer[|owner|] == ':'
  }

  /** Keys of two owners are stored alike only when one owner extends the other at a colon; then some always are. */
  lemma OwnersCollideIff(owner: string, other: string)
    requires owner != other
    ensures (exists key, another :: ScopedKey(owner, key) == ScopedKey(other, another))
            <==> Extends(owner, other) || Extends(other, owner)
  {
    if exists key, another :: ScopedKey(owner, key) == ScopedKey(other, another) {
      var key, another :| ScopedKey(owner, key) == ScopedKey(other, another);
      SharedKeyExtends(owner, key, other, another);
    }
    if Extends(owner, other) { ExtensionShares(other, owner); }
    if Extends(other, owner) { ExtensionShares(owner, other); }
  }

  lemma SharedKeyExtends(owner: string, key: string, other: string, another: string)
    requires ScopedKey(owner, key) == ScopedKey(other, another) && owner != other
    ensures Extends(owner, other) || Extends(other, owner)
  {
    var stored := ScopedKey(owner, key);
    assert stored[..|owner|] == owner && stored[|owner|] == ':';
    assert stored[..|other|] == other && stored[|other|] == ':';
    if |owner| < |other| {
      assert other[..|owner|] == owner && other[|owner|] == ':';
    } else if |other| < |owner| {
      assert owner[..|other|] == other && owner[|other|] == ':';
    }
  }

  lemma ExtensionShares(owner: string, longer: string)
    requires Extends(longer, owner)
    ensures ScopedKey(owner, longer[|owner| + 1..] + [':']) == ScopedKey(longer, [])
  {
    assert longer == owner + [':'] + longer[|owner| + 1..];
  }

  /** Tenant identifiers hold no colon, so no two of them share a stored key and one of them never shares two. */
  lemma TenantsKeepApart(owner: string, key: string, other: string, another: string)
    requires ':' !in owner && ':' !in other && ScopedKey(owner, key) == ScopedKey(other, another)
    ensures owner == other && key == another
  {
    var stored := ScopedKey(owner, key);
    if owner != other {
      SharedKeyExtends(owner, key, other, another);
    }
    assert stored[|owner| + 1..] == key;
    assert stored[|other| + 1..] == another;
  }

  /** The exact approval a claim needs. */
  predicate ApprovalMatches(t: Tables, id: string, token: Token, payload: BodyDigest) {
    id in t.approvals && t.approvals[id] == Approval(payload, token, false)
  }

  predicate CanClaim(t: Tables, d: RunDoc, token: Token, payload: BodyDigest) {
    ApprovalMatches(t, d.id, token, payload) && d.id in t.runs && t.runs[d.id].doc.status == Approved
  }

  /** Claiming is all or nothing: the approval is consumed exactly when the row moves. */
  function Claim(t: Tables, d: RunDoc, token: Token, payload: BodyDigest, now: int): Tables {
    if CanClaim(t, d, token, payload) then
      t.(runs := t.runs[d.id := Row(t.runs[d.id].owner, d, now)],
         approvals := t.approvals[d.id := Approval(payload, token, true)])
    else t
  }

  function Approve(t: Tables, id: string, payload: BodyDigest, token: Token): Tables {
    t.(approvals := t.approvals[id := Approval(payload, token, false)])
  }

  function GetAssignment(t: Tables, id: string, tenant: string): Option<Snapshot> {
    if id in t.assignments && ((id, tenant) in t.access || (id, GLOBAL_TENANT) in t.access)
    then Some(t.assignments[id]) else None
  }

  predicate SameContentStored(t: Tables, s: Snapshot) {
    exists id | id in t.assignments :: SnapshotSha(t.assignments[id]) == SnapshotSha(s)
  }

  /** Only a seeded snapshot may replace a seeded one of the same id; None is the collision error. */
  function PutAssignment(t: Tables, s: Snapshot, tenant: string): Option<Tables> {
    if s.id in t.assignments && !(t.assignments[s.id].seeded && s.seeded) then None
    else Some(t.(assignments := t.assignments[s.id := s], access := t.access + {(s.id, tenant)}))
  }

  predicate InProgress(status: Status) {
    status == Queued || status == Analyzing || status == Applying || status == ExternalCiPending
  }

  predicate Recoverable(d: RunDoc) {
    InProgress(d.status)
  }

  function RecoverableIds(t: Tables): set<string> {
    set id | id in t.runs && Recoverable(t.runs[id].doc)
  }

  /** `ORDER BY updated_at ASC LIMIT n`: the n oldest recoverable rows (ties in any order). */
  ghost predicate IsRecoveryList(t: Tables, limit: nat, ids: seq<string>) {
    && (forall i, j :: 0 <= i < j < |ids| ==> ids[i] != ids[j])
    && (forall i :: 0 <= i < |ids| ==> ids[i] in RecoverableIds(t))
    && |ids| == (if |RecoverableIds(t)| < limit then |RecoverableIds(t)| else limit)
    && (forall i, j :: 0 <= i < j < |ids| ==> t.runs[ids[i]].updatedAt <= t.runs[ids[j]].updatedAt)
    && (forall id, later | id in ids && later in RecoverableIds(t) && later !in ids ::
          t.runs[id].updatedAt <= t.runs[later].updatedAt)
  }

  // ---------------------------------------------------------------- the repository

  class RunRepository {
    var runs: map<string, Row>
    var keys: map<string, string>
    var approvals: map<string, Approval>
    var assignments: map<string, Snapshot>
    var access: set<(string, string)>
    var artifacts: map<string, BytesDigest>

    ghost function View(): Tables
      reads this
    {
      Tables(runs, keys, approvals, assignments, access, artifacts)
    }

    constructor ()
      ensures View() == Tables(map[], map[], map[], map[], {}, map[])
    {
      runs, keys, approvals, assignments, access, artifacts := map[], map[], map[], map[], {}, map[];
    }

    method GetRun(id: string, tenant: string) returns (d: Option<RunDoc>)
      ensures d.Some? <==> id in runs && runs[id].owner == tenant
      ensures d.Some? ==> d.value == runs[id].doc
      ensures d == Get(View(), id, tenant)
    {
      if id in runs && runs[id].owner == tenant {
        d := Some(runs[id].doc);
      } else {
        d := None;
      }
    }

    method SaveRun(d: RunDoc, now: int) returns (ok: bool)
      modifies this`runs
      ensures ok <==> d.id in old(runs)
      ensures ok ==> runs == old(runs)[d.id := Row(old(runs)[d.id].owner, d, now)]
      ensures ok == Save(old(View()), d, now).Some?
      ensures View() == if ok then Save(old(View()), d, now).value else old(View())
    {
      ok := d.id in runs;
      if ok {
        runs := runs[d.id := Row(runs[d.id].owner, d, now)];
      }
    }

    method CreateRun(d: RunDoc, key: string, owner: string, now: int) returns (r: Option<(RunDoc, bool)>)
      modifies this`runs, this`keys
      ensures ScopedKey(owner, key) in old(keys) ==>
                && runs == old(runs) && keys == old(keys)
                && var stored := old(keys)[ScopedKey(owner, key)];
                   r == if stored in old(runs) then Some((old(runs)[stored].doc, false)) else None
      ensures ScopedKey(owner, key) !in old(keys) && d.id in old(runs) ==> r == None && runs == old(runs) && keys == old(keys)
      ensures ScopedKey(owner, key) !in old(keys) && d.id !in old(runs) ==>
                && r == Some((d, true)) && runs == old(runs)[d.id := Row(owner, d, now)]
                && keys == old(keys)[ScopedKey(owner, key) := d.id]
      ensures Create(old(View()), d, key, owner, now).None? ==> r == None && View() == old(View())
      ensures Create(old(View()), d, key, owner, now).Some? ==>
                && View() == Create(old(View()), d, key, owner, now).value.0
                && r == Some((Create(old(View()), d, key, owner, now).value.1, ScopedKey(owner, key) !in old(keys)))
    {
      if ScopedKey(owner, key) in keys {
        if keys[ScopedKey(owner, key)] !in runs {
          return None;
        }
        return Some((runs[keys[ScopedKey(owner, key)]].doc, false));
      }
      if d.id in runs {
        return None;
      }
      runs, keys := runs[d.id := Row(owner, d, now)], keys[ScopedKey(owner, key) := d.id];
      r := Some((d, true));
    }

    /** The three statements of the claim transaction; its last return value is always true. */
    method ClaimApprovedApply(d: RunDoc, token: Token, payload: BodyDigest, now: int) returns (claimed: bool)
      modifies this`runs, this`approvals
      ensures claimed <==>
                && d.id in old(approvals) && old(approvals)[d.id] == Approval(payload, token, false)
                && d.id in old(runs) && old(runs)[d.id].doc.status == Approved
      ensures claimed ==>
                && runs == old(runs)[d.id := Row(old(runs)[d.id].owner, d, now)]
                && approvals == old(approvals)[d.id := Approval(payload, token, true)]
      ensures claimed <==> CanClaim(old(View()), d, token, payload)
      ensures View() == Claim(old(View()), d, token, payload, now)
      ensures !claimed ==> View() == old(View())
    {
      if d.id !in approvals
         || approvals[d.id].token != token || approvals[d.id].payload != payload || approvals[d.id].consumed {
        return false;
      }
      var updated := 0;
      if d.id in runs && runs[d.id].doc.status == Approved {
        runs, updated := runs[d.id := Row(runs[d.id].owner, d, now)], 1;
      }
      if updated != 1 {
        return false;
      }
      var consumed := 0;
      if !approvals[d.id].consumed {
        approvals, consumed := approvals[d.id := approvals[d.id].(consumed := true)], 1;
      }
      return consumed == 1;
    }

    method IssueApproval(id: string, payload: BodyDigest, token: Token)
      modifies this`approvals
      ensures approvals == old(approvals)[id := Approval(payload, token, false)]
      ensures View() == Approve(old(View()), id, payload, token)
    {
      approvals := approvals[id := Approval(payload, token, false)];
    }

    /** The standalone consumption: it succeeds at most once per issued approval. */
    method ConsumeApproval(id: string, token: Token, payload: BodyDigest) returns (consumed: bool)
      modifies this`approvals
      ensures consumed <==> id in old(approvals) && old(approvals)[id] == Approval(payload, token, false)
      ensures View() == if consumed then old(View()).(approvals := old(approvals)[id := Approval(payload, token, true)])
                        else old(View())
      ensures !ApprovalMatches(View(), id, token, payload)
    {
      consumed := id in approvals && approvals[id] == Approval(payload, token, false);
      if consumed {
        approvals := approvals[id := Approval(payload, token, true)];
      }
    }

    method ReadAssignment(id: string, tenant: string) returns (s: Option<Snapshot>)
      ensures s.Some? <==> id in assignments && ((id, tenant) in access || (id, "*") in access)
      ensures s.Some? ==> s.value == assignments[id]
      ensures s == GetAssignment(View(), id, tenant)
    {
      if id in assignments && ((id, tenant) in access || (id, GLOBAL_TENANT) in access) {
        s := Some(assignments[id]);
      } else {
        s := None;
      }
    }

    /** Content-addressed ingestion: stored content is shared, and a manual snapshot is never replaced. */
    method CreateAssignment(s: Snapshot, tenant: string) returns (r: Option<(Snapshot, bool)>)
      modifies this`assignments, this`access
      ensures (exists id | id in old(assignments) :: old(assignments)[id].spec == s.spec) ==>
                && r.Some? && !r.value.1
                && (exists id | id in old(assignments) :: old(assignments)[id] == r.value.0)
                && SnapshotSha(r.value.0) == SnapshotSha(s)
                && View() == old(View()).(access := old(access) + {(r.value.0.id, tenant)})
      ensures !SameContentStored(old(View()), s) && s.id in old(assignments) && !(old(assignments)[s.id].seeded && s.seeded) ==>
                r == None && View() == old(View())
      ensures !SameContentStored(old(View()), s) && (s.id in old(assignments) ==> old(assignments)[s.id].seeded && s.seeded) ==>
                && r == Some((s, s.id !in old(assignments)))
                && View() == old(View()).(assignments := old(assignments)[s.id := s], access := old(access) + {(s.id, tenant)})
                && PutAssignment(old(View()), s, tenant) == Some(View())
      ensures forall id | id in old(assignments) && !old(assignments)[id].seeded ::
                id in assignments && assignments[id] == old(assignments)[id]
    {
      if exists id | id in assignments :: SnapshotSha(assignments[id]) == SnapshotSha(s) {
        var id :| id in assignments && SnapshotSha(assignments[id]) == SnapshotSha(s);
        var stored := assignments[id];
        access := access + {(stored.id, tenant)};
        return Some((stored, false));
      }
      if s.id in assignments {
        if !assignments[s.id].seeded || !s.seeded {
          return None;
        }
        assignments, access := assignments[s.id := s], access + {(s.id, tenant)};
        return Some((s, false));
      }
      assignments, access := assignments[s.id := s], access + {(s.id, tenant)};
      r := Some((s, true));
    }

    method SaveArtifact(id: string, sha: BytesDigest)
      modifies this`artifacts
      ensures View() == old(View()).(artifacts := old(artifacts)[id := sha])
    {
      artifacts := artifacts[id := sha];
    }

    /** The ids taken so far are the oldest of `all`; the pending ones are the rest. */
    ghost predicate Taken(all: set<string>, ids: seq<string>, pending: set<string>)
      reads this`runs
    {
      && all <= runs.Keys && pending <= all
      && (forall id :: id in ids <==> id in all - pending)
      && (forall i :: 0 <= i < |ids| ==> ids[i] in all)
      && |ids| + |pending| == |all|
      && (forall i, j :: 0 <= i < j < |ids| ==> ids[i] != ids[j])
      && (forall i, j :: 0 <= i < j < |ids| ==> runs[ids[i]].updatedAt <= runs[ids[j]].updatedAt)
      && (forall id, later | id in ids && later in pending :: runs[id].updatedAt <= runs[later].updatedAt)
    }

    lemma TakenStep(all: set<string>, ids: seq<string>, pending: set<string>, next: string)
      requires Taken(all, ids, pending) && next in pending
      requires forall id | id in pending :: runs[next].updatedAt <= runs[id].updatedAt
      ensures Taken(all, ids + [next], pending - {next})
    {
      assert forall i | 0 <= i < |ids| :: ids[i] in ids;
    }

    lemma TakenIsRecoveryList(limit: nat, ids: seq<string>, pending: set<string>)
      requires Taken(RecoverableIds(View()), ids, pending) && |ids| <= limit && (pending == {} || |ids| == limit)
      ensures IsRecoveryList(View(), limit, ids)
    {
      assert forall i | 0 <= i < |ids| :: ids[i] in ids;
    }

    method ListRecoverableRuns(limit: nat) returns (ids: seq<string>, listed: seq<(string, RunDoc)>)
      ensures forall id | id in ids ::
                id in runs && runs[id].doc.status in {Queued, Analyzing, Applying, ExternalCiPending}
      ensures forall i, j :: 0 <= i < j < |ids| ==> ids[i] in runs && ids[j] in runs && runs[ids[i]].updatedAt <= runs[ids[j]].updatedAt
      ensures |ids| <= limit
      ensures forall id | id in runs && id !in ids && runs[id].doc.status in {Queued, Analyzing, Applying, ExternalCiPending} ::
                |ids| == limit && forall listedId | listedId in ids :: listedId in runs && runs[listedId].updatedAt <= runs[id].updatedAt
      ensures IsRecoveryList(View(), limit, ids)
      ensures |listed| == |ids| && forall i :: 0 <= i < |ids| ==> listed[i] == (runs[ids[i]].owner, runs[ids[i]].doc)
    {
      var all := set id | id in runs && Recoverable(runs[id].doc);
      assert all == RecoverableIds(View());
      var pending;
      ids, pending := OldestOf(all, limit);
      TakenIsRecoveryList(limit, ids, pending);
      listed := [];
      for i := 0 to |ids|
        invariant |listed| == i && forall j :: 0 <= j < i ==> listed[j] == (runs[ids[j]].owner, runs[ids[j]].doc)
      {
        listed := listed + [(runs[ids[i]].owner, runs[ids[i]].doc)];
      }
    }

    /** The oldest of these runs up to the limit, and those that are left. */
    method OldestOf(all: set<string>, limit: nat) returns (ids: seq<string>, pending: set<string>)
      requires all <= runs.Keys
      ensures Taken(all, ids, pending) && |ids| <= limit && (pending == {} || |ids| == limit)
    {
      ids, pending := [], all;
      while pending != {} && |ids| < limit
        invariant Taken(all, ids, pending) && |ids| <= limit
        decreases pending
      {
        var next := Oldest(pending);
        TakenStep(all, ids, pending, next);
        ids, pending := ids + [next], pending - {next};
      }
    }

    method Oldest(ids: set<string>) returns (oldest: string)
      requires ids != {} && ids <= runs.Keys
      ensures oldest in ids && forall id | id in ids :: runs[oldest].updatedAt <= runs[id].updatedAt
    {
      oldest :| oldest in ids;
      var rest := ids - {oldest};
      while rest != {}
        invariant rest < ids && oldest in ids - rest
        invariant forall id | id in ids - rest :: runs[oldest].updatedAt <= runs[id].updatedAt
        decreases rest
      {
        var id :| id in rest;
        if runs[id].updatedAt < runs[oldest].updatedAt {
          oldest := id;
        }
        rest := rest - {id};
      }
    }
  }
}
