/** Worker leases on runs: two columns of the runs table, updated by claims, heartbeats and releases. */
module Leases {
  import opened Wrappers
  import RunTables

  const LEASE_SECONDS := 300

  type Status = RunTables.Status

  datatype Row = Row(status: Status, updatedAt: int, leasedBy: Option<string>, leasedUntil: Option<int>)

  type Rows = map<string, Row>

  predicate Eligible(row: Row, now: int) {
    (row.leasedUntil.None? || row.leasedUntil.value < now) && RunTables.InProgress(row.status)
  }

  /** The rows a claim may take: eligible and not locked by another transaction. */
  function Open(rows: Rows, now: int, locked: set<string>): set<string> {
    set id | id in rows && Eligible(rows[id], now) && id !in locked
  }

  /** The oldest open rows, up to the limit; ties are resolved either way. */
  ghost predicate IsClaim(rows: Rows, now: int, locked: set<string>, limit: nat, ids: set<string>) {
    && ids <= Open(rows, now, locked)
    && (|ids| == limit || (|ids| < limit && ids == Open(rows, now, locked)))
    && (forall a, b | a in ids && b in Open(rows, now, locked) - ids :: rows[a].updatedAt <= rows[b].updatedAt)
  }

  function Leased(rows: Rows, worker: string, ids: set<string>, now: int): Rows {
    map id | id in rows :: if id in ids then rows[id].(leasedBy := Some(worker), leasedUntil := Some(now + LEASE_SECONDS)) else rows[id]
  }

  predicate Holds(rows: Rows, id: string, worker: string) {
    id in rows && rows[id].leasedBy == Some(worker)
  }

  function Extended(rows: Rows, id: string, worker: string, now: int): Rows {
    if Holds(rows, id, worker) then rows[id := rows[id].(leasedUntil := Some(now + LEASE_SECONDS))] else rows
  }

  function Released(rows: Rows, id: string, worker: string): Rows {
    if Holds(rows, id, worker) then rows[id := rows[id].(leasedBy := None, leasedUntil := None)] else rows
  }

  function Saved(rows: Rows, id: string, status: Status, now: int): Rows {
    if id in rows then rows[id := rows[id].(status := status, updatedAt := now)] else rows
  }

  class LeaseRepository {
    var rows: Rows

    constructor (rows: Rows)
      ensures this.rows == rows
    {
      this.rows := rows;
    }

    method ClaimRunForWorker(worker: string, limit: nat, now: int, locked: set<string>) returns (ids: set<string>)
      modifies this
      ensures forall id | id in ids ::
                && id in old(rows) && id !in locked
                && (old(rows)[id].leasedUntil.None? || old(rows)[id].leasedUntil.value < now)
                && old(rows)[id].status in {RunTables.Queued, RunTables.Analyzing, RunTables.Applying, RunTables.ExternalCiPending}
                && rows.Keys == old(rows).Keys
                && rows[id] == old(rows)[id].(leasedBy := Some(worker), leasedUntil := Some(now + 300))
      ensures |ids| <= limit
      ensures forall id | id in old(rows) && id !in ids ::
                && id in rows && rows[id] == old(rows)[id]
                && (&& id !in locked
                    && (old(rows)[id].leasedUntil.None? || old(rows)[id].leasedUntil.value < now)
                    && old(rows)[id].status in {RunTables.Queued, RunTables.Analyzing, RunTables.Applying, RunTables.ExternalCiPending}
                    ==> |ids| == limit && forall taken | taken in ids :: old(rows)[taken].updatedAt <= old(rows)[id].updatedAt)
      ensures IsClaim(old(rows), now, locked, limit, ids)
      ensures rows == Leased(old(rows), worker, ids, now)
    {
      ids := TakeOldest(Open(rows, now, locked), limit);
      rows := Leased(rows, worker, ids, now);
    }

    method TakeOldest(open: set<string>, limit: nat) returns (ids: set<string>)
      requires open <= rows.Keys
      ensures ids <= open && (|ids| == limit || (|ids| < limit && ids == open))
      ensures forall a, b | a in ids && b in open - ids :: rows[a].updatedAt <= rows[b].updatedAt
    {
      ids := {};
      while |ids| < limit && ids != open
        invariant ids <= open && |ids| <= limit
        invariant forall a, b | a in ids && b in open - ids :: rows[a].updatedAt <= rows[b].updatedAt
        decreases open - ids
      {
        assert open - ids != {} by {
          assert exists id :: id in open && id !in ids;
        }
        var oldest := Oldest(open - ids);
        ids := ids + {oldest};
      }
    }

    method Oldest(open: set<string>) returns (oldest: string)
      requires open != {} && open <= rows.Keys
      ensures oldest in open && forall id | id in open :: rows[oldest].updatedAt <= rows[id].updatedAt
    {
      oldest :| oldest in open;
      var rest := open - {oldest};
      while rest != {}
        invariant oldest in open && rest <= open
        invariant forall id | id in open - rest :: rows[oldest].updatedAt <= rows[id].updatedAt
        decreases rest
      {
        var id :| id in rest;
        if rows[id].updatedAt < rows[oldest].updatedAt {
          oldest := id;
        }
        rest := rest - {id};
      }
    }

    method HeartbeatLease(id: string, worker: string, now: int) returns (ok: bool)
      modifies this
      ensures ok <==> id in old(rows) && old(rows)[id].leasedBy == Some(worker)
      ensures rows == if ok then old(rows)[id := old(rows)[id].(leasedUntil := Some(now + 300))] else old(rows)
      ensures rows == Extended(old(rows), id, worker, now)
    {
      ok := id in rows && rows[id].leasedBy == Some(worker);
      if ok {
        rows := rows[id := rows[id].(leasedUntil := Some(now + LEASE_SECONDS))];
      }
    }

    method ReleaseLease(id: string, worker: string)
      modifies this
      ensures rows == if id in old(rows) && old(rows)[id].leasedBy == Some(worker)
                      then old(rows)[id := old(rows)[id].(leasedBy := None, leasedUntil := None)] else old(rows)
      ensures rows == Released(old(rows), id, worker)
    {
      if id in rows && rows[id].leasedBy == Some(worker) {
        rows := rows[id := rows[id].(leasedBy := None, leasedUntil := None)];
      }
    }

    method Save(id: string, status: Status, now: int) returns (ok: bool)
      modifies this
      ensures ok <==> id in old(rows)
      ensures rows == Saved(old(rows), id, status, now)
    {
      ok := id in rows;
      if ok {
        rows := rows[id := rows[id].(status := status, updatedAt := now)];
      }
    }
  }

  // ---------------------------------------------------------------- interleavings

  /** One committed transaction; a claim also says what was locked by others and what it took. */
  datatype Step =
    | Claim(worker: string, limit: nat, locked: set<string>, ids: set<string>, now: int)
    | Heartbeat(worker: string, id: string, now: int)
    | Release(worker: string, id: string, now: int)
    | Save(id: string, status: Status, now: int)

  ghost predicate Possible(rows: Rows, step: Step) {
    step.Claim? ==> IsClaim(rows, step.now, step.locked, step.limit, step.ids)
  }

  function After(rows: Rows, step: Step): Rows {
    match step
    case Claim(worker, limit, locked, ids, now) => Leased(rows, worker, ids, now)
    case Heartbeat(worker, id, now) => Extended(rows, id, worker, now)
    case Release(worker, id, now) => Released(rows, id, worker)
    case Save(id, status, now) => Saved(rows, id, status, now)
  }

  function Run(rows: Rows, steps: seq<Step>): Rows {
    if steps == [] then rows else After(Run(rows, steps[..|steps| - 1]), steps[|steps| - 1])
  }

  /** Every step is possible where it happens, and the clock never runs back. */
  ghost predicate IsRun(rows: Rows, steps: seq<Step>, start: int) {
    && (forall k | 0 <= k < |steps| :: Possible(Run(rows, steps[..k]), steps[k]) && start <= steps[k].now)
    && (forall j, k | 0 <= j < k < |steps| :: steps[j].now <= steps[k].now)
  }

  /** The worker took or renewed the lease with this step. */
  predicate Renews(rows: Rows, step: Step, id: string, worker: string) {
    || (step.Claim? && step.worker == worker && id in step.ids)
    || (step.Heartbeat? && step.worker == worker && step.id == id && Holds(rows, id, worker))
  }

  /** The lease columns say: this worker, at least until five minutes after `since`. */
  predicate Secure(rows: Rows, id: string, worker: string, since: int) {
    Holds(rows, id, worker) && rows[id].leasedUntil.Some? && rows[id].leasedUntil.value >= since + LEASE_SECONDS
  }

  predicate SameLease(rows: Rows, other: Rows, id: string) {
    && (id in rows <==> id in other)
    && (id in rows ==> rows[id].leasedBy == other[id].leasedBy && rows[id].leasedUntil == other[id].leasedUntil)
  }

  lemma RenewalSecures(rows: Rows, step: Step, id: string, worker: string)
    requires Possible(rows, step) && Renews(rows, step, id, worker)
    ensures Secure(After(rows, step), id, worker, step.now)
  {
    if step.Claim? { assert id in Open(rows, step.now, step.locked); }
  }

  lemma StepKeepsSecure(rows: Rows, step: Step, id: string, worker: string, since: int)
    requires Secure(rows, id, worker, since) && Possible(rows, step)
    requires since <= step.now <= since + LEASE_SECONDS && step != Release(worker, id, step.now)
    ensures Secure(After(rows, step), id, worker, since)
    ensures (step.Save? || step.worker != worker) ==> SameLease(rows, After(rows, step), id)
    ensures step.Claim? ==> id !in step.ids
  {
    if step.Claim? { assert id !in Open(rows, step.now, step.locked); }
  }

  /** The steps lie within five minutes of `since` and none of them is the worker's own release. */
  ghost predicate Undisturbed(steps: seq<Step>, id: string, worker: string, since: int) {
    forall k | 0 <= k < |steps| :: steps[k].now <= since + LEASE_SECONDS && steps[k] != Release(worker, id, steps[k].now)
  }

  lemma RunStep(rows: Rows, steps: seq<Step>, k: nat)
    requires k < |steps|
    ensures Run(rows, steps[..k + 1]) == After(Run(rows, steps[..k]), steps[k])
  {
    assert steps[..k + 1][..k] == steps[..k];
  }

  lemma {:induction false} SecureThroughout(rows: Rows, steps: seq<Step>, id: string, worker: string, since: int,
      k: nat)
    requires Secure(rows, id, worker, since) && IsRun(rows, steps, since) && Undisturbed(steps, id, worker, since)
    requires k <= |steps|
    ensures Secure(Run(rows, steps[..k]), id, worker, since)
  {
    if k == 0 {
      assert steps[..0] == [];
    } else {
      SecureThroughout(rows, steps, id, worker, since, k - 1);
      RunStep(rows, steps, k - 1);
      StepKeepsSecure(Run(rows, steps[..k - 1]), steps[k - 1], id, worker, since);
    }
  }

  /** The step does not take the run, and unless it is the worker's own it leaves the lease alone. */
  predicate Respects(before: Rows, step: Step, after: Rows, id: string, worker: string) {
    && (step.Claim? ==> id !in step.ids)
    && ((step.Save? || step.worker != worker) ==> SameLease(before, after, id))
  }

  /**
    From the step with which a worker takes or renews a lease, for five minutes and until it
    releases it itself, whatever all workers do in whatever order: the lease stays its own, no claim
    takes the run, and no other worker's step changes the lease.
  */
  lemma LeaseIsExclusive(rows: Rows, step: Step, later: seq<Step>, id: string, worker: string)
    requires Possible(rows, step) && Renews(rows, step, id, worker)
    requires IsRun(After(rows, step), later, step.now) && Undisturbed(later, id, worker, step.now)
    ensures Secure(Run(After(rows, step), later), id, worker, step.now)
    ensures forall k | 0 <= k < |later| ::
              Respects(Run(After(rows, step), later[..k]), later[k], Run(After(rows, step), later[..k + 1]), id, worker)
  {
    var base := After(rows, step);
    RenewalSecures(rows, step, id, worker);
    SecureThroughout(base, later, id, worker, step.now, |later|);
    assert later[..|later|] == later;
    forall k | 0 <= k < |later|
      ensures Respects(Run(base, later[..k]), later[k], Run(base, later[..k + 1]), id, worker)
    {
      SecureThroughout(base, later, id, worker, step.now, k);
      RunStep(base, later, k);
      StepKeepsSecure(Run(base, later[..k]), later[k], id, worker, step.now);
    }
  }

  /** A worker that was replaced learns it: its next heartbeat fails and changes nothing. */
  lemma ReplacedWorkerLearns(rows: Rows, claim: Step, id: string, worker: string)
    requires claim.Claim? && Possible(rows, claim) && id in claim.ids && claim.worker != worker
    ensures !Holds(After(rows, claim), id, worker)
    ensures forall now :: Extended(After(rows, claim), id, worker, now) == After(rows, claim)
    ensures Released(After(rows, claim), id, worker) == After(rows, claim)
  {
    assert id in Open(rows, claim.now, claim.locked);
  }

  /**
    One second later the promise ends: a run that still needs work can be taken over, but until
    somebody does, a late heartbeat renews the lease.
  */
  lemma TakeoverIff(rows: Rows, id: string, worker: string, since: int, now: int)
    requires Holds(rows, id, worker) && rows[id].leasedUntil == Some(since + LEASE_SECONDS)
    ensures (exists locked, limit: nat, ids :: IsClaim(rows, now, locked, limit, ids) && id in ids)
            <==> RunTables.InProgress(rows[id].status) && now > since + LEASE_SECONDS
    ensures Secure(Extended(rows, id, worker, now), id, worker, now)
  {
    if RunTables.InProgress(rows[id].status) && now > since + LEASE_SECONDS {
      var locked := rows.Keys - {id};
      assert Open(rows, now, locked) == {id};
      assert IsClaim(rows, now, locked, 1, {id});
    }
  }
}
