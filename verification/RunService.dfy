/**
  src/coursefuzz/services/run_service.py with its calls as methods over the repository object. Each
  method is proved to be its protocol thread running with nobody else in between.
*/
module RunService {
  import opened Destinations
  import opened Domain
  import opened Ordering
  import opened RunInvariant
  import opened RunProtocol
  import opened RunTables
  import opened Wrappers
  import GitHub = GitHubDestination
  import GitHubServer

  /** A thread that takes n steps without interleaving, in an environment that answers e. */
  function Alone(t: Tables, th: Thread, e: Env, token: Token, n: nat): (Tables, Thread)
    decreases n
  {
    if n == 0 then (t, th)
    else
      var r := Advance(t, th, e, token);
      Alone(r.0, r.1, e, token, n - 1)
  }

  lemma {:induction false} DoneAlone(t: Tables, th: Thread, e: Env, token: Token, n: nat)
    requires th.pc.Done?
    ensures Alone(t, th, e, token, n) == (t, th)
    decreases n
  {
    if n > 0 { DoneAlone(t, th, e, token, n - 1); }
  }

  lemma StepAlone(t: Tables, th: Thread, e: Env, token: Token, n: nat)
    requires n > 0
    ensures var r := Advance(t, th, e, token); Alone(t, th, e, token, n) == Alone(r.0, r.1, e, token, n - 1)
  {
  }

  /** Left alone, the thread reaches these tables and this reply within n steps. */
  ghost predicate Ends(t: Tables, th: Thread, e: Env, token: Token, n: nat, t': Tables, reply: Reply) {
    var r := Alone(t, th, e, token, n);
    r.0 == t' && r.1.pc == Done(reply)
  }

  lemma DoneEnds(t: Tables, th: Thread, e: Env, token: Token, n: nat)
    requires th.pc.Done?
    ensures Ends(t, th, e, token, n, t, th.pc.reply)
  {
    DoneAlone(t, th, e, token, n);
  }

  // ---------------------------------------------------------------- what a recovery pass relies on

  /** Only the row of one run is rewritten; its owner stays, and no row appears or goes. */
  ghost predicate OnlyRow(t: Tables, t': Tables, id: string) {
    && t'.runs.Keys == t.runs.Keys
    && (forall k | k in t.runs && k != id :: t'.runs[k] == t.runs[k])
    && (id in t.runs ==> t'.runs[id].owner == t.runs[id].owner && t'.runs[id].doc.id == id)
  }

  /** The two row facts of the lifecycle invariant that recovery needs. */
  ghost predicate Keyed(t: Tables) {
    forall id | id in t.runs ::
      && t.runs[id].doc.id == id
      && (t.runs[id].doc.status == ExternalCiPending ==>
            Pollable(t.runs[id].doc) && t.runs[id].doc.receipt.value.ciStartedAt.Some?)
  }

  /** A pending run whose CI has not concluded and whose deadline has not passed. */
  predicate Unresolved(d: RunDoc, e: Env) {
    Pollable(d) && e.ci.Some? && Polled(d, e.ci.value, e.now).None?
  }

  /** Polling answers, and either CI has concluded or the deadline has passed. */
  predicate Settles(d: RunDoc, e: Env) {
    d.status == ExternalCiPending ==> Pollable(d) && e.ci.Some? && Polled(d, e.ci.value, e.now).Some?
  }

  /** The run's poll, if it needs one, does not raise. */
  predicate Answers(d: RunDoc, e: Env) {
    Settles(d, e) || Unresolved(d, e)
  }

  lemma DeadlineSettles(d: RunDoc, e: Env)
    requires Pollable(d) && d.receipt.value.ciStartedAt.Some? && e.ci.Some?
    ensures Settles(d, e) <==>
            !e.ci.value.CiPending? || e.now - d.receipt.value.ciStartedAt.value > 600
  {
  }

  /** A GitHub write of the candidate would have to make a commit. */
  predicate NeedsCommit(before: GitHubServer.Repo, c: Candidate) {
    c.body.target.kind.GitHubPullRequest? && !GitHub.HadBytes(before, BoundOf(c.body))
  }

  /** Which status a successful application ends in, from what the repository held before it. */
  predicate Concludes(before: GitHubServer.Repo, c: Candidate, reply: Reply) {
    reply.RunReply? ==> reply.run.status == if NeedsCommit(before, c) then ExternalCiPending else Verified
  }

  lemma FinishedConcludes(before: GitHubServer.Repo, run: RunDoc, receipt: Receipt, now: int, reply: Reply)
    requires HasCandidate(run) && receipt == ReceiptFor(CandidateOf(run), receipt.commit)
    requires CandidateOf(run).body.target.kind.GitHubPullRequest? ==>
               (receipt.commit.None? <==> GitHub.HadBytes(before, BoundOf(CandidateOf(run).body)))
    requires reply.RunReply? ==> reply.run == Finished(run, receipt, now)
    ensures Concludes(before, CandidateOf(run), reply)
  {
  }

  lemma FailedWriteEnds(t: Tables, run: RunDoc, token: Token, tenant: string, e: Env, t': Tables, reply: Reply)
    requires HasCandidate(run) && e.written.None? && Ends(t, Inner(SaveRetry, run, 0, None, tenant), e, 0, 3, t', reply)
    ensures Ends(t, Inner(WriteDestination, run, token, None, tenant), e, 0, 4, t', reply)
  {
    StepAlone(t, Inner(WriteDestination, run, token, None, tenant), e, 0, 4);
  }

  lemma WriteEnds(t: Tables, run: RunDoc, token: Token, tenant: string, e: Env, t': Tables, reply: Reply)
    requires HasCandidate(run) && e.written.Some?
    requires Ends(t, Inner(CheckProjection, run, token, Some(ReceiptFor(CandidateOf(run), e.written.value)), tenant), e, 0, 3,
                  t', reply)
    ensures Ends(t, Inner(WriteDestination, run, token, None, tenant), e, 0, 4, t', reply)
  {
    StepAlone(t, Inner(WriteDestination, run, token, None, tenant), e, 0, 4);
  }

  /** After the claim: a call that raises leaves the run APPROVED, one that returns stores what it returns. */
  ghost predicate HandsBack(t: Tables, t': Tables, id: string, reply: Reply) {
    && t'.approvals == t.approvals
    && (id in t.runs ==>
          && id in t'.runs && (reply == Raised || reply.RunReply?)
          && (reply == Raised ==> t'.runs[id].doc.status == Approved)
          && (reply.RunReply? ==> t'.runs[id].doc == reply.run))
  }

  /**
    What applying an approved copy of a run does to its approval: it is spent exactly when it is unspent and is
    for this token and candidate and the stored run is still approved. Otherwise nothing changes at all.
  */
  ghost predicate Spends(t: Tables, t': Tables, run: RunDoc, token: Token, e: Env, reply: Reply,
      written: Option<Option<nat>>)
    requires HasCandidate(run)
  {
    if run.id in t.approvals && t.approvals[run.id] == Approval(run.analysis.value.candidate.value.payload, token, false)
       && run.id in t.runs && t.runs[run.id].doc.status == Approved
    then
      && t'.approvals == t.approvals[run.id := Approval(run.analysis.value.candidate.value.payload, token, true)]
      && run.id in t'.runs && (reply == Raised || reply.RunReply?)
      && (reply == Raised ==> t'.runs[run.id].doc.status == Approved)
      && (reply.RunReply? ==>
            && t'.runs[run.id].doc == reply.run
            && written.Some? && e.measured == Some(run.analysis.value.projectedAfter))
    else reply == Raised && t' == t
  }

  /** The answer about a run that awaits its commit's CI, by what the target's check runs say. */
  ghost predicate ReadingDecides(d: RunDoc, e: Env, reply: Reply)
    requires d.receipt.Some?
  {
    var late := d.receipt.value.ciStartedAt.Some? && e.now - d.receipt.value.ciStartedAt.value > 600;
    && (e.ci.None? <==> reply == Raised)
    && (e.ci.Some? ==> reply.RunReply? && reply.run.receipt.Some?)
    && (reply.RunReply? && e.ci.Some? ==>
          && (reply.run.status == Verified <==> e.ci.value == CiSuccess)
          && (reply.run.receipt.value.ciVerified <==> e.ci.value == CiSuccess || d.receipt.value.ciVerified)
          && (reply.run.status == ExternalCiFailed <==> e.ci.value.CiFailure? || (e.ci.value == CiPending && late))
          && (e.ci.value.CiFailure? ==> reply.run.receipt.value.ciConclusion == Some(Concluded(e.ci.value.conclusion)))
          && (e.ci.value == CiPending && late ==> reply.run.receipt.value.ciConclusion == Some(TimedOut))
          && (e.ci.value == CiPending && !late ==> reply.run == d))
  }

  /** The document a queued run is left with. */
  ghost predicate AnalysisDecides(t: Tables, d: RunDoc, tenant: string, e: Env, after: RunDoc) {
    var bound := && d.assignmentId in t.assignments
                 && ((d.assignmentId, tenant) in t.access || (d.assignmentId, "*") in t.access)
                 && (d.snapshotSha.Some? ==> d.snapshotSha.value == HashSpec(t.assignments[d.assignmentId].spec));
    if !bound || e.engine.None? then after.status == Failed
    else match e.engine.value.0
      case None => after.status == NoActionRequired && after.analysis == Some(Analysis(None, e.engine.value.1))
      case Some(body) =>
        if body.target.kind.GitHubPullRequest? && e.prepared.None? then after.status == Failed
        else
          && after.status == ApprovalRequired && after.analysis.Some? && after.analysis.value.candidate.Some?
          && after.analysis.value.projectedAfter == e.engine.value.1
          && var c := after.analysis.value.candidate.value;
             && c.payload == HashBody(c.body)
             && c.body.(target := body.target) == body
             && (body.target.kind.LocalArtifact? ==> c.body.target == body.target)
             && (body.target.kind.GitHubPullRequest? ==>
                   && c.body.target.headBranch == e.prepared.value.0 && c.body.target.baseCommit == e.prepared.value.1
                   && c.body.target.path == body.target.path && c.body.target.repository == body.target.repository
                   && c.body.target.baseBranch == body.target.baseBranch && c.body.target.kind == body.target.kind)
  }

  lemma PolledDecides(run: RunDoc, e: Env)
    requires Pollable(run) && e.ci.Some?
    ensures var polled := Polled(run, e.ci.value, e.now);
      ReadingDecides(run, e, RunReply(if polled.Some? then polled.value else run))
      && (polled.Some? ==> polled.value != run && polled.value.id == run.id && !Recoverable(polled.value))
  {
  }

  class RunService {
    const repository: RunRepository
    const destinations: DestinationCoordinator

    constructor (repository: RunRepository, destinations: DestinationCoordinator)
      ensures this.repository == repository && this.destinations == destinations
    {
      this.repository, this.destinations := repository, destinations;
    }

    /**
      src/coursefuzz/services/run_service.py:44-84. A key used before gives back its run, if that is a run of the
      same assignment; a new one creates a queued run bound to the assignment's present content.
    */
    method CreateRun(assignmentId: string, key: string, id: string, tenant: string, e: Env) returns (reply: Reply)
      modifies repository
      ensures var readable := && assignmentId in old(repository.assignments)
                              && ((assignmentId, tenant) in old(repository.access) || (assignmentId, "*") in old(repository.access));
              var stored := tenant + ":" + key;
              && (!readable ==> reply == Raised)
              && (readable && stored in old(repository.keys) && old(repository.keys)[stored] in old(repository.runs) ==>
                    var run := old(repository.runs)[old(repository.keys)[stored]].doc;
                    reply == if run.assignmentId == assignmentId then RunReply(run) else Raised)
              && (readable && stored !in old(repository.keys) && id !in old(repository.runs) ==>
                    var run := RunDoc(id, assignmentId, Some(HashSpec(old(repository.assignments)[assignmentId].spec)), Queued,
                                      None, None, None, None, None);
                    && reply == RunReply(run)
                    && repository.View() == old(repository.View()).(runs := old(repository.runs)[id := Row(tenant, run, e.now)],
                                                                    keys := old(repository.keys)[stored := id]))
              && (reply == Raised || stored in old(repository.keys) ==> repository.View() == old(repository.View()))
      ensures Ends(old(repository.View()), Single(RunProtocol.CreateRun(assignmentId, key, id), tenant), e, 0, 2,
                   repository.View(), reply)
    {
      ghost var t, th := repository.View(), Single(RunProtocol.CreateRun(assignmentId, key, id), tenant);
      assert ScopedKey(tenant, key) == tenant + ":" + key;
      StepAlone(t, th, e, 0, 2);
      var assignment := repository.ReadAssignment(assignmentId, tenant);
      if assignment.None? {
        DoneEnds(t, Dead(th), e, 0, 1);
        return Raised;
      }
      var run := NewRun(id, assignment.value, assignmentId);
      StepAlone(t, th.(pc := Insert(run, key)), e, 0, 1);
      var created := repository.CreateRun(run, key, tenant, e.now);
      if created.None? || (!created.value.1 && created.value.0.assignmentId != assignmentId) {
        return Raised;
      }
      reply := RunReply(created.value.0);
    }

    /**
      src/coursefuzz/services/run_service.py:247-284. The approval is granted exactly when the tenant's stored
      run awaits one for the very hash the caller names; anything else raises and changes nothing.
    */
    method Approve(id: string, payload: BodyDigest, tenant: string, e: Env, token: Token) returns (reply: Reply)
      modifies repository
      ensures id in old(repository.runs) ==> old(repository.runs)[id].doc.id == id ==>
                (reply != Raised <==>
                   && old(repository.runs)[id].owner == tenant
                   && old(repository.runs)[id].doc.status in {ApprovalRequired, Approved}
                   && old(repository.runs)[id].doc.analysis.Some?
                   && old(repository.runs)[id].doc.analysis.value.candidate.Some?
                   && old(repository.runs)[id].doc.analysis.value.candidate.value.payload == payload)
      ensures id !in old(repository.runs) ==> reply == Raised
      ensures reply == Raised && (id in old(repository.runs) ==> old(repository.runs)[id].doc.id == id) ==>
                repository.View() == old(repository.View())
      ensures reply != Raised && old(repository.runs)[id].doc.id == id ==>
                && reply == Granted(token, payload)
                && repository.View() == old(repository.View()).(
                     approvals := old(repository.approvals)[id := Approval(payload, token, false)],
                     runs := old(repository.runs)[id := Row(tenant,
                       old(repository.runs)[id].doc.(status := Approved, approvalPayload := Some(payload)), e.now)])
      ensures Ends(old(repository.View()), Single(ApproveRun(id, payload), tenant), e, token, 3, repository.View(), reply)
    {
      ghost var t, th := repository.View(), Single(ApproveRun(id, payload), tenant);
      StepAlone(t, th, e, token, 3);
      var found := repository.GetRun(id, tenant);
      if found.None? || (found.value.status != ApprovalRequired && found.value.status != Approved)
         || !HasCandidate(found.value) || payload != CandidateOf(found.value).payload {
        DoneEnds(t, Dead(th), e, token, 2);
        return Raised;
      }
      reply := Grant(found.value, payload, tenant, e, token);
    }

    method Grant(run: RunDoc, payload: BodyDigest, tenant: string, e: Env, token: Token) returns (reply: Reply)
      modifies repository
      ensures run.id in old(repository.runs) ==>
                && reply == Granted(token, payload)
                && repository.View() == old(repository.View()).(
                     approvals := old(repository.approvals)[run.id := Approval(payload, token, false)],
                     runs := old(repository.runs)[run.id := Row(old(repository.runs)[run.id].owner,
                       run.(status := Approved, approvalPayload := Some(payload)), e.now)])
      ensures Ends(old(repository.View()), Thread(Approving(run, payload, None), tenant, []), e, token, 2,
                   repository.View(), reply)
    {
      StepAlone(repository.View(), Thread(Approving(run, payload, None), tenant, []), e, token, 2);
      repository.IssueApproval(run.id, payload, token);
      StepAlone(repository.View(), Thread(Approving(run, payload, Some(token)), tenant, []), e, token, 1);
      var saved := repository.SaveRun(run.(status := Approved, approvalPayload := Some(payload)), e.now);
      reply := if saved then Granted(token, payload) else Raised;
    }

    /**
      src/coursefuzz/services/run_service.py:286-391. `written` is what the destination answered. An approved
      run that gets through awaits the target's CI exactly when its bytes were not in the repository before.
    */
    method Apply(id: string, token: Token, tenant: string, e: Env, disk: Disk)
      returns (reply: Reply, written: Option<Option<nat>>)
      requires GitHubServer.Valid(destinations.github.server.repo)
      modifies repository, destinations, destinations.github.server
      ensures Ends(old(repository.View()), Single(ApplyRun(id, token), tenant), e.(written := written), 0, 6,
                   repository.View(), reply)
      ensures GitHubServer.Valid(destinations.github.server.repo)
      ensures var found := Get(old(repository.View()), id, tenant);
              found.Some? && found.value.status == Approved && HasCandidate(found.value) ==>
                && Concludes(old(destinations.github.server.repo), CandidateOf(found.value), reply)
                && Spends(old(repository.View()), repository.View(), found.value, token, e, reply, written)
      ensures var found := Get(old(repository.View()), id, tenant);
              (found.Some? ==> found.value.status != Approved) ==>
                && repository.View() == old(repository.View())
                && reply == if found.Some? && found.value.status == Verified then RunReply(found.value) else Raised
    {
      ghost var t, th := repository.View(), Single(ApplyRun(id, token), tenant);
      written := None;
      StepAlone(t, th, e.(written := None), 0, 6);
      var found := repository.GetRun(id, tenant);
      if found.Some? && found.value.status == Verified {
        DoneEnds(t, Return(th, RunReply(found.value)), e.(written := None), 0, 5);
        return RunReply(found.value), None;
      }
      if found.None? || found.value.status != Approved || !HasCandidate(found.value) {
        DoneEnds(t, Dead(th), e.(written := None), 0, 5);
        return Raised, None;
      }
      reply, written := ClaimAndWrite(found.value, token, tenant, e, disk);
      StepAlone(t, th, e.(written := written), 0, 6);
    }

    method ClaimAndWrite(run: RunDoc, token: Token, tenant: string, e: Env, disk: Disk)
      returns (reply: Reply, written: Option<Option<nat>>)
      requires HasCandidate(run) && GitHubServer.Valid(destinations.github.server.repo)
      modifies repository, destinations, destinations.github.server
      ensures Ends(old(repository.View()), Inner(ClaimApply, run, token, None, tenant), e.(written := written), 0, 5,
                   repository.View(), reply)
      ensures Spends(old(repository.View()), repository.View(), run, token, e, reply, written)
      ensures GitHubServer.Valid(destinations.github.server.repo)
      ensures Concludes(old(destinations.github.server.repo), CandidateOf(run), reply)
    {
      ghost var t, th := repository.View(), Inner(ClaimApply, run, token, None, tenant);
      var applying := run.(status := Applying);
      var claimed := repository.ClaimApprovedApply(applying, token, CandidateOf(run).payload, e.now);
      if !claimed {
        StepAlone(t, th, e.(written := None), 0, 5);
        DoneEnds(t, Dead(th), e.(written := None), 0, 4);
        return Raised, None;
      }
      reply, written := WriteAndCheck(applying, token, tenant, e, disk);
      StepAlone(t, th, e.(written := written), 0, 5);
    }

    /** The try block from the destination write on. */
    method WriteAndCheck(run: RunDoc, token: Token, tenant: string, e: Env, disk: Disk)
      returns (reply: Reply, written: Option<Option<nat>>)
      requires HasCandidate(run) && GitHubServer.Valid(destinations.github.server.repo)
      modifies repository, destinations, destinations.github.server
      ensures Ends(old(repository.View()), Inner(WriteDestination, run, token, None, tenant), e.(written := written), 0, 4,
                   repository.View(), reply)
      ensures HandsBack(old(repository.View()), repository.View(), run.id, reply)
      ensures reply.RunReply? ==> written.Some? && e.measured == Some(run.analysis.value.projectedAfter)
      ensures GitHubServer.Valid(destinations.github.server.repo)
      ensures Concludes(old(destinations.github.server.repo), CandidateOf(run), reply)
    {
      ghost var t := repository.View();
      var applied := destinations.Apply(run.id, CandidateOf(run), disk);
      written := if applied.Some? then Some(applied.value.commit) else None;
      var answered := e.(written := written);
      if applied.None? {
        reply := Retry(run, tenant, answered, 3);
        FailedWriteEnds(t, run, token, tenant, answered, repository.View(), reply);
      } else {
        reply := CheckAndFinish(run, applied.value, token, tenant, answered);
        WriteEnds(t, run, token, tenant, answered, repository.View(), reply);
        FinishedConcludes(old(destinations.github.server.repo), run, applied.value, e.now, reply);
      }
    }

    /** The rest of the try block: the re-measurement against the approved projection. */
    method CheckAndFinish(run: RunDoc, receipt: Receipt, token: Token, tenant: string, e: Env) returns (reply: Reply)
      requires HasCandidate(run)
      modifies repository
      ensures Ends(old(repository.View()), Inner(CheckProjection, run, token, Some(receipt), tenant), e, 0, 3,
                   repository.View(), reply)
      ensures reply.RunReply? ==> reply.run == Finished(run, receipt, e.now)
      ensures HandsBack(old(repository.View()), repository.View(), run.id, reply)
      ensures reply.RunReply? ==> e.measured == Some(run.analysis.value.projectedAfter)
    {
      StepAlone(repository.View(), Inner(CheckProjection, run, token, Some(receipt), tenant), e, 0, 3);
      var assignment := CheckedAssignment(run, tenant);
      if assignment.None? || e.measured.None? || e.measured.value != run.analysis.value.projectedAfter {
        reply := Retry(run, tenant, e, 2);
        return;
      }
      reply := StoreAndFinish(run, receipt, token, tenant, e);
    }

    method StoreAndFinish(run: RunDoc, receipt: Receipt, token: Token, tenant: string, e: Env) returns (reply: Reply)
      requires HasCandidate(run)
      modifies repository
      ensures Ends(old(repository.View()),
                   Inner(if receipt.kind.LocalArtifact? then StoreArtifact else SaveApplied, run, token, Some(receipt), tenant),
                   e, 0, 2, repository.View(), reply)
      ensures reply.RunReply? ==> reply.run == Finished(run, receipt, e.now)
      ensures HandsBack(old(repository.View()), repository.View(), run.id, reply)
    {
      if receipt.kind.LocalArtifact? {
        StepAlone(repository.View(), Inner(StoreArtifact, run, token, Some(receipt), tenant), e, 0, 2);
        repository.SaveArtifact(run.id, receipt.artifact);
        reply := Finish(run, receipt, token, tenant, e, 1);
      } else {
        reply := Finish(run, receipt, token, tenant, e, 2);
      }
    }

    method Finish(run: RunDoc, receipt: Receipt, token: Token, tenant: string, e: Env, ghost n: nat)
      returns (reply: Reply)
      requires HasCandidate(run) && n > 0
      modifies repository
      ensures Ends(old(repository.View()), Inner(SaveApplied, run, token, Some(receipt), tenant), e, 0, n, repository.View(), reply)
      ensures reply.RunReply? ==> reply.run == Finished(run, receipt, e.now)
      ensures HandsBack(old(repository.View()), repository.View(), run.id, reply)
    {
      ghost var th := Inner(SaveApplied, run, token, Some(receipt), tenant);
      StepAlone(repository.View(), th, e, 0, n);
      var finished := Finished(run, receipt, e.now);
      var saved := repository.SaveRun(finished, e.now);
      reply := if saved then RunReply(finished) else Raised;
      DoneEnds(repository.View(), th.(pc := Done(reply)), e, 0, n - 1);
    }

    /** The except block: back to the approved retry boundary, and the exception leaves the call. */
    method Retry(run: RunDoc, tenant: string, e: Env, ghost n: nat) returns (reply: Reply)
      requires HasCandidate(run) && n > 0
      modifies repository
      ensures Ends(old(repository.View()), Inner(SaveRetry, run, 0, None, tenant), e, 0, n, repository.View(), reply)
      ensures reply == Raised && HandsBack(old(repository.View()), repository.View(), run.id, reply)
    {
      ghost var th := Inner(SaveRetry, run, 0, None, tenant);
      StepAlone(repository.View(), th, e, 0, n);
      var saved := repository.SaveRun(run.(status := Approved, error := Some(ReauthorizePayload)), e.now);
      DoneEnds(repository.View(), Dead(th), e, 0, n - 1);
      reply := Raised;
    }

    /** src/coursefuzz/services/run_service.py:520-531. */
    method CheckedAssignment(run: RunDoc, tenant: string) returns (s: Option<Snapshot>)
      ensures s.Some? <==>
                && run.assignmentId in repository.assignments
                && ((run.assignmentId, tenant) in repository.access || (run.assignmentId, "*") in repository.access)
                && (run.snapshotSha.Some? ==> run.snapshotSha.value == HashSpec(repository.assignments[run.assignmentId].spec))
      ensures s.Some? ==> s.value == repository.assignments[run.assignmentId]
      ensures s == BoundAssignment(repository.View(), run, tenant)
    {
      s := repository.ReadAssignment(run.assignmentId, tenant);
      if s.Some? && run.snapshotSha.Some? && SnapshotSha(s.value) != run.snapshotSha.value {
        s := None;
      }
    }

    /**
      src/coursefuzz/services/run_service.py:141-245. The row a queued run of the tenant ends in, by whether its
      snapshot is still the one it is bound to, what the engine finds, and whether the destination prepares it.
    */
    method Analyze(id: string, tenant: string, e: Env) returns (reply: Reply)
      modifies repository
      ensures id in old(repository.runs) && old(repository.runs)[id].owner == tenant
              && old(repository.runs)[id].doc.id == id && old(repository.runs)[id].doc.status == Queued ==>
                && OnlyRow(old(repository.View()), repository.View(), id)
                && AnalysisDecides(old(repository.View()), old(repository.runs)[id].doc, tenant, e, repository.runs[id].doc)
      ensures id in old(repository.runs) && old(repository.runs)[id].doc.status != Queued ==>
                repository.View() == old(repository.View())
      ensures id in old(repository.runs) && old(repository.runs)[id].owner == tenant
              && old(repository.runs)[id].doc.id == id && old(repository.runs)[id].doc.status == Queued ==>
                OnlyRow(old(repository.View()), repository.View(), id) && !Recoverable(repository.runs[id].doc)
      ensures Ends(old(repository.View()), Single(AnalyzeRun(id), tenant), e, 0, 6, repository.View(), reply)
    {
      ghost var t, th := repository.View(), Single(AnalyzeRun(id), tenant);
      StepAlone(t, th, e, 0, 6);
      var found := repository.GetRun(id, tenant);
      if found.None? {
        DoneEnds(t, Dead(th), e, 0, 5);
        return Raised;
      }
      if found.value.status != Queued {
        DoneEnds(t, Return(th, Nothing), e, 0, 5);
        return Nothing;
      }
      var run := found.value.(status := Analyzing);
      StepAlone(t, Goto(th, MarkAnalyzing, run), e, 0, 5);
      var saved := repository.SaveRun(run, e.now);
      if !saved {
        reply := FailAnalysis(run, tenant, e, 4);
        return;
      }
      reply := LoadAndSave(run, tenant, e);
    }

    /** The body of the try block: bind the snapshot, run the engine, prepare, and save the result. */
    method LoadAndSave(run: RunDoc, tenant: string, e: Env) returns (reply: Reply)
      modifies repository
      ensures run.id in old(repository.runs) ==>
                && OnlyRow(old(repository.View()), repository.View(), run.id)
                && AnalysisDecides(old(repository.View()), run, tenant, e, repository.runs[run.id].doc)
      ensures run.id in old(repository.runs) ==>
                OnlyRow(old(repository.View()), repository.View(), run.id) && !Recoverable(repository.runs[run.id].doc)
      ensures Ends(old(repository.View()), Inner(Load, run, 0, None, tenant), e, 0, 4, repository.View(), reply)
    {
      ghost var t := repository.View();
      StepAlone(t, Inner(Load, run, 0, None, tenant), e, 0, 4);
      var assignment := CheckedAssignment(run, tenant);
      if assignment.None? || e.engine.None? {
        reply := FailAnalysis(run, tenant, e, 3);
        return;
      }
      var (found, projected) := e.engine.value;
      var analyzed := run.(status := NoActionRequired, analysis := Some(Analysis(None, projected)));
      if found.Some? {
        var candidate := Prepare(found.value, e.prepared);
        if candidate.None? {
          reply := FailAnalysis(run, tenant, e, 3);
          return;
        }
        analyzed := run.(status := ApprovalRequired, analysis := Some(Analysis(candidate, projected)));
      }
      reply := SaveResult(analyzed, tenant, e);
    }

    method SaveResult(run: RunDoc, tenant: string, e: Env) returns (reply: Reply)
      requires !Recoverable(run)
      modifies repository
      ensures run.id in old(repository.runs) ==> OnlyRow(old(repository.View()), repository.View(), run.id) && repository.runs[run.id].doc == run
      ensures run.id in old(repository.runs) ==>
                OnlyRow(old(repository.View()), repository.View(), run.id) && !Recoverable(repository.runs[run.id].doc)
      ensures Ends(old(repository.View()), Inner(SaveAnalysis, run, 0, None, tenant), e, 0, 3, repository.View(), reply)
    {
      ghost var th := Inner(SaveAnalysis, run, 0, None, tenant);
      StepAlone(repository.View(), th, e, 0, 3);
      var saved := repository.SaveRun(run, e.now);
      if !saved {
        reply := FailAnalysis(run, tenant, e, 2);
        return;
      }
      StepAlone(repository.View(), Goto(th, NotifyApproval, run), e, 0, 2);
      DoneEnds(repository.View(), Return(th, Nothing), e, 0, 1);
      reply := Nothing;
    }

    method FailAnalysis(run: RunDoc, tenant: string, e: Env, ghost n: nat) returns (reply: Reply)
      requires n > 0
      modifies repository
      ensures run.id in old(repository.runs) ==> run.id in repository.runs && repository.runs[run.id].doc.status == Failed
      ensures Ends(old(repository.View()), Inner(SaveFailure, run, 0, None, tenant), e, 0, n, repository.View(), reply)
      ensures run.id in old(repository.runs) ==>
                OnlyRow(old(repository.View()), repository.View(), run.id) && !Recoverable(repository.runs[run.id].doc)
    {
      ghost var th := Inner(SaveFailure, run, 0, None, tenant);
      StepAlone(repository.View(), th, e, 0, n);
      var saved := repository.SaveRun(run.(status := Failed, error := Some(AnalysisStopped)), e.now);
      reply := if saved then Nothing else Raised;
      DoneEnds(repository.View(), th.(pc := Done(reply)), e, 0, n - 1);
    }

    /**
      src/coursefuzz/services/run_service.py:393-481. A run that awaits its commit's CI becomes VERIFIED exactly on
      a successful reading, and EXTERNAL_CI_FAILED exactly on a failed one or a pending one past ten minutes.
    */
    method Poll(id: string, tenant: string, e: Env) returns (reply: Reply)
      modifies repository
      ensures id in old(repository.runs) && old(repository.runs)[id].owner == tenant && old(repository.runs)[id].doc.id == id ==>
                (var d := old(repository.runs)[id].doc;
                 && (d.status == ExternalCiPending && d.receipt.Some? && d.receipt.value.repository.Some? && d.receipt.value.commit.Some? ==>
                       && ReadingDecides(d, e, reply)
                       && repository.runs == if reply.RunReply? && reply.run != d
                                             then old(repository.runs)[id := Row(tenant, reply.run, e.now)]
                                             else old(repository.runs))
                 && (d.status != ExternalCiPending ==> reply == RunReply(d) && repository.View() == old(repository.View()))
                 && (Unresolved(d, e) ==> repository.View() == old(repository.View()))
                 && (d.status == ExternalCiPending && Settles(d, e) ==>
                       && OnlyRow(old(repository.View()), repository.View(), id)
                       && !Recoverable(repository.runs[id].doc) && reply != Raised))
      ensures reply == Raised ==> repository.View() == old(repository.View())
      ensures Ends(old(repository.View()), Single(PollExternalCi(id), tenant), e, 0, 3, repository.View(), reply)
    {
      ghost var t, th := repository.View(), Single(PollExternalCi(id), tenant);
      StepAlone(t, th, e, 0, 3);
      var found := repository.GetRun(id, tenant);
      if found.None? {
        DoneEnds(t, Dead(th), e, 0, 2);
        return Raised;
      }
      var run := found.value;
      if !Pollable(run) {
        DoneEnds(t, Return(th, RunReply(run)), e, 0, 2);
        return RunReply(run);
      }
      reply := ReadAndSave(run, tenant, e);
    }

    /** Reads the target's CI and saves the run when the reading settles it. */
    method ReadAndSave(run: RunDoc, tenant: string, e: Env) returns (reply: Reply)
      requires Pollable(run)
      modifies repository
      ensures Unresolved(run, e) ==> repository.View() == old(repository.View())
      ensures run.id in old(repository.runs) && old(repository.runs)[run.id].doc == run ==>
                && ReadingDecides(run, e, reply)
                && repository.runs == if reply.RunReply? && reply.run != run
                                      then old(repository.runs)[run.id := Row(old(repository.runs)[run.id].owner, reply.run, e.now)]
                                      else old(repository.runs)
      ensures run.id in old(repository.runs) && Settles(run, e) ==>
                && OnlyRow(old(repository.View()), repository.View(), run.id)
                && !Recoverable(repository.runs[run.id].doc) && reply != Raised
      ensures reply == Raised ==> repository.View() == old(repository.View())
      ensures Ends(old(repository.View()), Inner(ReadCi, run, 0, None, tenant), e, 0, 2, repository.View(), reply)
    {
      ghost var t, th := repository.View(), Inner(ReadCi, run, 0, None, tenant);
      StepAlone(t, th, e, 0, 2);
      if e.ci.None? {
        DoneEnds(t, Dead(th), e, 0, 1);
        return Raised;
      }
      var polled := Polled(run, e.ci.value, e.now);
      PolledDecides(run, e);
      if polled.None? {
        DoneEnds(t, Return(th, RunReply(run)), e, 0, 1);
        return RunReply(run);
      }
      reply := SavePolled(run, polled.value, tenant, e);
    }

    method SavePolled(run: RunDoc, polled: RunDoc, tenant: string, e: Env) returns (reply: Reply)
      requires polled.id == run.id
      modifies repository
      ensures run.id in old(repository.runs) ==>
                && reply == RunReply(polled)
                && repository.runs == old(repository.runs)[run.id := Row(old(repository.runs)[run.id].owner, polled, e.now)]
      ensures reply == Raised ==> repository.View() == old(repository.View())
      ensures Ends(old(repository.View()), Inner(SaveCi, polled, 0, None, tenant), e, 0, 1, repository.View(), reply)
    {
      StepAlone(repository.View(), Inner(SaveCi, polled, 0, None, tenant), e, 0, 1);
      var saved := repository.SaveRun(polled, e.now);
      reply := if saved then RunReply(polled) else Raised;
    }

    /** One listed run of a recovery pass; None is an exception that ends the pass. */
    method RecoverOne(id: string, tenant: string, run: RunDoc, e: Env) returns (ok: bool)
      requires Keyed(repository.View()) && id in repository.runs
      requires repository.runs[id].owner == tenant && repository.runs[id].doc == run && Recoverable(run)
      modifies repository
      ensures run.status == Applying ==>
                && ok && OnlyRow(old(repository.View()), repository.View(), id)
                && repository.runs[id].doc == run.(status := Approved, error := Some(InterruptedApply))
      ensures run.status in {Analyzing, Queued} ==>
                && ok && OnlyRow(old(repository.View()), repository.View(), id)
                && AnalysisDecides(old(repository.View()), run, tenant, e, repository.runs[id].doc)
      ensures run.status == ExternalCiPending && ok && e.ci.Some? ==>
                id in repository.runs && repository.runs[id].doc.status ==
                  if e.ci.value == CiSuccess then Verified
                  else if e.ci.value.CiFailure? || e.now - run.receipt.value.ciStartedAt.value > 600 then ExternalCiFailed
                  else ExternalCiPending
      ensures Unresolved(run, e) ==> ok && repository.View() == old(repository.View())
      ensures Settles(run, e) ==>
                ok && OnlyRow(old(repository.View()), repository.View(), id) && !Recoverable(repository.runs[id].doc)
      ensures !Settles(run, e) && !Unresolved(run, e) ==> repository.View() == old(repository.View())
    {
      if run.status == Applying {
        ok := repository.SaveRun(run.(status := Approved, error := Some(InterruptedApply)), e.now);
        return;
      }
      if run.status == ExternalCiPending {
        var polled := Poll(id, tenant, e);
        return polled != Raised;
      }
      if run.status == Analyzing {
        ok := repository.SaveRun(run.(status := Queued), e.now);
      }
      var analyzed := Analyze(id, tenant, e);
      ok := true;
    }

    /**
      src/coursefuzz/services/run_service.py:100-139. A pass takes the oldest runs. If polling answers and
      every pending run it could meet is settled, it empties min(limit, n) of them; an unresolved pending
      run keeps its row, and with it its place in the queue.
    */
    method RecoverIncompleteRuns(limit: nat, e: string -> Env) returns (recovered: Option<nat>)
      requires Keyed(repository.View())
      modifies repository
      ensures forall id | id in old(repository.runs) && old(repository.runs)[id].doc.status == ExternalCiPending
                && Unresolved(old(repository.runs)[id].doc, e(id)) ::
                  id in repository.runs && repository.runs[id] == old(repository.runs)[id]
      ensures (forall id | id in RecoverableIds(old(repository.View())) :: Settles(old(repository.runs)[id].doc, e(id))) ==>
                && recovered == Some(Min(limit, |RecoverableIds(old(repository.View()))|))
                && Drained(old(repository.View()), repository.View(), Min(limit, |RecoverableIds(old(repository.View()))|))
      ensures (forall id | id in RecoverableIds(old(repository.View())) :: Answers(old(repository.runs)[id].doc, e(id))) ==>
                exists ids ::
                  && IsRecoveryList(old(repository.View()), limit, ids) && recovered == Some(|ids|)
                  && MixedPass(old(repository.View()), repository.View(), ids, e)
    {
      ghost var t0 := repository.View();
      var ids, listed := repository.ListRecoverableRuns(limit);
      recovered := RecoverListed(ids, listed, t0, e);
      if recovered.Some? {
        PassDrains(t0, repository.View(), ids, limit, e);
        PassMixes(t0, repository.View(), ids, e);
      }
    }

    method RecoverListed(ids: seq<string>, listed: seq<(string, RunDoc)>, ghost t0: Tables, e: string -> Env)
      returns (recovered: Option<nat>)
      requires Keyed(t0) && repository.View() == t0 && |listed| == |ids|
      requires forall i, j :: 0 <= i < j < |ids| ==> ids[i] != ids[j]
      requires forall i :: 0 <= i < |ids| ==> ids[i] in t0.runs && ids[i] in RecoverableIds(t0) && listed[i] == (t0.runs[ids[i]].owner, t0.runs[ids[i]].doc)
      modifies repository
      ensures recovered.Some? ==> recovered.value == |ids| && PassSoFar(t0, repository.View(), ids, |ids|, e)
      ensures recovered.None? ==>
                exists i :: 0 <= i < |ids| && !Answers(t0.runs[ids[i]].doc, e(ids[i])) && PassSoFar(t0, repository.View(), ids, i, e)
    {
      var count := 0;
      for i := 0 to |ids|
        invariant count == i && PassSoFar(t0, repository.View(), ids, i, e)
      {
        PassKeeps(t0, repository.View(), ids, i, e);
        ghost var t := repository.View();
        var ok := RecoverOne(ids[i], listed[i].0, listed[i].1, e(ids[i]));
        if !ok {
          assert repository.View() == t;
          return None;
        }
        PassStep(t0, t, repository.View(), ids, i, e);
        count := count + 1;
      }
      recovered := Some(count);
    }
  }

  /** After i of the listed runs: those are out of the queue unless unresolved, and nothing else moved. */
  ghost predicate PassSoFar(t0: Tables, t: Tables, ids: seq<string>, i: nat, e: string -> Env)
    requires i <= |ids|
  {
    && t.runs.Keys == t0.runs.Keys
    && (forall j :: 0 <= j < i && ids[j] in t.runs ==>
          if Settles(t0.runs[ids[j]].doc, e(ids[j])) then
            t.runs[ids[j]].owner == t0.runs[ids[j]].owner && t.runs[ids[j]].doc.id == ids[j] && !Recoverable(t.runs[ids[j]].doc)
          else t.runs[ids[j]] == t0.runs[ids[j]])
    && (forall id | id in t.runs && id !in ids[..i] :: t.runs[id] == t0.runs[id])
  }

  lemma PassKeeps(t0: Tables, t: Tables, ids: seq<string>, i: nat, e: string -> Env)
    requires Keyed(t0) && i < |ids| && PassSoFar(t0, t, ids, i, e)
    requires forall j, k :: 0 <= j < k < |ids| ==> ids[j] != ids[k]
    requires forall j :: 0 <= j < |ids| ==> ids[j] in t0.runs
    ensures Keyed(t) && ids[i] in t.runs && t.runs[ids[i]] == t0.runs[ids[i]]
  {
    assert ids[i] !in ids[..i];
    forall id | id in t.runs
      ensures t.runs[id].doc.id == id
      ensures t.runs[id].doc.status == ExternalCiPending ==>
                Pollable(t.runs[id].doc) && t.runs[id].doc.receipt.value.ciStartedAt.Some?
    {
      if id in ids[..i] {
        var j :| 0 <= j < i && ids[j] == id;
      }
    }
  }

  lemma PassStep(t0: Tables, t: Tables, t': Tables, ids: seq<string>, i: nat, e: string -> Env)
    requires i < |ids| && PassSoFar(t0, t, ids, i, e) && ids[i] in t.runs && t.runs[ids[i]] == t0.runs[ids[i]]
    requires forall j, k :: 0 <= j < k < |ids| ==> ids[j] != ids[k]
    requires if Settles(t0.runs[ids[i]].doc, e(ids[i])) then OnlyRow(t, t', ids[i]) && !Recoverable(t'.runs[ids[i]].doc)
             else t' == t
    ensures PassSoFar(t0, t', ids, i + 1, e)
  {
    assert forall j :: 0 <= j < i ==> ids[j] != ids[i];
    assert ids[..i + 1] == ids[..i] + [ids[i]];
  }

  /** k recoverable runs left the queue, and the rest kept their rows. */
  ghost predicate Drained(t: Tables, t': Tables, k: nat) {
    && Keyed(t')
    && RecoverableIds(t') <= RecoverableIds(t)
    && |RecoverableIds(t')| == |RecoverableIds(t)| - k
    && (forall id | id in RecoverableIds(t') :: t'.runs[id] == t.runs[id])
  }

  /** Exactly the listed runs left the queue. */
  lemma PassRemoves(t0: Tables, t: Tables, ids: seq<string>, limit: nat, e: string -> Env)
    requires Keyed(t0) && IsRecoveryList(t0, limit, ids) && PassSoFar(t0, t, ids, |ids|, e)
    requires forall id | id in RecoverableIds(t0) :: Settles(t0.runs[id].doc, e(id))
    ensures RecoverableIds(t) == RecoverableIds(t0) - (set id | id in ids)
    ensures forall id | id in RecoverableIds(t) :: t.runs[id] == t0.runs[id]
  {
    assert ids[..|ids|] == ids;
    forall id | id in t.runs
      ensures id in RecoverableIds(t) <==> id in RecoverableIds(t0) && id !in ids
    {
      if id in ids {
        var j :| 0 <= j < |ids| && ids[j] == id;
      }
    }
  }

  lemma PassKeyed(t0: Tables, t: Tables, ids: seq<string>, e: string -> Env)
    requires Keyed(t0) && PassSoFar(t0, t, ids, |ids|, e) && forall j :: 0 <= j < |ids| ==> ids[j] in RecoverableIds(t0)
    requires forall id | id in RecoverableIds(t0) :: Settles(t0.runs[id].doc, e(id))
    ensures Keyed(t)
  {
    assert ids[..|ids|] == ids;
    forall id | id in t.runs
      ensures t.runs[id].doc.id == id
      ensures t.runs[id].doc.status == ExternalCiPending ==>
                Pollable(t.runs[id].doc) && t.runs[id].doc.receipt.value.ciStartedAt.Some?
    {
      if id in ids {
        var j :| 0 <= j < |ids| && ids[j] == id;
      }
    }
  }

  lemma PassDrains(t0: Tables, t: Tables, ids: seq<string>, limit: nat, e: string -> Env)
    requires Keyed(t0) && IsRecoveryList(t0, limit, ids) && PassSoFar(t0, t, ids, |ids|, e)
    ensures (forall id | id in RecoverableIds(t0) :: Settles(t0.runs[id].doc, e(id))) ==> Drained(t0, t, |ids|)
  {
    if forall id | id in RecoverableIds(t0) :: Settles(t0.runs[id].doc, e(id)) {
      var gone := set id | id in ids;
      DistinctCount(ids);
      PassRemoves(t0, t, ids, limit, e);
      PassKeyed(t0, t, ids, e);
      assert gone <= RecoverableIds(t0);
      assert |RecoverableIds(t0) - gone| == |RecoverableIds(t0)| - |gone|;
    }
  }

  /** The listed runs that the pass settles. */
  function SettledOf(t0: Tables, ids: seq<string>, e: string -> Env): set<string> {
    set id | id in ids && id in t0.runs && Settles(t0.runs[id].doc, e(id))
  }

  /** What any pass does that polls without raising: the settled runs leave the queue, every other row stays as it is. */
  ghost predicate MixedPass(t0: Tables, t: Tables, ids: seq<string>, e: string -> Env) {
    && t.runs.Keys == t0.runs.Keys
    && RecoverableIds(t) == RecoverableIds(t0) - SettledOf(t0, ids, e)
    && (forall id | id in t0.runs && id !in SettledOf(t0, ids, e) :: t.runs[id] == t0.runs[id])
  }

  lemma PassMixes(t0: Tables, t: Tables, ids: seq<string>, e: string -> Env)
    requires PassSoFar(t0, t, ids, |ids|, e)
    ensures MixedPass(t0, t, ids, e)
  {
    assert ids[..|ids|] == ids;
    forall id | id in t0.runs
      ensures id in SettledOf(t0, ids, e) ==> !Recoverable(t.runs[id].doc)
      ensures id !in SettledOf(t0, ids, e) ==> t.runs[id] == t0.runs[id]
    {
      if id in ids {
        var j :| 0 <= j < |ids| && ids[j] == id;
      }
    }
  }

  /** A pass whose whole list is unresolved changes no run, so the queue stays blocked behind it, whoever waits there. */
  lemma UnresolvedListBlocks(t0: Tables, t: Tables, limit: nat, ids: seq<string>, e: string -> Env)
    requires IsRecoveryList(t0, limit, ids) && MixedPass(t0, t, ids, e)
    ensures (forall id | id in ids :: Unresolved(t0.runs[id].doc, e(id))) ==> t.runs == t0.runs
    ensures limit > 0 && RecoverableIds(t0) != {} ==>
              (RecoverableIds(t) == RecoverableIds(t0) <==> forall id | id in ids :: !Settles(t0.runs[id].doc, e(id)))
  {
    forall id | id in ids
      ensures id in RecoverableIds(t0) && (id in SettledOf(t0, ids, e) <==> Settles(t0.runs[id].doc, e(id)))
    {
      var j :| 0 <= j < |ids| && ids[j] == id;
    }
    assert SettledOf(t0, ids, e) <= RecoverableIds(t0);
  }

  lemma {:induction false} DistinctCount(ids: seq<string>)
    requires forall i, j :: 0 <= i < j < |ids| ==> ids[i] != ids[j]
    ensures |set id | id in ids| == |ids|
  {
    if ids != [] {
      var n := |ids| - 1;
      DistinctCount(ids[..n]);
      assert (set id | id in ids) == (set id | id in ids[..n]) + {ids[n]};
    }
  }

  /** src/coursefuzz/worker.py:82-102: ceil(n / limit) passes empty a settled queue of n, and no fewer do. */
  method RunWorker(service: RunService, iterations: nat, limit: nat, e: (nat, string) -> Env)
    returns (processed: Option<nat>)
    requires Keyed(service.repository.View())
    requires forall k, id | id in RecoverableIds(service.repository.View()) :: Settles(service.repository.runs[id].doc, e(k, id))
    modifies service.repository
    ensures var n := |RecoverableIds(old(service.repository.View()))|;
            && processed == Some(Min(n, iterations * limit))
            && |RecoverableIds(service.repository.View())| == n - Min(n, iterations * limit)
  {
    ghost var t0 := service.repository.View();
    ghost var n := |RecoverableIds(t0)|;
    var total := 0;
    for k := 0 to iterations
      invariant total == Min(n, k * limit)
      invariant Drained(t0, service.repository.View(), total)
    {
      var recovered := service.RecoverIncompleteRuns(limit, id => e(k, id));
      assert (k + 1) * limit == k * limit + limit;
      total := total + recovered.value;
    }
    processed := Some(total);
  }

  /** Every table the service can reach meets what a recovery pass relies on. */
  lemma ReachableIsKeyed(events: seq<Event>)
    ensures Keyed(Reach(EMPTY, events).t)
  {
    ReachKeepsInv(events);
  }

  /** CI answers for the run, and has concluded or is past its deadline. */
  predicate DeadlinePassed(d: RunDoc, e: Env) {
    d.status == ExternalCiPending && d.receipt.Some? && d.receipt.value.ciStartedAt.Some? ==>
      && e.ci.Some?
      && (!e.ci.value.CiPending? || e.now - d.receipt.value.ciStartedAt.value > 600)
  }

  lemma PassedSettles(t: Tables, id: string, e: Env)
    requires Keyed(t) && id in t.runs && DeadlinePassed(t.runs[id].doc, e)
    ensures Settles(t.runs[id].doc, e)
  {
    if t.runs[id].doc.status == ExternalCiPending {
      DeadlineSettles(t.runs[id].doc, e);
    }
  }

  /**
    One worker on tables that any interleaving may have left: once CI answers for every pending run and has
    concluded or passed its deadline, as many passes as the queue needs empty it.
  */
  method DrainReachable(service: RunService, ghost events: seq<Event>, iterations: nat, limit: nat,
      e: (nat, string) -> Env)
    requires service.repository.View() == Reach(EMPTY, events).t
    requires forall k, id | id in RecoverableIds(service.repository.View()) ::
               DeadlinePassed(service.repository.runs[id].doc, e(k, id))
    requires iterations * limit >= |RecoverableIds(service.repository.View())|
    modifies service.repository
    ensures forall id | id in service.repository.runs ::
              service.repository.runs[id].doc.status !in {Queued, Analyzing, Applying, ExternalCiPending}
  {
    ReachableIsKeyed(events);
    forall k, id | id in RecoverableIds(service.repository.View())
      ensures Settles(service.repository.runs[id].doc, e(k, id))
    {
      PassedSettles(service.repository.View(), id, e(k, id));
    }
    var _ := RunWorker(service, iterations, limit, e);
    assert forall id | id in service.repository.runs :: id !in RecoverableIds(service.repository.View());
  }

  // ---------------------------------------------------------------- what VERIFIED does not promise

  /**
    An approved run whose destination write, re-measurement and saves go through ends VERIFIED without any
    CI reading exactly when no GitHub commit was made; with a commit it waits for CI.
  */
  lemma AppliedWithoutCi(t: Tables, run: RunDoc, token: Token, tenant: string, e: Env, commit: Option<nat>)
    requires Get(t, run.id, tenant) == Some(run) && run.status == Approved && HasCandidate(run)
    requires CanClaim(t, run, token, CandidateOf(run).payload)
    requires BoundAssignment(t, run, tenant).Some?
    requires e.written == Some(commit) && e.measured == Some(run.analysis.value.projectedAfter)
    ensures var t' := Alone(t, Single(ApplyRun(run.id, token), tenant), e, 0, 6).0;
            && run.id in t'.runs && t'.runs[run.id].doc.receipt.Some?
            && !t'.runs[run.id].doc.receipt.value.ciVerified
            && t'.runs[run.id].doc.status ==
                 if CandidateOf(run).body.target.kind.GitHubPullRequest? && commit.Some? then ExternalCiPending else Verified
  {
    var th := Single(ApplyRun(run.id, token), tenant);
    var applying := run.(status := Applying);
    var t1 := Claim(t, applying, token, CandidateOf(run).payload, e.now);
    StepAlone(t, th, e, 0, 6);
    StepAlone(t, Inner(ClaimApply, run, token, None, tenant), e, 0, 5);
    StepAlone(t1, Inner(WriteDestination, applying, token, None, tenant), e, 0, 4);
    CheckedFinish(t1, applying, token, tenant, e, ReceiptFor(CandidateOf(run), commit));
  }

  lemma CheckedFinish(t: Tables, run: RunDoc, token: Token, tenant: string, e: Env, receipt: Receipt)
    requires run.id in t.runs && HasCandidate(run) && BoundAssignment(t, run, tenant).Some?
    requires e.measured == Some(run.analysis.value.projectedAfter)
    ensures var t' := Alone(t, Inner(CheckProjection, run, token, Some(receipt), tenant), e, 0, 3).0;
            run.id in t'.runs && t'.runs[run.id].doc == Finished(run, receipt, e.now)
  {
    StepAlone(t, Inner(CheckProjection, run, token, Some(receipt), tenant), e, 0, 3);
    if receipt.kind.LocalArtifact? {
      var t1 := t.(artifacts := t.artifacts[run.id := receipt.artifact]);
      StepAlone(t, Inner(StoreArtifact, run, token, Some(receipt), tenant), e, 0, 2);
      StepAlone(t1, Inner(SaveApplied, run, token, Some(receipt), tenant), e, 0, 1);
    } else {
      StepAlone(t, Inner(SaveApplied, run, token, Some(receipt), tenant), e, 0, 2);
      DoneAlone(Save(t, Finished(run, receipt, e.now), e.now).value,
                Return(Inner(SaveApplied, run, token, Some(receipt), tenant), RunReply(Finished(run, receipt, e.now))), e, 0, 1);
    }
  }
}
