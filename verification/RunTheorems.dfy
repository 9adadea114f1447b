/** What every interleaving of service calls, exceptions and crashes guarantees. */
module RunTheorems {
  import opened Domain
  import opened Wrappers
  import opened RunTables
  import opened RunProtocol
  import opened RunInvariant

  /** A token starts at most one destination action, ever. */
  lemma TokenStartsOneAction(events: seq<Event>, i: nat, j: nat)
    requires i < j < |Reach(EMPTY, events).actions|
    ensures Reach(EMPTY, events).actions[i].token != Reach(EMPTY, events).actions[j].token
  {
    ReachKeepsInv(events);
  }

  /** Every action writes the very content whose hash was named when its token was issued. */
  lemma ActionWritesWhatWasApproved(events: seq<Event>, i: nat)
    requires i < |Reach(EMPTY, events).actions|
    ensures var w := Reach(EMPTY, events);
            var a := w.actions[i];
            a.token in w.issued && w.issued[a.token].run == a.run && w.issued[a.token].named == HashBody(a.body)
  {
    ReachKeepsInv(events);
    assert ActionOk(Reach(EMPTY, events), Reach(EMPTY, events).actions[i]);
  }

  /** A refused claim changes no table and starts nothing. */
  lemma RefusedClaimChangesNothing(t: Tables, th: Thread, e: Env, nextToken: Token)
    requires th.pc.At? && th.pc.point.ClaimApply?
    ensures var r := Advance(t, th, e, nextToken);
            !r.2.Started? <==> r.0 == t && r.2 == NoEffect && r.1 == Dead(th)
    ensures Advance(t, th, e, nextToken).2.Started? <==>
            HasCandidate(th.pc.run) && CanClaim(t, th.pc.run, th.pc.token, CandidateOf(th.pc.run).payload)
  {
    if HasCandidate(th.pc.run) && CanClaim(t, th.pc.run, th.pc.token, CandidateOf(th.pc.run).payload) {
      assert CanClaim(t, th.pc.run.(status := Applying), th.pc.token, CandidateOf(th.pc.run).payload);
    }
  }

  /** The history is only ever extended, and a run's snapshot binding never changes. */
  lemma {:induction false} HistoryGrows(w: World, more: seq<Event>)
    requires Inv(w)
    ensures w.actions <= Reach(w, more).actions
    ensures Grows(w, Reach(w, more)) && Inv(Reach(w, more))
  {
    if more != [] {
      HistoryGrows(w, more[..|more| - 1]);
      NextKeepsInv(Reach(w, more[..|more| - 1]), more[|more| - 1]);
      NextGrows(Reach(w, more[..|more| - 1]), more[|more| - 1]);
    }
  }

  lemma StepGrows(w: World, tid: nat, env: Env)
    requires Inv(w) && tid in w.threads
    ensures w.actions <= Next(w, Step(tid, env)).actions && Grows(w, Next(w, Step(tid, env)))
  {
    var r := Advance(w.t, w.threads[tid], env, w.nextToken);
    AdvanceOk(w, w.threads[tid], env);
    RecordThreads(w, r.0, w.threads[tid := r.1], r.2);
    RecordGrows(w.(t := r.0), r.2);
  }

  lemma RecordGrows(w: World, f: Effect)
    ensures w.actions <= Record(w, f).actions
  {
  }

  lemma NextGrows(w: World, ev: Event)
    requires Inv(w)
    ensures w.actions <= Next(w, ev).actions && Grows(w, Next(w, ev))
  {
    if ev.Step? && ev.tid in w.threads {
      StepGrows(w, ev.tid, ev.env);
    }
  }

  /** What a stored VERIFIED run proves, in every reachable world. */
  ghost predicate VerifiedEvidence(w: World, id: string, d: RunDoc) {
    && HasCandidate(d) && d.receipt.Some?
    && d.receipt.value.readBackVerified
    && d.receipt.value.artifact == HashBytes(CandidateOf(d).body.source) && d.artifactSha == Some(d.receipt.value.artifact)
    && CandidateOf(d).payload == HashBody(CandidateOf(d).body)
    && id in w.bound
    && Measurement(w.bound[id], CandidateOf(d).body, d.analysis.value.projectedAfter) in w.facts
  }

  lemma StoredVerifiedRun(events: seq<Event>, id: string)
    requires var w := Reach(EMPTY, events); id in w.t.runs && w.t.runs[id].doc.status == Verified
    ensures VerifiedEvidence(Reach(EMPTY, events), id, Reach(EMPTY, events).t.runs[id].doc)
  {
    ReachKeepsInv(events);
  }

  /**
    Not every VERIFIED GitHub run passed its target's CI: it did exactly when its receipt carries the
    commit the write created, and then the check runs of that very commit were read to have succeeded.
    A write that finds the bytes already there has no commit.
  */
  lemma VerifiedPassedCiIffCommitted(events: seq<Event>, id: string)
    requires var w := Reach(EMPTY, events); id in w.t.runs && w.t.runs[id].doc.status == Verified
    ensures var d := Reach(EMPTY, events).t.runs[id].doc;
            d.receipt.Some? && (d.receipt.value.ciVerified <==> d.receipt.value.commit.Some?)
            && (d.receipt.value.kind.LocalArtifact? ==> d.receipt.value.commit.None?)
    ensures var w := Reach(EMPTY, events);
            var r := w.t.runs[id].doc.receipt.value;
            r.commit.Some? ==>
              && r.repository.Some? && r.ciCompletedAt.Some? && r.ciConclusion == Some(Passed)
              && CiReading(id, r.repository.value, r.commit.value, CiSuccess, r.ciCompletedAt.value) in w.facts
  {
    ReachKeepsInv(events);
  }

  /** Wherever a stored run says its target's CI passed, a successful reading of its own commit was recorded. */
  lemma PassedCiWasRead(events: seq<Event>, id: string)
    requires id in Reach(EMPTY, events).t.runs
    ensures var w := Reach(EMPTY, events);
            var receipt := w.t.runs[id].doc.receipt;
            receipt.Some? && receipt.value.ciVerified ==>
              && receipt.value.repository.Some? && receipt.value.commit.Some? && receipt.value.ciCompletedAt.Some?
              && CiReading(id, receipt.value.repository.value, receipt.value.commit.value, CiSuccess, receipt.value.ciCompletedAt.value)
                 in w.facts
  {
    ReachKeepsInv(events);
  }

  lemma FailedReading(d: RunDoc, facts: set<Fact>) returns (ci: CiStatus)
    requires FailedInCi(d, facts)
    ensures WasRead(d, ci, facts) && d.receipt.value.ciStartedAt.Some?
    ensures ci.CiFailure? ==> d.receipt.value.ciConclusion == Some(Concluded(ci.conclusion))
    ensures !ci.CiFailure? ==>
              && ci == CiPending && d.receipt.value.ciConclusion == Some(TimedOut)
              && d.receipt.value.ciCompletedAt.value - d.receipt.value.ciStartedAt.value > 600
  {
    match d.receipt.value.ciConclusion.value
    case Concluded(conclusion) => ci := CiFailure(conclusion);
    case _ => ci := CiPending;
  }

  /**
    A stored EXTERNAL_CI_FAILED run has a recorded reading of its own commit: the failing one it names, or,
    when it says the CI timed out, a pending one taken more than ten minutes after the write.
  */
  lemma FailedCiWasRead(events: seq<Event>, id: string)
    requires var w := Reach(EMPTY, events); id in w.t.runs && w.t.runs[id].doc.status == ExternalCiFailed
    ensures var w := Reach(EMPTY, events);
            var receipt := w.t.runs[id].doc.receipt;
            && receipt.Some? && receipt.value.repository.Some? && receipt.value.commit.Some?
            && receipt.value.ciStartedAt.Some? && receipt.value.ciCompletedAt.Some? && !receipt.value.ciVerified
            && exists ci ::
                 && CiReading(id, receipt.value.repository.value, receipt.value.commit.value, ci, receipt.value.ciCompletedAt.value)
                    in w.facts
                 && (ci.CiFailure? ==> receipt.value.ciConclusion == Some(Concluded(ci.conclusion)))
                 && (!ci.CiFailure? ==>
                       && ci == CiPending && receipt.value.ciConclusion == Some(TimedOut)
                       && receipt.value.ciCompletedAt.value - receipt.value.ciStartedAt.value > 600)
  {
    ReachKeepsInv(events);
    var _ := FailedReading(Reach(EMPTY, events).t.runs[id].doc, Reach(EMPTY, events).facts);
  }

  // ---------------------------------------------------------------- writes in flight

  predicate InFlight(th: Thread) {
    th.pc.At? && th.pc.point.WriteDestination?
  }

  /** Every write in flight has its own action, so no token has two. */
  ghost predicate FlightsOk(w: World) {
    && (forall tid | tid in w.threads && InFlight(w.threads[tid]) ::
          exists i :: 0 <= i < |w.actions| && w.actions[i].token == w.threads[tid].pc.token)
    && (forall p, q | p in w.threads && q in w.threads && p != q && InFlight(w.threads[p]) && InFlight(w.threads[q]) ::
          w.threads[p].pc.token != w.threads[q].pc.token)
  }

  lemma FlightComesFromClaim(t: Tables, th: Thread, e: Env, nextToken: Token)
    requires InFlight(Advance(t, th, e, nextToken).1)
    ensures var r := Advance(t, th, e, nextToken); r.2.Started? && r.1.pc.token == r.2.action.token
  {
  }

  lemma NextKeepsFlights(w: World, ev: Event)
    requires Inv(w) && FlightsOk(w)
    ensures FlightsOk(Next(w, ev))
  {
    if ev.Step? && ev.tid in w.threads {
      StepKeepsFlights(w, ev.tid, ev.env);
    }
  }

  lemma StepThreads(w: World, tid: nat, env: Env)
    requires tid in w.threads
    ensures var r := Advance(w.t, w.threads[tid], env, w.nextToken);
            var w' := Next(w, Step(tid, env));
            && w'.threads == w.threads[tid := r.1] && w.actions <= w'.actions
            && (r.2.Started? ==> w'.actions == w.actions + [r.2.action])
  {
    var r := Advance(w.t, w.threads[tid], env, w.nextToken);
    RecordThreads(w, r.0, w.threads[tid := r.1], r.2);
  }

  lemma StepKeepsFlights(w: World, tid: nat, env: Env)
    requires Inv(w) && FlightsOk(w) && tid in w.threads
    ensures FlightsOk(Next(w, Step(tid, env)))
  {
    var r := Advance(w.t, w.threads[tid], env, w.nextToken);
    StepThreads(w, tid, env);
    if InFlight(r.1) {
      FlightComesFromClaim(w.t, w.threads[tid], env, w.nextToken);
      ClaimEffect(w.t, w.threads[tid], env, w.nextToken);
      ClaimKeepsFlights(w, Next(w, Step(tid, env)), tid, r.2.action);
    } else {
      LandingKeepsFlights(w, Next(w, Step(tid, env)), tid);
    }
  }

  lemma ClaimKeepsFlights(w: World, w': World, tid: nat, a: Action)
    requires TokensOk(w) && FlightsOk(w) && ApprovalMatches(w.t, a.run, a.token, a.payload)
    requires w'.actions == w.actions + [a] && tid in w'.threads && InFlight(w'.threads[tid]) && w'.threads[tid].pc.token == a.token
    requires forall p | p in w'.threads && p != tid :: p in w.threads && w'.threads[p] == w.threads[p]
    ensures FlightsOk(w')
  {
    assert w'.actions[|w.actions|] == a;
    forall i | 0 <= i < |w.actions| ensures w.actions[i].token != a.token && w'.actions[i] == w.actions[i] {
      assert ActionOk(w, w.actions[i]);
    }
  }

  lemma LandingKeepsFlights(w: World, w': World, tid: nat)
    requires FlightsOk(w) && w.actions <= w'.actions && tid in w'.threads && !InFlight(w'.threads[tid])
    requires forall p | p in w'.threads && p != tid :: p in w.threads && w'.threads[p] == w.threads[p]
    ensures FlightsOk(w')
  {
    forall p | p in w'.threads && InFlight(w'.threads[p])
      ensures exists i :: 0 <= i < |w'.actions| && w'.actions[i].token == w'.threads[p].pc.token
    {
      var i :| 0 <= i < |w.actions| && w.actions[i].token == w.threads[p].pc.token;
      assert w'.actions[i] == w.actions[i];
    }
  }

  /** At most one destination write is in flight per approval token. */
  lemma {:induction false} OneWriteInFlightPerToken(events: seq<Event>)
    ensures FlightsOk(Reach(EMPTY, events))
  {
    if events != [] {
      ReachKeepsInv(events[..|events| - 1]);
      OneWriteInFlightPerToken(events[..|events| - 1]);
      NextKeepsFlights(Reach(EMPTY, events[..|events| - 1]), events[|events| - 1]);
    }
  }
}
