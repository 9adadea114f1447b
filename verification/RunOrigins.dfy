/** Where the recorded history comes from: who named a token's hash, which answer a fact is, whose rows a step touches. */
module RunOrigins {
  import opened Domain
  import opened RunInvariant
  import opened RunProtocol
  import opened RunTables
  import opened RunTheorems
  import opened Wrappers

  // ---------------------------------------------------------------- facts

  /** The step in which the outside world gives this answer, and the thread that asked for it. */
  ghost predicate Answers(w: World, ev: Event, f: Fact) {
    && ev.Step? && ev.tid in w.threads && w.threads[ev.tid].pc.At?
    && var th := w.threads[ev.tid];
       match f
       case Measurement(snapshot, body, metrics) =>
         && th.pc.point.CheckProjection? && HasCandidate(th.pc.run) && CandidateOf(th.pc.run).body == body
         && GetAssignment(w.t, th.pc.run.assignmentId, th.tenant).Some?
         && SnapshotSha(GetAssignment(w.t, th.pc.run.assignmentId, th.tenant).value) == snapshot
         && ev.env.measured == Some(metrics)
       case CiReading(run, repository, commit, ci, at) =>
         && th.pc.point.ReadCi? && th.pc.run.id == run && th.pc.run.receipt.Some?
         && th.pc.run.receipt.value.repository == Some(repository) && th.pc.run.receipt.value.commit == Some(commit)
         && ev.env.ci == Some(ci) && ev.env.now == at
  }

  lemma NewFactIsAnswer(w: World, ev: Event, f: Fact)
    requires f in Next(w, ev).facts && f !in w.facts
    ensures Answers(w, ev, f)
  {
    if ev.Step? && ev.tid in w.threads {
      ObservedIsAnswer(w, ev.tid, ev.env, f);
    }
  }

  lemma ObservedIsAnswer(w: World, tid: nat, env: Env, f: Fact)
    requires tid in w.threads && f in Next(w, Step(tid, env)).facts && f !in w.facts
    ensures Answers(w, Step(tid, env), f)
  {
    var r := Advance(w.t, w.threads[tid], env, w.nextToken);
    RecordThreads(w, r.0, w.threads[tid := r.1], r.2);
    assert r.2 == Observed(f);
    assert w.threads[tid].pc.At?;
  }

  /** Every recorded fact was answered to a thread that asked for it, at some step of the history. */
  lemma {:induction false} FactWasAnswered(events: seq<Event>, f: Fact)
    requires f in Reach(EMPTY, events).facts
    ensures exists k :: 0 <= k < |events| && Answers(Reach(EMPTY, events[..k]), events[k], f)
  {
    var n := |events| - 1;
    if f in Reach(EMPTY, events[..n]).facts {
      FactWasAnswered(events[..n], f);
      var k :| 0 <= k < n && Answers(Reach(EMPTY, events[..n][..k]), events[..n][k], f);
      assert events[..n][..k] == events[..k];
    } else {
      NewFactIsAnswer(Reach(EMPTY, events[..n]), events[n], f);
    }
  }

  // ---------------------------------------------------------------- tenants

  predicate OwnsRow(t: Tables, id: string, tenant: string) {
    id in t.runs && t.runs[id].owner == tenant
  }

  /** A thread holds copies of its own tenant's runs, and a recovery pass knows whose the others are. */
  ghost predicate HoldsOwn(t: Tables, th: Thread) {
    && (th.pc.At? || th.pc.Approving? ==> OwnsRow(t, th.pc.run.id, th.tenant))
    && (forall i :: 0 <= i < |th.work| ==> OwnsRow(t, th.work[i].1.id, th.work[i].0))
  }

  predicate SameRow(t: Tables, t': Tables, id: string) {
    && id in t.runs && id in t'.runs && t'.runs[id] == t.runs[id]
    && (id in t'.approvals <==> id in t.approvals)
    && (id in t.approvals ==> t'.approvals[id] == t.approvals[id])
  }

  /** Owners stay, and the rows and approvals of all other tenants' runs are untouched. */
  ghost predicate OnlyTouches(t: Tables, t': Tables, tenant: string) {
    forall id | id in t.runs ::
      && id in t'.runs && t'.runs[id].owner == t.runs[id].owner
      && (t.runs[id].owner != tenant ==> SameRow(t, t', id))
  }

  lemma HoldsOwnLater(t: Tables, t': Tables, th: Thread, tenant: string)
    requires HoldsOwn(t, th) && OnlyTouches(t, t', tenant)
    ensures HoldsOwn(t', th)
  {
  }

  /** What one step does to the tables, and what its thread holds afterwards. */
  ghost predicate KeepsToItself(t: Tables, th: Thread, r: Outcome) {
    OnlyTouches(t, r.0, th.tenant) && HoldsOwn(r.0, r.1)
  }

  lemma SaveKeepsToItself(t: Tables, th: Thread, d: RunDoc, now: int, ok: Thread, missing: Thread)
    requires OwnsRow(t, d.id, th.tenant) && HoldsOwn(t, ok) && HoldsOwn(t, missing)
    ensures KeepsToItself(t, th, SaveThen(t, d, now, ok, missing))
  {
    HoldsOwnLater(t, SaveThen(t, d, now, ok, missing).0, ok, th.tenant);
  }

  lemma EnterHoldsOwn(w: World, th: Thread, call: Call, e: Env)
    requires RowsOk(w) && HoldsOwn(w.t, th)
    ensures HoldsOwn(w.t, Enter(w.t, th, call, e))
  {
    if !call.CreateRun? && !call.RecoverRuns? && Get(w.t, call.id, th.tenant).Some? {
      assert OwnsRow(w.t, Get(w.t, call.id, th.tenant).value.id, th.tenant);
    }
  }

  lemma InsertAddsOnly(t: Tables, th: Thread, run: RunDoc, key: string, e: Env)
    ensures var r := InsertRun(t, th, run, key, e);
      && OnlyTouches(t, r.0, th.tenant) && (r.1 == Dead(th) || (!r.1.pc.At? && !r.1.pc.Approving? && r.1.work == th.work))
  {
  }

  lemma InsertKeepsToItself(w: World, th: Thread, run: RunDoc, key: string, e: Env)
    requires RowsOk(w) && HoldsOwn(w.t, th)
    ensures KeepsToItself(w.t, th, InsertRun(w.t, th, run, key, e))
  {
    var r := InsertRun(w.t, th, run, key, e);
    InsertAddsOnly(w.t, th, run, key, e);
    HoldsOwnLater(w.t, r.0, Dead(th), th.tenant);
  }

  lemma AnalyzeKeepsToItself(t: Tables, th: Thread, point: Point, run: RunDoc, e: Env)
    requires HoldsOwn(t, th) && OwnsRow(t, run.id, th.tenant) && InAnalyze(point)
    ensures KeepsToItself(t, th, AnalyzeStep(t, th, point, run, e))
  {
    match point
    case MarkAnalyzing => SaveKeepsToItself(t, th, run, e.now, Goto(th, Load, run), Goto(th, SaveFailure, run));
    case SaveAnalysis => SaveKeepsToItself(t, th, run, e.now, Goto(th, NotifyApproval, run), Goto(th, SaveFailure, run));
    case SaveFailure =>
      SaveKeepsToItself(t, th, run.(status := Failed, error := Some(AnalysisStopped)), e.now, Return(th, Nothing), Dead(th));
    case _ =>
  }

  lemma ApproveKeepsToItself(t: Tables, th: Thread, run: RunDoc, named: BodyDigest, issued: Option<Token>, e: Env,
      nextToken: Token)
    requires HoldsOwn(t, th) && OwnsRow(t, run.id, th.tenant)
    ensures KeepsToItself(t, th, ApproveStep(t, th, run, named, issued, e, nextToken))
  {
    if issued.Some? {
      SaveKeepsToItself(t, th, run.(status := Approved, approvalPayload := Some(named)), e.now,
                        Return(th, Granted(issued.value, named)), Dead(th));
    }
  }

  lemma ApplyKeepsToItself(t: Tables, th: Thread, point: Point, run: RunDoc, token: Token, receipt: Option<Receipt>,
      e: Env)
    requires HoldsOwn(t, th) && OwnsRow(t, run.id, th.tenant) && HasCandidate(run) && (point.ClaimApply? || Claimed(point))
    ensures KeepsToItself(t, th, ApplyStep(t, th, point, run, token, receipt, e))
  {
    if point.SaveApplied? && receipt.Some? {
      var finished := Finished(run, receipt.value, e.now);
      AppliedStep(t, th, run, token, receipt.value, e);
      SaveKeepsToItself(t, th, finished, e.now, Return(th, RunReply(finished)), Dead(th));
    } else if point.SaveRetry? {
      SaveKeepsToItself(t, th, run.(status := Approved, error := Some(ReauthorizePayload)), e.now, Dead(th), Dead(th));
    }
  }

  lemma PollKeepsToItself(t: Tables, th: Thread, point: Point, run: RunDoc, e: Env)
    requires HoldsOwn(t, th) && OwnsRow(t, run.id, th.tenant)
    ensures KeepsToItself(t, th, PollStep(t, th, point, run, e))
  {
    if !point.ReadCi? {
      SaveKeepsToItself(t, th, run, e.now, Return(th, RunReply(run)), Dead(th));
    }
  }

  lemma RecoverKeepsToItself(t: Tables, th: Thread, point: Point, run: RunDoc, e: Env)
    requires HoldsOwn(t, th) && OwnsRow(t, run.id, th.tenant)
    ensures KeepsToItself(t, th, RecoverStep(t, th, point, run, e))
  {
    SaveKeepsToItself(t, th, run, e.now, if point.Requeue? then th.(pc := Start(AnalyzeRun(run.id))) else Return(th, Nothing),
                      Dead(th));
  }

  lemma TakeNextHoldsOwn(t: Tables, th: Thread)
    requires HoldsOwn(t, th)
    ensures HoldsOwn(t, TakeNext(th))
  {
    if th.work != [] {
      assert forall i :: 0 <= i < |th.work[1..]| ==> th.work[1..][i] == th.work[i + 1];
    }
  }

  lemma InsideKeepsToItself(t: Tables, th: Thread, e: Env, nextToken: Token)
    requires HoldsOwn(t, th) && th.pc.At? && (th.pc.point.ClaimApply? || Claimed(th.pc.point) ==> HasCandidate(th.pc.run))
    ensures KeepsToItself(t, th, Advance(t, th, e, nextToken))
  {
    var pc := th.pc;
    if InAnalyze(pc.point) {
      AnalyzeKeepsToItself(t, th, pc.point, pc.run, e);
    } else if pc.point.ClaimApply? || Claimed(pc.point) {
      ApplyKeepsToItself(t, th, pc.point, pc.run, pc.token, pc.receipt, e);
    } else if InPoll(pc.point) {
      PollKeepsToItself(t, th, pc.point, pc.run, e);
    } else {
      RecoverKeepsToItself(t, th, pc.point, pc.run, e);
    }
  }

  lemma AdvanceKeepsToItself(w: World, th: Thread, e: Env, nextToken: Token)
    requires RowsOk(w) && ThreadOk(th, w) && HoldsOwn(w.t, th)
    ensures KeepsToItself(w.t, th, Advance(w.t, th, e, nextToken))
  {
    match th.pc
    case Start(call) => EnterHoldsOwn(w, th, call, e);
    case Insert(run, key) => InsertKeepsToItself(w, th, run, key, e);
    case At(_, _, _, _) => InsideKeepsToItself(w.t, th, e, nextToken);
    case Approving(run, named, issued) => ApproveKeepsToItself(w.t, th, run, named, issued, e, nextToken);
    case NextInList => TakeNextHoldsOwn(w.t, th);
    case Done(_) =>
  }

  ghost predicate AllHoldOwn(w: World) {
    forall tid | tid in w.threads :: HoldsOwn(w.t, w.threads[tid])
  }

  lemma OthersHoldOwn(w: World, tenant: string, t: Tables, threads: map<nat, Thread>)
    requires AllHoldOwn(w) && OnlyTouches(w.t, t, tenant)
    requires forall q | q in threads :: HoldsOwn(t, threads[q]) || (q in w.threads && threads[q] == w.threads[q])
    ensures forall q | q in threads :: HoldsOwn(t, threads[q])
  {
    forall q | q in threads ensures HoldsOwn(t, threads[q]) {
      if !HoldsOwn(t, threads[q]) { HoldsOwnLater(w.t, t, threads[q], tenant); }
    }
  }

  lemma StepParts(w: World, tid: nat, env: Env)
    requires tid in w.threads
    ensures var r := Advance(w.t, w.threads[tid], env, w.nextToken);
            Next(w, Step(tid, env)).t == r.0 && Next(w, Step(tid, env)).threads == w.threads[tid := r.1]
  {
  }

  lemma TouchedOwn(w: World, w': World, tid: nat, r: Outcome)
    requires AllHoldOwn(w) && tid in w.threads && KeepsToItself(w.t, w.threads[tid], r)
    requires w'.t == r.0 && w'.threads == w.threads[tid := r.1]
    ensures OnlyTouches(w.t, w'.t, w.threads[tid].tenant) && AllHoldOwn(w')
  {
    OthersHoldOwn(w, w.threads[tid].tenant, r.0, w'.threads);
  }

  lemma StepTouchesOwn(w: World, tid: nat, env: Env)
    requires Inv(w) && AllHoldOwn(w) && tid in w.threads
    ensures OnlyTouches(w.t, Next(w, Step(tid, env)).t, w.threads[tid].tenant)
    ensures AllHoldOwn(Next(w, Step(tid, env)))
  {
    StepParts(w, tid, env);
    AdvanceKeepsToItself(w, w.threads[tid], env, w.nextToken);
    TouchedOwn(w, Next(w, Step(tid, env)), tid, Advance(w.t, w.threads[tid], env, w.nextToken));
  }

  lemma NextHoldsOwn(w: World, ev: Event)
    requires Inv(w) && AllHoldOwn(w)
    ensures AllHoldOwn(Next(w, ev))
  {
    if ev.Step? && ev.tid in w.threads {
      StepTouchesOwn(w, ev.tid, ev.env);
    } else if ev.Ingest? {
      IngestChanges(w, ev.snapshot, ev.tenant);
    }
  }

  lemma {:induction false} ReachHoldsOwn(events: seq<Event>)
    ensures AllHoldOwn(Reach(EMPTY, events))
  {
    if events != [] {
      ReachKeepsInv(events[..|events| - 1]);
      ReachHoldsOwn(events[..|events| - 1]);
      NextHoldsOwn(Reach(EMPTY, events[..|events| - 1]), events[|events| - 1]);
    }
  }

  /**
    In every interleaving, an event changes the row or the approval of a stored run only as a step of a thread
    that works for the run's owner, and no run ever changes its owner.
  */
  lemma OnlyTheOwnerTouches(events: seq<Event>, ev: Event, id: string)
    requires id in Reach(EMPTY, events).t.runs
    ensures var w, w' := Reach(EMPTY, events), Next(Reach(EMPTY, events), ev);
      && id in w'.t.runs && w'.t.runs[id].owner == w.t.runs[id].owner
      && (!SameRow(w.t, w'.t, id) ==>
            ev.Step? && ev.tid in w.threads && w.threads[ev.tid].tenant == w.t.runs[id].owner)
  {
    var w := Reach(EMPTY, events);
    ReachKeepsInv(events);
    ReachHoldsOwn(events);
    if ev.Step? && ev.tid in w.threads {
      StepTouchesOwn(w, ev.tid, ev.env);
    } else if ev.Ingest? {
      IngestChanges(w, ev.snapshot, ev.tenant);
    }
  }

  // ---------------------------------------------------------------- who named a token's hash

  /** Somebody of this tenant called for the approval of this hash for the run. */
  ghost predicate Named(events: seq<Event>, run: string, named: BodyDigest, tenant: string) {
    exists k :: 0 <= k < |events| && events[k].Spawn? && events[k].call == ApproveRun(run, named) && events[k].tenant == tenant
  }

  lemma NamedLater(events: seq<Event>, ev: Event, run: string, named: BodyDigest, tenant: string)
    requires Named(events, run, named, tenant)
    ensures Named(events + [ev], run, named, tenant)
  {
    var k :| 0 <= k < |events| && events[k].Spawn? && events[k].call == ApproveRun(run, named) && events[k].tenant == tenant;
    assert (events + [ev])[k] == events[k];
  }

  /** An approving thread carries the hash its caller named. */
  ghost predicate CarriesNamed(events: seq<Event>, th: Thread) {
    && (th.pc.Start? && th.pc.call.ApproveRun? ==> Named(events, th.pc.call.id, th.pc.call.payload, th.tenant))
    && (th.pc.Approving? ==> Named(events, th.pc.run.id, th.pc.named, th.tenant))
  }

  lemma CarriesNamedLater(events: seq<Event>, ev: Event, th: Thread)
    requires CarriesNamed(events, th)
    ensures CarriesNamed(events + [ev], th)
  {
    if th.pc.Start? && th.pc.call.ApproveRun? {
      NamedLater(events, ev, th.pc.call.id, th.pc.call.payload, th.tenant);
    }
    if th.pc.Approving? {
      NamedLater(events, ev, th.pc.run.id, th.pc.named, th.tenant);
    }
  }

  predicate Asks(pc: Pc) {
    pc.Approving? || (pc.Start? && pc.call.ApproveRun?)
  }

  lemma InsideNeverAsks(t: Tables, th: Thread, e: Env)
    requires th.pc.At?
    ensures !Asks(Inside(t, th, th.pc.point, th.pc.run, th.pc.token, th.pc.receipt, e).1.pc)
  {
  }

  lemma EnterAsks(w: World, th: Thread, call: Call, e: Env)
    requires RowsOk(w)
    ensures var next := Enter(w.t, th, call, e);
      Asks(next.pc) ==>
        && call.ApproveRun? && next.tenant == th.tenant
        && next.pc.Approving? && next.pc.run.id == call.id && next.pc.named == call.payload
  {
  }

  lemma OnlyApproversAsk(w: World, th: Thread, e: Env)
    requires RowsOk(w) && !th.pc.Approving? && !th.pc.Start?
    ensures !Asks(Advance(w.t, th, e, w.nextToken).1.pc)
  {
    if th.pc.At? { InsideNeverAsks(w.t, th, e); }
  }

  lemma AdvanceCarries(events: seq<Event>, w: World, th: Thread, e: Env)
    requires RowsOk(w) && CarriesNamed(events, th)
    ensures CarriesNamed(events, Advance(w.t, th, e, w.nextToken).1)
  {
    if th.pc.Start? {
      EnterAsks(w, th, th.pc.call, e);
    } else if !th.pc.Approving? {
      OnlyApproversAsk(w, th, e);
    }
  }

  lemma IssuedCarries(events: seq<Event>, w: World, th: Thread, e: Env)
    requires CarriesNamed(events, th) && HoldsOwn(w.t, th) && Advance(w.t, th, e, w.nextToken).2.Issued?
    ensures var f := Advance(w.t, th, e, w.nextToken).2;
            OwnsRow(w.t, f.run, th.tenant) && Named(events, f.run, f.named, th.tenant)
  {
  }

  /** Every token was issued for the hash that somebody of the run's owner named. */
  ghost predicate IssuesNamed(events: seq<Event>, w: World) {
    forall token | token in w.issued ::
      && w.issued[token].run in w.t.runs
      && Named(events, w.issued[token].run, w.issued[token].named, w.t.runs[w.issued[token].run].owner)
  }

  ghost predicate AllCarry(events: seq<Event>, w: World) {
    forall tid | tid in w.threads :: CarriesNamed(events, w.threads[tid])
  }

  lemma IssuesNamedLater(events: seq<Event>, ev: Event, w: World, w': World)
    requires IssuesNamed(events, w) && w'.issued == w.issued
    requires forall id | id in w.t.runs :: id in w'.t.runs && w'.t.runs[id].owner == w.t.runs[id].owner
    ensures IssuesNamed(events + [ev], w')
  {
    forall token | token in w'.issued
      ensures w'.issued[token].run in w'.t.runs
      ensures Named(events + [ev], w'.issued[token].run, w'.issued[token].named, w'.t.runs[w'.issued[token].run].owner)
    {
      NamedLater(events, ev, w.issued[token].run, w.issued[token].named, w.t.runs[w.issued[token].run].owner);
    }
  }

  lemma IssuedNamed(events: seq<Event>, ev: Event, w: World, w': World, token: Token, run: string, named: BodyDigest)
    requires IssuesNamed(events, w) && w'.issued == w.issued[token := Issue(run, named)]
    requires forall id | id in w.t.runs :: id in w'.t.runs && w'.t.runs[id].owner == w.t.runs[id].owner
    requires run in w.t.runs && Named(events, run, named, w.t.runs[run].owner)
    ensures IssuesNamed(events + [ev], w')
  {
    NamedLater(events, ev, run, named, w.t.runs[run].owner);
    forall earlier | earlier in w.issued
      ensures w.issued[earlier].run in w'.t.runs
      ensures Named(events + [ev], w.issued[earlier].run, w.issued[earlier].named, w'.t.runs[w.issued[earlier].run].owner)
    {
      NamedLater(events, ev, w.issued[earlier].run, w.issued[earlier].named, w.t.runs[w.issued[earlier].run].owner);
    }
  }

  lemma StepIssues(events: seq<Event>, w: World, tid: nat, env: Env)
    requires Inv(w) && AllHoldOwn(w) && AllCarry(events, w) && IssuesNamed(events, w) && tid in w.threads
    ensures IssuesNamed(events + [Step(tid, env)], Next(w, Step(tid, env)))
  {
    var th := w.threads[tid];
    var w', r := Next(w, Step(tid, env)), Advance(w.t, th, env, w.nextToken);
    RecordThreads(w, r.0, w.threads[tid := r.1], r.2);
    StepTouchesOwn(w, tid, env);
    if r.2.Issued? {
      IssuedCarries(events, w, th, env);
      IssuedNamed(events, Step(tid, env), w, w', r.2.token, r.2.run, r.2.named);
    } else {
      IssuesNamedLater(events, Step(tid, env), w, w');
    }
  }

  lemma StepCarries(events: seq<Event>, w: World, tid: nat, env: Env)
    requires Inv(w) && AllCarry(events, w) && tid in w.threads
    ensures AllCarry(events + [Step(tid, env)], Next(w, Step(tid, env)))
  {
    var ev := Step(tid, env);
    StepThreads(w, tid, env);
    AdvanceCarries(events, w, w.threads[tid], env);
    forall q | q in Next(w, ev).threads ensures CarriesNamed(events + [ev], Next(w, ev).threads[q]) {
      CarriesNamedLater(events, ev, Next(w, ev).threads[q]);
    }
  }

  lemma OtherCarries(events: seq<Event>, w: World, ev: Event)
    requires AllCarry(events, w) && !ev.Step?
    ensures AllCarry(events + [ev], Next(w, ev))
  {
    forall q | q in Next(w, ev).threads ensures CarriesNamed(events + [ev], Next(w, ev).threads[q]) {
      if ev.Spawn? && q !in w.threads {
        assert (events + [ev])[|events|] == ev;
      } else if ev.Interrupt? && q == ev.tid {
      } else {
        CarriesNamedLater(events, ev, w.threads[q]);
      }
    }
  }

  lemma OtherEventsIssueNothing(w: World, ev: Event)
    requires !(ev.Step? && ev.tid in w.threads)
    ensures Next(w, ev).issued == w.issued && Next(w, ev).t.runs == w.t.runs
    ensures ev.Step? ==> Next(w, ev) == w
  {
  }

  lemma IdleStepCarries(events: seq<Event>, w: World, ev: Event)
    requires AllCarry(events, w)
    ensures AllCarry(events + [ev], w)
  {
    forall q | q in w.threads ensures CarriesNamed(events + [ev], w.threads[q]) {
      CarriesNamedLater(events, ev, w.threads[q]);
    }
  }

  lemma NextNamed(events: seq<Event>, w: World, ev: Event)
    requires Inv(w) && AllHoldOwn(w) && AllCarry(events, w) && IssuesNamed(events, w)
    ensures AllCarry(events + [ev], Next(w, ev)) && IssuesNamed(events + [ev], Next(w, ev))
  {
    if ev.Step? && ev.tid in w.threads {
      StepIssues(events, w, ev.tid, ev.env);
      StepCarries(events, w, ev.tid, ev.env);
    } else {
      OtherEventsIssueNothing(w, ev);
      IssuesNamedLater(events, ev, w, Next(w, ev));
      if ev.Step? {
        IdleStepCarries(events, w, ev);
      } else {
        OtherCarries(events, w, ev);
      }
    }
  }

  lemma {:induction false} ReachNamed(events: seq<Event>)
    ensures AllCarry(events, Reach(EMPTY, events)) && IssuesNamed(events, Reach(EMPTY, events))
  {
    if events != [] {
      var n := |events| - 1;
      ReachKeepsInv(events[..n]);
      ReachHoldsOwn(events[..n]);
      ReachNamed(events[..n]);
      NextNamed(events[..n], Reach(EMPTY, events[..n]), events[n]);
      assert events[..n] + [events[n]] == events;
    }
  }

  /**
    In every interleaving, the content an action writes was named by an approver: the run's owner called for the
    approval of exactly its hash, for this run.
  */
  lemma ApproverNamedTheContent(events: seq<Event>, i: nat)
    requires i < |Reach(EMPTY, events).actions|
    ensures var w := Reach(EMPTY, events);
            var a := w.actions[i];
      && a.run in w.t.runs
      && exists k :: 0 <= k < |events| && events[k].Spawn? && events[k].call == ApproveRun(a.run, HashBody(a.body))
                     && events[k].tenant == w.t.runs[a.run].owner
  {
    var w := Reach(EMPTY, events);
    ActionWritesWhatWasApproved(events, i);
    ReachNamed(events);
    assert Named(events, w.actions[i].run, HashBody(w.actions[i].body), w.t.runs[w.actions[i].run].owner);
  }
}
