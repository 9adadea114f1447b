/** Every step of every interleaving keeps the lifecycle invariant; what follows for stored runs and tokens. */
module RunInvariant {
  import opened Domain
  import opened Wrappers
  import opened RunTables
  import opened RunProtocol

  // ---------------------------------------------------------------- monotonicity

  ghost predicate Grows(w: World, w': World) {
    && w.facts <= w'.facts
    && (forall id | id in w.bound :: id in w'.bound && w'.bound[id] == w.bound[id])
  }

  lemma DocOkGrows(d: RunDoc, w: World, w': World)
    requires Grows(w, w') && DocOk(d, w.bound, w.facts)
    ensures DocOk(d, w'.bound, w'.facts)
  {
  }

  lemma ThreadOkGrows(th: Thread, w: World, w': World)
    requires Grows(w, w') && ThreadOk(th, w)
    ensures ThreadOk(th, w')
  {
    if th.pc.At? { DocOkGrows(th.pc.run, w, w'); }
    forall i | 0 <= i < |th.work| ensures DocOk(th.work[i].1, w'.bound, w'.facts) {
      DocOkGrows(th.work[i].1, w, w');
    }
  }

  lemma RowsOkGrow(w: World, w': World)
    requires RowsOk(w) && Grows(w, w') && w'.t.runs == w.t.runs && w'.bound == w.bound
    ensures RowsOk(w')
  {
    forall id | id in w'.t.runs ensures DocOk(w'.t.runs[id].doc, w'.bound, w'.facts) {
      DocOkGrows(w.t.runs[id].doc, w, w');
    }
  }

  // ---------------------------------------------------------------- rows and local copies, step by step

  ghost predicate StepOk(w: World, r: Outcome) {
    var w' := Record(w.(t := r.0), r.2);
    RowsOk(w') && Grows(w, w') && ThreadOk(r.1, w')
  }

  lemma LocalOk(w: World, th: Thread)
    requires RowsOk(w) && ThreadOk(th, w)
    ensures StepOk(w, (w.t, th, NoEffect))
  {
    assert w.(t := w.t) == w;
  }

  /** Replacing one row by a sound document keeps all rows sound. */
  lemma RowReplacedOk(w: World, w': World, d: RunDoc, row: Row)
    requires RowsOk(w) && d.id in w.t.runs && row.doc == d && DocOk(d, w.bound, w.facts)
    requires w'.t.runs == w.t.runs[d.id := row] && w'.bound == w.bound && w'.facts == w.facts
    ensures RowsOk(w') && Grows(w, w')
  {
    assert w'.t.runs.Keys == w.t.runs.Keys;
    forall id | id in w'.t.runs ensures w'.t.runs[id].doc.id == id && DocOk(w'.t.runs[id].doc, w'.bound, w'.facts) {
      if id != d.id { assert w'.t.runs[id] == w.t.runs[id]; }
    }
  }

  lemma SaveThenOk(w: World, d: RunDoc, now: int, ok: Thread, missing: Thread)
    requires RowsOk(w) && DocOk(d, w.bound, w.facts) && ThreadOk(ok, w)
    ensures StepOk(w, SaveThen(w.t, d, now, ok, missing))
  {
    assert d.id in w.t.runs.Keys;
    var w' := w.(t := Save(w.t, d, now).value);
    RowReplacedOk(w, w', d, Row(w.t.runs[d.id].owner, d, now));
    ThreadOkGrows(ok, w, w');
  }

  /** Save the document and return it: the usual end of a call. */
  lemma SaveReturnOk(w: World, th: Thread, d: RunDoc, now: int, reply: Reply)
    requires RowsOk(w) && ThreadOk(th, w) && DocOk(d, w.bound, w.facts)
    ensures StepOk(w, SaveThen(w.t, d, now, Return(th, reply), Dead(th)))
    ensures StepOk(w, SaveThen(w.t, d, now, Dead(th), Dead(th)))
  {
    SaveThenOk(w, d, now, Return(th, reply), Dead(th));
    SaveThenOk(w, d, now, Dead(th), Dead(th));
  }

  lemma GotoOk(w: World, th: Thread, point: Point, run: RunDoc, token: Token, receipt: Option<Receipt>)
    requires ThreadOk(th, w) && DocOk(run, w.bound, w.facts) && PointOk(point, run, receipt, w.facts)
    ensures ThreadOk(th.(pc := At(point, run, token, receipt)), w)
  {
  }

  lemma StoredOk(w: World, id: string, tenant: string)
    requires RowsOk(w) && Get(w.t, id, tenant).Some?
    ensures DocOk(Get(w.t, id, tenant).value, w.bound, w.facts)
  {
  }

  lemma EnterOk(w: World, th: Thread, call: Call, e: Env)
    requires RowsOk(w) && ThreadOk(th, w)
    ensures ThreadOk(Enter(w.t, th, call, e), w)
  {
    if !call.CreateRun? && !call.RecoverRuns? && Get(w.t, call.id, th.tenant).Some? {
      StoredOk(w, call.id, th.tenant);
      EnterFoundOk(w, th, call, e, Get(w.t, call.id, th.tenant).value);
    }
  }

  lemma EnterFoundOk(w: World, th: Thread, call: Call, e: Env, run: RunDoc)
    requires ThreadOk(th, w) && DocOk(run, w.bound, w.facts)
    requires !call.CreateRun? && !call.RecoverRuns? && Get(w.t, call.id, th.tenant) == Some(run)
    ensures ThreadOk(Enter(w.t, th, call, e), w)
  {
  }

  lemma RowAddedOk(w: World, w': World, d: RunDoc, row: Row)
    requires RowsOk(w) && d.id !in w.t.runs && row.doc == d && d.snapshotSha.Some?
    requires DocOk(d, w'.bound, w'.facts) && w'.facts == w.facts
    requires w'.t.runs == w.t.runs[d.id := row] && w'.bound == w.bound[d.id := d.snapshotSha.value]
    ensures RowsOk(w') && Grows(w, w')
  {
    forall id | id in w'.t.runs ensures w'.t.runs[id].doc.id == id && DocOk(w'.t.runs[id].doc, w'.bound, w'.facts) {
      if id != d.id { DocOkGrows(w.t.runs[id].doc, w, w'); }
    }
  }

  lemma InsertOk(w: World, th: Thread, run: RunDoc, key: string, e: Env)
    requires RowsOk(w) && ThreadOk(th, w) && th.pc == Insert(run, key)
    ensures StepOk(w, InsertRun(w.t, th, run, key, e))
  {
    var r := InsertRun(w.t, th, run, key, e);
    if r.2 == NoEffect {
      LocalOk(w, r.1);
    } else {
      var w' := Record(w.(t := r.0), r.2);
      RowAddedOk(w, w', run, Row(th.tenant, run, e.now));
      ThreadOkGrows(Return(th, Nothing), w, w');
    }
  }

  lemma AnalyzedOk(w: World, run: RunDoc, tenant: string, e: Env)
    requires DocOk(run, w.bound, w.facts) && Analyzed(w.t, run, tenant, e).Some?
    ensures DocOk(Analyzed(w.t, run, tenant, e).value, w.bound, w.facts)
  {
  }

  lemma LoadOk(w: World, th: Thread, run: RunDoc, e: Env)
    requires RowsOk(w) && ThreadOk(th, w) && DocOk(run, w.bound, w.facts)
    ensures StepOk(w, AnalyzeStep(w.t, th, Load, run, e))
  {
    if Analyzed(w.t, run, th.tenant, e).Some? {
      AnalyzedOk(w, run, th.tenant, e);
    }
    LocalOk(w, AnalyzeStep(w.t, th, Load, run, e).1);
  }

  lemma AnalyzeOk(w: World, th: Thread, point: Point, run: RunDoc, e: Env)
    requires RowsOk(w) && ThreadOk(th, w) && DocOk(run, w.bound, w.facts) && InAnalyze(point)
    ensures StepOk(w, AnalyzeStep(w.t, th, point, run, e))
  {
    match point
    case MarkAnalyzing =>
      GotoOk(w, th, Load, run, 0, None);
      SaveThenOk(w, run, e.now, Goto(th, Load, run), Goto(th, SaveFailure, run));
    case Load => LoadOk(w, th, run, e);
    case SaveAnalysis =>
      GotoOk(w, th, NotifyApproval, run, 0, None);
      SaveThenOk(w, run, e.now, Goto(th, NotifyApproval, run), Goto(th, SaveFailure, run));
    case NotifyApproval => LocalOk(w, Return(th, Nothing));
    case _ => SaveReturnOk(w, th, run.(status := Failed, error := Some(AnalysisStopped)), e.now, Nothing);
  }

  lemma ApproveOk(w: World, th: Thread, run: RunDoc, named: BodyDigest, issued: Option<Token>, e: Env)
    requires RowsOk(w) && ThreadOk(th, w) && th.pc == Approving(run, named, issued)
    ensures StepOk(w, ApproveStep(w.t, th, run, named, issued, e, w.nextToken))
  {
    var r := ApproveStep(w.t, th, run, named, issued, e, w.nextToken);
    if issued.None? {
      var w' := Record(w.(t := r.0), r.2);
      RowsOkGrow(w, w');
      ThreadOkGrows(r.1, w, w');
    } else {
      SaveReturnOk(w, th, run.(status := Approved, approvalPayload := Some(named)), e.now, Granted(issued.value, named));
    }
  }

  lemma ClaimOk(w: World, th: Thread, run: RunDoc, token: Token, receipt: Option<Receipt>, e: Env)
    requires RowsOk(w) && ThreadOk(th, w) && DocOk(run, w.bound, w.facts)
    ensures StepOk(w, ApplyStep(w.t, th, ClaimApply, run, token, receipt, e))
  {
    var r := ApplyStep(w.t, th, ClaimApply, run, token, receipt, e);
    if r.2 == NoEffect {
      LocalOk(w, r.1);
    } else {
      ClaimedOk(w, th, run, token, r.2.action, r.0, e.now);
    }
  }

  lemma ClaimedOk(w: World, th: Thread, run: RunDoc, token: Token, a: Action, t: Tables, now: int)
    requires RowsOk(w) && ThreadOk(th, w) && DocOk(run, w.bound, w.facts) && HasCandidate(run) && run.id in w.t.runs
    requires t.runs == w.t.runs[run.id := Row(w.t.runs[run.id].owner, run.(status := Applying), now)]
    ensures StepOk(w, (t, th.(pc := At(WriteDestination, run.(status := Applying), token, None)), Started(a)))
  {
    var applying := run.(status := Applying);
    var w' := Record(w.(t := t), Started(a));
    ApplyingOk(w, th, run, token);
    RowReplacedOk(w, w', applying, Row(w.t.runs[run.id].owner, applying, now));
    ThreadOkGrows(th.(pc := At(WriteDestination, applying, token, None)), w, w');
  }

  lemma ApplyingOk(w: World, th: Thread, run: RunDoc, token: Token)
    requires ThreadOk(th, w) && DocOk(run, w.bound, w.facts) && HasCandidate(run)
    ensures DocOk(run.(status := Applying), w.bound, w.facts)
    ensures ThreadOk(th.(pc := At(WriteDestination, run.(status := Applying), token, None)), w)
  {
  }

  /** The measurement just recorded is the one the later points need. */
  lemma RemeasuredOk(w: World, th: Thread, run: RunDoc, token: Token, receipt: Option<Receipt>, m: Fact,
      equal: bool)
    requires RowsOk(w) && ThreadOk(th, w) && DocOk(run, w.bound, w.facts)
    requires PointOk(CheckProjection, run, receipt, w.facts)
    requires equal ==> HasCandidate(run) && run.snapshotSha.Some?
    requires equal ==> m == Measurement(run.snapshotSha.value, CandidateOf(run).body, run.analysis.value.projectedAfter)
    ensures var w' := w.(facts := w.facts + {m});
      && RowsOk(w') && Grows(w, w') && ThreadOk(Goto(th, SaveRetry, run), w')
      && (equal ==> ThreadOk(th.(pc := At(StoreArtifact, run, token, receipt)), w'))
      && (equal ==> ThreadOk(th.(pc := At(SaveApplied, run, token, receipt)), w'))
  {
    ObserveOk(w, th, run, m);
  }

  lemma CheckOk(w: World, th: Thread, run: RunDoc, token: Token, receipt: Option<Receipt>, e: Env)
    requires RowsOk(w) && ThreadOk(th, w) && DocOk(run, w.bound, w.facts)
    requires PointOk(CheckProjection, run, receipt, w.facts)
    ensures StepOk(w, ApplyStep(w.t, th, CheckProjection, run, token, receipt, e))
  {
    var r := ApplyStep(w.t, th, CheckProjection, run, token, receipt, e);
    if r.2 == NoEffect {
      LocalOk(w, r.1);
    } else {
      RemeasuredOk(w, th, run, token, receipt, r.2.fact, e.measured.value == run.analysis.value.projectedAfter);
    }
  }

  lemma FinishedOk(w: World, run: RunDoc, receipt: Receipt, now: int)
    requires DocOk(run, w.bound, w.facts) && PointOk(SaveApplied, run, Some(receipt), w.facts)
    ensures DocOk(Finished(run, receipt, now), w.bound, w.facts)
  {
  }

  lemma ApplyOk(w: World, th: Thread, point: Point, run: RunDoc, token: Token, receipt: Option<Receipt>, e: Env)
    requires RowsOk(w) && ThreadOk(th, w) && DocOk(run, w.bound, w.facts)
    requires PointOk(point, run, receipt, w.facts) && (point.ClaimApply? || Claimed(point))
    ensures StepOk(w, ApplyStep(w.t, th, point, run, token, receipt, e))
  {
    match point
    case ClaimApply => ClaimOk(w, th, run, token, receipt, e);
    case CheckProjection => CheckOk(w, th, run, token, receipt, e);
    case StoreArtifact => ArtifactOk(w, th, run, token, receipt, e);
    case WriteDestination => WriteOk(w, th, run, token, receipt, e);
    case SaveApplied => AppliedOk(w, th, run, token, receipt, e);
    case _ => RetryOk(w, th, point, run, token, receipt, e);
  }

  lemma AppliedStep(t: Tables, th: Thread, run: RunDoc, token: Token, receipt: Receipt, e: Env)
    requires HasCandidate(run)
    ensures var finished := Finished(run, receipt, e.now);
      ApplyStep(t, th, SaveApplied, run, token, Some(receipt), e)
      == SaveThen(t, finished, e.now, Return(th, RunReply(finished)), Dead(th))
  {
  }

  lemma AppliedOk(w: World, th: Thread, run: RunDoc, token: Token, receipt: Option<Receipt>, e: Env)
    requires RowsOk(w) && ThreadOk(th, w) && DocOk(run, w.bound, w.facts)
    requires PointOk(SaveApplied, run, receipt, w.facts)
    ensures StepOk(w, ApplyStep(w.t, th, SaveApplied, run, token, receipt, e))
  {
    var finished := Finished(run, receipt.value, e.now);
    AppliedStep(w.t, th, run, token, receipt.value, e);
    FinishedOk(w, run, receipt.value, e.now);
    SaveReturnOk(w, th, finished, e.now, RunReply(finished));
  }

  lemma RetryOk(w: World, th: Thread, point: Point, run: RunDoc, token: Token, receipt: Option<Receipt>, e: Env)
    requires RowsOk(w) && ThreadOk(th, w) && DocOk(run, w.bound, w.facts) && HasCandidate(run) && point.SaveRetry?
    ensures StepOk(w, ApplyStep(w.t, th, point, run, token, receipt, e))
  {
    SaveReturnOk(w, th, run.(status := Approved, error := Some(ReauthorizePayload)), e.now, Nothing);
  }

  lemma WriteStep(t: Tables, th: Thread, run: RunDoc, token: Token, receipt: Option<Receipt>, e: Env)
    requires HasCandidate(run)
    ensures ApplyStep(t, th, WriteDestination, run, token, receipt, e)
         == (t, if e.written.None? then th.(pc := At(SaveRetry, run, 0, None))
                else th.(pc := At(CheckProjection, run, token, Some(ReceiptFor(CandidateOf(run), e.written.value)))), NoEffect)
  {
  }

  lemma WriteOk(w: World, th: Thread, run: RunDoc, token: Token, receipt: Option<Receipt>, e: Env)
    requires RowsOk(w) && ThreadOk(th, w) && DocOk(run, w.bound, w.facts)
    requires PointOk(WriteDestination, run, receipt, w.facts)
    ensures StepOk(w, ApplyStep(w.t, th, WriteDestination, run, token, receipt, e))
  {
    WriteStep(w.t, th, run, token, receipt, e);
    if e.written.None? {
      GotoOk(w, th, SaveRetry, run, 0, None);
    } else {
      GotoOk(w, th, CheckProjection, run, token, Some(ReceiptFor(CandidateOf(run), e.written.value)));
    }
    LocalOk(w, ApplyStep(w.t, th, WriteDestination, run, token, receipt, e).1);
  }

  lemma ArtifactOk(w: World, th: Thread, run: RunDoc, token: Token, receipt: Option<Receipt>, e: Env)
    requires RowsOk(w) && ThreadOk(th, w) && DocOk(run, w.bound, w.facts)
    requires PointOk(StoreArtifact, run, receipt, w.facts)
    ensures StepOk(w, ApplyStep(w.t, th, StoreArtifact, run, token, receipt, e))
  {
    var r := ApplyStep(w.t, th, StoreArtifact, run, token, receipt, e);
    var w' := w.(t := r.0);
    RowsOkGrow(w, w');
    GotoOk(w, th, SaveApplied, run, token, receipt);
    ThreadOkGrows(r.1, w, w');
  }

  lemma PolledOk(w: World, run: RunDoc, ci: CiStatus, now: int)
    requires DocOk(run, w.bound, w.facts) && Pollable(run) && Polled(run, ci, now).Some?
    requires ReadingOf(run, ci, now) in w.facts
    ensures DocOk(Polled(run, ci, now).value, w.bound, w.facts)
  {
  }

  /** Recording a fact keeps everything sound. */
  lemma ObserveOk(w: World, th: Thread, run: RunDoc, fact: Fact)
    requires RowsOk(w) && ThreadOk(th, w) && DocOk(run, w.bound, w.facts)
    ensures var w' := w.(facts := w.facts + {fact});
            RowsOk(w') && Grows(w, w') && ThreadOk(th, w') && DocOk(run, w'.bound, w'.facts)
  {
    var w' := w.(facts := w.facts + {fact});
    RowsOkGrow(w, w');
    ThreadOkGrows(th, w, w');
    DocOkGrows(run, w, w');
  }

  lemma ReadStep(t: Tables, th: Thread, run: RunDoc, e: Env)
    requires e.ci.Some? && Pollable(run)
    ensures var polled := Polled(run, e.ci.value, e.now);
      PollStep(t, th, ReadCi, run, e)
      == (t, if polled.None? then Return(th, RunReply(run)) else th.(pc := At(SaveCi, polled.value, 0, None)),
          Observed(ReadingOf(run, e.ci.value, e.now)))
  {
  }

  lemma ReadOk(w: World, th: Thread, run: RunDoc, e: Env)
    requires RowsOk(w) && ThreadOk(th, w) && DocOk(run, w.bound, w.facts)
    ensures StepOk(w, PollStep(w.t, th, ReadCi, run, e))
  {
    if e.ci.Some? && Pollable(run) {
      ReadStep(w.t, th, run, e);
      AnsweredOk(w, th, run, e.ci.value, e.now);
      assert w.(t := w.t) == w;
    } else {
      LocalOk(w, Dead(th));
    }
  }

  /** After the reading is recorded, the thread may go on in either way. */
  lemma AnsweredOk(w: World, th: Thread, run: RunDoc, ci: CiStatus, now: int)
    requires RowsOk(w) && ThreadOk(th, w) && DocOk(run, w.bound, w.facts) && Pollable(run)
    ensures var w' := w.(facts := w.facts + {ReadingOf(run, ci, now)});
      && RowsOk(w') && Grows(w, w') && ThreadOk(Return(th, RunReply(run)), w')
      && (Polled(run, ci, now).Some? ==> ThreadOk(th.(pc := At(SaveCi, Polled(run, ci, now).value, 0, None)), w'))
  {
    var w' := w.(facts := w.facts + {ReadingOf(run, ci, now)});
    ObserveOk(w, th, run, ReadingOf(run, ci, now));
    if Polled(run, ci, now).Some? {
      PolledOk(w', run, ci, now);
      GotoOk(w', th, SaveCi, Polled(run, ci, now).value, 0, None);
    }
  }

  lemma PollOk(w: World, th: Thread, point: Point, run: RunDoc, e: Env)
    requires RowsOk(w) && ThreadOk(th, w) && DocOk(run, w.bound, w.facts) && InPoll(point)
    ensures StepOk(w, PollStep(w.t, th, point, run, e))
  {
    if point.ReadCi? {
      ReadOk(w, th, run, e);
    } else {
      SaveReturnOk(w, th, run, e.now, RunReply(run));
    }
  }

  lemma TakeNextOk(w: World, th: Thread)
    requires ThreadOk(th, w)
    ensures ThreadOk(TakeNext(th), w)
  {
    if th.work != [] {
      assert DocOk(th.work[0].1, w.bound, w.facts);
      assert forall i :: 0 <= i < |th.work[1..]| ==> th.work[1..][i] == th.work[i + 1];
    }
  }

  lemma AdvanceOk(w: World, th: Thread, e: Env)
    requires RowsOk(w) && ThreadOk(th, w)
    ensures StepOk(w, Advance(w.t, th, e, w.nextToken))
  {
    match th.pc
    case Start(call) =>
      EnterOk(w, th, call, e);
      LocalOk(w, Enter(w.t, th, call, e));
    case Insert(run, key) => InsertOk(w, th, run, key, e);
    case At(point, run, token, receipt) => InsideOk(w, th, point, run, token, receipt, e);
    case Approving(run, named, issued) => ApproveOk(w, th, run, named, issued, e);
    case NextInList =>
      TakeNextOk(w, th);
      LocalOk(w, TakeNext(th));
    case Done(_) => LocalOk(w, th);
  }

  lemma InsideOk(w: World, th: Thread, point: Point, run: RunDoc, token: Token, receipt: Option<Receipt>, e: Env)
    requires RowsOk(w) && ThreadOk(th, w) && DocOk(run, w.bound, w.facts) && PointOk(point, run, receipt, w.facts)
    ensures StepOk(w, Inside(w.t, th, point, run, token, receipt, e))
  {
    if InAnalyze(point) {
      AnalyzeOk(w, th, point, run, e);
    } else if point.ClaimApply? || Claimed(point) {
      ApplyOk(w, th, point, run, token, receipt, e);
    } else if InPoll(point) {
      PollOk(w, th, point, run, e);
    } else {
      SaveReturnOk(w, th, run, e.now, Nothing);
      SaveThenOk(w, run, e.now, th.(pc := Start(AnalyzeRun(run.id))), Dead(th));
    }
  }

  lemma RaiseOk(w: World, th: Thread)
    requires ThreadOk(th, w)
    ensures ThreadOk(Raise(th), w)
  {
  }

  // ---------------------------------------------------------------- tokens, step by step

  lemma ApplyKeepsApprovals(t: Tables, th: Thread, point: Point, run: RunDoc, token: Token, receipt: Option<Receipt>,
      e: Env)
    ensures var r := ApplyStep(t, th, point, run, token, receipt, e); !r.2.Started? ==> r.0.approvals == t.approvals
  {
  }

  lemma InsideKeepsApprovals(t: Tables, th: Thread, point: Point, run: RunDoc, token: Token, receipt: Option<Receipt>,
      e: Env)
    ensures var r := Inside(t, th, point, run, token, receipt, e);
            !r.2.Issued? && (!r.2.Started? ==> r.0.approvals == t.approvals)
  {
    if !InAnalyze(point) && (point.ClaimApply? || Claimed(point)) {
      ApplyKeepsApprovals(t, th, point, run, token, receipt, e);
    }
  }

  /** Steps that neither issue nor claim leave the approvals and the token history alone. */
  lemma OtherStepsKeepApprovals(t: Tables, th: Thread, e: Env, nextToken: Token)
    ensures var r := Advance(t, th, e, nextToken); !r.2.Issued? && !r.2.Started? ==> r.0.approvals == t.approvals
  {
    if th.pc.At? { InsideKeepsApprovals(t, th, th.pc.point, th.pc.run, th.pc.token, th.pc.receipt, e); }
  }

  /** A claim starts an action with exactly the payload its approval recorded, and spends the approval. */
  lemma ClaimEffect(t: Tables, th: Thread, e: Env, nextToken: Token)
    requires Advance(t, th, e, nextToken).2.Started?
    ensures th.pc.At? && th.pc.point.ClaimApply? && HasCandidate(th.pc.run)
    ensures var r := Advance(t, th, e, nextToken);
            var a := r.2.action;
            && a == Action(th.pc.run.id, th.pc.token, CandidateOf(th.pc.run).body, CandidateOf(th.pc.run).payload)
            && ApprovalMatches(t, a.run, a.token, a.payload)
            && r.0.approvals == t.approvals[a.run := Approval(a.payload, a.token, true)]
  {
  }

  lemma IssueEffect(t: Tables, th: Thread, e: Env, nextToken: Token)
    requires Advance(t, th, e, nextToken).2.Issued?
    ensures var r := Advance(t, th, e, nextToken);
            r.2.token == nextToken && r.0.approvals == t.approvals[r.2.run := Approval(r.2.named, nextToken, false)]
  {
  }

  lemma TokenStepOk(w: World, th: Thread, e: Env)
    requires TokensOk(w) && ThreadOk(th, w)
    ensures var r := Advance(w.t, th, e, w.nextToken); TokensOk(Record(w.(t := r.0), r.2))
  {
    var r := Advance(w.t, th, e, w.nextToken);
    if r.2.Issued? {
      IssueEffect(w.t, th, e, w.nextToken);
      IssueKeepsTokens(w, r.0, r.2.run, r.2.named);
    } else if r.2.Started? {
      ClaimEffect(w.t, th, e, w.nextToken);
      ClaimKeepsTokens(w, r.0, r.2.action);
    } else {
      OtherStepsKeepApprovals(w.t, th, e, w.nextToken);
      SameTokens(w, Record(w.(t := r.0), r.2));
    }
  }

  lemma SameTokens(w: World, w': World)
    requires TokensOk(w) && w'.t.approvals == w.t.approvals
    requires w'.issued == w.issued && w'.actions == w.actions && w'.nextToken == w.nextToken
    ensures TokensOk(w')
  {
    assert forall i :: 0 <= i < |w.actions| ==> ActionOk(w, w.actions[i]) ==> ActionOk(w', w'.actions[i]);
  }

  lemma IssueKeepsTokens(w: World, t: Tables, run: string, payload: BodyDigest)
    requires TokensOk(w) && t.approvals == w.t.approvals[run := Approval(payload, w.nextToken, false)]
    ensures TokensOk(Record(w.(t := t), Issued(w.nextToken, run, payload)))
  {
    var w' := Record(w.(t := t), Issued(w.nextToken, run, payload));
    forall i | 0 <= i < |w'.actions| ensures ActionOk(w', w'.actions[i]) {
      assert ActionOk(w, w.actions[i]);
    }
  }

  lemma ClaimKeepsTokens(w: World, t: Tables, a: Action)
    requires TokensOk(w) && a.payload == HashBody(a.body) && ApprovalMatches(w.t, a.run, a.token, a.payload)
    requires t.approvals == w.t.approvals[a.run := Approval(a.payload, a.token, true)]
    ensures TokensOk(Record(w.(t := t), Started(a)))
  {
    var w' := Record(w.(t := t), Started(a));
    forall i | 0 <= i < |w.actions| ensures ActionOk(w', w.actions[i]) && w.actions[i].token != a.token {
      assert ActionOk(w, w.actions[i]);
    }
  }

  // ---------------------------------------------------------------- every reachable world

  lemma ThreadsOkGrow(w: World, w1: World, threads: map<nat, Thread>)
    requires RowsOk(w1) && TokensOk(w1) && Grows(w, w1)
    requires forall tid | tid in threads :: ThreadOk(threads[tid], w) || ThreadOk(threads[tid], w1)
    ensures Inv(w1.(threads := threads))
  {
    var w' := w1.(threads := threads);
    SameTokens(w1, w');
    forall tid | tid in threads ensures ThreadOk(threads[tid], w') {
      if ThreadOk(threads[tid], w) { ThreadOkGrows(threads[tid], w, w'); }
    }
  }

  lemma RecordThreads(w: World, t: Tables, threads: map<nat, Thread>, f: Effect)
    ensures Record(w.(t := t, threads := threads), f) == Record(w.(t := t), f).(threads := threads)
  {
  }

  lemma StepKeepsInv(w: World, tid: nat, env: Env)
    requires Inv(w) && tid in w.threads
    ensures Inv(Next(w, Step(tid, env)))
  {
    var r := Advance(w.t, w.threads[tid], env, w.nextToken);
    AdvanceOk(w, w.threads[tid], env);
    TokenStepOk(w, w.threads[tid], env);
    RecordThreads(w, r.0, w.threads[tid := r.1], r.2);
    ThreadsOkGrow(w, Record(w.(t := r.0), r.2), w.threads[tid := r.1]);
  }

  lemma IngestChanges(w: World, snapshot: Snapshot, tenant: string)
    ensures var w' := Next(w, Ingest(snapshot, tenant));
      && w' == w.(t := w'.t) && w'.t.runs == w.t.runs && w'.t.approvals == w.t.approvals
  {
  }

  lemma IngestKeepsInv(w: World, snapshot: Snapshot, tenant: string)
    requires Inv(w)
    ensures Inv(Next(w, Ingest(snapshot, tenant)))
  {
    var w' := Next(w, Ingest(snapshot, tenant));
    IngestChanges(w, snapshot, tenant);
    SameTokens(w, w');
    RowsOkGrow(w, w');
    ThreadsOkGrow(w, w', w.threads);
    assert w'.(threads := w.threads) == w';
  }

  lemma NextKeepsInv(w: World, ev: Event)
    requires Inv(w)
    ensures Inv(Next(w, ev))
  {
    match ev
    case Spawn(tid, call, tenant) => ThreadsOkGrow(w, w, w.threads[tid := Thread(Start(call), tenant, [])]);
    case Step(tid, env) => if tid in w.threads { StepKeepsInv(w, tid, env); }
    case Interrupt(tid) =>
      if tid in w.threads {
        RaiseOk(w, w.threads[tid]);
        ThreadsOkGrow(w, w, w.threads[tid := Raise(w.threads[tid])]);
      }
    case Crash(tid) => ThreadsOkGrow(w, w, w.threads - {tid});
    case Ingest(snapshot, tenant) => IngestKeepsInv(w, snapshot, tenant);
  }

  lemma {:induction false} ReachKeepsInv(events: seq<Event>)
    ensures Inv(Reach(EMPTY, events))
  {
    if events != [] {
      ReachKeepsInv(events[..|events| - 1]);
      NextKeepsInv(Reach(EMPTY, events[..|events| - 1]), events[|events| - 1]);
    }
  }
}
