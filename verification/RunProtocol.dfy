/**
  The run lifecycle of src/coursefuzz/services/run_service.py as a step protocol. Every service call is
  a thread that performs one repository transaction or one external call at a time and carries its own,
  possibly stale, copy of the run. Any interleaving, exception and crash is allowed.
*/
module RunProtocol {
  import opened Domain
  import opened Wrappers
  import opened RunTables

  // ---------------------------------------------------------------- threads

  datatype Reply = Nothing | Granted(token: Token, payload: BodyDigest) | RunReply(run: RunDoc) | Raised

  /** The service calls; `id` of a new run is its fresh uuid. */
  datatype Call =
    | CreateRun(assignmentId: string, key: string, id: string)
    | AnalyzeRun(id: string)
    | ApproveRun(id: string, payload: BodyDigest)
    | ApplyRun(id: string, token: Token)
    | PollExternalCi(id: string)
    | RecoverRuns(limit: nat)

  /** The points inside a call, other than an approval, that hold a local copy of a run. */
  datatype Point =
    | MarkAnalyzing | Load | SaveAnalysis | NotifyApproval | SaveFailure       // analyze_run
    | ClaimApply | WriteDestination | CheckProjection | StoreArtifact | SaveApplied | SaveRetry   // apply
    | ReadCi | SaveCi                                                         // poll_external_ci
    | RestoreApproved | Requeue                                               // recover_incomplete_runs

  datatype Pc =
    | Start(call: Call)
    | Insert(created: RunDoc, key: string)
    | At(point: Point, run: RunDoc, token: Token, receipt: Option<Receipt>)
    | Approving(run: RunDoc, named: BodyDigest, issued: Option<Token>)
    | NextInList
    | Done(reply: Reply)

  /** `work` is what is left of a recovery pass; other calls have none. */
  datatype Thread = Thread(pc: Pc, tenant: string, work: seq<(string, RunDoc)>)

  /** A call that has just started. */
  function Single(call: Call, tenant: string): Thread {
    Thread(Start(call), tenant, [])
  }

  /** A call that is inside, at this point. */
  function Inner(point: Point, run: RunDoc, token: Token, receipt: Option<Receipt>, tenant: string): Thread {
    Thread(At(point, run, token, receipt), tenant, [])
  }

  /** What the outside world answers; None means the external call raises. */
  datatype Env = Env(
    engine: Option<(Option<Body>, Metrics)>, prepared: Option<(string, nat)>, written: Option<Option<nat>>,
    measured: Option<Metrics>, ci: Option<CiStatus>, listed: seq<string>, now: int)

  datatype Action = Action(run: string, token: Token, body: Body, payload: BodyDigest)

  /** What the outside world was seen to answer: a suite that was run, or the check runs of a run's commit. */
  datatype Fact =
    | Measurement(snapshot: SpecDigest, body: Body, metrics: Metrics)
    | CiReading(run: string, repository: string, commit: nat, ci: CiStatus, at: int)

  datatype Effect =
    | NoEffect
    | Created(id: string, sha: SpecDigest)
    | Issued(token: Token, run: string, named: BodyDigest)
    | Started(action: Action)
    | Observed(fact: Fact)

  type Outcome = (Tables, Thread, Effect)

  const CI_DEADLINE_SECONDS := 600

  /** The exception leaves the call. */
  function Dead(th: Thread): Thread {
    th.(pc := Done(Raised), work := [])
  }

  /** The call returns: a recovery pass goes on with its list, anything else is over. */
  function Return(th: Thread, reply: Reply): Thread {
    th.(pc := if th.work == [] then Done(reply) else NextInList)
  }

  function Goto(th: Thread, point: Point, run: RunDoc): Thread {
    th.(pc := At(point, run, 0, None))
  }

  /** The snapshot a run is bound to, or None where the source raises. */
  function BoundAssignment(t: Tables, run: RunDoc, tenant: string): Option<Snapshot> {
    var s := GetAssignment(t, run.assignmentId, tenant);
    if s.None? then None
    else if run.snapshotSha.Some? && SnapshotSha(s.value) != run.snapshotSha.value then None
    else s
  }

  /** The destination's `prepare`: a GitHub target gets its head branch and base commit before the payload is bound. */
  function Prepare(b: Body, prepared: Option<(string, nat)>): Option<Candidate> {
    if b.target.kind.LocalArtifact? then Some(BindPayload(b))
    else if prepared.None? then None
    else Some(BindPayload(b.(target := b.target.(headBranch := prepared.value.0, baseCommit := prepared.value.1))))
  }

  function NewRun(id: string, s: Snapshot, assignmentId: string): RunDoc {
    RunDoc(id, assignmentId, Some(SnapshotSha(s)), Queued, None, None, None, None, None)
  }

  /** The receipt of a write whose read-back matched the candidate's bytes. */
  function ReceiptFor(c: Candidate, commit: Option<nat>): Receipt {
    var github := c.body.target.kind.GitHubPullRequest?;
    Receipt(c.body.target.kind, HashBytes(c.body.source), true,
            if github then Some(c.body.target.repository) else None,
            if github then commit else None, None, None, None, false)
  }

  function Finished(run: RunDoc, receipt: Receipt, now: int): RunDoc {
    if receipt.kind.GitHubPullRequest? && receipt.commit.Some? then
      run.(status := ExternalCiPending, artifactSha := Some(receipt.artifact),
           receipt := Some(receipt.(ciStartedAt := Some(now))))
    else run.(status := Verified, artifactSha := Some(receipt.artifact), receipt := Some(receipt))
  }

  predicate Pollable(run: RunDoc) {
    run.status == ExternalCiPending && run.receipt.Some? && run.receipt.value.repository.Some? && run.receipt.value.commit.Some?
  }

  /** How one CI reading moves a pollable run; None leaves it pending. */
  function Polled(run: RunDoc, ci: CiStatus, now: int): Option<RunDoc>
    requires Pollable(run)
  {
    var r := run.receipt.value;
    var started := if r.ciStartedAt.Some? then r.ciStartedAt.value else now;
    if ci.CiSuccess? then
      Some(run.(status := Verified, receipt := Some(r.(ciCompletedAt := Some(now), ciConclusion := Some(Passed), ciVerified := true))))
    else if ci.CiFailure? || now - started > CI_DEADLINE_SECONDS then
      Some(run.(status := ExternalCiFailed, error := Some(CiDidNotPass),
                receipt := Some(r.(ciCompletedAt := Some(now),
                                   ciConclusion := Some(if ci.CiFailure? then Concluded(ci.conclusion) else TimedOut)))))
    else None
  }

  /** The reading of a pollable run's commit. */
  function ReadingOf(run: RunDoc, ci: CiStatus, now: int): Fact
    requires Pollable(run)
  {
    CiReading(run.id, run.receipt.value.repository.value, run.receipt.value.commit.value, ci, now)
  }

  /** Save the run and go on, or follow the KeyError. */
  function SaveThen(t: Tables, run: RunDoc, now: int, ok: Thread, missing: Thread): Outcome {
    match Save(t, run, now)
    case Some(t') => (t', ok, NoEffect)
    case None => (t, missing, NoEffect)
  }

  /** The read every call starts with, and the guard it applies to what it read. */
  function Enter(t: Tables, th: Thread, call: Call, e: Env): Thread {
    match call
    case CreateRun(assignmentId, key, id) =>
      var s := GetAssignment(t, assignmentId, th.tenant);
      if s.None? then Dead(th) else th.(pc := Insert(NewRun(id, s.value, assignmentId), key))
    case AnalyzeRun(id) =>
      var run := Get(t, id, th.tenant);
      if run.None? then Dead(th)
      else if run.value.status != Queued then Return(th, Nothing)
      else Goto(th, MarkAnalyzing, run.value.(status := Analyzing))
    case ApproveRun(id, payload) =>
      var run := Get(t, id, th.tenant);
      if run.None? || (run.value.status != ApprovalRequired && run.value.status != Approved) || !HasCandidate(run.value)
         || payload != CandidateOf(run.value).payload
      then Dead(th) else th.(pc := Approving(run.value, payload, None))
    case ApplyRun(id, token) =>
      var run := Get(t, id, th.tenant);
      if run.None? then Dead(th)
      else if run.value.status == Verified then Return(th, RunReply(run.value))
      else if run.value.status != Approved || !HasCandidate(run.value) then Dead(th)
      else th.(pc := At(ClaimApply, run.value, token, None))
    case PollExternalCi(id) =>
      var run := Get(t, id, th.tenant);
      if run.None? then Dead(th)
      else if !Pollable(run.value) then Return(th, RunReply(run.value))
      else Goto(th, ReadCi, run.value)
    case RecoverRuns(_) =>
      if forall id | id in e.listed :: id in t.runs then
        Return(th.(work := seq(|e.listed|, i requires 0 <= i < |e.listed| && e.listed[i] in t.runs =>
                              (t.runs[e.listed[i]].owner, t.runs[e.listed[i]].doc))), Nothing)
      else Dead(th)
  }

  function InsertRun(t: Tables, th: Thread, run: RunDoc, key: string, e: Env): Outcome {
    match Create(t, run, key, th.tenant, e.now)
    case None => (t, Dead(th), NoEffect)
    case Some((t', stored)) =>
      if ScopedKey(th.tenant, key) !in t.keys && run.snapshotSha.Some? then
        (t', Return(th, RunReply(stored)), Created(run.id, run.snapshotSha.value))
      else (t, if stored.assignmentId != run.assignmentId then Dead(th) else Return(th, RunReply(stored)), NoEffect)
  }

  /** The engine's answer turned into the run to save; None is an exception inside the try block. */
  function Analyzed(t: Tables, run: RunDoc, tenant: string, e: Env): Option<RunDoc> {
    if BoundAssignment(t, run, tenant).None? || e.engine.None? then None
    else
      var (found, projected) := e.engine.value;
      if found.None? then Some(run.(status := NoActionRequired, analysis := Some(Analysis(None, projected))))
      else
        var candidate := Prepare(found.value, e.prepared);
        if candidate.None? then None
        else Some(run.(status := ApprovalRequired, analysis := Some(Analysis(candidate, projected))))
  }

  /** src/coursefuzz/services/run_service.py:141-245. */
  function AnalyzeStep(t: Tables, th: Thread, point: Point, run: RunDoc, e: Env): Outcome {
    match point
    case MarkAnalyzing => SaveThen(t, run, e.now, Goto(th, Load, run), Goto(th, SaveFailure, run))
    case Load =>
      var analyzed := Analyzed(t, run, th.tenant, e);
      (t, if analyzed.None? then Goto(th, SaveFailure, run) else Goto(th, SaveAnalysis, analyzed.value), NoEffect)
    case SaveAnalysis => SaveThen(t, run, e.now, Goto(th, NotifyApproval, run), Goto(th, SaveFailure, run))
    case NotifyApproval => (t, Return(th, Nothing), NoEffect)
    case _ => SaveThen(t, run.(status := Failed, error := Some(AnalysisStopped)), e.now, Return(th, Nothing), Dead(th))
  }

  /** src/coursefuzz/services/run_service.py:247-284. */
  function ApproveStep(t: Tables, th: Thread, run: RunDoc, named: BodyDigest, issued: Option<Token>, e: Env,
      nextToken: Token): Outcome {
    match issued
    case None =>
      (Approve(t, run.id, named, nextToken), th.(pc := Approving(run, named, Some(nextToken))),
       Issued(nextToken, run.id, named))
    case Some(token) =>
      SaveThen(t, run.(status := Approved, approvalPayload := Some(named)), e.now, Return(th, Granted(token, named)), Dead(th))
  }

  /** src/coursefuzz/services/run_service.py:286-391. */
  function ApplyStep(t: Tables, th: Thread, point: Point, run: RunDoc, token: Token, receipt: Option<Receipt>,
      e: Env): Outcome {
    if !HasCandidate(run) then (t, Dead(th), NoEffect)
    else match point
      case ClaimApply =>
        var applying := run.(status := Applying);
        if CanClaim(t, applying, token, CandidateOf(run).payload) then
          (Claim(t, applying, token, CandidateOf(run).payload, e.now), th.(pc := At(WriteDestination, applying, token, None)),
           Started(Action(run.id, token, CandidateOf(run).body, CandidateOf(run).payload)))
        else (t, Dead(th), NoEffect)
      case WriteDestination =>
        (t, if e.written.None? then Goto(th, SaveRetry, run)
            else th.(pc := At(CheckProjection, run, token, Some(ReceiptFor(CandidateOf(run), e.written.value)))), NoEffect)
      case CheckProjection =>
        var s := BoundAssignment(t, run, th.tenant);
        if s.None? || e.measured.None? || receipt.None? then (t, Goto(th, SaveRetry, run), NoEffect)
        else
          (t,
           if e.measured.value != run.analysis.value.projectedAfter then Goto(th, SaveRetry, run)
           else th.(pc := At(if receipt.value.kind.LocalArtifact? then StoreArtifact else SaveApplied, run, token, receipt)),
           Observed(Measurement(SnapshotSha(s.value), CandidateOf(run).body, e.measured.value)))
      case StoreArtifact =>
        if receipt.None? then (t, Goto(th, SaveRetry, run), NoEffect)
        else (t.(artifacts := t.artifacts[run.id := receipt.value.artifact]), th.(pc := At(SaveApplied, run, token, receipt)), NoEffect)
      case SaveApplied =>
        if receipt.None? then (t, Dead(th), NoEffect)
        else
          var finished := Finished(run, receipt.value, e.now);
          SaveThen(t, finished, e.now, Return(th, RunReply(finished)), Dead(th))
      case _ => SaveThen(t, run.(status := Approved, error := Some(ReauthorizePayload)), e.now, Dead(th), Dead(th))
  }

  /** src/coursefuzz/services/run_service.py:409-481. */
  function PollStep(t: Tables, th: Thread, point: Point, run: RunDoc, e: Env): Outcome {
    if point.ReadCi? then
      if e.ci.None? || !Pollable(run) then (t, Dead(th), NoEffect)
      else
        var polled := Polled(run, e.ci.value, e.now);
        (t, if polled.None? then Return(th, RunReply(run)) else Goto(th, SaveCi, polled.value),
         Observed(ReadingOf(run, e.ci.value, e.now)))
    else SaveThen(t, run, e.now, Return(th, RunReply(run)), Dead(th))
  }

  /** src/coursefuzz/services/run_service.py:102-138: what a recovery pass does with one listed run. */
  function TakeNext(th: Thread): Thread {
    if th.work == [] then th.(pc := Done(Nothing))
    else
      var (tenant, run) := th.work[0];
      var next := Thread(NextInList, tenant, th.work[1..]);
      match run.status
      case Applying => Goto(next, RestoreApproved, run.(status := Approved, error := Some(InterruptedApply)))
      case Analyzing => Goto(next, Requeue, run.(status := Queued))
      case ExternalCiPending => next.(pc := Start(PollExternalCi(run.id)))
      case Queued => next.(pc := Start(AnalyzeRun(run.id)))
      case _ => Return(next, Nothing)
  }

  function RecoverStep(t: Tables, th: Thread, point: Point, run: RunDoc, e: Env): Outcome {
    SaveThen(t, run, e.now, if point.Requeue? then th.(pc := Start(AnalyzeRun(run.id))) else Return(th, Nothing), Dead(th))
  }

  predicate InAnalyze(point: Point) {
    point.MarkAnalyzing? || point.Load? || point.SaveAnalysis? || point.NotifyApproval? || point.SaveFailure?
  }

  /** The points after a successful claim. */
  predicate Claimed(point: Point) {
    point.WriteDestination? || point.CheckProjection? || point.StoreArtifact? || point.SaveApplied? || point.SaveRetry?
  }

  predicate InPoll(point: Point) {
    point.ReadCi? || point.SaveCi?
  }

  function Inside(t: Tables, th: Thread, point: Point, run: RunDoc, token: Token, receipt: Option<Receipt>, e: Env):
    Outcome
  {
    if InAnalyze(point) then AnalyzeStep(t, th, point, run, e)
    else if point.ClaimApply? || Claimed(point) then ApplyStep(t, th, point, run, token, receipt, e)
    else if InPoll(point) then PollStep(t, th, point, run, e)
    else RecoverStep(t, th, point, run, e)
  }

  /** One step of one thread. */
  function Advance(t: Tables, th: Thread, e: Env, nextToken: Token): Outcome {
    match th.pc
    case Start(call) => (t, Enter(t, th, call, e), NoEffect)
    case Insert(run, key) => InsertRun(t, th, run, key, e)
    case At(point, run, token, receipt) => Inside(t, th, point, run, token, receipt, e)
    case Approving(run, named, issued) => ApproveStep(t, th, run, named, issued, e, nextToken)
    case NextInList => (t, TakeNext(th), NoEffect)
    case Done(_) => (t, th, NoEffect)
  }

  /** Where an exception takes a thread: the two try blocks have handlers, anything else ends the call. */
  function Raise(th: Thread): Thread {
    if th.pc.At? && InAnalyze(th.pc.point) && !th.pc.point.SaveFailure? then Goto(th, SaveFailure, th.pc.run)
    else if th.pc.At? && (th.pc.point.WriteDestination? || th.pc.point.CheckProjection? || th.pc.point.StoreArtifact?)
    then Goto(th, SaveRetry, th.pc.run)
    else Dead(th)
  }

  // ---------------------------------------------------------------- worlds

  /** What a token was issued for: the run, and the hash the approver named. */
  datatype Issue = Issue(run: string, named: BodyDigest)

  /** The tables and the live threads, with the history the theorems speak of. */
  datatype World = World(
    t: Tables, threads: map<nat, Thread>, nextToken: Token,
    issued: map<Token, Issue>, actions: seq<Action>, facts: set<Fact>, bound: map<string, SpecDigest>)

  datatype Event =
    | Spawn(tid: nat, call: Call, tenant: string)
    | Step(tid: nat, env: Env)
    | Interrupt(tid: nat)
    | Crash(tid: nat)
    | Ingest(snapshot: Snapshot, tenant: string)

  function Record(w: World, f: Effect): World {
    match f
    case NoEffect => w
    case Created(id, sha) => w.(bound := w.bound[id := sha])
    case Issued(token, run, named) => w.(issued := w.issued[token := Issue(run, named)], nextToken := w.nextToken + 1)
    case Started(action) => w.(actions := w.actions + [action])
    case Observed(fact) => w.(facts := w.facts + {fact})
  }

  function Next(w: World, ev: Event): World {
    match ev
    case Spawn(tid, call, tenant) =>
      if tid !in w.threads then w.(threads := w.threads[tid := Thread(Start(call), tenant, [])]) else w
    case Step(tid, env) =>
      if tid in w.threads then
        var (t, th, f) := Advance(w.t, w.threads[tid], env, w.nextToken);
        Record(w.(t := t, threads := w.threads[tid := th]), f)
      else w
    case Interrupt(tid) => if tid in w.threads then w.(threads := w.threads[tid := Raise(w.threads[tid])]) else w
    case Crash(tid) => w.(threads := w.threads - {tid})
    case Ingest(snapshot, tenant) =>
      (match PutAssignment(w.t, snapshot, tenant)
       case Some(t) => w.(t := t)
       case None => w)
  }

  function Reach(w: World, events: seq<Event>): World {
    if events == [] then w else Next(Reach(w, events[..|events| - 1]), events[|events| - 1])
  }

  const EMPTY := World(Tables(map[], map[], map[], map[], {}, map[]), map[], 0, map[], [], {}, map[])

  // ---------------------------------------------------------------- the invariant

  /** A receipt that proves the read-back of exactly this candidate's bytes. */
  predicate ReceiptMatches(c: Candidate, r: Receipt) {
    && r.kind == c.body.target.kind
    && r.artifact == HashBytes(c.body.source) && r.readBackVerified
    && (r.kind.LocalArtifact? ==> r.commit.None?)
    && (r.kind.GitHubPullRequest? ==> r.repository == Some(c.body.target.repository))
  }

  /** The candidate's suite was measured to equal its projection, against the snapshot bound at creation. */
  predicate WasRemeasured(d: RunDoc, facts: set<Fact>) {
    && HasCandidate(d) && d.snapshotSha.Some?
    && Measurement(d.snapshotSha.value, CandidateOf(d).body, d.analysis.value.projectedAfter) in facts
  }

  predicate Evidenced(d: RunDoc, facts: set<Fact>) {
    && HasCandidate(d) && d.receipt.Some? && ReceiptMatches(CandidateOf(d), d.receipt.value)
    && d.artifactSha == Some(d.receipt.value.artifact)
    && WasRemeasured(d, facts)
  }

  predicate BoundDoc(d: RunDoc, bound: map<string, SpecDigest>) {
    && d.id in bound && d.snapshotSha == Some(bound[d.id])
    && (HasCandidate(d) ==> CandidateOf(d) == BindPayload(CandidateOf(d).body))
  }

  /** The reading of the run's own commit that its receipt refers to. */
  predicate WasRead(d: RunDoc, ci: CiStatus, facts: set<Fact>) {
    && d.receipt.Some? && d.receipt.value.repository.Some? && d.receipt.value.commit.Some? && d.receipt.value.ciCompletedAt.Some?
    && CiReading(d.id, d.receipt.value.repository.value, d.receipt.value.commit.value, ci, d.receipt.value.ciCompletedAt.value)
       in facts
  }

  /** The run's commit was read to have failed as recorded, or to be pending more than ten minutes after the write. */
  predicate FailedInCi(d: RunDoc, facts: set<Fact>) {
    && d.receipt.Some? && d.receipt.value.ciStartedAt.Some? && d.receipt.value.ciConclusion.Some?
    && match d.receipt.value.ciConclusion.value
       case Passed => false
       case Concluded(conclusion) => WasRead(d, CiFailure(conclusion), facts)
       case TimedOut =>
         && WasRead(d, CiPending, facts)
         && d.receipt.value.ciCompletedAt.value - d.receipt.value.ciStartedAt.value > 600
  }

  predicate DocOk(d: RunDoc, bound: map<string, SpecDigest>, facts: set<Fact>) {
    && BoundDoc(d, bound)
    && (d.status == ApprovalRequired || d.status == Approved || d.status == Applying ==> HasCandidate(d))
    && (d.status == ExternalCiPending || d.status == ExternalCiFailed || d.status == Verified ==> Evidenced(d, facts))
    && (d.status == ExternalCiPending ==>
          Pollable(d) && d.receipt.value.ciStartedAt.Some? && !d.receipt.value.ciVerified)
    && (d.status == Verified ==> (d.receipt.value.ciVerified <==> d.receipt.value.commit.Some?))
    && (d.receipt.Some? && d.receipt.value.ciVerified ==>
          d.receipt.value.ciConclusion == Some(Passed) && WasRead(d, CiSuccess, facts))
    && (d.status == ExternalCiFailed ==> FailedInCi(d, facts))
  }

  /** What the point a thread is at adds to the soundness of its copy. */
  predicate PointOk(point: Point, run: RunDoc, receipt: Option<Receipt>, facts: set<Fact>) {
    && (point.ClaimApply? ==> run.status == Approved)
    && (Claimed(point) ==> run.status == Applying)
    && (point.CheckProjection? || point.StoreArtifact? || point.SaveApplied? ==> receipt.Some? && UnpolledReceipt(run, receipt.value))
    && (point.StoreArtifact? || point.SaveApplied? ==> WasRemeasured(run, facts))
  }

  predicate UnpolledReceipt(run: RunDoc, receipt: Receipt) {
    HasCandidate(run) && ReceiptMatches(CandidateOf(run), receipt) && !receipt.ciVerified
  }

  predicate PcOk(pc: Pc, bound: map<string, SpecDigest>, facts: set<Fact>) {
    && (pc.Insert? ==>
          && pc.created.status == Queued && pc.created.snapshotSha.Some?
          && !HasCandidate(pc.created) && pc.created.receipt.None?)
    && (pc.At? ==> DocOk(pc.run, bound, facts) && PointOk(pc.point, pc.run, pc.receipt, facts))
    && (pc.Approving? ==>
          DocOk(pc.run, bound, facts) && HasCandidate(pc.run) && CandidateOf(pc.run).payload == pc.named)
  }

  ghost predicate WorkOk(work: seq<(string, RunDoc)>, bound: map<string, SpecDigest>, facts: set<Fact>) {
    forall i :: 0 <= i < |work| ==> DocOk(work[i].1, bound, facts)
  }

  ghost predicate ThreadOk(th: Thread, w: World) {
    PcOk(th.pc, w.bound, w.facts) && WorkOk(th.work, w.bound, w.facts)
  }

  ghost predicate RowsOk(w: World) {
    && w.bound.Keys == w.t.runs.Keys
    && forall id | id in w.t.runs :: w.t.runs[id].doc.id == id && DocOk(w.t.runs[id].doc, w.bound, w.facts)
  }

  /** Tokens are fresh, an action's token was issued for it, and a token that acted is spent. */
  ghost predicate TokensOk(w: World) {
    && (forall token | token in w.issued :: token < w.nextToken)
    && (forall id | id in w.t.approvals ::
          w.t.approvals[id].token in w.issued && w.issued[w.t.approvals[id].token] == Issue(id, w.t.approvals[id].payload))
    && (forall i :: 0 <= i < |w.actions| ==> ActionOk(w, w.actions[i]))
    && (forall i, j :: 0 <= i < j < |w.actions| ==> w.actions[i].token != w.actions[j].token)
  }

  ghost predicate ActionOk(w: World, a: Action) {
    && a.token in w.issued && w.issued[a.token] == Issue(a.run, a.payload)
    && a.payload == HashBody(a.body)
    && (a.run in w.t.approvals && w.t.approvals[a.run].token == a.token ==> w.t.approvals[a.run].consumed)
  }

  ghost predicate Inv(w: World) {
    && RowsOk(w) && TokensOk(w)
    && forall tid | tid in w.threads :: ThreadOk(w.threads[tid], w)
  }

}
