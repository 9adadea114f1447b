/** Histories in which two writes of one run are in flight at the same time. */
module RunOverlap {
  import opened Domain
  import opened Wrappers
  import opened RunTables
  import opened RunProtocol
  import opened RunInvariant
  import opened RunTheorems
  import opened RunFlights

  // ---------------------------------------------------------------- one call after another

  /** A call that starts and takes n steps while nobody else moves. */
  function CallEvents(tid: nat, call: Call, tenant: string, e: Env, n: nat): seq<Event> {
    [Spawn(tid, call, tenant)] + seq(n, _ => Step(tid, e))
  }

  /** The tables, one thread and the next token. */
  type State = (Tables, Thread, Token)

  function Once(s: State, e: Env): State {
    var r := Advance(s.0, s.1, e, s.2);
    (r.0, r.1, if r.2.Issued? then s.2 + 1 else s.2)
  }

  /** The state after n undisturbed steps of the thread. */
  function Solo(s: State, e: Env, n: nat): State {
    if n == 0 then s else Once(Solo(s, e, n - 1), e)
  }

  lemma ReachSnoc(w: World, events: seq<Event>, ev: Event)
    ensures Reach(w, events + [ev]) == Next(Reach(w, events), ev)
  {
    assert (events + [ev])[..|events|] == events;
  }

  lemma {:induction false} ReachAppend(w: World, first: seq<Event>, more: seq<Event>)
    ensures Reach(w, first + more) == Reach(Reach(w, first), more)
  {
    if more == [] {
      assert first + more == first;
    } else {
      var n := |more| - 1;
      ReachAppend(w, first, more[..n]);
      ReachSnoc(w, first + more[..n], more[n]);
      assert first + more == first + more[..n] + [more[n]];
    }
  }

  /** What a call of one thread leaves behind: new tables and tokens, every other thread as it was. */
  ghost predicate Leaves(w: World, w': World, tid: nat, s: State) {
    w'.t == s.0 && w'.threads == w.threads[tid := s.1] && w'.nextToken == s.2
  }

  lemma StepLeaves(w: World, w': World, tid: nat, e: Env, s: State)
    requires Leaves(w, w', tid, s)
    ensures Leaves(w, Next(w', Step(tid, e)), tid, Once(s, e))
  {
    var r := Advance(s.0, s.1, e, s.2);
    RecordThreads(w', r.0, w'.threads[tid := r.1], r.2);
    assert w'.threads[tid := r.1] == w.threads[tid := r.1];
  }

  lemma {:induction false} CallLeaves(w: World, tid: nat, call: Call, tenant: string, e: Env, n: nat)
    requires tid !in w.threads
    ensures Leaves(w, Reach(w, CallEvents(tid, call, tenant, e, n)), tid, Solo((w.t, Single(call, tenant), w.nextToken), e, n))
  {
    if n == 0 {
      ReachSnoc(w, [], Spawn(tid, call, tenant));
      assert CallEvents(tid, call, tenant, e, 0) == [] + [Spawn(tid, call, tenant)];
    } else {
      var front := CallEvents(tid, call, tenant, e, n - 1);
      CallLeaves(w, tid, call, tenant, e, n - 1);
      StepLeaves(w, Reach(w, front), tid, e, Solo((w.t, Single(call, tenant), w.nextToken), e, n - 1));
      ReachSnoc(w, front, Step(tid, e));
      assert CallEvents(tid, call, tenant, e, n) == front + [Step(tid, e)];
    }
  }

  lemma SoloTwice(s: State, e: Env, s1: State, s2: State)
    requires Once(s, e) == s1 && Once(s1, e) == s2
    ensures Solo(s, e, 2) == s2
  {
    assert Solo(s, e, 1) == s1;
  }

  lemma SoloThrice(s: State, e: Env, s1: State, s2: State, s3: State)
    requires Once(s, e) == s1 && Once(s1, e) == s2 && Once(s2, e) == s3
    ensures Solo(s, e, 3) == s3
  {
    SoloTwice(s, e, s1, s2);
  }

  // ---------------------------------------------------------------- the calls of a history

  /** The row of a run that recovery found APPLYING. */
  function HandedBack(run: RunDoc): RunDoc {
    run.(status := Approved, error := Some(InterruptedApply))
  }

  lemma Recovers(t: Tables, token: Token, tenant: string, e: Env, run: RunDoc)
    requires Get(t, run.id, tenant) == Some(run) && run.status == Applying && e.listed == [run.id]
    ensures var s := Solo((t, Single(RecoverRuns(1), tenant), token), e, 3);
      s.0 == Save(t, HandedBack(run), e.now).value && s.2 == token
  {
    var s0, s1 := (t, Single(RecoverRuns(1), tenant), token), (t, Thread(NextInList, tenant, [(tenant, run)]), token);
    var s2 := (t, Inner(RestoreApproved, HandedBack(run), 0, None, tenant), token);
    ListsOne(t, token, tenant, e, run);
    TakesOne(t, token, tenant, e, run);
    SoloThrice(s0, e, s1, s2, Once(s2, e));
  }

  lemma ListsOne(t: Tables, token: Token, tenant: string, e: Env, run: RunDoc)
    requires Get(t, run.id, tenant) == Some(run) && e.listed == [run.id]
    ensures Once((t, Single(RecoverRuns(1), tenant), token), e)
         == (t, Thread(NextInList, tenant, [(tenant, run)]), token)
  {
    var th := Single(RecoverRuns(1), tenant);
    assert Enter(t, th, RecoverRuns(1), e).work == [(tenant, run)];
  }

  lemma TakesOne(t: Tables, token: Token, tenant: string, e: Env, run: RunDoc)
    requires run.status == Applying
    ensures Once((t, Thread(NextInList, tenant, [(tenant, run)]), token), e)
         == (t, Inner(RestoreApproved, HandedBack(run), 0, None, tenant), token)
  {
    assert [(tenant, run)][1..] == [];
  }

  /** The row of a run whose approval was granted. */
  function Grant(run: RunDoc): RunDoc
    requires HasCandidate(run)
  {
    run.(status := Approved, approvalPayload := Some(CandidateOf(run).payload))
  }

  predicate Approvable(run: RunDoc) {
    HasCandidate(run) && (run.status == Approved || run.status == ApprovalRequired)
  }

  lemma Approves(t: Tables, token: Token, tenant: string, e: Env, run: RunDoc)
    requires Get(t, run.id, tenant) == Some(run) && Approvable(run)
    ensures var payload := CandidateOf(run).payload;
      var s := Solo((t, Single(ApproveRun(run.id, payload), tenant), token), e, 3);
      s.0 == Save(Approve(t, run.id, payload, token), Grant(run), e.now).value && s.2 == token + 1
  {
    var payload := CandidateOf(run).payload;
    var s0 := (t, Single(ApproveRun(run.id, payload), tenant), token);
    var s1 := (t, Thread(Approving(run, payload, None), tenant, []), token);
    var s2 := (Approve(t, run.id, payload, token), Thread(Approving(run, payload, Some(token)), tenant, []), token + 1);
    assert Once(s0, e) == s1;
    assert Once(s1, e) == s2;
    SoloThrice(s0, e, s1, s2, Once(s2, e));
  }

  lemma TakesOff(t: Tables, next: Token, tenant: string, e: Env, run: RunDoc, token: Token)
    requires Get(t, run.id, tenant) == Some(run) && run.status == Approved && HasCandidate(run)
    requires CanClaim(t, run, token, CandidateOf(run).payload)
    ensures var s := Solo((t, Single(ApplyRun(run.id, token), tenant), next), e, 2);
      && s.0 == Claim(t, run.(status := Applying), token, CandidateOf(run).payload, e.now)
      && Writes(s.1, run.id) && s.2 == next
  {
    var s0 := (t, Single(ApplyRun(run.id, token), tenant), next);
    var s1 := (t, Inner(ClaimApply, run, token, None, tenant), next);
    assert Once(s0, e) == s1;
    SoloTwice(s0, e, s1, Once(s1, e));
  }

  /** An approval and an apply put a write of an approvable run in flight. */
  function ApprovedWrite(run: string, payload: BodyDigest, token: Token, tenant: string, e: Env,
      approve: nat, apply: nat): seq<Event>
  {
    CallEvents(approve, ApproveRun(run, payload), tenant, e, 3) + CallEvents(apply, ApplyRun(run, token), tenant, e, 2)
  }

  /** In the later world thread `tid` writes the run; earlier threads are as they were. */
  ghost predicate TookOff(w: World, w': World, approve: nat, tid: nat, run: RunDoc, tenant: string) {
    && Flying(w', tid, run.id) && w'.nextToken == w.nextToken + 1
    && (forall p | p in w.threads :: p in w'.threads && w'.threads[p] == w.threads[p])
    && w'.threads.Keys == w.threads.Keys + {approve, tid}
    && HasCandidate(run) && Get(w'.t, run.id, tenant) == Some(Grant(run).(status := Applying))
  }

  lemma GrantIsClaimable(t: Tables, token: Token, tenant: string, now: int, run: RunDoc)
    requires Get(t, run.id, tenant) == Some(run) && HasCandidate(run)
    ensures var t' := Save(Approve(t, run.id, CandidateOf(run).payload, token), Grant(run), now).value;
      Get(t', run.id, tenant) == Some(Grant(run)) && CanClaim(t', Grant(run), token, CandidateOf(run).payload)
  {
  }

  lemma ApprovedFlies(w: World, w1: World, w2: World, tenant: string, e: Env, run: RunDoc, approve: nat, apply: nat)
    requires approve !in w.threads && apply !in w.threads && approve != apply
    requires Get(w.t, run.id, tenant) == Some(run) && Approvable(run)
    requires Leaves(w, w1, approve, Solo((w.t, Single(ApproveRun(run.id, CandidateOf(run).payload), tenant), w.nextToken), e, 3))
    requires Leaves(w1, w2, apply, Solo((w1.t, Single(ApplyRun(run.id, w.nextToken), tenant), w1.nextToken), e, 2))
    ensures TookOff(w, w2, approve, apply, run, tenant)
  {
    Approves(w.t, w.nextToken, tenant, e, run);
    GrantIsClaimable(w.t, w.nextToken, tenant, e.now, run);
    TakesOff(w1.t, w1.nextToken, tenant, e, Grant(run), w.nextToken);
  }

  lemma ApprovedTakesOff(w: World, tenant: string, e: Env, run: RunDoc, approve: nat, apply: nat)
    requires approve !in w.threads && apply !in w.threads && approve != apply
    requires Get(w.t, run.id, tenant) == Some(run) && Approvable(run)
    ensures TookOff(w, Reach(w, ApprovedWrite(run.id, CandidateOf(run).payload, w.nextToken, tenant, e, approve, apply)),
                    approve, apply, run, tenant)
  {
    var first := CallEvents(approve, ApproveRun(run.id, CandidateOf(run).payload), tenant, e, 3);
    var second := CallEvents(apply, ApplyRun(run.id, w.nextToken), tenant, e, 2);
    CallLeaves(w, approve, ApproveRun(run.id, CandidateOf(run).payload), tenant, e, 3);
    CallLeaves(Reach(w, first), apply, ApplyRun(run.id, w.nextToken), tenant, e, 2);
    ApprovedFlies(w, Reach(w, first), Reach(Reach(w, first), second), tenant, e, run, approve, apply);
    ReachAppend(w, first, second);
  }

  // ---------------------------------------------------------------- a second write of the same run

  /** Recovery, an approval and an apply, by three threads nobody else uses. */
  function SecondWrite(run: RunDoc, token: Token, tenant: string, e: Env, tid: nat): seq<Event>
    requires HasCandidate(run)
  {
    CallEvents(tid, RecoverRuns(1), tenant, e, 3)
    + ApprovedWrite(run.id, CandidateOf(run).payload, token, tenant, e, tid + 1, tid + 2)
  }

  lemma HandedBackIsApprovable(w: World, w1: World, run: RunDoc, tenant: string, e: Env, tid: nat)
    requires Get(w.t, run.id, tenant) == Some(run) && run.status == Applying && HasCandidate(run) && e.listed == [run.id]
    requires Leaves(w, w1, tid, Solo((w.t, Single(RecoverRuns(1), tenant), w.nextToken), e, 3))
    ensures Get(w1.t, run.id, tenant) == Some(HandedBack(run)) && Approvable(HandedBack(run))
    ensures w1.nextToken == w.nextToken
  {
    Recovers(w.t, w.nextToken, tenant, e, run);
  }

  /** From every world with a write in flight over a row that says APPLYING, a second one can join it. */
  lemma SecondWriteJoins(w: World, p: nat, run: RunDoc, tenant: string, e: Env, tid: nat)
    requires Flying(w, p, run.id) && Get(w.t, run.id, tenant) == Some(run) && run.status == Applying && HasCandidate(run)
    requires tid !in w.threads && tid + 1 !in w.threads && tid + 2 !in w.threads && e.listed == [run.id]
    ensures var w' := Reach(w, SecondWrite(run, w.nextToken, tenant, e, tid));
      Flying(w', p, run.id) && Flying(w', tid + 2, run.id) && Overlap(w', run.id)
  {
    var recovery := CallEvents(tid, RecoverRuns(1), tenant, e, 3);
    var write := ApprovedWrite(run.id, CandidateOf(run).payload, w.nextToken, tenant, e, tid + 1, tid + 2);
    var w1 := Reach(w, recovery);
    CallLeaves(w, tid, RecoverRuns(1), tenant, e, 3);
    HandedBackIsApprovable(w, w1, run, tenant, e, tid);
    ApprovedTakesOff(w1, tenant, e, HandedBack(run), tid + 1, tid + 2);
    ReachAppend(w, recovery, write);
    BothFly(w, w1, Reach(w1, write), p, tid, tid + 2, HandedBack(run), tenant);
  }

  lemma BothFly(w: World, w1: World, w2: World, p: nat, tid: nat, q: nat, run: RunDoc, tenant: string)
    requires Flying(w, p, run.id) && tid !in w.threads && q !in w.threads && tid != q
    requires tid in w1.threads && w1.threads == w.threads[tid := w1.threads[tid]] && TookOff(w1, w2, tid + 1, q, run, tenant)
    ensures Flying(w2, p, run.id) && Flying(w2, q, run.id) && Overlap(w2, run.id)
  {
    assert w1.threads[p] == w.threads[p] && w2.threads[p] == w1.threads[p];
    assert p != q && Flying(w2, p, run.id) && Flying(w2, q, run.id);
  }

  // ---------------------------------------------------------------- from the empty database

  lemma Creates(t: Tables, token: Token, tenant: string, e: Env, s: Snapshot, key: string, id: string)
    requires GetAssignment(t, s.id, tenant) == Some(s) && ScopedKey(tenant, key) !in t.keys && id !in t.runs
    ensures var r := Solo((t, Single(CreateRun(s.id, key, id), tenant), token), e, 2);
      && Get(r.0, id, tenant) == Some(NewRun(id, s, s.id)) && r.2 == token
      && GetAssignment(r.0, s.id, tenant) == Some(s)
  {
    var s0 := (t, Single(CreateRun(s.id, key, id), tenant), token);
    var s1 := (t, Thread(Insert(NewRun(id, s, s.id), key), tenant, []), token);
    assert Once(s0, e) == s1;
    Inserts(t, token, tenant, e, s, key, id);
    SoloTwice(s0, e, s1, Once(s1, e));
  }

  lemma Inserts(t: Tables, token: Token, tenant: string, e: Env, s: Snapshot, key: string, id: string)
    requires GetAssignment(t, s.id, tenant) == Some(s) && ScopedKey(tenant, key) !in t.keys && id !in t.runs
    ensures var r := Once((t, Thread(Insert(NewRun(id, s, s.id), key), tenant, []), token), e);
      && Get(r.0, id, tenant) == Some(NewRun(id, s, s.id)) && r.2 == token
      && GetAssignment(r.0, s.id, tenant) == Some(s)
  {
    var run := NewRun(id, s, s.id);
    var t1 := t.(runs := t.runs[id := Row(tenant, run, e.now)], keys := t.keys[ScopedKey(tenant, key) := id]);
    assert Create(t, run, key, tenant, e.now) == Some((t1, run));
    assert GetAssignment(t1, s.id, tenant) == GetAssignment(t, s.id, tenant);
  }

  /** What the engine finds and the destination prepares. */
  predicate Finds(e: Env, c: Candidate) {
    e.engine.Some? && e.engine.value.0.Some? && Prepare(e.engine.value.0.value, e.prepared) == Some(c)
  }

  function AnalyzedRun(id: string, s: Snapshot, e: Env, c: Candidate): RunDoc
    requires Finds(e, c)
  {
    NewRun(id, s, s.id).(status := ApprovalRequired, analysis := Some(Analysis(Some(c), e.engine.value.1)))
  }

  lemma Loads(t: Tables, run: RunDoc, s: Snapshot, tenant: string, e: Env, c: Candidate)
    requires GetAssignment(t, s.id, tenant) == Some(s) && Finds(e, c)
    requires run.assignmentId == s.id && run.snapshotSha == Some(SnapshotSha(s))
    ensures Analyzed(t, run, tenant, e)
         == Some(run.(status := ApprovalRequired, analysis := Some(Analysis(Some(c), e.engine.value.1))))
  {
  }

  lemma Analyzes(t: Tables, token: Token, tenant: string, e: Env, s: Snapshot, id: string, c: Candidate)
    requires GetAssignment(t, s.id, tenant) == Some(s) && Get(t, id, tenant) == Some(NewRun(id, s, s.id)) && Finds(e, c)
    ensures var r := Solo((t, Single(AnalyzeRun(id), tenant), token), e, 4);
      Get(r.0, id, tenant) == Some(AnalyzedRun(id, s, e, c)) && r.2 == token
  {
    var run, analyzed := NewRun(id, s, s.id).(status := Analyzing), AnalyzedRun(id, s, e, c);
    var t1 := Save(t, run, e.now).value;
    var s0 := (t, Single(AnalyzeRun(id), tenant), token);
    var s2 := (t1, Inner(Load, run, 0, None, tenant), token);
    var s3 := (t1, Inner(SaveAnalysis, analyzed, 0, None, tenant), token);
    Marks(t, token, tenant, e, NewRun(id, s, s.id));
    Loads(t1, run, s, tenant, e, c);
    LoadStep(t1, run, tenant, e, token);
    SaveStep(t1, analyzed, tenant, e, token);
    SoloTwiceMore(s0, e, s2, s3, Once(s3, e));
  }

  lemma SoloTwiceMore(s: State, e: Env, s2: State, s3: State, s4: State)
    requires Solo(s, e, 2) == s2 && Once(s2, e) == s3 && Once(s3, e) == s4
    ensures Solo(s, e, 4) == s4
  {
    assert Solo(s, e, 3) == s3;
  }

  lemma Marks(t: Tables, token: Token, tenant: string, e: Env, queued: RunDoc)
    requires Get(t, queued.id, tenant) == Some(queued) && queued.status == Queued
    ensures var run := queued.(status := Analyzing);
      Solo((t, Single(AnalyzeRun(queued.id), tenant), token), e, 2)
      == (Save(t, run, e.now).value, Inner(Load, run, 0, None, tenant), token)
  {
    var run := queued.(status := Analyzing);
    var s0, s1 := (t, Single(AnalyzeRun(queued.id), tenant), token), (t, Inner(MarkAnalyzing, run, 0, None, tenant), token);
    assert Once(s0, e) == s1;
    SoloTwice(s0, e, s1, Once(s1, e));
  }

  lemma LoadStep(t: Tables, run: RunDoc, tenant: string, e: Env, token: Token)
    requires Analyzed(t, run, tenant, e).Some?
    ensures Once((t, Inner(Load, run, 0, None, tenant), token), e)
         == (t, Inner(SaveAnalysis, Analyzed(t, run, tenant, e).value, 0, None, tenant), token)
  {
  }

  lemma SaveStep(t: Tables, run: RunDoc, tenant: string, e: Env, token: Token)
    requires run.id in t.runs
    ensures var s := Once((t, Inner(SaveAnalysis, run, 0, None, tenant), token), e);
      s.0 == Save(t, run, e.now).value && s.2 == token
  {
  }

  /** Creation and analysis of one run of an ingested assignment. */
  function Preparation(s: Snapshot, tenant: string, key: string, id: string, e: Env): seq<Event> {
    [Ingest(s, tenant)] + CallEvents(0, CreateRun(s.id, key, id), tenant, e, 2)
    + CallEvents(1, AnalyzeRun(id), tenant, e, 4)
  }

  lemma Ingested(s: Snapshot, tenant: string)
    ensures var w := Reach(EMPTY, [Ingest(s, tenant)]);
      && w.threads == map[] && w.nextToken == 0 && w.t.keys == map[] && w.t.runs == map[]
      && GetAssignment(w.t, s.id, tenant) == Some(s)
  {
    ReachSnoc(EMPTY, [], Ingest(s, tenant));
    assert [] + [Ingest(s, tenant)] == [Ingest(s, tenant)];
  }

  /** The run waits for approval; threads 0 and 1 are over and no token was issued. */
  ghost predicate Prepared(w: World, run: RunDoc, tenant: string) {
    w.threads.Keys == {0, 1} && w.nextToken == 0 && Get(w.t, run.id, tenant) == Some(run) && Approvable(run)
  }

  lemma PreparedBy(w: World, w1: World, w2: World, s: Snapshot, tenant: string, key: string, id: string, e: Env,
      c: Candidate)
    requires w.threads == map[] && w.nextToken == 0 && w.t.keys == map[] && w.t.runs == map[]
    requires GetAssignment(w.t, s.id, tenant) == Some(s) && Finds(e, c)
    requires Leaves(w, w1, 0, Solo((w.t, Single(CreateRun(s.id, key, id), tenant), w.nextToken), e, 2))
    requires Leaves(w1, w2, 1, Solo((w1.t, Single(AnalyzeRun(id), tenant), w1.nextToken), e, 4))
    ensures Prepared(w2, AnalyzedRun(id, s, e, c), tenant)
  {
    Creates(w.t, w.nextToken, tenant, e, s, key, id);
    Analyzes(w1.t, w1.nextToken, tenant, e, s, id, c);
  }

  lemma Prepares(s: Snapshot, tenant: string, key: string, id: string, e: Env, c: Candidate)
    requires Finds(e, c)
    ensures Prepared(Reach(EMPTY, Preparation(s, tenant, key, id, e)), AnalyzedRun(id, s, e, c), tenant)
  {
    var ingest, create := [Ingest(s, tenant)], CallEvents(0, CreateRun(s.id, key, id), tenant, e, 2);
    var analyze := CallEvents(1, AnalyzeRun(id), tenant, e, 4);
    var w := Reach(EMPTY, ingest);
    var w1 := Reach(w, create);
    Ingested(s, tenant);
    CallLeaves(w, 0, CreateRun(s.id, key, id), tenant, e, 2);
    CallLeaves(w1, 1, AnalyzeRun(id), tenant, e, 4);
    PreparedBy(w, w1, Reach(w1, analyze), s, tenant, key, id, e, c);
    ReachAppend(EMPTY, ingest, create);
    ReachAppend(EMPTY, ingest + create, analyze);
  }

  /** A history from the empty database that ends with threads 3 and 6 both writing the one run it creates. */
  function OverlappingHistory(s: Snapshot, tenant: string, key: string, id: string, e: Env, c: Candidate): seq<Event>
    requires Finds(e, c)
  {
    Preparation(s, tenant, key, id, e) + ApprovedWrite(id, c.payload, 0, tenant, e, 2, 3)
    + SecondWrite(Grant(AnalyzedRun(id, s, e, c)).(status := Applying), 1, tenant, e, 4)
  }

  lemma FirstThenSecond(w: World, w1: World, run: RunDoc, tenant: string, e: Env)
    requires Prepared(w, run, tenant) && TookOff(w, w1, 2, 3, run, tenant)
    requires e.listed == [run.id]
    ensures var w2 := Reach(w1, SecondWrite(Grant(run).(status := Applying), 1, tenant, e, 4));
      Flying(w2, 3, run.id) && Flying(w2, 6, run.id) && Overlap(w2, run.id)
  {
    SecondWriteJoins(w1, 3, Grant(run).(status := Applying), tenant, e, 4);
  }

  lemma HistoryOverlaps(s: Snapshot, tenant: string, key: string, id: string, e: Env, c: Candidate)
    requires Finds(e, c) && e.listed == [id]
    ensures var w := Reach(EMPTY, OverlappingHistory(s, tenant, key, id, e, c));
      Flying(w, 3, id) && Flying(w, 6, id) && Overlap(w, id)
  {
    var run, prepare := AnalyzedRun(id, s, e, c), Preparation(s, tenant, key, id, e);
    var first := ApprovedWrite(id, c.payload, 0, tenant, e, 2, 3);
    var second := SecondWrite(Grant(run).(status := Applying), 1, tenant, e, 4);
    var w := Reach(EMPTY, prepare);
    Prepares(s, tenant, key, id, e, c);
    ApprovedTakesOff(w, tenant, e, run, 2, 3);
    FirstThenSecond(w, Reach(w, first), run, tenant, e);
    ReachAppend(EMPTY, prepare, first);
    ReachAppend(EMPTY, prepare + first, second);
  }

  /** One such history, with every value given. */
  lemma TwoWritesOfOneRun()
    ensures var body := Body([1], "2", ["m"], [7], Target(GitHubPullRequest, "tests.json", "course/lab", "main", "head", 0));
      var e := Env(Some((Some(body), Metrics(1, 1, 0, 1))), Some(("head", 0)), None, None, None, ["run"], 0);
      var events := OverlappingHistory(Snapshot("lab", false, Spec("suite")), "tenant", "key", "run", e, BindPayload(body));
      Flying(Reach(EMPTY, events), 3, "run") && Flying(Reach(EMPTY, events), 6, "run")
  {
    var body := Body([1], "2", ["m"], [7], Target(GitHubPullRequest, "tests.json", "course/lab", "main", "head", 0));
    var e := Env(Some((Some(body), Metrics(1, 1, 0, 1))), Some(("head", 0)), None, None, None, ["run"], 0);
    HistoryOverlaps(Snapshot("lab", false, Spec("suite")), "tenant", "key", "run", e, BindPayload(body));
  }
}
