/**
  Destination writes of one run. Nothing keeps them apart: recovery hands back the row of a live write, and
  a second approval then starts another. When exactly that happens, and what rules it out.
*/
module RunFlights {
  import opened Wrappers
  import opened RunTables
  import opened RunProtocol
  import opened RunInvariant
  import opened RunTheorems

  /** The thread has a destination write of this run in flight. */
  predicate Writes(th: Thread, id: string) {
    InFlight(th) && th.pc.run.id == id
  }

  ghost predicate Flying(w: World, p: nat, id: string) {
    p in w.threads && Writes(w.threads[p], id)
  }

  /** Two threads write the same run. */
  ghost predicate Overlap(w: World, id: string) {
    exists p, q :: p != q && Flying(w, p, id) && Flying(w, q, id)
  }

  /** The step that is about to be taken is a claim of this run that the tables allow. */
  predicate Claims(w: World, ev: Event, id: string) {
    && ev.Step? && ev.tid in w.threads
    && w.threads[ev.tid].pc.At? && w.threads[ev.tid].pc.point.ClaimApply? && w.threads[ev.tid].pc.run.id == id
    && HasCandidate(w.threads[ev.tid].pc.run)
    && CanClaim(w.t, w.threads[ev.tid].pc.run, w.threads[ev.tid].pc.token, CandidateOf(w.threads[ev.tid].pc.run).payload)
  }

  /** A claim of this run is allowed although another thread's write of it is in flight. */
  ghost predicate ClaimsOver(w: World, ev: Event, id: string) {
    Claims(w, ev, id) && exists p :: p != ev.tid && Flying(w, p, id)
  }

  // ---------------------------------------------------------------- when a second write starts

  /** A step puts a write in flight exactly when it is an allowed claim. */
  lemma TakesOffIff(w: World, tid: nat, env: Env, id: string)
    requires tid in w.threads
    ensures Writes(Advance(w.t, w.threads[tid], env, w.nextToken).1, id) <==> Claims(w, Step(tid, env), id)
  {
    var th := w.threads[tid];
    var r := Advance(w.t, th, env, w.nextToken);
    if InFlight(r.1) {
      FlightComesFromClaim(w.t, th, env, w.nextToken);
      ClaimEffect(w.t, th, env, w.nextToken);
    }
    if th.pc.At? && th.pc.point.ClaimApply? {
      RefusedClaimChangesNothing(w.t, th, env, w.nextToken);
    }
  }

  /** Whatever happens, the writes in flight afterwards are those before it and the one an allowed claim starts. */
  lemma FlightsAfter(w: World, ev: Event, id: string, p: nat)
    ensures Flying(Next(w, ev), p, id) ==> Flying(w, p, id) || (Claims(w, ev, id) && p == ev.tid)
    ensures Claims(w, ev, id) ==> Flying(Next(w, ev), ev.tid, id)
    ensures Claims(w, ev, id) && p != ev.tid && Flying(w, p, id) ==> Flying(Next(w, ev), p, id)
  {
    if ev.Step? && ev.tid in w.threads {
      StepThreads(w, ev.tid, ev.env);
      TakesOffIff(w, ev.tid, ev.env, id);
    }
  }

  /** A run whose writes do not overlap gets a second write by exactly those steps that claim over a live one. */
  lemma OverlapStartsIff(w: World, ev: Event, id: string)
    requires !Overlap(w, id)
    ensures Overlap(Next(w, ev), id) <==> ClaimsOver(w, ev, id)
  {
    var w' := Next(w, ev);
    if Overlap(w', id) {
      var p, q :| p != q && Flying(w', p, id) && Flying(w', q, id);
      FlightsAfter(w, ev, id, p);
      FlightsAfter(w, ev, id, q);
    }
    if ClaimsOver(w, ev, id) {
      var p :| p != ev.tid && Flying(w, p, id);
      FlightsAfter(w, ev, id, p);
    }
  }

  /** Some event of the list claims the run over a live write of it. */
  ghost predicate EverClaimsOver(events: seq<Event>, id: string) {
    exists k :: 0 <= k < |events| && ClaimsOver(Reach(EMPTY, events[..k]), events[k], id)
  }

  ghost predicate EverOverlaps(events: seq<Event>, id: string) {
    exists k :: 0 <= k <= |events| && Overlap(Reach(EMPTY, events[..k]), id)
  }

  lemma ReachNext(events: seq<Event>, k: nat)
    requires k < |events|
    ensures Reach(EMPTY, events[..k + 1]) == Next(Reach(EMPTY, events[..k]), events[k])
  {
    assert events[..k + 1][..k] == events[..k];
  }

  /** Over a whole history: the writes of a run overlap exactly when some claim is allowed over a live write. */
  lemma EverOverlapsIff(events: seq<Event>, id: string)
    ensures EverOverlaps(events, id) <==> EverClaimsOver(events, id)
  {
    if EverClaimsOver(events, id) {
      var k :| 0 <= k < |events| && ClaimsOver(Reach(EMPTY, events[..k]), events[k], id);
      ReachNext(events, k);
      if !Overlap(Reach(EMPTY, events[..k]), id) {
        OverlapStartsIff(Reach(EMPTY, events[..k]), events[k], id);
      }
    }
    if EverOverlaps(events, id) {
      var k :| 0 <= k <= |events| && Overlap(Reach(EMPTY, events[..k]), id);
      FirstOverlap(events, id, k);
    }
  }

  lemma {:induction false} FirstOverlap(events: seq<Event>, id: string, k: nat)
    requires k <= |events| && Overlap(Reach(EMPTY, events[..k]), id)
    ensures EverClaimsOver(events, id)
  {
    if k > 0 {
      if Overlap(Reach(EMPTY, events[..k - 1]), id) {
        FirstOverlap(events, id, k - 1);
      } else {
        ReachNext(events, k - 1);
        StartsHere(Reach(EMPTY, events[..k - 1]), Reach(EMPTY, events[..k]), events[k - 1], id);
      }
    }
  }

  lemma StartsHere(w: World, w': World, ev: Event, id: string)
    requires !Overlap(w, id) && Overlap(w', id) && w' == Next(w, ev)
    ensures ClaimsOver(w, ev, id)
  {
    OverlapStartsIff(w, ev, id);
  }

  // ---------------------------------------------------------------- what rules it out

  /** The points whose step saves the thread's copy of the run. */
  predicate Saves(point: Point) {
    || point.MarkAnalyzing? || point.SaveAnalysis? || point.SaveFailure?
    || point.SaveApplied? || point.SaveRetry? || point.SaveCi? || point.RestoreApproved? || point.Requeue?
  }

  /** The next event saves this run's row. */
  predicate SavesRun(w: World, ev: Event, id: string) {
    && ev.Step? && ev.tid in w.threads
    && var pc := w.threads[ev.tid].pc;
       if pc.At? then Saves(pc.point) && pc.run.id == id
       else pc.Approving? && pc.issued.Some? && pc.run.id == id
  }

  ghost predicate Aloft(w: World, id: string) {
    exists p :: Flying(w, p, id)
  }

  /** No row of the run is saved while a write of it is in flight. */
  ghost predicate Undisturbed(events: seq<Event>, id: string) {
    forall k | 0 <= k < |events| && Aloft(Reach(EMPTY, events[..k]), id) ::
      !SavesRun(Reach(EMPTY, events[..k]), events[k], id)
  }

  predicate Locked(t: Tables, id: string) {
    id in t.runs && t.runs[id].doc.status == Applying
  }

  /** A row that says APPLYING refuses every claim, whatever token and copy it comes with. */
  lemma LockedRefuses(t: Tables, d: RunDoc, token: Token, payload: BodyDigest)
    requires Locked(t, d.id)
    ensures !CanClaim(t, d, token, payload) && Claim(t, d, token, payload, 0) == t
  {
  }

  lemma SaveTouches(t: Tables, d: RunDoc, now: int, ok: Thread, missing: Thread, id: string)
    requires d.id != id && id in t.runs
    ensures var r := SaveThen(t, d, now, ok, missing); id in r.0.runs && r.0.runs[id] == t.runs[id]
  {
  }

  /** Only a save or an allowed claim of a run rewrites its stored row. */
  lemma OnlySavesRewrite(w: World, ev: Event, id: string)
    requires Inv(w) && id in w.t.runs && !SavesRun(w, ev, id) && !Claims(w, ev, id)
    ensures KeepsRow(w.t, Next(w, ev).t, id)
  {
    if ev.Step? && ev.tid in w.threads {
      StepTables(w, ev.tid, ev.env);
      if w.threads[ev.tid].pc.At? {
        InsideKeepsRow(w.t, w.threads[ev.tid], ev.env, w.nextToken, id);
      } else {
        OutsideKeepsRow(w.t, w.threads[ev.tid], ev.env, w.nextToken, id);
      }
    } else if ev.Ingest? {
      IngestChanges(w, ev.snapshot, ev.tenant);
    }
  }

  lemma OutsideKeepsRow(t: Tables, th: Thread, e: Env, nextToken: Token, id: string)
    requires !th.pc.At? && id in t.runs
    requires th.pc.Approving? && th.pc.issued.Some? ==> th.pc.run.id != id
    ensures KeepsRow(t, Advance(t, th, e, nextToken).0, id)
  {
  }

  lemma StepTables(w: World, tid: nat, env: Env)
    requires tid in w.threads
    ensures Next(w, Step(tid, env)).t == Advance(w.t, w.threads[tid], env, w.nextToken).0
  {
  }

  lemma InsideKeepsRow(t: Tables, th: Thread, e: Env, nextToken: Token, id: string)
    requires th.pc.At? && id in t.runs
    requires Saves(th.pc.point) ==> th.pc.run.id != id
    requires th.pc.point.ClaimApply? && th.pc.run.id == id ==>
               !HasCandidate(th.pc.run) || !CanClaim(t, th.pc.run, th.pc.token, CandidateOf(th.pc.run).payload)
    ensures KeepsRow(t, Advance(t, th, e, nextToken).0, id)
  {
    var pc := th.pc;
    if InAnalyze(pc.point) {
      AnalyzeKeepsRow(t, th, pc.point, pc.run, e, id);
    } else if pc.point.ClaimApply? || Claimed(pc.point) {
      ApplyKeepsRow(t, th, pc.point, pc.run, pc.token, pc.receipt, e, id);
    }
  }

  predicate KeepsRow(t: Tables, t': Tables, id: string) {
    id in t.runs && id in t'.runs && t'.runs[id] == t.runs[id]
  }

  lemma AnalyzeKeepsRow(t: Tables, th: Thread, point: Point, run: RunDoc, e: Env, id: string)
    requires id in t.runs && InAnalyze(point) && (Saves(point) ==> run.id != id)
    ensures KeepsRow(t, AnalyzeStep(t, th, point, run, e).0, id)
  {
  }

  lemma ApplyKeepsRow(t: Tables, th: Thread, point: Point, run: RunDoc, token: Token, receipt: Option<Receipt>, e: Env,
      id: string)
    requires id in t.runs && (point.ClaimApply? || Claimed(point)) && (Saves(point) ==> run.id != id)
    requires point.ClaimApply? && run.id == id ==>
               !HasCandidate(run) || !CanClaim(t, run, token, CandidateOf(run).payload)
    ensures KeepsRow(t, ApplyStep(t, th, point, run, token, receipt, e).0, id)
  {
    if HasCandidate(run) && point.SaveApplied? && receipt.Some? {
      AppliedStep(t, th, run, token, receipt.value, e);
    }
  }

  /** Writes of the run fly alone and over a row that says APPLYING. */
  ghost predicate Guarded(w: World, id: string) {
    && !Overlap(w, id)
    && (Aloft(w, id) ==> Locked(w.t, id))
  }

  lemma ClaimLocks(w: World, ev: Event, id: string)
    requires Claims(w, ev, id)
    ensures Locked(Next(w, ev).t, id)
  {
    StepTables(w, ev.tid, ev.env);
  }

  lemma NextKeepsGuarded(w: World, ev: Event, id: string)
    requires Inv(w) && Guarded(w, id) && (Aloft(w, id) ==> !SavesRun(w, ev, id))
    ensures Guarded(Next(w, ev), id)
  {
    var w' := Next(w, ev);
    if Claims(w, ev, id) {
      ClaimLocks(w, ev, id);
      assert !Locked(w.t, id);
    }
    OverlapStartsIff(w, ev, id);
    if Aloft(w', id) && !Claims(w, ev, id) {
      var p :| Flying(w', p, id);
      FlightsAfter(w, ev, id, p);
      OnlySavesRewrite(w, ev, id);
    }
  }

  lemma {:induction false} UndisturbedIsGuarded(events: seq<Event>, id: string)
    requires Undisturbed(events, id)
    ensures Guarded(Reach(EMPTY, events), id)
  {
    if events != [] {
      var n := |events| - 1;
      UndisturbedFront(events, id, n);
      UndisturbedIsGuarded(events[..n], id);
      ReachKeepsInv(events[..n]);
      NextKeepsGuarded(Reach(EMPTY, events[..n]), events[n], id);
    }
  }

  lemma UndisturbedFront(events: seq<Event>, id: string, n: nat)
    requires Undisturbed(events, id) && n <= |events|
    ensures Undisturbed(events[..n], id)
  {
    forall k | 0 <= k < n && Aloft(Reach(EMPTY, events[..n][..k]), id)
      ensures !SavesRun(Reach(EMPTY, events[..n][..k]), events[..n][k], id)
    {
      assert events[..n][..k] == events[..k];
    }
  }

  /**
    Over every interleaving, exception and crash: a run whose row nobody saves while a write of it is in
    flight never has two writes, and its row says APPLYING for as long as a write lasts.
  */
  lemma UndisturbedNeverOverlaps(events: seq<Event>, id: string)
    requires Undisturbed(events, id)
    ensures !EverOverlaps(events, id)
    ensures forall k | 0 <= k <= |events| && Aloft(Reach(EMPTY, events[..k]), id) :: Locked(Reach(EMPTY, events[..k]).t, id)
  {
    forall k | 0 <= k <= |events| ensures Guarded(Reach(EMPTY, events[..k]), id) {
      UndisturbedFront(events, id, k);
      UndisturbedIsGuarded(events[..k], id);
    }
  }

  /** One write, from whatever reachable moment it is looked at: as long as it lasts it is the only one. */
  lemma {:induction false} LockedWriteStaysAlone(w: World, more: seq<Event>, p: nat, id: string)
    requires Inv(w) && Guarded(w, id) && Flying(w, p, id)
    requires forall k | 0 <= k < |more| :: Flying(Reach(w, more[..k]), p, id) && !SavesRun(Reach(w, more[..k]), more[k], id)
    ensures Inv(Reach(w, more)) && Guarded(Reach(w, more), id)
    ensures Flying(Reach(w, more), p, id) ==> Locked(Reach(w, more).t, id)
    ensures forall q | q != p && Flying(Reach(w, more), p, id) :: !Flying(Reach(w, more), q, id)
  {
    if more != [] {
      var n := |more| - 1;
      var front := more[..n];
      assert forall k | 0 <= k <= n :: front[..k] == more[..k];
      LockedWriteStaysAlone(w, front, p, id);
      NextKeepsInv(Reach(w, front), more[n]);
      NextKeepsGuarded(Reach(w, front), more[n], id);
    }
  }
}
