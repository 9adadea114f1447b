/** What a kill is: which programs the scorer's loops report, told by the executions themselves. */
module ScoringKills {
  import opened Scoring
  import opened Wrappers

  /** From this position of the run on, all oracle programs complete and print `v`. */
  ghost predicate Shown(run: Executor, task: Task, at: nat, stdin: string, v: string) {
    && |task.oracles| > 0
    && forall i | 0 <= i < |task.oracles| ::
         run(at + i, task.oracles[i], stdin).completed && run(at + i, task.oracles[i], stdin).output == v
  }

  ghost predicate Agreed(run: Executor, task: Task, at: nat, stdin: string) {
    exists v :: Shown(run, task, at, stdin, v)
  }

  /** The position of the run at which the query of this number starts. */
  ghost function QueryStart(run: Executor, b: Batch, at: nat, k: nat): nat
    requires k <= |b.stdins|
  {
    if k == 0 then at
    else
      var before := QueryStart(run, b, at, k - 1);
      before + |b.task.oracles|
      + if Agreed(run, b.task, before, b.stdins[k - 1]) then |b.task.controls| + |b.task.wrongs| else 0
  }

  function ControlsFrom(task: Task): nat { |task.oracles| }
  function WrongsFrom(task: Task): nat { |task.oracles| + |task.controls| }

  /** The oracle programs agree on a value that the program at `j`, executed from `offset` on, does not show. */
  ghost predicate Caught(run: Executor, task: Task, at: nat, stdin: string, programs: seq<Program>, offset: nat,
      j: int) {
    && 0 <= j < |programs|
    && (var e := run(at + offset + j, programs[j], stdin);
        exists v :: Shown(run, task, at, stdin, v) && (!e.completed || e.output != v))
  }

  ghost predicate WrongCaught(run: Executor, b: Batch, at: nat, k: int, j: int) {
    && 0 <= k < |b.stdins|
    && Caught(run, b.task, QueryStart(run, b, at, k), b.stdins[k], b.task.wrongs, WrongsFrom(b.task), j)
  }

  ghost predicate ControlCaught(run: Executor, b: Batch, at: nat, k: int, j: int) {
    && 0 <= k < |b.stdins|
    && Caught(run, b.task, QueryStart(run, b, at, k), b.stdins[k], b.task.controls, ControlsFrom(b.task), j)
  }

  // ---------------------------------------------------------------- one query

  lemma AgreedIff(run: Executor, task: Task, at: nat, stdin: string)
    ensures Agreed(run, task, at, stdin) <==> Resolved(RunAll(run, at, task.oracles, stdin))
    ensures Agreed(run, task, at, stdin) ==> Shown(run, task, at, stdin, RunAll(run, at, task.oracles, stdin)[0].output)
    ensures forall v | Shown(run, task, at, stdin, v) :: RunAll(run, at, task.oracles, stdin)[0].output == v
  {
    var o := RunAll(run, at, task.oracles, stdin);
    assert forall i | 0 <= i < |o| :: o[i] == run(at + i, task.oracles[i], stdin);
    if Resolved(o) {
      assert forall i | 0 <= i < |o| :: o[i].completed && o[i].output == o[0].output;
      assert Shown(run, task, at, stdin, o[0].output);
    }
    forall v | Shown(run, task, at, stdin, v)
      ensures o != [] && o[0].output == v && Resolved(o)
    {
      assert o[0].output == v;
      assert forall i | 0 <= i < |o| :: o[i].completed && o[i].output == v;
    }
  }

  lemma FoundHas(run: Executor, at: nat, programs: seq<Program>, stdin: string, expected: string, sha: string)
    ensures sha in Found(programs, RunAll(run, at, programs, stdin), expected) <==>
            exists j :: 0 <= j < |programs| && programs[j].sha == sha
                        && (!run(at + j, programs[j], stdin).completed || run(at + j, programs[j], stdin).output != expected)
  {
    var es := RunAll(run, at, programs, stdin);
    assert forall j | 0 <= j < |programs| :: es[j] == run(at + j, programs[j], stdin);
  }

  /** The outcome tells what one query shows. */
  ghost predicate Tells(o: Outcome, run: Executor, task: Task, at: nat, stdin: string) {
    && (o.resolved <==> Agreed(run, task, at, stdin))
    && o.executions == |task.oracles| + (if Agreed(run, task, at, stdin) then |task.controls| + |task.wrongs| else 0)
    && (forall sha :: sha in o.killed <==>
          exists j :: Caught(run, task, at, stdin, task.wrongs, WrongsFrom(task), j) && task.wrongs[j].sha == sha)
    && (forall sha :: sha in o.falseKilled <==>
          exists j :: Caught(run, task, at, stdin, task.controls, ControlsFrom(task), j) && task.controls[j].sha == sha)
  }

  lemma FoundIsCaught(run: Executor, task: Task, at: nat, stdin: string, programs: seq<Program>, offset: nat,
      v: string, sha: string)
    requires Shown(run, task, at, stdin, v)
    ensures sha in Found(programs, RunAll(run, at + offset, programs, stdin), v) <==>
            exists j :: Caught(run, task, at, stdin, programs, offset, j) && programs[j].sha == sha
  {
    FoundHas(run, at + offset, programs, stdin, v, sha);
    AgreedIff(run, task, at, stdin);
    forall j | 0 <= j < |programs|
      ensures Caught(run, task, at, stdin, programs, offset, j) <==>
              (!run(at + offset + j, programs[j], stdin).completed || run(at + offset + j, programs[j], stdin).output != v)
    {
    }
  }

  lemma NoneCaught(run: Executor, task: Task, at: nat, stdin: string, programs: seq<Program>, offset: nat)
    requires !Agreed(run, task, at, stdin)
    ensures forall j :: !Caught(run, task, at, stdin, programs, offset, j)
  {
  }

  lemma JudgeTells(run: Executor, task: Task, at: nat, stdin: string)
    ensures Tells(Judge(run, at, task, stdin), run, task, at, stdin)
  {
    var o, oracles := Judge(run, at, task, stdin), RunAll(run, at, task.oracles, stdin);
    AgreedIff(run, task, at, stdin);
    if Agreed(run, task, at, stdin) {
      forall sha
        ensures sha in o.killed <==>
                exists j :: Caught(run, task, at, stdin, task.wrongs, WrongsFrom(task), j) && task.wrongs[j].sha == sha
        ensures sha in o.falseKilled <==>
                exists j :: Caught(run, task, at, stdin, task.controls, ControlsFrom(task), j) && task.controls[j].sha == sha
      {
        FoundIsCaught(run, task, at, stdin, task.wrongs, WrongsFrom(task), oracles[0].output, sha);
        FoundIsCaught(run, task, at, stdin, task.controls, ControlsFrom(task), oracles[0].output, sha);
      }
    } else {
      NoneCaught(run, task, at, stdin, task.wrongs, WrongsFrom(task));
      NoneCaught(run, task, at, stdin, task.controls, ControlsFrom(task));
    }
  }

  /** A judging whose every answer tells what its query shows. */
  ghost predicate AlwaysTells(judge: Judging, run: Executor, task: Task) {
    forall at: nat, stdin: string {:trigger Asked(at, stdin)} :: Asked(at, stdin) ==> Tells(judge(at, stdin), run, task, at, stdin)
  }

  lemma TaskTells(run: Executor, task: Task)
    ensures AlwaysTells(ForTask(run, task), run, task)
  {
    forall at: nat, stdin: string {:trigger Asked(at, stdin)} | Asked(at, stdin)
      ensures Tells(ForTask(run, task)(at, stdin), run, task, at, stdin)
    {
      JudgeTells(run, task, at, stdin);
    }
  }

  // ---------------------------------------------------------------- all queries of a task

  /** For any judging: the outcome of a query is its judgement at the position that the earlier ones leave. */
  lemma {:induction false} JudgedAt(judge: Judging, at: nat, stdins: seq<string>, k: nat)
    requires k < |stdins|
    ensures |JudgeAll(judge, at, stdins)| == |stdins|
    ensures JudgeAll(judge, at, stdins)[k] == judge(at + Executions(JudgeAll(judge, at, stdins[..k])), stdins[k])
  {
    var n := |stdins| - 1;
    if n > 0 { JudgedAt(judge, at, stdins[..n], if k < n then k else 0); }
    if k < n {
      assert stdins[..n][..k] == stdins[..k];
    }
  }

  /** That position is where the query starts. */
  lemma {:induction false} StartsThere(run: Executor, b: Batch, at: nat, k: nat, judge: Judging)
    requires k <= |b.stdins| && AlwaysTells(judge, run, b.task)
    ensures at + Executions(JudgeAll(judge, at, b.stdins[..k])) == QueryStart(run, b, at, k)
  {
    if k == 0 {
      assert b.stdins[..0] == [];
    } else {
      StartsThere(run, b, at, k - 1, judge);
      var stdins := b.stdins[..k];
      assert stdins[..k - 1] == b.stdins[..k - 1];
      var before := JudgeAll(judge, at, b.stdins[..k - 1]);
      var start := QueryStart(run, b, at, k - 1);
      assert Asked(start, stdins[k - 1]);
      OutcomesStep(before, judge(start, stdins[k - 1]));
    }
  }

  lemma OutcomeTells(run: Executor, b: Batch, at: nat, k: nat, judge: Judging)
    requires k < |b.stdins| && AlwaysTells(judge, run, b.task)
    ensures |JudgeAll(judge, at, b.stdins)| == |b.stdins|
    ensures Tells(JudgeAll(judge, at, b.stdins)[k], run, b.task, QueryStart(run, b, at, k), b.stdins[k])
  {
    JudgedAt(judge, at, b.stdins, k);
    StartsThere(run, b, at, k, judge);
    assert Asked(QueryStart(run, b, at, k), b.stdins[k]);
  }

  /**
    A wrong program is killed, or a control falsely killed, exactly when in some query whose oracle programs
    all completed and agreed a program with its digest did not complete or printed something else.
  */
  lemma KilledIff(run: Executor, b: Batch, at: nat, sha: string)
    ensures sha in Killed(Outcomes(run, b, at)) <==>
            exists k, j :: WrongCaught(run, b, at, k, j) && b.task.wrongs[j].sha == sha
    ensures sha in FalseKilled(Outcomes(run, b, at)) <==>
            exists k, j :: ControlCaught(run, b, at, k, j) && b.task.controls[j].sha == sha
  {
    var judge := ForTask(run, b.task);
    TaskTells(run, b.task);
    KilledBy(run, b, at, sha, judge);
  }

  lemma KilledBy(run: Executor, b: Batch, at: nat, sha: string, judge: Judging)
    requires AlwaysTells(judge, run, b.task)
    ensures var os := JudgeAll(judge, at, b.stdins);
      && (sha in Killed(os) <==> exists k, j :: WrongCaught(run, b, at, k, j) && b.task.wrongs[j].sha == sha)
      && (sha in FalseKilled(os) <==> exists k, j :: ControlCaught(run, b, at, k, j) && b.task.controls[j].sha == sha)
  {
    var os := JudgeAll(judge, at, b.stdins);
    KilledInSome(os, sha);
    if b.stdins == [] {
      assert os == [];
    } else {
      JudgedAt(judge, at, b.stdins, 0);
    }
    if sha in Killed(os) {
      var k :| 0 <= k < |os| && sha in os[k].killed;
      QueryTells(run, b, at, k, sha, judge);
    }
    if sha in FalseKilled(os) {
      var k :| 0 <= k < |os| && sha in os[k].falseKilled;
      QueryTells(run, b, at, k, sha, judge);
    }
    forall k, j | WrongCaught(run, b, at, k, j) && b.task.wrongs[j].sha == sha
      ensures sha in Killed(os)
    {
      QueryTells(run, b, at, k, sha, judge);
    }
    forall k, j | ControlCaught(run, b, at, k, j) && b.task.controls[j].sha == sha
      ensures sha in FalseKilled(os)
    {
      QueryTells(run, b, at, k, sha, judge);
    }
  }

  lemma QueryTells(run: Executor, b: Batch, at: nat, k: nat, sha: string, judge: Judging)
    requires k < |b.stdins| && AlwaysTells(judge, run, b.task)
    ensures var os := JudgeAll(judge, at, b.stdins);
      && |os| == |b.stdins|
      && (sha in os[k].killed <==> exists j :: WrongCaught(run, b, at, k, j) && b.task.wrongs[j].sha == sha)
      && (sha in os[k].falseKilled <==> exists j :: ControlCaught(run, b, at, k, j) && b.task.controls[j].sha == sha)
  {
    OutcomeTells(run, b, at, k, judge);
    ToldOf(JudgeAll(judge, at, b.stdins)[k], run, b, at, k, sha);
  }

  lemma ToldOf(o: Outcome, run: Executor, b: Batch, at: nat, k: nat, sha: string)
    requires k < |b.stdins| && Tells(o, run, b.task, QueryStart(run, b, at, k), b.stdins[k])
    ensures sha in o.killed <==> exists j :: WrongCaught(run, b, at, k, j) && b.task.wrongs[j].sha == sha
    ensures sha in o.falseKilled <==> exists j :: ControlCaught(run, b, at, k, j) && b.task.controls[j].sha == sha
  {
    var task, start, stdin := b.task, QueryStart(run, b, at, k), b.stdins[k];
    if sha in o.killed {
      var j :| Caught(run, task, start, stdin, task.wrongs, WrongsFrom(task), j) && task.wrongs[j].sha == sha;
      assert WrongCaught(run, b, at, k, j);
    }
    if sha in o.falseKilled {
      var j :| Caught(run, task, start, stdin, task.controls, ControlsFrom(task), j) && task.controls[j].sha == sha;
      assert ControlCaught(run, b, at, k, j);
    }
    forall j | WrongCaught(run, b, at, k, j) && task.wrongs[j].sha == sha
      ensures sha in o.killed
    {
      assert Caught(run, task, start, stdin, task.wrongs, WrongsFrom(task), j);
    }
    forall j | ControlCaught(run, b, at, k, j) && task.controls[j].sha == sha
      ensures sha in o.falseKilled
    {
      assert Caught(run, task, start, stdin, task.controls, ControlsFrom(task), j);
    }
  }

  lemma KilledInSome(os: seq<Outcome>, sha: string)
    ensures sha in Killed(os) <==> exists k :: 0 <= k < |os| && sha in os[k].killed
    ensures sha in FalseKilled(os) <==> exists k :: 0 <= k < |os| && sha in os[k].falseKilled
  {
    if sha in Killed(os) {
      var o :| o in os && sha in o.killed;
      var k :| 0 <= k < |os| && os[k] == o;
      assert sha in os[k].killed;
    }
    if sha in FalseKilled(os) {
      var o :| o in os && sha in o.falseKilled;
      var k :| 0 <= k < |os| && os[k] == o;
      assert sha in os[k].falseKilled;
    }
    forall k | 0 <= k < |os|
      ensures (sha in os[k].killed ==> sha in Killed(os)) && (sha in os[k].falseKilled ==> sha in FalseKilled(os))
    {
      assert os[k] in os;
    }
  }

  /** Programs that always complete with what the oracles print kill nothing, falsely or otherwise. */
  lemma FaithfulProgramsSurvive(run: Executor, b: Batch, at: nat, answer: string -> string)
    requires forall n: nat, p, stdin | p in b.task.oracles + b.task.controls + b.task.wrongs ::
               run(n, p, stdin).completed && run(n, p, stdin).output == answer(stdin)
    ensures Killed(Outcomes(run, b, at)) == {} && FalseKilled(Outcomes(run, b, at)) == {}
  {
    forall k, j
      ensures !WrongCaught(run, b, at, k, j) && !ControlCaught(run, b, at, k, j)
    {
      if 0 <= k < |b.stdins| {
        FaithfulNotCaught(run, b.task, QueryStart(run, b, at, k), b.stdins[k], b.task.wrongs, WrongsFrom(b.task), j, answer);
        FaithfulNotCaught(run, b.task, QueryStart(run, b, at, k), b.stdins[k], b.task.controls, ControlsFrom(b.task), j, answer);
      }
    }
    forall sha
      ensures sha !in Killed(Outcomes(run, b, at)) && sha !in FalseKilled(Outcomes(run, b, at))
    {
      KilledIff(run, b, at, sha);
    }
  }

  lemma FaithfulNotCaught(run: Executor, task: Task, at: nat, stdin: string, programs: seq<Program>, offset: nat,
      j: int,
      answer: string -> string)
    requires forall n: nat, p, s | p in task.oracles + programs :: run(n, p, s).completed && run(n, p, s).output == answer(s)
    ensures !Caught(run, task, at, stdin, programs, offset, j)
  {
    if 0 <= j < |programs| {
      assert programs[j] in task.oracles + programs;
      forall v | Shown(run, task, at, stdin, v)
        ensures v == answer(stdin)
      {
        assert task.oracles[0] in task.oracles + programs;
        assert run(at + 0, task.oracles[0], stdin).output == v;
      }
    }
  }

  /** A wrong program that never completes is killed as soon as one proposal resolves. */
  lemma HangingProgramIsKilled(run: Executor, b: Batch, at: nat, j: nat, k: nat)
    requires j < |b.task.wrongs| && k < |b.stdins|
    requires forall n: nat, stdin :: !run(n, b.task.wrongs[j], stdin).completed
    requires Agreed(run, b.task, QueryStart(run, b, at, k), b.stdins[k])
    ensures b.task.wrongs[j].sha in Killed(Outcomes(run, b, at))
  {
    KilledIff(run, b, at, b.task.wrongs[j].sha);
    assert WrongCaught(run, b, at, k, j);
  }

  // ---------------------------------------------------------------- the other numbers of a task

  /** The positions of the outcomes without an answer. */
  function Abstaining(os: seq<Outcome>): set<int> {
    set k | 0 <= k < |os| && !os[k].resolved
  }

  lemma AbstainingNext(os: seq<Outcome>, o: Outcome)
    ensures Abstaining(os + [o]) == Abstaining(os) + if o.resolved then {} else {|os|}
  {
    var more := os + [o];
    assert forall k | 0 <= k < |os| :: more[k] == os[k];
  }

  lemma {:induction false} AbstainedCounts(os: seq<Outcome>)
    ensures Abstained(os) == |Abstaining(os)|
  {
    if os != [] {
      var n := |os| - 1;
      assert os == os[..n] + [os[n]];
      AbstainedCounts(os[..n]);
      AbstainingNext(os[..n], os[n]);
      OutcomesStep(os[..n], os[n]);
    }
  }

  /** The query is without an answer: its oracle programs did not all complete and agree. */
  ghost predicate Unanswered(run: Executor, b: Batch, at: nat, k: int) {
    0 <= k < |b.stdins| && !Agreed(run, b.task, QueryStart(run, b, at, k), b.stdins[k])
  }

  /** A task abstains once for every query whose oracle programs do not all complete and agree. */
  lemma AbstainedIff(run: Executor, b: Batch, at: nat)
    ensures Abstained(Outcomes(run, b, at)) == |set k | 0 <= k < |b.stdins| && Unanswered(run, b, at, k)|
    ensures at + Executions(Outcomes(run, b, at)) == QueryStart(run, b, at, |b.stdins|)
  {
    var judge := ForTask(run, b.task);
    TaskTells(run, b.task);
    Unanswers(run, b, at, judge);
    StartsThere(run, b, at, |b.stdins|, judge);
    assert b.stdins[..|b.stdins|] == b.stdins;
  }

  lemma Unanswers(run: Executor, b: Batch, at: nat, judge: Judging)
    requires AlwaysTells(judge, run, b.task)
    ensures Abstained(JudgeAll(judge, at, b.stdins)) == |set k | 0 <= k < |b.stdins| && Unanswered(run, b, at, k)|
  {
    var os := JudgeAll(judge, at, b.stdins);
    AbstainedCounts(os);
    if b.stdins == [] {
      assert os == [];
    } else {
      JudgedAt(judge, at, b.stdins, 0);
    }
    forall k | 0 <= k < |b.stdins| ensures !os[k].resolved <==> Unanswered(run, b, at, k) {
      OutcomeTells(run, b, at, k, judge);
    }
    assert Abstaining(os) == (set k | 0 <= k < |b.stdins| && Unanswered(run, b, at, k));
  }

  ghost predicate SomeCaught(run: Executor, b: Batch, at: nat, k: int) {
    exists j :: WrongCaught(run, b, at, k, j)
  }

  /** The first finding is the first query, counted from one, in which some wrong program is caught. */
  lemma FirstFindingIff(run: Executor, b: Batch, at: nat, q: nat)
    ensures IsFirstFinding(Outcomes(run, b, at), Some(q)) <==>
              && 1 <= q <= |b.stdins| && SomeCaught(run, b, at, q - 1)
              && forall k | 0 <= k < q - 1 :: !SomeCaught(run, b, at, k)
  {
    var judge := ForTask(run, b.task);
    TaskTells(run, b.task);
    FindsFirst(run, b, at, q, judge);
  }

  lemma QueryKills(run: Executor, b: Batch, at: nat, k: nat, judge: Judging)
    requires k < |b.stdins| && AlwaysTells(judge, run, b.task)
    ensures var os := JudgeAll(judge, at, b.stdins);
      |os| == |b.stdins| && (os[k].killed != {} <==> SomeCaught(run, b, at, k))
  {
    var os := JudgeAll(judge, at, b.stdins);
    OutcomeTells(run, b, at, k, judge);
    if os[k].killed != {} {
      var sha :| sha in os[k].killed;
      QueryTells(run, b, at, k, sha, judge);
    }
    forall j | WrongCaught(run, b, at, k, j) ensures b.task.wrongs[j].sha in os[k].killed {
      QueryTells(run, b, at, k, b.task.wrongs[j].sha, judge);
    }
  }

  lemma FindsFirst(run: Executor, b: Batch, at: nat, q: nat, judge: Judging)
    requires AlwaysTells(judge, run, b.task)
    ensures IsFirstFinding(JudgeAll(judge, at, b.stdins), Some(q)) <==>
              && 1 <= q <= |b.stdins| && SomeCaught(run, b, at, q - 1)
              && forall k | 0 <= k < q - 1 :: !SomeCaught(run, b, at, k)
  {
    var os := JudgeAll(judge, at, b.stdins);
    if b.stdins == [] {
      assert os == [];
    } else {
      JudgedAt(judge, at, b.stdins, 0);
    }
    forall k | 0 <= k < |b.stdins| ensures os[k].killed != {} <==> SomeCaught(run, b, at, k) {
      QueryKills(run, b, at, k, judge);
    }
  }

  // ---------------------------------------------------------------- time

  /** The same time, n times. */
  function Times(w: nat, n: nat): nat {
    if n == 0 then 0 else Times(w, n - 1) + w
  }

  lemma {:induction false} Distributes(w: nat, a: nat, b: nat)
    ensures Times(w, a + b) == Times(w, a) + Times(w, b)
  {
    if b > 0 { Distributes(w, a, b - 1); }
  }

  lemma {:induction false} TimesIsProduct(w: nat, n: nat)
    ensures Times(w, n) == w * n
  {
    if n > 0 {
      TimesIsProduct(w, n - 1);
      assert w * n == w * (n - 1) + w;
    }
  }

  lemma {:induction false} WallsAlike(es: seq<Execution>, w: nat)
    requires forall e | e in es :: e.wall == w
    ensures Wall(es) == Times(w, |es|)
  {
    if es != [] {
      WallsAlike(es[..|es| - 1], w);
    }
  }

  /** Marks the executions whose time is needed. */
  predicate Timed(n: nat, p: Program, stdin: string) { n >= 0 }

  ghost predicate AlwaysTakes(run: Executor, w: nat) {
    forall n: nat, p, s {:trigger Timed(n, p, s)} :: Timed(n, p, s) ==> run(n, p, s).wall == w
  }

  lemma RunsAlike(run: Executor, at: nat, programs: seq<Program>, stdin: string, w: nat)
    requires AlwaysTakes(run, w)
    ensures Wall(RunAll(run, at, programs, stdin)) == Times(w, |programs|)
  {
    var es := RunAll(run, at, programs, stdin);
    forall i | 0 <= i < |es| ensures es[i].wall == w {
      assert Timed(at + i, programs[i], stdin);
    }
    WallsAlike(es, w);
  }

  /** The outcomes' time is in proportion to their executions. */
  ghost predicate TakesEach(judge: Judging, w: nat) {
    forall at: nat, stdin: string {:trigger Asked(at, stdin)} ::
      Asked(at, stdin) ==> judge(at, stdin).wall == Times(w, judge(at, stdin).executions)
  }

  /** Which programs a judgement executes, and that its time is theirs. */
  lemma JudgeParts(run: Executor, task: Task, at: nat, stdin: string) returns (resolved: bool)
    ensures var judged := Judge(run, at, task, stdin);
      && judged.executions == |task.oracles| + (if resolved then |task.controls| + |task.wrongs| else 0)
      && judged.wall == Wall(RunAll(run, at, task.oracles, stdin))
           + (if resolved then Wall(RunAll(run, at + |task.oracles|, task.controls, stdin))
                               + Wall(RunAll(run, at + |task.oracles| + |task.controls|, task.wrongs, stdin))
              else 0)
  {
    resolved := Judge(run, at, task, stdin).resolved;
  }

  lemma JudgeTakesEach(run: Executor, task: Task, at: nat, stdin: string, w: nat)
    requires AlwaysTakes(run, w)
    ensures Judge(run, at, task, stdin).wall == Times(w, Judge(run, at, task, stdin).executions)
  {
    var resolved := JudgeParts(run, task, at, stdin);
    RunsAlike(run, at, task.oracles, stdin, w);
    if resolved {
      RunsAlike(run, at + |task.oracles|, task.controls, stdin, w);
      RunsAlike(run, at + |task.oracles| + |task.controls|, task.wrongs, stdin, w);
      AddUp(Judge(run, at, task, stdin), w, |task.oracles|, |task.controls|, |task.wrongs|);
    }
  }

  lemma AddUp(o: Outcome, w: nat, a: nat, b: nat, c: nat)
    requires o.executions == a + (b + c) && o.wall == Times(w, a) + (Times(w, b) + Times(w, c))
    ensures o.wall == Times(w, o.executions)
  {
    ThreeTimes(w, a, b, c);
  }

  lemma ThreeTimes(w: nat, a: nat, b: nat, c: nat)
    ensures Times(w, a + b + c) == Times(w, a) + Times(w, b) + Times(w, c)
  {
    Distributes(w, a, b);
    Distributes(w, a + b, c);
  }

  lemma WallsStep(before: seq<Outcome>, o: Outcome, w: nat)
    requires Walls(before) == Times(w, Executions(before)) && o.wall == Times(w, o.executions)
    ensures Walls(before + [o]) == Times(w, Executions(before + [o]))
  {
    OutcomesStep(before, o);
    Distributes(w, Executions(before), o.executions);
  }

  lemma JudgeAllStep(judge: Judging, at: nat, stdins: seq<string>)
    requires stdins != []
    ensures var before := JudgeAll(judge, at, stdins[..|stdins| - 1]);
      JudgeAll(judge, at, stdins) == before + [judge(at + Executions(before), stdins[|stdins| - 1])]
  {
  }

  lemma {:induction false} WallsProportional(judge: Judging, at: nat, stdins: seq<string>, w: nat)
    requires TakesEach(judge, w)
    ensures Walls(JudgeAll(judge, at, stdins)) == Times(w, Executions(JudgeAll(judge, at, stdins)))
  {
    if stdins != [] {
      var n := |stdins| - 1;
      var before := JudgeAll(judge, at, stdins[..n]);
      var start := at + Executions(before);
      WallsProportional(judge, at, stdins[..n], w);
      assert Asked(start, stdins[n]);
      WallsStep(before, judge(start, stdins[n]), w);
      JudgeAllStep(judge, at, stdins);
    }
  }

  /** If every execution takes the same time, a task takes that time once for every execution it counts. */
  lemma WallIsPerExecution(run: Executor, b: Batch, at: nat, w: nat)
    requires forall n: nat, p, s :: run(n, p, s).wall == w
    ensures Walls(Outcomes(run, b, at)) == w * Executions(Outcomes(run, b, at))
  {
    forall from: nat, stdin: string {:trigger Asked(from, stdin)} | Asked(from, stdin)
      ensures ForTask(run, b.task)(from, stdin).wall == Times(w, ForTask(run, b.task)(from, stdin).executions)
    {
      JudgeTakesEach(run, b.task, from, stdin, w);
    }
    WallsProportional(ForTask(run, b.task), at, b.stdins, w);
    TimesIsProduct(w, Executions(Outcomes(run, b, at)));
  }
}
