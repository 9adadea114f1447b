/**
  The scorer's nested loops: proposals of a task are run against its oracle programs, then against
  controls and wrong programs. Every execution may turn out differently, so an execution's result
  also depends on how many came before it.
*/
module Scoring {
  import opened Wrappers

  datatype Program = Program(sha: string)
  datatype Task = Task(id: string, oracles: seq<Program>, controls: seq<Program>, wrongs: seq<Program>)

  /** The output is already normalised. */
  datatype Execution = Execution(completed: bool, output: string, wall: nat)

  /** Position in the run, program, standard input. */
  type Executor = (nat, Program, string) -> Execution

  // ---------------------------------------------------------------- specification

  /** Running the programs one after the other, starting as execution number `at`. */
  function RunAll(run: Executor, at: nat, programs: seq<Program>, stdin: string): seq<Execution> {
    seq(|programs|, i requires 0 <= i < |programs| => run(at + i, programs[i], stdin))
  }

  function Wall(executions: seq<Execution>): nat {
    if executions == [] then 0 else Wall(executions[..|executions| - 1]) + executions[|executions| - 1].wall
  }

  /** All oracle programs completed and agree. */
  predicate Resolved(oracles: seq<Execution>) {
    && oracles != []
    && (forall i | 0 <= i < |oracles| :: oracles[i].completed)
    && (forall i, j | 0 <= i < |oracles| && 0 <= j < |oracles| :: oracles[i].output == oracles[j].output)
  }

  predicate Differs(e: Execution, expected: string) {
    !e.completed || e.output != expected
  }

  /** The programs whose execution is not the expected output. */
  function Found(programs: seq<Program>, executions: seq<Execution>, expected: string): set<string>
    requires |programs| == |executions|
  {
    set i | 0 <= i < |programs| && Differs(executions[i], expected) :: programs[i].sha
  }

  /** What one proposal contributes. */
  datatype Outcome = Outcome(killed: set<string>, falseKilled: set<string>, resolved: bool, executions: nat, wall: nat)

  function Judge(run: Executor, at: nat, task: Task, stdin: string): Outcome {
    var o := RunAll(run, at, task.oracles, stdin);
    if !Resolved(o) then Outcome({}, {}, false, |o|, Wall(o))
    else
      var c := RunAll(run, at + |o|, task.controls, stdin);
      var w := RunAll(run, at + |o| + |c|, task.wrongs, stdin);
      var expected := o[0].output;
      Outcome(Found(task.wrongs, w, expected), Found(task.controls, c, expected), true,
              |o| + |c| + |w|, Wall(o) + Wall(c) + Wall(w))
  }

  /** Judging one input of a task from a given position of the run on. */
  type Judging = (nat, string) -> Outcome

  function ForTask(run: Executor, task: Task): Judging {
    (at: nat, stdin: string) => Judge(run, at, task, stdin)
  }

  /** Marks the questions for which the definition of a judging is needed. */
  predicate Asked(at: nat, stdin: string) { at >= 0 }

  ghost predicate Judges(judge: Judging, run: Executor, task: Task) {
    forall at: nat, stdin: string {:trigger Asked(at, stdin)} ::
      Asked(at, stdin) ==> judge(at, stdin) == Judge(run, at, task, stdin)
  }

  lemma ForTaskJudges(run: Executor, task: Task)
    ensures Judges(ForTask(run, task), run, task)
  {
  }

  /** The outcomes of a task's proposals, in query order. */
  function JudgeAll(judge: Judging, at: nat, stdins: seq<string>): seq<Outcome> {
    if stdins == [] then []
    else
      var before := JudgeAll(judge, at, stdins[..|stdins| - 1]);
      before + [judge(at + Executions(before), stdins[|stdins| - 1])]
  }

  /** The inputs proposed for a task, in query order. */
  datatype Batch = Batch(task: Task, stdins: seq<string>)

  function Outcomes(run: Executor, b: Batch, at: nat): seq<Outcome> {
    JudgeAll(ForTask(run, b.task), at, b.stdins)
  }

  function Executions(outcomes: seq<Outcome>): nat {
    if outcomes == [] then 0 else Executions(outcomes[..|outcomes| - 1]) + outcomes[|outcomes| - 1].executions
  }

  function Walls(outcomes: seq<Outcome>): nat {
    if outcomes == [] then 0 else Walls(outcomes[..|outcomes| - 1]) + outcomes[|outcomes| - 1].wall
  }

  function Killed(outcomes: seq<Outcome>): set<string> {
    set o, p | o in outcomes && p in o.killed :: p
  }

  function FalseKilled(outcomes: seq<Outcome>): set<string> {
    set o, p | o in outcomes && p in o.falseKilled :: p
  }

  function Abstained(outcomes: seq<Outcome>): nat {
    if outcomes == [] then 0
    else Abstained(outcomes[..|outcomes| - 1]) + if outcomes[|outcomes| - 1].resolved then 0 else 1
  }

  /** The least query, counted from one, that kills something. */
  ghost predicate IsFirstFinding(outcomes: seq<Outcome>, first: Option<nat>) {
    match first
    case None => forall k | 0 <= k < |outcomes| :: outcomes[k].killed == {}
    case Some(q) =>
      && 1 <= q <= |outcomes| && outcomes[q - 1].killed != {}
      && forall k | 0 <= k < q - 1 :: outcomes[k].killed == {}
  }

  datatype TaskScore = TaskScore(task: Task, candidates: nat, killed: nat, falseKilled: nat, abstained: nat,
                                 first: Option<nat>, executions: nat, wall: nat)

  /** The score of a task is what its outcomes say. */
  ghost predicate Scores(score: TaskScore, task: Task, outcomes: seq<Outcome>) {
    && score.task == task && score.candidates == |outcomes|
    && score.killed == |Killed(outcomes)| && score.falseKilled == |FalseKilled(outcomes)|
    && score.abstained == Abstained(outcomes) && IsFirstFinding(outcomes, score.first)
    && score.executions == Executions(outcomes) && score.wall == Walls(outcomes)
  }

  // ---------------------------------------------------------------- one proposal

  lemma {:induction false} RunAllStep(run: Executor, at: nat, programs: seq<Program>, stdin: string, n: nat)
    requires n < |programs|
    ensures var executions := RunAll(run, at, programs, stdin);
      && executions[..n + 1] == executions[..n] + [run(at + n, programs[n], stdin)]
      && Wall(executions[..n + 1]) == Wall(executions[..n]) + run(at + n, programs[n], stdin).wall
  {
    var executions := RunAll(run, at, programs, stdin);
    assert executions[..n + 1] == executions[..n] + [executions[n]];
    assert executions[..n + 1][..n] == executions[..n];
  }

  /** The programs found among the first `n`. */
  function FoundFirst(programs: seq<Program>, executions: seq<Execution>, expected: string, n: nat): set<string>
    requires n <= |programs| == |executions|
  {
    set i | 0 <= i < n && Differs(executions[i], expected) :: programs[i].sha
  }

  method RunOracles(run: Executor, at: nat, programs: seq<Program>, stdin: string)
      returns (expected: Option<string>, wall: nat)
    ensures expected.Some? <==> Resolved(RunAll(run, at, programs, stdin))
    ensures expected.Some? ==> expected.value == RunAll(run, at, programs, stdin)[0].output
    ensures wall == Wall(RunAll(run, at, programs, stdin))
  {
    ghost var all := RunAll(run, at, programs, stdin);
    var ok := true;
    var outputs: seq<string> := [];
    wall := 0;
    for i := 0 to |programs|
      invariant wall == Wall(all[..i])
      invariant ok <==> forall k | 0 <= k < i :: all[k].completed
      invariant ok ==> |outputs| == i && forall k | 0 <= k < i :: outputs[k] == all[k].output
    {
      RunAllStep(run, at, programs, stdin, i);
      var result := run(at + i, programs[i], stdin);
      wall := wall + result.wall;
      if result.completed {
        outputs := outputs + [result.output];
      } else {
        ok := false;
      }
    }
    assert all[..|programs|] == all;
    if !ok || outputs == [] || exists k :: 0 <= k < |outputs| && outputs[k] != outputs[0] {
      expected := None;
    } else {
      expected := Some(outputs[0]);
    }
  }

  /** Controls and wrong programs go through the same loop. */
  method RunAgainst(run: Executor, at: nat, programs: seq<Program>, stdin: string, expected: string)
      returns (found: set<string>, wall: nat)
    ensures found == Found(programs, RunAll(run, at, programs, stdin), expected)
    ensures wall == Wall(RunAll(run, at, programs, stdin))
  {
    ghost var all := RunAll(run, at, programs, stdin);
    found, wall := {}, 0;
    for i := 0 to |programs|
      invariant found == FoundFirst(programs, all, expected, i)
      invariant wall == Wall(all[..i])
    {
      RunAllStep(run, at, programs, stdin, i);
      var result := run(at + i, programs[i], stdin);
      wall := wall + result.wall;
      if !result.completed || result.output != expected {
        found := found + {programs[i].sha};
      }
    }
    assert all[..|programs|] == all;
    assert FoundFirst(programs, all, expected, |programs|) == Found(programs, all, expected);
  }

  // ---------------------------------------------------------------- one task

  /** The counters kept over all tasks of a generator. */
  datatype Totals = Totals(killed: set<(string, string)>, falseKilled: set<(string, string)>, abstained: nat,
                           executions: nat, wall: nat, firsts: seq<nat>)

  function Tagged(id: string, shas: set<string>): set<(string, string)> {
    set p | p in shas :: (id, p)
  }

  function FirstList(first: Option<nat>): seq<nat> {
    if first.Some? then [first.value] else []
  }

  function AddQuery(t: Totals, id: string, o: Outcome): Totals {
    t.(killed := t.killed + Tagged(id, o.killed), falseKilled := t.falseKilled + Tagged(id, o.falseKilled),
       abstained := t.abstained + (if o.resolved then 0 else 1),
       executions := t.executions + o.executions, wall := t.wall + o.wall)
  }

  function AddQueries(t: Totals, id: string, outcomes: seq<Outcome>): Totals {
    if outcomes == [] then t
    else AddQuery(AddQueries(t, id, outcomes[..|outcomes| - 1]), id, outcomes[|outcomes| - 1])
  }

  method ScoreQuery(run: Executor, task: Task, stdin: string, at: nat, ghost judge: Judging) returns (o: Outcome)
    requires Judges(judge, run, task)
    ensures o == judge(at, stdin)
  {
    assert Asked(at, stdin);
    var expected, wall := RunOracles(run, at, task.oracles, stdin);
    if expected.None? {
      return Outcome({}, {}, false, |task.oracles|, wall);
    }
    var next := at + |task.oracles|;
    var falseKilled, controlWall := RunAgainst(run, next, task.controls, stdin, expected.value);
    next := next + |task.controls|;
    var killed, wrongWall := RunAgainst(run, next, task.wrongs, stdin, expected.value);
    o := Outcome(killed, falseKilled, true, |task.oracles| + |task.controls| + |task.wrongs|,
                 wall + controlWall + wrongWall);
  }

  lemma OutcomesStep(outcomes: seq<Outcome>, o: Outcome)
    ensures Killed(outcomes + [o]) == Killed(outcomes) + o.killed
    ensures FalseKilled(outcomes + [o]) == FalseKilled(outcomes) + o.falseKilled
    ensures Executions(outcomes + [o]) == Executions(outcomes) + o.executions
    ensures Walls(outcomes + [o]) == Walls(outcomes) + o.wall
    ensures Abstained(outcomes + [o]) == Abstained(outcomes) + if o.resolved then 0 else 1
  {
    assert (outcomes + [o])[..|outcomes|] == outcomes;
    assert forall x :: x in outcomes + [o] <==> x in outcomes || x == o;
  }

  lemma {:induction false} TotalsOfQueries(t: Totals, id: string, outcomes: seq<Outcome>)
    ensures var u := AddQueries(t, id, outcomes);
      && u.killed == t.killed + Tagged(id, Killed(outcomes))
      && u.falseKilled == t.falseKilled + Tagged(id, FalseKilled(outcomes))
      && u.abstained == t.abstained + Abstained(outcomes)
      && u.executions == t.executions + Executions(outcomes) && u.wall == t.wall + Walls(outcomes)
      && u.firsts == t.firsts
  {
    if outcomes != [] {
      var front, o := outcomes[..|outcomes| - 1], outcomes[|outcomes| - 1];
      assert outcomes == front + [o];
      TotalsOfQueries(t, id, front);
      OutcomesStep(front, o);
      assert Tagged(id, Killed(front) + o.killed) == Tagged(id, Killed(front)) + Tagged(id, o.killed);
      assert Tagged(id, FalseKilled(front) + o.falseKilled) == Tagged(id, FalseKilled(front)) + Tagged(id, o.falseKilled);
    }
  }

  /** The totals once a task with these outcomes is through. */
  function AfterTask(t: Totals, id: string, outcomes: seq<Outcome>, first: Option<nat>): Totals {
    Totals(t.killed + Tagged(id, Killed(outcomes)), t.falseKilled + Tagged(id, FalseKilled(outcomes)),
           t.abstained + Abstained(outcomes), t.executions + Executions(outcomes), t.wall + Walls(outcomes),
           t.firsts + FirstList(first))
  }

  /** The counters kept for one task. */
  datatype Local = Local(killed: set<string>, falseKilled: set<string>, abstained: nat, executions: nat, wall: nat,
                         first: Option<nat>)

  ghost predicate Counts(l: Local, outcomes: seq<Outcome>) {
    && l.killed == Killed(outcomes) && l.falseKilled == FalseKilled(outcomes)
    && l.abstained == Abstained(outcomes) && l.executions == Executions(outcomes) && l.wall == Walls(outcomes)
    && IsFirstFinding(outcomes, l.first)
  }

  /** Query number `q` turned out as `o`. */
  function AddLocal(l: Local, q: nat, o: Outcome): Local {
    Local(l.killed + o.killed, l.falseKilled + o.falseKilled, l.abstained + (if o.resolved then 0 else 1),
          l.executions + o.executions, l.wall + o.wall,
          if o.killed != {} && l.first.None? then Some(q) else l.first)
  }

  lemma CountsStep(l: Local, outcomes: seq<Outcome>, o: Outcome)
    requires Counts(l, outcomes)
    ensures Counts(AddLocal(l, |outcomes| + 1, o), outcomes + [o])
  {
    OutcomesStep(outcomes, o);
    var more := outcomes + [o];
    assert forall k | 0 <= k < |outcomes| :: more[k] == outcomes[k];
    assert more[|outcomes|] == o;
  }

  lemma AddStep(t: Totals, id: string, outcomes: seq<Outcome>, o: Outcome)
    ensures AddQueries(t, id, outcomes + [o]) == AddQuery(AddQueries(t, id, outcomes), id, o)
    ensures AddQueries(t, id, outcomes).executions == t.executions + Executions(outcomes)
  {
    assert (outcomes + [o])[..|outcomes|] == outcomes;
    TotalsOfQueries(t, id, outcomes);
  }

  /** Where the loop over the queries stands. */
  datatype Progress = Progress(local: Local, totals: Totals, queries: nat)

  function Advance(p: Progress, id: string, q: nat, o: Outcome): Progress {
    Progress(AddLocal(p.local, q, o), AddQuery(p.totals, id, o), q)
  }

  ghost predicate Follows(p: Progress, start: Totals, id: string, outcomes: seq<Outcome>) {
    && p.queries == |outcomes| && Counts(p.local, outcomes)
    && p.totals == AddQueries(start, id, outcomes)
    && p.totals.executions == start.executions + Executions(outcomes)
  }

  function Begin(start: Totals): Progress {
    Progress(Local({}, {}, 0, 0, 0, None), start, 0)
  }

  lemma FollowsBegin(start: Totals, id: string)
    ensures Follows(Begin(start), start, id, [])
  {
  }

  lemma FollowsStep(p: Progress, start: Totals, id: string, outcomes: seq<Outcome>, o: Outcome)
    requires Follows(p, start, id, outcomes)
    ensures Follows(Advance(p, id, |outcomes| + 1, o), start, id, outcomes + [o])
  {
    CountsStep(p.local, outcomes, o);
    AddStep(start, id, outcomes, o);
    OutcomesStep(outcomes, o);
  }

  lemma QueryStep(judge: Judging, asked: seq<string>, stdin: string, start: Totals, id: string,
                  p: Progress, outcomes: seq<Outcome>)
    requires outcomes == JudgeAll(judge, start.executions, asked) && |outcomes| == |asked|
    requires Follows(p, start, id, outcomes)
    ensures var o := judge(p.totals.executions, stdin);
      && JudgeAll(judge, start.executions, asked + [stdin]) == outcomes + [o]
      && Follows(Advance(p, id, |asked| + 1, o), start, id, outcomes + [o])
  {
    assert (asked + [stdin])[..|asked|] == asked;
    FollowsStep(p, start, id, outcomes, judge(p.totals.executions, stdin));
  }

  method ScoreNextQuery(run: Executor, task: Task, stdin: string, start: Totals, p: Progress,
                        ghost judge: Judging, ghost asked: seq<string>, ghost outcomes: seq<Outcome>)
      returns (next: Progress, ghost more: seq<Outcome>)
    requires Judges(judge, run, task) && Follows(p, start, task.id, outcomes)
    requires outcomes == JudgeAll(judge, start.executions, asked) && |outcomes| == |asked|
    ensures more == JudgeAll(judge, start.executions, asked + [stdin]) && |more| == |asked| + 1
    ensures Follows(next, start, task.id, more)
  {
    var o := ScoreQuery(run, task, stdin, p.totals.executions, judge);
    QueryStep(judge, asked, stdin, start, task.id, p, outcomes);
    next, more := Advance(p, task.id, p.queries + 1, o), outcomes + [o];
  }

  method ScoreQueries(run: Executor, task: Task, stdins: seq<string>, start: Totals, ghost judge: Judging)
      returns (p: Progress, ghost outcomes: seq<Outcome>)
    requires Judges(judge, run, task)
    ensures outcomes == JudgeAll(judge, start.executions, stdins) && |outcomes| == |stdins|
    ensures Follows(p, start, task.id, outcomes)
  {
    p, outcomes := Begin(start), [];
    FollowsBegin(start, task.id);
    for q := 0 to |stdins|
      invariant outcomes == JudgeAll(judge, start.executions, stdins[..q]) && |outcomes| == q
      invariant Follows(p, start, task.id, outcomes)
    {
      assert stdins[..q + 1] == stdins[..q] + [stdins[q]];
      p, outcomes := ScoreNextQuery(run, task, stdins[q], start, p, judge, stdins[..q], outcomes);
    }
    assert stdins[..|stdins|] == stdins;
  }

  function ScoreOf(b: Batch, l: Local): TaskScore {
    TaskScore(b.task, |b.stdins|, |l.killed|, |l.falseKilled|, l.abstained, l.first, l.executions, l.wall)
  }

  lemma TaskDone(b: Batch, p: Progress, start: Totals, outcomes: seq<Outcome>)
    requires Follows(p, start, b.task.id, outcomes) && |outcomes| == |b.stdins|
    ensures Scores(ScoreOf(b, p.local), b.task, outcomes)
    ensures p.totals.(firsts := p.totals.firsts + FirstList(p.local.first))
         == AfterTask(start, b.task.id, outcomes, p.local.first)
  {
    TotalsOfQueries(start, b.task.id, outcomes);
  }

  /** One task: local counters and totals are updated by the same loop. */
  method ScoreTask(run: Executor, b: Batch, start: Totals) returns (score: TaskScore, totals: Totals)
    ensures Scores(score, b.task, Outcomes(run, b, start.executions))
    ensures totals == AfterTask(start, b.task.id, Outcomes(run, b, start.executions), score.first)
  {
    ForTaskJudges(run, b.task);
    var p, outcomes := ScoreQueries(run, b.task, b.stdins, start, ForTask(run, b.task));
    TaskDone(b, p, start, outcomes);
    totals := p.totals.(firsts := p.totals.firsts + FirstList(p.local.first));
    score := ScoreOf(b, p.local);
  }
}
