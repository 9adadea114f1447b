/** The aggregate of a generator against the scores of its tasks, and what the counters mean. */
module ScoringTotals {
  import opened Ordering
  import opened Scoring
  import opened Sorting
  import opened Wrappers

  datatype Sums = Sums(killed: nat, falseKilled: nat, abstained: nat, executions: nat, wall: nat, firsts: seq<nat>)

  function AddScore(s: Sums, score: TaskScore): Sums {
    Sums(s.killed + score.killed, s.falseKilled + score.falseKilled, s.abstained + score.abstained,
         s.executions + score.executions, s.wall + score.wall, s.firsts + FirstList(score.first))
  }

  function SumScores(scores: seq<TaskScore>): Sums {
    if scores == [] then Sums(0, 0, 0, 0, 0, [])
    else AddScore(SumScores(scores[..|scores| - 1]), scores[|scores| - 1])
  }

  /** The aggregate's counters, its sets by their sizes. */
  function SumsOf(t: Totals): Sums {
    Sums(|t.killed|, |t.falseKilled|, t.abstained, t.executions, t.wall, t.firsts)
  }

  /** The batches come from a dictionary, so no task appears twice. */
  predicate DistinctTasks(batches: seq<Batch>) {
    forall i, j | 0 <= i < j < |batches| :: batches[i].task.id != batches[j].task.id
  }

  function Ids(batches: seq<Batch>): set<string> {
    set b | b in batches :: b.task.id
  }

  predicate OnlyFrom(found: set<(string, string)>, ids: set<string>) {
    forall f | f in found :: f.0 in ids
  }

  lemma {:induction false} TaggedSize(id: string, shas: set<string>)
    ensures |Tagged(id, shas)| == |shas|
  {
    if shas == {} {
      assert Tagged(id, shas) == {};
    } else {
      var p :| p in shas;
      TaggedSize(id, shas - {p});
      assert Tagged(id, shas) == Tagged(id, shas - {p}) + {(id, p)};
    }
  }

  lemma TaggedAdds(found: set<(string, string)>, ids: set<string>, id: string, shas: set<string>)
    requires OnlyFrom(found, ids) && id !in ids
    ensures |found + Tagged(id, shas)| == |found| + |shas|
    ensures OnlyFrom(found + Tagged(id, shas), ids + {id})
  {
    TaggedSize(id, shas);
    assert found !! Tagged(id, shas);
  }

  /** The aggregate so far is the sum of the scores so far, over these tasks. */
  ghost predicate Aggregates(t: Totals, ids: set<string>, sums: Sums) {
    SumsOf(t) == sums && OnlyFrom(t.killed, ids) && OnlyFrom(t.falseKilled, ids)
  }

  lemma AggregatesStep(t: Totals, ids: set<string>, sums: Sums, task: Task, score: TaskScore, outcomes: seq<Outcome>)
    requires Aggregates(t, ids, sums) && Scores(score, task, outcomes) && task.id !in ids
    ensures Aggregates(AfterTask(t, task.id, outcomes, score.first), ids + {task.id}, AddScore(sums, score))
  {
    TaggedAdds(t.killed, ids, task.id, Killed(outcomes));
    TaggedAdds(t.falseKilled, ids, task.id, FalseKilled(outcomes));
  }

  /** The score at `i` is that of its task, judged from where the tasks before it ended. */
  ghost predicate ScoredAt(run: Executor, batches: seq<Batch>, scores: seq<TaskScore>, i: nat)
    requires i < |batches| == |scores|
  {
    Scores(scores[i], batches[i].task, Outcomes(run, batches[i], SumScores(scores[..i]).executions))
  }

  ghost predicate AllScored(run: Executor, batches: seq<Batch>, scores: seq<TaskScore>) {
    |scores| == |batches| && forall i | 0 <= i < |batches| :: ScoredAt(run, batches, scores, i)
  }

  lemma ScoredStep(run: Executor, batches: seq<Batch>, scores: seq<TaskScore>, b: Batch, score: TaskScore)
    requires AllScored(run, batches, scores)
    requires Scores(score, b.task, Outcomes(run, b, SumScores(scores).executions))
    ensures AllScored(run, batches + [b], scores + [score])
    ensures SumScores(scores + [score]) == AddScore(SumScores(scores), score)
    ensures Ids(batches + [b]) == Ids(batches) + {b.task.id}
  {
    var moreBatches, moreScores := batches + [b], scores + [score];
    assert moreScores[..|scores|] == scores;
    forall i | 0 <= i < |moreBatches|
      ensures ScoredAt(run, moreBatches, moreScores, i)
    {
      if i < |batches| {
        assert ScoredAt(run, batches, scores, i);
        assert moreScores[..i] == scores[..i];
      }
    }
  }

  lemma NewTask(batches: seq<Batch>, i: nat)
    requires DistinctTasks(batches) && i < |batches|
    ensures batches[i].task.id !in Ids(batches[..i])
  {
  }

  lemma GeneratorStep(run: Executor, batches: seq<Batch>, scores: seq<TaskScore>, totals: Totals, b: Batch,
      score: TaskScore)
    requires AllScored(run, batches, scores) && Aggregates(totals, Ids(batches), SumScores(scores))
    requires b.task.id !in Ids(batches)
    requires Scores(score, b.task, Outcomes(run, b, totals.executions))
    ensures AllScored(run, batches + [b], scores + [score])
    ensures Aggregates(AfterTask(totals, b.task.id, Outcomes(run, b, totals.executions), score.first),
                       Ids(batches + [b]), SumScores(scores + [score]))
  {
    AggregatesStep(totals, Ids(batches), SumScores(scores), b.task, score, Outcomes(run, b, totals.executions));
    ScoredStep(run, batches, scores, b, score);
  }

  method ScoreNext(run: Executor, b: Batch, ghost batches: seq<Batch>, scores: seq<TaskScore>, totals: Totals)
      returns (score: TaskScore, more: Totals)
    requires AllScored(run, batches, scores) && Aggregates(totals, Ids(batches), SumScores(scores))
    requires b.task.id !in Ids(batches)
    ensures AllScored(run, batches + [b], scores + [score])
    ensures Aggregates(more, Ids(batches + [b]), SumScores(scores + [score]))
  {
    score, more := ScoreTask(run, b, totals);
    GeneratorStep(run, batches, scores, totals, b, score);
  }

  /**
    All tasks of one generator. Every task's score is what its own outcomes say, the executions of a
    task start where those of the tasks before it end, and the aggregate is the sum of the scores.
  */
  method ScoreGenerator(run: Executor, batches: seq<Batch>) returns (scores: seq<TaskScore>, totals: Totals)
    requires DistinctTasks(batches)
    ensures AllScored(run, batches, scores)
    ensures SumsOf(totals) == SumScores(scores)
  {
    scores, totals := [], Totals({}, {}, 0, 0, 0, []);
    for i := 0 to |batches|
      invariant AllScored(run, batches[..i], scores)
      invariant Aggregates(totals, Ids(batches[..i]), SumScores(scores))
    {
      NewTask(batches, i);
      var score, more := ScoreNext(run, batches[i], batches[..i], scores, totals);
      assert batches[..i + 1] == batches[..i] + [batches[i]];
      scores, totals := scores + [score], more;
    }
    assert batches[..|batches|] == batches;
  }

  // ---------------------------------------------------------------- what the counters mean

  ghost predicate Costs(judge: Judging, oracles: nat, others: nat) {
    forall at: nat, stdin: string :: CostsAsMuch(judge(at, stdin), oracles, others)
  }

  lemma JudgeCosts(run: Executor, task: Task)
    ensures Costs(ForTask(run, task), |task.oracles|, |task.controls| + |task.wrongs|)
  {
  }

  function Cost(n: nat, abstained: nat, oracles: nat, others: nat): int {
    n * oracles + (n - abstained) * others
  }

  lemma CostStep(n: nat, abstained: nat, oracles: nat, others: nat)
    ensures Cost(n + 1, abstained, oracles, others) == Cost(n, abstained, oracles, others) + oracles + others
    ensures Cost(n + 1, abstained + 1, oracles, others) == Cost(n, abstained, oracles, others) + oracles
  {
    assert (n + 1) * oracles == n * oracles + oracles;
    assert (n + 1 - abstained) * others == (n - abstained) * others + others;
  }

  predicate CostsAsMuch(o: Outcome, oracles: nat, others: nat) {
    o.executions == oracles + if o.resolved then others else 0
  }

  ghost predicate Formula(outcomes: seq<Outcome>, oracles: nat, others: nat) {
    && Abstained(outcomes) <= |outcomes|
    && Executions(outcomes) == Cost(|outcomes|, Abstained(outcomes), oracles, others)
  }

  lemma FormulaStep(outcomes: seq<Outcome>, o: Outcome, oracles: nat, others: nat)
    requires Formula(outcomes, oracles, others) && CostsAsMuch(o, oracles, others)
    ensures Formula(outcomes + [o], oracles, others)
  {
    OutcomesStep(outcomes, o);
    CostStep(|outcomes|, Abstained(outcomes), oracles, others);
  }

  lemma {:induction false} CostFormula(judge: Judging, oracles: nat, others: nat, at: nat, stdins: seq<string>)
    requires Costs(judge, oracles, others)
    ensures |JudgeAll(judge, at, stdins)| == |stdins|
    ensures Formula(JudgeAll(judge, at, stdins), oracles, others)
  {
    if stdins == [] {
      assert JudgeAll(judge, at, stdins) == [];
    } else {
      var n := |stdins| - 1;
      CostFormula(judge, oracles, others, at, stdins[..n]);
      var front := JudgeAll(judge, at, stdins[..n]);
      FormulaStep(front, judge(at + Executions(front), stdins[n]), oracles, others);
    }
  }

  /** Every proposal costs the oracle programs; a resolved one also the controls and wrong programs. */
  lemma ExecutionFormula(run: Executor, b: Batch, at: nat)
    ensures |Outcomes(run, b, at)| == |b.stdins|
    ensures Formula(Outcomes(run, b, at), |b.task.oracles|, |b.task.controls| + |b.task.wrongs|)
  {
    JudgeCosts(run, b.task);
    CostFormula(ForTask(run, b.task), |b.task.oracles|, |b.task.controls| + |b.task.wrongs|, at, b.stdins);
  }

  /** The first finding is determined: there is one least killing query or none. */
  lemma FirstFindingIsUnique(outcomes: seq<Outcome>, a: Option<nat>, b: Option<nat>)
    requires IsFirstFinding(outcomes, a) && IsFirstFinding(outcomes, b)
    ensures a == b
    ensures a.Some? <==> Killed(outcomes) != {}
  {
    if a.Some? {
      var k := a.value - 1;
      var p :| p in outcomes[k].killed;
      assert outcomes[k] in outcomes && p in Killed(outcomes);
      if b.Some? {
        assert outcomes[b.value - 1].killed != {};
      }
    } else {
      assert Killed(outcomes) == {};
    }
  }

  function Shas(programs: seq<Program>): set<string> {
    set p | p in programs :: p.sha
  }

  lemma {:induction false} ShasShort(programs: seq<Program>)
    ensures |Shas(programs)| <= |programs|
  {
    if programs != [] {
      var n := |programs| - 1;
      ShasShort(programs[..n]);
      assert Shas(programs) == Shas(programs[..n]) + {programs[n].sha};
    }
  }

  lemma {:induction false} SubsetSize(a: set<string>, b: set<string>)
    requires a <= b
    ensures |a| <= |b|
  {
    if a != {} {
      var x :| x in a;
      SubsetSize(a - {x}, b - {x});
    }
  }

  ghost predicate FindsIn(judge: Judging, wrongs: set<string>, controls: set<string>) {
    forall at: nat, stdin: string :: judge(at, stdin).killed <= wrongs && judge(at, stdin).falseKilled <= controls
  }

  lemma JudgeFindsIn(run: Executor, task: Task)
    ensures FindsIn(ForTask(run, task), Shas(task.wrongs), Shas(task.controls))
  {
  }

  lemma {:induction false} FoundWithin(judge: Judging, wrongs: set<string>, controls: set<string>, at: nat,
      stdins: seq<string>)
    requires FindsIn(judge, wrongs, controls)
    ensures Killed(JudgeAll(judge, at, stdins)) <= wrongs && FalseKilled(JudgeAll(judge, at, stdins)) <= controls
  {
    if stdins != [] {
      var n := |stdins| - 1;
      FoundWithin(judge, wrongs, controls, at, stdins[..n]);
      var front := JudgeAll(judge, at, stdins[..n]);
      OutcomesStep(front, judge(at + Executions(front), stdins[n]));
    }
  }

  /** No recall or false-kill rate exceeds one. */
  lemma RatesAreProper(run: Executor, b: Batch, at: nat, score: TaskScore)
    requires Scores(score, b.task, Outcomes(run, b, at))
    ensures score.killed <= |b.task.wrongs| && score.falseKilled <= |b.task.controls|
  {
    var outcomes := Outcomes(run, b, at);
    JudgeFindsIn(run, b.task);
    FoundWithin(ForTask(run, b.task), Shas(b.task.wrongs), Shas(b.task.controls), at, b.stdins);
    SubsetSize(Killed(outcomes), Shas(b.task.wrongs));
    SubsetSize(FalseKilled(outcomes), Shas(b.task.controls));
    ShasShort(b.task.wrongs);
    ShasShort(b.task.controls);
  }

  // ---------------------------------------------------------------- the median

  function Ascending(queries: seq<nat>): seq<nat> {
    Sort(queries, (q: nat) => [q])
  }

  lemma AscendingSorts(queries: seq<nat>)
    ensures |Ascending(queries)| == |queries| && multiset(Ascending(queries)) == multiset(queries)
    ensures forall i, j | 0 <= i < j < |queries| :: Ascending(queries)[i] <= Ascending(queries)[j]
  {
    var ordered := Ascending(queries);
    SortSorts(queries, (q: nat) => [q]);
    assert |multiset(ordered)| == |multiset(queries)|;
    forall i, j | 0 <= i < j < |ordered|
      ensures ordered[i] <= ordered[j]
    {
      assert LexLe([ordered[i]], [ordered[j]]);
    }
  }

  /** Twice the median of an ascending nonempty list, as the scorer picks it. */
  function TwiceMiddle(ordered: seq<nat>): nat
    requires ordered != []
  {
    var middle := |ordered| / 2;
    if |ordered| % 2 == 1 then 2 * ordered[middle] else ordered[middle - 1] + ordered[middle]
  }

  function Below(queries: seq<nat>, twice: nat): nat {
    if queries == [] then 0
    else Below(queries[..|queries| - 1], twice) + if 2 * queries[|queries| - 1] < twice then 1 else 0
  }

  function Above(queries: seq<nat>, twice: nat): nat {
    if queries == [] then 0
    else Above(queries[..|queries| - 1], twice) + if 2 * queries[|queries| - 1] > twice then 1 else 0
  }

  lemma {:induction false} BelowShort(s: seq<nat>, twice: nat, m: nat)
    requires m <= |s| && forall i | m <= i < |s| :: 2 * s[i] >= twice
    ensures Below(s, twice) <= m
  {
    if s != [] {
      var n := |s| - 1;
      BelowShort(s[..n], twice, if m <= n then m else n);
    }
  }

  lemma {:induction false} AboveShort(s: seq<nat>, twice: nat, m: nat)
    requires m <= |s| && forall i | 0 <= i < m :: 2 * s[i] <= twice
    ensures Above(s, twice) <= |s| - m
  {
    if s != [] {
      var n := |s| - 1;
      AboveShort(s[..n], twice, if m <= n then m else n);
    }
  }

  lemma {:induction false} CountsByMultiset(s: seq<nat>, t: seq<nat>, twice: nat)
    requires multiset(s) == multiset(t)
    ensures Below(s, twice) == Below(t, twice) && Above(s, twice) == Above(t, twice)
    decreases |s|
  {
    if s == [] {
      assert |multiset(t)| == 0;
    } else {
      var n := |s| - 1;
      var x := s[n];
      assert s == s[..n] + [x];
      assert x in multiset(t);
      var k :| 0 <= k < |t| && t[k] == x;
      var rest := t[..k] + t[k + 1..];
      assert t == t[..k] + [x] + t[k + 1..];
      assert multiset(t) == multiset(rest) + multiset{x};
      assert multiset(s) == multiset(s[..n]) + multiset{x};
      assert multiset(s[..n]) == multiset(s) - multiset{x} && multiset(rest) == multiset(t) - multiset{x};
      CountsByMultiset(s[..n], rest, twice);
      CountsAppend(t[..k] + [x], t[k + 1..], twice);
      CountsAppend(t[..k], [x], twice);
      CountsAppend(t[..k], t[k + 1..], twice);
    }
  }

  lemma {:induction false} CountsAppend(a: seq<nat>, b: seq<nat>, twice: nat)
    ensures Below(a + b, twice) == Below(a, twice) + Below(b, twice)
    ensures Above(a + b, twice) == Above(a, twice) + Above(b, twice)
  {
    if b == [] {
      assert a + b == a;
    } else {
      var n := |b| - 1;
      assert (a + b)[..|a| + n] == a + b[..n];
      CountsAppend(a, b[..n], twice);
    }
  }

  lemma MiddleHalves(ordered: seq<nat>)
    requires ordered != [] && forall i, j | 0 <= i < j < |ordered| :: ordered[i] <= ordered[j]
    ensures 2 * Below(ordered, TwiceMiddle(ordered)) <= |ordered|
    ensures 2 * Above(ordered, TwiceMiddle(ordered)) <= |ordered|
  {
    var h, twice := |ordered| / 2, TwiceMiddle(ordered);
    assert forall i | h <= i < |ordered| :: 2 * ordered[i] >= twice;
    assert forall i | 0 <= i < |ordered| - h :: 2 * ordered[i] <= twice;
    BelowShort(ordered, twice, h);
    AboveShort(ordered, twice, |ordered| - h);
  }

  /** At most half of the queries lie below the reported median and at most half above it. */
  lemma MedianHalves(queries: seq<nat>)
    requires queries != []
    ensures Ascending(queries) != []
    ensures var ordered := Ascending(queries);
            TwiceMiddle(ordered) == ordered[|ordered| / 2] + ordered[(|ordered| - 1) / 2]
    ensures 2 * Below(queries, TwiceMiddle(Ascending(queries))) <= |queries|
    ensures 2 * Above(queries, TwiceMiddle(Ascending(queries))) <= |queries|
  {
    var ordered := Ascending(queries);
    AscendingSorts(queries);
    MiddleHalves(ordered);
    CountsByMultiset(ordered, queries, TwiceMiddle(ordered));
  }
}
