/** What the corpus collection takes and why it leaves records out, told by the records and their programs. */
module CorpusMeaning {
  import opened Corpus
  import opened CorpusCollection
  import opened Ordering
  import opened Sorting
  import opened Wrappers

  // ---------------------------------------------------------------- why a row is excluded

  /** The different sources among the usable programs. */
  ghost function SourcesOf(programs: seq<Upstream>, policy: Policy): set<Digest> {
    set p | p in programs && RunsHere(p, policy) :: p.normalized
  }

  lemma ReceiptsAreSources(programs: seq<Upstream>, policy: Policy)
    ensures Digests(Receipts(programs, policy)) == SourcesOf(programs, policy)
    ensures |Receipts(programs, policy)| == |SourcesOf(programs, policy)|
  {
    var receipts := Receipts(programs, policy);
    FirstUsableMeaning(programs, policy);
    SortKeepsDistinct(FirstUsable(programs, policy));
    DigestsOfDistinct(receipts);
    forall d | d in Digests(receipts) ensures d in SourcesOf(programs, policy) {
      var r :| r in receipts && r.normalized == d;
      ReceiptsMeaning(programs, policy, r);
      assert programs[r.index] in programs;
    }
    forall d | d in SourcesOf(programs, policy) ensures d in Digests(receipts) {
      var p :| p in programs && RunsHere(p, policy) && p.normalized == d;
      var k :| 0 <= k < |FirstUsable(programs, policy)| && FirstUsable(programs, policy)[k].normalized == d;
      SortHas(FirstUsable(programs, policy), FirstUsable(programs, policy)[k]);
    }
  }

  lemma InBoth(a: seq<Reason>, b: seq<Reason>, x: Reason)
    ensures x in a + b <==> x in a || x in b
  {
  }

  lemma RowReasonIn(correct: seq<ProgramReceipt>, wrong: seq<ProgramReceipt>, policy: Policy, x: Reason)
    ensures x in RowReasons(correct, wrong, policy) <==>
              || (x == TooFewAcceptedPrograms && |correct| < policy.oracles + policy.controls)
              || (x == TooFewWrongPrograms && |wrong| < policy.wrongPrograms)
              || (x == AcceptedWrongOverlap && !(Digests(correct) !! Digests(wrong)))
  {
    var a := if |correct| < policy.oracles + policy.controls then [TooFewAcceptedPrograms] else [];
    var b := if |wrong| < policy.wrongPrograms then [TooFewWrongPrograms] else [];
    var c := if Digests(correct) !! Digests(wrong) then [] else [AcceptedWrongOverlap];
    InBoth(a + b, c, x);
    InBoth(a, b, x);
  }

  lemma RowReasonsNone(correct: seq<ProgramReceipt>, wrong: seq<ProgramReceipt>, policy: Policy)
    ensures RowReasons(correct, wrong, policy) == [] <==>
              && |correct| >= policy.oracles + policy.controls && |wrong| >= policy.wrongPrograms
              && Digests(correct) !! Digests(wrong)
  {
  }

  lemma DisjointIff(a: set<Digest>, b: set<Digest>)
    ensures a !! b <==> a * b == {}
  {
    if a !! b {
      assert forall d :: d !in a * b;
    } else {
      var d :| d in a && d in b;
      assert d in a * b;
    }
  }

  lemma AttemptReasons(row: Row, m: Meta, policy: Policy)
    requires row.name == m.name && row.source == m.source
    ensures var attempt := BuildTask(Some(row), m, policy);
            var reasons := RowReasons(Receipts(row.correct, policy), Receipts(row.wrong, policy), policy);
            (attempt.Excluded? <==> reasons != []) && (attempt.Excluded? ==> attempt.reasons == reasons)
  {
  }

  lemma ReasonsTell(correct: seq<ProgramReceipt>, wrong: seq<ProgramReceipt>, policy: Policy)
    ensures var reasons := RowReasons(correct, wrong, policy);
      && (reasons != [] <==>
            || |correct| < policy.oracles + policy.controls || |wrong| < policy.wrongPrograms
            || Digests(correct) * Digests(wrong) != {})
      && (TooFewAcceptedPrograms in reasons <==> |correct| < policy.oracles + policy.controls)
      && (TooFewWrongPrograms in reasons <==> |wrong| < policy.wrongPrograms)
      && (AcceptedWrongOverlap in reasons <==> Digests(correct) * Digests(wrong) != {})
  {
    RowReasonIn(correct, wrong, policy, TooFewAcceptedPrograms);
    RowReasonIn(correct, wrong, policy, TooFewWrongPrograms);
    RowReasonIn(correct, wrong, policy, AcceptedWrongOverlap);
    RowReasonsNone(correct, wrong, policy);
    DisjointIff(Digests(correct), Digests(wrong));
  }

  /**
    The reasons for which a fetched row is excluded: too few different usable sources for the accepted roles,
    too few for the wrong one, or a source that is both accepted and wrong. Without a reason it is no exclusion.
  */
  lemma ExcludedIff(row: Row, m: Meta, policy: Policy)
    requires row.name == m.name && row.source == m.source
    ensures var accepted, rejected := SourcesOf(row.correct, policy), SourcesOf(row.wrong, policy);
            var attempt := BuildTask(Some(row), m, policy);
      && (attempt.Excluded? <==>
            || |accepted| < policy.oracles + policy.controls || |rejected| < policy.wrongPrograms
            || accepted * rejected != {})
      && (attempt.Excluded? ==>
            && (TooFewAcceptedPrograms in attempt.reasons <==> |accepted| < policy.oracles + policy.controls)
            && (TooFewWrongPrograms in attempt.reasons <==> |rejected| < policy.wrongPrograms)
            && (AcceptedWrongOverlap in attempt.reasons <==> accepted * rejected != {}))
  {
    ReceiptsAreSources(row.correct, policy);
    ReceiptsAreSources(row.wrong, policy);
    AttemptReasons(row, m, policy);
    ReasonsTell(Receipts(row.correct, policy), Receipts(row.wrong, policy), policy);
  }

  // ---------------------------------------------------------------- which records are selected

  /** The metadata meets every minimum of the policy. */
  ghost predicate Meets(m: Meta, policy: Policy) {
    && m.source in policy.sources && m.usesFiles == false
    && !(m.publicTests < policy.publicTests) && !(m.hiddenTests < policy.hiddenTests)
    && !(m.correct < policy.correct) && !(m.wrong < policy.wrong)
  }

  lemma {:induction false} EligibleHas(metadata: seq<Meta>, policy: Policy, m: Meta)
    ensures m in EligibleIn(metadata, policy) <==> m in metadata && Meets(m, policy)
  {
    if metadata != [] {
      var n := |metadata| - 1;
      EligibleHas(metadata[..n], policy, m);
      assert metadata == metadata[..n] + [metadata[n]];
    }
  }

  lemma MetaReasonIn(m: Meta, policy: Policy, x: Reason)
    ensures x in MetaReasons(m, policy) <==>
              || (x == NotCodeNetOrigin && m.source !in policy.sources)
              || (x == TooFewPublicTests && m.publicTests < policy.publicTests)
              || (x == TooFewHiddenTests && m.hiddenTests < policy.hiddenTests)
              || (x == TooFewPython3Accepted && m.correct < policy.correct)
              || (x == TooFewPython3Wrong && m.wrong < policy.wrong)
              || (x == NonStdioInvocation && m.usesFiles)
  {
    var a := if m.source !in policy.sources then [NotCodeNetOrigin] else [];
    var b := if m.publicTests < policy.publicTests then [TooFewPublicTests] else [];
    var c := if m.hiddenTests < policy.hiddenTests then [TooFewHiddenTests] else [];
    var d := if m.correct < policy.correct then [TooFewPython3Accepted] else [];
    var e := if m.wrong < policy.wrong then [TooFewPython3Wrong] else [];
    var f := if m.usesFiles then [NonStdioInvocation] else [];
    InBoth(a + b + c + d + e, f, x);
    InBoth(a + b + c + d, e, x);
    InBoth(a + b + c, d, x);
    InBoth(a + b, c, x);
    InBoth(a, b, x);
  }

  /** Which reasons the metadata gives, one by one; it gives none exactly when every minimum is met. */
  lemma MetaReasonsTell(m: Meta, policy: Policy)
    ensures MetaReasons(m, policy) == [] <==> Meets(m, policy)
    ensures NotCodeNetOrigin in MetaReasons(m, policy) <==> m.source !in policy.sources
    ensures TooFewPublicTests in MetaReasons(m, policy) <==> m.publicTests < policy.publicTests
    ensures TooFewHiddenTests in MetaReasons(m, policy) <==> m.hiddenTests < policy.hiddenTests
    ensures TooFewPython3Accepted in MetaReasons(m, policy) <==> m.correct < policy.correct
    ensures TooFewPython3Wrong in MetaReasons(m, policy) <==> m.wrong < policy.wrong
    ensures NonStdioInvocation in MetaReasons(m, policy) <==> m.usesFiles
  {
    ReasonsIff(m, policy);
    MetaReasonIn(m, policy, NotCodeNetOrigin);
    MetaReasonIn(m, policy, TooFewPublicTests);
    MetaReasonIn(m, policy, TooFewHiddenTests);
    MetaReasonIn(m, policy, TooFewPython3Accepted);
    MetaReasonIn(m, policy, TooFewPython3Wrong);
    MetaReasonIn(m, policy, NonStdioInvocation);
  }

  lemma RankedHas(source: Source, policy: Policy, m: Meta)
    ensures m in Ranked(source, policy) <==> m in source.metadata && Meets(m, policy)
  {
    RankedPermutes(source, policy);
    EligibleHas(source.metadata, policy, m);
    assert m in Ranked(source, policy) <==> m in multiset(Ranked(source, policy));
    assert m in EligibleIn(source.metadata, policy) <==> m in multiset(EligibleIn(source.metadata, policy));
  }

  lemma {:induction false} PassingHas(source: Source, ranked: seq<Meta>, policy: Policy, m: Meta)
    ensures m in Passing(source, ranked, policy) <==> m in ranked && Passes(source, m, policy)
  {
    if ranked != [] {
      var n := |ranked| - 1;
      PassingHas(source, ranked[..n], policy, m);
      assert ranked == ranked[..n] + [ranked[n]];
    }
  }

  lemma {:induction false} PassingOrdered(source: Source, ranked: seq<Meta>, policy: Policy, key: Meta -> seq<int>)
    requires Ordered(ranked, key)
    ensures Ordered(Passing(source, ranked, policy), key)
  {
    if ranked != [] {
      var n := |ranked| - 1;
      var earlier := Passing(source, ranked[..n], policy);
      PassingOrdered(source, ranked[..n], policy, key);
      forall i | 0 <= i < |earlier| ensures LexLe(key(earlier[i]), key(ranked[n])) {
        assert earlier[i] in earlier;
        PassingHas(source, ranked[..n], policy, earlier[i]);
        var k :| 0 <= k < n && ranked[..n][k] == earlier[i];
        assert ranked[k] == earlier[i];
      }
    }
  }

  /** The first records of an ordered list come no later than any record that is not among them. */
  lemma FirstComeFirst(metas: seq<Meta>, n: nat, key: Meta -> seq<int>, taken: Meta, m: Meta)
    requires Ordered(metas, key) && taken in First(metas, n) && m in metas && m !in First(metas, n)
    ensures LexLe(key(taken), key(m))
  {
    var i :| 0 <= i < |First(metas, n)| && First(metas, n)[i] == taken;
    var j :| 0 <= j < |metas| && metas[j] == m;
    assert forall k | 0 <= k < |First(metas, n)| :: First(metas, n)[k] == metas[k] && First(metas, n)[k] in First(metas, n);
  }

  /** The metadata of a sorted list of tasks is that of the tasks. */
  lemma SortedTask(source: Source, tasks: seq<TaskReceipt>, t: TaskReceipt)
    ensures t in Sort(tasks, TaskKey(source)) <==> t in tasks
    ensures |Sort(tasks, TaskKey(source))| == |tasks|
  {
    SortSorts(tasks, TaskKey(source));
    var sorted := Sort(tasks, TaskKey(source));
    assert |sorted| == |multiset(sorted)| == |multiset(tasks)| == |tasks|;
    assert t in sorted <==> t in multiset(sorted);
    assert t in tasks <==> t in multiset(tasks);
  }

  lemma MetasHas(tasks: seq<TaskReceipt>, m: Meta)
    ensures m in Metas(tasks) <==> exists t :: t in tasks && t.meta == m
  {
    if m in Metas(tasks) {
      var i :| 0 <= i < |Metas(tasks)| && Metas(tasks)[i] == m;
      assert tasks[i] in tasks;
    }
    forall t | t in tasks && t.meta == m ensures m in Metas(tasks) {
      var i :| 0 <= i < |tasks| && tasks[i] == t;
      assert Metas(tasks)[i] == m;
    }
  }

  /** The record could be selected: its metadata meets the policy and its row builds a task. */
  ghost predicate Candidate(source: Source, policy: Policy, m: Meta) {
    m in source.metadata && Meets(m, policy) && BuildTask(source.row(m.index), m, policy).Built?
  }

  /** The selection digest, and after it the name. */
  function RankOf(source: Source, m: Meta): seq<int> {
    source.rank(m) + Codes(m.name)
  }

  lemma ChosenMeaning(source: Source, policy: Policy, tasks: seq<TaskReceipt>, m: Meta)
    requires Chosen(source, policy, Ranked(source, policy), tasks)
    ensures m in Metas(tasks) ==> Candidate(source, policy, m)
    ensures m !in Metas(tasks) && Candidate(source, policy, m) ==>
              |tasks| == policy.tasks && forall taken | taken in Metas(tasks) :: LexLe(RankOf(source, taken), RankOf(source, m))
  {
    var ranked := Ranked(source, policy);
    var passing := Passing(source, ranked, policy);
    assert |Metas(tasks)| == |tasks|;
    RankedHas(source, policy, m);
    PassingHas(source, ranked, policy, m);
    if m in Metas(tasks) {
      assert m in passing;
    } else if Candidate(source, policy, m) {
      assert m in passing;
      SortSorts(EligibleIn(source.metadata, policy), RankKey(source));
      PassingOrdered(source, ranked, policy, RankKey(source));
      forall taken | taken in Metas(tasks) ensures LexLe(RankOf(source, taken), RankOf(source, m)) {
        FirstComeFirst(passing, policy.tasks, RankKey(source), taken, m);
      }
    }
  }

  ghost predicate Taken(c: Collected, m: Meta) {
    exists t :: t in c.tasks && t.meta == m
  }

  /**
    A collection holds as many tasks as the policy asks for, in the order of their names and each built from its
    own row. They belong to records that meet every minimum, and no record that does so and builds a task ranks
    before one that was taken without being taken itself.
  */
  lemma CollectionMeaning(source: Source, policy: Policy, c: Collected, m: Meta)
    requires IsCollection(source, policy, c)
    ensures |c.tasks| == policy.tasks
    ensures forall i, j | 0 <= i < j < |c.tasks| ::
              LexLe(Codes(source.taskId(c.tasks[i].meta)), Codes(source.taskId(c.tasks[j].meta)))
    ensures forall t | t in c.tasks :: BuildTask(source.row(t.meta.index), t.meta, policy) == Built(t)
    ensures Taken(c, m) ==> m in source.metadata && Meets(m, policy)
    ensures Candidate(source, policy, m) && !Taken(c, m) ==>
              forall t | t in c.tasks :: LexLe(RankOf(source, t.meta), RankOf(source, m))
  {
    var tasks, excluded :|
      && Chosen(source, policy, Ranked(source, policy), tasks)
      && Accounted(multiset(source.metadata), Metas(tasks), c.ledger, excluded)
      && |tasks| == policy.tasks && c.tasks == Sort(tasks, TaskKey(source));
    SortSorts(tasks, TaskKey(source));
    forall t ensures t in c.tasks <==> t in tasks {
      SortedTask(source, tasks, t);
    }
    SortedTask(source, tasks, TaskReceipt(m, [], [], []));
    MetasHas(tasks, m);
    ChosenMeaning(source, policy, tasks, m);
    forall t | t in c.tasks ensures t.meta in Metas(tasks) {
      MetasHas(tasks, t.meta);
    }
    NamesInOrder(source, c.tasks);
  }

  lemma NamesInOrder(source: Source, tasks: seq<TaskReceipt>)
    requires Ordered(tasks, TaskKey(source))
    ensures forall i, j | 0 <= i < j < |tasks| ::
              LexLe(Codes(source.taskId(tasks[i].meta)), Codes(source.taskId(tasks[j].meta)))
  {
  }
}
