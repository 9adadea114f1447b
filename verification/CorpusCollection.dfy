/** Collecting the evaluation corpus: which upstream rows are selected, and a ledger of all others. */
module CorpusCollection {
  import opened Corpus
  import opened Ordering
  import opened Sorting
  import opened Wrappers

  /** The upstream data and the seed: rows by index (None when fetching raises), selection digests, task names. */
  datatype Source = Source(metadata: seq<Meta>, row: int -> Option<Row>, rank: Meta -> Digest, taskId: Meta -> string)

  function MetaReasons(m: Meta, policy: Policy): seq<Reason> {
    (if m.source !in policy.sources then [NotCodeNetOrigin] else [])
    + (if m.publicTests < policy.publicTests then [TooFewPublicTests] else [])
    + (if m.hiddenTests < policy.hiddenTests then [TooFewHiddenTests] else [])
    + (if m.correct < policy.correct then [TooFewPython3Accepted] else [])
    + (if m.wrong < policy.wrong then [TooFewPython3Wrong] else [])
    + (if m.usesFiles then [NonStdioInvocation] else [])
  }

  predicate Eligible(m: Meta, policy: Policy) {
    && m.source in policy.sources && m.publicTests >= policy.publicTests && m.hiddenTests >= policy.hiddenTests
    && m.correct >= policy.correct && m.wrong >= policy.wrong && !m.usesFiles
  }

  lemma ReasonsIff(m: Meta, policy: Policy)
    ensures MetaReasons(m, policy) == [] <==> Eligible(m, policy)
  {
  }

  /** Under such a policy an eligible record raises only when its row cannot be fetched or is another record's. */
  lemma EligibleRaisesIff(row: Option<Row>, m: Meta, policy: Policy)
    requires CoversReceipt(policy) && Eligible(m, policy) && m.index >= 0
    ensures BuildTask(row, m, policy).Raised? <==> row.None? || row.value.name != m.name || row.value.source != m.source
  {
    assert MetaFits(m);
  }

  function EligibleIn(metadata: seq<Meta>, policy: Policy): seq<Meta> {
    if metadata == [] then []
    else
      var n := |metadata| - 1;
      EligibleIn(metadata[..n], policy) + if Eligible(metadata[n], policy) then [metadata[n]] else []
  }

  /** Digest first, name second; digests have one length, so this is Python's order on the pair. */
  function RankKey(source: Source): Meta -> seq<int> {
    (m: Meta) => source.rank(m) + Codes(m.name)
  }

  function Ranked(source: Source, policy: Policy): seq<Meta> {
    Sort(EligibleIn(source.metadata, policy), RankKey(source))
  }

  predicate Passes(source: Source, m: Meta, policy: Policy) {
    BuildTask(source.row(m.index), m, policy).Built?
  }

  function Passing(source: Source, ranked: seq<Meta>, policy: Policy): seq<Meta> {
    if ranked == [] then []
    else
      var n := |ranked| - 1;
      Passing(source, ranked[..n], policy) + if Passes(source, ranked[n], policy) then [ranked[n]] else []
  }

  datatype Exclusion = Exclusion(meta: Meta, reasons: seq<Reason>)

  datatype CollectError = RowRaised | WrongCount | GateRejected | LedgerIncomplete

  datatype Collected = Collected(tasks: seq<TaskReceipt>, ledger: map<int, Exclusion>)

  function Metas(tasks: seq<TaskReceipt>): seq<Meta> {
    seq(|tasks|, i requires 0 <= i < |tasks| => tasks[i].meta)
  }

  predicate UniqueIndices(metadata: seq<Meta>) {
    forall i, j | 0 <= i < j < |metadata| :: metadata[i].index != metadata[j].index
  }

  /** The ledger holds exactly these excluded records, each under its own index. */
  ghost predicate LedgerOf(ledger: map<int, Exclusion>, excluded: seq<Meta>) {
    && (forall m | m in excluded :: m.index in ledger)
    && (forall i | i in ledger :: ledger[i].meta.index == i && ledger[i].meta in excluded && ledger[i].reasons != [])
  }

  lemma LedgerStep(ledger: map<int, Exclusion>, excluded: seq<Meta>, m: Meta, reasons: seq<Reason>)
    requires LedgerOf(ledger, excluded) && reasons != []
    ensures LedgerOf(ledger[m.index := Exclusion(m, reasons)], excluded + [m])
  {
  }

  lemma EligibleStep(metadata: seq<Meta>, policy: Policy, m: Meta)
    ensures EligibleIn(metadata + [m], policy) == EligibleIn(metadata, policy) + if Eligible(m, policy) then [m] else []
  {
    assert (metadata + [m])[..|metadata|] == metadata;
  }

  lemma PassingStep(source: Source, ranked: seq<Meta>, policy: Policy, m: Meta)
    ensures Passing(source, ranked + [m], policy)
         == Passing(source, ranked, policy) + if Passes(source, m, policy) then [m] else []
  {
    assert (ranked + [m])[..|ranked|] == ranked;
  }

  /** Every record seen is eligible, in order, or in the ledger. */
  ghost predicate Gated(seen: seq<Meta>, policy: Policy, eligible: seq<Meta>, ledger: map<int, Exclusion>,
      excluded: seq<Meta>) {
    && eligible == EligibleIn(seen, policy) && LedgerOf(ledger, excluded)
    && multiset(eligible) + multiset(excluded) == multiset(seen)
  }

  lemma GateTakes(seen: seq<Meta>, policy: Policy, eligible: seq<Meta>, ledger: map<int, Exclusion>,
      excluded: seq<Meta>, m: Meta)
    requires Gated(seen, policy, eligible, ledger, excluded) && Eligible(m, policy)
    ensures Gated(seen + [m], policy, eligible + [m], ledger, excluded)
  {
    EligibleStep(seen, policy, m);
  }

  lemma GateExcludes(seen: seq<Meta>, policy: Policy, eligible: seq<Meta>, ledger: map<int, Exclusion>,
      excluded: seq<Meta>, m: Meta, reasons: seq<Reason>)
    requires Gated(seen, policy, eligible, ledger, excluded) && !Eligible(m, policy) && reasons != []
    ensures Gated(seen + [m], policy, eligible, ledger[m.index := Exclusion(m, reasons)], excluded + [m])
  {
    EligibleStep(seen, policy, m);
    LedgerStep(ledger, excluded, m, reasons);
  }

  /** The ledger gives every excluded record its metadata's reasons, of which there is one. */
  ghost predicate ByMetadata(policy: Policy, ledger: map<int, Exclusion>) {
    forall i | i in ledger :: ledger[i].reasons == MetaReasons(ledger[i].meta, policy) != []
  }

  method GateNext(m: Meta, policy: Policy, eligible: seq<Meta>, ledger: map<int, Exclusion>,
                  ghost seen: seq<Meta>, ghost excluded: seq<Meta>)
      returns (eligible': seq<Meta>, ledger': map<int, Exclusion>, ghost excluded': seq<Meta>)
    requires Gated(seen, policy, eligible, ledger, excluded) && ByMetadata(policy, ledger)
    ensures Gated(seen + [m], policy, eligible', ledger', excluded') && ByMetadata(policy, ledger')
  {
    eligible', ledger', excluded' := eligible, ledger, excluded;
    var reasons := MetaReasons(m, policy);
    ReasonsIff(m, policy);
    if reasons != [] {
      GateExcludes(seen, policy, eligible, ledger, excluded, m, reasons);
      ledger' := ledger[m.index := Exclusion(m, reasons)];
      excluded' := excluded + [m];
    } else {
      GateTakes(seen, policy, eligible, ledger, excluded, m);
      eligible' := eligible + [m];
    }
  }

  /** The metadata gate: eligible records in order, the others in the ledger. */
  method Gate(metadata: seq<Meta>, policy: Policy)
      returns (eligible: seq<Meta>, ledger: map<int, Exclusion>, ghost excluded: seq<Meta>)
    ensures Gated(metadata, policy, eligible, ledger, excluded) && ByMetadata(policy, ledger)
  {
    eligible, ledger, excluded := [], map[], [];
    for i := 0 to |metadata|
      invariant Gated(metadata[..i], policy, eligible, ledger, excluded) && ByMetadata(policy, ledger)
    {
      eligible, ledger, excluded := GateNext(metadata[i], policy, eligible, ledger, metadata[..i], excluded);
      assert metadata[..i + 1] == metadata[..i] + [metadata[i]];
    }
    assert metadata[..|metadata|] == metadata;
  }

  // ---------------------------------------------------------------- walking the ranking

  function First(metas: seq<Meta>, n: nat): seq<Meta> {
    if |metas| <= n then metas else metas[..n]
  }

  /** Every task was built from its own row. */
  ghost predicate AllBuilt(source: Source, tasks: seq<TaskReceipt>, policy: Policy) {
    forall t | t in tasks :: BuildTask(source.row(t.meta.index), t.meta, policy) == Built(t)
  }

  lemma MetasAppend(tasks: seq<TaskReceipt>, t: TaskReceipt)
    ensures Metas(tasks + [t]) == Metas(tasks) + [t.meta]
  {
  }

  /** The tasks built so far belong to the first passing records, up to the limit. */
  ghost predicate Chosen(source: Source, policy: Policy, ranked: seq<Meta>, tasks: seq<TaskReceipt>) {
    AllBuilt(source, tasks, policy) && Metas(tasks) == First(Passing(source, ranked, policy), policy.tasks)
  }

  /** Every record is either chosen or in the ledger. */
  ghost predicate Accounted(all: multiset<Meta>, chosen: seq<Meta>, ledger: map<int, Exclusion>, excluded: seq<Meta>) {
    LedgerOf(ledger, excluded) && multiset(chosen) + multiset(excluded) == all
  }

  /** Why the record at place `i` of the ranking is in the ledger: enough passed before it, or its row does not. */
  ghost predicate RankedOut(source: Source, policy: Policy, ranked: seq<Meta>, i: nat, x: Exclusion)
    requires i < |ranked|
  {
    && ranked[i] == x.meta
    && (if |Passing(source, ranked[..i], policy)| >= policy.tasks then x.reasons == [SelectionLimit]
        else BuildTask(source.row(x.meta.index), x.meta, policy) == Excluded(x.reasons))
  }

  /** A ledger entry gives the metadata's reasons, or says why the ranking left the record out. */
  ghost predicate Justified(source: Source, policy: Policy, ranked: seq<Meta>, x: Exclusion) {
    || x.reasons == MetaReasons(x.meta, policy) != []
    || exists i :: 0 <= i < |ranked| && RankedOut(source, policy, ranked, i, x)
  }

  ghost predicate AllJustified(source: Source, policy: Policy, ranked: seq<Meta>, ledger: map<int, Exclusion>) {
    forall i | i in ledger :: Justified(source, policy, ranked, ledger[i])
  }

  /** The row at place `i` of the ranking is fetched, since too few passed before it, and raises. */
  ghost predicate RaisesAt(source: Source, policy: Policy, ranked: seq<Meta>, i: nat)
    requires i < |ranked|
  {
    |Passing(source, ranked[..i], policy)| < policy.tasks && BuildTask(source.row(ranked[i].index), ranked[i], policy).Raised?
  }

  ghost predicate RowRaises(source: Source, policy: Policy, ranked: seq<Meta>) {
    exists i :: 0 <= i < |ranked| && RaisesAt(source, policy, ranked, i)
  }

  lemma GateJustifies(source: Source, policy: Policy, ranked: seq<Meta>, ledger: map<int, Exclusion>)
    requires ByMetadata(policy, ledger)
    ensures AllJustified(source, policy, ranked, ledger)
  {
  }

  lemma JustifiedNext(source: Source, policy: Policy, ranked: seq<Meta>, ledger: map<int, Exclusion>, i: nat,
                      reasons: seq<Reason>)
    requires i < |ranked| && AllJustified(source, policy, ranked, ledger)
    requires RankedOut(source, policy, ranked, i, Exclusion(ranked[i], reasons))
    ensures AllJustified(source, policy, ranked, ledger[ranked[i].index := Exclusion(ranked[i], reasons)])
  {
    assert Justified(source, policy, ranked, Exclusion(ranked[i], reasons));
  }

  /** The limit is reached exactly when that many records passed. */
  lemma ChosenCount(source: Source, policy: Policy, ranked: seq<Meta>, tasks: seq<TaskReceipt>)
    requires Chosen(source, policy, ranked, tasks)
    ensures |tasks| >= policy.tasks <==> |Passing(source, ranked, policy)| >= policy.tasks
  {
    assert |Metas(tasks)| == |tasks|;
  }

  lemma ChosenSkips(source: Source, policy: Policy, ranked: seq<Meta>, tasks: seq<TaskReceipt>, m: Meta)
    requires Chosen(source, policy, ranked, tasks)
    requires |tasks| >= policy.tasks || !Passes(source, m, policy)
    ensures Chosen(source, policy, ranked + [m], tasks)
  {
    PassingStep(source, ranked, policy, m);
  }

  lemma ChosenTakes(source: Source, policy: Policy, ranked: seq<Meta>, tasks: seq<TaskReceipt>, t: TaskReceipt)
    requires Chosen(source, policy, ranked, tasks) && |tasks| < policy.tasks
    requires BuildTask(source.row(t.meta.index), t.meta, policy) == Built(t)
    ensures Chosen(source, policy, ranked + [t.meta], tasks + [t])
  {
    PassingStep(source, ranked, policy, t.meta);
    MetasAppend(tasks, t);
    assert |Metas(tasks)| == |tasks|;
  }

  lemma AccountedExcludes(all: multiset<Meta>, chosen: seq<Meta>, ledger: map<int, Exclusion>, excluded: seq<Meta>,
                          m: Meta, reasons: seq<Reason>)
    requires Accounted(all, chosen, ledger, excluded) && reasons != []
    ensures Accounted(all + multiset{m}, chosen, ledger[m.index := Exclusion(m, reasons)], excluded + [m])
  {
    LedgerStep(ledger, excluded, m, reasons);
  }

  lemma AccountedTakes(all: multiset<Meta>, chosen: seq<Meta>, ledger: map<int, Exclusion>, excluded: seq<Meta>,
      m: Meta)
    requires Accounted(all, chosen, ledger, excluded)
    ensures Accounted(all + multiset{m}, chosen + [m], ledger, excluded)
  {
  }

  lemma OneMoreRanked(rest: multiset<Meta>, ranked: seq<Meta>, i: nat)
    requires i < |ranked|
    ensures ranked[..i + 1] == ranked[..i] + [ranked[i]]
    ensures rest + multiset(ranked[..i + 1]) == rest + multiset(ranked[..i]) + multiset{ranked[i]}
  {
    assert ranked[..i + 1] == ranked[..i] + [ranked[i]];
  }

  /** The walk after `i` records of the ranking; `gated` records were excluded before it. */
  ghost predicate Walking(source: Source, policy: Policy, ranked: seq<Meta>, i: nat, gated: multiset<Meta>,
                          tasks: seq<TaskReceipt>, ledger: map<int, Exclusion>, excluded: seq<Meta>)
    requires i <= |ranked|
  {
    && Chosen(source, policy, ranked[..i], tasks)
    && Accounted(gated + multiset(ranked[..i]), Metas(tasks), ledger, excluded)
    && AllJustified(source, policy, ranked, ledger)
    && forall j | 0 <= j < i :: !RaisesAt(source, policy, ranked, j)
  }

  lemma WalkSkips(source: Source, policy: Policy, ranked: seq<Meta>, i: nat, gated: multiset<Meta>,
                  tasks: seq<TaskReceipt>, ledger: map<int, Exclusion>, excluded: seq<Meta>, reasons: seq<Reason>)
    requires i < |ranked| && Walking(source, policy, ranked, i, gated, tasks, ledger, excluded)
    requires if |tasks| >= policy.tasks then reasons == [SelectionLimit]
             else BuildTask(source.row(ranked[i].index), ranked[i], policy) == Excluded(reasons)
    ensures Walking(source, policy, ranked, i + 1, gated, tasks,
                    ledger[ranked[i].index := Exclusion(ranked[i], reasons)], excluded + [ranked[i]])
  {
    OneMoreRanked(gated, ranked, i);
    ChosenCount(source, policy, ranked[..i], tasks);
    ChosenSkips(source, policy, ranked[..i], tasks, ranked[i]);
    JustifiedNext(source, policy, ranked, ledger, i, reasons);
    AccountedExcludes(gated + multiset(ranked[..i]), Metas(tasks), ledger, excluded, ranked[i], reasons);
  }

  lemma WalkTakes(source: Source, policy: Policy, ranked: seq<Meta>, i: nat, gated: multiset<Meta>,
                  tasks: seq<TaskReceipt>, ledger: map<int, Exclusion>, excluded: seq<Meta>, t: TaskReceipt)
    requires i < |ranked| && Walking(source, policy, ranked, i, gated, tasks, ledger, excluded)
    requires |tasks| < policy.tasks && BuildTask(source.row(ranked[i].index), ranked[i], policy) == Built(t)
    ensures Walking(source, policy, ranked, i + 1, gated, tasks + [t], ledger, excluded)
  {
    OneMoreRanked(gated, ranked, i);
    ChosenTakes(source, policy, ranked[..i], tasks, t);
    AccountedTakes(gated + multiset(ranked[..i]), Metas(tasks), ledger, excluded, ranked[i]);
    MetasAppend(tasks, t);
  }

  lemma WalkRaises(source: Source, policy: Policy, ranked: seq<Meta>, i: nat, tasks: seq<TaskReceipt>)
    requires i < |ranked| && Chosen(source, policy, ranked[..i], tasks)
    requires |tasks| < policy.tasks && BuildTask(source.row(ranked[i].index), ranked[i], policy).Raised?
    ensures RowRaises(source, policy, ranked)
  {
    ChosenCount(source, policy, ranked[..i], tasks);
    assert RaisesAt(source, policy, ranked, i);
  }

  lemma Walked(source: Source, policy: Policy, ranked: seq<Meta>, gated: multiset<Meta>, tasks: seq<TaskReceipt>,
               ledger: map<int, Exclusion>, excluded: seq<Meta>)
    requires Walking(source, policy, ranked, |ranked|, gated, tasks, ledger, excluded)
    ensures Chosen(source, policy, ranked, tasks) && AllJustified(source, policy, ranked, ledger)
    ensures Accounted(gated + multiset(ranked), Metas(tasks), ledger, excluded)
    ensures !RowRaises(source, policy, ranked)
  {
    assert ranked[..|ranked|] == ranked;
  }

  method Walk(source: Source, policy: Policy, ranked: seq<Meta>, gated: map<int, Exclusion>, ghost before: seq<Meta>)
      returns (r: Result<(seq<TaskReceipt>, map<int, Exclusion>), CollectError>, ghost excluded: seq<Meta>)
    requires LedgerOf(gated, before) && AllJustified(source, policy, ranked, gated)
    ensures r.Success? ==>
      && Chosen(source, policy, ranked, r.value.0) && AllJustified(source, policy, ranked, r.value.1)
      && Accounted(multiset(before) + multiset(ranked), Metas(r.value.0), r.value.1, excluded)
    ensures r.Failure? ==> r.error == RowRaised
    ensures r.Failure? <==> RowRaises(source, policy, ranked)
  {
    var tasks: seq<TaskReceipt> := [];
    var ledger := gated;
    excluded := before;
    for i := 0 to |ranked|
      invariant Walking(source, policy, ranked, i, multiset(before), tasks, ledger, excluded)
    {
      var m := ranked[i];
      var attempt := if |tasks| >= policy.tasks then Excluded([SelectionLimit])
                     else BuildTask(source.row(m.index), m, policy);
      match attempt
      case Raised =>
        WalkRaises(source, policy, ranked, i, tasks);
        return Failure(RowRaised), excluded;
      case Excluded(reasons) =>
        WalkSkips(source, policy, ranked, i, multiset(before), tasks, ledger, excluded, reasons);
        ledger := ledger[m.index := Exclusion(m, reasons)];
        excluded := excluded + [m];
      case Built(t) =>
        WalkTakes(source, policy, ranked, i, multiset(before), tasks, ledger, excluded, t);
        tasks := tasks + [t];
    }
    Walked(source, policy, ranked, multiset(before), tasks, ledger, excluded);
    r := Success((tasks, ledger));
  }

  // ---------------------------------------------------------------- the ledger check

  function Indices(metas: seq<Meta>): set<int> {
    set m | m in metas :: m.index
  }

  lemma {:induction false} IndicesShort(metas: seq<Meta>)
    ensures |Indices(metas)| <= |metas|
  {
    if metas != [] {
      var n := |metas| - 1;
      IndicesShort(metas[..n]);
      assert Indices(metas) == Indices(metas[..n]) + {metas[n].index};
    }
  }

  lemma {:induction false} IndicesUnique(metas: seq<Meta>)
    ensures |Indices(metas)| == |metas| <==> UniqueIndices(metas)
  {
    if metas != [] {
      var n := |metas| - 1;
      var front, m := metas[..n], metas[n];
      IndicesShort(front);
      IndicesUnique(front);
      assert Indices(metas) == Indices(front) + {m.index};
      NewIndex(front, m);
      assert metas == front + [m];
    }
  }

  lemma NewIndex(front: seq<Meta>, m: Meta)
    ensures UniqueIndices(front + [m]) <==> UniqueIndices(front) && m.index !in Indices(front)
  {
    var all := front + [m];
    assert forall i | 0 <= i < |front| :: all[i] == front[i] && front[i] in front;
    assert all[|front|] == m;
  }

  lemma LedgerSize(ledger: map<int, Exclusion>, excluded: seq<Meta>)
    requires LedgerOf(ledger, excluded)
    ensures |ledger| == |Indices(excluded)|
  {
    forall i | i in ledger.Keys
      ensures i in Indices(excluded)
    {
      assert ledger[i].meta in excluded;
    }
    assert ledger.Keys == Indices(excluded);
    assert |ledger| == |ledger.Keys|;
  }

  lemma UnionSize(a: set<int>, b: set<int>)
    ensures |a + b| <= |a| + |b|
  {
    assert a + b == a + (b - a);
    assert |b - a| <= |b| by { assert b == (b - a) + (b * a); }
  }

  /** With unique row indices the ledger accounts for every record. */
  lemma LedgerIsComplete(metadata: seq<Meta>, chosen: seq<Meta>, excluded: seq<Meta>, ledger: map<int, Exclusion>)
    requires UniqueIndices(metadata) && LedgerOf(ledger, excluded)
    requires multiset(chosen) + multiset(excluded) == multiset(metadata)
    ensures |ledger| + |chosen| == |metadata|
  {
    IndicesUnique(metadata);
    IndicesShort(chosen);
    IndicesShort(excluded);
    LedgerSize(ledger, excluded);
    SplitSizes(metadata, chosen, excluded);
    UnionSize(Indices(excluded), Indices(chosen));
  }

  lemma SplitSizes(metadata: seq<Meta>, chosen: seq<Meta>, excluded: seq<Meta>)
    requires multiset(chosen) + multiset(excluded) == multiset(metadata)
    ensures |chosen| + |excluded| == |metadata|
    ensures Indices(metadata) == Indices(excluded) + Indices(chosen)
  {
    assert |multiset(chosen)| == |chosen| && |multiset(excluded)| == |excluded| && |multiset(metadata)| == |metadata|;
    forall m
      ensures m in metadata <==> m in chosen || m in excluded
    {
      assert m in metadata <==> m in multiset(metadata);
      assert m in chosen <==> m in multiset(chosen);
      assert m in excluded <==> m in multiset(excluded);
    }
  }

  /** In general the check passes exactly when no two excluded records share an index. */
  lemma LedgerCheckIff(metadata: seq<Meta>, chosen: seq<Meta>, excluded: seq<Meta>, ledger: map<int, Exclusion>)
    requires LedgerOf(ledger, excluded) && multiset(chosen) + multiset(excluded) == multiset(metadata)
    ensures |ledger| + |chosen| == |metadata| <==> UniqueIndices(excluded)
  {
    IndicesUnique(excluded);
    LedgerSize(ledger, excluded);
    SplitSizes(metadata, chosen, excluded);
  }

  // ---------------------------------------------------------------- the whole collection

  function TaskKey(source: Source): TaskReceipt -> seq<int> {
    (t: TaskReceipt) => Codes(source.taskId(t.meta))
  }

  /** The ranking is a rearrangement of the eligible records. */
  lemma RankedPermutes(source: Source, policy: Policy)
    ensures multiset(Ranked(source, policy)) == multiset(EligibleIn(source.metadata, policy))
  {
    SortSorts(EligibleIn(source.metadata, policy), RankKey(source));
  }

  /** The collection's result: the first passing records of the ranking, and all others in the ledger. */
  ghost predicate IsCollection(source: Source, policy: Policy, c: Collected) {
    exists tasks, excluded ::
      && Chosen(source, policy, Ranked(source, policy), tasks)
      && Accounted(multiset(source.metadata), Metas(tasks), c.ledger, excluded)
      && AllJustified(source, policy, Ranked(source, policy), c.ledger)
      && |tasks| == policy.tasks && c.tasks == Sort(tasks, TaskKey(source))
  }

  method Collect(source: Source, policy: Policy)
      returns (r: Result<(seq<TaskReceipt>, map<int, Exclusion>), CollectError>, ghost excluded: seq<Meta>)
    ensures r.Success? ==>
      && Chosen(source, policy, Ranked(source, policy), r.value.0)
      && Accounted(multiset(source.metadata), Metas(r.value.0), r.value.1, excluded)
      && AllJustified(source, policy, Ranked(source, policy), r.value.1)
    ensures r.Failure? ==> r.error == RowRaised
    ensures r.Failure? <==> RowRaises(source, policy, Ranked(source, policy))
  {
    var eligible, gated, before := Gate(source.metadata, policy);
    var ranked := Sort(eligible, RankKey(source));
    RankedPermutes(source, policy);
    assert multiset(before) + multiset(ranked) == multiset(source.metadata);
    GateJustifies(source, policy, ranked, gated);
    r, excluded := Walk(source, policy, ranked, gated, before);
  }

  function WrongDigests(tasks: seq<TaskReceipt>): seq<Digest> {
    if tasks == [] then [] else WrongDigests(tasks[..|tasks| - 1]) + DigestList(tasks[|tasks| - 1].wrongs)
  }

  function AcceptedDigests(tasks: seq<TaskReceipt>): seq<Digest> {
    if tasks == [] then []
    else
      var t := tasks[|tasks| - 1];
      AcceptedDigests(tasks[..|tasks| - 1]) + DigestList(t.oracles) + DigestList(t.controls)
  }

  function DigestList(receipts: seq<ProgramReceipt>): seq<Digest> {
    seq(|receipts|, i requires 0 <= i < |receipts| => receipts[i].normalized)
  }

  /** The validator of a manifest; the task and wrong-program counts are checked before. */
  predicate GateOk(source: Source, tasks: seq<TaskReceipt>, policy: Policy) {
    && (forall t | t in tasks :: |t.controls| == policy.controls)
    && (forall i, j | 0 <= i < j < |tasks| :: source.taskId(tasks[i].meta) != source.taskId(tasks[j].meta))
    && NoRepeats(WrongDigests(tasks)) && NoRepeats(AcceptedDigests(tasks))
    && (forall d | d in WrongDigests(tasks) :: d !in AcceptedDigests(tasks))
  }

  // ---------------------------------------------------------------- what the gate rejects

  function AllSources(t: TaskReceipt): set<Digest> {
    Digests(t.oracles) + Digests(t.controls) + Digests(t.wrongs)
  }

  /** Two tasks cannot stand in one manifest: they share a name, or a program source in any role. */
  predicate Clash(source: Source, s: TaskReceipt, t: TaskReceipt) {
    source.taskId(s.meta) == source.taskId(t.meta) || !(AllSources(s) !! AllSources(t))
  }

  ghost predicate Clashes(source: Source, tasks: seq<TaskReceipt>) {
    exists i, j :: 0 <= i < j < |tasks| && Clash(source, tasks[i], tasks[j])
  }

  /** What building a task from a row guarantees about its programs. */
  ghost predicate WellBuilt(t: TaskReceipt, policy: Policy) {
    && NoRepeats(DigestList(t.wrongs)) && NoRepeats(DigestList(t.oracles) + DigestList(t.controls))
    && RolesDisjoint(t) && |t.controls| == policy.oracles + policy.controls - 2
  }

  lemma DigestListHas(receipts: seq<ProgramReceipt>, d: Digest)
    ensures d in DigestList(receipts) <==> d in Digests(receipts)
  {
    if d in Digests(receipts) {
      var r :| r in receipts && r.normalized == d;
      var k :| 0 <= k < |receipts| && receipts[k] == r;
      assert DigestList(receipts)[k] == d;
    }
  }

  lemma DistinctListed(receipts: seq<ProgramReceipt>, n: nat, m: nat)
    requires DistinctDigests(receipts) && n <= m <= |receipts|
    ensures NoRepeats(DigestList(receipts[n..m]))
  {
  }

  lemma BuiltIsWellBuilt(row: Option<Row>, meta: Meta, policy: Policy)
    requires BuildTask(row, meta, policy).Built?
    ensures WellBuilt(BuildTask(row, meta, policy).receipt, policy)
  {
    var correct, wrong := Receipts(row.value.correct, policy), Receipts(row.value.wrong, policy);
    var t := BuildTask(row, meta, policy).receipt;
    var r := ProgramReceipt(0, []);
    BuiltRolesAreDisjoint(row, meta, policy);
    ReceiptsMeaning(row.value.correct, policy, r);
    ReceiptsMeaning(row.value.wrong, policy, r);
    DistinctListed(correct, 0, policy.oracles + policy.controls);
    DistinctListed(wrong, 0, policy.wrongPrograms);
    assert wrong[0..policy.wrongPrograms] == t.wrongs;
    assert DigestList(correct[0..policy.oracles + policy.controls]) == DigestList(t.oracles) + DigestList(t.controls);
  }

  predicate Apart(a: seq<Digest>, b: seq<Digest>) {
    forall d | d in a :: d !in b
  }

  lemma NoRepeatsJoin(a: seq<Digest>, b: seq<Digest>)
    ensures NoRepeats(a + b) <==> NoRepeats(a) && NoRepeats(b) && Apart(a, b)
  {
    var all := a + b;
    if NoRepeats(all) {
      assert forall i | 0 <= i < |a| :: a[i] == all[i];
      assert forall j | 0 <= j < |b| :: b[j] == all[|a| + j];
    }
    if NoRepeats(a) && NoRepeats(b) && Apart(a, b) {
      forall i, j | 0 <= i < j < |all|
        ensures all[i] != all[j]
      {
        if i < |a| <= j { assert all[i] in a && all[j] in b; }
      }
    }
  }

  /** The task's digests of one role as the gate lists them. */
  function Wrongs(t: TaskReceipt): seq<Digest> { DigestList(t.wrongs) }
  function Accepted(t: TaskReceipt): seq<Digest> { DigestList(t.oracles) + DigestList(t.controls) }

  lemma RolesOfSources(t: TaskReceipt, d: Digest)
    ensures d in AllSources(t) <==> d in Wrongs(t) || d in Accepted(t)
  {
    DigestListHas(t.oracles, d);
    DigestListHas(t.controls, d);
    DigestListHas(t.wrongs, d);
  }

  lemma {:induction false} ListedHas(tasks: seq<TaskReceipt>, d: Digest)
    ensures d in WrongDigests(tasks) <==> exists i :: 0 <= i < |tasks| && d in Wrongs(tasks[i])
    ensures d in AcceptedDigests(tasks) <==> exists i :: 0 <= i < |tasks| && d in Accepted(tasks[i])
  {
    if tasks != [] {
      var n := |tasks| - 1;
      ListedHas(tasks[..n], d);
      AcceptedNext(tasks);
      assert forall i | 0 <= i < n :: tasks[..n][i] == tasks[i];
    }
  }

  lemma AcceptedNext(tasks: seq<TaskReceipt>)
    requires tasks != []
    ensures AcceptedDigests(tasks) == AcceptedDigests(tasks[..|tasks| - 1]) + Accepted(tasks[|tasks| - 1])
  {
    var t := tasks[|tasks| - 1];
    Associates(AcceptedDigests(tasks[..|tasks| - 1]), DigestList(t.oracles), DigestList(t.controls));
  }

  /** Digests neither repeat within a role nor stand in both. */
  ghost predicate Unrepeated(tasks: seq<TaskReceipt>) {
    NoRepeats(WrongDigests(tasks)) && NoRepeats(AcceptedDigests(tasks)) && Apart(WrongDigests(tasks), AcceptedDigests(tasks))
  }

  /** No task of the list shares a source with this one. */
  ghost predicate Foreign(tasks: seq<TaskReceipt>, t: TaskReceipt) {
    forall i | 0 <= i < |tasks| :: AllSources(tasks[i]) !! AllSources(t)
  }

  lemma ForeignIff(tasks: seq<TaskReceipt>, t: TaskReceipt)
    ensures Foreign(tasks, t) <==>
            && Apart(WrongDigests(tasks), Wrongs(t)) && Apart(WrongDigests(tasks), Accepted(t))
            && Apart(AcceptedDigests(tasks), Wrongs(t)) && Apart(AcceptedDigests(tasks), Accepted(t))
  {
    if Foreign(tasks, t) {
      forall d | d in WrongDigests(tasks) || d in AcceptedDigests(tasks)
        ensures d !in Wrongs(t) && d !in Accepted(t)
      {
        ListedHas(tasks, d);
        var i :| 0 <= i < |tasks| && (d in Wrongs(tasks[i]) || d in Accepted(tasks[i]));
        RolesOfSources(tasks[i], d);
        RolesOfSources(t, d);
      }
    } else {
      var i :| 0 <= i < |tasks| && !(AllSources(tasks[i]) !! AllSources(t));
      var d :| d in AllSources(tasks[i]) && d in AllSources(t);
      RolesOfSources(tasks[i], d);
      RolesOfSources(t, d);
      ListedHas(tasks, d);
    }
  }

  lemma UnrepeatedNext(tasks: seq<TaskReceipt>, t: TaskReceipt, policy: Policy)
    requires WellBuilt(t, policy)
    ensures Unrepeated(tasks + [t]) <==> Unrepeated(tasks) && Foreign(tasks, t)
  {
    var more := tasks + [t];
    assert more[..|tasks|] == tasks;
    AcceptedNext(more);
    NoRepeatsJoin(WrongDigests(tasks), Wrongs(t));
    NoRepeatsJoin(AcceptedDigests(tasks), Accepted(t));
    OwnRolesApart(t);
    ApartJoin(WrongDigests(tasks), Wrongs(t), AcceptedDigests(tasks), Accepted(t));
    ForeignIff(tasks, t);
  }

  lemma OwnRolesApart(t: TaskReceipt)
    requires RolesDisjoint(t)
    ensures Apart(Wrongs(t), Accepted(t))
  {
    forall d | d in Wrongs(t)
      ensures d !in Accepted(t)
    {
      DigestListHas(t.wrongs, d);
      DigestListHas(t.oracles, d);
      DigestListHas(t.controls, d);
    }
  }

  lemma ApartJoin(a: seq<Digest>, b: seq<Digest>, c: seq<Digest>, d: seq<Digest>)
    ensures Apart(a + b, c + d) <==> Apart(a, c) && Apart(a, d) && Apart(b, c) && Apart(b, d)
    ensures Apart(b, c) <==> Apart(c, b)
  {
    assert forall x :: x in a + b <==> x in a || x in b;
    assert forall x :: x in c + d <==> x in c || x in d;
  }

  /** Digests repeat among well-built tasks exactly when two different tasks share a source. */
  lemma {:induction false} UnrepeatedIff(tasks: seq<TaskReceipt>, policy: Policy)
    requires forall t | t in tasks :: WellBuilt(t, policy)
    ensures Unrepeated(tasks) <==> forall i, j | 0 <= i < j < |tasks| :: AllSources(tasks[i]) !! AllSources(tasks[j])
  {
    if tasks != [] {
      var n := |tasks| - 1;
      assert tasks == tasks[..n] + [tasks[n]];
      UnrepeatedIff(tasks[..n], policy);
      UnrepeatedNext(tasks[..n], tasks[n], policy);
      assert forall i | 0 <= i < n :: tasks[..n][i] == tasks[i];
    }
  }

  /** A receipt names two oracles whatever the policy says, so the control count is right only for a policy of two. */
  lemma ControlsMatchIff(tasks: seq<TaskReceipt>, policy: Policy)
    requires forall t | t in tasks :: WellBuilt(t, policy)
    ensures (forall t | t in tasks :: |t.controls| == policy.controls) <==> tasks == [] || policy.oracles == 2
  {
    if tasks != [] { assert tasks[0] in tasks; }
  }

  /** The gate passes exactly a policy of two oracles, or no task at all, without two tasks that clash. */
  lemma GateIff(source: Source, tasks: seq<TaskReceipt>, policy: Policy)
    requires forall t | t in tasks :: WellBuilt(t, policy)
    ensures GateOk(source, tasks, policy) <==> (tasks == [] || policy.oracles == 2) && !Clashes(source, tasks)
  {
    ControlsMatchIff(tasks, policy);
    UnrepeatedIff(tasks, policy);
  }

  function ReceiptOf(source: Source, policy: Policy, m: Meta): TaskReceipt
    requires Passes(source, m, policy)
  {
    BuildTask(source.row(m.index), m, policy).receipt
  }

  function TasksOf(source: Source, policy: Policy, metas: seq<Meta>): seq<TaskReceipt>
    requires forall m | m in metas :: Passes(source, m, policy)
  {
    seq(|metas|, i requires 0 <= i < |metas| => ReceiptOf(source, policy, metas[i]))
  }

  lemma {:induction false} PassingPass(source: Source, ranked: seq<Meta>, policy: Policy)
    ensures forall m | m in Passing(source, ranked, policy) :: Passes(source, m, policy)
  {
    if ranked != [] { PassingPass(source, ranked[..|ranked| - 1], policy); }
  }

  /** The tasks a collection puts before the gate. */
  ghost function Manifest(source: Source, policy: Policy): seq<TaskReceipt> {
    PassingPass(source, Ranked(source, policy), policy);
    Sort(TasksOf(source, policy, First(Passing(source, Ranked(source, policy), policy), policy.tasks)), TaskKey(source))
  }

  lemma ChosenAreTasks(source: Source, policy: Policy, tasks: seq<TaskReceipt>)
    requires Chosen(source, policy, Ranked(source, policy), tasks)
    ensures Sort(tasks, TaskKey(source)) == Manifest(source, policy)
    ensures forall t | t in Sort(tasks, TaskKey(source)) :: WellBuilt(t, policy)
  {
    var metas := First(Passing(source, Ranked(source, policy), policy), policy.tasks);
    PassingPass(source, Ranked(source, policy), policy);
    forall i | 0 <= i < |tasks|
      ensures tasks[i] == TasksOf(source, policy, metas)[i] && WellBuilt(tasks[i], policy)
    {
      assert tasks[i] in tasks && Metas(tasks)[i] == tasks[i].meta;
      BuiltIsWellBuilt(source.row(tasks[i].meta.index), tasks[i].meta, policy);
    }
    assert |Metas(tasks)| == |tasks|;
    assert tasks == TasksOf(source, policy, metas);
    SortSorts(tasks, TaskKey(source));
    forall t | t in Sort(tasks, TaskKey(source))
      ensures WellBuilt(t, policy)
    {
      assert t in multiset(Sort(tasks, TaskKey(source)));
      assert t in tasks;
    }
  }

  /** On a collection of at least one task the control count is right exactly for a policy of two oracles. */
  lemma GateNeedsTwoOracles(source: Source, policy: Policy, c: Collected)
    requires IsCollection(source, policy, c) && policy.tasks > 0
    ensures (forall t | t in c.tasks :: |t.controls| == policy.controls) <==> policy.oracles == 2
    ensures GateOk(source, c.tasks, policy) <==> policy.oracles == 2 && !Clashes(source, c.tasks)
  {
    var tasks, excluded :|
      && Chosen(source, policy, Ranked(source, policy), tasks)
      && Accounted(multiset(source.metadata), Metas(tasks), c.ledger, excluded)
      && |tasks| == policy.tasks && c.tasks == Sort(tasks, TaskKey(source));
    ChosenAreTasks(source, policy, tasks);
    SortSorts(tasks, TaskKey(source));
    assert |c.tasks| == |multiset(c.tasks)| == |multiset(tasks)| == |tasks|;
    ControlsMatchIff(c.tasks, policy);
    GateIff(source, c.tasks, policy);
  }

  /** Every row that must be fetched can be, and enough of them pass. */
  ghost predicate ReachesGate(source: Source, policy: Policy) {
    && !RowRaises(source, policy, Ranked(source, policy))
    && |Passing(source, Ranked(source, policy), policy)| >= policy.tasks
  }

  method CollectManifest(source: Source, policy: Policy) returns (r: Result<Collected, CollectError>)
    ensures r.Success? ==>
      && IsCollection(source, policy, r.value) && GateOk(source, r.value.tasks, policy)
      && |r.value.ledger| + |r.value.tasks| == |source.metadata|
    ensures UniqueIndices(source.metadata) ==> r != Failure(LedgerIncomplete)
    ensures r == Failure(RowRaised) <==> RowRaises(source, policy, Ranked(source, policy))
    ensures r == Failure(WrongCount) <==>
              && !RowRaises(source, policy, Ranked(source, policy))
              && |Passing(source, Ranked(source, policy), policy)| < policy.tasks
    ensures r == Failure(GateRejected) <==>
              && ReachesGate(source, policy)
              && ((policy.tasks > 0 && policy.oracles != 2) || Clashes(source, Manifest(source, policy)))
  {
    var collected, excluded := Collect(source, policy);
    if collected.Failure? {
      return Failure(collected.error);
    }
    var (selected, ledger) := collected.value;
    assert |Metas(selected)| == |selected|;
    if |selected| != policy.tasks {
      return Failure(WrongCount);
    }
    SortSorts(selected, TaskKey(source));
    var tasks := Sort(selected, TaskKey(source));
    assert |tasks| == |multiset(tasks)| == |multiset(selected)| == |selected|;
    ChosenAreTasks(source, policy, selected);
    GateIff(source, tasks, policy);
    if !GateOk(source, tasks, policy) {
      return Failure(GateRejected);
    }
    if UniqueIndices(source.metadata) {
      LedgerIsComplete(source.metadata, Metas(selected), excluded, ledger);
    }
    if |ledger| + |tasks| != |source.metadata| {
      return Failure(LedgerIncomplete);
    }
    r := Success(Collected(tasks, ledger));
    assert IsCollection(source, policy, r.value);
  }

  // ---------------------------------------------------------------- a policy of three oracles

  /** Usable programs with pairwise different sources. */
  ghost predicate AllDifferent(programs: seq<Upstream>, policy: Policy) {
    && (forall p | p in programs :: Usable(p, policy))
    && (forall i, j | 0 <= i < j < |programs| :: programs[i].normalized != programs[j].normalized)
  }

  lemma {:induction false} DifferentAreKept(programs: seq<Upstream>, policy: Policy)
    requires AllDifferent(programs, policy)
    ensures |FirstUsable(programs, policy)| == |programs|
  {
    if programs != [] {
      var n := |programs| - 1;
      var front := programs[..n];
      DifferentAreKept(front, policy);
      FirstUsableMeaning(front, policy);
      forall k | 0 <= k < |FirstUsable(front, policy)|
        ensures FirstUsable(front, policy)[k].normalized != programs[n].normalized
      {
        assert FirstUsable(front, policy)[k] in FirstUsable(front, policy);
        assert IsFirstUse(front, policy, FirstUsable(front, policy)[k]);
      }
    }
  }

  lemma DifferentReceipts(programs: seq<Upstream>, policy: Policy)
    requires AllDifferent(programs, policy)
    ensures |Receipts(programs, policy)| == |programs|
    ensures forall d | d in Digests(Receipts(programs, policy)) :: exists p :: p in programs && p.normalized == d
  {
    var receipts := Receipts(programs, policy);
    DifferentAreKept(programs, policy);
    SortSorts(FirstUsable(programs, policy), ReceiptKey);
    assert |receipts| == |multiset(receipts)| == |FirstUsable(programs, policy)|;
    forall d | d in Digests(receipts)
      ensures exists p :: p in programs && p.normalized == d
    {
      var r :| r in receipts && r.normalized == d;
      ReceiptsMeaning(programs, policy, r);
      assert programs[r.index] in programs;
    }
  }

  lemma DifferentParts(a: seq<Upstream>, b: seq<Upstream>, policy: Policy)
    requires AllDifferent(a + b, policy)
    ensures AllDifferent(a, policy) && AllDifferent(b, policy)
    ensures forall p, q | p in a && q in b :: p.normalized != q.normalized
  {
    var all := a + b;
    assert forall i | 0 <= i < |a| :: all[i] == a[i] && a[i] in all;
    assert forall j | 0 <= j < |b| :: all[|a| + j] == b[j] && b[j] in all;
  }

  lemma DifferentRoles(correct: seq<Upstream>, wrong: seq<Upstream>, policy: Policy)
    requires AllDifferent(correct + wrong, policy)
    ensures |Receipts(correct, policy)| == |correct| && |Receipts(wrong, policy)| == |wrong|
    ensures Digests(Receipts(correct, policy)) !! Digests(Receipts(wrong, policy))
  {
    DifferentParts(correct, wrong, policy);
    DifferentReceipts(correct, policy);
    DifferentReceipts(wrong, policy);
  }

  /** A row with enough different usable programs, none both accepted and wrong, passes whenever a receipt fits. */
  lemma RichRowPasses(source: Source, m: Meta, policy: Policy, row: Row)
    requires source.row(m.index) == Some(row) && MetaFits(m) && RolesFit(policy)
    requires row.name == m.name && row.source == m.source && AllDifferent(row.correct + row.wrong, policy)
    requires |row.correct| >= policy.oracles + policy.controls && |row.wrong| >= policy.wrongPrograms
    ensures Passes(source, m, policy)
  {
    DifferentRoles(row.correct, row.wrong, policy);
  }

  /** One record that a policy of one task, one control and one wrong program accepts. */
  lemma OneRecordReachesGate(source: Source, m: Meta, policy: Policy)
    requires policy.tasks == 1 && source.metadata == [m]
    requires Eligible(m, policy) && Passes(source, m, policy)
    ensures ReachesGate(source, policy) && Passing(source, Ranked(source, policy), policy) == [m]
  {
    EligibleStep([], policy, m);
    assert [] + [m] == [m];
    assert EligibleIn([m], policy) == [m];
    SortSorts([m], RankKey(source));
    var ranked := Ranked(source, policy);
    assert |ranked| == |multiset(ranked)| == 1;
    assert ranked[0] in multiset(ranked);
    assert ranked == [m];
    PassingStep(source, [], policy, m);
    assert !RaisesAt(source, policy, ranked, 0);
  }

  function Program(digest: int): Upstream { Upstream(3, false, 1, [digest]) }

  lemma FiveDiffer(policy: Policy)
    requires policy.sourceBytes >= 1
    ensures AllDifferent([Program(1), Program(2), Program(3), Program(4)] + [Program(5)], policy)
  {
    var all := [Program(1), Program(2), Program(3), Program(4)] + [Program(5)];
    assert all == [Program(1), Program(2), Program(3), Program(4), Program(5)];
    assert forall i | 0 <= i < |all| :: all[i].normalized == [i + 1];
    assert forall i, j | 0 <= i < j < |all| :: all[i].normalized[0] != all[j].normalized[0];
  }

  /** With three oracles and enough programs for all roles, the collection reaches the gate and is rejected. */
  method ThreeOraclesRejected() returns (r: Result<Collected, CollectError>)
    ensures r == Failure(GateRejected)
  {
    var policy := Policy({6, 7}, 1, 5, 4, 1, 131072, 1, 3, 1, 1);
    var m := Meta(0, "p00001", "train-0", 6, 1, 5, 4, 1, false);
    var row := Row("p00001", 6, [Program(1), Program(2), Program(3), Program(4)], [Program(5)]);
    var source := Source([m], i => Some(row), x => [], x => "cc-train-00000-p00001");
    FiveDiffer(policy);
    RichRowPasses(source, m, policy, row);
    OneRecordReachesGate(source, m, policy);
    r := CollectManifest(source, policy);
  }

  // ---------------------------------------------------------------- the order of the metadata

  lemma {:induction false} EligibleCounts(metadata: seq<Meta>, policy: Policy, m: Meta)
    ensures multiset(EligibleIn(metadata, policy))[m] == if Eligible(m, policy) then multiset(metadata)[m] else 0
  {
    if metadata != [] {
      var n := |metadata| - 1;
      assert metadata == metadata[..n] + [metadata[n]];
      EligibleCounts(metadata[..n], policy, m);
    }
  }

  /** Listing the same metadata in another order changes neither the ranking nor what passes first. */
  lemma SelectionIgnoresOrder(source: Source, other: seq<Meta>, policy: Policy)
    requires multiset(source.metadata) == multiset(other)
    requires forall a, b | a in source.metadata && b in source.metadata && RankKey(source)(a) == RankKey(source)(b) :: a == b
    ensures var shuffled := source.(metadata := other);
      && Ranked(shuffled, policy) == Ranked(source, policy)
      && First(Passing(shuffled, Ranked(shuffled, policy), policy), policy.tasks)
         == First(Passing(source, Ranked(source, policy), policy), policy.tasks)
  {
    var shuffled := source.(metadata := other);
    var a, b := EligibleIn(source.metadata, policy), EligibleIn(other, policy);
    forall m
      ensures multiset(a)[m] == multiset(b)[m]
      ensures m in a ==> m in source.metadata
    {
      EligibleCounts(source.metadata, policy, m);
      EligibleCounts(other, policy, m);
      assert m in a <==> m in multiset(a);
      assert m in source.metadata <==> m in multiset(source.metadata);
    }
    assert multiset(a) == multiset(b);
    SortIgnoresOrder(a, b, RankKey(source));
    SameKeySameSort(b, RankKey(source), RankKey(shuffled));
    PassingOnlyReadsRows(source, shuffled, Ranked(source, policy), policy);
  }

  lemma {:induction false} SameKeySameSort(s: seq<Meta>, key: Meta -> seq<int>, same: Meta -> seq<int>)
    requires forall m :: key(m) == same(m)
    ensures Sort(s, key) == Sort(s, same)
  {
    if s != [] {
      var n := |s| - 1;
      SameKeySameSort(s[..n], key, same);
      SameKeySameInsert(s[n], Sort(s[..n], key), key, same);
    }
  }

  lemma {:induction false} SameKeySameInsert(x: Meta, s: seq<Meta>, key: Meta -> seq<int>, same: Meta -> seq<int>)
    requires forall m :: key(m) == same(m)
    ensures Insert(x, s, key) == Insert(x, s, same)
  {
    if s != [] { SameKeySameInsert(x, s[1..], key, same); }
  }

  lemma {:induction false} PassingOnlyReadsRows(source: Source, shuffled: Source, ranked: seq<Meta>, policy: Policy)
    requires source.row == shuffled.row
    ensures Passing(source, ranked, policy) == Passing(shuffled, ranked, policy)
  {
    if ranked != [] { PassingOnlyReadsRows(source, shuffled, ranked[..|ranked| - 1], policy); }
  }
}
