/** Sealing a candidate file: every generator proposes the same number of different inputs for every task. */
module CandidateSeal {
  import opened Wrappers

  datatype Candidate = Candidate(taskId: string, generator: string, ordinal: nat, stdin: string)

  type Key = (string, string)

  datatype SealError = NoGenerators | UnknownTask | UnequalBudget | MissingGroup

  datatype Receipt = Receipt(generators: set<string>, taskCount: nat, budget: nat, candidateCount: nat)

  function KeyOf(c: Candidate): Key { (c.taskId, c.generator) }

  function GeneratorsOf(candidates: seq<Candidate>): set<string> {
    set c | c in candidates :: c.generator
  }

  /** The candidates of one task and generator, in file order. */
  function Group(candidates: seq<Candidate>, key: Key): seq<Candidate> {
    if candidates == [] then []
    else
      var n := |candidates| - 1;
      Group(candidates[..n], key) + if KeyOf(candidates[n]) == key then [candidates[n]] else []
  }

  function OrdinalOf(c: Candidate): nat { c.ordinal }
  function InputOf(c: Candidate): string { c.stdin }

  function Values<T>(group: seq<Candidate>, f: Candidate -> T): set<T> { set c | c in group :: f(c) }

  predicate GroupOk(group: seq<Candidate>, budget: nat) {
    |group| == budget && |Values(group, OrdinalOf)| == |group| && |Values(group, InputOf)| == |group|
  }

  function Expected(taskIds: set<string>, generators: set<string>): set<Key> {
    set t, g | t in taskIds && g in generators :: (t, g)
  }

  function Keys(candidates: seq<Candidate>): set<Key> {
    set c | c in candidates :: KeyOf(c)
  }

  predicate KnownTasks(taskIds: set<string>, candidates: seq<Candidate>) {
    forall c | c in candidates :: c.taskId in taskIds
  }

  predicate EqualBudgets(candidates: seq<Candidate>, budget: nat) {
    forall k | k in Keys(candidates) :: GroupOk(Group(candidates, k), budget)
  }

  /** What the seal demands of a file. */
  predicate Sealable(taskIds: set<string>, candidates: seq<Candidate>, budget: nat) {
    && candidates != []
    && KnownTasks(taskIds, candidates)
    && EqualBudgets(candidates, budget)
    && Keys(candidates) == Expected(taskIds, GeneratorsOf(candidates))
  }

  lemma {:induction false} GroupHas(candidates: seq<Candidate>, key: Key, c: Candidate)
    ensures c in Group(candidates, key) <==> c in candidates && KeyOf(c) == key
  {
    if candidates != [] {
      var n := |candidates| - 1;
      assert candidates == candidates[..n] + [candidates[n]];
      GroupHas(candidates[..n], key, c);
    }
  }

  type Table = map<Key, seq<Candidate>>

  ghost predicate Grouped(candidates: seq<Candidate>, table: Table) {
    table.Keys == Keys(candidates) && forall k | k in table :: table[k] == Group(candidates, k)
  }

  lemma GroupedStep(candidates: seq<Candidate>, table: Table, c: Candidate)
    requires Grouped(candidates, table)
    ensures Grouped(candidates + [c], table[KeyOf(c) := (if KeyOf(c) in table then table[KeyOf(c)] else []) + [c]])
  {
    var next := candidates + [c];
    assert next[..|candidates|] == candidates;
    if KeyOf(c) !in table {
      if Group(candidates, KeyOf(c)) != [] {
        GroupHas(candidates, KeyOf(c), Group(candidates, KeyOf(c))[0]);
      }
    }
  }

  /** `seal_candidates`, from the parsed candidates to the receipt: the first demand that fails names the error. */
  method Seal(taskIds: set<string>, candidates: seq<Candidate>, budget: nat) returns (r: Result<Receipt, SealError>)
    ensures r.Success? <==> Sealable(taskIds, candidates, budget)
    ensures r.Success? ==> r.value == Receipt(GeneratorsOf(candidates), |taskIds|, budget, |candidates|)
    ensures r == Failure(NoGenerators) <==> candidates == []
    ensures r == Failure(UnknownTask) <==> !KnownTasks(taskIds, candidates)
    ensures r == Failure(UnequalBudget) <==>
              candidates != [] && KnownTasks(taskIds, candidates) && !EqualBudgets(candidates, budget)
  {
    var generators := GeneratorsOf(candidates);
    if generators == {} {
      assert candidates != [] ==> candidates[0].generator in generators;
      return Failure(NoGenerators);
    }
    var table: Table := map[];
    for i := 0 to |candidates|
      invariant forall c | c in candidates[..i] :: c.taskId in taskIds
      invariant Grouped(candidates[..i], table)
    {
      var c := candidates[i];
      if c.taskId !in taskIds {
        return Failure(UnknownTask);
      }
      GroupedStep(candidates[..i], table, c);
      assert candidates[..i + 1] == candidates[..i] + [c];
      table := table[KeyOf(c) := (if KeyOf(c) in table then table[KeyOf(c)] else []) + [c]];
    }
    assert candidates[..|candidates|] == candidates;
    var rest := table.Keys;
    while rest != {}
      invariant rest <= table.Keys
      invariant forall k | k in table && k !in rest :: GroupOk(table[k], budget)
      decreases rest
    {
      var k :| k in rest;
      var values := table[k];
      if |values| != budget || |Values(values, OrdinalOf)| != |values| || |Values(values, InputOf)| != |values| {
        assert !GroupOk(Group(candidates, k), budget);
        return Failure(UnequalBudget);
      }
      rest := rest - {k};
    }
    if table.Keys != Expected(taskIds, generators) {
      return Failure(MissingGroup);
    }
    r := Success(Receipt(generators, |taskIds|, budget, |candidates|));
  }

  // ---------------------------------------------------------------- counting

  function CountIn(candidates: seq<Candidate>, keys: set<Key>): nat {
    if candidates == [] then 0
    else
      var n := |candidates| - 1;
      CountIn(candidates[..n], keys) + if KeyOf(candidates[n]) in keys then 1 else 0
  }

  lemma {:induction false} CountWithout(candidates: seq<Candidate>, keys: set<Key>, k: Key)
    requires k in keys
    ensures CountIn(candidates, keys) == CountIn(candidates, keys - {k}) + |Group(candidates, k)|
  {
    if candidates != [] { CountWithout(candidates[..|candidates| - 1], keys, k); }
  }

  lemma {:induction false} CountNone(candidates: seq<Candidate>)
    ensures CountIn(candidates, {}) == 0
  {
    if candidates != [] { CountNone(candidates[..|candidates| - 1]); }
  }

  lemma {:induction false} CountAll(candidates: seq<Candidate>, keys: set<Key>)
    requires forall c | c in candidates :: KeyOf(c) in keys
    ensures CountIn(candidates, keys) == |candidates|
  {
    if candidates != [] { CountAll(candidates[..|candidates| - 1], keys); }
  }

  lemma {:induction false} CountEqualGroups(candidates: seq<Candidate>, keys: set<Key>, budget: nat)
    requires forall k | k in keys :: |Group(candidates, k)| == budget
    ensures CountIn(candidates, keys) == |keys| * budget
  {
    if keys == {} {
      CountNone(candidates);
    } else {
      var k :| k in keys;
      CountWithout(candidates, keys, k);
      CountEqualGroups(candidates, keys - {k}, budget);
      assert |keys| == |keys - {k}| + 1;
      OneMoreRow(|keys - {k}|, budget);
    }
  }

  lemma {:induction false} ProductSize(a: set<string>, b: set<string>)
    ensures |Expected(a, b)| == |a| * |b|
  {
    if a == {} {
      assert Expected(a, b) == {};
    } else {
      var x :| x in a;
      ProductSize(a - {x}, b);
      RowSize(x, b);
      ProductSplits(a, b, x);
      assert |a| == |a - {x}| + 1;
      OneMoreRow(|a - {x}|, |b|);
    }
  }

  lemma ProductSplits(a: set<string>, b: set<string>, x: string)
    requires x in a
    ensures |Expected(a, b)| == |Expected({x}, b)| + |Expected(a - {x}, b)|
  {
    var row, rest := Expected({x}, b), Expected(a - {x}, b);
    assert Expected(a, b) == row + rest && row !! rest;
  }

  lemma OneMoreRow(rows: nat, size: nat)
    ensures (rows + 1) * size == rows * size + size
  {
  }

  lemma {:induction false} RowSize(x: string, b: set<string>)
    ensures |Expected({x}, b)| == |b|
  {
    if b == {} {
      assert Expected({x}, b) == {};
    } else {
      var y :| y in b;
      RowSize(x, b - {y});
      assert Expected({x}, b) == Expected({x}, b - {y}) + {(x, y)};
    }
  }

  /** A sealed file holds tasks times generators times budget candidates. */
  lemma SealedCount(taskIds: set<string>, candidates: seq<Candidate>, budget: nat)
    requires Sealable(taskIds, candidates, budget)
    ensures |candidates| == |taskIds| * |GeneratorsOf(candidates)| * budget
  {
    CountAll(candidates, Keys(candidates));
    CountEqualGroups(candidates, Keys(candidates), budget);
    ProductSize(taskIds, GeneratorsOf(candidates));
  }

  // ---------------------------------------------------------------- the demands, candidate by candidate

  /** The positions of the candidates one generator proposes for one task. */
  function Places(candidates: seq<Candidate>, key: Key): set<int> {
    set i | 0 <= i < |candidates| && candidates[i].taskId == key.0 && candidates[i].generator == key.1
  }

  lemma {:induction false} GroupSize(candidates: seq<Candidate>, key: Key)
    ensures |Group(candidates, key)| == |Places(candidates, key)|
  {
    if candidates != [] {
      var n := |candidates| - 1;
      GroupSize(candidates[..n], key);
      assert Places(candidates, key)
          == Places(candidates[..n], key) + if KeyOf(candidates[n]) == key then {n} else {};
    }
  }

  /** No two candidates of the task and generator agree in this respect. */
  predicate Apart<T(==)>(candidates: seq<Candidate>, key: Key, f: Candidate -> T) {
    forall i, j :: 0 <= i < j < |candidates| && KeyOf(candidates[i]) == key && KeyOf(candidates[j]) == key ==>
      f(candidates[i]) != f(candidates[j])
  }

  lemma {:induction false} ValuesFullIff<T>(candidates: seq<Candidate>, key: Key, f: Candidate -> T)
    ensures |Values(Group(candidates, key), f)| <= |Group(candidates, key)|
    ensures |Values(Group(candidates, key), f)| == |Group(candidates, key)| <==> Apart(candidates, key, f)
  {
    if candidates != [] {
      var n := |candidates| - 1;
      var front, c := candidates[..n], candidates[n];
      ValuesFullIff(front, key, f);
      if KeyOf(c) == key {
        assert Values(Group(candidates, key), f) == Values(Group(front, key), f) + {f(c)};
        ValueBefore(front, key, f, f(c));
        assert Apart(candidates, key, f) <==>
               Apart(front, key, f) && forall i :: 0 <= i < n && KeyOf(candidates[i]) == key ==> f(candidates[i]) != f(c);
      } else {
        assert Group(candidates, key) == Group(front, key);
        assert Apart(candidates, key, f) <==> Apart(front, key, f);
      }
    }
  }

  lemma ValueBefore<T>(candidates: seq<Candidate>, key: Key, f: Candidate -> T, x: T)
    ensures x in Values(Group(candidates, key), f) <==>
            exists i :: 0 <= i < |candidates| && KeyOf(candidates[i]) == key && f(candidates[i]) == x
  {
    if x in Values(Group(candidates, key), f) {
      var c :| c in Group(candidates, key) && f(c) == x;
      GroupHas(candidates, key, c);
    }
    forall i | 0 <= i < |candidates| && KeyOf(candidates[i]) == key && f(candidates[i]) == x
      ensures x in Values(Group(candidates, key), f)
    {
      GroupHas(candidates, key, candidates[i]);
    }
  }

  lemma GroupOkIff(candidates: seq<Candidate>, key: Key, budget: nat)
    ensures GroupOk(Group(candidates, key), budget) <==>
            |Places(candidates, key)| == budget && Apart(candidates, key, OrdinalOf) && Apart(candidates, key, InputOf)
  {
    GroupSize(candidates, key);
    ValuesFullIff(candidates, key, OrdinalOf);
    ValuesFullIff(candidates, key, InputOf);
  }

  /** Different candidates of one task and generator have different ordinals and different inputs. */
  predicate AllApart(candidates: seq<Candidate>) {
    forall i, j | 0 <= i < j < |candidates|
                  && candidates[i].taskId == candidates[j].taskId && candidates[i].generator == candidates[j].generator ::
      candidates[i].ordinal != candidates[j].ordinal && candidates[i].stdin != candidates[j].stdin
  }

  /** Every generator that occurs proposes exactly this many candidates for every task. */
  predicate AllInFull(taskIds: set<string>, candidates: seq<Candidate>, budget: nat) {
    forall t, i | t in taskIds && 0 <= i < |candidates| :: |Places(candidates, (t, candidates[i].generator))| == budget
  }

  lemma SealableFills(taskIds: set<string>, candidates: seq<Candidate>, budget: nat)
    requires Sealable(taskIds, candidates, budget)
    ensures AllApart(candidates) && AllInFull(taskIds, candidates, budget)
  {
    forall t, i | t in taskIds && 0 <= i < |candidates|
      ensures |Places(candidates, (t, candidates[i].generator))| == budget
    {
      assert (t, candidates[i].generator) in Expected(taskIds, GeneratorsOf(candidates));
      GroupOkIff(candidates, (t, candidates[i].generator), budget);
    }
    forall i, j | 0 <= i < j < |candidates| && KeyOf(candidates[i]) == KeyOf(candidates[j])
      ensures candidates[i].ordinal != candidates[j].ordinal && candidates[i].stdin != candidates[j].stdin
    {
      assert KeyOf(candidates[i]) in Keys(candidates);
      GroupOkIff(candidates, KeyOf(candidates[i]), budget);
      assert OrdinalOf(candidates[i]) != OrdinalOf(candidates[j]);
      assert InputOf(candidates[i]) != InputOf(candidates[j]);
    }
  }

  lemma FilledGroup(taskIds: set<string>, candidates: seq<Candidate>, budget: nat, t: string, i: nat)
    requires t in taskIds && i < |candidates|
    requires KnownTasks(taskIds, candidates) && AllApart(candidates) && AllInFull(taskIds, candidates, budget)
    ensures var key := (t, candidates[i].generator); GroupOk(Group(candidates, key), budget) && key in Keys(candidates)
  {
    var key := (t, candidates[i].generator);
    GroupOkIff(candidates, key, budget);
    assert i in Places(candidates, KeyOf(candidates[i]));
    assert budget > 0;
    var k :| k in Places(candidates, key);
    assert KeyOf(candidates[k]) == key;
  }

  /** The seal's demands without its tables: what it counts and what it tells apart, candidate by candidate. */
  lemma SealableIff(taskIds: set<string>, candidates: seq<Candidate>, budget: nat)
    ensures Sealable(taskIds, candidates, budget) <==>
              && candidates != [] && (forall i :: 0 <= i < |candidates| ==> candidates[i].taskId in taskIds)
              && AllApart(candidates) && AllInFull(taskIds, candidates, budget)
  {
    if Sealable(taskIds, candidates, budget) {
      SealableFills(taskIds, candidates, budget);
    }
    if candidates != [] && KnownTasks(taskIds, candidates) && AllApart(candidates) && AllInFull(taskIds, candidates, budget) {
      forall k | k in Keys(candidates) ensures GroupOk(Group(candidates, k), budget) {
        var i :| 0 <= i < |candidates| && KeyOf(candidates[i]) == k;
        FilledGroup(taskIds, candidates, budget, k.0, i);
      }
      forall k | k in Expected(taskIds, GeneratorsOf(candidates)) ensures k in Keys(candidates) {
        var i :| 0 <= i < |candidates| && candidates[i].generator == k.1;
        FilledGroup(taskIds, candidates, budget, k.0, i);
      }
      assert Keys(candidates) <= Expected(taskIds, GeneratorsOf(candidates));
    }
  }
}
