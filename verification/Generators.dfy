/**
  Candidate generation: the eager deterministic provider, and the scheduler that runs the same
  generators under one shared budget.
*/
module Generators {
  import opened Ordering
  import opened Sorting
  import opened Wrappers

  type Inputs = seq<int>

  datatype Test = Test(inputs: Inputs, testLabel: string)
  datatype Context = Context(tests: seq<Test>, arity: nat, lo: int, hi: int)

  predicate InDomain(c: Context, x: Inputs) {
    |x| == c.arity && forall i | 0 <= i < |x| :: c.lo <= x[i] <= c.hi
  }

  /** What the assignment contract guarantees about a context. */
  predicate Valid(c: Context) {
    c.arity >= 1 && c.lo <= c.hi && forall t | t in c.tests :: InDomain(c, t.inputs)
  }

  datatype Item = Item(inputs: Inputs, rationale: string, misconception: string)

  /** Hypothesis identifiers are numbered from one. */
  datatype Hypothesis = Hypothesis(number: nat, item: Item, generator: Option<string>)

  const BATCH := 8

  // ---------------------------------------------------------------- permutations and products

  function Without(s: Inputs, i: nat): Inputs
    requires i < |s|
  {
    s[..i] + s[i + 1..]
  }

  function Prefixed(x: int, rows: seq<Inputs>): seq<Inputs> {
    seq(|rows|, k requires 0 <= k < |rows| => [x] + rows[k])
  }

  function Permutations(s: Inputs): seq<Inputs>
    decreases |s|, |s| + 1
  {
    if s == [] then [[]] else PermutationsFrom(s, 0)
  }

  function PermutationsFrom(s: Inputs, i: nat): seq<Inputs>
    requires i <= |s|
    decreases |s|, |s| - i
  {
    if i == |s| then []
    else Prefixed(s[i], Permutations(Without(s, i))) + PermutationsFrom(s, i + 1)
  }

  function Product(values: seq<int>, n: nat): seq<Inputs>
    decreases n, |values| + 1
  {
    if n == 0 then [[]] else ProductFrom(values, n, 0)
  }

  function ProductFrom(values: seq<int>, n: nat, i: nat): seq<Inputs>
    requires i <= |values| && n > 0
    decreases n, |values| - i
  {
    if i == |values| then [] else Prefixed(values[i], Product(values, n - 1)) + ProductFrom(values, n, i + 1)
  }

  lemma PrefixedHas(x: int, rows: seq<Inputs>, row: Inputs)
    ensures row in Prefixed(x, rows) <==> row != [] && row[0] == x && row[1..] in rows
  {
    if row != [] && row[0] == x && row[1..] in rows {
      var k :| 0 <= k < |rows| && rows[k] == row[1..];
      assert Prefixed(x, rows)[k] == row;
    }
  }

  lemma {:induction false} PermutationsFromHas(s: Inputs, i: nat, row: Inputs)
    requires i <= |s|
    ensures row in PermutationsFrom(s, i) <==>
            row != [] && exists k :: i <= k < |s| && s[k] == row[0] && row[1..] in Permutations(Without(s, k))
    decreases |s| - i
  {
    if i < |s| {
      PrefixedHas(s[i], Permutations(Without(s, i)), row);
      PermutationsFromHas(s, i + 1, row);
    }
  }

  lemma WithoutCounts(s: Inputs, k: nat)
    requires k < |s|
    ensures multiset(s) == multiset{s[k]} + multiset(Without(s, k))
  {
    assert s == s[..k] + [s[k]] + s[k + 1..];
  }

  lemma SameRest(s: Inputs, row: Inputs, k: nat)
    requires k < |s| && row != [] && row[0] == s[k]
    ensures multiset(row) == multiset(s) <==> multiset(row[1..]) == multiset(Without(s, k))
  {
    WithoutCounts(s, k);
    WithoutCounts(row, 0);
    assert Without(row, 0) == row[1..];
    assert multiset(row[1..]) == multiset(row) - multiset{row[0]};
    assert multiset(Without(s, k)) == multiset(s) - multiset{s[k]};
  }

  /** The permutations of a tuple are exactly its rearrangements. */
  lemma {:induction false} PermutationsHas(s: Inputs, row: Inputs)
    ensures row in Permutations(s) <==> multiset(row) == multiset(s)
    decreases |s|
  {
    if s == [] {
      assert row != [] ==> row[0] in multiset(row);
    } else {
      PermutationsFromHas(s, 0, row);
      if row == [] {
        assert s[0] in multiset(s);
      } else {
        forall k | 0 <= k < |s| && s[k] == row[0]
          ensures row[1..] in Permutations(Without(s, k)) <==> multiset(row) == multiset(s)
        {
          SameRest(s, row, k);
          PermutationsHas(Without(s, k), row[1..]);
        }
        assert row[0] in multiset(row);
        assert row[0] in multiset(s) ==> row[0] in s;
      }
    }
  }

  lemma {:induction false} ProductFromHas(values: seq<int>, n: nat, i: nat, row: Inputs)
    requires i <= |values| && n > 0
    ensures row in ProductFrom(values, n, i) <==>
            row != [] && row[0] in values[i..] && row[1..] in Product(values, n - 1)
    decreases |values| - i
  {
    if i < |values| {
      PrefixedHas(values[i], Product(values, n - 1), row);
      ProductFromHas(values, n, i + 1, row);
      assert values[i..] == [values[i]] + values[i + 1..];
    }
  }

  /** The product holds exactly the tuples of the given length over the given values. */
  lemma {:induction false} ProductHas(values: seq<int>, n: nat, row: Inputs)
    ensures row in Product(values, n) <==> |row| == n && forall i | 0 <= i < |row| :: row[i] in values
    decreases n
  {
    if n > 0 {
      ProductFromHas(values, n, 0, row);
      assert values[0..] == values;
      if row != [] {
        ProductHas(values, n - 1, row[1..]);
        assert row == [row[0]] + row[1..];
      }
    }
  }

  // ---------------------------------------------------------------- the two generators

  function Anchor(c: Context): int { Max(c.lo, Min(c.hi, 1)) }

  function OrderedTests(c: Context): seq<Test> {
    Sort(c.tests, (t: Test) => [|Distinct(t.inputs)|] + Codes(t.testLabel))
  }

  function Rows(t: Test): seq<Inputs> {
    SortedSet(Permutations(t.inputs), (x: Inputs) => x)
  }

  const SHRINK_RATIONALE := "Preserve the equality pattern while shrinking its distinct input."
  const BOUNDARY_RATIONALE := "Combine declared domain boundaries across every input position."

  function PermuteItem(t: Test, row: Inputs): Item {
    Item(row, "Permute the instructor case labelled '" + t.testLabel + "'.", "input-order blind spot")
  }

  predicate Shrinkable(c: Context, row: Inputs, i: nat)
    requires i < |row|
  {
    multiset(row)[row[i]] == 1 && row[i] != Anchor(c)
  }

  function ShrinkItem(c: Context, row: Inputs, i: nat): Item
    requires i < |row|
  {
    Item(row[i := Anchor(c)], SHRINK_RATIONALE, "order and magnitude interaction")
  }

  function ShrinkItems(c: Context, row: Inputs, n: nat): seq<Item>
    requires n <= |row|
  {
    if n == 0 then []
    else ShrinkItems(c, row, n - 1) + if Shrinkable(c, row, n - 1) then [ShrinkItem(c, row, n - 1)] else []
  }

  function RowItems(c: Context, t: Test, row: Inputs): seq<Item> {
    if row == t.inputs then [] else [PermuteItem(t, row)] + ShrinkItems(c, row, |row|)
  }

  function RowsItems(c: Context, t: Test, rows: seq<Inputs>): seq<Item> {
    if rows == [] then []
    else RowsItems(c, t, rows[..|rows| - 1]) + RowItems(c, t, rows[|rows| - 1])
  }

  function TestsItems(c: Context, tests: seq<Test>): seq<Item> {
    if tests == [] then []
    else
      var t := tests[|tests| - 1];
      TestsItems(c, tests[..|tests| - 1]) + RowsItems(c, t, Rows(t))
  }

  function PermutationItems(c: Context): seq<Item> {
    TestsItems(c, OrderedTests(c))
  }

  function Within(c: Context, values: seq<int>): seq<int> {
    if values == [] then []
    else (if c.lo <= values[0] <= c.hi then [values[0]] else []) + Within(c, values[1..])
  }

  function Boundaries(c: Context): seq<int> {
    SortedSet(Within(c, [c.lo, Min(c.hi, c.lo + 1), c.hi, Max(c.lo, c.hi - 1), 0, Anchor(c)]), (v: int) => [v])
  }

  function BoundaryCases(c: Context): seq<Inputs> {
    Sort(Product(Boundaries(c), c.arity), (x: Inputs) => [SumAbs(x), MaxAbs(x)] + x)
  }

  function BoundaryItem(x: Inputs): Item {
    Item(x, BOUNDARY_RATIONALE, "boundary interaction")
  }

  function BoundaryItemsOf(cases: seq<Inputs>): seq<Item> {
    seq(|cases|, k requires 0 <= k < |cases| => BoundaryItem(cases[k]))
  }

  function BoundaryItems(c: Context): seq<Item> {
    BoundaryItemsOf(BoundaryCases(c))
  }

  method RowGenerate(c: Context, test: Test, permuted: Inputs) returns (items: seq<Item>)
    ensures items == RowItems(c, test, permuted)
  {
    items := [];
    if permuted != test.inputs {
      items := [PermuteItem(test, permuted)];
      for index := 0 to |permuted|
        invariant items == [PermuteItem(test, permuted)] + ShrinkItems(c, permuted, index)
      {
        if multiset(permuted)[permuted[index]] != 1 || permuted[index] == Anchor(c) {
          continue;
        }
        var shrunk := permuted[index := Anchor(c)];
        items := items + [Item(shrunk, SHRINK_RATIONALE, "order and magnitude interaction")];
      }
    }
  }

  method RowsGenerate(c: Context, test: Test, rows: seq<Inputs>) returns (items: seq<Item>)
    ensures items == RowsItems(c, test, rows)
  {
    items := [];
    for r := 0 to |rows|
      invariant items == RowsItems(c, test, rows[..r])
    {
      var more := RowGenerate(c, test, rows[r]);
      items := items + more;
      assert rows[..r + 1][..r] == rows[..r];
    }
    assert rows[..|rows|] == rows;
  }

  method TestGenerate(c: Context, test: Test) returns (items: seq<Item>)
    ensures items == RowsItems(c, test, Rows(test))
  {
    items := RowsGenerate(c, test, Rows(test));
  }

  method TestsGenerate(c: Context, tests: seq<Test>) returns (items: seq<Item>)
    ensures items == TestsItems(c, tests)
  {
    items := [];
    for t := 0 to |tests|
      invariant items == TestsItems(c, tests[..t])
    {
      var more := TestGenerate(c, tests[t]);
      items := items + more;
      assert tests[..t + 1][..t] == tests[..t];
    }
    assert tests[..|tests|] == tests;
  }

  method PermutationGenerate(c: Context) returns (items: seq<Item>)
    ensures items == PermutationItems(c)
  {
    items := TestsGenerate(c, OrderedTests(c));
  }

  method BoundaryGenerate(c: Context) returns (items: seq<Item>)
    ensures items == BoundaryItems(c)
  {
    items := [];
    var cases := BoundaryCases(c);
    for k := 0 to |cases|
      invariant items == BoundaryItemsOf(cases)[..k]
    {
      items := items + [Item(cases[k], BOUNDARY_RATIONALE, "boundary interaction")];
    }
  }

  // ---------------------------------------------------------------- selection under a budget

  function Select(items: seq<Item>, seen: set<Inputs>, budget: nat): (chosen: seq<Item>)
    ensures |chosen| <= budget
  {
    if items == [] || budget == 0 then []
    else if items[0].inputs in seen then Select(items[1..], seen, budget)
    else [items[0]] + Select(items[1..], seen + {items[0].inputs}, budget - 1)
  }

  function InputsOf(items: seq<Item>): set<Inputs> {
    set item | item in items :: item.inputs
  }

  function Existing(c: Context): set<Inputs> {
    set t | t in c.tests :: t.inputs
  }

  function Number(items: seq<Item>): seq<Hypothesis> {
    seq(|items|, k requires 0 <= k < |items| => Hypothesis(k + 1, items[k], None))
  }

  lemma InputsOfAppend(a: seq<Item>, b: seq<Item>)
    ensures InputsOf(a + b) == InputsOf(a) + InputsOf(b)
  {
  }

  lemma InputsOfOne(item: Item)
    ensures InputsOf([item]) == {item.inputs}
  {
    assert item in [item];
  }

  method PickEight(candidates: seq<Item>, existing: set<Inputs>) returns (selected: seq<Item>)
    ensures selected == Select(candidates, existing, BATCH)
  {
    var seen := existing;
    selected := [];
    for i := 0 to |candidates|
      invariant |selected| < BATCH
      invariant selected + Select(candidates[i..], seen, BATCH - |selected|) == Select(candidates, existing, BATCH)
    {
      assert candidates[i..][1..] == candidates[i + 1..];
      if candidates[i].inputs in seen {
        continue;
      }
      seen := seen + {candidates[i].inputs};
      selected := selected + [candidates[i]];
      if |selected| == BATCH {
        return;
      }
    }
    assert candidates[|candidates|..] == [];
  }

  /** The eager provider's innermost loop: what one rearrangement adds to its one growing list. */
  method AppendRow(c: Context, test: Test, permuted: Inputs, before: seq<Item>) returns (candidates: seq<Item>)
    ensures candidates == before + RowItems(c, test, permuted)
  {
    candidates := before;
    if permuted == test.inputs {
      return;
    }
    var first := Item(permuted, "Permute the instructor case labelled '" + test.testLabel + "'.", "input-order blind spot");
    candidates := candidates + [first];
    var anchor := Max(c.lo, Min(c.hi, 1));
    for index := 0 to |permuted|
      invariant candidates == before + ([first] + ShrinkItems(c, permuted, index))
    {
      var value := permuted[index];
      if multiset(permuted)[value] == 1 && value != anchor {
        Appends(before, [first] + ShrinkItems(c, permuted, index), ShrinkItem(c, permuted, index));
        Appends([first], ShrinkItems(c, permuted, index), ShrinkItem(c, permuted, index));
        candidates := candidates + [Item(permuted[index := anchor],
                                         "Preserve the equality pattern while shrinking its distinct input.",
                                         "order and magnitude interaction")];
      }
    }
  }

  lemma Appends(a: seq<Item>, b: seq<Item>, item: Item)
    ensures a + (b + [item]) == (a + b) + [item]
  {
  }

  method AppendRows(c: Context, test: Test, rows: seq<Inputs>, before: seq<Item>) returns (candidates: seq<Item>)
    ensures candidates == before + RowsItems(c, test, rows)
  {
    candidates := before;
    for r := 0 to |rows|
      invariant candidates == before + RowsItems(c, test, rows[..r])
    {
      candidates := AppendRow(c, test, rows[r], candidates);
      assert rows[..r + 1][..r] == rows[..r];
      Associates(before, RowsItems(c, test, rows[..r]), RowItems(c, test, rows[r]));
    }
    assert rows[..|rows|] == rows;
  }

  method AppendTests(c: Context, tests: seq<Test>) returns (candidates: seq<Item>)
    ensures candidates == TestsItems(c, tests)
  {
    candidates := [];
    for t := 0 to |tests|
      invariant candidates == TestsItems(c, tests[..t])
    {
      candidates := AppendRows(c, tests[t], Rows(tests[t]), candidates);
      assert tests[..t + 1][..t] == tests[..t];
    }
    assert tests[..|tests|] == tests;
  }

  method AppendCases(cases: seq<Inputs>, before: seq<Item>) returns (candidates: seq<Item>)
    ensures candidates == before + BoundaryItemsOf(cases)
  {
    candidates := before;
    for k := 0 to |cases|
      invariant candidates == before + BoundaryItemsOf(cases)[..k]
    {
      candidates := candidates
        + [Item(cases[k], "Combine declared domain boundaries across every input position.", "boundary interaction")];
    }
  }

  /** The eager provider: its own loops build the whole list, then the first eight inputs not seen before are kept. */
  method Propose(c: Context) returns (proposals: seq<Hypothesis>)
    ensures proposals == Number(Select(PermutationItems(c) + BoundaryItems(c), Existing(c), BATCH))
  {
    var candidates := AppendTests(c, OrderedTests(c));
    candidates := AppendCases(BoundaryCases(c), candidates);
    var selected := PickEight(candidates, Existing(c));
    proposals := Number(selected);
  }

  // ---------------------------------------------------------------- the scheduler

  /** A generator is a name and what it yields, in order, for a context. */
  datatype CandidateGenerator = CandidateGenerator(name: string, generate: Context -> seq<Item>)

  datatype Candidate = Candidate(item: Item, generator: string)

  function Tag(items: seq<Item>, name: string): seq<Candidate> {
    seq(|items|, k requires 0 <= k < |items| => Candidate(items[k], name))
  }

  function Untag(candidates: seq<Candidate>): seq<Item> {
    seq(|candidates|, k requires 0 <= k < |candidates| => candidates[k].item)
  }

  /** From position `g` on, each generator in turn spends what is left of the budget. */
  function Schedule(c: Context, generators: seq<CandidateGenerator>, g: nat, seen: set<Inputs>, budget: nat)
      : (scheduled: seq<Candidate>)
    requires g <= |generators|
    ensures |scheduled| <= budget
    decreases |generators| - g
  {
    if g == |generators| || budget == 0 then []
    else
      var chosen := Select(generators[g].generate(c), seen, budget);
      Tag(chosen, generators[g].name)
      + Schedule(c, generators, g + 1, seen + InputsOf(chosen), budget - |chosen|)
  }

  function NumberTagged(candidates: seq<Candidate>): seq<Hypothesis> {
    seq(|candidates|, k requires 0 <= k < |candidates| =>
      Hypothesis(k + 1, candidates[k].item, Some(candidates[k].generator)))
  }

  lemma ScheduleStep(c: Context, generators: seq<CandidateGenerator>, g: nat, seen: set<Inputs>, left: nat,
                     selected: seq<Candidate>, drawn: seq<Item>)
    requires g < |generators| && left > 0 && drawn == Select(generators[g].generate(c), seen, left)
    ensures selected + Schedule(c, generators, g, seen, left)
         == (selected + Tag(drawn, generators[g].name))
            + Schedule(c, generators, g + 1, seen + InputsOf(drawn), left - |drawn|)
  {
    Associates(selected, Tag(drawn, generators[g].name),
               Schedule(c, generators, g + 1, seen + InputsOf(drawn), left - |drawn|));
  }

  class GeneratorScheduler {
    const generators: seq<CandidateGenerator>
    const budget: nat

    constructor (generators: seq<CandidateGenerator>, budget: nat)
      requires budget >= 1
      ensures this.generators == generators && this.budget == budget
    {
      this.generators, this.budget := generators, budget;
    }

    /** Draws from one generator until the budget that is left is spent. */
    method Draw(items: seq<Item>, known: set<Inputs>, left: nat) returns (drawn: seq<Item>, seen: set<Inputs>)
      requires left > 0
      ensures drawn == Select(items, known, left) && |drawn| <= left
      ensures seen == known + InputsOf(drawn)
    {
      drawn, seen := [], known;
      for i := 0 to |items|
        invariant |drawn| < left && seen == known + InputsOf(drawn)
        invariant drawn + Select(items[i..], seen, left - |drawn|) == Select(items, known, left)
      {
        assert items[i..][1..] == items[i + 1..];
        if items[i].inputs in seen {
          continue;
        }
        InputsOfAppend(drawn, [items[i]]);
        InputsOfOne(items[i]);
        seen := seen + {items[i].inputs};
        drawn := drawn + [items[i]];
        if |drawn| >= left {
          return;
        }
      }
      assert items[|items|..] == [];
    }

    /** One generator's turn. */
    method Turn(c: Context, g: nat, known: set<Inputs>, selected: seq<Candidate>)
      returns (more: seq<Candidate>, seen: set<Inputs>)
      requires g < |generators| && |selected| < budget
      ensures |more| <= budget
      ensures more + Schedule(c, generators, g + 1, seen, budget - |more|)
           == selected + Schedule(c, generators, g, known, budget - |selected|)
    {
      var drawn;
      drawn, seen := Draw(generators[g].generate(c), known, budget - |selected|);
      ScheduleStep(c, generators, g, known, budget - |selected|, selected, drawn);
      more := selected + Tag(drawn, generators[g].name);
    }

    /** Runs the generators in turn while budget is left. */
    method Collect(c: Context, existing: set<Inputs>) returns (selected: seq<Candidate>)
      ensures selected == Schedule(c, generators, 0, existing, budget)
    {
      var seen := existing;
      selected := [];
      for g := 0 to |generators|
        invariant |selected| <= budget
        invariant selected + Schedule(c, generators, g, seen, budget - |selected|)
               == Schedule(c, generators, 0, existing, budget)
      {
        if |selected| >= budget {
          return;
        }
        selected, seen := Turn(c, g, seen, selected);
      }
    }

    method Propose(c: Context) returns (proposals: seq<Hypothesis>)
      requires budget >= 1
      ensures proposals == NumberTagged(Schedule(c, generators, 0, Existing(c), budget))
    {
      var selected := Collect(c, Existing(c));
      proposals := NumberTagged(selected);
    }
  }

  // ---------------------------------------------------------------- what is selected

  /** Selected inputs are new, different from each other, and come from the list. */
  lemma {:induction false} SelectedAreNew(items: seq<Item>, seen: set<Inputs>, budget: nat)
    ensures forall item | item in Select(items, seen, budget) :: item in items && item.inputs !in seen
    ensures forall i, j | 0 <= i < j < |Select(items, seen, budget)| ::
              Select(items, seen, budget)[i].inputs != Select(items, seen, budget)[j].inputs
  {
    if items != [] && budget > 0 {
      assert items == [items[0]] + items[1..];
      if items[0].inputs in seen {
        SelectedAreNew(items[1..], seen, budget);
      } else {
        var more := seen + {items[0].inputs};
        var rest := Select(items[1..], more, budget - 1);
        SelectedAreNew(items[1..], more, budget - 1);
        assert forall j | 0 <= j < |rest| :: rest[j] in rest;
        assert forall j | 0 <= j < |rest| :: rest[j].inputs != items[0].inputs;
      }
    }
  }

  /** An input stays uncovered only when a longer list used up the whole budget. */
  lemma {:induction false} LeftoverMeansCovered(items: seq<Item>, seen: set<Inputs>, budget: nat)
    requires |Select(items, seen, budget)| < budget || |items| <= budget
    ensures InputsOf(items) <= seen + InputsOf(Select(items, seen, budget))
  {
    if items != [] {
      assert items == [items[0]] + items[1..];
      InputsOfOne(items[0]);
      InputsOfAppend([items[0]], items[1..]);
      if items[0].inputs in seen {
        LeftoverMeansCovered(items[1..], seen, budget);
      } else {
        var more := seen + {items[0].inputs};
        LeftoverMeansCovered(items[1..], more, budget - 1);
        InputsOfAppend([items[0]], Select(items[1..], more, budget - 1));
      }
    }
  }

  lemma InputsOfFront(item: Item, rest: seq<Item>, seen: set<Inputs>)
    ensures seen + InputsOf([item] + rest) == (seen + {item.inputs}) + InputsOf(rest)
  {
    InputsOfOne(item);
    InputsOfAppend([item], rest);
  }

  lemma SelectNext(item: Item, rest: seq<Item>, seen: set<Inputs>, budget: nat)
    requires item.inputs !in seen && budget > 0
    ensures Select([item] + rest, seen, budget) == [item] + Select(rest, seen + {item.inputs}, budget - 1)
  {
    assert ([item] + rest)[1..] == rest;
  }

  lemma SelectSkip(item: Item, rest: seq<Item>, seen: set<Inputs>, budget: nat)
    requires item.inputs in seen
    ensures Select([item] + rest, seen, budget) == Select(rest, seen, budget)
  {
    assert ([item] + rest)[1..] == rest;
  }

  /** Selecting from a concatenation is selecting from the parts with the remaining budget. */
  lemma {:induction false} SelectAppend(a: seq<Item>, b: seq<Item>, seen: set<Inputs>, budget: nat)
    ensures var chosen := Select(a, seen, budget);
      Select(a + b, seen, budget) == chosen + Select(b, seen + InputsOf(chosen), budget - |chosen|)
  {
    if a == [] {
      assert a + b == b;
      assert seen + InputsOf(Select(a, seen, budget)) == seen;
    } else if budget > 0 {
      var x, rest := a[0], a[1..];
      assert a == [x] + rest && a + b == [x] + (rest + b);
      if x.inputs in seen {
        SelectSkip(x, rest, seen, budget);
        SelectSkip(x, rest + b, seen, budget);
        SelectAppend(rest, b, seen, budget);
      } else {
        var more := seen + {x.inputs};
        var chosen := Select(rest, more, budget - 1);
        SelectNext(x, rest, seen, budget);
        SelectNext(x, rest + b, seen, budget);
        SelectAppend(rest, b, more, budget - 1);
        InputsOfFront(x, chosen, seen);
        Associates([x], chosen, Select(b, more + InputsOf(chosen), budget - 1 - |chosen|));
      }
    }
  }
}
