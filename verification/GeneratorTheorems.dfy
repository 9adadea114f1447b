/** What the proposed candidates are, and where the shrinking comment is wrong. */
module GeneratorTheorems {
  import opened Generators
  import opened Ordering
  import opened Sorting
  import opened Wrappers

  // ---------------------------------------------------------------- the scheduler is the provider

  function AllItems(c: Context, generators: seq<CandidateGenerator>, g: nat): seq<Item>
    requires g <= |generators|
    decreases |generators| - g
  {
    if g == |generators| then [] else generators[g].generate(c) + AllItems(c, generators, g + 1)
  }

  lemma UntagTagged(items: seq<Item>, name: string, rest: seq<Candidate>)
    ensures Untag(Tag(items, name) + rest) == items + Untag(rest)
  {
  }

  /** Whatever the generators, sharing one budget is selecting from their concatenation. */
  lemma {:induction false} ScheduleIsSelect(c: Context, generators: seq<CandidateGenerator>, g: nat, seen: set<Inputs>,
                                            budget: nat)
    requires g <= |generators|
    ensures Untag(Schedule(c, generators, g, seen, budget)) == Select(AllItems(c, generators, g), seen, budget)
    decreases |generators| - g
  {
    if g < |generators| {
      var items := generators[g].generate(c);
      var chosen := Select(items, seen, budget);
      SelectAppend(items, AllItems(c, generators, g + 1), seen, budget);
      if budget > 0 {
        var rest := Schedule(c, generators, g + 1, seen + InputsOf(chosen), budget - |chosen|);
        ScheduleIsSelect(c, generators, g + 1, seen + InputsOf(chosen), budget - |chosen|);
        UntagTagged(chosen, generators[g].name, rest);
      }
    }
  }

  /** `deterministic_scheduler()`. */
  function DefaultGenerators(): seq<CandidateGenerator> {
    [CandidateGenerator("permutation", PermutationItems), CandidateGenerator("boundary", BoundaryItems)]
  }

  lemma DefaultItems(c: Context)
    ensures AllItems(c, DefaultGenerators(), 0) == PermutationItems(c) + BoundaryItems(c)
  {
    var generators := DefaultGenerators();
    assert AllItems(c, generators, 2) == [];
    assert AllItems(c, generators, 1) == BoundaryItems(c) + [];
  }

  /** Same identifiers, inputs, rationales and misconceptions in the same order; only the attribution is new. */
  lemma SchedulerMatchesProvider(c: Context)
    ensures var eager := Number(Proposed(c));
      var lazy := NumberTagged(Schedule(c, DefaultGenerators(), 0, Existing(c), BATCH));
      && |lazy| == |eager|
      && forall k | 0 <= k < |lazy| :: lazy[k].(generator := None) == eager[k]
  {
    DefaultItems(c);
    ScheduleIsSelect(c, DefaultGenerators(), 0, Existing(c), BATCH);
    var scheduled := Schedule(c, DefaultGenerators(), 0, Existing(c), BATCH);
    assert forall k | 0 <= k < |scheduled| :: Untag(scheduled)[k] == scheduled[k].item;
  }

  /** The two programs side by side: the eager provider's loops, and the scheduler over the two generators. */
  method ProposeBoth(c: Context) returns (eager: seq<Hypothesis>, lazy: seq<Hypothesis>)
    ensures |lazy| == |eager| && forall k | 0 <= k < |lazy| :: lazy[k].(generator := None) == eager[k]
  {
    eager := Propose(c);
    var permuted := PermutationGenerate(c);
    var boundary := BoundaryGenerate(c);
    var scheduler := new GeneratorScheduler(
      [CandidateGenerator("permutation", _ => permuted), CandidateGenerator("boundary", _ => boundary)], BATCH);
    lazy := scheduler.Propose(c);
    SameYieldSameSchedule(c, scheduler.generators, DefaultGenerators(), 0, Existing(c), BATCH);
    SchedulerMatchesProvider(c);
  }

  /** A schedule depends only on the names of the generators and on what they yield for its context. */
  lemma {:induction false} SameYieldSameSchedule(c: Context, a: seq<CandidateGenerator>, b: seq<CandidateGenerator>,
      g: nat,
      seen: set<Inputs>, budget: nat)
    requires |a| == |b| && g <= |a|
    requires forall i | 0 <= i < |a| :: a[i].name == b[i].name && a[i].generate(c) == b[i].generate(c)
    ensures Schedule(c, a, g, seen, budget) == Schedule(c, b, g, seen, budget)
    decreases |a| - g
  {
    if g < |a| && budget > 0 {
      var chosen := Select(a[g].generate(c), seen, budget);
      SameYieldSameSchedule(c, a, b, g + 1, seen + InputsOf(chosen), budget - |chosen|);
    }
  }

  // ---------------------------------------------------------------- the first eight distinct unseen items

  predicate IsFirst(items: seq<Item>, seen: set<Inputs>, k: nat)
    requires k < |items|
  {
    items[k].inputs !in seen && items[k].inputs !in InputsOf(items[..k])
  }

  /** The items whose input appears for the first time, in order. */
  function FirstOccurrences(items: seq<Item>, seen: set<Inputs>): seq<Item> {
    if items == [] then []
    else
      var n := |items| - 1;
      FirstOccurrences(items[..n], seen) + if IsFirst(items, seen, n) then [items[n]] else []
  }

  /** Selecting under a budget keeps the first `budget` items of that list. */
  lemma {:induction false} SelectIsFirstDistinct(items: seq<Item>, seen: set<Inputs>, budget: nat)
    ensures Select(items, seen, budget)
         == FirstOccurrences(items, seen)[..Min(budget, |FirstOccurrences(items, seen)|)]
  {
    if items != [] {
      var n := |items| - 1;
      var front, x := items[..n], items[n];
      assert items == front + [x];
      SelectIsFirstDistinct(front, seen, budget);
      SelectAppend(front, [x], seen, budget);
      var chosen := Select(front, seen, budget);
      if |chosen| < budget {
        LeftoverMeansCovered(front, seen, budget);
        SelectedInputs(front, seen, budget);
      }
    }
  }

  lemma SelectedInputs(items: seq<Item>, seen: set<Inputs>, budget: nat)
    ensures InputsOf(Select(items, seen, budget)) <= InputsOf(items)
  {
    SelectedAreNew(items, seen, budget);
  }

  // ---------------------------------------------------------------- every proposal is in the domain

  lemma SameMultisetInDomain(c: Context, x: Inputs, y: Inputs)
    requires InDomain(c, x) && multiset(x) == multiset(y)
    ensures InDomain(c, y)
  {
    assert |x| == |multiset(x)| && |y| == |multiset(y)|;
    forall i | 0 <= i < |y|
      ensures c.lo <= y[i] <= c.hi
    {
      assert y[i] in multiset(y);
      assert y[i] in x;
    }
  }

  lemma {:induction false} ShrinkItemsInDomain(c: Context, row: Inputs, n: nat)
    requires Valid(c) && InDomain(c, row) && n <= |row|
    ensures forall item | item in ShrinkItems(c, row, n) :: InDomain(c, item.inputs)
  {
    if n > 0 { ShrinkItemsInDomain(c, row, n - 1); }
  }

  lemma {:induction false} RowsItemsInDomain(c: Context, t: Test, rows: seq<Inputs>)
    requires Valid(c) && forall row | row in rows :: InDomain(c, row)
    ensures forall item | item in RowsItems(c, t, rows) :: InDomain(c, item.inputs)
  {
    if rows != [] {
      var row := rows[|rows| - 1];
      RowsItemsInDomain(c, t, rows[..|rows| - 1]);
      ShrinkItemsInDomain(c, row, |row|);
    }
  }

  /** The rows of a test are the rearrangements of its input, ascending and without repeats. */
  lemma RowsHas(t: Test, row: Inputs)
    ensures row in Rows(t) <==> multiset(row) == multiset(t.inputs)
    ensures NoRepeats(Rows(t)) && Ordered(Rows(t), (x: Inputs) => x)
  {
    SortedSetSorts(Permutations(t.inputs), (x: Inputs) => x);
    PermutationsHas(t.inputs, row);
  }

  lemma {:induction false} TestsItemsInDomain(c: Context, tests: seq<Test>)
    requires Valid(c) && forall t | t in tests :: InDomain(c, t.inputs)
    ensures forall item | item in TestsItems(c, tests) :: InDomain(c, item.inputs)
  {
    if tests != [] {
      var t := tests[|tests| - 1];
      TestsItemsInDomain(c, tests[..|tests| - 1]);
      forall row | row in Rows(t)
        ensures InDomain(c, row)
      {
        RowsHas(t, row);
        SameMultisetInDomain(c, t.inputs, row);
      }
      RowsItemsInDomain(c, t, Rows(t));
    }
  }

  lemma OrderedTestsHas(c: Context, t: Test)
    ensures t in OrderedTests(c) <==> t in c.tests
  {
    SortSorts(c.tests, (t: Test) => [|Distinct(t.inputs)|] + Codes(t.testLabel));
    assert t in OrderedTests(c) <==> t in multiset(OrderedTests(c));
    assert t in c.tests <==> t in multiset(c.tests);
  }

  lemma PermutationItemsInDomain(c: Context)
    requires Valid(c)
    ensures forall item | item in PermutationItems(c) :: InDomain(c, item.inputs)
  {
    forall t | t in OrderedTests(c)
      ensures InDomain(c, t.inputs)
    {
      OrderedTestsHas(c, t);
    }
    TestsItemsInDomain(c, OrderedTests(c));
  }

  // ---------------------------------------------------------------- boundary coverage

  /** The declared limits, their neighbours, zero and one, as far as they lie in the domain. */
  predicate IsBoundary(c: Context, v: int) {
    c.lo <= v <= c.hi && v in {c.lo, c.lo + 1, c.hi, c.hi - 1, 0, 1}
  }

  lemma {:induction false} WithinHas(c: Context, values: seq<int>, v: int)
    ensures v in Within(c, values) <==> v in values && c.lo <= v <= c.hi
  {
    if values != [] {
      WithinHas(c, values[1..], v);
      assert values == [values[0]] + values[1..];
    }
  }

  lemma BoundariesHas(c: Context, v: int)
    requires Valid(c)
    ensures v in Boundaries(c) <==> IsBoundary(c, v)
  {
    var values := [c.lo, Min(c.hi, c.lo + 1), c.hi, Max(c.lo, c.hi - 1), 0, Anchor(c)];
    SortedSetSorts(Within(c, values), (v: int) => [v]);
    WithinHas(c, values, v);
  }

  /** The boundary cases are all tuples of boundary values. */
  lemma BoundaryCasesHas(c: Context, x: Inputs)
    requires Valid(c)
    ensures x in BoundaryCases(c) <==> |x| == c.arity && forall i | 0 <= i < |x| :: IsBoundary(c, x[i])
  {
    var key := (x: Inputs) => [SumAbs(x), MaxAbs(x)] + x;
    SortSorts(Product(Boundaries(c), c.arity), key);
    assert x in BoundaryCases(c) <==> x in multiset(BoundaryCases(c));
    assert x in Product(Boundaries(c), c.arity) <==> x in multiset(Product(Boundaries(c), c.arity));
    ProductHas(Boundaries(c), c.arity, x);
    forall i | 0 <= i < |x|
      ensures x[i] in Boundaries(c) <==> IsBoundary(c, x[i])
    {
      BoundariesHas(c, x[i]);
    }
  }

  lemma BoundaryItemsInDomain(c: Context)
    requires Valid(c)
    ensures forall item | item in BoundaryItems(c) :: InDomain(c, item.inputs)
  {
    forall item | item in BoundaryItems(c)
      ensures InDomain(c, item.inputs)
    {
      var k :| 0 <= k < |BoundaryItems(c)| && BoundaryItems(c)[k] == item;
      assert item.inputs == BoundaryCases(c)[k];
      BoundaryCasesHas(c, item.inputs);
    }
  }

  function Proposed(c: Context): seq<Item> {
    Select(PermutationItems(c) + BoundaryItems(c), Existing(c), BATCH)
  }

  /** Proposals are in the domain, have the right arity, are new, and differ from each other. */
  lemma ProposalsAreAdmissible(c: Context)
    requires Valid(c)
    ensures |Proposed(c)| <= 8
    ensures forall item | item in Proposed(c) :: InDomain(c, item.inputs) && item.inputs !in Existing(c)
    ensures forall i, j | 0 <= i < j < |Proposed(c)| :: Proposed(c)[i].inputs != Proposed(c)[j].inputs
  {
    PermutationItemsInDomain(c);
    BoundaryItemsInDomain(c);
    SelectedAreNew(PermutationItems(c) + BoundaryItems(c), Existing(c), BATCH);
  }

  /** Fewer than eight proposals only when every boundary tuple is an instructor test or proposed. */
  lemma FewerMeansCovered(c: Context, x: Inputs)
    requires Valid(c) && |Proposed(c)| < 8
    requires |x| == c.arity && forall i | 0 <= i < |x| :: IsBoundary(c, x[i])
    ensures x in Existing(c) + InputsOf(Proposed(c))
  {
    var all := PermutationItems(c) + BoundaryItems(c);
    BoundaryCasesHas(c, x);
    var k :| 0 <= k < |BoundaryCases(c)| && BoundaryCases(c)[k] == x;
    assert BoundaryItems(c)[k] in BoundaryItems(c);
    assert BoundaryItems(c)[k] in all && BoundaryItems(c)[k].inputs == x;
    LeftoverMeansCovered(all, Existing(c), BATCH);
  }

  // ---------------------------------------------------------------- shrinking

  predicate SamePattern(a: Inputs, b: Inputs) {
    |a| == |b| && forall i, j | 0 <= i < |a| && 0 <= j < |a| :: a[i] == a[j] <==> b[i] == b[j]
  }

  lemma AppearsOnce(row: Inputs, i: nat, j: nat)
    requires i < |row| && j < |row| && i != j && multiset(row)[row[i]] == 1
    ensures row[j] != row[i]
  {
    WithoutCounts(row, i);
    var rest := Without(row, i);
    assert rest[if j < i then j else j - 1] == row[j];
    assert row[j] in multiset(rest);
  }

  /** Moving the distinct position to the anchor keeps the equality pattern exactly when the anchor is not in the tuple. */
  lemma ShrinkKeepsPatternIff(c: Context, row: Inputs, i: nat)
    requires i < |row| && Shrinkable(c, row, i)
    ensures SamePattern(row, ShrinkItem(c, row, i).inputs) <==> Anchor(c) !in row
  {
    var shrunk := row[i := Anchor(c)];
    if Anchor(c) in row {
      var j :| 0 <= j < |row| && row[j] == Anchor(c);
      assert shrunk[i] == shrunk[j] && row[i] != row[j];
    } else {
      forall j, k | 0 <= j < |row| && 0 <= k < |row|
        ensures row[j] == row[k] <==> shrunk[j] == shrunk[k]
      {
        if j != i { AppearsOnce(row, i, j); }
        if k != i { AppearsOnce(row, i, k); }
      }
    }
  }

  lemma {:induction false} ShrinkItemsHas(c: Context, row: Inputs, n: nat, i: nat)
    requires i < n <= |row| && Shrinkable(c, row, i)
    ensures ShrinkItem(c, row, i) in ShrinkItems(c, row, n)
  {
    if i < n - 1 { ShrinkItemsHas(c, row, n - 1, i); }
  }

  lemma {:induction false} RowsItemsHas(c: Context, t: Test, rows: seq<Inputs>, row: Inputs, item: Item)
    requires row in rows && item in RowItems(c, t, row)
    ensures item in RowsItems(c, t, rows)
  {
    var n := |rows| - 1;
    assert rows == rows[..n] + [rows[n]];
    if row in rows[..n] { RowsItemsHas(c, t, rows[..n], row, item); }
  }

  lemma {:induction false} TestsItemsHas(c: Context, tests: seq<Test>, t: Test, item: Item)
    requires t in tests && item in RowsItems(c, t, Rows(t))
    ensures item in TestsItems(c, tests)
  {
    var n := |tests| - 1;
    assert tests == tests[..n] + [tests[n]];
    if t in tests[..n] { TestsItemsHas(c, tests[..n], t, item); }
  }

  /** Every shrunk rearrangement of every instructor test is generated. */
  lemma ShrunkIsGenerated(c: Context, t: Test, row: Inputs, i: nat)
    requires t in c.tests && multiset(row) == multiset(t.inputs) && row != t.inputs
    requires i < |row| && Shrinkable(c, row, i)
    ensures ShrinkItem(c, row, i) in PermutationItems(c)
  {
    ShrinkItemsHas(c, row, |row|, i);
    RowsHas(t, row);
    RowsItemsHas(c, t, Rows(t), row, ShrinkItem(c, row, i));
    OrderedTestsHas(c, t);
    TestsItemsHas(c, OrderedTests(c), t, ShrinkItem(c, row, i));
  }

  // ---------------------------------------------------------------- what is generated, and in which order

  lemma OnceIff(row: Inputs, i: nat)
    requires i < |row|
    ensures multiset(row)[row[i]] == 1 <==> forall j | 0 <= j < |row| && j != i :: row[j] != row[i]
  {
    var rest := Without(row, i);
    WithoutCounts(row, i);
    if multiset(row)[row[i]] == 1 {
      forall j | 0 <= j < |row| && j != i ensures row[j] != row[i] {
        AppearsOnce(row, i, j);
      }
    } else {
      assert row[i] in multiset(rest);
      var k :| 0 <= k < |rest| && rest[k] == row[i];
      assert row[if k < i then k else k + 1] == rest[k];
    }
  }

  /** A position whose value occurs once, and is not one, moved to one or the nearest value of the domain. */
  predicate ShrunkAt(c: Context, row: Inputs, i: int, x: Inputs) {
    var one := if c.hi < 1 then c.hi else if c.lo > 1 then c.lo else 1;
    && 0 <= i < |row| && row[i] != one && x == row[i := one]
    && forall j | 0 <= j < |row| && j != i :: row[j] != row[i]
  }

  lemma {:induction false} ShrinkItemsFrom(c: Context, row: Inputs, n: nat, item: Item) returns (i: nat)
    requires n <= |row| && item in ShrinkItems(c, row, n)
    ensures i < n && Shrinkable(c, row, i) && item == ShrinkItem(c, row, i)
  {
    if item in ShrinkItems(c, row, n - 1) {
      i := ShrinkItemsFrom(c, row, n - 1, item);
    } else {
      i := n - 1;
    }
  }

  lemma RowInputsIff(c: Context, t: Test, row: Inputs, x: Inputs)
    requires Valid(c)
    ensures (exists item :: item in RowItems(c, t, row) && item.inputs == x) <==>
            row != t.inputs && (x == row || exists i :: ShrunkAt(c, row, i, x))
  {
    forall i: nat | i < |row| ensures Shrinkable(c, row, i) && row[i := Anchor(c)] == x <==> ShrunkAt(c, row, i, x) {
      OnceIff(row, i);
    }
    forall item | item in ShrinkItems(c, row, |row|) && item.inputs == x ensures exists i :: ShrunkAt(c, row, i, x) {
      var i := ShrinkItemsFrom(c, row, |row|, item);
      assert ShrunkAt(c, row, i, x);
    }
    forall i | ShrunkAt(c, row, i, x) ensures ShrinkItem(c, row, i) in ShrinkItems(c, row, |row|) {
      ShrinkItemsHas(c, row, |row|, i);
    }
    if row != t.inputs {
      assert PermuteItem(t, row) in RowItems(c, t, row);
    }
  }

  lemma {:induction false} RowsItemsFrom(c: Context, t: Test, rows: seq<Inputs>, item: Item) returns (row: Inputs)
    requires item in RowsItems(c, t, rows)
    ensures row in rows && item in RowItems(c, t, row)
  {
    var n := |rows| - 1;
    if item in RowsItems(c, t, rows[..n]) {
      row := RowsItemsFrom(c, t, rows[..n], item);
    } else {
      row := rows[n];
    }
  }

  lemma {:induction false} TestsItemsFrom(c: Context, tests: seq<Test>, item: Item) returns (t: Test)
    requires item in TestsItems(c, tests)
    ensures t in tests && item in RowsItems(c, t, Rows(t))
  {
    var n := |tests| - 1;
    if item in TestsItems(c, tests[..n]) {
      t := TestsItemsFrom(c, tests[..n], item);
    } else {
      t := tests[n];
    }
  }

  /** The tuple is a rearrangement of the test's input other than it, or such a one shrunk at one position. */
  ghost predicate Rearranged(c: Context, t: Test, row: Inputs, x: Inputs) {
    && t in c.tests && multiset(row) == multiset(t.inputs) && row != t.inputs
    && (x == row || exists i :: ShrunkAt(c, row, i, x))
  }

  /** The permutation generator yields exactly the other rearrangements of the instructor's inputs and their shrunk variants. */
  lemma PermutedInputsIff(c: Context, x: Inputs)
    requires Valid(c)
    ensures x in InputsOf(PermutationItems(c)) <==> exists t, row :: Rearranged(c, t, row, x)
  {
    if x in InputsOf(PermutationItems(c)) {
      var item :| item in PermutationItems(c) && item.inputs == x;
      var t := TestsItemsFrom(c, OrderedTests(c), item);
      var row := RowsItemsFrom(c, t, Rows(t), item);
      OrderedTestsHas(c, t);
      RowsHas(t, row);
      RowInputsIff(c, t, row, x);
      assert Rearranged(c, t, row, x);
    }
    forall t, row | Rearranged(c, t, row, x) ensures x in InputsOf(PermutationItems(c)) {
      RowInputsIff(c, t, row, x);
      var item :| item in RowItems(c, t, row) && item.inputs == x;
      RowsHas(t, row);
      RowsItemsHas(c, t, Rows(t), row, item);
      OrderedTestsHas(c, t);
      TestsItemsHas(c, OrderedTests(c), t, item);
    }
  }

  /** How many different values a tuple has. */
  function Different(x: Inputs): nat { |set v | v in x| }

  lemma {:induction false} DistinctSize(x: Inputs)
    ensures |Distinct(x)| == Different(x)
  {
    if x != [] {
      var n := |x| - 1;
      DistinctSize(x[..n]);
      assert x == x[..n] + [x[n]];
      assert (set v | v in x) == (set v | v in x[..n]) + {x[n]};
      assert x[n] in Distinct(x[..n]) <==> x[n] in (set v | v in x[..n]);
    }
  }

  /** The tests are taken by the number of their different values, then by their label. */
  lemma TestsInOrder(c: Context, i: nat, j: nat)
    requires i < j < |OrderedTests(c)|
    ensures var s, t := OrderedTests(c)[i], OrderedTests(c)[j];
      || Different(s.inputs) < Different(t.inputs)
      || (Different(s.inputs) == Different(t.inputs) && LexLe(Codes(s.testLabel), Codes(t.testLabel)))
    ensures multiset(OrderedTests(c)) == multiset(c.tests)
  {
    var key := (t: Test) => [|Distinct(t.inputs)|] + Codes(t.testLabel);
    SortSorts(c.tests, key);
    var s, t := OrderedTests(c)[i], OrderedTests(c)[j];
    DistinctSize(s.inputs);
    DistinctSize(t.inputs);
    assert LexLe(key(s), key(t));
    LexFront(Different(s.inputs), Codes(s.testLabel), Different(t.inputs), Codes(t.testLabel));
  }

  lemma TwoInFront(a: int, b: int, x: Inputs, a': int, b': int, y: Inputs)
    ensures LexLe([a, b] + x, [a', b'] + y) <==> a < a' || (a == a' && (b < b' || (b == b' && LexLe(x, y))))
  {
    assert [a, b] + x == [a] + ([b] + x) && [a', b'] + y == [a'] + ([b'] + y);
    LexFront(a, [b] + x, a', [b'] + y);
    LexFront(b, x, b', y);
  }

  /** The boundary cases are taken by the sum of their magnitudes, then by the largest, then as tuples. */
  lemma CasesInOrder(c: Context, i: nat, j: nat)
    requires i < j < |BoundaryCases(c)|
    ensures var x, y := BoundaryCases(c)[i], BoundaryCases(c)[j];
      || SumAbs(x) < SumAbs(y)
      || (SumAbs(x) == SumAbs(y) && (MaxAbs(x) < MaxAbs(y) || (MaxAbs(x) == MaxAbs(y) && LexLe(x, y))))
  {
    var key := (x: Inputs) => [SumAbs(x), MaxAbs(x)] + x;
    SortSorts(Product(Boundaries(c), c.arity), key);
    var x, y := BoundaryCases(c)[i], BoundaryCases(c)[j];
    assert LexLe(key(x), key(y));
    TwoInFront(SumAbs(x), MaxAbs(x), x, SumAbs(y), MaxAbs(y), y);
  }

  /** The domain 0..3 with the one test (1, 2), which the service accepts. */
  function TwoDistinct(): Context {
    Context([Test([1, 2], "two distinct values")], 2, 0, 3)
  }

  lemma TwoDistinctFacts()
    ensures Valid(TwoDistinct()) && Anchor(TwoDistinct()) == 1
    ensures multiset([2, 1]) == multiset([1, 2]) && [2, 1] != [1, 2]
    ensures [2, 1][0 := 1] == [1, 1] && multiset([2, 1])[2] == 1
  {
    assert InDomain(TwoDistinct(), [1, 2]);
    assert multiset([2, 1]) == multiset{2, 1} == multiset([1, 2]);
    assert [2, 1][0] == 2;
  }

  /** There shrinking loses the pattern: the rearrangement (2, 1) yields (1, 1). */
  lemma ShrinkCanBreakPattern()
    ensures Valid(TwoDistinct())
    ensures exists item :: item in PermutationItems(TwoDistinct()) && item.inputs == [1, 1] && item.rationale == SHRINK_RATIONALE
    ensures !SamePattern([2, 1], [1, 1])
  {
    TwoDistinctFacts();
    var t := Test([1, 2], "two distinct values");
    assert t in TwoDistinct().tests;
    assert [2, 1][0] == 2;
    ShrunkIsGenerated(TwoDistinct(), t, [2, 1], 0);
    assert ShrinkItem(TwoDistinct(), [2, 1], 0).inputs == [1, 1];
    ShrinkKeepsPatternIff(TwoDistinct(), [2, 1], 0);
    assert [2, 1][1] == 1;
  }

  // ---------------------------------------------------------------- live and fallback batches

  /** The merge of a live batch with the fallback batch: four live items at most, eight in all. */
  method Merge(live: seq<Item>, fallback: seq<Item>) returns (combined: seq<Item>)
    ensures combined == Select(live[..Min(4, |live|)] + fallback, {}, BATCH)
  {
    combined := PickEight(live[..Min(4, |live|)] + fallback, {});
  }

  /** Half the batch is reserved for each side: no one of the first four inputs of either side is lost. */
  lemma MergeReservesHalf(live: seq<Item>, fallback: seq<Item>)
    ensures var combined := Select(live[..Min(4, |live|)] + fallback, {}, BATCH);
      && InputsOf(live[..Min(4, |live|)]) <= InputsOf(combined)
      && InputsOf(fallback[..Min(4, |fallback|)]) <= InputsOf(combined)
  {
    var first, second := live[..Min(4, |live|)], fallback[..Min(4, |fallback|)];
    var rest := fallback[|second|..];
    assert fallback == second + rest;
    Associates(first, second, rest);
    SelectAppend(first + second, rest, {}, BATCH);
    LeftoverMeansCovered(first + second, {}, BATCH);
    InputsOfAppend(first, second);
    var chosen := Select(first + second, {}, BATCH);
    InputsOfAppend(chosen, Select(rest, {} + InputsOf(chosen), BATCH - |chosen|));
  }
}
