/** The test-by-mutant matrix: clusters of indistinguishable mutants, and tests made redundant by others. */
module Coverage {
  import opened Sorting

  type Grid = map<string, map<string, bool>>
  type Signature = seq<bool>

  datatype Cluster = Cluster(signature: Signature, mutants: seq<string>)
  datatype Pair = Pair(parent: string, child: string)

  /** A missing entry counts as passed. */
  predicate Passed(grid: Grid, test: string, mutant: string) {
    if test in grid && mutant in grid[test] then grid[test][mutant] else true
  }

  function SignatureOf(grid: Grid, tests: seq<string>, mutant: string): Signature {
    seq(|tests|, i requires 0 <= i < |tests| => Passed(grid, tests[i], mutant))
  }

  function KilledBy(grid: Grid, mutants: seq<string>, test: string): set<string> {
    set m | m in mutants && !Passed(grid, test, m)
  }

  /** The first test kills everything the second kills, and more; the second kills something. */
  predicate Subsumes(grid: Grid, mutants: seq<string>, parent: string, child: string) {
    var more, less := KilledBy(grid, mutants, parent), KilledBy(grid, mutants, child);
    less != {} && less <= more && less != more
  }

  /** The grid records that the mutant fails the test. */
  predicate Fails(grid: Grid, test: string, mutant: string) {
    test in grid && mutant in grid[test] && !grid[test][mutant]
  }

  lemma SubsumesIff(grid: Grid, mutants: seq<string>, parent: string, child: string)
    ensures Subsumes(grid, mutants, parent, child) <==>
              && (exists m :: m in mutants && Fails(grid, child, m))
              && (forall m | m in mutants && Fails(grid, child, m) :: Fails(grid, parent, m))
              && (exists m :: m in mutants && Fails(grid, parent, m) && !Fails(grid, child, m))
  {
    forall test, m ensures m in KilledBy(grid, mutants, test) <==> m in mutants && Fails(grid, test, m) {
    }
    var more, less := KilledBy(grid, mutants, parent), KilledBy(grid, mutants, child);
    if less != {} {
      var m :| m in less;
    }
    if less <= more && less != more {
      var m :| m in more && m !in less;
    }
  }

  // ---------------------------------------------------------------- grouping by a key

  function KeysOf<K>(items: seq<string>, key: string -> K): seq<K> {
    seq(|items|, i requires 0 <= i < |items| => key(items[i]))
  }

  /** The items with one key, in their given order. */
  function Members<K(==)>(items: seq<string>, key: string -> K, k: K): seq<string> {
    if items == [] then []
    else
      var n := |items| - 1;
      Members(items[..n], key, k) + if key(items[n]) == k then [items[n]] else []
  }

  lemma {:induction false} MembersHas<K>(items: seq<string>, key: string -> K, k: K, m: string)
    ensures m in Members(items, key, k) <==> m in items && key(m) == k
    ensures multiset(Members(items, key, k))[m] == if key(m) == k then multiset(items)[m] else 0
  {
    if items != [] {
      var n := |items| - 1;
      assert items == items[..n] + [items[n]];
      MembersHas(items[..n], key, k, m);
    }
  }

  lemma {:induction false} NoMembers<K(!new)>(items: seq<string>, key: string -> K, k: K)
    requires k !in KeysOf(items, key)
    ensures Members(items, key, k) == []
  {
    if items != [] {
      var n := |items| - 1;
      assert KeysOf(items, key)[n] == key(items[n]);
      assert KeysOf(items[..n], key) == KeysOf(items, key)[..n];
      NoMembers(items[..n], key, k);
    }
  }

  /** The table files each item under its key; the keys are in order of first appearance. */
  ghost predicate Grouped<K(!new)>(items: seq<string>, key: string -> K, keys: seq<K>, table: map<K, seq<string>>) {
    && keys == Distinct(KeysOf(items, key))
    && (forall k :: k in keys <==> k in table)
    && (forall k | k in table :: table[k] == Members(items, key, k))
  }

  function Filed<K(==)>(table: map<K, seq<string>>, k: K, m: string): map<K, seq<string>> {
    table[k := (if k in table then table[k] else []) + [m]]
  }

  lemma OneMoreKey<K(!new)>(items: seq<string>, key: string -> K, m: string)
    ensures KeysOf(items + [m], key) == KeysOf(items, key) + [key(m)]
    ensures Distinct(KeysOf(items + [m], key))
         == Distinct(KeysOf(items, key)) + if key(m) in KeysOf(items, key) then [] else [key(m)]
  {
    var all := KeysOf(items + [m], key);
    assert all == KeysOf(items, key) + [key(m)];
    assert all[..|items|] == KeysOf(items, key);
  }

  lemma OneMoreMember<K>(items: seq<string>, key: string -> K, m: string, k: K)
    ensures Members(items + [m], key, k) == Members(items, key, k) + if key(m) == k then [m] else []
  {
    assert (items + [m])[..|items|] == items;
  }

  lemma GroupStep<K(!new)>(items: seq<string>, key: string -> K, keys: seq<K>, table: map<K, seq<string>>, m: string)
    requires Grouped(items, key, keys, table)
    ensures var k := key(m);
      Grouped(items + [m], key, if k in table then keys else keys + [k], Filed(table, k, m))
  {
    OneMoreKey(items, key, m);
    var filed := Filed(table, key(m), m);
    forall k | k in filed
      ensures filed[k] == Members(items + [m], key, k)
    {
      OneMoreMember(items, key, m, k);
      if k !in table { NoMembers(items, key, k); }
    }
  }

  lemma GroupedNothing<K(!new)>(key: string -> K)
    ensures Grouped([], key, [], map[])
  {
  }

  method File<K(==)>(keys: seq<K>, table: map<K, seq<string>>, k: K, m: string)
      returns (keys': seq<K>, table': map<K, seq<string>>)
    ensures keys' == if k in table then keys else keys + [k]
    ensures table' == Filed(table, k, m)
  {
    keys', table' := keys, table;
    if k !in table' {
      keys' := keys' + [k];
      table' := table'[k := []];
    }
    table' := table'[k := table'[k] + [m]];
  }

  method FileNext<K(==,!new)>(ghost filed: seq<string>, key: string -> K, keys: seq<K>, table: map<K, seq<string>>,
      m: string)
      returns (keys': seq<K>, table': map<K, seq<string>>)
    requires Grouped(filed, key, keys, table)
    ensures Grouped(filed + [m], key, keys', table')
  {
    GroupStep(filed, key, keys, table, m);
    keys', table' := File(keys, table, key(m), m);
  }

  method GroupBy<K(==,!new)>(items: seq<string>, key: string -> K) returns (keys: seq<K>, table: map<K, seq<string>>)
    ensures Grouped(items, key, keys, table)
  {
    keys, table := [], map[];
    GroupedNothing(key);
    for i := 0 to |items|
      invariant Grouped(items[..i], key, keys, table)
    {
      keys, table := FileNext(items[..i], key, keys, table, items[i]);
      assert items[..i + 1] == items[..i] + [items[i]];
    }
    assert items[..|items|] == items;
  }

  // ---------------------------------------------------------------- the clusters

  function ByTests(grid: Grid, tests: seq<string>): string -> Signature {
    (m: string) => SignatureOf(grid, tests, m)
  }

  function ClusterOf(grid: Grid, tests: seq<string>, mutants: seq<string>, sig: Signature): Cluster {
    Cluster(sig, Members(mutants, ByTests(grid, tests), sig))
  }

  function Clusters(grid: Grid, tests: seq<string>, mutants: seq<string>): seq<Cluster> {
    var keys := Distinct(KeysOf(mutants, ByTests(grid, tests)));
    seq(|keys|, i requires 0 <= i < |keys| => ClusterOf(grid, tests, mutants, keys[i]))
  }

  method ComputeClusters(grid: Grid, tests: seq<string>, mutants: seq<string>) returns (clusters: seq<Cluster>)
    ensures clusters == Clusters(grid, tests, mutants)
  {
    var keys, table := GroupBy(mutants, ByTests(grid, tests));
    clusters := [];
    for i := 0 to |keys|
      invariant |clusters| == i
      invariant forall j | 0 <= j < i :: clusters[j] == ClusterOf(grid, tests, mutants, keys[j])
    {
      assert keys[i] in keys;
      clusters := clusters + [Cluster(keys[i], table[keys[i]])];
    }
  }

  /** Reports every ordered pair of positions whose tests are in the relation. */
  method ComputeSubsumption(grid: Grid, tests: seq<string>, mutants: seq<string>) returns (pairs: seq<Pair>)
    ensures forall p :: p in pairs <==>
              && p.parent in tests && p.child in tests
              && (exists m :: m in mutants && Fails(grid, p.child, m))
              && (forall m | m in mutants && Fails(grid, p.child, m) :: Fails(grid, p.parent, m))
              && (exists m :: m in mutants && Fails(grid, p.parent, m) && !Fails(grid, p.child, m))
  {
    pairs := [];
    for i := 0 to |tests|
      invariant forall p :: p in pairs <==>
          p.parent in tests[..i] && p.child in tests && Subsumes(grid, mutants, p.parent, p.child)
    {
      var before := pairs;
      for j := 0 to |tests|
        invariant forall p :: p in pairs <==>
            (p in before
             || (p.parent == tests[i] && p.child in tests[..j] && Subsumes(grid, mutants, p.parent, p.child)))
      {
        if i != j {
          var k1, k2 := KilledBy(grid, mutants, tests[i]), KilledBy(grid, mutants, tests[j]);
          if k2 != {} && k1 >= k2 && k1 != k2 {
            pairs := pairs + [Pair(tests[i], tests[j])];
          }
        }
        assert tests[..j + 1] == tests[..j] + [tests[j]];
      }
      assert tests[..|tests|] == tests;
      assert tests[..i + 1] == tests[..i] + [tests[i]];
    }
    assert tests[..|tests|] == tests;
    forall p: Pair {
      SubsumesIff(grid, mutants, p.parent, p.child);
    }
  }

  // ---------------------------------------------------------------- clusters partition the mutants

  /** Every cluster is exactly one class of equal signatures, complete and with its multiplicities. */
  lemma ClusterIsClass(grid: Grid, tests: seq<string>, mutants: seq<string>, k: nat, m: string)
    requires k < |Clusters(grid, tests, mutants)|
    ensures var c := Clusters(grid, tests, mutants)[k];
      && c.mutants != [] && |c.signature| == |tests|
      && (m in c.mutants ==> forall i :: 0 <= i < |tests| ==> (c.signature[i] <==> !Fails(grid, tests[i], m)))
      && (m in c.mutants <==> m in mutants && SignatureOf(grid, tests, m) == c.signature)
      && (m in c.mutants ==> multiset(c.mutants)[m] == multiset(mutants)[m])
  {
    var key := ByTests(grid, tests);
    var keys := Distinct(KeysOf(mutants, key));
    var sig := keys[k];
    MembersHas(mutants, key, sig, m);
    assert sig in keys;
    assert sig in KeysOf(mutants, key);
    var i :| 0 <= i < |mutants| && key(mutants[i]) == sig;
    MembersHas(mutants, key, sig, mutants[i]);
  }

  /** Each mutant is in exactly one cluster, so clusters never share a mutant. */
  lemma ClustersPartition(grid: Grid, tests: seq<string>, mutants: seq<string>, m: string)
    requires m in mutants
    ensures exists k :: 0 <= k < |Clusters(grid, tests, mutants)| && m in Clusters(grid, tests, mutants)[k].mutants
    ensures forall j, k | 0 <= j < k < |Clusters(grid, tests, mutants)| ::
              !(m in Clusters(grid, tests, mutants)[j].mutants && m in Clusters(grid, tests, mutants)[k].mutants)
  {
    var all := KeysOf(mutants, ByTests(grid, tests));
    var clusters := Clusters(grid, tests, mutants);
    var i :| 0 <= i < |mutants| && mutants[i] == m;
    assert all[i] in all;
    var k :| 0 <= k < |Distinct(all)| && Distinct(all)[k] == all[i];
    ClusterIsClass(grid, tests, mutants, k, m);
    assert m in clusters[k].mutants;
    forall a, b | 0 <= a < b < |clusters|
      ensures !(m in clusters[a].mutants && m in clusters[b].mutants)
    {
      ClusterIsClass(grid, tests, mutants, a, m);
      ClusterIsClass(grid, tests, mutants, b, m);
    }
  }

  // ---------------------------------------------------------------- redundant tests

  /** Subsumption is a strict order: a relation along which one can only climb. */
  lemma SubsumptionIsStrictOrder(grid: Grid, mutants: seq<string>, a: string, b: string, c: string)
    ensures !Subsumes(grid, mutants, a, a)
    ensures Subsumes(grid, mutants, a, b) ==> !Subsumes(grid, mutants, b, a)
    ensures Subsumes(grid, mutants, a, b) && Subsumes(grid, mutants, b, c) ==> Subsumes(grid, mutants, a, c)
  {
  }

  ghost predicate Redundant(grid: Grid, tests: seq<string>, mutants: seq<string>, test: string) {
    exists t :: t in tests && Subsumes(grid, mutants, t, test)
  }

  /** Some remaining test kills whatever a redundant test kills. */
  lemma {:induction false} ClimbToKept(grid: Grid, tests: seq<string>, mutants: seq<string>, test: string, m: string)
      returns (kept: string)
    requires test in tests && m in KilledBy(grid, mutants, test)
    ensures kept in tests && m in KilledBy(grid, mutants, kept) && !Redundant(grid, tests, mutants, kept)
    decreases |(set x | x in mutants) - KilledBy(grid, mutants, test)|
  {
    if Redundant(grid, tests, mutants, test) {
      var t :| t in tests && Subsumes(grid, mutants, t, test);
      var all := set x | x in mutants;
      var more, less := KilledBy(grid, mutants, t), KilledBy(grid, mutants, test);
      assert all - more < all - less by {
        var x :| x in more && x !in less;
        assert x in all - less && x !in all - more;
      }
      SmallerSet(all - more, all - less);
      kept := ClimbToKept(grid, tests, mutants, t, m);
    } else {
      kept := test;
    }
  }

  lemma {:induction false} SmallerSet(a: set<string>, b: set<string>)
    requires a < b
    ensures |a| < |b|
  {
    var x :| x in b && x !in a;
    if a == {} {
      assert b != {};
    } else {
      var y :| y in a;
      SmallerSet(a - {y}, b - {y});
    }
  }

  ghost function KilledByAny(grid: Grid, mutants: seq<string>, tests: set<string>): set<string> {
    set m | m in mutants && exists t :: t in tests && !Passed(grid, t, m)
  }

  /** Dropping every subsumed test at once kills exactly the same mutants. */
  lemma DroppingRedundantKeepsKills(grid: Grid, tests: seq<string>, mutants: seq<string>)
    ensures var all := set t | t in tests;
      var kept := set t | t in tests && !Redundant(grid, tests, mutants, t);
      KilledByAny(grid, mutants, kept) == KilledByAny(grid, mutants, all)
  {
    var all := set t | t in tests;
    var kept := set t | t in tests && !Redundant(grid, tests, mutants, t);
    forall m | m in KilledByAny(grid, mutants, all)
      ensures m in KilledByAny(grid, mutants, kept)
    {
      var t :| t in all && !Passed(grid, t, m);
      var k := ClimbToKept(grid, tests, mutants, t, m);
      assert k in kept && !Passed(grid, k, m);
    }
  }

  // ---------------------------------------------------------------- what dropping does to the clusters

  predicate TellsApart(grid: Grid, test: string, m: string, n: string) {
    Passed(grid, test, m) != Passed(grid, test, n)
  }

  /** The tests that are not redundant, in their order. */
  ghost function KeptOf(grid: Grid, tests: seq<string>, mutants: seq<string>, listed: seq<string>): seq<string> {
    if listed == [] then []
    else
      var n := |listed| - 1;
      KeptOf(grid, tests, mutants, listed[..n]) + if Redundant(grid, tests, mutants, listed[n]) then [] else [listed[n]]
  }

  ghost function Kept(grid: Grid, tests: seq<string>, mutants: seq<string>): seq<string> {
    KeptOf(grid, tests, mutants, tests)
  }

  lemma {:induction false} KeptHas(grid: Grid, tests: seq<string>, mutants: seq<string>, listed: seq<string>, t: string)
    ensures t in KeptOf(grid, tests, mutants, listed) <==> t in listed && !Redundant(grid, tests, mutants, t)
  {
    if listed != [] {
      var n := |listed| - 1;
      assert listed == listed[..n] + [listed[n]];
      KeptHas(grid, tests, mutants, listed[..n], t);
    }
  }

  lemma SameSignatureIff(grid: Grid, tests: seq<string>, m: string, n: string)
    ensures SignatureOf(grid, tests, m) == SignatureOf(grid, tests, n)
            <==> forall t | t in tests :: !TellsApart(grid, t, m, n)
  {
    var a, b := SignatureOf(grid, tests, m), SignatureOf(grid, tests, n);
    if a == b {
      forall t | t in tests
        ensures !TellsApart(grid, t, m, n)
      {
        var i :| 0 <= i < |tests| && tests[i] == t;
        assert a[i] == b[i];
      }
    }
    if forall t | t in tests :: !TellsApart(grid, t, m, n) {
      forall i | 0 <= i < |tests|
        ensures a[i] == b[i]
      {
        assert !TellsApart(grid, tests[i], m, n);
      }
      assert a == b;
    }
  }

  /** Whatever redundant test tells the two mutants apart, some kept test does so too. */
  ghost predicate StaysTold(grid: Grid, tests: seq<string>, mutants: seq<string>, m: string, n: string) {
    forall t | t in tests && Redundant(grid, tests, mutants, t) && TellsApart(grid, t, m, n) ::
      exists k :: k in tests && !Redundant(grid, tests, mutants, k) && TellsApart(grid, k, m, n)
  }

  /** Dropping the redundant tests changes nothing about a pair of mutants exactly when it stays told apart. */
  lemma PairKeptIff(grid: Grid, tests: seq<string>, mutants: seq<string>, m: string, n: string)
    ensures var kept := Kept(grid, tests, mutants);
      (SignatureOf(grid, kept, m) == SignatureOf(grid, kept, n)
       <==> SignatureOf(grid, tests, m) == SignatureOf(grid, tests, n))
      <==> StaysTold(grid, tests, mutants, m, n)
  {
    var kept := Kept(grid, tests, mutants);
    SameSignatureIff(grid, tests, m, n);
    SameSignatureIff(grid, kept, m, n);
    forall t
      ensures t in kept <==> t in tests && !Redundant(grid, tests, mutants, t)
    {
      KeptHas(grid, tests, mutants, tests, t);
    }
  }

  /** The first item of every key. */
  function Leaders<K(==)>(items: seq<string>, key: string -> K): seq<string> {
    if items == [] then []
    else
      var n := |items| - 1;
      Leaders(items[..n], key) + if exists m :: m in items[..n] && key(m) == key(items[n]) then [] else [items[n]]
  }

  function Groups<K(==)>(items: seq<string>, key: string -> K): seq<seq<string>> {
    var leaders := Leaders(items, key);
    seq(|leaders|, i requires 0 <= i < |leaders| => Members(items, key, key(leaders[i])))
  }

  lemma KeyAmong<K>(items: seq<string>, key: string -> K, k: K)
    ensures k in KeysOf(items, key) <==> exists m :: m in items && key(m) == k
  {
    if exists m :: m in items && key(m) == k {
      var m :| m in items && key(m) == k;
      var i :| 0 <= i < |items| && items[i] == m;
      assert KeysOf(items, key)[i] == k;
    }
  }

  lemma {:induction false} LeadersKeys<K(!new)>(items: seq<string>, key: string -> K)
    ensures Distinct(KeysOf(items, key)) == KeysOf(Leaders(items, key), key)
  {
    if items != [] {
      var n := |items| - 1;
      var front, m := items[..n], items[n];
      assert items == front + [m];
      LeadersKeys(front, key);
      OneMoreKey(front, key, m);
      KeyAmong(front, key, key(m));
      if key(m) in KeysOf(front, key) {
        assert Leaders(items, key) == Leaders(front, key);
      } else {
        assert Leaders(items, key) == Leaders(front, key) + [m];
        assert KeysOf(Leaders(front, key) + [m], key) == KeysOf(Leaders(front, key), key) + [key(m)];
      }
    } else {
      assert Distinct(KeysOf(items, key)) == [] == KeysOf(Leaders(items, key), key);
    }
  }

  /** Two keys that agree on which items are alike. */
  ghost predicate SameKernel<K, L>(items: seq<string>, key: string -> K, other: string -> L) {
    forall m, n | m in items && n in items :: key(m) == key(n) <==> other(m) == other(n)
  }

  lemma {:induction false} SameLeaders<K, L>(items: seq<string>, key: string -> K, other: string -> L)
    requires SameKernel(items, key, other)
    ensures Leaders(items, key) == Leaders(items, other)
    ensures forall m | m in Leaders(items, key) :: m in items
  {
    if items != [] {
      var n := |items| - 1;
      assert items == items[..n] + [items[n]];
      SameLeaders(items[..n], key, other);
    }
  }

  lemma {:induction false} SameMembers<K, L>(all: seq<string>, items: seq<string>, key: string -> K, other: string -> L,
      leader: string)
    requires SameKernel(all, key, other) && leader in all && forall m | m in items :: m in all
    ensures Members(items, key, key(leader)) == Members(items, other, other(leader))
  {
    if items != [] {
      var n := |items| - 1;
      assert items == items[..n] + [items[n]];
      SameMembers(all, items[..n], key, other, leader);
    }
  }

  /** Which mutants stand together, without the signatures. */
  function Sharing(clusters: seq<Cluster>): seq<seq<string>> {
    seq(|clusters|, i requires 0 <= i < |clusters| => clusters[i].mutants)
  }

  lemma SharingIsGroups(grid: Grid, tests: seq<string>, mutants: seq<string>)
    ensures Sharing(Clusters(grid, tests, mutants)) == Groups(mutants, ByTests(grid, tests))
  {
    LeadersKeys(mutants, ByTests(grid, tests));
  }

  lemma SameKernelSameSharing(grid: Grid, tests: seq<string>, kept: seq<string>, mutants: seq<string>)
    requires SameKernel(mutants, ByTests(grid, tests), ByTests(grid, kept))
    ensures Sharing(Clusters(grid, kept, mutants)) == Sharing(Clusters(grid, tests, mutants))
  {
    var key, other := ByTests(grid, tests), ByTests(grid, kept);
    SharingIsGroups(grid, tests, mutants);
    SharingIsGroups(grid, kept, mutants);
    SameLeaders(mutants, key, other);
    var leaders := Leaders(mutants, key);
    forall i | 0 <= i < |leaders|
      ensures Members(mutants, key, key(leaders[i])) == Members(mutants, other, other(leaders[i]))
    {
      assert leaders[i] in leaders;
      SameMembers(mutants, mutants, key, other, leaders[i]);
    }
  }

  /** Two mutants of one cluster under some tests, and of the same cluster under others. */
  lemma SharingTells(grid: Grid, tests: seq<string>, kept: seq<string>, mutants: seq<string>, m: string, n: string)
    requires Sharing(Clusters(grid, kept, mutants)) == Sharing(Clusters(grid, tests, mutants))
    requires m in mutants && n in mutants && SignatureOf(grid, tests, m) == SignatureOf(grid, tests, n)
    ensures SignatureOf(grid, kept, m) == SignatureOf(grid, kept, n)
  {
    var clusters, others := Clusters(grid, tests, mutants), Clusters(grid, kept, mutants);
    ClustersPartition(grid, tests, mutants, m);
    var k :| 0 <= k < |clusters| && m in clusters[k].mutants;
    assert Sharing(clusters)[k] == Sharing(others)[k];
    ClusterIsClass(grid, tests, mutants, k, m);
    ClusterIsClass(grid, tests, mutants, k, n);
    ClusterIsClass(grid, kept, mutants, k, m);
    ClusterIsClass(grid, kept, mutants, k, n);
  }

  /** The kept tests cluster the mutants as all tests do exactly when every pair that is told apart stays told apart. */
  lemma ClustersKeptIff(grid: Grid, tests: seq<string>, mutants: seq<string>)
    ensures Sharing(Clusters(grid, Kept(grid, tests, mutants), mutants)) == Sharing(Clusters(grid, tests, mutants))
            <==> forall m, n | m in mutants && n in mutants :: StaysTold(grid, tests, mutants, m, n)
  {
    var kept := Kept(grid, tests, mutants);
    forall m, n | m in mutants && n in mutants
      ensures (ByTests(grid, kept)(m) == ByTests(grid, kept)(n) <==> ByTests(grid, tests)(m) == ByTests(grid, tests)(n))
              <==> StaysTold(grid, tests, mutants, m, n)
    {
      PairKeptIff(grid, tests, mutants, m, n);
    }
    if forall m, n | m in mutants && n in mutants :: StaysTold(grid, tests, mutants, m, n) {
      SameKernelSameSharing(grid, tests, kept, mutants);
    }
    if Sharing(Clusters(grid, kept, mutants)) == Sharing(Clusters(grid, tests, mutants)) {
      forall m, n | m in mutants && n in mutants
        ensures StaysTold(grid, tests, mutants, m, n)
      {
        if SignatureOf(grid, tests, m) == SignatureOf(grid, tests, n) {
          SharingTells(grid, tests, kept, mutants, m, n);
        }
        if SignatureOf(grid, kept, m) == SignatureOf(grid, kept, n) {
          SharingTells(grid, kept, tests, mutants, m, n);
        }
      }
    }
  }

  /** They do not always: mutants told apart only by a redundant test become equal. */
  lemma DroppingRedundantCanMerge()
    ensures var grid: Grid := map["both" := map["a" := false, "b" := false], "one" := map["a" := false]];
      var tests, mutants := ["both", "one"], ["a", "b"];
      && Redundant(grid, tests, mutants, "one") && !Redundant(grid, tests, mutants, "both")
      && SignatureOf(grid, tests, "a") != SignatureOf(grid, tests, "b")
      && SignatureOf(grid, ["both"], "a") == SignatureOf(grid, ["both"], "b")
  {
    var grid: Grid := map["both" := map["a" := false, "b" := false], "one" := map["a" := false]];
    var tests, mutants := ["both", "one"], ["a", "b"];
    assert KilledBy(grid, mutants, "both") == {"a", "b"};
    assert KilledBy(grid, mutants, "one") == {"a"};
    assert "both" in tests && "b" !in KilledBy(grid, mutants, "one");
    assert Subsumes(grid, mutants, "both", "one");
    assert SignatureOf(grid, tests, "a")[1] != SignatureOf(grid, tests, "b")[1];
    assert SignatureOf(grid, ["both"], "a") == [false] == SignatureOf(grid, ["both"], "b");
  }
}
