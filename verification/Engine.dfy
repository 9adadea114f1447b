/**
  src/coursefuzz/domain/engine.py: measuring a suite, verifying hypotheses in two batched execution
  waves, and turning one verified hypothesis into a candidate regression test.
*/
module Engine {
  import opened Domain
  import opened Wrappers
  import opened RestrictedLanguage
  import opened Oracle
  import opened Selection
  import opened Sandbox

  datatype Candidate = Candidate(test: TestCase, observed: Atom, targets: seq<string>)

  datatype Analysis = Analysis(
    before: Metrics, projectedAfter: Metrics, survivorsBefore: seq<string>,
    verdicts: seq<Verdict>, candidate: Option<Candidate>)

  datatype EngineError = DeadlineExceeded | LostOracleEvidence

  ghost predicate UniqueIds(ps: seq<ProgramVariant>) {
    forall i, j :: 0 <= i < j < |ps| ==> ps[i].id != ps[j].id
  }

  /** What assignment ingestion guarantees (src/coursefuzz/services/assignment_service.py:98-153). */
  ghost predicate WellFormed(a: Assignment) {
    && UniqueIds(a.accepted) && UniqueIds(a.mutants)
    && |a.accepted| >= 1 && a.reference in a.accepted && |a.inputNames| >= 1
  }

  // ---------------------------------------------------------------- measuring

  ghost predicate PassesAll(p: ProgramVariant, tests: seq<TestCase>) {
    forall t | t in tests :: Passes(p.code, t)
  }

  /** The programs whose execution was not lost and that meet a criterion. */
  ghost function Kept(ps: seq<ProgramVariant>, ok: ProgramVariant -> bool, lost: nat -> bool,
      from: nat): (r: seq<ProgramVariant>)
    ensures |r| <= |ps|
  {
    if ps == [] then []
    else
      var n := |ps| - 1;
      Kept(ps[..n], ok, lost, from) + if !lost(from + n) && ok(ps[n]) then [ps[n]] else []
  }

  ghost function Passing(tests: seq<TestCase>): ProgramVariant -> bool {
    (p: ProgramVariant) => PassesAll(p, tests)
  }

  /** The programs whose execution was not lost and passed every test. */
  ghost function Survivors(ps: seq<ProgramVariant>, tests: seq<TestCase>, lost: nat -> bool,
      from: nat): (r: seq<ProgramVariant>)
    ensures |r| <= |ps|
  {
    Kept(ps, Passing(tests), lost, from)
  }

  lemma KeptNext(ps: seq<ProgramVariant>, ok: ProgramVariant -> bool, lost: nat -> bool, from: nat, i: nat)
    requires i < |ps|
    ensures Kept(ps[..i + 1], ok, lost, from)
         == Kept(ps[..i], ok, lost, from) + if !lost(from + i) && ok(ps[i]) then [ps[i]] else []
  {
    assert ps[..i + 1][..i] == ps[..i];
  }

  lemma {:induction false} KeptMembers(ps: seq<ProgramVariant>, ok: ProgramVariant -> bool, lost: nat -> bool,
      from: nat)
    ensures forall p | p in Kept(ps, ok, lost, from) :: p in ps && ok(p)
    ensures NoneLost(lost, from, |ps|) ==> forall p :: p in Kept(ps, ok, lost, from) <==> p in ps && ok(p)
  {
    if ps != [] {
      var n := |ps| - 1;
      KeptMembers(ps[..n], ok, lost, from);
      assert ps == ps[..n] + [ps[n]];
    }
  }

  lemma SurvivorsMembers(ps: seq<ProgramVariant>, tests: seq<TestCase>, lost: nat -> bool, from: nat)
    ensures forall p | p in Survivors(ps, tests, lost, from) :: p in ps && PassesAll(p, tests)
    ensures NoneLost(lost, from, |ps|) ==>
            forall p :: p in Survivors(ps, tests, lost, from) <==> p in ps && PassesAll(p, tests)
  {
    KeptMembers(ps, Passing(tests), lost, from);
  }

  /** Marks the programs for which the meaning of a criterion is needed. */
  predicate Asked(p: ProgramVariant) { |p.id| >= 0 }

  ghost predicate Tells(ok: ProgramVariant -> bool, tests: seq<TestCase>) {
    forall p: ProgramVariant {:trigger Asked(p)} :: Asked(p) ==> (ok(p) <==> PassesAll(p, tests))
  }

  lemma PassingTells(tests: seq<TestCase>)
    ensures Tells(Passing(tests), tests)
  {
  }

  ghost predicate IsMeasurement(a: Assignment, tests: seq<TestCase>, lost: nat -> bool, from: nat, m: Metrics) {
    && m.total == |a.mutants|
    && m.surviving == |Survivors(a.mutants, tests, lost, from)|
    && m.killed == m.total - m.surviving
    && m.acceptedPassed == |Survivors(a.accepted, tests, lost, from + |a.mutants|)|
  }

  /** The number of executions one measurement takes. */
  function MeasureSize(a: Assignment): nat {
    |a.mutants| + |a.accepted|
  }

  ghost predicate NoneLost(lost: nat -> bool, from: nat, count: nat) {
    forall i :: from <= i < from + count ==> !lost(i)
  }

  // ---------------------------------------------------------------- one hypothesis at a time

  function Objection(a: Assignment, h: Hypothesis): Option<Reason> {
    if |h.inputs| != |a.inputNames| then Some(WrongArity)
    else if exists x | x in h.inputs :: x < a.domainMin || x > a.domainMax then Some(OutsideDomain)
    else None
  }

  /** The survivors that visibly differ from the expected value, in order. */
  function KilledBy(ps: seq<ProgramVariant>, shown: Column, expected: Atom): seq<string> {
    if ps == [] then []
    else
      var n := |ps| - 1;
      KilledBy(ps[..n], shown, expected) + if Differs(ps[n], shown, expected) then [ps[n].id] else []
  }

  predicate Differs(p: ProgramVariant, shown: Column, expected: Atom) {
    Probe(shown, p).Some? && !PyEq(Probe(shown, p).value, expected)
  }

  function FirstDifferent(ps: seq<ProgramVariant>, shown: Column, expected: Atom): Value {
    if ps == [] then None
    else
      var n := |ps| - 1;
      var earlier := FirstDifferent(ps[..n], shown, expected);
      if earlier.Some? then earlier else if Differs(ps[n], shown, expected) then Probe(shown, ps[n]) else None
  }

  function VerdictOf(a: Assignment, survivors: seq<ProgramVariant>, h: Hypothesis, controls: Column,
      shown: Column): Verdict {
    if Objection(a, h).Some? then Verdict(h, false, Objection(a, h).value, None, None, [])
    else
      var d := Decide(a, h.inputs, controls);
      if !d.resolved || d.expected.None? then Verdict(h, false, OracleAbstained, None, None, [])
      else
        var killed := KilledBy(survivors, shown, d.expected.value);
        if killed == [] then Verdict(h, false, NoDivergence, d.expected, None, [])
        else Verdict(h, true, Divergence, d.expected, FirstDifferent(survivors, shown, d.expected.value), killed)
  }

  /** What a batch of executions shows for one input: a lost program shows None. */
  ghost function Observed(ps: seq<ProgramVariant>, lost: nat -> bool, from: nat, inputs: seq<int>): Column {
    if ps == [] then map[]
    else
      var n := |ps| - 1;
      Observed(ps[..n], lost, from, inputs)[ps[n].id := if lost(from + n) then None else Actual(ps[n].code, inputs)]
  }

  /** Executing each program on its own, with nothing lost. */
  ghost function Honest(ps: seq<ProgramVariant>, inputs: seq<int>): Column {
    Observed(ps, n => false, 0, inputs)
  }

  lemma {:induction false} ObservedProbe(ps: seq<ProgramVariant>, lost: nat -> bool, from: nat, inputs: seq<int>,
      i: nat)
    requires UniqueIds(ps) && i < |ps|
    ensures Probe(Observed(ps, lost, from, inputs), ps[i]) ==
            if lost(from + i) then None else Actual(ps[i].code, inputs)
  {
    var n := |ps| - 1;
    if i < n {
      ObservedProbe(ps[..n], lost, from, inputs, i);
      assert ps[i].id != ps[n].id;
    }
  }

  lemma {:induction false} ObservedHonest(ps: seq<ProgramVariant>, lost: nat -> bool, from: nat, inputs: seq<int>)
    requires NoneLost(lost, from, |ps|)
    ensures Observed(ps, lost, from, inputs) == Honest(ps, inputs)
  {
    if ps != [] { ObservedHonest(ps[..|ps| - 1], lost, from, inputs); }
  }

  /** A value that is shown is a value some program with that id really returns. */
  lemma {:induction false} ObservedIsReal(ps: seq<ProgramVariant>, lost: nat -> bool, from: nat, inputs: seq<int>,
      id: string)
    requires id in Observed(ps, lost, from, inputs) && Observed(ps, lost, from, inputs)[id].Some?
    ensures exists p | p in ps :: p.id == id && Actual(p.code, inputs) == Observed(ps, lost, from, inputs)[id]
  {
    var n := |ps| - 1;
    if ps[n].id == id {
      assert ps[n] in ps;
    } else {
      ObservedIsReal(ps[..n], lost, from, inputs, id);
    }
  }

  lemma {:induction false} KilledHas(ps: seq<ProgramVariant>, shown: Column, expected: Atom, id: string)
    ensures id in KilledBy(ps, shown, expected) <==> exists p | p in ps :: p.id == id && Differs(p, shown, expected)
  {
    if ps != [] {
      var n := |ps| - 1;
      KilledHas(ps[..n], shown, expected, id);
      assert ps == ps[..n] + [ps[n]];
    }
  }

  /** Something is killed exactly when some program differs, and then the first value that differs is remembered. */
  lemma {:induction false} SomeKilledIff(ps: seq<ProgramVariant>, shown: Column, expected: Atom)
    ensures KilledBy(ps, shown, expected) != [] <==> exists p | p in ps :: Differs(p, shown, expected)
    ensures KilledBy(ps, shown, expected) != [] <==> FirstDifferent(ps, shown, expected).Some?
  {
    if ps != [] {
      var n := |ps| - 1;
      SomeKilledIff(ps[..n], shown, expected);
      assert ps == ps[..n] + [ps[n]];
    }
  }

  lemma {:induction false} FirstDifferentIsShown(ps: seq<ProgramVariant>, shown: Column, expected: Atom)
    requires FirstDifferent(ps, shown, expected).Some?
    ensures exists p | p in ps :: Differs(p, shown, expected) && Probe(shown, p) == FirstDifferent(ps, shown, expected)
  {
    var n := |ps| - 1;
    assert ps == ps[..n] + [ps[n]];
    if FirstDifferent(ps[..n], shown, expected).Some? {
      FirstDifferentIsShown(ps[..n], shown, expected);
    }
  }

  lemma KilledMembers(ps: seq<ProgramVariant>, shown: Column, expected: Atom)
    ensures forall id :: id in KilledBy(ps, shown, expected) <==>
              exists p | p in ps :: p.id == id && Differs(p, shown, expected)
    ensures KilledBy(ps, shown, expected) != [] <==> exists p | p in ps :: Differs(p, shown, expected)
    ensures KilledBy(ps, shown, expected) != [] <==> FirstDifferent(ps, shown, expected).Some?
    ensures FirstDifferent(ps, shown, expected).Some? ==>
              exists p | p in ps :: Differs(p, shown, expected) && Probe(shown, p) == FirstDifferent(ps, shown, expected)
  {
    forall id ensures id in KilledBy(ps, shown, expected) <==>
        exists p | p in ps :: p.id == id && Differs(p, shown, expected) {
      KilledHas(ps, shown, expected, id);
    }
    SomeKilledIff(ps, shown, expected);
    if FirstDifferent(ps, shown, expected).Some? { FirstDifferentIsShown(ps, shown, expected); }
  }

  // ---------------------------------------------------------------- what a verified verdict means

  ghost predicate AcceptedShow(a: Assignment, inputs: seq<int>, v: Atom) {
    forall p | p in a.accepted :: Actual(p.code, inputs).Some? && PyEq(Actual(p.code, inputs).value, v)
  }

  ghost predicate ReallyDiffers(p: ProgramVariant, inputs: seq<int>, v: Atom) {
    Actual(p.code, inputs).Some? && !PyEq(Actual(p.code, inputs).value, v)
  }

  ghost predicate InDomain(a: Assignment, inputs: seq<int>) {
    |inputs| == |a.inputNames| && forall x | x in inputs :: a.domainMin <= x <= a.domainMax
  }

  /** The facts a "verified" verdict claims about the real programs. */
  ghost predicate TrueVerdict(a: Assignment, survivors: seq<ProgramVariant>, v: Verdict) {
    && InDomain(a, v.hypothesis.inputs)
    && v.expected.Some? && AcceptedShow(a, v.hypothesis.inputs, v.expected.value)
    && v.killed != []
    && (forall id | id in v.killed ::
          exists p | p in survivors :: p.id == id && ReallyDiffers(p, v.hypothesis.inputs, v.expected.value))
    && v.actual.Some?
    && (exists i :: FirstKilled(survivors, v.killed, i) && Actual(survivors[i].code, v.hypothesis.inputs) == v.actual)
    && !PyEq(v.actual.value, v.expected.value)
  }

  /** The survivor at `i` is the first one that is killed. */
  ghost predicate FirstKilled(survivors: seq<ProgramVariant>, killed: seq<string>, i: int) {
    0 <= i < |survivors| && survivors[i].id in killed && forall j | 0 <= j < i :: survivors[j].id !in killed
  }

  /** What a verified verdict says of the columns it was reached from. */
  lemma VerdictParts(a: Assignment, survivors: seq<ProgramVariant>, h: Hypothesis, controls: Column, shown: Column,
      v: Verdict)
    requires v == VerdictOf(a, survivors, h, controls, shown) && v.verified
    ensures v.hypothesis == h && InDomain(a, h.inputs)
    ensures v.expected.Some? && Decide(a, h.inputs, controls).expected == v.expected
    ensures v.killed == KilledBy(survivors, shown, v.expected.value) && v.killed != []
    ensures v.actual == FirstDifferent(survivors, shown, v.expected.value)
  {
  }

  lemma WaveVerdictParts(a: Assignment, survivors: seq<ProgramVariant>, h: Hypothesis, v: Verdict,
      lost: nat -> bool, from: nat) returns (controls: Column, shown: Column)
    requires v == WaveVerdict(a, survivors, h, lost, from) && v.verified
    ensures controls == Observed(a.accepted, lost, from, h.inputs)
    ensures shown == Observed(survivors, lost, from + |a.accepted|, h.inputs)
    ensures v.hypothesis == h && InDomain(a, h.inputs)
    ensures v.expected.Some? && Decide(a, h.inputs, controls).expected == v.expected
    ensures v.killed == KilledBy(survivors, shown, v.expected.value) && v.killed != []
    ensures v.actual == FirstDifferent(survivors, shown, v.expected.value)
  {
    controls := Observed(a.accepted, lost, from, h.inputs);
    shown := Observed(survivors, lost, from + |a.accepted|, h.inputs);
    VerdictParts(a, survivors, h, controls, shown, v);
  }

  /** A value the oracle decides on is the one every accepted program really shows. */
  lemma DecidedIsShown(a: Assignment, inputs: seq<int>, e: Atom, lost: nat -> bool, from: nat)
    requires UniqueIds(a.accepted) && a.reference in a.accepted
    requires Decide(a, inputs, Observed(a.accepted, lost, from, inputs)).expected == Some(e)
    ensures AcceptedShow(a, inputs, e)
  {
    var controls := Observed(a.accepted, lost, from, inputs);
    DecideIffUnanimous(a, inputs, controls);
    assert Unanimous(a, inputs, controls, e);
    forall p | p in a.accepted ensures Actual(p.code, inputs).Some? && PyEq(Actual(p.code, inputs).value, e) {
      var i :| 0 <= i < |a.accepted| && a.accepted[i] == p;
      ObservedProbe(a.accepted, lost, from, inputs, i);
    }
  }

  /** A survivor that visibly differs really does. */
  lemma DifferenceIsReal(survivors: seq<ProgramVariant>, inputs: seq<int>, e: Atom, lost: nat -> bool, from: nat,
      p: ProgramVariant)
    requires UniqueIds(survivors) && p in survivors && Differs(p, Observed(survivors, lost, from, inputs), e)
    ensures ReallyDiffers(p, inputs, e) && Probe(Observed(survivors, lost, from, inputs), p) == Actual(p.code, inputs)
  {
    var i :| 0 <= i < |survivors| && survivors[i] == p;
    ObservedProbe(survivors, lost, from, inputs, i);
  }

  /** The programs a verdict kills are survivors that really differ, and its shown value is one of theirs. */
  lemma KillsAreReal(survivors: seq<ProgramVariant>, inputs: seq<int>, e: Atom, killed: seq<string>, actual: Value,
      lost: nat -> bool, from: nat)
    requires UniqueIds(survivors) && killed != []
    requires killed == KilledBy(survivors, Observed(survivors, lost, from, inputs), e)
    requires actual == FirstDifferent(survivors, Observed(survivors, lost, from, inputs), e)
    ensures forall id | id in killed :: exists p | p in survivors :: p.id == id && ReallyDiffers(p, inputs, e)
    ensures actual.Some? && !PyEq(actual.value, e)
    ensures exists i :: FirstKilled(survivors, killed, i) && Actual(survivors[i].code, inputs) == actual
  {
    var shown := Observed(survivors, lost, from, inputs);
    KilledMembers(survivors, shown, e);
    forall id | id in killed ensures exists p | p in survivors :: p.id == id && ReallyDiffers(p, inputs, e) {
      var p :| p in survivors && p.id == id && Differs(p, shown, e);
      DifferenceIsReal(survivors, inputs, e, lost, from, p);
    }
    var i := FirstDifferentAt(survivors, shown, e);
    DifferenceIsReal(survivors, inputs, e, lost, from, survivors[i]);
    FirstDifferentIsFirstKilled(survivors, shown, e, killed, i);
  }

  lemma {:induction false} FirstDifferentAt(ps: seq<ProgramVariant>, shown: Column, expected: Atom) returns (i: int)
    requires FirstDifferent(ps, shown, expected).Some?
    ensures 0 <= i < |ps| && Differs(ps[i], shown, expected) && Probe(shown, ps[i]) == FirstDifferent(ps, shown, expected)
    ensures forall j | 0 <= j < i :: !Differs(ps[j], shown, expected)
  {
    var n := |ps| - 1;
    if FirstDifferent(ps[..n], shown, expected).Some? {
      i := FirstDifferentAt(ps[..n], shown, expected);
    } else {
      i := n;
      forall j | 0 <= j < n ensures !Differs(ps[j], shown, expected) {
        SomeKilledIff(ps[..n], shown, expected);
        assert ps[..n][j] in ps[..n];
      }
    }
  }

  lemma FirstDifferentIsFirstKilled(ps: seq<ProgramVariant>, shown: Column, expected: Atom, killed: seq<string>, i: int)
    requires UniqueIds(ps) && killed == KilledBy(ps, shown, expected)
    requires 0 <= i < |ps| && Differs(ps[i], shown, expected) && forall j | 0 <= j < i :: !Differs(ps[j], shown, expected)
    ensures FirstKilled(ps, killed, i)
  {
    KilledHas(ps, shown, expected, ps[i].id);
    forall j | 0 <= j < i ensures ps[j].id !in killed {
      KilledHas(ps, shown, expected, ps[j].id);
      UniqueById(ps, ps[j]);
    }
  }

  /** Whatever executions are lost, a verified verdict is true of the programs themselves. */
  lemma VerifiedIsTrue(a: Assignment, survivors: seq<ProgramVariant>, v: Verdict, h: Hypothesis,
      lost: nat -> bool, from: nat)
    requires UniqueIds(a.accepted) && a.reference in a.accepted && UniqueIds(survivors)
    requires v == WaveVerdict(a, survivors, h, lost, from) && v.verified
    ensures v.hypothesis == h && |h.inputs| == |a.inputNames| && TrueVerdict(a, survivors, v)
    ensures v.expected.Some? &&
            v.killed == KilledBy(survivors, Observed(survivors, lost, from + |a.accepted|, h.inputs), v.expected.value)
  {
    var controls, shown := WaveVerdictParts(a, survivors, h, v, lost, from);
    DecidedIsShown(a, h.inputs, v.expected.value, lost, from);
    PartsAreTrue(a, survivors, v, lost, from);
  }

  lemma TrueFromParts(a: Assignment, survivors: seq<ProgramVariant>, v: Verdict, e: Atom)
    requires InDomain(a, v.hypothesis.inputs) && v.expected == Some(e) && v.killed != []
    requires AcceptedShow(a, v.hypothesis.inputs, e)
    requires forall id | id in v.killed ::
               exists p | p in survivors :: p.id == id && ReallyDiffers(p, v.hypothesis.inputs, e)
    requires v.actual.Some?
    requires !PyEq(v.actual.value, e)
    requires exists i :: FirstKilled(survivors, v.killed, i) && Actual(survivors[i].code, v.hypothesis.inputs) == v.actual
    ensures TrueVerdict(a, survivors, v)
  {
  }

  lemma PartsAreTrue(a: Assignment, survivors: seq<ProgramVariant>, v: Verdict, lost: nat -> bool, from: nat)
    requires UniqueIds(survivors)
    requires InDomain(a, v.hypothesis.inputs) && v.expected.Some? && v.killed != []
    requires AcceptedShow(a, v.hypothesis.inputs, v.expected.value)
    requires var shown := Observed(survivors, lost, from + |a.accepted|, v.hypothesis.inputs);
      v.killed == KilledBy(survivors, shown, v.expected.value) && v.actual == FirstDifferent(survivors, shown, v.expected.value)
    ensures TrueVerdict(a, survivors, v)
  {
    KillsAreReal(survivors, v.hypothesis.inputs, v.expected.value, v.killed, v.actual, lost, from + |a.accepted|);
    TrueFromParts(a, survivors, v, v.expected.value);
  }

  /** The one-at-a-time specification in terms of the programs alone. */
  lemma HonestVerdictIff(a: Assignment, survivors: seq<ProgramVariant>, h: Hypothesis)
    requires UniqueIds(a.accepted) && a.reference in a.accepted && UniqueIds(survivors)
    ensures HonestVerdict(a, survivors, h).verified <==>
              && InDomain(a, h.inputs)
              && Actual(a.reference.code, h.inputs).Some?
              && (var e := Actual(a.reference.code, h.inputs).value;
                  && AcceptedShow(a, h.inputs, e)
                  && FixtureAgrees(a.instructorTests, h.inputs, e)
                  && exists p | p in survivors :: ReallyDiffers(p, h.inputs, e))
  {
    var controls, shown := Honest(a.accepted, h.inputs), Honest(survivors, h.inputs);
    DecideIffUnanimous(a, h.inputs, controls);
    HonestProbe(a.accepted, h.inputs);
    HonestProbe(survivors, h.inputs);
    var r := Actual(a.reference.code, h.inputs);
    assert Objection(a, h).None? <==> InDomain(a, h.inputs);
    if r.Some? {
      HonestUnanimous(a, h.inputs, r.value);
      KilledMembers(survivors, shown, r.value);
      assert forall p | p in survivors :: Differs(p, shown, r.value) <==> ReallyDiffers(p, h.inputs, r.value);
    }
  }

  /** Judged alone and verified, a hypothesis kills exactly the survivors that really differ. */
  lemma HonestKills(a: Assignment, survivors: seq<ProgramVariant>, h: Hypothesis, id: string)
    requires UniqueIds(a.accepted) && a.reference in a.accepted && UniqueIds(survivors)
    requires HonestVerdict(a, survivors, h).verified
    ensures HonestVerdict(a, survivors, h).expected == Actual(a.reference.code, h.inputs) != None
    ensures id in HonestVerdict(a, survivors, h).killed <==>
            exists p | p in survivors :: p.id == id && ReallyDiffers(p, h.inputs, Actual(a.reference.code, h.inputs).value)
  {
    var controls, shown := Honest(a.accepted, h.inputs), Honest(survivors, h.inputs);
    var v := HonestVerdict(a, survivors, h);
    VerdictParts(a, survivors, h, controls, shown, v);
    DecideIffUnanimous(a, h.inputs, controls);
    assert Unanimous(a, h.inputs, controls, v.expected.value);
    HonestProbe(a.accepted, h.inputs);
    HonestProbe(survivors, h.inputs);
    KilledHas(survivors, shown, v.expected.value, id);
    assert forall p | p in survivors :: Differs(p, shown, v.expected.value) <==> ReallyDiffers(p, h.inputs, v.expected.value);
  }

  lemma HonestUnanimous(a: Assignment, inputs: seq<int>, e: Atom)
    requires UniqueIds(a.accepted) && a.reference in a.accepted
    requires Actual(a.reference.code, inputs) == Some(e)
    ensures Unanimous(a, inputs, Honest(a.accepted, inputs), e) <==>
            AcceptedShow(a, inputs, e) && FixtureAgrees(a.instructorTests, inputs, e)
  {
    HonestProbe(a.accepted, inputs);
    UniqueById(a.accepted, a.reference);
  }

  lemma UniqueById(ps: seq<ProgramVariant>, r: ProgramVariant)
    requires UniqueIds(ps) && r in ps
    ensures forall p | p in ps && p.id == r.id :: p == r
  {
    forall p | p in ps && p.id == r.id ensures p == r {
      var i, j :| 0 <= i < |ps| && 0 <= j < |ps| && ps[i] == p && ps[j] == r;
    }
  }

  lemma HonestProbe(ps: seq<ProgramVariant>, inputs: seq<int>)
    requires UniqueIds(ps)
    ensures forall p | p in ps :: Probe(Honest(ps, inputs), p) == Actual(p.code, inputs)
  {
    forall p | p in ps ensures Probe(Honest(ps, inputs), p) == Actual(p.code, inputs) {
      var i :| 0 <= i < |ps| && ps[i] == p;
      ObservedProbe(ps, n => false, 0, inputs, i);
    }
  }

  // ---------------------------------------------------------------- what the new test does to the suite

  ghost function Hardened(a: Assignment, c: Candidate): seq<TestCase> {
    a.instructorTests + [c.test]
  }

  /** With nothing lost, the hardened suite keeps exactly the survivors that agree on the new test. */
  lemma {:induction false} HardenedSurvivors(ps: seq<ProgramVariant>, tests: seq<TestCase>, t: TestCase,
      lost: nat -> bool, from: nat, lost': nat -> bool, from': nat)
    requires NoneLost(lost, from, |ps|) && NoneLost(lost', from', |ps|)
    ensures forall p :: p in Survivors(ps, tests + [t], lost', from') <==>
              p in Survivors(ps, tests, lost, from) && Passes(p.code, t)
  {
    SurvivorsMembers(ps, tests, lost, from);
    SurvivorsMembers(ps, tests + [t], lost', from');
  }

  lemma {:induction false} KillsLeave(ps: seq<ProgramVariant>, ok: ProgramVariant -> bool, ok': ProgramVariant -> bool,
      shown: Column, expected: Atom, lost: nat -> bool, from: nat, lost': nat -> bool, from': nat)
    requires NoneLost(lost, from, |ps|) && NoneLost(lost', from', |ps|)
    requires forall p | p in ps && ok'(p) :: ok(p) && !Differs(p, shown, expected)
    ensures |Kept(ps, ok', lost', from')| + |KilledBy(Kept(ps, ok, lost, from), shown, expected)| <= |Kept(ps, ok, lost, from)|
  {
    if ps != [] {
      var n := |ps| - 1;
      var x := ps[n];
      KillsLeave(ps[..n], ok, ok', shown, expected, lost, from, lost', from');
      assert x in ps && ps[..n + 1] == ps && !lost(from + n) && !lost'(from' + n);
      KeptNext(ps, ok, lost, from, n);
      KeptNext(ps, ok', lost', from', n);
      var before := Kept(ps[..n], ok, lost, from);
      if ok(x) {
        assert Kept(ps, ok, lost, from) == before + [x];
        KilledSnoc(before, x, shown, expected);
      } else {
        assert Kept(ps, ok, lost, from) == before;
        assert !ok'(x);
      }
    }
  }

  /** Every program the verdict kills leaves the count of survivors, and no program joins it. */
  lemma KillsLeaveTheCount(ps: seq<ProgramVariant>, tests: seq<TestCase>, t: TestCase, shown: Column,
      lost: nat -> bool, from: nat, lost': nat -> bool, from': nat)
    requires NoneLost(lost, from, |ps|) && NoneLost(lost', from', |ps|) && t.expected.Some?
    requires forall p | p in ps && Differs(p, shown, t.expected.value) :: ReallyDiffers(p, t.inputs, t.expected.value)
    ensures |Survivors(ps, tests + [t], lost', from')| + |KilledBy(Survivors(ps, tests, lost, from), shown, t.expected.value)|
            <= |Survivors(ps, tests, lost, from)|
  {
    forall p | p in ps && PassesAll(p, tests + [t])
      ensures PassesAll(p, tests) && !Differs(p, shown, t.expected.value)
    {
      OneProgramsFate(p, tests, t, shown);
    }
    KillsLeave(ps, Passing(tests), Passing(tests + [t]), shown, t.expected.value, lost, from, lost', from');
  }

  /** A program that passes the longer suite passed the shorter one and does not differ. */
  lemma OneProgramsFate(p: ProgramVariant, tests: seq<TestCase>, t: TestCase, shown: Column)
    requires t.expected.Some? && (Differs(p, shown, t.expected.value) ==> ReallyDiffers(p, t.inputs, t.expected.value))
    ensures PassesAll(p, tests + [t]) ==> PassesAll(p, tests) && !Differs(p, shown, t.expected.value)
  {
    PassesSnoc(p, tests, t);
  }

  lemma PassesSnoc(p: ProgramVariant, tests: seq<TestCase>, t: TestCase)
    ensures PassesAll(p, tests + [t]) <==> PassesAll(p, tests) && Passes(p.code, t)
  {
    assert t in tests + [t];
    assert forall x | x in tests :: x in tests + [t];
  }

  lemma KilledSnoc(ps: seq<ProgramVariant>, p: ProgramVariant, shown: Column, expected: Atom)
    ensures KilledBy(ps + [p], shown, expected) ==
            KilledBy(ps, shown, expected) + if Differs(p, shown, expected) then [p.id] else []
  {
    assert (ps + [p])[..|ps|] == ps;
  }

  lemma {:induction false} SameKept(ps: seq<ProgramVariant>, ok: ProgramVariant -> bool, ok': ProgramVariant -> bool,
      lost: nat -> bool, from: nat, lost': nat -> bool, from': nat)
    requires NoneLost(lost, from, |ps|) && NoneLost(lost', from', |ps|)
    requires forall p | p in ps :: ok(p) <==> ok'(p)
    ensures |Kept(ps, ok, lost, from)| == |Kept(ps, ok', lost', from')|
  {
    if ps != [] {
      var n := |ps| - 1;
      SameKept(ps[..n], ok, ok', lost, from, lost', from');
      assert ps[n] in ps;
    }
  }

  lemma AllSurvive(ps: seq<ProgramVariant>, tests: seq<TestCase>, t: TestCase,
      lost: nat -> bool, from: nat, lost': nat -> bool, from': nat)
    requires NoneLost(lost, from, |ps|) && NoneLost(lost', from', |ps|)
    requires forall p | p in ps :: Passes(p.code, t)
    ensures |Survivors(ps, tests + [t], lost', from')| == |Survivors(ps, tests, lost, from)|
  {
    forall p | p in ps
      ensures PassesAll(p, tests) <==> PassesAll(p, tests + [t])
    {
      PassesSnoc(p, tests, t);
    }
    SameKept(ps, Passing(tests), Passing(tests + [t]), lost, from, lost', from');
  }

  // ---------------------------------------------------------------- the engine

  /** The executable evidence behind a candidate. */
  ghost predicate SoundCandidate(a: Assignment, c: Candidate) {
    && InDomain(a, c.test.inputs)
    && c.test.expected.Some? && AcceptedShow(a, c.test.inputs, c.test.expected.value)
    && c.targets != []
    && (forall id | id in c.targets ::
          exists p | p in a.mutants ::
            p.id == id && PassesAll(p, a.instructorTests) && ReallyDiffers(p, c.test.inputs, c.test.expected.value))
    && (exists p | p in a.mutants :: p.id in c.targets && Actual(p.code, c.test.inputs) == Some(c.observed))
  }

  /** The survivors' and controls' fate once the candidate's test joins the suite. */
  ghost predicate SuiteImproves(a: Assignment, r: Analysis, lost: nat -> bool, from: nat, from': nat)
    requires r.candidate.Some?
  {
    var before := Survivors(a.mutants, a.instructorTests, lost, from);
    var after := Survivors(a.mutants, Hardened(a, r.candidate.value), lost, from');
    && (forall p | p in after :: p in before && p.id !in r.candidate.value.targets)
    && r.before.surviving == |before| && r.projectedAfter.surviving == |after|
    && |after| + |r.candidate.value.targets| <= |before|
    && r.projectedAfter.acceptedPassed == r.before.acceptedPassed
  }

  function ColumnAt(outputs: map<string, map<seq<int>, Value>>, inputs: seq<int>): Column {
    map id | id in outputs :: if inputs in outputs[id] then outputs[id][inputs] else None
  }

  /** Read by columns, the outputs are what the batch of executions shows for each test. */
  ghost predicate Shows(outputs: map<string, map<seq<int>, Value>>, ps: seq<ProgramVariant>, tests: seq<TestCase>,
      lost: nat -> bool, from: nat)
  {
    forall t | t in tests :: ColumnAt(outputs, t.inputs) == Observed(ps, lost, from, t.inputs)
  }

  lemma ColumnNext(outputs: map<string, map<seq<int>, Value>>, id: string, row: map<seq<int>, Value>, inputs: seq<int>)
    ensures ColumnAt(outputs[id := row], inputs)
         == ColumnAt(outputs, inputs)[id := if inputs in row then row[inputs] else None]
  {
  }

  lemma ObservedNext(ps: seq<ProgramVariant>, lost: nat -> bool, from: nat, inputs: seq<int>, i: nat)
    requires i < |ps|
    ensures Observed(ps[..i + 1], lost, from, inputs)
         == Observed(ps[..i], lost, from, inputs)[ps[i].id := if lost(from + i) then None else Actual(ps[i].code, inputs)]
  {
    assert ps[..i + 1][..i] == ps[..i];
  }

  lemma ShowsStep(outputs: map<string, map<seq<int>, Value>>, ps: seq<ProgramVariant>, tests: seq<TestCase>,
      lost: nat -> bool, from: nat, i: nat, row: map<seq<int>, Value>)
    requires i < |ps| && Shows(outputs, ps[..i], tests, lost, from)
    requires forall t | t in tests ::
               (if t.inputs in row then row[t.inputs] else None) == if lost(from + i) then None else Actual(ps[i].code, t.inputs)
    ensures Shows(outputs[ps[i].id := row], ps[..i + 1], tests, lost, from)
  {
    forall t | t in tests
      ensures ColumnAt(outputs[ps[i].id := row], t.inputs) == Observed(ps[..i + 1], lost, from, t.inputs)
    {
      ColumnNext(outputs, ps[i].id, row, t.inputs);
      ObservedNext(ps, lost, from, t.inputs, i);
    }
  }

  /** Another hypothesis with the same id is invalid, so the id lookup rejects this one too. */
  ghost predicate SharesInvalidId(a: Assignment, hs: seq<Hypothesis>, i: nat)
    requires i < |hs|
  {
    exists j :: 0 <= j < |hs| && j != i && hs[j].id == hs[i].id && Objection(a, hs[j]).Some?
  }

  ghost function WaveVerdict(a: Assignment, survivors: seq<ProgramVariant>, h: Hypothesis, lost: nat -> bool,
      from: nat): Verdict {
    VerdictOf(a, survivors, h, Observed(a.accepted, lost, from, h.inputs),
              Observed(survivors, lost, from + |a.accepted|, h.inputs))
  }

  /** Every verified verdict's expected value is the oracle's decision on its inputs. */
  predicate DecidedVerdicts(vs: seq<Verdict>, decisions: map<seq<int>, Decision>) {
    forall v | v in vs && v.verified ::
      v.hypothesis.inputs in decisions && decisions[v.hypothesis.inputs].expected == v.expected
  }

  /** From position `offset` on, the executions say which of the programs meet the criterion. */
  ghost predicate PassedAt(ps: seq<ProgramVariant>, es: seq<SuiteExecution>, offset: nat, ok: ProgramVariant -> bool,
      lost: nat -> bool, from: nat)
  {
    && offset + |ps| <= |es|
    && forall i | 0 <= i < |ps| :: AllPassed(es[offset + i]) <==> !lost(from + i) && ok(ps[i])
  }

  lemma PassedSplits(ps: seq<ProgramVariant>, qs: seq<ProgramVariant>, es: seq<SuiteExecution>,
      ok: ProgramVariant -> bool, lost: nat -> bool, from: nat)
    requires PassedAt(ps + qs, es, 0, ok, lost, from)
    ensures PassedAt(ps, es, 0, ok, lost, from)
    ensures PassedAt(qs, es, |ps|, ok, lost, from + |ps|)
  {
    var all := ps + qs;
    forall i | 0 <= i < |ps|
      ensures AllPassed(es[0 + i]) <==> !lost(from + i) && ok(ps[i])
    {
      PassedOne(all, es, ok, lost, from, i);
      assert all[i] == ps[i];
    }
    forall i | 0 <= i < |qs|
      ensures AllPassed(es[|ps| + i]) <==> !lost((from + |ps|) + i) && ok(qs[i])
    {
      PassedOne(all, es, ok, lost, from, |ps| + i);
      assert all[|ps| + i] == qs[i] && from + (|ps| + i) == (from + |ps|) + i;
    }
  }

  lemma PassedOne(ps: seq<ProgramVariant>, es: seq<SuiteExecution>, ok: ProgramVariant -> bool, lost: nat -> bool,
      from: nat, i: nat)
    requires PassedAt(ps, es, 0, ok, lost, from) && i < |ps|
    ensures AllPassed(es[i]) <==> !lost(from + i) && ok(ps[i])
  {
    assert AllPassed(es[0 + i]) <==> !lost(from + i) && ok(ps[i]);
  }

  /**
    How an analysis with a candidate ends: the candidate is sound and best, and the second
    measurement, which starts as execution `second`, is that of the hardened suite.
  */
  ghost predicate Concluded(a: Assignment, r: Analysis, lost: nat -> bool, first: nat, second: nat) {
    && r.candidate.Some?
    && SoundCandidate(a, r.candidate.value)
    && IsBestVerdict(r.verdicts, r.candidate.value)
    && IsMeasurement(a, Hardened(a, r.candidate.value), lost, second, r.projectedAfter)
    && (NoneLost(lost, first, MeasureSize(a)) && NoneLost(lost, second, MeasureSize(a)) ==>
          SuiteImproves(a, r, lost, first, second))
  }

  class AssessmentEngine {
    const sandbox: BatchSandbox

    constructor (sandbox: BatchSandbox)
      ensures this.sandbox == sandbox
    {
      this.sandbox := sandbox;
    }

    method RunBatch(ps: seq<ProgramVariant>, tests: seq<TestCase>) returns (r: Result<seq<SuiteExecution>, EngineError>)
      modifies sandbox
      ensures r.Failure? <==> sandbox.late(old(sandbox.batches))
      ensures r.Failure? ==> r.error == DeadlineExceeded && sandbox.executed == old(sandbox.executed)
      ensures r.Success? ==>
                && sandbox.executed == old(sandbox.executed) + |ps|
                && AreExecutions(ps, tests, sandbox.lost, old(sandbox.executed), r.value)
                && forall i :: 0 <= i < |ps| ==>
                     (AllPassed(r.value[i]) <==> !sandbox.lost(old(sandbox.executed) + i) && PassesAll(ps[i], tests))
    {
      sandbox.batches := sandbox.batches + 1;
      if sandbox.late(sandbox.batches - 1) {
        return Failure(DeadlineExceeded);
      }
      var es := sandbox.RunSuiteBatch(ps, tests);
      r := Success(es);
    }

    /** Runs the programs on the suite and says which passed all of it. */
    method RunSuites(ps: seq<ProgramVariant>, tests: seq<TestCase>, ghost ok: ProgramVariant -> bool)
      returns (r: Result<seq<SuiteExecution>, EngineError>)
      requires Tells(ok, tests)
      modifies sandbox
      ensures r.Failure? ==> r.error == DeadlineExceeded
      ensures r.Success? ==>
                && sandbox.executed == old(sandbox.executed) + |ps|
                && PassedAt(ps, r.value, 0, ok, sandbox.lost, old(sandbox.executed))
    {
      ghost var from := sandbox.executed;
      r := RunBatch(ps, tests);
      if r.Success? {
        forall i | 0 <= i < |ps|
          ensures AllPassed(r.value[0 + i]) <==> !sandbox.lost(from + i) && ok(ps[i])
        {
          assert Asked(ps[i]);
        }
      }
    }

    /** The programs whose execution passed the whole suite; the executions start at `offset`. */
    method Passed(ps: seq<ProgramVariant>, es: seq<SuiteExecution>, offset: nat,
        ghost ok: ProgramVariant -> bool, ghost lost: nat -> bool, ghost from: nat)
      returns (kept: seq<ProgramVariant>)
      requires PassedAt(ps, es, offset, ok, lost, from)
      ensures kept == Kept(ps, ok, lost, from)
    {
      kept := [];
      for i := 0 to |ps|
        invariant kept == Kept(ps[..i], ok, lost, from)
      {
        KeptNext(ps, ok, lost, from, i);
        if AllPassed(es[offset + i]) {
          kept := kept + [ps[i]];
        }
      }
      assert ps[..|ps|] == ps;
    }

    method MeasureBy(a: Assignment, tests: seq<TestCase>, ghost ok: ProgramVariant -> bool)
      returns (r: Result<(Metrics, seq<ProgramVariant>), EngineError>)
      requires Tells(ok, tests)
      modifies sandbox
      ensures r.Failure? ==> r.error == DeadlineExceeded
      ensures r.Success? ==>
                && sandbox.executed == old(sandbox.executed) + MeasureSize(a)
                && r.value.1 == Kept(a.mutants, ok, sandbox.lost, old(sandbox.executed))
                && r.value.0 == Metrics(|a.mutants|, |a.mutants| - |r.value.1|, |r.value.1|,
                                        |Kept(a.accepted, ok, sandbox.lost, old(sandbox.executed) + |a.mutants|)|)
    {
      ghost var from := sandbox.executed;
      var run := RunSuites(a.mutants + a.accepted, tests, ok);
      if run.Failure? {
        return Failure(run.error);
      }
      PassedSplits(a.mutants, a.accepted, run.value, ok, sandbox.lost, from);
      var survivors := Passed(a.mutants, run.value, 0, ok, sandbox.lost, from);
      var accepted := Passed(a.accepted, run.value, |a.mutants|, ok, sandbox.lost, from + |a.mutants|);
      r := Success((Metrics(|a.mutants|, |a.mutants| - |survivors|, |survivors|, |accepted|), survivors));
    }

    method Measure(a: Assignment, tests: seq<TestCase>) returns (r: Result<(Metrics, seq<ProgramVariant>), EngineError>)
      modifies sandbox
      ensures r.Failure? ==> r.error == DeadlineExceeded
      ensures r.Success? ==>
                && sandbox.executed == old(sandbox.executed) + MeasureSize(a)
                && IsMeasurement(a, tests, sandbox.lost, old(sandbox.executed), r.value.0)
                && r.value.1 == Survivors(a.mutants, tests, sandbox.lost, old(sandbox.executed))
    {
      PassingTells(tests);
      r := MeasureBy(a, tests, Passing(tests));
    }

    method RowOf(p: ProgramVariant, e: SuiteExecution, ghost tests: seq<TestCase>, ghost lost: bool)
      returns (row: map<seq<int>, Value>)
      requires IsExecution(p, tests, lost, e)
      ensures forall t | t in tests ::
                (if t.inputs in row then row[t.inputs] else None) == if lost then None else Actual(p.code, t.inputs)
    {
      row := map[];
      for k := 0 to |e.outputs|
        invariant forall x | x in row :: row[x] == Actual(p.code, x)
        invariant forall j :: 0 <= j < k ==> e.outputs[j].inputs in row
        invariant lost ==> row == map[]
      {
        assert e.outputs[k] == CaseOf(p.code, tests[k]);
        row := row[e.outputs[k].inputs := e.outputs[k].actual];
      }
      if !lost {
        forall t | t in tests ensures t.inputs in row {
          var k :| 0 <= k < |tests| && tests[k] == t;
          assert e.outputs[k] == CaseOf(p.code, tests[k]);
        }
      }
    }

    method OutputsByProgram(ps: seq<ProgramVariant>, es: seq<SuiteExecution>,
        ghost tests: seq<TestCase>, ghost lost: nat -> bool, ghost from: nat)
      returns (outputs: map<string, map<seq<int>, Value>>)
      requires AreExecutions(ps, tests, lost, from, es)
      ensures Shows(outputs, ps, tests, lost, from)
    {
      outputs := map[];
      for i := 0 to |ps|
        invariant Shows(outputs, ps[..i], tests, lost, from)
      {
        assert IsExecution(ps[i], tests, lost(from + i), es[i]);
        var row := RowOf(ps[i], es[i], tests, lost(from + i));
        ShowsStep(outputs, ps, tests, lost, from, i, row);
        outputs := outputs[ps[i].id := row];
      }
      assert ps[..|ps|] == ps;
    }

    /** The first loop: reject by arity and domain, and collect the distinct valid inputs. */
    method Screen(a: Assignment, hs: seq<Hypothesis>) returns (invalid: map<string, Reason>, validInputs: seq<seq<int>>)
      ensures forall h | h in hs :: if Objection(a, h).Some? then h.id in invalid else h.inputs in validInputs
      ensures forall id | id in invalid :: exists h | h in hs :: h.id == id && Objection(a, h) == Some(invalid[id])
    {
      invalid, validInputs := map[], [];
      for i := 0 to |hs|
        invariant forall h | h in hs[..i] :: if Objection(a, h).Some? then h.id in invalid else h.inputs in validInputs
        invariant forall id | id in invalid :: exists h | h in hs[..i] :: h.id == id && Objection(a, h) == Some(invalid[id])
      {
        var h := hs[i];
        assert hs[..i + 1] == hs[..i] + [h];
        ghost var before := invalid;
        if |h.inputs| != |a.inputNames| {
          invalid := invalid[h.id := WrongArity];
        } else if exists x | x in h.inputs :: x < a.domainMin || x > a.domainMax {
          invalid := invalid[h.id := OutsideDomain];
        } else if h.inputs !in validInputs {
          validInputs := validInputs + [h.inputs];
        }
        forall id | id in invalid ensures exists g | g in hs[..i + 1] :: g.id == id && Objection(a, g) == Some(invalid[id]) {
          if id == h.id && Objection(a, h).Some? {
            assert h in hs[..i + 1];
          } else {
            assert id in before;
          }
        }
      }
      assert hs[..|hs|] == hs;
    }

    method DecideNext(a: Assignment, x: seq<int>, column: Column, resolved: seq<TestCase>)
      returns (d: Decision, resolved': seq<TestCase>)
      ensures d == Decide(a, x, column)
      ensures forall t | t in resolved :: t in resolved'
      ensures d.resolved ==> exists t | t in resolved' :: t.inputs == x
    {
      d := EvaluateDecision(a, x, column);
      DecideIffUnanimous(a, x, column);
      resolved' := resolved;
      if d.resolved && d.expected.Some? {
        var t := TestCase(x, d.expected, "candidate");
        resolved' := resolved + [t];
        assert t in resolved';
      }
    }

    method DecideAll(a: Assignment, validInputs: seq<seq<int>>, outputs: map<string, map<seq<int>, Value>>)
      returns (decisions: map<seq<int>, Decision>, resolved: seq<TestCase>)
      ensures decisions.Keys == set x | x in validInputs
      ensures forall x | x in decisions :: decisions[x] == Decide(a, x, ColumnAt(outputs, x))
      ensures forall x | x in validInputs && decisions[x].resolved :: exists t | t in resolved :: t.inputs == x
    {
      decisions, resolved := map[], [];
      for i := 0 to |validInputs|
        invariant decisions.Keys == set x | x in validInputs[..i]
        invariant forall x | x in decisions :: decisions[x] == Decide(a, x, ColumnAt(outputs, x))
        invariant forall x | x in decisions && decisions[x].resolved :: exists t | t in resolved :: t.inputs == x
      {
        var x := validInputs[i];
        var d;
        d, resolved := DecideNext(a, x, ColumnAt(outputs, x), resolved);
        decisions := decisions[x := d];
        assert validInputs[..i + 1] == validInputs[..i] + [x];
      }
      assert validInputs[..|validInputs|] == validInputs;
    }

    /** The inner loop: which survivors differ from the decided value on this hypothesis. */
    method Judge(survivors: seq<ProgramVariant>, h: Hypothesis, d: Decision, shown: Column) returns (v: Verdict)
      requires d.expected.Some?
      ensures var killed := KilledBy(survivors, shown, d.expected.value);
              v == if killed == [] then Verdict(h, false, NoDivergence, d.expected, None, [])
                   else Verdict(h, true, Divergence, d.expected, FirstDifferent(survivors, shown, d.expected.value), killed)
    {
      var killed: seq<string>, observed: Value := [], None;
      for i := 0 to |survivors|
        invariant killed == KilledBy(survivors[..i], shown, d.expected.value)
        invariant observed == FirstDifferent(survivors[..i], shown, d.expected.value)
      {
        assert survivors[..i + 1][..i] == survivors[..i];
        var actual := Probe(shown, survivors[i]);
        if actual.Some? && !PyEq(actual.value, d.expected.value) {
          killed := killed + [survivors[i].id];
          if observed.None? {
            observed := actual;
          }
        }
      }
      assert survivors[..|survivors|] == survivors;
      if killed == [] {
        v := Verdict(h, false, NoDivergence, d.expected, None, []);
      } else {
        v := Verdict(h, true, Divergence, d.expected, observed, killed);
      }
    }

    /** The first wave: the controls run on every distinct valid input, and the oracle decides each. */
    method ControlWave(a: Assignment, validInputs: seq<seq<int>>)
      returns (r: Result<(map<seq<int>, Decision>, seq<TestCase>), EngineError>)
      modifies sandbox
      ensures r.Failure? ==> r.error == DeadlineExceeded
      ensures r.Success? ==> sandbox.executed == old(sandbox.executed) + |a.accepted|
      ensures r.Success? ==> Decided(a, validInputs, r.value.0, r.value.1, sandbox.lost, old(sandbox.executed))
    {
      ghost var from, lost := sandbox.executed, sandbox.lost;
      var probes := seq(|validInputs|, i requires 0 <= i < |validInputs| => TestCase(validInputs[i], None, "oracle probe"));
      var run := RunBatch(a.accepted, probes);
      if run.Failure? {
        return Failure(run.error);
      }
      var outputs := OutputsByProgram(a.accepted, run.value, probes, lost, from);
      forall x | x in validInputs ensures ColumnAt(outputs, x) == Observed(a.accepted, lost, from, x) {
        var i :| 0 <= i < |validInputs| && validInputs[i] == x;
        assert probes[i] in probes;
      }
      var decisions, resolved := DecideAll(a, validInputs, outputs);
      r := Success((decisions, resolved));
    }

    /** The second wave: the survivors run on the resolved inputs. */
    method SurvivorWave(survivors: seq<ProgramVariant>, resolved: seq<TestCase>)
      returns (r: Result<map<string, map<seq<int>, Value>>, EngineError>)
      modifies sandbox
      ensures r.Failure? ==> r.error == DeadlineExceeded
      ensures r.Success? ==>
                && sandbox.executed == old(sandbox.executed) + |survivors|
                && Shows(r.value, survivors, resolved, sandbox.lost, old(sandbox.executed))
    {
      ghost var from := sandbox.executed;
      var run := RunBatch(survivors, resolved);
      if run.Failure? {
        return Failure(run.error);
      }
      var outputs := OutputsByProgram(survivors, run.value, resolved, sandbox.lost, from);
      r := Success(outputs);
    }

    /**
      Two execution waves for the whole batch. Each verdict is the one its hypothesis would get on
      its own from what the waves showed; only sharing an id with an invalid hypothesis interferes.
    */
    method VerifyHypotheses(a: Assignment, survivors: seq<ProgramVariant>, hs: seq<Hypothesis>)
      returns (r: Result<(seq<Verdict>, map<seq<int>, Decision>), EngineError>)
      modifies sandbox
      ensures r.Failure? ==> r.error == DeadlineExceeded
      ensures r.Success? ==>
                && sandbox.executed == old(sandbox.executed) + |a.accepted| + |survivors|
                && FaithfulVerdicts(a, survivors, hs, r.value.0, sandbox.lost, old(sandbox.executed))
                && DecidedVerdicts(r.value.0, r.value.1)
    {
      ghost var from, lost := sandbox.executed, sandbox.lost;
      var invalid, validInputs := Screen(a, hs);
      var controls := ControlWave(a, validInputs);
      if controls.Failure? {
        return Failure(controls.error);
      }
      var (decisions, resolved) := controls.value;
      var shown := SurvivorWave(survivors, resolved);
      if shown.Failure? {
        return Failure(shown.error);
      }
      AllReady(a, survivors, hs, validInputs, decisions, resolved, shown.value, lost, from);
      var verdicts := JudgeAll(a, survivors, hs, invalid, decisions, shown.value, lost, from);
      r := Success((verdicts, decisions));
    }

    /** The verdict loop. */
    method JudgeAll(a: Assignment, survivors: seq<ProgramVariant>, hs: seq<Hypothesis>, invalid: map<string, Reason>,
        decisions: map<seq<int>, Decision>, shown: map<string, map<seq<int>, Value>>, ghost lost: nat -> bool, ghost from: nat)
      returns (verdicts: seq<Verdict>)
      requires forall h | h in hs && Objection(a, h).Some? :: h.id in invalid
      requires forall id | id in invalid :: exists h | h in hs :: h.id == id && Objection(a, h) == Some(invalid[id])
      requires forall h | h in hs && Objection(a, h).None? :: Ready(a, survivors, h, decisions, shown, lost, from)
      ensures FaithfulVerdicts(a, survivors, hs, verdicts, lost, from)
      ensures DecidedVerdicts(verdicts, decisions)
    {
      verdicts := [];
      for i := 0 to |hs|
        invariant |verdicts| == i
        invariant forall j :: 0 <= j < i ==> Faithful(a, survivors, hs, j, verdicts[j], lost, from)
        invariant DecidedVerdicts(verdicts, decisions)
      {
        var h := hs[i];
        assert h in hs;
        var v;
        if h.id in invalid {
          v := Verdict(h, false, invalid[h.id], None, None, []);
          InvalidById(a, hs, i, invalid);
        } else {
          assert Ready(a, survivors, h, decisions, shown, lost, from);
          var d := decisions[h.inputs];
          if !d.resolved || d.expected.None? {
            v := Verdict(h, false, OracleAbstained, None, None, []);
          } else {
            v := Judge(survivors, h, d, ColumnAt(shown, h.inputs));
          }
        }
        verdicts := verdicts + [v];
      }
    }

    /** The first survivor with a given id; StopIteration is unreachable because the id is a killed one. */
    method ProgramById(ps: seq<ProgramVariant>, id: string) returns (p: ProgramVariant)
      requires exists q | q in ps :: q.id == id
      ensures p in ps && p.id == id
    {
      for i := 0 to |ps|
        invariant forall j :: 0 <= j < i ==> ps[j].id != id
      {
        if ps[i].id == id {
          return ps[i];
        }
      }
      assert false;
    }

    /**
      Measure, verify at most two batches of proposals, select, and measure again. `proposals` are
      the provider's answers to its two calls.
    */
    method Analyze(a: Assignment, proposals: seq<seq<Hypothesis>>) returns (r: Result<Analysis, EngineError>)
      requires WellFormed(a) && |proposals| == 2
      modifies sandbox
      ensures r.Failure? ==> r.error == DeadlineExceeded
      ensures r.Success? ==> IsMeasurement(a, a.instructorTests, sandbox.lost, old(sandbox.executed), r.value.before)
      ensures r.Success? ==> Reported(a, proposals, r.value, sandbox.lost, old(sandbox.executed))
      ensures r.Success? && r.value.candidate.None? ==> r.value.projectedAfter == r.value.before
      ensures r.Success? && r.value.candidate.Some? ==>
                && sandbox.executed >= old(sandbox.executed) + 2 * MeasureSize(a)
                && Concluded(a, r.value, sandbox.lost, old(sandbox.executed), sandbox.executed - MeasureSize(a))
    {
      ghost var from := sandbox.executed;
      var measured := Measure(a, a.instructorTests);
      if measured.Failure? {
        return Failure(measured.error);
      }
      var (before, survivors) := measured.value;
      if survivors == [] {
        r := Success(Analysis(before, before, [], [], None));
        ReportsNothing(a, proposals, r.value, sandbox.lost, from);
        return;
      }
      r := Search(a, before, survivors, proposals, from);
    }

    /** The search for a candidate once some mutant survived the instructor suite. */
    method Search(a: Assignment, before: Metrics, survivors: seq<ProgramVariant>, proposals: seq<seq<Hypothesis>>,
        ghost from: nat)
      returns (r: Result<Analysis, EngineError>)
      requires WellFormed(a) && |proposals| == 2
      requires survivors == Survivors(a.mutants, a.instructorTests, sandbox.lost, from)
      requires survivors != [] && sandbox.executed == from + MeasureSize(a)
      requires IsMeasurement(a, a.instructorTests, sandbox.lost, from, before)
      modifies sandbox
      ensures r.Failure? ==> r.error == DeadlineExceeded
      ensures r.Success? ==> r.value.before == before && Reported(a, proposals, r.value, sandbox.lost, from)
      ensures r.Success? && r.value.candidate.None? ==> r.value.projectedAfter == before
      ensures r.Success? && r.value.candidate.Some? ==>
                && sandbox.executed >= old(sandbox.executed) + MeasureSize(a)
                && Concluded(a, r.value, sandbox.lost, from, sandbox.executed - MeasureSize(a))
    {
      var checked, wave := VerifyUntilFound(a, survivors, proposals, from);
      if checked.Failure? {
        return Failure(checked.error);
      }
      var (verdicts, verified, decisions) := checked.value;
      if verified == [] {
        r := Success(Analysis(before, before, Ids(survivors), verdicts, None));
      } else {
        r := Conclude(a, before, survivors, verdicts, verified, decisions, from, wave);
      }
      if r.Success? {
        ReportsAttempt(a, survivors, proposals, verdicts, r.value, sandbox.lost, from);
      }
    }

    /** One batch of proposals, with what is proven about its verdicts. */
    method VerifyBatch(a: Assignment, survivors: seq<ProgramVariant>, hs: seq<Hypothesis>, ghost from: nat)
      returns (r: Result<(seq<Verdict>, seq<Verdict>, map<seq<int>, Decision>), EngineError>)
      requires WellFormed(a) && survivors == Survivors(a.mutants, a.instructorTests, sandbox.lost, from)
      modifies sandbox
      ensures r.Failure? ==> r.error == DeadlineExceeded
      ensures r.Success? ==>
                && sandbox.executed == old(sandbox.executed) + |a.accepted| + |survivors|
                && FaithfulVerdicts(a, survivors, hs, r.value.0, sandbox.lost, old(sandbox.executed))
                && ProvenVerdicts(a, survivors, r.value.0, r.value.2, sandbox.lost, old(sandbox.executed))
                && (forall v :: v in r.value.1 <==> v in r.value.0 && v.verified)
                && (r.value.1 != [] <==> SomeVerified(r.value.0))
    {
      ghost var wave := sandbox.executed;
      var checked := VerifyHypotheses(a, survivors, hs);
      if checked.Failure? {
        return Failure(checked.error);
      }
      var (verdicts, decisions) := checked.value;
      VerifiedAreProven(a, survivors, hs, verdicts, decisions, sandbox.lost, from, wave);
      var verified := OnlyVerified(verdicts);
      assert verified != [] ==> verified[0] in verified;
      r := Success((verdicts, verified, decisions));
    }

    /** At most two batches; the second only when the first verified nothing. */
    method VerifyUntilFound(a: Assignment, survivors: seq<ProgramVariant>, proposals: seq<seq<Hypothesis>>,
        ghost from: nat)
      returns (r: Result<(seq<Verdict>, seq<Verdict>, map<seq<int>, Decision>), EngineError>, ghost wave: nat)
      requires WellFormed(a) && survivors == Survivors(a.mutants, a.instructorTests, sandbox.lost, from)
      requires |proposals| == 2
      modifies sandbox
      ensures r.Failure? ==> r.error == DeadlineExceeded
      ensures r.Success? ==>
                && sandbox.executed >= old(sandbox.executed)
                && Attempted(a, survivors, proposals, r.value.0, sandbox.lost, old(sandbox.executed))
                && ProvenVerdicts(a, survivors, r.value.0, r.value.2, sandbox.lost, wave)
                && (forall v :: v in r.value.1 <==> v in r.value.0 && v.verified)
                && (r.value.1 != [] <==> SomeVerified(r.value.0))
    {
      r, wave := Success(([], [], map[])), sandbox.executed;
      for attempt := 0 to 2
        invariant r.Success?
        invariant Tried(a, survivors, proposals, attempt, r.value.0, sandbox.lost, old(sandbox.executed), sandbox.executed)
        invariant ProvenVerdicts(a, survivors, r.value.0, r.value.2, sandbox.lost, wave)
        invariant forall v :: v in r.value.1 <==> v in r.value.0 && v.verified
        invariant r.value.1 == [] && !SomeVerified(r.value.0)
      {
        ghost var before := r.value.0;
        wave := sandbox.executed;
        r := VerifyBatch(a, survivors, proposals[attempt], from);
        if r.Failure? {
          return;
        }
        NextAttempt(a, survivors, proposals, attempt, before, r.value.0, sandbox.lost, old(sandbox.executed), wave);
        if r.value.1 != [] {
          return;
        }
      }
    }

    method OnlyVerified(verdicts: seq<Verdict>) returns (verified: seq<Verdict>)
      ensures forall v :: v in verified <==> v in verdicts && v.verified
    {
      verified := [];
      for i := 0 to |verdicts|
        invariant forall v :: v in verified <==> v in verdicts[..i] && v.verified
      {
        assert verdicts[..i + 1] == verdicts[..i] + [verdicts[i]];
        if verdicts[i].verified {
          verified := verified + [verdicts[i]];
        }
      }
      assert verdicts[..|verdicts|] == verdicts;
    }

    /** Selection, evidence check, second measurement and candidate. */
    method Conclude(a: Assignment, before: Metrics, survivors: seq<ProgramVariant>,
        verdicts: seq<Verdict>, verified: seq<Verdict>, decisions: map<seq<int>, Decision>, ghost from: nat, ghost wave: nat)
      returns (r: Result<Analysis, EngineError>)
      requires WellFormed(a) && verified != []
      requires survivors == Survivors(a.mutants, a.instructorTests, sandbox.lost, from)
      requires IsMeasurement(a, a.instructorTests, sandbox.lost, from, before)
      requires ProvenVerdicts(a, survivors, verdicts, decisions, sandbox.lost, wave)
      requires forall v :: v in verified <==> v in verdicts && v.verified
      modifies sandbox
      ensures r.Failure? ==> r.error == DeadlineExceeded
      ensures r.Success? ==>
                && r.value.before == before && r.value.verdicts == verdicts && r.value.survivorsBefore == Ids(survivors)
                && sandbox.executed == old(sandbox.executed) + MeasureSize(a)
                && Concluded(a, r.value, sandbox.lost, from, old(sandbox.executed))
    {
      ghost var from' := sandbox.executed;
      assert Comparable(verified) by {
        forall v | v in verified ensures v.hypothesis.inputs != [] {
          assert Proven(a, survivors, v, sandbox.lost, wave);
        }
      }
      var selected := SelectMin(verified);
      assert selected in verdicts && selected.verified;
      assert Proven(a, survivors, selected, sandbox.lost, wave);
      var decision := decisions[selected.hypothesis.inputs];
      if decision.expected.None? || selected.actual.None? {
        return Failure(LostOracleEvidence);
      }
      assert selected.killed[0] in selected.killed;
      var target := ProgramById(survivors, selected.killed[0]);
      var test := TestCase(selected.hypothesis.inputs, decision.expected, "CourseFuzz regression: " + target.misconception);
      var candidate := Candidate(test, selected.actual.value, selected.killed);
      assert SoundCandidate(a, candidate) by {
        TargetsAreMutants(a, survivors, selected, candidate, sandbox.lost, from);
      }
      assert IsBestVerdict(verdicts, candidate) by {
        assert MadeFrom(candidate, selected);
        forall v | v in verified ensures |v.killed| <= |selected.killed| && KeyLe(selected, v) {
          LeastKillsMost(selected, verified, v);
        }
      }
      var measured := Measure(a, a.instructorTests + [test]);
      if measured.Failure? {
        return Failure(measured.error);
      }
      r := Success(Analysis(before, measured.value.0, Ids(survivors), verdicts, Some(candidate)));
      if NoneLost(sandbox.lost, from, MeasureSize(a)) && NoneLost(sandbox.lost, from', MeasureSize(a)) {
        Improvement(a, survivors, selected, r.value, sandbox.lost, from, from', wave);
      }
    }
  }

  function Ids(ps: seq<ProgramVariant>): seq<string> {
    seq(|ps|, i requires 0 <= i < |ps| => ps[i].id)
  }

  /** The candidate is made from this verdict. */
  predicate MadeFrom(c: Candidate, v: Verdict) {
    && v.verified && v.killed == c.targets && v.actual == Some(c.observed)
    && v.hypothesis.inputs == c.test.inputs && v.expected == c.test.expected
  }

  /** No verified verdict is below this one in the order of the tie-break. */
  ghost predicate LeastVerified(v: Verdict, vs: seq<Verdict>) {
    forall w | w in vs && w.verified :: v.hypothesis.inputs != [] && w.hypothesis.inputs != [] && KeyLe(v, w)
  }

  /** The candidate is made from the verified verdict least under the tie-break, and none kills more. */
  ghost predicate IsBestVerdict(vs: seq<Verdict>, c: Candidate) {
    && (exists v | v in vs :: MadeFrom(c, v) && LeastVerified(v, vs))
    && (forall v | v in vs && v.verified :: |v.killed| <= |c.targets|)
  }

  ghost predicate SomeVerified(vs: seq<Verdict>) {
    exists v :: v in vs && v.verified
  }

  /** The verdicts are those of the first batch, or of the second when the first verified nothing. */
  ghost predicate Attempted(a: Assignment, survivors: seq<ProgramVariant>, proposals: seq<seq<Hypothesis>>,
      vs: seq<Verdict>,
      lost: nat -> bool, start: nat)
    requires |proposals| == 2
  {
    || (SomeVerified(vs) && FaithfulVerdicts(a, survivors, proposals[0], vs, lost, start))
    || exists first ::
         && FaithfulVerdicts(a, survivors, proposals[0], first, lost, start) && !SomeVerified(first)
         && FaithfulVerdicts(a, survivors, proposals[1], vs, lost, start + |a.accepted| + |survivors|)
  }

  /** The state of the attempts after the first `k` of them, none of which has verified anything. */
  ghost predicate Tried(a: Assignment, survivors: seq<ProgramVariant>, proposals: seq<seq<Hypothesis>>, k: nat,
      vs: seq<Verdict>, lost: nat -> bool, start: nat, executed: nat)
    requires |proposals| == 2
  {
    if k == 0 then executed == start
    else if k == 1 then
      executed == start + |a.accepted| + |survivors| && FaithfulVerdicts(a, survivors, proposals[0], vs, lost, start)
    else
      executed >= start && Attempted(a, survivors, proposals, vs, lost, start)
  }

  lemma NextAttempt(a: Assignment, survivors: seq<ProgramVariant>, proposals: seq<seq<Hypothesis>>, k: nat,
      before: seq<Verdict>, vs: seq<Verdict>, lost: nat -> bool, start: nat, executed: nat)
    requires |proposals| == 2 && k < 2
    requires Tried(a, survivors, proposals, k, before, lost, start, executed) && !SomeVerified(before)
    requires FaithfulVerdicts(a, survivors, proposals[k], vs, lost, executed)
    ensures SomeVerified(vs) ==> Attempted(a, survivors, proposals, vs, lost, start)
    ensures !SomeVerified(vs) ==>
              Tried(a, survivors, proposals, k + 1, vs, lost, start, executed + |a.accepted| + |survivors|)
  {
    if k == 1 {
      assert Attempted(a, survivors, proposals, vs, lost, start);
    }
  }

  lemma ReportsNothing(a: Assignment, proposals: seq<seq<Hypothesis>>, r: Analysis, lost: nat -> bool, from: nat)
    requires |proposals| == 2 && Survivors(a.mutants, a.instructorTests, lost, from) == []
    requires r.survivorsBefore == [] && r.verdicts == [] && r.candidate.None?
    ensures Reported(a, proposals, r, lost, from)
  {
  }

  lemma ReportsAttempt(a: Assignment, survivors: seq<ProgramVariant>, proposals: seq<seq<Hypothesis>>, vs: seq<Verdict>,
      r: Analysis, lost: nat -> bool, from: nat)
    requires |proposals| == 2 && survivors != []
    requires survivors == Survivors(a.mutants, a.instructorTests, lost, from) && r.survivorsBefore == Ids(survivors)
    requires Attempted(a, survivors, proposals, vs, lost, from + MeasureSize(a)) && r.verdicts == vs
    requires r.candidate.Some? <==> SomeVerified(vs)
    ensures Reported(a, proposals, r, lost, from)
  {
  }

  /** What an analysis reports: the survivors, the attempted verdicts, and a candidate exactly when one is verified. */
  ghost predicate Reported(a: Assignment, proposals: seq<seq<Hypothesis>>, r: Analysis, lost: nat -> bool, from: nat)
    requires |proposals| == 2
  {
    var survivors := Survivors(a.mutants, a.instructorTests, lost, from);
    && r.survivorsBefore == Ids(survivors)
    && (if survivors == [] then r.verdicts == [] else Attempted(a, survivors, proposals, r.verdicts, lost, from + MeasureSize(a)))
    && (r.candidate.Some? <==> SomeVerified(r.verdicts))
  }

  /** A verified verdict is true, and its kills are what the survivor wave showed. */
  ghost predicate Proven(a: Assignment, survivors: seq<ProgramVariant>, v: Verdict, lost: nat -> bool, wave: nat) {
    && TrueVerdict(a, survivors, v) && v.hypothesis.inputs != []
    && v.killed == KilledBy(survivors, Observed(survivors, lost, wave + |a.accepted|, v.hypothesis.inputs), v.expected.value)
  }

  ghost predicate ProvenVerdicts(a: Assignment, survivors: seq<ProgramVariant>, vs: seq<Verdict>,
      decisions: map<seq<int>, Decision>, lost: nat -> bool, wave: nat)
  {
    forall v {:trigger Proven(a, survivors, v, lost, wave)} | v in vs && v.verified ::
      && Proven(a, survivors, v, lost, wave)
      && v.hypothesis.inputs in decisions && decisions[v.hypothesis.inputs].expected == v.expected
  }

  /** The lookups the verdict loop makes for a valid hypothesis, and what they hold. */
  ghost predicate Ready(a: Assignment, survivors: seq<ProgramVariant>, h: Hypothesis,
      decisions: map<seq<int>, Decision>, shown: map<string, map<seq<int>, Value>>, lost: nat -> bool, from: nat)
  {
    && h.inputs in decisions
    && decisions[h.inputs] == Decide(a, h.inputs, Observed(a.accepted, lost, from, h.inputs))
    && (decisions[h.inputs].resolved ==>
          ColumnAt(shown, h.inputs) == Observed(survivors, lost, from + |a.accepted|, h.inputs))
  }

  /** The first wave decided every valid input, and every resolved one has a test for the second wave. */
  ghost predicate Decided(a: Assignment, validInputs: seq<seq<int>>, decisions: map<seq<int>, Decision>,
      resolved: seq<TestCase>, lost: nat -> bool, from: nat)
  {
    forall x | x in validInputs ::
      && x in decisions && decisions[x] == Decide(a, x, Observed(a.accepted, lost, from, x))
      && (decisions[x].resolved ==> exists t | t in resolved :: t.inputs == x)
  }

  lemma AllReady(a: Assignment, survivors: seq<ProgramVariant>, hs: seq<Hypothesis>, validInputs: seq<seq<int>>,
      decisions: map<seq<int>, Decision>, resolved: seq<TestCase>, shown: map<string, map<seq<int>, Value>>,
      lost: nat -> bool, from: nat)
    requires forall h | h in hs && Objection(a, h).None? :: h.inputs in validInputs
    requires Decided(a, validInputs, decisions, resolved, lost, from)
    requires Shows(shown, survivors, resolved, lost, from + |a.accepted|)
    ensures forall h | h in hs && Objection(a, h).None? :: Ready(a, survivors, h, decisions, shown, lost, from)
  {
    forall h | h in hs && Objection(a, h).None? ensures Ready(a, survivors, h, decisions, shown, lost, from) {
      assert h.inputs in validInputs;
    }
  }

  ghost predicate Faithful(a: Assignment, survivors: seq<ProgramVariant>, hs: seq<Hypothesis>, i: nat, v: Verdict,
      lost: nat -> bool, from: nat)
    requires i < |hs|
  {
    && v.hypothesis == hs[i]
    && (v == WaveVerdict(a, survivors, hs[i], lost, from) || (!v.verified && SharesInvalidId(a, hs, i)))
  }

  ghost predicate FaithfulVerdicts(a: Assignment, survivors: seq<ProgramVariant>, hs: seq<Hypothesis>, vs: seq<Verdict>,
      lost: nat -> bool, from: nat)
  {
    && |vs| == |hs|
    && forall i {:trigger Faithful(a, survivors, hs, i, vs[i], lost, from)} ::
         0 <= i < |hs| ==> Faithful(a, survivors, hs, i, vs[i], lost, from)
  }

  /** With unique ids and nothing lost, the batch gives the one-at-a-time verdicts exactly. */
  lemma BatchedEqualsOneAtATime(a: Assignment, survivors: seq<ProgramVariant>, hs: seq<Hypothesis>, vs: seq<Verdict>,
      lost: nat -> bool, from: nat)
    requires FaithfulVerdicts(a, survivors, hs, vs, lost, from)
    requires NoneLost(lost, from, |a.accepted| + |survivors|)
    requires forall i, j :: 0 <= i < j < |hs| ==> hs[i].id != hs[j].id
    ensures forall i :: 0 <= i < |hs| ==> vs[i] == HonestVerdict(a, survivors, hs[i])
  {
    forall i | 0 <= i < |hs| ensures vs[i] == HonestVerdict(a, survivors, hs[i]) {
      assert Faithful(a, survivors, hs, i, vs[i], lost, from);
      assert !SharesInvalidId(a, hs, i);
      WaveIsHonest(a, survivors, hs[i], lost, from);
    }
  }

  ghost function HonestVerdict(a: Assignment, survivors: seq<ProgramVariant>, h: Hypothesis): Verdict {
    VerdictOf(a, survivors, h, Honest(a.accepted, h.inputs), Honest(survivors, h.inputs))
  }

  lemma HonestColumns(a: Assignment, survivors: seq<ProgramVariant>, inputs: seq<int>, lost: nat -> bool, from: nat)
    requires NoneLost(lost, from, |a.accepted| + |survivors|)
    ensures Observed(a.accepted, lost, from, inputs) == Honest(a.accepted, inputs)
    ensures Observed(survivors, lost, from + |a.accepted|, inputs) == Honest(survivors, inputs)
  {
    ObservedHonest(a.accepted, lost, from, inputs);
    ObservedHonest(survivors, lost, from + |a.accepted|, inputs);
  }

  lemma WaveIsHonest(a: Assignment, survivors: seq<ProgramVariant>, h: Hypothesis, lost: nat -> bool, from: nat)
    requires NoneLost(lost, from, |a.accepted| + |survivors|)
    ensures WaveVerdict(a, survivors, h, lost, from) == HonestVerdict(a, survivors, h)
  {
    HonestColumns(a, survivors, h.inputs, lost, from);
  }

  lemma InvalidById(a: Assignment, hs: seq<Hypothesis>, i: nat, invalid: map<string, Reason>)
    requires i < |hs| && hs[i].id in invalid
    requires forall id | id in invalid :: exists h | h in hs :: h.id == id && Objection(a, h) == Some(invalid[id])
    ensures Objection(a, hs[i]) == Some(invalid[hs[i].id]) || SharesInvalidId(a, hs, i)
  {
    var h :| h in hs && h.id == hs[i].id && Objection(a, h) == Some(invalid[h.id]);
    var j :| 0 <= j < |hs| && hs[j] == h;
  }

  lemma VerifiedAreProven(a: Assignment, survivors: seq<ProgramVariant>, hs: seq<Hypothesis>, vs: seq<Verdict>,
      decisions: map<seq<int>, Decision>, lost: nat -> bool, from: nat, wave: nat)
    requires WellFormed(a) && survivors == Survivors(a.mutants, a.instructorTests, lost, from)
    requires FaithfulVerdicts(a, survivors, hs, vs, lost, wave)
    requires DecidedVerdicts(vs, decisions)
    ensures ProvenVerdicts(a, survivors, vs, decisions, lost, wave)
  {
    KeptUnique(a.mutants, Passing(a.instructorTests), lost, from);
    forall v | v in vs && v.verified ensures Proven(a, survivors, v, lost, wave) {
      var i :| 0 <= i < |vs| && vs[i] == v;
      assert Faithful(a, survivors, hs, i, vs[i], lost, wave);
      WaveVerdictIsProven(a, survivors, hs[i], v, lost, wave);
    }
  }

  lemma TrueIsProven(a: Assignment, survivors: seq<ProgramVariant>, h: Hypothesis, v: Verdict, lost: nat -> bool,
      wave: nat)
    requires v.hypothesis == h && TrueVerdict(a, survivors, v) && |h.inputs| == |a.inputNames| >= 1
    requires v.killed == KilledBy(survivors, Observed(survivors, lost, wave + |a.accepted|, h.inputs), v.expected.value)
    ensures Proven(a, survivors, v, lost, wave)
  {
  }

  lemma WaveVerdictIsProven(a: Assignment, survivors: seq<ProgramVariant>, h: Hypothesis, v: Verdict,
      lost: nat -> bool, wave: nat)
    requires UniqueIds(a.accepted) && a.reference in a.accepted && UniqueIds(survivors) && |a.inputNames| >= 1
    requires v == WaveVerdict(a, survivors, h, lost, wave) && v.verified
    ensures Proven(a, survivors, v, lost, wave)
  {
    VerifiedIsTrue(a, survivors, v, h, lost, wave);
    TrueIsProven(a, survivors, h, v, lost, wave);
  }

  lemma {:induction false} KeptUnique(ps: seq<ProgramVariant>, ok: ProgramVariant -> bool, lost: nat -> bool, from: nat)
    requires UniqueIds(ps)
    ensures UniqueIds(Kept(ps, ok, lost, from))
    ensures forall p | p in Kept(ps, ok, lost, from) :: p in ps
  {
    if ps != [] {
      var n := |ps| - 1;
      KeptUnique(ps[..n], ok, lost, from);
      assert forall p | p in ps[..n] :: p.id != ps[n].id;
    }
  }

  lemma TargetsAreMutants(a: Assignment, survivors: seq<ProgramVariant>, v: Verdict, c: Candidate, lost: nat -> bool,
      from: nat)
    requires survivors == Survivors(a.mutants, a.instructorTests, lost, from)
    requires TrueVerdict(a, survivors, v)
    requires c.test.inputs == v.hypothesis.inputs && c.test.expected == v.expected
    requires c.targets == v.killed && v.actual == Some(c.observed)
    ensures SoundCandidate(a, c)
  {
    SurvivorsMembers(a.mutants, a.instructorTests, lost, from);
  }

  lemma Improvement(a: Assignment, survivors: seq<ProgramVariant>, selected: Verdict, r: Analysis,
      lost: nat -> bool, from: nat, from': nat, wave: nat)
    requires WellFormed(a) && survivors == Survivors(a.mutants, a.instructorTests, lost, from)
    requires Proven(a, survivors, selected, lost, wave)
    requires r.candidate.Some? && SoundCandidate(a, r.candidate.value) && r.candidate.value.targets == selected.killed
    requires r.candidate.value.test.inputs == selected.hypothesis.inputs
    requires r.candidate.value.test.expected == selected.expected
    requires IsMeasurement(a, a.instructorTests, lost, from, r.before)
    requires IsMeasurement(a, Hardened(a, r.candidate.value), lost, from', r.projectedAfter)
    requires NoneLost(lost, from, MeasureSize(a)) && NoneLost(lost, from', MeasureSize(a))
    ensures SuiteImproves(a, r, lost, from, from')
  {
    var c := r.candidate.value;
    var after := Survivors(a.mutants, Hardened(a, c), lost, from');
    SurvivorsShrink(a, survivors, c, lost, from, from');
    AcceptedStillPass(a, c, lost, from, from');
    SurvivorCountDrops(a, survivors, c, lost, from, from', wave);
  }

  lemma SurvivorsShrink(a: Assignment, survivors: seq<ProgramVariant>, c: Candidate, lost: nat -> bool, from: nat,
      from': nat)
    requires UniqueIds(a.mutants) && SoundCandidate(a, c)
    requires survivors == Survivors(a.mutants, a.instructorTests, lost, from)
    requires NoneLost(lost, from, MeasureSize(a)) && NoneLost(lost, from', MeasureSize(a))
    ensures forall p | p in Survivors(a.mutants, Hardened(a, c), lost, from') :: p in survivors && p.id !in c.targets
  {
    HardenedSurvivors(a.mutants, a.instructorTests, c.test, lost, from, lost, from');
    TargetsGone(a, c, lost, from');
  }

  lemma SurvivorCountDrops(a: Assignment, survivors: seq<ProgramVariant>, c: Candidate, lost: nat -> bool,
      from: nat, from': nat, wave: nat)
    requires UniqueIds(a.mutants) && c.test.expected.Some?
    requires survivors == Survivors(a.mutants, a.instructorTests, lost, from)
    requires c.targets == KilledBy(survivors, Observed(survivors, lost, wave + |a.accepted|, c.test.inputs), c.test.expected.value)
    requires NoneLost(lost, from, MeasureSize(a)) && NoneLost(lost, from', MeasureSize(a))
    ensures |Survivors(a.mutants, Hardened(a, c), lost, from')| + |c.targets| <= |survivors|
  {
    ShownDiffersReally(a, survivors, c.test.inputs, c.test.expected.value, lost, from, wave + |a.accepted|);
    KillsLeaveTheCount(a.mutants, a.instructorTests, c.test,
                       Observed(survivors, lost, wave + |a.accepted|, c.test.inputs), lost, from, lost, from');
  }

  lemma TargetsGone(a: Assignment, c: Candidate, lost: nat -> bool, from': nat)
    requires UniqueIds(a.mutants) && SoundCandidate(a, c)
    ensures forall p | p in Survivors(a.mutants, Hardened(a, c), lost, from') :: p.id !in c.targets
  {
    SurvivorsMembers(a.mutants, Hardened(a, c), lost, from');
    assert c.test in Hardened(a, c);
    forall p, q | p in Survivors(a.mutants, Hardened(a, c), lost, from') && q in a.mutants && q.id == p.id
      ensures p == q
    {
      UniqueById(a.mutants, q);
    }
  }

  lemma AcceptedStillPass(a: Assignment, c: Candidate, lost: nat -> bool, from: nat, from': nat)
    requires SoundCandidate(a, c)
    requires NoneLost(lost, from, MeasureSize(a)) && NoneLost(lost, from', MeasureSize(a))
    ensures |Survivors(a.accepted, Hardened(a, c), lost, from' + |a.mutants|)| ==
            |Survivors(a.accepted, a.instructorTests, lost, from + |a.mutants|)|
  {
    AllSurvive(a.accepted, a.instructorTests, c.test, lost, from + |a.mutants|, lost, from' + |a.mutants|);
  }

  lemma ShownDiffersReally(a: Assignment, survivors: seq<ProgramVariant>, inputs: seq<int>, e: Atom,
      lost: nat -> bool, from: nat, wave: nat)
    requires UniqueIds(a.mutants) && survivors == Survivors(a.mutants, a.instructorTests, lost, from)
    ensures forall p | p in a.mutants && Differs(p, Observed(survivors, lost, wave, inputs), e) :: ReallyDiffers(p, inputs, e)
  {
    var shown := Observed(survivors, lost, wave, inputs);
    SurvivorsMembers(a.mutants, a.instructorTests, lost, from);
    forall p | p in a.mutants && Differs(p, shown, e) ensures ReallyDiffers(p, inputs, e) {
      ObservedIsReal(survivors, lost, wave, inputs, p.id);
      var q :| q in survivors && q.id == p.id && Actual(q.code, inputs) == shown[p.id];
      UniqueById(a.mutants, q);
    }
  }
}
