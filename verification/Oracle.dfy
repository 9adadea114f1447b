/**
  src/coursefuzz/domain/oracle.py: three truth sources read the expected output for one input, and
  the composite resolves it only when every available source agrees.
*/
module Oracle {
  import opened Wrappers
  import opened RestrictedLanguage

  datatype ProgramVariant = ProgramVariant(id: string, misconception: string, code: Function)

  datatype Assignment = Assignment(
    inputNames: seq<string>, domainMin: int, domainMax: int,
    reference: ProgramVariant, accepted: seq<ProgramVariant>, mutants: seq<ProgramVariant>,
    instructorTests: seq<TestCase>)

  /** What the probe answers for one input: the value each program id showed, if any. */
  type Column = map<string, Value>

  function Probe(column: Column, p: ProgramVariant): Value {
    if p.id in column then column[p.id] else None
  }

  datatype Source = FromReference | FromConsensus | FromFixture

  datatype Evidence = ReferenceProgram | Control(id: string) | Fixture(testLabel: string)

  datatype Trouble = ReferenceFailed | ControlFailed | ControlsDisagreed | NoSource | SourcesDisagreed

  datatype Reading = Resolved(source: Source, value: Atom, evidence: seq<Evidence>) | Unavailable | Error(detail: Trouble)

  datatype Decision = Decision(
    resolved: bool, expected: Value, sources: seq<Source>, evidence: seq<Evidence>, abstention: Option<Trouble>)

  function Abstain(reason: Trouble): Decision {
    Decision(false, None, [], [], Some(reason))
  }

  function ReferenceReading(a: Assignment, column: Column): Reading {
    match Probe(column, a.reference)
    case None => Error(ReferenceFailed)
    case Some(v) => Resolved(FromReference, v, [ReferenceProgram])
  }

  /** The accepted solutions other than the reference, in order. */
  function Controls(a: Assignment): seq<ProgramVariant> {
    WithoutId(a.accepted, a.reference.id)
  }

  function WithoutId(ps: seq<ProgramVariant>, id: string): (r: seq<ProgramVariant>)
    ensures forall p :: p in r <==> p in ps && p.id != id
  {
    if ps == [] then []
    else
      var front := WithoutId(ps[..|ps| - 1], id);
      var last := ps[|ps| - 1];
      assert ps == ps[..|ps| - 1] + [last];
      if last.id == id then front else front + [last]
  }

  function ControlEvidence(controls: seq<ProgramVariant>): seq<Evidence> {
    seq(|controls|, i requires 0 <= i < |controls| => Control(controls[i].id))
  }

  function ConsensusReading(controls: seq<ProgramVariant>, column: Column): Reading {
    if controls == [] then Unavailable
    else if exists c | c in controls :: Probe(column, c).None? then Error(ControlFailed)
    else
      var first := Probe(column, controls[0]).value;
      if exists c | c in controls :: !PyEq(Probe(column, c).value, first)
      then Error(ControlsDisagreed)
      else Resolved(FromConsensus, first, ControlEvidence(controls))
  }

  /** What the loop over the controls has gathered: their values, the evidence and the distinct keys. */
  datatype Gathered = Gathered(values: seq<Atom>, evidence: seq<Evidence>, keys: set<AtomKey>)

  ghost predicate Gathers(g: Gathered, controls: seq<ProgramVariant>, column: Column) {
    && |g.values| == |controls| && g.evidence == ControlEvidence(controls)
    && (forall j | 0 <= j < |controls| :: Probe(column, controls[j]) == Some(g.values[j]))
    && g.keys == set j | 0 <= j < |g.values| :: Key(g.values[j])
  }

  lemma GathersStep(g: Gathered, controls: seq<ProgramVariant>, column: Column, c: ProgramVariant, v: Atom)
    requires Gathers(g, controls, column) && Probe(column, c) == Some(v)
    ensures Gathers(Gathered(g.values + [v], g.evidence + [Control(c.id)], g.keys + {Key(v)}), controls + [c], column)
  {
    var values := g.values + [v];
    assert forall j | 0 <= j < |g.values| :: values[j] == g.values[j];
    assert values[|g.values|] == v;
  }

  method GatherControls(controls: seq<ProgramVariant>, column: Column) returns (g: Option<Gathered>)
    ensures g.Some? ==> Gathers(g.value, controls, column)
    ensures g.None? ==> exists c | c in controls :: Probe(column, c).None?
  {
    var now := Gathered([], [], {});
    for i := 0 to |controls|
      invariant Gathers(now, controls[..i], column)
    {
      assert controls[i] in controls;
      match Probe(column, controls[i]) {
        case None =>
          return None;
        case Some(v) =>
          GathersStep(now, controls[..i], column, controls[i], v);
          assert controls[..i + 1] == controls[..i] + [controls[i]];
          now := Gathered(now.values + [v], now.evidence + [Control(controls[i].id)], now.keys + {Key(v)});
      }
    }
    assert controls[..|controls|] == controls;
    g := Some(now);
  }

  lemma GatheredAgree(g: Gathered, controls: seq<ProgramVariant>, column: Column)
    requires Gathers(g, controls, column) && controls != []
    ensures ConsensusReading(controls, column)
         == if |g.keys| != 1 then Error(ControlsDisagreed) else Resolved(FromConsensus, g.values[0], g.evidence)
  {
    var k := Key(g.values[0]);
    assert k in g.keys;
    if |g.keys| != 1 {
      AllSameIsSingleton(g.keys, k);
      var j :| 0 <= j < |g.values| && Key(g.values[j]) != k;
      assert controls[j] in controls;
    } else {
      assert |g.keys - {k}| == 0;
      assert forall j | 0 <= j < |g.values| :: Key(g.values[j]) in g.keys;
    }
  }

  method EvaluateConsensus(a: Assignment, column: Column) returns (r: Reading)
    ensures r == ConsensusReading(Controls(a), column)
  {
    var controls := Controls(a);
    if controls == [] {
      return Unavailable;
    }
    var gathered := GatherControls(controls, column);
    if gathered.None? {
      return Error(ControlFailed);
    }
    var g := gathered.value;
    GatheredAgree(g, controls, column);
    r := if |g.keys| != 1 then Error(ControlsDisagreed) else Resolved(FromConsensus, g.values[0], g.evidence);
  }

  lemma AllSameIsSingleton(keys: set<AtomKey>, k: AtomKey)
    requires k in keys && |keys| != 1
    ensures exists q | q in keys :: q != k
  {
    assert keys != {k};
    var q :| q in keys && q != k;
  }

  /** An instructor case on exactly these inputs that says what to expect. */
  predicate Matches(t: TestCase, inputs: seq<int>) {
    t.inputs == inputs && t.expected.Some?
  }

  /** The case at `i` is the first one that matches. */
  ghost predicate IsFixture(tests: seq<TestCase>, inputs: seq<int>, i: int) {
    && 0 <= i < |tests| && tests[i].inputs == inputs && tests[i].expected.Some?
    && forall j | 0 <= j < i :: tests[j].inputs == inputs ==> tests[j].expected.None?
  }

  /** What the reviewed instructor cases say of these inputs: the first that matches, if any. */
  function FixtureReading(tests: seq<TestCase>, inputs: seq<int>): Reading {
    if tests == [] then Unavailable
    else if Matches(tests[0], inputs) then CaseReading(tests[0]) else FixtureReading(tests[1..], inputs)
  }

  function CaseReading(t: TestCase): Reading
    requires t.expected.Some?
  {
    Resolved(FromFixture, t.expected.value, [Fixture(t.testLabel)])
  }

  /** The reading resolves exactly when some case is on these inputs, and then to the first such case's value. */
  lemma {:induction false} FixtureMeaning(tests: seq<TestCase>, inputs: seq<int>)
    ensures FixtureReading(tests, inputs) == Unavailable || FixtureReading(tests, inputs).Resolved?
    ensures FixtureReading(tests, inputs).Resolved? <==>
              exists i :: 0 <= i < |tests| && tests[i].inputs == inputs && tests[i].expected.Some?
    ensures FixtureReading(tests, inputs).Resolved? ==> exists i :: IsFixture(tests, inputs, i)
    ensures forall i | IsFixture(tests, inputs, i) ::
              FixtureReading(tests, inputs) == Resolved(FromFixture, tests[i].expected.value, [Fixture(tests[i].testLabel)])
  {
    if tests != [] {
      var rest := tests[1..];
      FixtureMeaning(rest, inputs);
      if Matches(tests[0], inputs) {
        assert IsFixture(tests, inputs, 0);
      } else {
        forall i | IsFixture(tests, inputs, i)
          ensures i > 0 && IsFixture(rest, inputs, i - 1)
        {
          assert forall j | 0 <= j < i - 1 :: rest[j] == tests[j + 1];
        }
        if FixtureReading(rest, inputs).Resolved? {
          var k :| IsFixture(rest, inputs, k);
          assert tests[k + 1] == rest[k];
          assert forall j | 0 < j < k + 1 :: tests[j] == rest[j - 1];
          assert IsFixture(tests, inputs, k + 1);
        }
        assert forall i | 0 < i < |tests| :: tests[i] == rest[i - 1];
      }
    }
  }

  /** The scan with its early return. */
  method EvaluateFixture(tests: seq<TestCase>, inputs: seq<int>) returns (r: Reading)
    ensures r.Resolved? <==> exists i :: 0 <= i < |tests| && tests[i].inputs == inputs && tests[i].expected.Some?
    ensures r.Resolved? ==>
              exists i :: IsFixture(tests, inputs, i)
                          && r == Resolved(FromFixture, tests[i].expected.value, [Fixture(tests[i].testLabel)])
    ensures !r.Resolved? ==> r == Unavailable
    ensures r == FixtureReading(tests, inputs)
  {
    FixtureMeaning(tests, inputs);
    for i := 0 to |tests|
      invariant forall j | 0 <= j < i :: tests[j].inputs == inputs ==> tests[j].expected.None?
    {
      if tests[i].inputs == inputs && tests[i].expected.Some? {
        assert IsFixture(tests, inputs, i);
        return Resolved(FromFixture, tests[i].expected.value, [Fixture(tests[i].testLabel)]);
      }
    }
    return Unavailable;
  }

  /** The first matching instructor case, if there is one, expects this value. */
  ghost predicate FixtureAgrees(tests: seq<TestCase>, inputs: seq<int>, v: Atom) {
    forall i | IsFixture(tests, inputs, i) :: PyEq(tests[i].expected.value, v)
  }

  lemma FixtureAgreesIff(tests: seq<TestCase>, inputs: seq<int>, v: Atom)
    ensures var f := FixtureReading(tests, inputs); !f.Error? && (FixtureAgrees(tests, inputs, v) <==> (f.Resolved? ==> PyEq(f.value, v)))
  {
    FixtureMeaning(tests, inputs);
    if FixtureReading(tests, inputs).Resolved? {
      var i :| IsFixture(tests, inputs, i);
    }
  }

  function FirstError(readings: seq<Reading>): Option<Trouble> {
    if readings == [] then None
    else if readings[0].Error? then Some(readings[0].detail)
    else FirstError(readings[1..])
  }

  function ResolvedOnly(readings: seq<Reading>): (r: seq<Reading>)
    ensures forall x | x in r :: x.Resolved?
    ensures forall x | x in readings && x.Resolved? :: x in r
  {
    if readings == [] then []
    else (if readings[0].Resolved? then [readings[0]] else []) + ResolvedOnly(readings[1..])
  }

  function Flatten(ss: seq<seq<Evidence>>): seq<Evidence> {
    if ss == [] then [] else ss[0] + Flatten(ss[1..])
  }

  function Combine(readings: seq<Reading>): Decision {
    var error := FirstError(readings);
    if error.Some? then Abstain(error.value)
    else Settle(ResolvedOnly(readings))
  }

  /** Resolve to the first source's value when all the sources that answered agree with it. */
  function Settle(resolved: seq<Reading>): Decision
    requires forall x | x in resolved :: x.Resolved?
  {
    if resolved == [] then Abstain(NoSource)
    else
      var evidence := Flatten(seq(|resolved|, i requires 0 <= i < |resolved| => resolved[i].evidence));
      if exists x | x in resolved :: !PyEq(x.value, resolved[0].value)
      then Decision(false, None, [], evidence, Some(SourcesDisagreed))
      else
        Decision(true, Some(resolved[0].value),
                 seq(|resolved|, i requires 0 <= i < |resolved| => resolved[i].source), evidence, None)
  }

  function Decide(a: Assignment, inputs: seq<int>, column: Column): Decision {
    Combine([ReferenceReading(a, column), ConsensusReading(Controls(a), column),
             FixtureReading(a.instructorTests, inputs)])
  }

  method EvaluateDecision(a: Assignment, inputs: seq<int>, column: Column) returns (d: Decision)
    ensures d == Decide(a, inputs, column)
  {
    var consensus := EvaluateConsensus(a, column);
    var fixture := EvaluateFixture(a.instructorTests, inputs);
    d := Combine([ReferenceReading(a, column), consensus, fixture]);
  }

  ghost predicate ControlsShow(a: Assignment, column: Column, v: Atom) {
    forall p | p in a.accepted && p.id != a.reference.id ::
      Probe(column, p).Some? && PyEq(Probe(column, p).value, v)
  }

  /** What agreement means: reference, every control and the matching fixture all show v. */
  ghost predicate Unanimous(a: Assignment, inputs: seq<int>, column: Column, v: Atom) {
    && Probe(column, a.reference) == Some(v)
    && ControlsShow(a, column, v)
    && FixtureAgrees(a.instructorTests, inputs, v)
  }

  /** The composite resolves exactly the unanimous inputs, and with the reference's own value. */
  lemma DecideIffUnanimous(a: Assignment, inputs: seq<int>, column: Column)
    ensures var d := Decide(a, inputs, column);
            && (d.resolved <==> d.expected.Some?)
            && (forall v :: d.expected == Some(v) <==> Unanimous(a, inputs, column, v))
  {
    var r, c, f := ReferenceReading(a, column), ConsensusReading(Controls(a), column),
                   FixtureReading(a.instructorTests, inputs);
    forall v: Atom {:trigger Some(v)}
      ensures !f.Error? && (FixtureAgrees(a.instructorTests, inputs, v) <==> (f.Resolved? ==> PyEq(f.value, v)))
    {
      FixtureAgreesIff(a.instructorTests, inputs, v);
    }
    FixtureMeaning(a.instructorTests, inputs);
    CombineThree(r, c, f);
    ConsensusMeaning(a, column);
  }

  ghost predicate ControlMissing(a: Assignment, column: Column) {
    exists p | p in a.accepted && p.id != a.reference.id :: Probe(column, p).None?
  }

  ghost predicate ControlsDiffer(a: Assignment, column: Column) {
    exists p, q | p in a.accepted && q in a.accepted && p.id != a.reference.id && q.id != a.reference.id ::
      Probe(column, p).Some? && Probe(column, q).Some? && !PyEq(Probe(column, p).value, Probe(column, q).value)
  }

  /** Why an abstention abstains: the first of the four troubles that there is. */
  lemma AbstentionTells(a: Assignment, inputs: seq<int>, column: Column)
    ensures Decide(a, inputs, column).abstention ==
              if Probe(column, a.reference).None? then Some(ReferenceFailed)
              else if ControlMissing(a, column) then Some(ControlFailed)
              else if ControlsDiffer(a, column) then Some(ControlsDisagreed)
              else if !Unanimous(a, inputs, column, Probe(column, a.reference).value) then Some(SourcesDisagreed)
              else None
  {
    var r, c, f := ReferenceReading(a, column), ConsensusReading(Controls(a), column),
                   FixtureReading(a.instructorTests, inputs);
    FixtureMeaning(a.instructorTests, inputs);
    ConsensusTrouble(a, column);
    ReadingsUnfold(r, c, f);
    DecideIffUnanimous(a, inputs, column);
    if r.Resolved? && !c.Error? {
      SettleMeaning(ResolvedOnly([r, c, f]), r, c, f);
      assert Decide(a, inputs, column) == Settle(ResolvedOnly([r, c, f]));
      assert Decide(a, inputs, column).resolved <==> Unanimous(a, inputs, column, r.value);
    }
  }

  lemma ConsensusTrouble(a: Assignment, column: Column)
    ensures var c := ConsensusReading(Controls(a), column);
      && (c == Error(ControlFailed) <==> ControlMissing(a, column))
      && (c == Error(ControlsDisagreed) <==> !ControlMissing(a, column) && ControlsDiffer(a, column))
      && (c.Error? ==> c.detail == ControlFailed || c.detail == ControlsDisagreed)
  {
    var controls := Controls(a);
    var c := ConsensusReading(controls, column);
    assert forall p :: p in controls <==> p in a.accepted && p.id != a.reference.id;
    if controls != [] {
      assert controls[0] in controls;
      if !ControlMissing(a, column) && ControlsDiffer(a, column) {
        var p, q :| p in controls && q in controls && Probe(column, p).Some? && Probe(column, q).Some?
                    && !PyEq(Probe(column, p).value, Probe(column, q).value);
      }
    }
  }

  /** What a resolved decision rests on: the reference, every control in order, and the matching case if there is one. */
  lemma EvidenceTells(a: Assignment, inputs: seq<int>, column: Column, i: int)
    requires Decide(a, inputs, column).resolved && IsFixture(a.instructorTests, inputs, i)
    ensures Decide(a, inputs, column).evidence
         == [ReferenceProgram] + ControlEvidence(Controls(a)) + [Fixture(a.instructorTests[i].testLabel)]
  {
    var r, c, f := ReferenceReading(a, column), ConsensusReading(Controls(a), column),
                   FixtureReading(a.instructorTests, inputs);
    FixtureMeaning(a.instructorTests, inputs);
    CombineThree(r, c, f);
    ReadingsUnfold(r, c, f);
    SettleEvidence(r, c, f);
    ControlsEvidence(a, column);
  }

  lemma ControlsEvidence(a: Assignment, column: Column)
    ensures var c := ConsensusReading(Controls(a), column);
      !c.Error? ==> (if c.Resolved? then c.evidence else []) == ControlEvidence(Controls(a))
  {
  }

  lemma SettleEvidence(r: Reading, c: Reading, f: Reading)
    requires r.Resolved? && !c.Error? && f.Resolved?
    requires ResolvedOnly([r, c, f]) == [r] + ((if c.Resolved? then [c] else []) + [f])
    ensures Settle(ResolvedOnly([r, c, f])).resolved ==>
              Settle(ResolvedOnly([r, c, f])).evidence == r.evidence + (if c.Resolved? then c.evidence else []) + f.evidence
  {
    var resolved := ResolvedOnly([r, c, f]);
    var all := seq(|resolved|, i requires 0 <= i < |resolved| => resolved[i].evidence);
    if c.Resolved? {
      assert resolved == [r, c, f];
      assert all == [r.evidence, c.evidence, f.evidence];
      FlattenThree(r.evidence, c.evidence, f.evidence);
    } else {
      assert resolved == [r, f];
      assert all == [r.evidence, f.evidence];
      FlattenThree(r.evidence, [], f.evidence);
      assert r.evidence + [] + f.evidence == r.evidence + f.evidence;
    }
  }

  lemma FlattenThree(x: seq<Evidence>, y: seq<Evidence>, z: seq<Evidence>)
    ensures Flatten([x, y, z]) == x + y + z && Flatten([x, z]) == x + z
  {
    assert [x, y, z][1..] == [y, z] && [y, z][1..] == [z] && [z][1..] == [] && [x, z][1..] == [z];
    assert Flatten([z]) == z + Flatten([]) && z + [] == z;
    assert Flatten([y, z]) == y + z;
    assert x + (y + z) == x + y + z;
  }

  lemma CombineThree(r: Reading, c: Reading, f: Reading)
    requires !r.Unavailable? && !f.Error?
    ensures Combine([r, c, f]).resolved <==> Combine([r, c, f]).expected.Some?
    ensures Combine([r, c, f]).resolved <==>
            r.Resolved? && !c.Error? && (c.Resolved? ==> PyEq(c.value, r.value)) && (f.Resolved? ==> PyEq(f.value, r.value))
    ensures Combine([r, c, f]).resolved ==> Combine([r, c, f]).expected == Some(r.value)
  {
    ReadingsUnfold(r, c, f);
    if r.Resolved? && !c.Error? {
      SettleMeaning(ResolvedOnly([r, c, f]), r, c, f);
    }
  }

  lemma SettleMeaning(resolved: seq<Reading>, r: Reading, c: Reading, f: Reading)
    requires forall x | x in resolved :: x.Resolved?
    requires r.Resolved?
    requires resolved == [r] + ((if c.Resolved? then [c] else []) + (if f.Resolved? then [f] else []))
    ensures Settle(resolved).resolved <==> (c.Resolved? ==> PyEq(c.value, r.value)) && (f.Resolved? ==> PyEq(f.value, r.value))
    ensures Settle(resolved).expected == if Settle(resolved).resolved then Some(r.value) else None
  {
    assert resolved[0] == r;
    assert forall x :: x in resolved <==> x == r || (x == c && c.Resolved?) || (x == f && f.Resolved?);
  }

  lemma ReadingsUnfold(r: Reading, c: Reading, f: Reading)
    requires !f.Error?
    ensures FirstError([r, c, f]) == if r.Error? then Some(r.detail) else if c.Error? then Some(c.detail) else None
    ensures ResolvedOnly([r, c, f]) == (if r.Resolved? then [r] else []) +
                                       ((if c.Resolved? then [c] else []) + (if f.Resolved? then [f] else []))
  {
    assert [r, c, f][1..] == [c, f] && [c, f][1..] == [f] && [f][1..] == [];
    assert FirstError([f]) == None;
    assert FirstError([c, f]) == if c.Error? then Some(c.detail) else None;
    assert ResolvedOnly([f]) == if f.Resolved? then [f] else [];
    assert ResolvedOnly([c, f]) == (if c.Resolved? then [c] else []) + ResolvedOnly([f]);
  }

  lemma ConsensusMeaning(a: Assignment, column: Column)
    ensures var c := ConsensusReading(Controls(a), column);
            forall v: Atom {:trigger Some(v)} :: (!c.Error? && (c.Resolved? ==> PyEq(c.value, v))) <==> ControlsShow(a, column, v)
  {
    var controls := Controls(a);
    var c := ConsensusReading(controls, column);
    if controls != [] { assert controls[0] in controls; }
    forall v: Atom ensures (!c.Error? && (c.Resolved? ==> PyEq(c.value, v))) <==> ControlsShow(a, column, v) {
      if ControlsShow(a, column, v) {
        assert forall p | p in controls :: Probe(column, p).Some? && PyEq(Probe(column, p).value, v);
      }
      if !c.Error? && (c.Resolved? ==> PyEq(c.value, v)) {
        forall p | p in a.accepted && p.id != a.reference.id
          ensures Probe(column, p).Some? && PyEq(Probe(column, p).value, v)
        {
          assert p in controls;
        }
      }
    }
  }
}
