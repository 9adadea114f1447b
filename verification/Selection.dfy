/** Verdicts, and the selection of one verified verdict (src/coursefuzz/domain/engine.py:96-108). */
module Selection {
  import opened Wrappers
  import opened Ordering
  import opened RestrictedLanguage

  datatype Hypothesis = Hypothesis(id: string, inputs: seq<int>)

  datatype Reason = WrongArity | OutsideDomain | OracleAbstained | NoDivergence | Divergence

  datatype Verdict = Verdict(
    hypothesis: Hypothesis, verified: bool, reason: Reason, expected: Value, actual: Value, killed: seq<string>)

  /** The numeric head of the sort key: most kills, then smallest inputs. */
  function Head(v: Verdict): seq<int>
    requires v.hypothesis.inputs != []
  {
    [-|v.killed|, SumAbs(v.hypothesis.inputs), MaxAbs(v.hypothesis.inputs)]
  }

  /** Python's order on the key tuples (head, inputs, hypothesis id). */
  predicate KeyLe(a: Verdict, b: Verdict)
    requires a.hypothesis.inputs != [] && b.hypothesis.inputs != []
  {
    if Head(a) != Head(b) then LexLe(Head(a), Head(b))
    else if a.hypothesis.inputs != b.hypothesis.inputs then LexLe(a.hypothesis.inputs, b.hypothesis.inputs)
    else LexLe(Codes(a.hypothesis.id), Codes(b.hypothesis.id))
  }

  ghost predicate Comparable(vs: seq<Verdict>) {
    forall v | v in vs :: v.hypothesis.inputs != []
  }

  ghost predicate IsLeast(s: Verdict, vs: seq<Verdict>)
    requires Comparable(vs)
  {
    s in vs && forall v | v in vs :: KeyLe(s, v)
  }

  /**
    The tie-break, criterion by criterion: more kills come first, then the smaller sum of magnitudes, then the
    smaller largest magnitude, then the smaller inputs as a tuple, and last the smaller identifier.
  */
  lemma KeyOrder(a: Verdict, b: Verdict)
    requires a.hypothesis.inputs != [] && b.hypothesis.inputs != []
    ensures var x, y := a.hypothesis.inputs, b.hypothesis.inputs;
      KeyLe(a, b) <==>
        if |a.killed| != |b.killed| then |a.killed| > |b.killed|
        else if SumAbs(x) != SumAbs(y) then SumAbs(x) < SumAbs(y)
        else if MaxAbs(x) != MaxAbs(y) then MaxAbs(x) < MaxAbs(y)
        else if x != y then x <= y || exists k :: FirstSmallerAt(x, y, k)
        else Codes(a.hypothesis.id) <= Codes(b.hypothesis.id)
             || exists k :: FirstSmallerAt(Codes(a.hypothesis.id), Codes(b.hypothesis.id), k)
  {
    HeadOrder(-|a.killed|, SumAbs(a.hypothesis.inputs), MaxAbs(a.hypothesis.inputs),
              -|b.killed|, SumAbs(b.hypothesis.inputs), MaxAbs(b.hypothesis.inputs));
    LexLeIff(a.hypothesis.inputs, b.hypothesis.inputs);
    LexLeIff(Codes(a.hypothesis.id), Codes(b.hypothesis.id));
  }

  lemma HeadOrder(a: int, b: int, c: int, x: int, y: int, z: int)
    ensures [a, b, c] == [x, y, z] <==> a == x && b == y && c == z
    ensures LexLe([a, b, c], [x, y, z]) <==> if a != x then a < x else if b != y then b < y else c <= z
  {
    assert [a, b, c][1..] == [b, c] && [x, y, z][1..] == [y, z];
    assert [b, c][1..] == [c] && [y, z][1..] == [z];
    assert [a, b, c][0] == a && [a, b, c][1] == b && [a, b, c][2] == c;
    assert [x, y, z][0] == x && [x, y, z][1] == y && [x, y, z][2] == z;
    assert LexLe([c], [z]) <==> c <= z;
    assert LexLe([b, c], [y, z]) <==> b < y || (b == y && c <= z);
  }

  lemma KeyTotal(a: Verdict, b: Verdict)
    requires a.hypothesis.inputs != [] && b.hypothesis.inputs != []
    ensures KeyLe(a, b) || KeyLe(b, a)
  {
    LexTotal(Head(a), Head(b));
    LexTotal(a.hypothesis.inputs, b.hypothesis.inputs);
    LexTotal(Codes(a.hypothesis.id), Codes(b.hypothesis.id));
  }

  lemma KeyAntisymmetric(a: Verdict, b: Verdict)
    requires a.hypothesis.inputs != [] && b.hypothesis.inputs != []
    requires KeyLe(a, b) && KeyLe(b, a)
    ensures a.hypothesis == b.hypothesis && |a.killed| == |b.killed|
  {
    if Head(a) != Head(b) {
      LexAntisymmetric(Head(a), Head(b));
    } else if a.hypothesis.inputs != b.hypothesis.inputs {
      LexAntisymmetric(a.hypothesis.inputs, b.hypothesis.inputs);
    } else {
      LexAntisymmetric(Codes(a.hypothesis.id), Codes(b.hypothesis.id));
      CodesInjective(a.hypothesis.id, b.hypothesis.id);
    }
    assert Head(a)[0] == Head(b)[0];
  }

  lemma KeyTransitive(a: Verdict, b: Verdict, c: Verdict)
    requires a.hypothesis.inputs != [] && b.hypothesis.inputs != [] && c.hypothesis.inputs != []
    requires KeyLe(a, b) && KeyLe(b, c)
    ensures KeyLe(a, c)
  {
    if Head(a) != Head(b) || Head(b) != Head(c) {
      HeadLe(a, b);
      HeadLe(b, c);
      LexTransitive(Head(a), Head(b), Head(c));
      if Head(a) == Head(c) { LexAntisymmetric(Head(a), Head(b)); }
    } else if a.hypothesis.inputs != b.hypothesis.inputs || b.hypothesis.inputs != c.hypothesis.inputs {
      var x, y, z := a.hypothesis.inputs, b.hypothesis.inputs, c.hypothesis.inputs;
      LexTotal(x, x);
      LexTotal(z, z);
      LexTransitive(x, y, z);
      if x == z { LexAntisymmetric(x, y); }
    } else {
      LexTransitive(Codes(a.hypothesis.id), Codes(b.hypothesis.id), Codes(c.hypothesis.id));
    }
  }

  lemma HeadLe(a: Verdict, b: Verdict)
    requires a.hypothesis.inputs != [] && b.hypothesis.inputs != [] && KeyLe(a, b)
    ensures LexLe(Head(a), Head(b))
  {
    LexTotal(Head(a), Head(a));
  }

  /** Python's `min`: the first verdict no other one precedes. */
  method SelectMin(vs: seq<Verdict>) returns (s: Verdict)
    requires vs != [] && Comparable(vs)
    ensures IsLeast(s, vs)
    ensures exists i :: 0 <= i < |vs| && vs[i] == s && forall j :: 0 <= j < i ==> !KeyLe(vs[j], s)
  {
    s := vs[0];
    KeyTotal(s, s);
    ghost var at := 0;
    for i := 1 to |vs|
      invariant 0 <= at < i && vs[at] == s
      invariant forall j :: 0 <= j < i ==> KeyLe(s, vs[j])
      invariant forall j :: 0 <= j < at ==> !KeyLe(vs[j], s)
    {
      if !KeyLe(s, vs[i]) {
        KeyTotal(s, vs[i]);
        forall j | 0 <= j < i ensures KeyLe(vs[i], vs[j]) && !KeyLe(vs[j], vs[i]) {
          KeyTransitive(vs[i], s, vs[j]);
          if KeyLe(vs[j], vs[i]) { KeyTransitive(s, vs[j], vs[i]); }
        }
        KeyTotal(vs[i], vs[i]);
        s, at := vs[i], i;
      }
    }
  }

  /** No verified verdict covers more survivors than the selected one. */
  lemma LeastKillsMost(s: Verdict, vs: seq<Verdict>, v: Verdict)
    requires Comparable(vs) && IsLeast(s, vs) && v in vs
    ensures |s.killed| >= |v.killed|
  {
    HeadLe(s, v);
    assert Head(s)[0] <= Head(v)[0];
  }

  /** With unique hypothesis ids the choice does not depend on the order of the verdicts. */
  lemma LeastIsOrderFree(vs: seq<Verdict>, ws: seq<Verdict>, s: Verdict, t: Verdict)
    requires Comparable(vs) && Comparable(ws) && multiset(vs) == multiset(ws)
    requires forall v, w | v in vs && w in vs && v.hypothesis.id == w.hypothesis.id :: v == w
    requires IsLeast(s, vs) && IsLeast(t, ws)
    ensures s == t
  {
    assert forall v :: v in vs <==> v in multiset(vs);
    assert forall v :: v in ws <==> v in multiset(ws);
    KeyAntisymmetric(s, t);
  }
}
