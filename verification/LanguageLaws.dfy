/** What the operators, comparisons and statements of the restricted language mean to each other. */
module LanguageLaws {
  import opened Ordering
  import opened RestrictedLanguage
  import opened Wrappers

  // ---------------------------------------------------------------- chained comparison, and, or

  function One(op: CmpOp, e: Expr): Links { Link(op, e, NoLink) }

  function And(a: Expr, b: Expr): Expr { BoolOp(true, More(a, Last(b))) }
  function Or(a: Expr, b: Expr): Expr { BoolOp(false, More(a, Last(b))) }

  /** One comparison: operands from the left, then the comparison itself, a Boolean unless something raises. */
  lemma OneLink(a: Expr, op: CmpOp, b: Expr, env: Env)
    ensures Eval(Compare(a, One(op, b)), env) ==
              if Eval(a, env).Failure? then Eval(a, env)
              else if Eval(b, env).Failure? then Eval(b, env)
              else AsOutcome(Says(op, Eval(a, env).value, Eval(b, env).value))
  {
    if Eval(a, env).Success? {
      LastLink(Eval(a, env).value, op, b, env);
    }
  }

  lemma LastLink(v: Value, op: CmpOp, b: Expr, env: Env)
    ensures EvalLinks(v, One(op, b), env) ==
              if Eval(b, env).Failure? then Eval(b, env) else AsOutcome(Says(op, v, Eval(b, env).value))
  {
    if Eval(b, env).Success? {
      assert EvalLinks(Eval(b, env).value, NoLink, env) == Success(Some(BoolAtom(true)));
    }
  }

  function AsOutcome(r: Result<bool, Error>): Outcome {
    match r
    case Success(b) => Success(Some(BoolAtom(b)))
    case Failure(e) => Failure(e)
  }

  /** The result of one comparison of two values: true, false, or an error. */
  function Says(op: CmpOp, a: Value, b: Value): Result<bool, Error> { CompareValues(op, a, b) }

  /** `a op b more...` is `a op b and b more...`, errors included. */
  lemma ChainIsAnd(a: Expr, op: CmpOp, b: Expr, more: Links, env: Env)
    requires more.Link?
    ensures Eval(Compare(a, Link(op, b, more)), env) == Eval(And(Compare(a, One(op, b)), Compare(b, more)), env)
  {
    var first, second := Compare(a, One(op, b)), Compare(b, more);
    OneLink(a, op, b, env);
    AndOrMeaning(first, second, env);
    if Eval(a, env).Success? && Eval(b, env).Success? && Says(op, Eval(a, env).value, Eval(b, env).value).Success? {
      var holds := Says(op, Eval(a, env).value, Eval(b, env).value).value;
      assert Eval(first, env) == Success(Some(BoolAtom(holds)));
      assert Truthy(Some(BoolAtom(holds))) == holds;
    }
  }

  /** The truth of an expression; None when it raises. */
  function Truth(e: Expr, env: Env): Option<bool> {
    match Eval(e, env)
    case Success(v) => Some(Truthy(v))
    case Failure(_) => None
  }

  /** `and` and `or` ask their second operand only when the first does not decide, and give back an operand. */
  lemma AndOrMeaning(a: Expr, b: Expr, env: Env)
    ensures Eval(And(a, b), env) == if Truth(a, env) == Some(true) then Eval(b, env) else Eval(a, env)
    ensures Eval(Or(a, b), env) == if Truth(a, env) == Some(false) then Eval(b, env) else Eval(a, env)
  {
    assert EvalOperands(true, Last(b), env) == Eval(b, env) && EvalOperands(false, Last(b), env) == Eval(b, env);
    assert Eval(And(a, b), env) == EvalOperands(true, More(a, Last(b)), env);
    assert Eval(Or(a, b), env) == EvalOperands(false, More(a, Last(b)), env);
  }

  /** Operands group: a longer `and` or `or` is one of two. */
  lemma OperandsGroup(conj: bool, e: Expr, rest: Operands, env: Env)
    ensures Eval(BoolOp(conj, More(e, rest)), env) == Eval(BoolOp(conj, More(e, Last(BoolOp(conj, rest)))), env)
  {
    var grouped := More(e, Last(BoolOp(conj, rest)));
    assert grouped.rest == Last(BoolOp(conj, rest));
    assert EvalOperands(conj, Last(BoolOp(conj, rest)), env) == Eval(BoolOp(conj, rest), env);
  }

  /** An expression that is true exactly when e is not, and raises when e does. */
  predicate Opposite(e: Expr, n: Expr, env: Env) {
    (Truth(e, env).None? <==> Truth(n, env).None?) && (Truth(e, env).Some? ==> Truth(n, env) == Some(!Truth(e, env).value))
  }

  /** De Morgan for truth values: negating both operands turns `and` into the negation of `or`. */
  lemma DeMorgan(a: Expr, b: Expr, na: Expr, nb: Expr, env: Env)
    requires Opposite(a, na, env) && Opposite(b, nb, env)
    ensures Opposite(And(a, b), Or(na, nb), env)
    ensures Opposite(Or(a, b), And(na, nb), env)
  {
    AndOrMeaning(a, b, env);
    AndOrMeaning(na, nb, env);
  }

  // ---------------------------------------------------------------- order and equality

  /** Values `<` compares: two numbers, or two texts. */
  predicate Comparable(a: Value, b: Value) {
    a.Some? && b.Some? && (a.value.StrAtom? <==> b.value.StrAtom?)
  }

  lemma TextOrder(s: string, t: string)
    ensures !(StringLess(s, t) && StringLess(t, s)) && !StringLess(s, s)
    ensures s != t ==> StringLess(s, t) || StringLess(t, s)
  {
    if s != [] && t != [] {
      TextOrder(s[1..], t[1..]);
      if s[0] == t[0] && s[1..] == t[1..] {
        assert s == [s[0]] + s[1..] && t == [t[0]] + t[1..];
      }
      assert s == t ==> s[1..] == t[1..];
    } else if s != [] {
      assert !StringLess(s, t);
    }
  }

  /** Exactly one of less, equal and greater holds; the other operators follow, and ordering anything else raises. */
  lemma Trichotomy(a: Value, b: Value)
    requires Comparable(a, b)
    ensures forall op :: Says(op, a, b).Success?
    ensures var lt, eq, gt := Says(Lt, a, b).value, Says(Eq, a, b).value, Says(Gt, a, b).value;
      && (lt || eq || gt) && !(lt && eq) && !(lt && gt) && !(eq && gt)
      && Says(LtE, a, b).value == (lt || eq) && Says(GtE, a, b).value == (gt || eq) && Says(NotEq, a, b).value == !eq
      && Says(Gt, b, a).value == lt && Says(Eq, b, a).value == eq
  {
    if a.value.StrAtom? { TextOrder(a.value.s, b.value.s); }
  }

  lemma OrderRaisesIff(op: CmpOp, a: Value, b: Value)
    requires op.Lt? || op.LtE? || op.Gt? || op.GtE?
    ensures Says(op, a, b) == Failure(TypeError) <==> !Comparable(a, b)
    ensures Says(op, a, b).Success? <==> Comparable(a, b)
  {
  }

  /** Which way the order goes: on integers by the sign of the difference, on texts by their code points. */
  lemma OrderGoesUp(x: int, y: int, s: string, t: string)
    ensures Says(Lt, Some(IntAtom(x)), Some(IntAtom(y))) == Success(y - x >= 1)
    ensures Says(Eq, Some(IntAtom(x)), Some(IntAtom(y))) == Success(x - y == 0)
    ensures Says(LtE, Some(StrAtom(s)), Some(StrAtom(t))) == Success(LexLe(Codes(s), Codes(t)))
  {
    TextIsLex(s, t);
  }

  lemma {:induction false} TextIsLex(s: string, t: string)
    ensures StringLess(s, t) || s == t <==> LexLe(Codes(s), Codes(t))
  {
    if s != [] && t != [] {
      TextIsLex(s[1..], t[1..]);
      assert Codes(s)[1..] == Codes(s[1..]) && Codes(t)[1..] == Codes(t[1..]);
      assert s == [s[0]] + s[1..] && t == [t[0]] + t[1..];
      assert s == t ==> s[1..] == t[1..];
      assert s[0] < t[0] <==> s[0] as int < t[0] as int;
    } else if s == [] {
      assert Codes(s) == [];
    } else {
      assert Codes(t) == [] && Codes(s) != [];
    }
  }

  /** Truth values count as one and zero, integers equal the reals of the same value, and None equals only itself. */
  lemma EqualityAcrossTypes(b: bool, i: int, r: real, s: string)
    ensures Says(Eq, Some(BoolAtom(b)), Some(IntAtom(i))) == Success(i == if b then 1 else 0)
    ensures Says(Eq, Some(IntAtom(i)), Some(FloatAtom(r))) == Success(i as real == r)
    ensures Says(Eq, Some(StrAtom(s)), Some(IntAtom(i))) == Success(false)
    ensures Says(Eq, None, Some(IntAtom(i))) == Success(false) && Says(Eq, None, None) == Success(true)
  {
  }

  /** What counts as true: a number other than zero, a nonempty text, never None. */
  lemma TruthMeaning(v: Value)
    ensures Truthy(v) <==> v.Some? && (if v.value.StrAtom? then |v.value.s| > 0
                                       else Says(NotEq, v, Some(IntAtom(0))) == Success(true))
  {
  }

  // ---------------------------------------------------------------- arithmetic

  function Int(x: int): Value { Some(IntAtom(x)) }

  /** On integers: addition commutes, has zero and is undone by subtraction. */
  lemma SumLaws(x: int, y: int)
    ensures Arith(Add, Int(x), Int(y)) == Arith(Add, Int(y), Int(x)) && Arith(Add, Int(x), Int(0)) == Success(Int(x))
    ensures Arith(Add, Int(x), Int(y)).Success?
    ensures Arith(Sub, Arith(Add, Int(x), Int(y)).value, Int(y)) == Success(Int(x))
    ensures Arith(Add, Int(x), Int(1)).Success?
    ensures Says(Lt, Int(x), Arith(Add, Int(x), Int(1)).value) == Success(true)
    ensures Negate(Int(x)) == Arith(Sub, Int(0), Int(x))
  {
  }

  /** Multiplication repeats addition. */
  lemma ProductLaws(x: int, y: int)
    ensures Arith(Mult, Int(x), Int(0)) == Success(Int(0)) && Arith(Mult, Int(x), Int(y)) == Arith(Mult, Int(y), Int(x))
    ensures Arith(Mult, Int(x), Int(y)).Success? && Arith(Add, Int(y), Int(1)).Success?
    ensures Arith(Mult, Int(x), Arith(Add, Int(y), Int(1)).value) == Arith(Add, Arith(Mult, Int(x), Int(y)).value, Int(x))
  {
    assert x * (y + 1) == x * y + x;
  }

  /** The remainder raises for zero; else it differs from the dividend by a multiple and lies between zero and the divisor. */
  lemma RemainderLaws(x: int, y: int)
    ensures y == 0 <==> Arith(Mod, Int(x), Int(y)) == Failure(ZeroDivisionError)
    ensures y != 0 ==>
              && Arith(Mod, Int(x), Int(y)).Success? && Arith(Mod, Int(x), Int(y)).value.Some?
              && Arith(Mod, Int(x), Int(y)).value.value.IntAtom?
              && (var m := Arith(Mod, Int(x), Int(y)).value.value.i;
                  && (exists q :: x == q * y + m)
                  && if y > 0 then 0 <= m < y else y < m <= 0)
  {
    if y != 0 {
      assert Arith(Mod, Int(x), Int(y)) == Success(Int(FloorMod(x, y)));
    }
  }

  /** Truth values are integers to every operator, and None is no operand. */
  lemma OperandKinds(op: ArithOp, b: bool, v: Value)
    ensures Arith(op, Some(BoolAtom(b)), v) == Arith(op, Int(if b then 1 else 0), v)
    ensures Arith(op, v, Some(BoolAtom(b))) == Arith(op, v, Int(if b then 1 else 0))
    ensures Negate(Some(BoolAtom(b))) == Negate(Int(if b then 1 else 0))
    ensures Arith(op, None, v) == Failure(TypeError) && Arith(op, v, None) == Failure(TypeError) && Negate(None) == Failure(TypeError)
  {
  }

  function Real(x: real): Value { Some(FloatAtom(x)) }

  /** On reals the operators are the field's, and an integer beside a real is the real of its value. */
  lemma RealLaws(op: ArithOp, x: real, y: real, i: int)
    ensures Arith(Add, Real(x), Real(y)) == Success(Real(x + y)) && Arith(Sub, Real(x), Real(y)) == Success(Real(x - y))
    ensures Arith(Mult, Real(x), Real(y)) == Success(Real(x * y)) && Negate(Real(x)) == Success(Real(-x))
    ensures Arith(op, Int(i), Real(y)) == Arith(op, Real(i as real), Real(y))
    ensures Arith(op, Real(y), Int(i)) == Arith(op, Real(y), Real(i as real))
  {
    assert AsReal(FloatAtom(x)) == x && AsReal(FloatAtom(y)) == y;
    assert Arith(Mult, Real(x), Real(y)) == RealArith(Mult, x, y);
    assert AsReal(IntAtom(i)) == i as real == AsReal(FloatAtom(i as real));
    assert Arith(op, Int(i), Real(y)) == RealArith(op, i as real, y);
    assert Arith(op, Real(i as real), Real(y)) == RealArith(op, i as real, y);
    assert Arith(op, Real(y), Int(i)) == RealArith(op, y, i as real);
    assert Arith(op, Real(y), Real(i as real)) == RealArith(op, y, i as real);
  }

  /** The real remainder is what is left after the floored quotient, and raises for zero. */
  lemma RealRemainder(x: real, y: real)
    ensures Arith(Mod, Real(x), Real(y)) ==
              if y == 0.0 then Failure(ZeroDivisionError) else Success(Real(x - y * ((x / y).Floor as real)))
  {
    assert AsReal(FloatAtom(x)) == x && AsReal(FloatAtom(y)) == y;
    assert Arith(Mod, Real(x), Real(y)) == RealArith(Mod, x, y);
  }

  lemma OnConstants(op: ArithOp, a: Value, b: Value, env: Env)
    ensures Eval(BinOp(op, Constant(a), Constant(b)), env) == Arith(op, a, b)
    ensures Eval(USub(Constant(a)), env) == Negate(a)
  {
    assert Eval(Constant(a), env) == Success(a) && Eval(Constant(b), env) == Success(b);
  }

  /** Operands are evaluated from the left, and the first error is the expression's. */
  lemma {:induction false} LeftToRight(op: ArithOp, l: Expr, r: Expr, env: Env)
    ensures Eval(BinOp(op, l, r), env) ==
              if Eval(l, env).Failure? then Eval(l, env)
              else if Eval(r, env).Failure? then Eval(r, env)
              else Arith(op, Eval(l, env).value, Eval(r, env).value)
    ensures Eval(USub(l), env) == if Eval(l, env).Failure? then Eval(l, env) else Negate(Eval(l, env).value)
  {
    var whole := BinOp(op, l, r);
    assert whole.BinOp? && whole.left == l && whole.right == r;
    if Eval(l, env).Success? && Eval(r, env).Success? {
      assert Eval(whole, env) == Arith(op, Eval(l, env).value, Eval(r, env).value);
    }
  }

  // ---------------------------------------------------------------- statements and calls

  function Append(a: Block, b: Block): Block {
    match a
    case Empty => b
    case Then(s, rest) => Then(s, Append(rest, b))
  }

  /** What follows a block runs exactly when the block falls through. */
  lemma {:induction false} BlocksInSequence(a: Block, b: Block, env: Env)
    ensures ExecBlock(Append(a, b), env) == if ExecBlock(a, env).FellThrough? then ExecBlock(b, env) else ExecBlock(a, env)
  {
    if a.Then? { BlocksInSequence(a.rest, b, env); }
  }

  function Only(s: Stmt): Block { Then(s, Empty) }

  /** An `if` on a test of the opposite truth with its blocks exchanged is the same `if`, and a true one is its body. */
  lemma IfLaws(test: Expr, opposite: Expr, body: Block, orelse: Block, env: Env)
    requires Opposite(test, opposite, env)
    ensures Truth(test, env).Some? ==>
              ExecBlock(Only(If(test, body, orelse)), env) == ExecBlock(Only(If(opposite, orelse, body)), env)
    ensures Truth(test, env) == Some(true) ==> ExecBlock(Only(If(test, body, orelse)), env) == ExecBlock(body, env)
    ensures Truth(test, env).None? ==> ExecBlock(Only(If(test, body, orelse)), env) == Finished(Eval(test, env))
  {
    IfAlone(test, body, orelse, env);
    IfAlone(opposite, orelse, body, env);
  }

  lemma IfAlone(test: Expr, body: Block, orelse: Block, env: Env)
    ensures ExecBlock(Only(If(test, body, orelse)), env) == ExecStmt(If(test, body, orelse), env)
  {
    assert Only(If(test, body, orelse)).rest == Empty;
  }

  /** A name stands for the last argument bound to a parameter of that name, and for nothing else. */
  lemma {:induction false} BindMeaning(params: seq<string>, inputs: seq<int>, k: nat)
    requires |params| == |inputs| && k < |params|
    requires forall i, j | 0 <= i < j < |params| :: params[i] != params[j]
    ensures Eval(Name(params[k]), Bind(params, inputs)) == Success(Int(inputs[k]))
    ensures forall x | x !in params :: Eval(Name(x), Bind(params, inputs)) == Failure(NameError)
  {
    BindKeys(params, inputs);
    BindAt(params, inputs, k);
  }

  lemma {:induction false} BindKeys(params: seq<string>, inputs: seq<int>)
    requires |params| == |inputs|
    ensures forall x :: x in Bind(params, inputs) <==> x in params
  {
    if params != [] {
      BindKeys(params[1..], inputs[1..]);
      assert params == [params[0]] + params[1..];
    }
  }

  lemma {:induction false} BindAt(params: seq<string>, inputs: seq<int>, k: nat)
    requires |params| == |inputs| && k < |params|
    requires forall i, j | 0 <= i < j < |params| :: params[i] != params[j]
    ensures params[k] in Bind(params, inputs) && Bind(params, inputs)[params[k]] == inputs[k]
  {
    if k > 0 { BindAt(params[1..], inputs[1..], k - 1); }
  }

  /** A call gives what its first finished statement gives, None when none is, and raises for a wrong number of arguments. */
  lemma CallMeaning(f: Function, inputs: seq<int>)
    ensures |f.params| != |inputs| ==> Call(f, inputs) == Failure(TypeError)
    ensures |f.params| == |inputs| ==>
              Call(f, inputs) == if ExecBlock(f.body, Bind(f.params, inputs)).FellThrough? then Success(None)
                                 else ExecBlock(f.body, Bind(f.params, inputs)).outcome
  {
  }

  /** A return ends its block with its value, or with None. */
  lemma ReturnEnds(e: Expr, rest: Block, env: Env)
    ensures ExecBlock(Then(Return(Some(e)), rest), env) == Finished(Eval(e, env))
    ensures ExecBlock(Then(Return(None), rest), env) == Finished(Success(None))
  {
    assert ExecStmt(Return(Some(e)), env) == Finished(Eval(e, env));
    assert ExecStmt(Return(None), env) == Finished(Success(None));
  }

  /** A test passes when the call does not raise and its value equals the expected one, if there is one. */
  lemma PassesIff(f: Function, t: TestCase)
    ensures Passes(f, t) <==>
            Call(f, t.inputs).Success? && (t.expected.None? || Says(Eq, Call(f, t.inputs).value, t.expected) == Success(true))
    ensures Actual(f, t.inputs) == if Call(f, t.inputs).Success? then Call(f, t.inputs).value else None
  {
    match Call(f, t.inputs)
    case Success(v) =>
    case Failure(_) =>
  }
}
