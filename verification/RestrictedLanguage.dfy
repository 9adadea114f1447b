/**
  The restricted Python subset of src/coursefuzz/adapters/runner.py: its syntax (the allowed node
  kinds), its semantics (a terminating interpreter), and the suite loop `run`.
*/
module RestrictedLanguage {
  import opened Wrappers

  // ---------------------------------------------------------------- values

  /** The JSON atoms a program may consume or return; Python's None is Option.None. */
  datatype Atom = BoolAtom(b: bool) | IntAtom(i: int) | FloatAtom(r: real) | StrAtom(s: string)

  /** What Python compares: numbers of every type by their value, so that True == 1 == 1.0. */
  datatype AtomKey = Number(r: real) | Text(s: string)

  function Key(a: Atom): AtomKey {
    match a
    case BoolAtom(b) => Number(if b then 1.0 else 0.0)
    case IntAtom(i) => Number(i as real)
    case FloatAtom(r) => Number(r)
    case StrAtom(s) => Text(s)
  }

  /** Python's `==` on atoms. */
  predicate PyEq(a: Atom, b: Atom) {
    Key(a) == Key(b)
  }

  type Value = Option<Atom>

  predicate Truthy(v: Value) {
    match v
    case None => false
    case Some(StrAtom(s)) => s != ""
    case Some(a) => Key(a) != Number(0.0)
  }

  // ---------------------------------------------------------------- syntax

  datatype CmpOp = Eq | NotEq | Lt | LtE | Gt | GtE
  datatype ArithOp = Add | Sub | Mult | Mod

  datatype Expr =
    | Constant(v: Value)
    | Name(id: string)
    | USub(operand: Expr)
    | BinOp(op: ArithOp, left: Expr, right: Expr)
    | BoolOp(conj: bool, operands: Operands)
    | Compare(first: Expr, links: Links)

  /** The operands of an and/or. */
  datatype Operands = Last(e: Expr) | More(e: Expr, rest: Operands)

  /** The links of a chained comparison `first op e op e ...`. */
  datatype Links = NoLink | Link(op: CmpOp, e: Expr, rest: Links)

  datatype Stmt = Return(result: Option<Expr>) | If(test: Expr, body: Block, orelse: Block)
  datatype Block = Empty | Then(stmt: Stmt, rest: Block)

  /** The single function definition a submission consists of. */
  datatype Function = Function(params: seq<string>, body: Block)

  // ---------------------------------------------------------------- semantics

  datatype Error = TypeError | ZeroDivisionError | NameError

  type Outcome = Result<Value, Error>
  type Env = map<string, int>

  predicate IntLike(a: Atom) {
    a.BoolAtom? || a.IntAtom?
  }

  function AsInt(a: Atom): int
    requires IntLike(a)
  {
    match a
    case BoolAtom(b) => if b then 1 else 0
    case IntAtom(i) => i
  }

  function AsReal(a: Atom): real
    requires !a.StrAtom?
  {
    match a
    case BoolAtom(b) => if b then 1.0 else 0.0
    case IntAtom(i) => i as real
    case FloatAtom(r) => r
  }

  /** Python's `%` on integers: the remainder takes the divisor's sign. */
  function FloorMod(a: int, b: int): (m: int)
    requires b != 0
    ensures if b > 0 then 0 <= m < b else b < m <= 0
    ensures exists q :: a == q * b + m
  {
    if b > 0 then
      assert a == (a / b) * b + a % b;
      a % b
    else
      var q := (-a) / (-b);
      assert a == q * b + -((-a) % (-b));
      -((-a) % (-b))
  }

  function RealMod(a: real, b: real): real
    requires b != 0.0
  {
    a - b * ((a / b).Floor as real)
  }

  function Repeat(s: string, n: int): string
    decreases n
  {
    if n <= 0 then "" else s + Repeat(s, n - 1)
  }

  function Arith(op: ArithOp, a: Value, b: Value): Outcome {
    if a.None? || b.None? then Failure(TypeError)
    else if a.value.StrAtom? && b.value.StrAtom? then
      if op.Add? then Success(Some(StrAtom(a.value.s + b.value.s))) else Failure(TypeError)
    else if a.value.StrAtom? then RepeatArith(op, a.value.s, b.value)
    else if b.value.StrAtom? then RepeatArith(op, b.value.s, a.value)
    else if IntLike(a.value) && IntLike(b.value) then IntArith(op, AsInt(a.value), AsInt(b.value))
    else RealArith(op, AsReal(a.value), AsReal(b.value))
  }

  function RepeatArith(op: ArithOp, s: string, count: Atom): Outcome {
    if op.Mult? && IntLike(count) then Success(Some(StrAtom(Repeat(s, AsInt(count))))) else Failure(TypeError)
  }

  function IntArith(op: ArithOp, x: int, y: int): Outcome {
    match op
    case Add => Success(Some(IntAtom(x + y)))
    case Sub => Success(Some(IntAtom(x - y)))
    case Mult => Success(Some(IntAtom(x * y)))
    case Mod => if y == 0 then Failure(ZeroDivisionError) else Success(Some(IntAtom(FloorMod(x, y))))
  }

  function RealArith(op: ArithOp, x: real, y: real): Outcome {
    match op
    case Add => Success(Some(FloatAtom(x + y)))
    case Sub => Success(Some(FloatAtom(x - y)))
    case Mult => Success(Some(FloatAtom(x * y)))
    case Mod => if y == 0.0 then Failure(ZeroDivisionError) else Success(Some(FloatAtom(RealMod(x, y))))
  }

  function Negate(v: Value): Outcome {
    match v
    case Some(FloatAtom(r)) => Success(Some(FloatAtom(-r)))
    case Some(a) => if IntLike(a) then Success(Some(IntAtom(-AsInt(a)))) else Failure(TypeError)
    case None => Failure(TypeError)
  }

  predicate StringLess(s: string, t: string) {
    t != "" && (s == "" || s[0] < t[0] || (s[0] == t[0] && StringLess(s[1..], t[1..])))
  }

  /** One comparison. Equality never raises; ordering raises on operands of different kinds. */
  function CompareValues(op: CmpOp, a: Value, b: Value): Result<bool, Error> {
    if op.Eq? then Success(ValueEq(a, b))
    else if op.NotEq? then Success(!ValueEq(a, b))
    else match (a, b)
      case (Some(x), Some(y)) =>
        (match (Key(x), Key(y))
         case (Number(r), Number(q)) => Success(OrderHolds(op, r < q, r == q))
         case (Text(s), Text(t)) => Success(OrderHolds(op, StringLess(s, t), s == t))
         case _ => Failure(TypeError))
      case _ => Failure(TypeError)
  }

  predicate ValueEq(a: Value, b: Value) {
    a.Some? == b.Some? && (a.Some? ==> PyEq(a.value, b.value))
  }

  predicate OrderHolds(op: CmpOp, less: bool, equal: bool) {
    match op
    case Lt => less
    case LtE => less || equal
    case Gt => !less && !equal
    case GtE => !less
    case Eq => equal
    case NotEq => !equal
  }

  function Eval(e: Expr, env: Env): Outcome
    decreases e
  {
    match e
    case Constant(v) => Success(v)
    case Name(id) => if id in env then Success(Some(IntAtom(env[id]))) else Failure(NameError)
    case USub(operand) =>
      var r := Eval(operand, env);
      if r.Failure? then r else Negate(r.value)
    case BinOp(op, left, right) =>
      var l := Eval(left, env);
      if l.Failure? then l else
      var r := Eval(right, env);
      if r.Failure? then r else Arith(op, l.value, r.value)
    case BoolOp(conj, operands) => EvalOperands(conj, operands, env)
    case Compare(first, links) =>
      var r := Eval(first, env);
      if r.Failure? then r else EvalLinks(r.value, links, env)
  }

  /** `and`/`or` stop at the first deciding operand and return that operand's value. */
  function EvalOperands(conj: bool, operands: Operands, env: Env): Outcome
    decreases operands
  {
    match operands
    case Last(e) => Eval(e, env)
    case More(e, rest) =>
      var r := Eval(e, env);
      if r.Failure? || Truthy(r.value) != conj then r else EvalOperands(conj, rest, env)
  }

  /** A chained comparison stops at its first false link. */
  function EvalLinks(prev: Value, links: Links, env: Env): Outcome
    decreases links
  {
    match links
    case NoLink => Success(Some(BoolAtom(true)))
    case Link(op, e, rest) =>
      var r := Eval(e, env);
      if r.Failure? then r else
      var c := CompareValues(op, prev, r.value);
      if c.Failure? then Failure(c.error)
      else if !c.value then Success(Some(BoolAtom(false)))
      else EvalLinks(r.value, rest, env)
  }

  datatype Flow = FellThrough | Finished(outcome: Outcome)

  function ExecBlock(b: Block, env: Env): Flow {
    match b
    case Empty => FellThrough
    case Then(s, rest) =>
      var f := ExecStmt(s, env);
      if f.Finished? then f else ExecBlock(rest, env)
  }

  function ExecStmt(s: Stmt, env: Env): Flow {
    match s
    case Return(None) => Finished(Success(None))
    case Return(Some(e)) => Finished(Eval(e, env))
    case If(test, body, orelse) =>
      var t := Eval(test, env);
      if t.Failure? then Finished(t)
      else if Truthy(t.value) then ExecBlock(body, env) else ExecBlock(orelse, env)
  }

  function Bind(params: seq<string>, inputs: seq<int>): Env
    requires |params| == |inputs|
  {
    if params == [] then map[] else Bind(params[1..], inputs[1..])[params[0] := inputs[0]]
  }

  /** One call of the submitted function. A wrong number of arguments is a TypeError. */
  function Call(f: Function, inputs: seq<int>): Outcome {
    if |f.params| != |inputs| then Failure(TypeError)
    else match ExecBlock(f.body, Bind(f.params, inputs))
      case Finished(o) => o
      case FellThrough => Success(None)
  }

  // ---------------------------------------------------------------- the suite loop

  datatype TestCase = TestCase(inputs: seq<int>, expected: Value, testLabel: string)
  datatype CaseOutput = CaseOutput(inputs: seq<int>, expected: Value, actual: Value, passed: bool)
  datatype SuiteReport = SuiteReport(passed: nat, failed: nat, outputs: seq<CaseOutput>)

  /** The value a program shows on some inputs; an exception shows None. */
  function Actual(f: Function, inputs: seq<int>): Value {
    match Call(f, inputs)
    case Success(v) => v
    case Failure(_) => None
  }

  predicate Passes(f: Function, t: TestCase) {
    match Call(f, t.inputs)
    case Success(v) => t.expected.None? || ValueEq(v, t.expected)
    case Failure(_) => false
  }

  function CaseOf(f: Function, t: TestCase): CaseOutput {
    CaseOutput(t.inputs, t.expected, Actual(f, t.inputs), Passes(f, t))
  }

  ghost function PassCount(f: Function, tests: seq<TestCase>): nat {
    if tests == [] then 0
    else PassCount(f, tests[..|tests| - 1]) + (if Passes(f, tests[|tests| - 1]) then 1 else 0)
  }

  /** What a suite run means: every case on its own, in order, with nothing carried between calls. */
  ghost predicate IsReport(f: Function, tests: seq<TestCase>, r: SuiteReport) {
    && |r.outputs| == |tests|
    && (forall i :: 0 <= i < |tests| ==> r.outputs[i] == CaseOf(f, tests[i]))
    && r.passed == PassCount(f, tests)
    && r.passed + r.failed == |tests|
  }

  method Run(f: Function, tests: seq<TestCase>) returns (r: SuiteReport)
    ensures IsReport(f, tests, r)
    ensures r.failed == 0 <==> forall t | t in tests :: Passes(f, t)
  {
    var outputs: seq<CaseOutput> := [];
    var passed := 0;
    for i := 0 to |tests|
      invariant |outputs| == i
      invariant forall j :: 0 <= j < i ==> outputs[j] == CaseOf(f, tests[j])
      invariant passed == PassCount(f, tests[..i]) <= i
    {
      assert tests[..i + 1][..i] == tests[..i];
      var t := tests[i];
      match Call(f, t.inputs) {
        case Success(actual) =>
          var ok := t.expected.None? || ValueEq(actual, t.expected);
          outputs := outputs + [CaseOutput(t.inputs, t.expected, actual, ok)];
          passed := passed + (if ok then 1 else 0);
        case Failure(_) =>
          outputs := outputs + [CaseOutput(t.inputs, t.expected, None, false)];
      }
    }
    assert tests[..|tests|] == tests;
    AllPassIffFull(f, tests);
    r := SuiteReport(passed, |tests| - passed, outputs);
  }

  lemma {:induction false} AllPassIffFull(f: Function, tests: seq<TestCase>)
    ensures PassCount(f, tests) <= |tests|
    ensures PassCount(f, tests) == |tests| <==> forall t | t in tests :: Passes(f, t)
  {
    if tests != [] {
      var front, last := tests[..|tests| - 1], tests[|tests| - 1];
      AllPassIffFull(f, front);
      assert tests == front + [last];
      assert last in tests;
    }
  }

  /** Running a concatenated suite is running its halves: no call sees another's state. */
  lemma {:induction false} RunAppend(f: Function, a: seq<TestCase>, b: seq<TestCase>,
      ra: SuiteReport, rb: SuiteReport, rab: SuiteReport)
    requires IsReport(f, a, ra) && IsReport(f, b, rb)
    ensures IsReport(f, a + b, rab) <==>
            rab == SuiteReport(ra.passed + rb.passed, ra.failed + rb.failed, ra.outputs + rb.outputs)
  {
    PassCountAppend(f, a, b);
    if IsReport(f, a + b, rab) {
      assert rab.outputs == ra.outputs + rb.outputs;
    }
  }

  lemma {:induction false} PassCountAppend(f: Function, a: seq<TestCase>, b: seq<TestCase>)
    ensures PassCount(f, a + b) == PassCount(f, a) + PassCount(f, b)
  {
    if b == [] {
      assert a + b == a;
    } else {
      PassCountAppend(f, a, b[..|b| - 1]);
      assert (a + b)[..|a + b| - 1] == a + b[..|b| - 1];
    }
  }

  // ---------------------------------------------------------------- the magnitude bound

  function Leaves(e: Expr): (n: nat)
    ensures n >= 1
  {
    match e
    case Constant(_) => 1
    case Name(_) => 1
    case USub(operand) => Leaves(operand)
    case BinOp(_, l, r) => Leaves(l) + Leaves(r)
    case BoolOp(_, operands) => OperandLeaves(operands)
    case Compare(first, links) => Leaves(first) + LinkLeaves(links)
  }

  function OperandLeaves(o: Operands): (n: nat)
    ensures n >= 1
  {
    match o
    case Last(e) => Leaves(e)
    case More(e, rest) => Leaves(e) + OperandLeaves(rest)
  }

  function LinkLeaves(l: Links): nat {
    match l
    case NoLink => 0
    case Link(_, e, rest) => Leaves(e) + LinkLeaves(rest)
  }

  function BlockLeaves(b: Block): nat {
    match b
    case Empty => 0
    case Then(s, rest) => StmtLeaves(s) + BlockLeaves(rest)
  }

  function StmtLeaves(s: Stmt): nat {
    match s
    case Return(None) => 0
    case Return(Some(e)) => Leaves(e)
    case If(test, body, orelse) => Leaves(test) + BlockLeaves(body) + BlockLeaves(orelse)
  }

  predicate Within(x: int, k: int) {
    -k <= x <= k
  }

  /** An integer or boolean constant (or None) of magnitude at most m. */
  predicate SmallConstant(v: Value, m: nat) {
    v.Some? ==> IntLike(v.value) && Within(AsInt(v.value), m)
  }

  predicate SmallExpr(e: Expr, m: nat) {
    match e
    case Constant(v) => SmallConstant(v, m)
    case Name(_) => true
    case USub(operand) => SmallExpr(operand, m)
    case BinOp(_, l, r) => SmallExpr(l, m) && SmallExpr(r, m)
    case BoolOp(_, operands) => SmallOperands(operands, m)
    case Compare(first, links) => SmallExpr(first, m) && SmallLinks(links, m)
  }

  predicate SmallOperands(o: Operands, m: nat) {
    match o
    case Last(e) => SmallExpr(e, m)
    case More(e, rest) => SmallExpr(e, m) && SmallOperands(rest, m)
  }

  predicate SmallLinks(l: Links, m: nat) {
    match l
    case NoLink => true
    case Link(_, e, rest) => SmallExpr(e, m) && SmallLinks(rest, m)
  }

  predicate SmallBlock(b: Block, m: nat) {
    match b
    case Empty => true
    case Then(s, rest) => SmallStmt(s, m) && SmallBlock(rest, m)
  }

  predicate SmallStmt(s: Stmt, m: nat) {
    match s
    case Return(None) => true
    case Return(Some(e)) => SmallExpr(e, m)
    case If(test, body, orelse) => SmallExpr(test, m) && SmallBlock(body, m) && SmallBlock(orelse, m)
  }

  function Pow(m: nat, n: nat): nat {
    if n == 0 then 1 else m * Pow(m, n - 1)
  }

  lemma {:induction false} PowPositive(m: nat, n: nat)
    requires m >= 2
    ensures Pow(m, n) >= 1
    ensures n >= 1 ==> Pow(m, n) >= m
  {
    if n > 0 {
      PowPositive(m, n - 1);
      MulMonotone(m, 1, Pow(m, n - 1));
    }
  }

  lemma {:induction false} PowSum(m: nat, a: nat, b: nat)
    requires m >= 2
    ensures Pow(m, a + b) == Pow(m, a) * Pow(m, b)
    decreases a
  {
    if a == 0 {
      assert Pow(m, 0) == 1;
    } else {
      PowSum(m, a - 1, b);
      PowNext(m, a - 1);
      PowNext(m, a - 1 + b);
      Regroup(m, Pow(m, a - 1), Pow(m, b));
    }
  }

  lemma PowNext(m: nat, n: nat)
    requires m >= 2
    ensures Pow(m, n + 1) == m * Pow(m, n)
  {
  }

  lemma Regroup(m: nat, x: nat, y: nat)
    ensures m * (x * y) == (m * x) * y
  {
  }

  lemma PowMonotone(m: nat, a: nat, n: nat)
    requires m >= 2 && a <= n
    ensures 1 <= Pow(m, a) <= Pow(m, n)
  {
    PowPositive(m, a);
    PowPositive(m, n - a);
    PowSum(m, a, n - a);
    MulMonotone(Pow(m, a), 1, Pow(m, n - a));
  }

  lemma MulMonotone(k: nat, x: nat, y: nat)
    requires x <= y
    ensures k * x <= k * y
  {
  }

  /** At most k in magnitude, or not a number at all. */
  predicate Bounded(o: Outcome, k: nat) {
    o.Success? && o.value.Some? ==> IntLike(o.value.value) && Within(AsInt(o.value.value), k)
  }

  ghost predicate SmallEnv(env: Env, m: nat) {
    forall x | x in env :: Within(env[x], m)
  }

  lemma ArithBounded(op: ArithOp, a: Value, b: Value, m: nat, i: nat, j: nat)
    requires m >= 2 && i >= 1 && j >= 1
    requires Bounded(Success(a), Pow(m, i)) && Bounded(Success(b), Pow(m, j))
    ensures Bounded(Arith(op, a, b), Pow(m, i + j))
  {
    PowSum(m, i, j);
    PowMonotone(m, i, i + j);
    PowMonotone(m, j, i + j);
    PowPositive(m, i);
    PowPositive(m, j);
    if a.Some? && b.Some? && IntLike(a.value) && IntLike(b.value) {
      SumBelowProduct(Pow(m, i), Pow(m, j));
      ProductWithin(AsInt(a.value), AsInt(b.value), Pow(m, i), Pow(m, j));
    }
  }

  lemma SumBelowProduct(p: nat, q: nat)
    requires p >= 2 && q >= 2
    ensures p + q <= p * q
  {
    MulMonotone(p - 1, 1, q - 1);
    assert (p - 1) * (q - 1) == p * q - p - q + 1;
  }

  lemma ProductWithin(x: int, y: int, p: nat, q: nat)
    requires Within(x, p) && Within(y, q)
    ensures Within(x * y, p * q)
  {
    var ax, ay := if x < 0 then -x else x, if y < 0 then -y else y;
    MulMonotone(ax, ay, q);
    MulMonotone(q, ax, p);
    assert x * y == ax * ay || x * y == -(ax * ay);
  }

  lemma {:induction false} EvalBounded(e: Expr, env: Env, m: nat)
    requires m >= 2 && SmallExpr(e, m) && SmallEnv(env, m)
    ensures Bounded(Eval(e, env), Pow(m, Leaves(e)))
    decreases e
  {
    PowPositive(m, Leaves(e));
    match e
    case Constant(_) =>
    case Name(_) =>
    case USub(operand) => EvalBounded(operand, env, m);
    case BinOp(op, l, r) =>
      EvalBounded(l, env, m);
      EvalBounded(r, env, m);
      if Eval(l, env).Success? && Eval(r, env).Success? {
        ArithBounded(op, Eval(l, env).value, Eval(r, env).value, m, Leaves(l), Leaves(r));
      }
    case BoolOp(conj, operands) => OperandsBounded(conj, operands, env, m);
    case Compare(first, links) =>
      EvalBounded(first, env, m);
      if Eval(first, env).Success? {
        LinksBounded(Eval(first, env).value, links, env);
      }
  }

  lemma {:induction false} OperandsBounded(conj: bool, o: Operands, env: Env, m: nat)
    requires m >= 2 && SmallOperands(o, m) && SmallEnv(env, m)
    ensures Bounded(EvalOperands(conj, o, env), Pow(m, OperandLeaves(o)))
    decreases o
  {
    EvalBounded(o.e, env, m);
    if o.More? {
      OperandsBounded(conj, o.rest, env, m);
      PowMonotone(m, Leaves(o.e), OperandLeaves(o));
      PowMonotone(m, OperandLeaves(o.rest), OperandLeaves(o));
    }
  }

  lemma {:induction false} LinksBounded(prev: Value, l: Links, env: Env)
    ensures Bounded(EvalLinks(prev, l, env), 1)
    decreases l
  {
    if l.Link? && Eval(l.e, env).Success? {
      LinksBounded(Eval(l.e, env).value, l.rest, env);
    }
  }

  lemma {:induction false} BlockBounded(b: Block, env: Env, m: nat)
    requires m >= 2 && SmallBlock(b, m) && SmallEnv(env, m)
    ensures ExecBlock(b, env).Finished? ==> Bounded(ExecBlock(b, env).outcome, Pow(m, BlockLeaves(b)))
  {
    if b.Then? {
      StmtBounded(b.stmt, env, m);
      BlockBounded(b.rest, env, m);
      PowMonotone(m, StmtLeaves(b.stmt), BlockLeaves(b));
      PowMonotone(m, BlockLeaves(b.rest), BlockLeaves(b));
    }
  }

  lemma {:induction false} StmtBounded(s: Stmt, env: Env, m: nat)
    requires m >= 2 && SmallStmt(s, m) && SmallEnv(env, m)
    ensures ExecStmt(s, env).Finished? ==> Bounded(ExecStmt(s, env).outcome, Pow(m, StmtLeaves(s)))
  {
    match s
    case Return(None) =>
    case Return(Some(e)) => EvalBounded(e, env, m);
    case If(test, body, orelse) =>
      EvalBounded(test, env, m);
      BlockBounded(body, env, m);
      BlockBounded(orelse, env, m);
      PowMonotone(m, Leaves(test), StmtLeaves(s));
      PowMonotone(m, BlockLeaves(body), StmtLeaves(s));
      PowMonotone(m, BlockLeaves(orelse), StmtLeaves(s));
  }

  lemma {:induction false} BindSmall(params: seq<string>, inputs: seq<int>, m: nat)
    requires |params| == |inputs|
    requires forall x | x in inputs :: Within(x, m)
    ensures SmallEnv(Bind(params, inputs), m)
  {
    if params != [] {
      assert forall x | x in inputs[1..] :: x in inputs;
      BindSmall(params[1..], inputs[1..], m);
    }
  }

  /** An integer/boolean program cannot outgrow m to the number of its leaves, whatever it computes. */
  lemma CallBounded(f: Function, inputs: seq<int>, m: nat)
    requires m >= 2 && SmallBlock(f.body, m)
    requires forall x | x in inputs :: Within(x, m)
    ensures Bounded(Call(f, inputs), Pow(m, BlockLeaves(f.body)))
  {
    if |f.params| == |inputs| {
      BindSmall(f.params, inputs, m);
      BlockBounded(f.body, Bind(f.params, inputs), m);
    }
  }
}
