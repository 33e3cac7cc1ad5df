/**
 * The tree-walking evaluator (pylox/interpreter.py) and function values
 * (pylox/lox_function.py). They form one module because a function call runs
 * the interpreter's `_execute_block` and the interpreter creates function
 * values: the two classes call each other.
 *
 * Exceptions become result values: `EvalResult` for expressions and
 * `ExecResult` for statements, whose `Returned` variant is the source's
 * ReturnException. Lox programs need not terminate, so evaluation carries a
 * `fuel` count that bounds nested calls and the iterations of each loop;
 * running out is the separate outcome `OutOfFuel`.
 */
module Interpreter {
  import opened Wrappers
  import opened Tokens
  import opened Ast
  import opened Environments
  import opened NumberText

  /** Runtime values: Python's None, bool, int, float, str and function objects. */
  datatype Value = NilValue | Bool(b: bool) | Int(i: int) | Float(x: real) | Str(s: string) | Fn(f: LoxFunction)

  /**
   * The two kinds of error evaluation raises. `RuntimeException` is the
   * pylox class that `interpret` catches (pylox/interpreter.py:36);
   * `UndefinedVariable` is the builtin `RuntimeError` the environment raises
   * (pylox/environment.py:19, 30), which that handler does not catch.
   */
  datatype LoxError =
    | RuntimeException(token: Token, message: string)
    | UndefinedVariable(token: Token, message: string)

  datatype Stop = Thrown(error: LoxError) | OutOfFuel

  datatype EvalResult = Val(value: Value) | EvalStop(stop: Stop)

  datatype ExecResult = Normal | Returned(value: Value) | ExecStop(stop: Stop)

  datatype ArgsResult = Args(values: seq<Value>) | ArgsStop(stop: Stop)

  /**
   * How `interpret` ends: all statements ran; a RuntimeException was caught
   * and reported; something else escaped the handler (the builtin
   * RuntimeError, or a return signal); or the fuel ran out.
   */
  datatype InterpretResult = Completed | Reported(error: LoxError) | Crashed(cause: ExecResult) | Exhausted

  // ---------------------------------------------------------------------
  // Pure semantics of values and operators
  // ---------------------------------------------------------------------

  /** `visit_literal_expr`: the literal's host value. */
  function LiteralValue(lit: Lit): (v: Value)
    ensures !v.Fn?
  {
    match lit
    case NoLit => NilValue
    case BoolLit(b) => Bool(b)
    case IntLit(i) => Int(i)
    case FloatLit(x) => Float(x)
    case StrLit(s) => Str(s)
  }

  /** `isinstance(v, (int, float))`: in Python a bool is an int, so booleans pass. */
  predicate IsNumber(v: Value) {
    v.Bool? || v.Int? || v.Float?
  }

  /** `float(v)` for a number (True is 1.0, False is 0.0). */
  function AsReal(v: Value): real
    requires IsNumber(v)
  {
    match v
    case Bool(b) => if b then 1.0 else 0.0
    case Int(i) => i as real
    case Float(x) => x
  }

  /**
   * `_is_equal`: Python's `==` on these values (pylox/interpreter.py:181).
   * Booleans, ints and floats compare by numeric value, so `true == 1`;
   * strings by content; function objects by identity; None only equals None.
   */
  predicate IsEqual(a: Value, b: Value)
    ensures IsEqual(a, b) <==>
              || (a.NilValue? && b.NilValue?)
              || (IsNumber(a) && IsNumber(b) && AsReal(a) == AsReal(b))
              || (a.Str? && b.Str? && a.s == b.s)
              || (a.Fn? && b.Fn? && a.f == b.f)
  {
    if a.NilValue? || b.NilValue? then a.NilValue? && b.NilValue?
    else if IsNumber(a) || IsNumber(b) then IsNumber(a) && IsNumber(b) && AsReal(a) == AsReal(b)
    else if a.Str? || b.Str? then a.Str? && b.Str? && a.s == b.s
    else a.f == b.f
  }

  /**
   * `_is_truthy`: None and whatever `== False` are falsey. Under Python
   * equality that takes in the numbers 0 and 0.0; everything else, the empty
   * string included, is truthy.
   */
  predicate IsTruthy(v: Value)
    ensures IsTruthy(v) <==> !(v == NilValue || v == Bool(false) || v == Int(0) || v == Float(0.0))
  {
    if v.NilValue? then false
    else if IsEqual(v, Bool(false)) then false
    else true
  }

  const NumberOperandMessage := "Operand must be a number."
  const PlusOperandsMessage := "Operands must be two numbers or two strings."
  const NotCallableMessage := "Can only call functions and classes."

  /** The operators whose operands `_check_number_operands` checks. */
  predicate IsNumericOperator(kind: TokenType) {
    kind in {Minus, Slash, Star, Greater, GreaterEqual, Less, LessEqual}
  }

  /** `left + right` in Python for two numbers: int unless a float takes part. */
  function NumericSum(left: Value, right: Value): (v: Value)
    requires IsNumber(left) && IsNumber(right)
    ensures IsNumber(v) && AsReal(v) == AsReal(left) + AsReal(right)
    ensures v.Float? <==> left.Float? || right.Float?
  {
    if left.Float? || right.Float? then Float(AsReal(left) + AsReal(right))
    else Int((if left.Int? then left.i else if left.b then 1 else 0)
           + (if right.Int? then right.i else if right.b then 1 else 0))
  }

  /**
   * The value of a binary operator once both operands are evaluated
   * (pylox/interpreter.py:43-76).
   */
  function BinaryOp(op: Token, left: Value, right: Value): (r: EvalResult)
    ensures r.Val? ==> !r.value.Fn?
    // `+`: sum of two numbers, concatenation of two strings, otherwise the type error
    ensures op.kind == Plus ==>
              (r.Val? <==> (IsNumber(left) && IsNumber(right)) || (left.Str? && right.Str?))
    ensures op.kind == Plus && left.Str? && right.Str? ==> r == Val(Str(left.s + right.s))
    ensures op.kind == Plus && IsNumber(left) && IsNumber(right) ==>
              r.Val? && IsNumber(r.value) && AsReal(r.value) == AsReal(left) + AsReal(right)
    ensures op.kind == Plus && !r.Val? ==> r == EvalStop(Thrown(RuntimeException(op, PlusOperandsMessage)))
    // the arithmetic and relational operators need two numbers
    ensures IsNumericOperator(op.kind) ==>
              (r.Val? <==> IsNumber(left) && IsNumber(right))
    ensures IsNumericOperator(op.kind) && !r.Val? ==>
              r == EvalStop(Thrown(RuntimeException(op, NumberOperandMessage)))
    ensures op.kind == Minus && r.Val? ==> r.value == Float(AsReal(left) - AsReal(right))
    ensures op.kind == Star && r.Val? ==> r.value == Float(AsReal(left) * AsReal(right))
    // division by anything equal to 0 gives nil instead of dividing
    ensures op.kind == Slash && r.Val? ==>
              r.value == if AsReal(right) == 0.0 then NilValue else Float(AsReal(left) / AsReal(right))
    ensures op.kind == Greater && r.Val? ==> r.value == Bool(AsReal(left) > AsReal(right))
    ensures op.kind == GreaterEqual && r.Val? ==> r.value == Bool(AsReal(left) >= AsReal(right))
    ensures op.kind == Less && r.Val? ==> r.value == Bool(AsReal(left) < AsReal(right))
    ensures op.kind == LessEqual && r.Val? ==> r.value == Bool(AsReal(left) <= AsReal(right))
    ensures op.kind == EqualEqual ==> r == Val(Bool(IsEqual(left, right)))
    ensures op.kind == BangEqual ==> r == Val(Bool(!IsEqual(left, right)))
    // any other operator falls through to `return None`
    ensures op.kind !in {Minus, Slash, Star, Plus, Greater, GreaterEqual, Less, LessEqual, BangEqual, EqualEqual} ==>
              r == Val(NilValue)
  {
    var numbers := IsNumber(left) && IsNumber(right);
    var typeError := EvalStop(Thrown(RuntimeException(op, NumberOperandMessage)));
    match op.kind
    case Minus => if numbers then Val(Float(AsReal(left) - AsReal(right))) else typeError
    case Slash =>
      if !numbers then typeError
      else if IsEqual(right, Int(0)) then Val(NilValue)
      else Val(Float(AsReal(left) / AsReal(right)))
    case Star => if numbers then Val(Float(AsReal(left) * AsReal(right))) else typeError
    case Plus =>
      if numbers then Val(NumericSum(left, right))
      else if left.Str? && right.Str? then Val(Str(left.s + right.s))
      else EvalStop(Thrown(RuntimeException(op, PlusOperandsMessage)))
    case Greater => if numbers then Val(Bool(AsReal(left) > AsReal(right))) else typeError
    case GreaterEqual => if numbers then Val(Bool(AsReal(left) >= AsReal(right))) else typeError
    case Less => if numbers then Val(Bool(AsReal(left) < AsReal(right))) else typeError
    case LessEqual => if numbers then Val(Bool(AsReal(left) <= AsReal(right))) else typeError
    case BangEqual => Val(Bool(!IsEqual(left, right)))
    case EqualEqual => Val(Bool(IsEqual(left, right)))
    case _ => Val(NilValue)
  }

  /**
   * The value of a unary operator once its operand is evaluated
   * (pylox/interpreter.py:110-115), as written: `!` yields the operand's
   * truthiness, not its negation, and `-` checks the operand's syntax node
   * instead of its value, which is never a number, so it always raises.
   */
  function UnaryOp(op: Token, operand: Value): (r: EvalResult)
    ensures op.kind == Bang ==> r == Val(Bool(IsTruthy(operand)))
    ensures op.kind == Minus ==> r == EvalStop(Thrown(RuntimeException(op, NumberOperandMessage)))
    ensures op.kind !in {Bang, Minus} ==> r == Val(NilValue)
  {
    match op.kind
    case Bang => Val(Bool(IsTruthy(operand)))
    case Minus => EvalStop(Thrown(RuntimeException(op, NumberOperandMessage)))
    case _ => Val(NilValue)
  }

  /** Whether `or`/`and` returns its left operand without evaluating the right one. */
  predicate ShortCircuits(op: Token, left: Value) {
    if op.kind == Or then IsTruthy(left) else !IsTruthy(left)
  }

  /** `_stringify` (pylox/interpreter.py:192-202). */
  function Stringify(v: Value): (s: string)
    ensures v.NilValue? ==> s == "nil"
    ensures v.Bool? ==> s == if v.b then "True" else "False"
    ensures v.Int? ==> s == IntText(v.i)
    ensures v.Float? && IsIntegral(v.x) ==> s == WholeText(v.x)
    ensures v.Float? && !IsIntegral(v.x) ==> s == FloatText(v.x)
    ensures v.Str? ==> s == v.s
    ensures v.Fn? ==> s == "<fn " + v.f.declaration.name.lexeme + ">"
  {
    match v
    case NilValue => "nil"
    case Float(x) =>
      var text := FloatText(x);
      if |text| >= 2 && text[|text| - 2..] == ".0" then
        assert IsIntegral(x) by {
          if !IsIntegral(x) { FractionalFloatText(x); }
        }
        IntegralFloatText(x);
        text[0..|text| - 2]
      else
        assert !IsIntegral(x) by {
          if IsIntegral(x) { IntegralFloatText(x); }
        }
        text
    case Bool(b) => if b then "True" else "False"
    case Int(i) => IntText(i)
    case Str(s) => s
    case Fn(f) => f.ToString()
  }

  /**
   * The checks `visit_call_expr` makes once the callee and the arguments are
   * evaluated (pylox/interpreter.py:84-89): only a function can be called,
   * and only with as many arguments as it has parameters.
   */
  function CallError(paren: Token, callee: Value, argCount: nat): (err: Option<LoxError>)
    ensures err == None <==> callee.Fn? && callee.f.Arity() == argCount
    ensures !callee.Fn? ==> err == Some(RuntimeException(paren, NotCallableMessage))
    ensures callee.Fn? && callee.f.Arity() != argCount ==>
              err == Some(RuntimeException(paren, ArityMessage(callee.f.Arity(), argCount)))
  {
    if !callee.Fn? then Some(RuntimeException(paren, NotCallableMessage))
    else if argCount != callee.f.Arity() then
      Some(RuntimeException(paren, ArityMessage(callee.f.Arity(), argCount)))
    else None
  }

  function ArityMessage(expected: nat, got: nat): string {
    "Expected " + NatText(expected) + " arguments but got " + NatText(got) + "."
  }

  /**
   * The bindings `call` makes in the new scope, parameter i to argument i in
   * order (pylox/lox_function.py:16-17).
   */
  function Bindings(params: seq<Token>, arguments: seq<Value>): (m: map<string, Value>)
    requires |params| == |arguments|
  {
    if params == [] then map[]
    else
      var n := |params| - 1;
      Bindings(params[..n], arguments[..n])[params[n].lexeme := arguments[n]]
  }

  /** What a call yields once its body has run (pylox/lox_function.py:19-22). */
  function CallOutcome(body: ExecResult): (r: EvalResult)
    ensures body.Returned? ==> r == Val(body.value)
    ensures body.Normal? ==> r == Val(NilValue)
    ensures body.ExecStop? ==> r == EvalStop(body.stop)
  {
    match body
    case Returned(v) => Val(v)
    case Normal => Val(NilValue)
    case ExecStop(s) => EvalStop(s)
  }

  // ---------------------------------------------------------------------
  // Lemmas about the pure semantics
  // ---------------------------------------------------------------------

  /**
   * Each parameter is bound to its own argument unless a later parameter has
   * the same name, in which case the later one wins; nothing else is bound.
   */
  lemma {:induction false} BindingsLastWins(params: seq<Token>, arguments: seq<Value>, i: nat)
    requires |params| == |arguments| && i < |params|
    requires forall j | i < j < |params| :: params[j].lexeme != params[i].lexeme
    ensures params[i].lexeme in Bindings(params, arguments)
    ensures Bindings(params, arguments)[params[i].lexeme] == arguments[i]
    decreases |params|
  {
    var n := |params| - 1;
    if i < n {
      BindingsLastWins(params[..n], arguments[..n], i);
    }
  }

  /** The bound names are exactly the parameter names, and every bound value is an argument. */
  lemma {:induction false} BindingsDomain(params: seq<Token>, arguments: seq<Value>)
    requires |params| == |arguments|
    ensures Bindings(params, arguments).Keys == set p | p in params :: p.lexeme
    ensures forall k | k in Bindings(params, arguments) :: Bindings(params, arguments)[k] in arguments
    decreases |params|
  {
    if params != [] {
      var n := |params| - 1;
      BindingsDomain(params[..n], arguments[..n]);
      assert params == params[..n] + [params[n]];
      assert forall a | a in arguments[..n] :: a in arguments;
    }
  }

  /** The host equality `_is_equal` delegates to is an equivalence on these values. */
  lemma IsEqualEquivalence(a: Value, b: Value, c: Value)
    ensures IsEqual(a, a)
    ensures IsEqual(a, b) ==> IsEqual(b, a)
    ensures IsEqual(a, b) && IsEqual(b, c) ==> IsEqual(a, c)
  {
  }

  /** `1 == true` and `0 == false` under the host equality the source delegates to. */
  lemma HostEqualityExamples()
    ensures IsEqual(Int(1), Bool(true)) && IsEqual(Float(0.0), Bool(false))
    ensures !IsEqual(Str(""), Bool(false)) && !IsEqual(NilValue, Bool(false))
    ensures IsTruthy(Str("")) && !IsTruthy(Int(0))
  {
  }

  // ---------------------------------------------------------------------
  // The evaluator on values
  // ---------------------------------------------------------------------

  /*
   * The evaluator restated on values, for the programs that neither call nor
   * declare a function. A scope chain is the sequence of its bindings,
   * innermost first (`Environment.Frames`), and output is a sequence of
   * lines. Without closures no two chains share a scope, so the bindings of
   * the current chain are all the state these programs read and write. The
   * methods of `Interpreter` are proved to agree with these functions.
   */

  /** A lookup's value, or the builtin RuntimeError it raises. */
  function FromLookup(l: Lookup<Value>): EvalResult {
    match l
    case Found(v) => Val(v)
    case NotFound(Undefined(t, m)) => EvalStop(Thrown(UndefinedVariable(t, m)))
  }

  type Scopes = seq<map<string, Value>>

  /** What an expression yields, and the chain's bindings afterwards. */
  datatype Evaluated = Evaluated(result: EvalResult, frames: Scopes)

  /** What an argument list yields, and the chain's bindings afterwards. */
  datatype ArgsEvaluated = ArgsEvaluated(result: ArgsResult, frames: Scopes)

  /** How a statement ends, the chain's bindings afterwards, and the output so far. */
  datatype Executed = Executed(result: ExecResult, frames: Scopes, output: seq<string>)

  /** An expression with no call in it. */
  predicate CallFree(e: Expr) {
    match e
    case Assign(_, value) => CallFree(value)
    case Binary(left, _, right) => CallFree(left) && CallFree(right)
    case Call(_, _, _) => false
    case Grouping(inner) => CallFree(inner)
    case Literal(_) => true
    case Logical(left, _, right) => CallFree(left) && CallFree(right)
    case Unary(_, operand) => CallFree(operand)
    case Variable(_) => true
  }

  /** An expression with no assignment in it. */
  predicate AssignFree(e: Expr) {
    match e
    case Assign(_, _) => false
    case Binary(left, _, right) => AssignFree(left) && AssignFree(right)
    case Call(callee, _, arguments) => AssignFree(callee) && forall i | 0 <= i < |arguments| :: AssignFree(arguments[i])
    case Grouping(inner) => AssignFree(inner)
    case Literal(_) => true
    case Logical(left, _, right) => AssignFree(left) && AssignFree(right)
    case Unary(_, operand) => AssignFree(operand)
    case Variable(_) => true
  }

  /** An expression that only reads: it neither calls nor assigns. */
  predicate Pure(e: Expr) {
    CallFree(e) && AssignFree(e)
  }

  predicate AllCallFree(es: seq<Expr>) {
    forall i | 0 <= i < |es| :: CallFree(es[i])
  }

  predicate AllPure(es: seq<Expr>) {
    forall i | 0 <= i < |es| :: Pure(es[i])
  }

  /**
   * A statement whose execution neither calls nor declares a function. An
   * `if` runs only its then-branch (see `Exec`), so only that branch counts.
   */
  predicate FirstOrder(s: Stmt) {
    match s
    case Block(statements) => forall i | 0 <= i < |statements| :: FirstOrder(statements[i])
    case Expression(e) => CallFree(e)
    case Function(_, _, _) => false
    case If(_, thenBranch, _) => FirstOrder(thenBranch)
    case Print(e) => CallFree(e)
    case Var(_, initializer) => initializer.None? || CallFree(initializer.value)
    case While(condition, loopBody) => CallFree(condition) && FirstOrder(loopBody)
  }

  predicate AllFirstOrder(ss: seq<Stmt>) {
    forall i | 0 <= i < |ss| :: FirstOrder(ss[i])
  }

  /**
   * `_evaluate` on values: operands left to right, each in the bindings the
   * one before left; `or`/`and` stop after a deciding left operand;
   * assignment rebinds the nearest scope that binds the name.
   */
  function Eval(e: Expr, fs: Scopes): (x: Evaluated)
    requires CallFree(e)
    ensures |x.frames| == |fs|
  {
    match e
    case Assign(name, value) =>
      var v := Eval(value, fs);
      if !v.result.Val? then v
      else if FramesBind(v.frames, name.lexeme) then
        Evaluated(v.result, FramesAssign(v.frames, name.lexeme, v.result.value))
      else Evaluated(EvalStop(Thrown(UndefinedVariable(name, UndefinedMessage(name.lexeme)))), v.frames)
    case Binary(left, op, right) =>
      var l := Eval(left, fs);
      if !l.result.Val? then l
      else
        var r := Eval(right, l.frames);
        if !r.result.Val? then r
        else Evaluated(BinaryOp(op, l.result.value, r.result.value), r.frames)
    case Call(_, _, _) => Evaluated(EvalStop(OutOfFuel), fs)
    case Grouping(inner) => Eval(inner, fs)
    case Literal(lit) => Evaluated(Val(LiteralValue(lit)), fs)
    case Logical(left, op, right) =>
      var l := Eval(left, fs);
      if !l.result.Val? || ShortCircuits(op, l.result.value) then l
      else Eval(right, l.frames)
    case Unary(op, operand) =>
      var v := Eval(operand, fs);
      if !v.result.Val? then v
      else Evaluated(UnaryOp(op, v.result.value), v.frames)
    case Variable(name) => Evaluated(FromLookup(FramesGet(fs, name)), fs)
  }

  /** The argument loop on values: left to right, stopping at the first argument that fails. */
  function EvalArgs(arguments: seq<Expr>, fs: Scopes): (x: ArgsEvaluated)
    requires AllCallFree(arguments)
    ensures |x.frames| == |fs|
    ensures x.result.Args? ==> |x.result.values| == |arguments|
  {
    if arguments == [] then ArgsEvaluated(Args([]), fs)
    else
      var a := Eval(arguments[0], fs);
      if !a.result.Val? then ArgsEvaluated(ArgsStop(a.result.stop), a.frames)
      else
        var rest := EvalArgs(arguments[1..], a.frames);
        if rest.result.ArgsStop? then rest
        else ArgsEvaluated(Args([a.result.value] + rest.result.values), rest.frames)
  }

  /** Values evaluated before an argument list, put in front of what it yields. */
  function AfterValues(values: seq<Value>, x: ArgsEvaluated): ArgsEvaluated {
    if x.result.Args? then ArgsEvaluated(Args(values + x.result.values), x.frames) else x
  }

  /** One more value in front, as the argument loop appends it. */
  lemma AfterValuesStep(values: seq<Value>, v: Value, x: ArgsEvaluated)
    ensures AfterValues(values, AfterValues([v], x)) == AfterValues(values + [v], x)
  {
    if x.result.Args? {
      assert values + ([v] + x.result.values) == (values + [v]) + x.result.values;
    }
  }

  /** What `visit_call_expr` has before the call itself: a failure, or the function and its arguments. */
  datatype CallSetup =
    | Failed(result: EvalResult, frames: Scopes)
    | Ready(callee: LoxFunction, arguments: seq<Value>, frames: Scopes)

  /**
   * `visit_call_expr` up to the call: the callee, then the arguments left
   * to right, then the callable and arity checks.
   */
  function SetUpCall(e: Expr, fs: Scopes): (x: CallSetup)
    requires e.Call? && CallFree(e.callee) && AllCallFree(e.arguments)
    ensures x.Ready? ==> |x.arguments| == x.callee.Arity() == |e.arguments|
  {
    var c := Eval(e.callee, fs);
    if !c.result.Val? then Failed(c.result, c.frames)
    else
      var a := EvalArgs(e.arguments, c.frames);
      if a.result.ArgsStop? then Failed(EvalStop(a.result.stop), a.frames)
      else
        match CallError(e.paren, c.result.value, |a.result.values|)
        case Some(err) => Failed(EvalStop(Thrown(err)), a.frames)
        case None => Ready(c.result.value.f, a.result.values, a.frames)
  }

  /**
   * `_execute` on values. A block runs in a new innermost scope that is
   * dropped afterwards; `if` runs its then-branch (the source tests the
   * condition node, which is always truthy); `var` binds in the innermost
   * scope; a loop may take at most `fuel` iterations.
   */
  function Exec(s: Stmt, fs: Scopes, out: seq<string>, fuel: nat): (x: Executed)
    requires FirstOrder(s) && fs != []
    ensures |x.frames| == |fs|
    ensures !x.result.Returned?
    decreases s, 1
  {
    match s
    case Block(statements) =>
      var x := Run(statements, [map[]] + fs, out, fuel);
      Executed(x.result, x.frames[1..], x.output)
    case Expression(e) =>
      var v := Eval(e, fs);
      Executed(if v.result.Val? then Normal else ExecStop(v.result.stop), v.frames, out)
    case Function(_, _, _) => Executed(Normal, fs, out)
    case If(_, thenBranch, _) => Exec(thenBranch, fs, out, fuel)
    case Print(e) =>
      var v := Eval(e, fs);
      if v.result.Val? then Executed(Normal, v.frames, out + [Stringify(v.result.value)])
      else Executed(ExecStop(v.result.stop), v.frames, out)
    case Var(name, initializer) =>
      if initializer.None? then Executed(Normal, FramesDefine(fs, name.lexeme, NilValue), out)
      else
        var v := Eval(initializer.value, fs);
        if v.result.Val? then Executed(Normal, FramesDefine(v.frames, name.lexeme, v.result.value), out)
        else Executed(ExecStop(v.result.stop), v.frames, out)
    case While(_, _) => Loop(s, fs, out, fuel, fuel)
  }

  /** Statements in order, stopping at the first that does not complete. */
  function Run(ss: seq<Stmt>, fs: Scopes, out: seq<string>, fuel: nat): (x: Executed)
    requires AllFirstOrder(ss) && fs != []
    ensures |x.frames| == |fs|
    ensures !x.result.Returned?
    decreases ss, 0
  {
    if ss == [] then Executed(Normal, fs, out)
    else
      var y := Exec(ss[0], fs, out, fuel);
      if !y.result.Normal? then y else Run(ss[1..], y.frames, y.output, fuel)
  }

  /** `visit_while_stmt` with `budget` iterations left: test, then run the body and go round. */
  function Loop(s: Stmt, fs: Scopes, out: seq<string>, fuel: nat, budget: nat): (x: Executed)
    requires s.While? && FirstOrder(s) && fs != []
    ensures |x.frames| == |fs|
    ensures !x.result.Returned?
    decreases s, 0, budget
  {
    var c := Eval(s.condition, fs);
    if !c.result.Val? then Executed(ExecStop(c.result.stop), c.frames, out)
    else if !IsTruthy(c.result.value) then Executed(Normal, c.frames, out)
    else if budget == 0 then Executed(ExecStop(OutOfFuel), c.frames, out)
    else
      var b := Exec(s.loopBody, c.frames, out, fuel);
      if !b.result.Normal? then b else Loop(s, b.frames, b.output, fuel, budget - 1)
  }

  // ---------------------------------------------------------------------
  // Properties of the evaluator on values
  // ---------------------------------------------------------------------

  /** An expression that neither calls nor assigns leaves every binding as it was. */
  lemma {:induction false} EvalPureFrames(e: Expr, fs: Scopes)
    requires Pure(e)
    ensures Eval(e, fs).frames == fs
  {
    match e
    case Assign(_, _) =>
    case Binary(left, _, right) =>
      EvalPureFrames(left, fs);
      EvalPureFrames(right, fs);
    case Call(_, _, _) =>
    case Grouping(inner) =>
      EvalPureFrames(inner, fs);
    case Literal(_) =>
    case Logical(left, _, right) =>
      EvalPureFrames(left, fs);
      EvalPureFrames(right, fs);
    case Unary(_, operand) =>
      EvalPureFrames(operand, fs);
    case Variable(_) =>
  }

  /**
   * `or` and `and` on two operands that only read: the value is one of the
   * operands' own values, never a coerced boolean, and its truthiness is
   * the disjunction (`or`) or conjunction (`and`) of theirs. When the left
   * operand decides, the right one's failure does not matter.
   */
  lemma LogicalValue(e: Expr, fs: Scopes)
    requires e.Logical? && Pure(e)
    requires Eval(e.left, fs).result.Val?
    ensures var l := Eval(e.left, fs).result; var r := Eval(e.right, fs).result;
            && (ShortCircuits(e.operator, l.value) ==> Eval(e, fs).result == l)
            && (!ShortCircuits(e.operator, l.value) ==> Eval(e, fs).result == r)
            && (r.Val? ==>
                  && Eval(e, fs).result.Val?
                  && (e.operator.kind == Or ==>
                        (IsTruthy(Eval(e, fs).result.value) <==> IsTruthy(l.value) || IsTruthy(r.value)))
                  && (e.operator.kind != Or ==>
                        (IsTruthy(Eval(e, fs).result.value) <==> IsTruthy(l.value) && IsTruthy(r.value))))
  {
    EvalPureFrames(e.left, fs);
  }

  /**
   * The unary operators as written: `-` never yields a value, whatever its
   * operand; `!` yields a boolean exactly as truthy as its operand, so `!!x`
   * evaluates exactly as `!x`. Either way the bindings are those the
   * operand left.
   */
  lemma UnaryAsWritten(op: Token, operand: Expr, fs: Scopes)
    requires CallFree(operand)
    ensures op.kind == Minus ==> !Eval(Unary(op, operand), fs).result.Val?
    ensures op.kind == Bang && Eval(operand, fs).result.Val? ==>
              var r := Eval(Unary(op, operand), fs).result;
              r.Val? && r.value.Bool? && (IsTruthy(r.value) <==> IsTruthy(Eval(operand, fs).result.value))
    ensures op.kind == Bang ==> Eval(Unary(op, Unary(op, operand)), fs) == Eval(Unary(op, operand), fs)
    ensures Eval(Unary(op, operand), fs).frames == Eval(operand, fs).frames
  {
  }

  /**
   * Operands run left to right: a left operand that fails decides a binary
   * expression, whatever the right one would do; otherwise the right
   * operand sees the bindings the left one left.
   */
  lemma BinaryLeftFirst(left: Expr, op: Token, right: Expr, right2: Expr, fs: Scopes)
    requires CallFree(left) && CallFree(right) && CallFree(right2)
    ensures !Eval(left, fs).result.Val? ==>
              Eval(Binary(left, op, right), fs) == Eval(left, fs) == Eval(Binary(left, op, right2), fs)
    ensures Eval(left, fs).result.Val? && Eval(right, Eval(left, fs).frames).result.Val? ==>
              Eval(Binary(left, op, right), fs).result
              == BinaryOp(op, Eval(left, fs).result.value, Eval(right, Eval(left, fs).frames).result.value)
  {
  }

  /**
   * An assignment to a bound name followed by a read of it: the read yields
   * the assigned value, and every other name reads as before.
   */
  lemma AssignThenRead(name: Token, value: Expr, other: Token, fs: Scopes)
    requires Pure(value) && FramesBind(fs, name.lexeme)
    requires Eval(value, fs).result.Val?
    ensures var after := Eval(Assign(name, value), fs);
            && after.result == Eval(value, fs).result
            && Eval(Variable(name), after.frames).result == Eval(value, fs).result
            && (other.lexeme != name.lexeme ==>
                  Eval(Variable(other), after.frames).result == Eval(Variable(other), fs).result)
  {
    EvalPureFrames(value, fs);
    FramesAssignGet(fs, name, Eval(value, fs).result.value, other);
  }

  /** The argument loop yields, when every argument succeeds, each argument's own value. */
  lemma {:induction false} EvalArgsPure(arguments: seq<Expr>, fs: Scopes)
    requires AllPure(arguments)
    ensures EvalArgs(arguments, fs).frames == fs
    ensures EvalArgs(arguments, fs).result.Args? <==> forall i | 0 <= i < |arguments| :: Eval(arguments[i], fs).result.Val?
    ensures EvalArgs(arguments, fs).result.Args? ==>
              forall i | 0 <= i < |arguments| :: EvalArgs(arguments, fs).result.values[i] == Eval(arguments[i], fs).result.value
  {
    if arguments != [] {
      EvalPureFrames(arguments[0], fs);
      assert AllPure(arguments[1..]) by {
        forall i | 0 <= i < |arguments[1..]| ensures Pure(arguments[1..][i]) {
          assert arguments[1..][i] == arguments[i + 1];
        }
      }
      EvalArgsPure(arguments[1..], fs);
      forall i | 1 <= i < |arguments| ensures arguments[1..][i - 1] == arguments[i] { }
    }
  }

  /**
   * Statements in sequence: running `ss1 + ss2` is running `ss1` and then,
   * if it completed, `ss2` from where it left off. A statement that does not
   * complete stops everything after it.
   */
  lemma {:induction false} RunAppend(ss1: seq<Stmt>, ss2: seq<Stmt>, fs: Scopes, out: seq<string>, fuel: nat)
    requires AllFirstOrder(ss1) && AllFirstOrder(ss2) && fs != []
    ensures AllFirstOrder(ss1 + ss2)
    ensures var x := Run(ss1, fs, out, fuel);
            Run(ss1 + ss2, fs, out, fuel) == if x.result.Normal? then Run(ss2, x.frames, x.output, fuel) else x
    decreases ss1
  {
    assert AllFirstOrder(ss1 + ss2) by {
      forall i | 0 <= i < |ss1 + ss2| ensures FirstOrder((ss1 + ss2)[i]) {
        if i < |ss1| { assert (ss1 + ss2)[i] == ss1[i]; } else { assert (ss1 + ss2)[i] == ss2[i - |ss1|]; }
      }
    }
    if ss1 != [] {
      assert (ss1 + ss2)[0] == ss1[0];
      assert (ss1 + ss2)[1..] == ss1[1..] + ss2;
      var y := Exec(ss1[0], fs, out, fuel);
      if y.result.Normal? {
        RunAppend(ss1[1..], ss2, y.frames, y.output, fuel);
      }
    } else {
      assert ss1 + ss2 == ss2;
    }
  }

  /** Output is only ever appended to: a statement never takes back a line. */
  lemma {:induction false} ExecOutputGrows(s: Stmt, fs: Scopes, out: seq<string>, fuel: nat)
    requires FirstOrder(s) && fs != []
    ensures out <= Exec(s, fs, out, fuel).output
    decreases s, 1
  {
    match s
    case Block(statements) =>
      RunOutputGrows(statements, [map[]] + fs, out, fuel);
    case Expression(_) =>
    case Function(_, _, _) =>
    case If(_, thenBranch, _) =>
      ExecOutputGrows(thenBranch, fs, out, fuel);
    case Print(_) =>
    case Var(_, _) =>
    case While(_, _) =>
      LoopOutputGrows(s, fs, out, fuel, fuel);
  }

  lemma {:induction false} RunOutputGrows(ss: seq<Stmt>, fs: Scopes, out: seq<string>, fuel: nat)
    requires AllFirstOrder(ss) && fs != []
    ensures out <= Run(ss, fs, out, fuel).output
    decreases ss, 0
  {
    if ss != [] {
      ExecOutputGrows(ss[0], fs, out, fuel);
      var y := Exec(ss[0], fs, out, fuel);
      if y.result.Normal? {
        RunOutputGrows(ss[1..], y.frames, y.output, fuel);
      }
    }
  }

  lemma {:induction false} LoopOutputGrows(s: Stmt, fs: Scopes, out: seq<string>, fuel: nat, budget: nat)
    requires s.While? && FirstOrder(s) && fs != []
    ensures out <= Loop(s, fs, out, fuel, budget).output
    decreases s, 0, budget
  {
    var c := Eval(s.condition, fs);
    if c.result.Val? && IsTruthy(c.result.value) && budget > 0 {
      ExecOutputGrows(s.loopBody, c.frames, out, fuel);
      var b := Exec(s.loopBody, c.frames, out, fuel);
      if b.result.Normal? {
        LoopOutputGrows(s, b.frames, b.output, fuel, budget - 1);
      }
    }
  }

  /** Two chains of the same length whose scopes bind the same names. */
  predicate SameNames(a: Scopes, b: Scopes) {
    |a| == |b| && forall k | 0 <= k < |a| :: a[k].Keys == b[k].Keys
  }

  /** Assignment rebinds, it never adds or removes a name. */
  lemma {:induction false} FramesAssignNames(fs: Scopes, name: string, value: Value)
    ensures SameNames(FramesAssign(fs, name, value), fs)
  {
    if fs != [] && name !in fs[0] {
      FramesAssignNames(fs[1..], name, value);
      var r := FramesAssign(fs, name, value);
      assert r[1..] == FramesAssign(fs[1..], name, value);
      forall k | 1 <= k < |fs| ensures r[k].Keys == fs[k].Keys {
        assert r[k] == r[1..][k - 1] && fs[k] == fs[1..][k - 1];
      }
    }
  }

  /** Evaluating an expression never adds or removes a name. */
  lemma {:induction false} EvalNames(e: Expr, fs: Scopes)
    requires CallFree(e)
    ensures SameNames(Eval(e, fs).frames, fs)
  {
    match e
    case Assign(name, value) =>
      EvalNames(value, fs);
      var v := Eval(value, fs);
      if v.result.Val? {
        FramesAssignNames(v.frames, name.lexeme, v.result.value);
      }
    case Binary(left, _, right) =>
      EvalNames(left, fs);
      EvalNames(right, Eval(left, fs).frames);
    case Call(_, _, _) =>
    case Grouping(inner) =>
      EvalNames(inner, fs);
    case Literal(_) =>
    case Logical(left, _, right) =>
      EvalNames(left, fs);
      EvalNames(right, Eval(left, fs).frames);
    case Unary(_, operand) =>
      EvalNames(operand, fs);
    case Variable(_) =>
  }

  /**
   * Scoping: a statement can add names only to the innermost scope, and a
   * block, which declares into a scope of its own that is dropped at its
   * end, adds none at all.
   */
  lemma {:induction false} ExecNames(s: Stmt, fs: Scopes, out: seq<string>, fuel: nat)
    requires FirstOrder(s) && fs != []
    ensures SameNames(Exec(s, fs, out, fuel).frames[1..], fs[1..])
    ensures s.Block? ==> SameNames(Exec(s, fs, out, fuel).frames, fs)
    decreases s, 1
  {
    SameNamesTail(Exec(s, fs, out, fuel).frames, fs);
    match s
    case Block(statements) =>
      RunNames(statements, [map[]] + fs, out, fuel);
      assert ([map[]] + fs)[1..] == fs;
    case Expression(e) =>
      EvalNames(e, fs);
    case Function(_, _, _) =>
    case If(_, thenBranch, _) =>
      ExecNames(thenBranch, fs, out, fuel);
    case Print(e) =>
      EvalNames(e, fs);
    case Var(name, initializer) =>
      if initializer.Some? {
        EvalNames(initializer.value, fs);
      }
    case While(_, _) =>
      LoopNames(s, fs, out, fuel, fuel);
  }

  lemma {:induction false} RunNames(ss: seq<Stmt>, fs: Scopes, out: seq<string>, fuel: nat)
    requires AllFirstOrder(ss) && fs != []
    ensures SameNames(Run(ss, fs, out, fuel).frames[1..], fs[1..])
    decreases ss, 0
  {
    if ss != [] {
      ExecNames(ss[0], fs, out, fuel);
      var y := Exec(ss[0], fs, out, fuel);
      if y.result.Normal? {
        RunNames(ss[1..], y.frames, y.output, fuel);
      }
    }
  }

  lemma {:induction false} LoopNames(s: Stmt, fs: Scopes, out: seq<string>, fuel: nat, budget: nat)
    requires s.While? && FirstOrder(s) && fs != []
    ensures SameNames(Loop(s, fs, out, fuel, budget).frames[1..], fs[1..])
    decreases s, 0, budget
  {
    var c := Eval(s.condition, fs);
    EvalNames(s.condition, fs);
    SameNamesTail(c.frames, fs);
    if c.result.Val? && IsTruthy(c.result.value) && budget > 0 {
      ExecNames(s.loopBody, c.frames, out, fuel);
      var b := Exec(s.loopBody, c.frames, out, fuel);
      if b.result.Normal? {
        LoopNames(s, b.frames, b.output, fuel, budget - 1);
      }
    }
  }

  lemma SameNamesTail(a: Scopes, b: Scopes)
    requires |a| == |b| && a != []
    ensures SameNames(a, b) <==> a[0].Keys == b[0].Keys && SameNames(a[1..], b[1..])
  {
    if a[0].Keys == b[0].Keys && SameNames(a[1..], b[1..]) {
      forall k | 1 <= k < |a| ensures a[k].Keys == b[k].Keys {
        assert a[k] == a[1..][k - 1] && b[k] == b[1..][k - 1];
      }
    }
  }

  /**
   * A loop whose condition only reads ends normally only on a falsey
   * condition: evaluated in the final bindings, the condition yields a
   * value that is not truthy.
   */
  lemma {:induction false} LoopEndsFalsey(s: Stmt, fs: Scopes, out: seq<string>, fuel: nat, budget: nat)
    requires s.While? && FirstOrder(s) && fs != [] && Pure(s.condition)
    ensures var x := Loop(s, fs, out, fuel, budget);
            x.result.Normal? ==> Eval(s.condition, x.frames).result.Val? && !IsTruthy(Eval(s.condition, x.frames).result.value)
    decreases budget
  {
    EvalPureFrames(s.condition, fs);
    var c := Eval(s.condition, fs);
    if c.result.Val? && IsTruthy(c.result.value) && budget > 0 {
      var b := Exec(s.loopBody, c.frames, out, fuel);
      if b.result.Normal? {
        LoopEndsFalsey(s, b.frames, b.output, fuel, budget - 1);
      }
    }
  }

  /** How `interpret` reports the way the statements ended (pylox/interpreter.py:33-37). */
  function Outcome(r: ExecResult): InterpretResult {
    match r
    case Normal => Completed
    case ExecStop(Thrown(RuntimeException(t, m))) => Reported(RuntimeException(t, m))
    case ExecStop(OutOfFuel) => Exhausted
    case _ => Crashed(r)
  }

  // ---------------------------------------------------------------------
  // Function values
  // ---------------------------------------------------------------------

  /**
   * `LoxFunction`. The declaration and the closure are fixed at creation:
   * both are constants, so no call can reassign them. The source's
   * interpreter constructs it without the closure (pylox/interpreter.py:137)
   * although the constructor requires one; the model passes the environment
   * current at the declaration, as the constructor's signature intends.
   */
  class LoxFunction {
    const declaration: FunctionDecl
    const closure: Environment<Value>

    constructor (declaration: FunctionDecl, closure: Environment<Value>)
      ensures this.declaration == declaration && this.closure == closure
    {
      this.declaration := declaration;
      this.closure := closure;
    }

    /** `arity`: the number of declared parameters. */
    function Arity(): nat {
      |declaration.params|
    }

    /** `__repr__`: "<fn NAME>". */
    function ToString(): string {
      "<fn " + declaration.name.lexeme + ">"
    }

    /**
     * The first half of `call`: a new scope whose enclosing scope is the
     * closure, with the parameters defined one after another. Only the new
     * scope is written, so the closure's own bindings stay as they were.
     */
    method Bind(arguments: seq<Value>) returns (scope: Environment<Value>)
      requires closure.Valid()
      requires |arguments| == Arity()
      ensures fresh(scope) && scope.Valid()
      ensures scope.enclosing == closure && scope.ancestors == closure.Chain()
      ensures scope.values == Bindings(declaration.params, arguments)
    {
      scope := new Environment(closure);
      var params := declaration.params;
      for i := 0 to |params|
        invariant scope.values == Bindings(params[..i], arguments[..i])
      {
        assert params[..i + 1][..i] == params[..i];
        assert arguments[..i + 1][..i] == arguments[..i];
        scope.Define(params[i].lexeme, arguments[i]);
      }
      assert params[..|params|] == params;
      assert arguments[..|arguments|] == arguments;
    }

    /**
     * `call`: bind the arguments in a fresh child of the closure and run the
     * body there; a return signal yields its value, a body that completes
     * yields nil, and an error passes through. For a body that neither
     * calls nor declares a function, the result, the output and the
     * closure's chain afterwards are those of running the body on values.
     */
    method Call(interpreter: Interpreter, arguments: seq<Value>, fuel: nat)
      returns (r: EvalResult, ghost scope: Environment<Value>)
      requires interpreter.Valid() && closure in interpreter.envs
      requires |arguments| == Arity()
      requires forall a | a in arguments :: interpreter.Owned(a)
      modifies interpreter, interpreter.envs
      ensures interpreter.Valid() && interpreter.Evolved()
      ensures interpreter.KeysKeptOutside(old(interpreter.envs), {})
      ensures r.Val? ==> interpreter.Owned(r.value)
      ensures r.Val? ==> r.value == NilValue
      ensures fresh(scope) && scope.enclosing == closure
      ensures AllFirstOrder(declaration.body) ==>
                var x := Run(declaration.body, [Bindings(declaration.params, arguments)] + old(closure.Frames()),
                             old(interpreter.output), fuel);
                && r == CallOutcome(x.result)
                && interpreter.output == x.output
                && closure.Frames() == x.frames[1..]
      ensures AllFirstOrder(declaration.body) ==> interpreter.ValuesKeptOutside(old(interpreter.envs), closure.Chain())
      decreases fuel, 1
    {
      ghost var outer := closure.Frames();
      var callScope := Bind(arguments);
      scope := callScope;
      BindingsDomain(declaration.params, arguments);
      interpreter.envs := interpreter.envs + {callScope};
      assert callScope.Frames() == [Bindings(declaration.params, arguments)] + outer;
      label running:
      var result := interpreter.ExecuteBlock(declaration.body, callScope, fuel);
      assert closure.Frames() == callScope.Frames()[1..];
      if AllFirstOrder(declaration.body) {
        forall e | e in old(interpreter.envs) && e !in closure.Chain()
          ensures e.values == old(e.values)
        {
          assert e in old@running(interpreter.envs) && e !in callScope.Chain();
        }
      }
      r := CallOutcome(result);
    }
  }

  // ---------------------------------------------------------------------
  // The interpreter
  // ---------------------------------------------------------------------

  /**
   * `Interpreter`. The source keeps `_globals` and `_environment` as class
   * attributes shared by all instances; here they are fields of the object.
   * `environment` is the current-scope cursor, `output` collects what `print`
   * writes, and the ghost `envs` is every scope created so far.
   */
  class Interpreter {
    const globals: Environment<Value>
    var environment: Environment<Value>
    var output: seq<string>
    ghost var envs: set<Environment<Value>>

    /** A value whose closure, if any, is one of the known scopes. */
    ghost predicate Owned(v: Value)
      reads this
    {
      v.Fn? ==> v.f.closure in envs
    }

    ghost predicate Valid()
      reads this, envs
    {
      && globals in envs && environment in envs
      && (forall e | e in envs :: e.Valid() && e.ancestors <= envs)
      && (forall e, k | e in envs && k in e.values :: Owned(e.values[k]))
    }

    /**
     * What every evaluation step keeps: scopes are only added, and the new
     * ones are fresh; output is only appended to; the current-scope cursor is
     * back where it was.
     */
    twostate predicate Evolved()
      reads this
    {
      && old(envs) <= envs && fresh(envs - old(envs))
      && old(output) <= output
      && environment == old(environment)
    }

    /** No scope of `before`, other than those in `except`, gained or lost a name. */
    twostate predicate KeysKeptOutside(before: set<Environment<Value>>, except: set<Environment<Value>>)
      reads before
    {
      forall e | e in before && e !in except :: e.values.Keys == old(e.values.Keys)
    }

    /** No scope of `before` outside `chain` changed its bindings at all. */
    twostate predicate ValuesKeptOutside(before: set<Environment<Value>>, chain: set<Environment<Value>>)
      reads before
    {
      forall e | e in before && e !in chain :: e.values == old(e.values)
    }

    /** The source's constructor, without the `clock` native (see README). */
    constructor ()
      ensures Valid() && fresh(envs)
      ensures environment == globals && globals.enclosing == null && globals.values == map[]
      ensures output == []
    {
      var g := new Environment<Value>(null);
      globals := g;
      environment := g;
      output := [];
      envs := {g};
    }

    /**
     * `interpret`: run the statements in order against the current scope,
     * stopping at the first one that does not complete. A RuntimeException
     * is caught and reported; what earlier statements did (bindings, output)
     * stays.
     */
    method Interpret(statements: seq<Stmt>, fuel: nat) returns (r: InterpretResult)
      requires Valid()
      modifies this, envs
      ensures Valid() && Evolved()
      ensures r.Reported? ==> r.error.RuntimeException?
      ensures AllFirstOrder(statements) ==>
                var x := old(Run(statements, environment.Frames(), output, fuel));
                r == Outcome(x.result) && environment.Frames() == x.frames && output == x.output
      ensures AllFirstOrder(statements) ==> ValuesKeptOutside(old(envs), environment.Chain())
    {
      var i := 0;
      while i < |statements|
        invariant 0 <= i <= |statements|
        invariant Valid() && Evolved()
        invariant AllFirstOrder(statements) ==>
                    old(Run(statements, environment.Frames(), output, fuel))
                    == Run(statements[i..], environment.Frames(), output, fuel)
        invariant AllFirstOrder(statements) ==> ValuesKeptOutside(old(envs), environment.Chain())
      {
        var res := Execute(statements[i], fuel);
        assert statements[i..][1..] == statements[i + 1..];
        if !res.Normal? {
          return Outcome(res);
        }
        i := i + 1;
      }
      return Completed;
    }

    /** `_evaluate`: dispatch on the node kind. */
    method Evaluate(e: Expr, fuel: nat) returns (r: EvalResult)
      requires Valid()
      modifies this, envs
      ensures Valid() && Evolved()
      ensures KeysKeptOutside(old(envs), {})
      ensures r.Val? ==> Owned(r.value)
      ensures e.Unary? && e.operator.kind == Minus ==> r.EvalStop?
      ensures CallFree(e) ==>
                Eval(e, old(environment.Frames())) == Evaluated(r, environment.Frames()) && output == old(output)
      ensures CallFree(e) ==> ValuesKeptOutside(old(envs), environment.Chain())
      ensures Pure(e) ==> envs == old(envs) && unchanged(envs)
      decreases fuel, 0, e, 2
    {
      match e
      case Assign(_, _) =>
        r := VisitAssign(e, fuel);
      case Binary(_, _, _) =>
        r := VisitBinary(e, fuel);
      case Call(_, _, _) =>
        r := VisitCall(e, fuel);
      case Grouping(inner) =>
        r := Evaluate(inner, fuel);
      case Literal(lit) =>
        r := Val(LiteralValue(lit));
      case Logical(_, _, _) =>
        r := VisitLogical(e, fuel);
      case Unary(_, _) =>
        r := VisitUnary(e, fuel);
      case Variable(name) =>
        environment.GetFrames(name);
        r := FromLookup(environment.Get(name));
    }

    /** `visit_binary_expr`: the left operand, then the right one, then the operator. */
    method VisitBinary(e: Expr, fuel: nat) returns (r: EvalResult)
      requires e.Binary? && Valid()
      modifies this, envs
      ensures Valid() && Evolved()
      ensures KeysKeptOutside(old(envs), {})
      ensures r.Val? ==> Owned(r.value)
      ensures CallFree(e) ==>
                Eval(e, old(environment.Frames())) == Evaluated(r, environment.Frames()) && output == old(output)
      ensures CallFree(e) ==> ValuesKeptOutside(old(envs), environment.Chain())
      ensures Pure(e) ==> envs == old(envs) && unchanged(envs)
      decreases fuel, 0, e, 0
    {
      var lv := Evaluate(e.left, fuel);
      if !lv.Val? {
        return lv;
      }
      var rv := Evaluate(e.right, fuel);
      if !rv.Val? {
        return rv;
      }
      r := BinaryOp(e.operator, lv.value, rv.value);
    }

    /** `visit_unary_expr`: the operand, then the operator. */
    method VisitUnary(e: Expr, fuel: nat) returns (r: EvalResult)
      requires e.Unary? && Valid()
      modifies this, envs
      ensures Valid() && Evolved()
      ensures KeysKeptOutside(old(envs), {})
      ensures r.Val? ==> Owned(r.value)
      ensures e.operator.kind == Minus ==> r.EvalStop?
      ensures CallFree(e) ==>
                Eval(e, old(environment.Frames())) == Evaluated(r, environment.Frames()) && output == old(output)
      ensures CallFree(e) ==> ValuesKeptOutside(old(envs), environment.Chain())
      ensures Pure(e) ==> envs == old(envs) && unchanged(envs)
      decreases fuel, 0, e, 0
    {
      var v := Evaluate(e.right, fuel);
      if !v.Val? {
        return v;
      }
      r := UnaryOp(e.operator, v.value);
    }

    /**
     * `visit_logical_expr`: `or` returns a truthy left operand and `and` a
     * falsey one without evaluating the right operand; otherwise the right
     * operand's value is the result, not coerced to a boolean.
     */
    method VisitLogical(e: Expr, fuel: nat) returns (r: EvalResult)
      requires e.Logical? && Valid()
      modifies this, envs
      ensures Valid() && Evolved()
      ensures KeysKeptOutside(old(envs), {})
      ensures r.Val? ==> Owned(r.value)
      ensures CallFree(e) ==>
                Eval(e, old(environment.Frames())) == Evaluated(r, environment.Frames()) && output == old(output)
      ensures CallFree(e) ==> ValuesKeptOutside(old(envs), environment.Chain())
      ensures Pure(e) ==> envs == old(envs) && unchanged(envs)
      decreases fuel, 0, e, 0
    {
      var lv := Evaluate(e.left, fuel);
      if !lv.Val? || ShortCircuits(e.operator, lv.value) {
        return lv;
      }
      r := Evaluate(e.right, fuel);
    }

    /**
     * `visit_assign_expr`: evaluate the value, then assign it in the nearest
     * scope that binds the name; the value is the result. Assignment fails
     * only when no scope of the chain binds the name.
     */
    method VisitAssign(e: Expr, fuel: nat) returns (r: EvalResult)
      requires e.Assign? && Valid()
      modifies this, envs
      ensures Valid() && Evolved()
      ensures KeysKeptOutside(old(envs), {})
      ensures r.Val? ==> Owned(r.value)
      ensures CallFree(e) ==>
                Eval(e, old(environment.Frames())) == Evaluated(r, environment.Frames()) && output == old(output)
      ensures CallFree(e) ==> ValuesKeptOutside(old(envs), environment.Chain())
      decreases fuel, 0, e, 0
    {
      var v := Evaluate(e.value, fuel);
      if !v.Val? {
        return v;
      }
      ghost var before := environment.Frames();
      var err := AssignCurrent(e.name, v.value);
      if err.Some? {
        FramesAssignUnbound(before, e.name.lexeme, v.value);
        return EvalStop(Thrown(UndefinedVariable(err.value.token, err.value.message)));
      }
      r := v;
    }

    /** `_assign` on the current scope chain, which keeps the interpreter's invariant. */
    method AssignCurrent(name: Token, value: Value) returns (err: Option<Undefined>)
      requires Valid() && Owned(value)
      modifies envs
      ensures Valid() && unchanged(this)
      ensures KeysKeptOutside(old(envs), {})
      ensures err == None <==> old(FramesBind(environment.Frames(), name.lexeme))
      ensures err.Some? ==> err.value == Undefined(name, UndefinedMessage(name.lexeme))
      ensures environment.Frames() == old(FramesAssign(environment.Frames(), name.lexeme, value))
      ensures ValuesKeptOutside(old(envs), environment.Chain())
    {
      ghost var target := environment.Resolve(name.lexeme);
      ghost var chain := environment.Chain();
      err := environment.Assign(name, value);
      assert environment.Chain() == chain;
      forall e | e in envs
        ensures e.values == old(e.values) || (target.Some? && e == target.value && e.values == old(e.values)[name.lexeme := value])
      {
        if !(target.Some? && e == target.value) && e in chain {
          assert e.values == old(e.values);
        }
      }
      forall e, k | e in envs && k in e.values
        ensures Owned(e.values[k])
      {
        if e.values != old(e.values) && k == name.lexeme {
          assert e.values[k] == value;
        } else {
          assert k in old(e.values) && e.values[k] == old(e.values[k]);
        }
      }
    }

    /** `define` on the current scope, which keeps the interpreter's invariant. */
    method DefineCurrent(name: string, value: Value)
      requires Valid() && Owned(value)
      modifies environment`values
      ensures Valid()
      ensures environment.values == old(environment.values)[name := value]
      ensures environment.Frames() == old(FramesDefine(environment.Frames(), name, value))
      ensures ValuesKeptOutside(old(envs), {environment})
    {
      environment.Define(name, value);
      forall e, k | e in envs && k in e.values
        ensures Owned(e.values[k])
      {
        if e == environment && k == name {
          assert e.values[k] == value;
        } else {
          assert k in old(e.values) && e.values[k] == old(e.values[k]);
        }
      }
    }

    /**
     * `visit_call_expr`: the callee, then every argument left to right, then
     * the callable and arity checks, then the call.
     */
    method VisitCall(e: Expr, fuel: nat) returns (r: EvalResult)
      requires e.Call? && Valid()
      modifies this, envs
      ensures Valid() && Evolved()
      ensures KeysKeptOutside(old(envs), {})
      ensures r.Val? ==> Owned(r.value)
      ensures r.Val? ==> r.value == NilValue
      ensures CallFree(e.callee) && AllCallFree(e.arguments) ==>
                var setup := old(SetUpCall(e, environment.Frames()));
                && (setup.Failed? ==>
                      r == setup.result && environment.Frames() == setup.frames && output == old(output))
                && (setup.Ready? && fuel == 0 ==>
                      r == EvalStop(OutOfFuel) && environment.Frames() == setup.frames && output == old(output))
      ensures Pure(e.callee) && AllPure(e.arguments) ==>
                var setup := old(SetUpCall(e, environment.Frames()));
                setup.Ready? && fuel > 0 ==>
                  && setup.callee.closure in old(envs)
                  && (AllFirstOrder(setup.callee.declaration.body) ==>
                        var f := setup.callee;
                        var x := Run(f.declaration.body, [Bindings(f.declaration.params, setup.arguments)] + old(f.closure.Frames()),
                                     old(output), fuel - 1);
                        r == CallOutcome(x.result) && output == x.output && f.closure.Frames() == x.frames[1..])
      decreases fuel, 0, e, 1
    {
      var f, arguments;
      r, f, arguments := PrepareCall(e, fuel);
      if f == null {
        return;
      }
      if fuel == 0 {
        return EvalStop(OutOfFuel);
      }
      ghost var scope;
      if Pure(e.callee) && AllPure(e.arguments) {
        assert f.closure.Chain() <= envs;
        f.closure.FramesKept();
        r, scope := f.Call(this, arguments, fuel - 1);
      } else {
        r, scope := f.Call(this, arguments, fuel - 1);
      }
    }

    /**
     * `visit_call_expr` up to the call: the callee, the arguments left to
     * right, and the callable and arity checks. A null function means the
     * call failed with `r`.
     */
    method PrepareCall(e: Expr, fuel: nat) returns (r: EvalResult, f: LoxFunction?, arguments: seq<Value>)
      requires e.Call? && Valid()
      modifies this, envs
      ensures Valid() && Evolved()
      ensures KeysKeptOutside(old(envs), {})
      ensures f == null ==> !r.Val?
      ensures f != null ==> f.closure in envs && |arguments| == f.Arity() && forall a | a in arguments :: Owned(a)
      ensures CallFree(e.callee) && AllCallFree(e.arguments) ==>
                var setup := old(SetUpCall(e, environment.Frames()));
                && (setup.Failed? <==> f == null)
                && (setup.Failed? ==> r == setup.result)
                && (setup.Ready? ==> f == setup.callee && arguments == setup.arguments)
                && environment.Frames() == setup.frames && output == old(output)
      ensures Pure(e.callee) && AllPure(e.arguments) ==> envs == old(envs) && unchanged(envs)
      decreases fuel, 0, e, 0
    {
      arguments := [];
      var fv := Evaluate(e.callee, fuel);
      if !fv.Val? {
        return fv, null, arguments;
      }
      var evaluated := EvaluateArguments(e.arguments, fuel);
      if evaluated.ArgsStop? {
        return EvalStop(evaluated.stop), null, arguments;
      }
      var err := CallError(e.paren, fv.value, |evaluated.values|);
      if err.Some? {
        return EvalStop(Thrown(err.value)), null, arguments;
      }
      r, f, arguments := fv, fv.value.f, evaluated.values;
    }

    /** The argument loop of `visit_call_expr`: left to right, stopping at the first argument that fails. */
    method EvaluateArguments(arguments: seq<Expr>, fuel: nat) returns (r: ArgsResult)
      requires Valid()
      modifies this, envs
      ensures Valid() && Evolved()
      ensures KeysKeptOutside(old(envs), {})
      ensures r.Args? ==> |r.values| == |arguments| && forall v | v in r.values :: Owned(v)
      ensures AllCallFree(arguments) ==>
                EvalArgs(arguments, old(environment.Frames())) == ArgsEvaluated(r, environment.Frames())
                && output == old(output)
      ensures AllCallFree(arguments) ==> ValuesKeptOutside(old(envs), environment.Chain())
      ensures AllPure(arguments) ==> envs == old(envs) && unchanged(envs)
      decreases fuel, 0, arguments, 0
    {
      var values: seq<Value> := [];
      for i := 0 to |arguments|
        invariant Valid() && Evolved()
        invariant KeysKeptOutside(old(envs), {})
        invariant |values| == i && forall v | v in values :: Owned(v)
        invariant AllCallFree(arguments) ==>
                    EvalArgs(arguments, old(environment.Frames()))
                    == AfterValues(values, EvalArgs(arguments[i..], environment.Frames()))
                    && output == old(output)
        invariant AllCallFree(arguments) ==> ValuesKeptOutside(old(envs), environment.Chain())
        invariant AllPure(arguments) ==> envs == old(envs) && unchanged(envs)
      {
        var a := Evaluate(arguments[i], fuel);
        assert arguments[i..][1..] == arguments[i + 1..];
        if !a.Val? {
          return ArgsStop(a.stop);
        }
        if AllCallFree(arguments) {
          AfterValuesStep(values, a.value, EvalArgs(arguments[i + 1..], environment.Frames()));
        }
        values := values + [a.value];
      }
      assert values + [] == values;
      return Args(values);
    }

    /** `_execute`: dispatch on the statement kind. */
    method Execute(s: Stmt, fuel: nat) returns (r: ExecResult)
      requires Valid()
      modifies this, envs
      ensures Valid() && Evolved()
      ensures KeysKeptOutside(old(envs), {old(environment)})
      ensures !Declares(s) ==> KeysKeptOutside(old(envs), {})
      ensures r.Returned? ==> Owned(r.value)
      ensures !r.Returned?
      ensures FirstOrder(s) ==>
                Exec(s, old(environment.Frames()), old(output), fuel) == Executed(r, environment.Frames(), output)
      ensures FirstOrder(s) ==> ValuesKeptOutside(old(envs), environment.Chain())
      decreases fuel, 0, s, 1
    {
      match s
      case Block(_) =>
        ghost var scope;
        r, scope := VisitBlock(s, fuel);
      case Expression(e) =>
        // `visit_expression_stmt`: evaluate and discard the value
        var v := Evaluate(e, fuel);
        r := if v.Val? then Normal else ExecStop(v.stop);
      case Function(_, _, _) =>
        ghost var f;
        r, f := VisitFunction(s);
      case If(_, thenBranch, _) =>
        // `visit_if_stmt` as written tests the truthiness of the condition's
        // syntax node, which is always truthy, so the condition is never
        // evaluated and the then-branch always runs.
        r := Execute(thenBranch, fuel);
      case Print(_) =>
        r := VisitPrint(s, fuel);
      case Var(_, _) =>
        r := VisitVar(s, fuel);
      case While(_, _) =>
        r := VisitWhile(s, fuel);
    }

    /** `visit_print_stmt`: the stringified value becomes the last line of output. */
    method VisitPrint(s: Stmt, fuel: nat) returns (r: ExecResult)
      requires s.Print? && Valid()
      modifies this, envs
      ensures Valid() && Evolved()
      ensures KeysKeptOutside(old(envs), {})
      ensures r.ExecStop? || r == Normal
      ensures FirstOrder(s) ==>
                Exec(s, old(environment.Frames()), old(output), fuel) == Executed(r, environment.Frames(), output)
      ensures FirstOrder(s) ==> ValuesKeptOutside(old(envs), environment.Chain())
      decreases fuel, 0, s, 0
    {
      var v := Evaluate(s.expression, fuel);
      if !v.Val? {
        return ExecStop(v.stop);
      }
      output := output + [Stringify(v.value)];
      r := Normal;
    }

    /**
     * `visit_var_stmt`: the initializer's value, or nil when there is none,
     * is defined in the current scope.
     */
    method VisitVar(s: Stmt, fuel: nat) returns (r: ExecResult)
      requires s.Var? && Valid()
      modifies this, envs
      ensures Valid() && Evolved()
      ensures KeysKeptOutside(old(envs), {environment})
      ensures r.ExecStop? || r == Normal
      ensures r == Normal ==> environment.Resolve(s.name.lexeme) == Some(environment)
      ensures FirstOrder(s) ==>
                Exec(s, old(environment.Frames()), old(output), fuel) == Executed(r, environment.Frames(), output)
      ensures FirstOrder(s) ==> ValuesKeptOutside(old(envs), environment.Chain())
      decreases fuel, 0, s, 0
    {
      var v := Val(NilValue);
      if s.initializer.Some? {
        v := Evaluate(s.initializer.value, fuel);
        if !v.Val? {
          return ExecStop(v.stop);
        }
      }
      DefineCurrent(s.name.lexeme, v.value);
      r := Normal;
    }

    /**
     * `visit_function_stmt`: a new function value closing over the current
     * scope is bound to the declaration's name there, before any call can
     * run its body, so the body can call itself.
     */
    method VisitFunction(s: Stmt) returns (r: ExecResult, ghost f: LoxFunction)
      requires s.Function? && Valid()
      modifies this, envs
      ensures Valid() && Evolved() && envs == old(envs) && output == old(output)
      ensures KeysKeptOutside(old(envs), {environment})
      ensures r == Normal && fresh(f)
      ensures f.declaration == s && f.closure == environment
      ensures environment.values == old(environment.values)[s.name.lexeme := Fn(f)]
      ensures ValuesKeptOutside(old(envs), {environment})
    {
      var fn := new LoxFunction(s, environment);
      f := fn;
      DefineCurrent(s.name.lexeme, Fn(fn));
      r := Normal;
    }

    /**
     * `visit_block_stmt`: the statements run in a fresh child of the current
     * scope.
     */
    method VisitBlock(s: Stmt, fuel: nat) returns (r: ExecResult, ghost scope: Environment<Value>)
      requires s.Block? && Valid()
      modifies this, envs
      ensures Valid() && Evolved()
      ensures KeysKeptOutside(old(envs), {})
      ensures r.Returned? ==> Owned(r.value)
      ensures !r.Returned?
      ensures fresh(scope) && scope.enclosing == old(environment)
      ensures FirstOrder(s) ==>
                Exec(s, old(environment.Frames()), old(output), fuel) == Executed(r, environment.Frames(), output)
      ensures FirstOrder(s) ==> ValuesKeptOutside(old(envs), environment.Chain())
      decreases fuel, 0, s, 0
    {
      ghost var outer := environment.Frames();
      var blockScope := new Environment(environment);
      scope := blockScope;
      envs := envs + {blockScope};
      assert blockScope.Frames() == [map[]] + outer;
      label running:
      r := ExecuteBlock(s.statements, blockScope, fuel);
      assert environment.Frames() == blockScope.Frames()[1..];
      if FirstOrder(s) {
        forall e | e in old(envs) && e !in environment.Chain()
          ensures e.values == old(e.values)
        {
          assert e in old@running(envs) && e !in blockScope.Chain();
        }
      }
    }

    /**
     * `visit_while_stmt`: the condition is evaluated before every iteration;
     * the loop ends normally only on a falsey condition. Each loop may take
     * at most `fuel` iterations.
     */
    method VisitWhile(s: Stmt, fuel: nat) returns (r: ExecResult)
      requires s.While? && Valid()
      modifies this, envs
      ensures Valid() && Evolved()
      ensures KeysKeptOutside(old(envs), {environment})
      ensures !Declares(s) ==> KeysKeptOutside(old(envs), {})
      ensures r.Returned? ==> Owned(r.value)
      ensures !r.Returned?
      ensures FirstOrder(s) ==>
                Exec(s, old(environment.Frames()), old(output), fuel) == Executed(r, environment.Frames(), output)
      ensures FirstOrder(s) ==> ValuesKeptOutside(old(envs), environment.Chain())
      decreases fuel, 0, s, 0
    {
      var budget := fuel;
      while true
        invariant Valid() && Evolved()
        invariant KeysKeptOutside(old(envs), {environment})
        invariant !Declares(s) ==> KeysKeptOutside(old(envs), {})
        invariant FirstOrder(s) ==>
                    Loop(s, old(environment.Frames()), old(output), fuel, fuel)
                    == Loop(s, environment.Frames(), output, fuel, budget)
        invariant FirstOrder(s) ==> ValuesKeptOutside(old(envs), environment.Chain())
        decreases budget
      {
        var c := Evaluate(s.condition, fuel);
        if !c.Val? {
          return ExecStop(c.stop);
        }
        if !IsTruthy(c.value) {
          return Normal;
        }
        if budget == 0 {
          return ExecStop(OutOfFuel);
        }
        var b := Execute(s.loopBody, fuel);
        if b != Normal {
          return b;
        }
        budget := budget - 1;
      }
    }

    /**
     * `_execute_block`: run the statements with `scope` as the current
     * scope, stopping at the first that does not complete, and put the
     * previous scope back whatever the outcome.
     */
    method ExecuteBlock(statements: seq<Stmt>, scope: Environment<Value>, fuel: nat) returns (r: ExecResult)
      requires Valid() && scope in envs
      modifies this, envs
      ensures Valid() && Evolved()
      ensures KeysKeptOutside(old(envs), {scope})
      ensures r.Returned? ==> Owned(r.value)
      ensures !r.Returned?
      ensures AllFirstOrder(statements) ==>
                Run(statements, old(scope.Frames()), old(output), fuel) == Executed(r, scope.Frames(), output)
      ensures AllFirstOrder(statements) ==> ValuesKeptOutside(old(envs), scope.Chain())
      decreases fuel, 0, statements, 0
    {
      var previous := environment;
      environment := scope;
      r := Normal;
      var i := 0;
      while i < |statements| && r == Normal
        invariant 0 <= i <= |statements|
        invariant Valid() && environment == scope
        invariant old(envs) <= envs && fresh(envs - old(envs)) && old(output) <= output
        invariant KeysKeptOutside(old(envs), {scope})
        invariant r.Returned? ==> Owned(r.value)
        invariant !r.Returned?
        invariant AllFirstOrder(statements) ==>
                    if r.Normal? then
                      Run(statements, old(scope.Frames()), old(output), fuel)
                      == Run(statements[i..], scope.Frames(), output, fuel)
                    else Run(statements, old(scope.Frames()), old(output), fuel) == Executed(r, scope.Frames(), output)
        invariant AllFirstOrder(statements) ==> ValuesKeptOutside(old(envs), scope.Chain())
      {
        r := Execute(statements[i], fuel);
        assert statements[i..][1..] == statements[i + 1..];
        i := i + 1;
      }
      environment := previous;
    }
  }
}
