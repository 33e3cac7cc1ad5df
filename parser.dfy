/**
 * The recursive-descent parser (pylox/parser.py). In this snapshot it knows
 * `print` statements, expression statements and the binary precedence
 * ladder equality, comparison, term, factor over unary and primary.
 *
 * The grammar is first written as pure rule functions from a token sequence
 * and a cursor position to a `Parsed` outcome; these are the specification.
 * The `Parser` class then follows the source's own shape (a mutable cursor,
 * the `while` loops that fold each precedence level) and each of its
 * methods is proved to agree with its rule.
 *
 * Two kinds of error exist. `_consume` reports a missing token and carries
 * on without advancing; `primary` reports "Expect expression." and raises
 * ParserError, which nothing in the parser catches, so the whole parse ends
 * with `Raised`. Reports go to the `errors` log (the source prints them
 * through `Lox.error`, which is not part of this model).
 */
module Parser {
  import opened Wrappers
  import opened Tokens
  import opened Ast

  datatype ParseError = ParseError(token: Token, message: string)

  /** A rule's outcome: the node, the cursor after it and the log; or ParserError raised. */
  datatype Parsed<T> = Parsed(value: T, pos: nat, errors: seq<ParseError>) | Raised(errors: seq<ParseError>)

  /**
   * What a rule method leaves (its result, the cursor and the log) is the
   * rule's outcome: the same node at the same position, or a raise with the
   * same log.
   */
  predicate Agrees<T(==)>(r: Option<T>, pos: nat, errs: seq<ParseError>, spec: Parsed<T>) {
    && errs == spec.errors
    && (r.Some? <==> spec.Parsed?)
    && (r.Some? ==> r.value == spec.value && pos == spec.pos)
  }

  /** Cursor and log after `_consume` or `_synchronize`-like steps. */
  datatype Step = Step(pos: nat, errors: seq<ParseError>)

  /** The four binary levels, loosest first. */
  datatype Precedence = Equality | Comparison | Term | Factor

  const ExpectExpression := "Expect expression."
  const ExpectRightParen := "Expected ')' after expression."
  const ExpectSemicolonAfterValue := "Expect ';' after value."
  const ExpectSemicolonAfterExpression := "Expect ';' after expression."

  // ---------------------------------------------------------------------
  // Cursor
  // ---------------------------------------------------------------------

  /** The index of the first EOF token, or the length when there is none. */
  function FirstEof(ts: seq<Token>): (n: nat)
    ensures n <= |ts|
    ensures n < |ts| ==> ts[n].kind == Eof
    ensures forall j | 0 <= j < n :: ts[j].kind != Eof
  {
    if ts == [] then 0
    else if ts[0].kind == Eof then 0
    else 1 + FirstEof(ts[1..])
  }

  /** Some token is EOF: what `_peek` needs so that the cursor stops before running off. */
  predicate HasEof(ts: seq<Token>) {
    FirstEof(ts) < |ts|
  }

  /** A cursor position the parser can reach: never past the first EOF. */
  predicate Cursor(ts: seq<Token>, pos: nat) {
    pos <= FirstEof(ts) < |ts|
  }

  lemma CursorStart(ts: seq<Token>)
    requires HasEof(ts)
    ensures Cursor(ts, 0)
  {
  }

  /** Stepping over a token that is not EOF keeps a valid cursor. */
  lemma CursorStep(ts: seq<Token>, pos: nat)
    requires Cursor(ts, pos) && ts[pos].kind != Eof
    ensures Cursor(ts, pos + 1)
  {
  }

  /** `_is_at_end`. */
  predicate AtEnd(ts: seq<Token>, pos: nat)
    requires pos < |ts|
  {
    ts[pos].kind == Eof
  }

  /** On a reachable cursor, the parser is at the end exactly at the first EOF. */
  lemma AtEndAtFirstEof(ts: seq<Token>, pos: nat)
    requires Cursor(ts, pos)
    ensures AtEnd(ts, pos) <==> pos == FirstEof(ts)
  {
  }

  /** `_check`: the current token has the kind, and never at EOF. */
  predicate CheckAt(ts: seq<Token>, pos: nat, kind: TokenType)
    requires pos < |ts|
    ensures CheckAt(ts, pos, kind) ==> !AtEnd(ts, pos)
  {
    if AtEnd(ts, pos) then false else ts[pos].kind == kind
  }

  /** Whether `_match` with these kinds consumes the current token. */
  predicate MatchesAt(ts: seq<Token>, pos: nat, kinds: seq<TokenType>)
    requires pos < |ts|
  {
    !AtEnd(ts, pos) && ts[pos].kind in kinds
  }

  /**
   * `_previous`: the token before the cursor; at 0, Python's index -1, the
   * last one. Past the start of a reachable cursor it is a consumed token,
   * so never EOF.
   */
  function Previous(ts: seq<Token>, pos: nat): (r: Token)
    requires pos < |ts|
    ensures pos > 0 ==> r == ts[pos - 1]
    ensures pos == 0 ==> r == ts[|ts| - 1]
    ensures pos > 0 && Cursor(ts, pos) ==> r.kind != Eof
  {
    if pos == 0 then ts[|ts| - 1] else ts[pos - 1]
  }

  /** `_consume`: step over a token of the kind, or report and stay. */
  function ConsumeAt(ts: seq<Token>, pos: nat, errs: seq<ParseError>, kind: TokenType, message: string): (s: Step)
    requires Cursor(ts, pos)
    ensures Cursor(ts, s.pos) && errs <= s.errors
    ensures CheckAt(ts, pos, kind) ==> s == Step(pos + 1, errs)
    ensures !CheckAt(ts, pos, kind) ==> s == Step(pos, errs + [ParseError(ts[pos], message)])
  {
    if CheckAt(ts, pos, kind) then
      CursorStep(ts, pos);
      Step(pos + 1, errs)
    else Step(pos, errs + [ParseError(ts[pos], message)])
  }

  // ---------------------------------------------------------------------
  // Expression rules
  // ---------------------------------------------------------------------

  /** The operators each level's loop matches (pylox/parser.py:38, 48, 58, 68). */
  function Operators(level: Precedence): seq<TokenType> {
    match level
    case Equality => [BangEqual, EqualEqual]
    case Comparison => [Less, LessEqual, Greater, GreaterEqual]
    case Term => [Plus, Minus]
    case Factor => [Star, Slash]
  }

  function Rank(level: Precedence): nat {
    match level
    case Equality => 4
    case Comparison => 3
    case Term => 2
    case Factor => 1
  }

  /** The level whose rule parses this level's operands (for Factor it is `unary`). */
  function Lower(level: Precedence): Precedence
    requires level != Factor
    ensures Rank(Lower(level)) == Rank(level) - 1
  {
    match level
    case Equality => Comparison
    case Comparison => Term
    case Term => Factor
  }

  /** The binary level at which an operator is parsed; 0 for tokens no level matches. */
  function Tier(kind: TokenType): nat {
    if kind in Operators(Equality) then 4
    else if kind in Operators(Comparison) then 3
    else if kind in Operators(Term) then 2
    else if kind in Operators(Factor) then 1
    else 0
  }

  /** Every operator a level matches is parsed at that level. */
  lemma OperatorTier(level: Precedence, kind: TokenType)
    requires kind in Operators(level)
    ensures Tier(kind) == Rank(level)
  {
  }

  /**
   * The trees the ladder can build, indexed by the loosest level allowed at
   * the root. A binary node's operator sits at a level no looser than `k`,
   * its left operand at no looser level than its own, and its right operand
   * strictly tighter: same-level chains lean left, and tighter operators
   * end up deeper. Below the binary levels come unary operators over
   * operands of their own kind, literals and parenthesised expressions.
   */
  predicate Shaped(e: Expr, k: nat) {
    match e
    case Binary(l, op, r) => 1 <= Tier(op.kind) <= k && Shaped(l, Tier(op.kind)) && Shaped(r, Tier(op.kind) - 1)
    case Unary(op, x) => op.kind in {Minus, Bang} && Shaped(x, 0)
    case Grouping(x) => Shaped(x, 4)
    case Literal(_) => true
    case _ => false
  }

  /** `expression`: the equality level. */
  function ExpressionRule(ts: seq<Token>, pos: nat, errs: seq<ParseError>): (r: Parsed<Expr>)
    requires Cursor(ts, pos)
    ensures r.Parsed? ==> pos < r.pos && Cursor(ts, r.pos)
    decreases |ts| - pos, 15
  {
    BinaryRule(Equality, ts, pos, errs)
  }

  /**
   * One binary level (`equality`, `comparison`, `term` or `factor`): an
   * operand, then the left fold of `BinaryTail`.
   */
  function BinaryRule(level: Precedence, ts: seq<Token>, pos: nat, errs: seq<ParseError>): (r: Parsed<Expr>)
    requires Cursor(ts, pos)
    ensures r.Parsed? ==> pos < r.pos && Cursor(ts, r.pos)
    decreases |ts| - pos, 3 * Rank(level) + 1
  {
    match OperandRule(level, ts, pos, errs)
    case Raised(e) => Raised(e)
    case Parsed(l, p, e) => BinaryTail(level, ts, l, p, e)
  }

  /**
   * The loop of a binary level: while the current token is one of the
   * level's operators, parse another operand and make the tree so far its
   * left child.
   */
  function BinaryTail(level: Precedence, ts: seq<Token>, left: Expr, pos: nat, errs: seq<ParseError>): (r: Parsed<Expr>)
    requires Cursor(ts, pos)
    ensures r.Parsed? ==> pos <= r.pos && Cursor(ts, r.pos)
    ensures !MatchesAt(ts, pos, Operators(level)) ==> r == Parsed(left, pos, errs)
    decreases |ts| - pos, 3 * Rank(level) + 2
  {
    if !MatchesAt(ts, pos, Operators(level)) then Parsed(left, pos, errs)
    else
      CursorStep(ts, pos);
      var operator := ts[pos];
      match OperandRule(level, ts, pos + 1, errs)
      case Raised(e) => Raised(e)
      case Parsed(rv, p, e) => BinaryTail(level, ts, Binary(left, operator, rv), p, e)
  }

  /** An operand of a binary level: the next tighter level, or `unary` under `factor`. */
  function OperandRule(level: Precedence, ts: seq<Token>, pos: nat, errs: seq<ParseError>): (r: Parsed<Expr>)
    requires Cursor(ts, pos)
    ensures r.Parsed? ==> pos < r.pos && Cursor(ts, r.pos)
    decreases |ts| - pos, 3 * Rank(level)
  {
    if level == Factor then UnaryRule(ts, pos, errs) else BinaryRule(Lower(level), ts, pos, errs)
  }

  /** A tree shaped for a tighter level is shaped for any looser one. */
  lemma ShapedLoosens(e: Expr, k: nat, k': nat)
    requires Shaped(e, k) && k <= k'
    ensures Shaped(e, k')
  {
  }

  /** A binary level's first operand starts its loop. */
  lemma BinaryRuleStart(level: Precedence, ts: seq<Token>, pos: nat, errs: seq<ParseError>)
    requires Cursor(ts, pos) && OperandRule(level, ts, pos, errs).Parsed?
    ensures var left := OperandRule(level, ts, pos, errs);
            && BinaryRule(level, ts, pos, errs) == BinaryTail(level, ts, left.value, left.pos, left.errors)
  {
  }

  /**
   * One turn of a binary level's loop: after one of its operators, the
   * level's operand rule decides whether the loop raises or goes on with
   * the operator and operand folded into the tree.
   */
  lemma BinaryTailStep(level: Precedence, ts: seq<Token>, left: Expr, pos: nat, errs: seq<ParseError>)
      returns (right: Parsed<Expr>)
    requires Cursor(ts, pos) && MatchesAt(ts, pos, Operators(level))
    ensures Cursor(ts, pos + 1) && right == OperandRule(level, ts, pos + 1, errs)
    ensures right.Raised? ==> BinaryTail(level, ts, left, pos, errs) == Raised(right.errors)
    ensures right.Parsed? ==>
              BinaryTail(level, ts, left, pos, errs)
              == BinaryTail(level, ts, Binary(left, ts[pos], right.value), right.pos, right.errors)
  {
    CursorStep(ts, pos);
    right := OperandRule(level, ts, pos + 1, errs);
  }

  /** `unary`: prefix `-` or `!` over another unary, otherwise a primary. */
  function UnaryRule(ts: seq<Token>, pos: nat, errs: seq<ParseError>): (r: Parsed<Expr>)
    requires Cursor(ts, pos)
    ensures r.Parsed? ==> pos < r.pos && Cursor(ts, r.pos)
    decreases |ts| - pos, 1
  {
    if MatchesAt(ts, pos, [Minus, Bang]) then
      CursorStep(ts, pos);
      match UnaryRule(ts, pos + 1, errs)
      case Raised(e) => Raised(e)
      case Parsed(operand, p, e) => Parsed(Unary(ts[pos], operand), p, e)
    else PrimaryRule(ts, pos, errs)
  }

  /**
   * `primary`: `true`, `false` and `nil` become literals, a number or string
   * token its own literal, `( e )` a grouping, whose missing `)` is
   * reported without stopping; anything else, EOF included, is reported
   * and raises.
   */
  function PrimaryRule(ts: seq<Token>, pos: nat, errs: seq<ParseError>): (r: Parsed<Expr>)
    requires Cursor(ts, pos)
    ensures r.Parsed? ==> pos < r.pos && Cursor(ts, r.pos)
    ensures ts[pos].kind == True ==> r == Parsed(Literal(BoolLit(true)), pos + 1, errs)
    ensures ts[pos].kind == False ==> r == Parsed(Literal(BoolLit(false)), pos + 1, errs)
    ensures ts[pos].kind == Nil ==> r == Parsed(Literal(NoLit), pos + 1, errs)
    ensures ts[pos].kind in {Number, String} ==> r == Parsed(Literal(ts[pos].literal), pos + 1, errs)
    ensures ts[pos].kind == LeftParen ==>
              var inner := ExpressionRule(ts, pos + 1, errs);
              && (r.Parsed? <==> inner.Parsed?)
              && (r.Parsed? ==> r.value == Grouping(inner.value))
    ensures ts[pos].kind !in {True, False, Nil, Number, String, LeftParen} ==>
              r == Raised(errs + [ParseError(ts[pos], ExpectExpression)])
    decreases |ts| - pos, 0
  {
    if MatchesAt(ts, pos, [True]) then Parsed(Literal(BoolLit(true)), pos + 1, errs)
    else if MatchesAt(ts, pos, [False]) then Parsed(Literal(BoolLit(false)), pos + 1, errs)
    else if MatchesAt(ts, pos, [Nil]) then Parsed(Literal(NoLit), pos + 1, errs)
    else if MatchesAt(ts, pos, [Number, String]) then Parsed(Literal(ts[pos].literal), pos + 1, errs)
    else if MatchesAt(ts, pos, [LeftParen]) then
      CursorStep(ts, pos);
      GroupRule(ts, pos + 1, errs)
    else Raised(errs + [ParseError(ts[pos], ExpectExpression)])
  }

  /** The rest of a parenthesised primary: an expression, then `)`. */
  function GroupRule(ts: seq<Token>, pos: nat, errs: seq<ParseError>): (r: Parsed<Expr>)
    requires Cursor(ts, pos)
    ensures r.Parsed? ==> pos < r.pos && Cursor(ts, r.pos) && r.value.Grouping?
    decreases |ts| - pos, 16
  {
    match ExpressionRule(ts, pos, errs)
    case Raised(e) => Raised(e)
    case Parsed(inner, p, e) =>
      var closed := ConsumeAt(ts, p, e, RightParen, ExpectRightParen);
      Parsed(Grouping(inner), closed.pos, closed.errors)
  }

  // ---------------------------------------------------------------------
  // The shape of what the expression rules build
  // ---------------------------------------------------------------------

  /** `expression` builds trees shaped for the loosest level. */
  lemma {:induction false} ExpressionShaped(ts: seq<Token>, pos: nat, errs: seq<ParseError>)
    requires Cursor(ts, pos)
    ensures var r := ExpressionRule(ts, pos, errs); r.Parsed? ==> Shaped(r.value, 4)
    decreases |ts| - pos, 15
  {
    BinaryShaped(Equality, ts, pos, errs);
  }

  /** A binary level builds trees shaped for that level. */
  lemma {:induction false} BinaryShaped(level: Precedence, ts: seq<Token>, pos: nat, errs: seq<ParseError>)
    requires Cursor(ts, pos)
    ensures var r := BinaryRule(level, ts, pos, errs); r.Parsed? ==> Shaped(r.value, Rank(level))
    decreases |ts| - pos, 3 * Rank(level) + 1
  {
    var left := OperandRule(level, ts, pos, errs);
    OperandShaped(level, ts, pos, errs);
    if left.Parsed? {
      ShapedLoosens(left.value, Rank(level) - 1, Rank(level));
      BinaryTailShaped(level, ts, left.value, left.pos, left.errors);
    }
  }

  /** The loop of a binary level keeps the tree so far shaped for the level. */
  lemma {:induction false} BinaryTailShaped(level: Precedence, ts: seq<Token>, left: Expr, pos: nat, errs: seq<ParseError>)
    requires Cursor(ts, pos) && Shaped(left, Rank(level))
    ensures var r := BinaryTail(level, ts, left, pos, errs); r.Parsed? ==> Shaped(r.value, Rank(level))
    decreases |ts| - pos, 3 * Rank(level) + 2
  {
    if MatchesAt(ts, pos, Operators(level)) {
      CursorStep(ts, pos);
      OperatorTier(level, ts[pos].kind);
      var right := OperandRule(level, ts, pos + 1, errs);
      OperandShaped(level, ts, pos + 1, errs);
      if right.Parsed? {
        BinaryTailShaped(level, ts, Binary(left, ts[pos], right.value), right.pos, right.errors);
      }
    }
  }

  /** A binary level's operands are shaped for the next tighter level. */
  lemma {:induction false} OperandShaped(level: Precedence, ts: seq<Token>, pos: nat, errs: seq<ParseError>)
    requires Cursor(ts, pos)
    ensures var r := OperandRule(level, ts, pos, errs); r.Parsed? ==> Shaped(r.value, Rank(level) - 1)
    decreases |ts| - pos, 3 * Rank(level)
  {
    if level == Factor {
      UnaryShaped(ts, pos, errs);
    } else {
      BinaryShaped(Lower(level), ts, pos, errs);
    }
  }

  /** `unary` builds prefix operators over unary operands, down to a primary. */
  lemma {:induction false} UnaryShaped(ts: seq<Token>, pos: nat, errs: seq<ParseError>)
    requires Cursor(ts, pos)
    ensures var r := UnaryRule(ts, pos, errs); r.Parsed? ==> Shaped(r.value, 0)
    decreases |ts| - pos, 1
  {
    if MatchesAt(ts, pos, [Minus, Bang]) {
      CursorStep(ts, pos);
      UnaryShaped(ts, pos + 1, errs);
    } else {
      PrimaryShaped(ts, pos, errs);
    }
  }

  /** `primary` builds a literal or a grouping around an expression. */
  lemma {:induction false} PrimaryShaped(ts: seq<Token>, pos: nat, errs: seq<ParseError>)
    requires Cursor(ts, pos)
    ensures var r := PrimaryRule(ts, pos, errs); r.Parsed? ==> Shaped(r.value, 0)
    decreases |ts| - pos, 0
  {
    if MatchesAt(ts, pos, [LeftParen]) {
      CursorStep(ts, pos);
      ExpressionShaped(ts, pos + 1, errs);
    }
  }

  // ---------------------------------------------------------------------
  // The literals of what the expression rules build
  // ---------------------------------------------------------------------

  /** The literal leaves of a tree, left to right. */
  function Leaves(e: Expr): seq<Lit> {
    match e
    case Binary(l, _, r) => Leaves(l) + Leaves(r)
    case Unary(_, x) => Leaves(x)
    case Grouping(x) => Leaves(x)
    case Literal(lit) => [lit]
    case _ => []
  }

  /** The literal a token stands for in `primary`, if any. */
  function TokenLiteral(t: Token): seq<Lit> {
    match t.kind
    case True => [BoolLit(true)]
    case False => [BoolLit(false)]
    case Nil => [NoLit]
    case Number => [t.literal]
    case String => [t.literal]
    case _ => []
  }

  /** The literals the tokens `ts[lo..hi]` stand for, in order. */
  function LiteralsIn(ts: seq<Token>, lo: nat, hi: nat): seq<Lit>
    requires lo <= hi <= |ts|
    decreases hi - lo
  {
    if lo == hi then [] else TokenLiteral(ts[lo]) + LiteralsIn(ts, lo + 1, hi)
  }

  lemma {:induction false} LiteralsInSplit(ts: seq<Token>, lo: nat, mid: nat, hi: nat)
    requires lo <= mid <= hi <= |ts|
    ensures LiteralsIn(ts, lo, hi) == LiteralsIn(ts, lo, mid) + LiteralsIn(ts, mid, hi)
    decreases mid - lo
  {
    if lo < mid {
      LiteralsInSplit(ts, lo + 1, mid, hi);
    }
  }

  /**
   * `expression` loses and invents no literal: the leaves of the tree it
   * builds, left to right, are the literals of the tokens it consumed.
   */
  lemma {:induction false} ExpressionLeaves(ts: seq<Token>, pos: nat, errs: seq<ParseError>)
    requires Cursor(ts, pos)
    ensures var r := ExpressionRule(ts, pos, errs); r.Parsed? ==> Leaves(r.value) == LiteralsIn(ts, pos, r.pos)
    decreases |ts| - pos, 15
  {
    BinaryLeaves(Equality, ts, pos, errs);
  }

  lemma {:induction false} BinaryLeaves(level: Precedence, ts: seq<Token>, pos: nat, errs: seq<ParseError>)
    requires Cursor(ts, pos)
    ensures var r := BinaryRule(level, ts, pos, errs); r.Parsed? ==> Leaves(r.value) == LiteralsIn(ts, pos, r.pos)
    decreases |ts| - pos, 3 * Rank(level) + 1
  {
    var left := OperandRule(level, ts, pos, errs);
    OperandLeaves(level, ts, pos, errs);
    if left.Parsed? {
      BinaryTailLeaves(level, ts, pos, left.value, left.pos, left.errors);
    }
  }

  /** The loop of a binary level: the operator tokens stand for no literal. */
  lemma {:induction false} BinaryTailLeaves(level: Precedence, ts: seq<Token>, start: nat, left: Expr, pos: nat, errs: seq<ParseError>)
    requires Cursor(ts, pos) && start <= pos && Leaves(left) == LiteralsIn(ts, start, pos)
    ensures var r := BinaryTail(level, ts, left, pos, errs); r.Parsed? ==> Leaves(r.value) == LiteralsIn(ts, start, r.pos)
    decreases |ts| - pos, 3 * Rank(level) + 2
  {
    if MatchesAt(ts, pos, Operators(level)) {
      var right := BinaryTailStep(level, ts, left, pos, errs);
      FoldOperand(level, ts, start, left, pos, errs);
      if right.Parsed? {
        BinaryTailLeaves(level, ts, start, Binary(left, ts[pos], right.value), right.pos, right.errors);
      }
    }
  }

  /** One turn of the loop keeps the tree so far standing for the literals consumed so far. */
  lemma {:induction false} FoldOperand(level: Precedence, ts: seq<Token>, start: nat, left: Expr, pos: nat, errs: seq<ParseError>)
    requires Cursor(ts, pos) && start <= pos && MatchesAt(ts, pos, Operators(level))
    requires Leaves(left) == LiteralsIn(ts, start, pos)
    ensures Cursor(ts, pos + 1)
    ensures var right := OperandRule(level, ts, pos + 1, errs);
            right.Parsed? ==>
              && Cursor(ts, right.pos) && start <= right.pos
              && Leaves(Binary(left, ts[pos], right.value)) == LiteralsIn(ts, start, right.pos)
    decreases |ts| - pos, 3 * Rank(level) + 1
  {
    CursorStep(ts, pos);
    OperandLeaves(level, ts, pos + 1, errs);
    var right := OperandRule(level, ts, pos + 1, errs);
    if right.Parsed? {
      OperatorLiteral(level, ts[pos]);
      FoldLeaves(ts, start, left, pos, right.value, right.pos);
    }
  }

  /** Folding an operator and its right operand into the tree so far. */
  lemma FoldLeaves(ts: seq<Token>, start: nat, left: Expr, pos: nat, right: Expr, end: nat)
    requires start <= pos < end <= |ts| && TokenLiteral(ts[pos]) == []
    requires Leaves(left) == LiteralsIn(ts, start, pos) && Leaves(right) == LiteralsIn(ts, pos + 1, end)
    ensures Leaves(Binary(left, ts[pos], right)) == LiteralsIn(ts, start, end)
  {
    LiteralsInSplit(ts, start, pos, end);
    var tail := LiteralsIn(ts, pos + 1, end);
    assert LiteralsIn(ts, pos, end) == TokenLiteral(ts[pos]) + tail;
    assert TokenLiteral(ts[pos]) + tail == tail;
  }

  lemma OperatorLiteral(level: Precedence, t: Token)
    requires t.kind in Operators(level)
    ensures TokenLiteral(t) == []
  {
  }

  lemma {:induction false} OperandLeaves(level: Precedence, ts: seq<Token>, pos: nat, errs: seq<ParseError>)
    requires Cursor(ts, pos)
    ensures var r := OperandRule(level, ts, pos, errs); r.Parsed? ==> Leaves(r.value) == LiteralsIn(ts, pos, r.pos)
    decreases |ts| - pos, 3 * Rank(level)
  {
    if level == Factor {
      UnaryLeaves(ts, pos, errs);
    } else {
      BinaryLeaves(Lower(level), ts, pos, errs);
    }
  }

  lemma {:induction false} UnaryLeaves(ts: seq<Token>, pos: nat, errs: seq<ParseError>)
    requires Cursor(ts, pos)
    ensures var r := UnaryRule(ts, pos, errs); r.Parsed? ==> Leaves(r.value) == LiteralsIn(ts, pos, r.pos)
    decreases |ts| - pos, 2
  {
    if MatchesAt(ts, pos, [Minus, Bang]) {
      CursorStep(ts, pos);
      UnaryLeaves(ts, pos + 1, errs);
      var r := UnaryRule(ts, pos + 1, errs);
      if r.Parsed? {
        PrefixLeaves(ts, pos, r.value, r.pos);
      }
    } else {
      PrimaryLeaves(ts, pos, errs);
    }
  }

  /** A prefix operator stands for no literal. */
  lemma PrefixLeaves(ts: seq<Token>, pos: nat, operand: Expr, end: nat)
    requires pos < end <= |ts| && ts[pos].kind in [Minus, Bang]
    requires Leaves(operand) == LiteralsIn(ts, pos + 1, end)
    ensures Leaves(Unary(ts[pos], operand)) == LiteralsIn(ts, pos, end)
  {
    assert TokenLiteral(ts[pos]) == [];
    assert LiteralsIn(ts, pos, end) == TokenLiteral(ts[pos]) + LiteralsIn(ts, pos + 1, end);
  }

  /** `primary`: a literal token is its own leaf; parentheses stand for none. */
  lemma {:induction false} PrimaryLeaves(ts: seq<Token>, pos: nat, errs: seq<ParseError>)
    requires Cursor(ts, pos)
    ensures var r := PrimaryRule(ts, pos, errs); r.Parsed? ==> Leaves(r.value) == LiteralsIn(ts, pos, r.pos)
    decreases |ts| - pos, 1
  {
    if ts[pos].kind == LeftParen {
      ParenLeaves(ts, pos, errs);
    } else {
      LiteralLeaf(ts, pos, errs);
    }
  }

  /** A literal token is its own leaf. */
  lemma LiteralLeaf(ts: seq<Token>, pos: nat, errs: seq<ParseError>)
    requires Cursor(ts, pos) && ts[pos].kind != LeftParen
    ensures var r := PrimaryRule(ts, pos, errs); r.Parsed? ==> Leaves(r.value) == LiteralsIn(ts, pos, r.pos)
  {
    var r := PrimaryRule(ts, pos, errs);
    if r.Parsed? {
      assert r.pos == pos + 1;
      assert LiteralsIn(ts, pos, pos + 1) == TokenLiteral(ts[pos]);
    }
  }

  /** A parenthesised expression: the opening `(` stands for no literal. */
  lemma {:induction false} ParenLeaves(ts: seq<Token>, pos: nat, errs: seq<ParseError>)
    requires Cursor(ts, pos) && ts[pos].kind == LeftParen
    ensures var r := PrimaryRule(ts, pos, errs); r.Parsed? ==> Leaves(r.value) == LiteralsIn(ts, pos, r.pos)
    decreases |ts| - pos, 0
  {
    PrimaryParen(ts, pos, errs);
    GroupLeaves(ts, pos + 1, errs);
    var r := GroupRule(ts, pos + 1, errs);
    if r.Parsed? {
      assert LiteralsIn(ts, pos, r.pos) == TokenLiteral(ts[pos]) + LiteralsIn(ts, pos + 1, r.pos);
    }
  }

  /** After `(`, `primary` is the rest of the grouping. */
  lemma PrimaryParen(ts: seq<Token>, pos: nat, errs: seq<ParseError>)
    requires Cursor(ts, pos) && ts[pos].kind == LeftParen
    ensures Cursor(ts, pos + 1) && PrimaryRule(ts, pos, errs) == GroupRule(ts, pos + 1, errs)
  {
    CursorStep(ts, pos);
  }

  /** The closing `)` of a grouping, like the opening one, stands for no literal. */
  lemma {:induction false} GroupLeaves(ts: seq<Token>, pos: nat, errs: seq<ParseError>)
    requires Cursor(ts, pos)
    ensures var r := GroupRule(ts, pos, errs); r.Parsed? ==> Leaves(r.value) == LiteralsIn(ts, pos, r.pos)
    decreases |ts| - pos, 16
  {
    ExpressionLeaves(ts, pos, errs);
    var inner := ExpressionRule(ts, pos, errs);
    if inner.Parsed? {
      var closed := ConsumeAt(ts, inner.pos, inner.errors, RightParen, ExpectRightParen);
      if closed.pos != inner.pos {
        assert LiteralsIn(ts, inner.pos, closed.pos) == [];
        LiteralsInSplit(ts, pos, inner.pos, closed.pos);
      }
    }
  }

  // ---------------------------------------------------------------------
  // Statement rules
  // ---------------------------------------------------------------------

  /** `_statement`: a `print` statement or an expression statement. */
  function StatementRule(ts: seq<Token>, pos: nat, errs: seq<ParseError>): (r: Parsed<Stmt>)
    requires Cursor(ts, pos)
    ensures r.Parsed? ==> pos < r.pos && Cursor(ts, r.pos)
    ensures r.Parsed? ==> (r.value.Print? || r.value.Expression?)
    ensures r.Parsed? && r.value.Print? <==> CheckAt(ts, pos, TokenType.Print) && r.Parsed?
  {
    if CheckAt(ts, pos, TokenType.Print) then
      CursorStep(ts, pos);
      StatementTail(ts, pos + 1, errs, ExpectSemicolonAfterValue, true)
    else StatementTail(ts, pos, errs, ExpectSemicolonAfterExpression, false)
  }

  /**
   * The common shape of `_print_statement` and `_expression_statement`: an
   * expression and then `;`, whose absence is reported without stopping.
   */
  function StatementTail(ts: seq<Token>, pos: nat, errs: seq<ParseError>, message: string, isPrint: bool): (r: Parsed<Stmt>)
    requires Cursor(ts, pos)
    ensures r.Parsed? ==> pos < r.pos && Cursor(ts, r.pos)
    ensures r.Parsed? ==> (if isPrint then r.value.Print? else r.value.Expression?)
    ensures r.Raised? ==> ExpressionRule(ts, pos, errs).Raised?
    ensures r.Parsed? ==>
              var e := ExpressionRule(ts, pos, errs);
              && e.Parsed? && r.value.expression == e.value
              && Step(r.pos, r.errors) == ConsumeAt(ts, e.pos, e.errors, Semicolon, message)
  {
    match ExpressionRule(ts, pos, errs)
    case Raised(e) => Raised(e)
    case Parsed(value, p, e) =>
      var ended := ConsumeAt(ts, p, e, Semicolon, message);
      Parsed(if isPrint then Stmt.Print(value) else Stmt.Expression(value), ended.pos, ended.errors)
  }

  /**
   * `parse`: statements until EOF; the ParserError of any statement ends
   * the whole parse. Every statement takes at least one token, so there are
   * no more statements than tokens consumed, and success leaves the cursor
   * on EOF.
   */
  function ProgramRule(ts: seq<Token>, pos: nat, errs: seq<ParseError>): (r: Parsed<seq<Stmt>>)
    requires Cursor(ts, pos)
    ensures r.Parsed? ==> pos <= r.pos && Cursor(ts, r.pos) && AtEnd(ts, r.pos)
    ensures r.Parsed? ==> |r.value| <= r.pos - pos
    ensures AtEnd(ts, pos) ==> r == Parsed([], pos, errs)
    decreases |ts| - pos
  {
    if AtEnd(ts, pos) then Parsed([], pos, errs)
    else
      match StatementRule(ts, pos, errs)
      case Raised(e) => Raised(e)
      case Parsed(s, p, e) => Prepend([s], ProgramRule(ts, p, e))
  }

  /** One turn of the `parse` loop, when the statement parses. */
  lemma ProgramStep(ts: seq<Token>, pos: nat, errs: seq<ParseError>)
    requires Cursor(ts, pos) && !AtEnd(ts, pos) && StatementRule(ts, pos, errs).Parsed?
    ensures var s := StatementRule(ts, pos, errs);
            ProgramRule(ts, pos, errs) == Prepend([s.value], ProgramRule(ts, s.pos, s.errors))
  {
  }

  /** Putting no statements in front changes nothing. */
  lemma PrependNothing(r: Parsed<seq<Stmt>>)
    ensures Prepend([], r) == r
  {
    if r.Parsed? {
      assert [] + r.value == r.value;
    }
  }

  /** Putting `b` in front and then `a` is putting `a + b` in front. */
  lemma PrependTwice(a: seq<Stmt>, b: seq<Stmt>, r: Parsed<seq<Stmt>>)
    ensures Prepend(a, Prepend(b, r)) == Prepend(a + b, r)
  {
    if r.Parsed? {
      assert a + (b + r.value) == (a + b) + r.value;
    }
  }

  /** Statements parsed before an outcome, in front of its statements. */
  function Prepend(prefix: seq<Stmt>, r: Parsed<seq<Stmt>>): (q: Parsed<seq<Stmt>>)
    ensures q.Parsed? <==> r.Parsed?
    ensures q.Parsed? ==> q.value == prefix + r.value && q.pos == r.pos && q.errors == r.errors
    ensures q.Raised? ==> q == r
  {
    match r
    case Parsed(v, p, e) => Parsed(prefix + v, p, e)
    case Raised(e) => Raised(e)
  }

  // ---------------------------------------------------------------------
  // Synchronisation
  // ---------------------------------------------------------------------

  /** The kinds `_synchronize` stops in front of. */
  predicate StartsDeclaration(kind: TokenType) {
    kind in {Class, Fun, TokenType.Var, For, TokenType.If, TokenType.While, TokenType.Print, Return}
  }

  /** Where the skipping loop of `_synchronize` may stop. */
  predicate SyncPoint(ts: seq<Token>, pos: nat)
    requires 1 <= pos < |ts|
  {
    AtEnd(ts, pos) || ts[pos - 1].kind == Semicolon || StartsDeclaration(ts[pos].kind)
  }

  /** The loop of `_synchronize`: skip tokens until a stopping point. */
  function SyncLoop(ts: seq<Token>, pos: nat): (p: nat)
    requires Cursor(ts, pos) && pos >= 1
    ensures pos <= p && Cursor(ts, p) && SyncPoint(ts, p)
    ensures forall j | pos <= j < p :: !SyncPoint(ts, j)
    decreases |ts| - pos
  {
    if SyncPoint(ts, pos) then pos
    else
      CursorStep(ts, pos);
      SyncLoop(ts, pos + 1)
  }

  /**
   * `_synchronize`: step over one token, then stop at the first position
   * that is at EOF, just after a `;`, or just before a keyword that starts
   * a declaration or statement.
   */
  function SyncPos(ts: seq<Token>, pos: nat): (p: nat)
    requires Cursor(ts, pos)
    ensures Cursor(ts, p)
    ensures AtEnd(ts, pos) ==> p == pos
    ensures !AtEnd(ts, pos) ==>
              && pos < p && SyncPoint(ts, p)
              && forall j | pos < j < p :: !SyncPoint(ts, j)
  {
    if AtEnd(ts, pos) then pos
    else
      CursorStep(ts, pos);
      SyncLoop(ts, pos + 1)
  }

  // ---------------------------------------------------------------------
  // The parser object
  // ---------------------------------------------------------------------

  class Parser {
    const tokens: seq<Token>
    var current: nat
    var errors: seq<ParseError>

    ghost predicate Valid()
      reads this
    {
      Cursor(tokens, current)
    }

    constructor (tokens: seq<Token>)
      requires HasEof(tokens)
      ensures Valid() && this.tokens == tokens && current == 0 && errors == []
    {
      this.tokens := tokens;
      current := 0;
      errors := [];
      CursorStart(tokens);
    }

    /** `_advance`: move past the current token unless it is EOF; yield the token before the cursor. */
    method Advance() returns (t: Token)
      requires Valid()
      modifies this`current
      ensures Valid()
      ensures current == if AtEnd(tokens, old(current)) then old(current) else old(current) + 1
      ensures t == Previous(tokens, current)
    {
      if !AtEnd(tokens, current) {
        CursorStep(tokens, current);
        current := current + 1;
      }
      t := Previous(tokens, current);
    }

    /** `_match`: try the kinds in turn; consume one token on the first that checks. */
    method Match(kinds: seq<TokenType>) returns (matched: bool)
      requires Valid()
      modifies this`current
      ensures Valid()
      ensures matched <==> MatchesAt(tokens, old(current), kinds)
      ensures current == if matched then old(current) + 1 else old(current)
    {
      for i := 0 to |kinds|
        invariant current == old(current)
        invariant forall j | 0 <= j < i :: !CheckAt(tokens, current, kinds[j])
      {
        if CheckAt(tokens, current, kinds[i]) {
          var _ := Advance();
          return true;
        }
      }
      return false;
    }

    /** `_error`: log the report. */
    method Error(token: Token, message: string)
      modifies this`errors
      ensures errors == old(errors) + [ParseError(token, message)]
    {
      errors := errors + [ParseError(token, message)];
    }

    /**
     * `_consume`: step over a token of the kind, or report the message and
     * stay where it is, yielding the error instead of raising it.
     */
    method Consume(kind: TokenType, message: string) returns (t: Option<Token>)
      requires Valid()
      modifies this
      ensures Valid()
      ensures Step(current, errors) == ConsumeAt(tokens, old(current), old(errors), kind, message)
      ensures t.Some? <==> CheckAt(tokens, old(current), kind)
    {
      if CheckAt(tokens, current, kind) {
        var taken := Advance();
        return Some(taken);
      }
      Error(tokens[current], message);
      return None;
    }

    /** `expression`. */
    method Expression() returns (r: Option<Expr>)
      requires Valid()
      modifies this
      ensures Valid()
      ensures Agrees(r, current, errors, ExpressionRule(tokens, old(current), old(errors)))
      decreases |tokens| - current, 15
    {
      r := BinaryLevel(Equality);
    }

    /**
     * `equality`, `comparison`, `term` and `factor`, which differ only in
     * their operators and in the rule for their operands.
     */
    method BinaryLevel(level: Precedence) returns (r: Option<Expr>)
      requires Valid()
      modifies this
      ensures Valid()
      ensures Agrees(r, current, errors, BinaryRule(level, tokens, old(current), old(errors)))
      decreases |tokens| - current, 3 * Rank(level) + 1
    {
      var left := Operand(level);
      if left.None? {
        return None;
      }
      BinaryRuleStart(level, tokens, old(current), old(errors));
      r := BinaryLoop(level, left.value);
    }

    /**
     * The `while` loop of a binary level: fold operator and operand pairs
     * into the tree so far, as its right children.
     */
    method BinaryLoop(level: Precedence, left: Expr) returns (r: Option<Expr>)
      requires Valid()
      modifies this
      ensures Valid()
      ensures Agrees(r, current, errors, BinaryTail(level, tokens, left, old(current), old(errors)))
      decreases |tokens| - current, 3 * Rank(level) + 3
    {
      ghost var spec := BinaryTail(level, tokens, left, current, errors);
      var expr := left;
      while true
        invariant Valid() && current >= old(current)
        invariant BinaryTail(level, tokens, expr, current, errors) == spec
        decreases |tokens| - current
      {
        var matched, right := BinaryTurn(level, expr);
        if !matched {
          return Some(expr);
        }
        if right.None? {
          return None;
        }
        expr := right.value;
      }
    }

    /**
     * One turn of that loop: match one of the level's operators and parse
     * the operand after it; `next` is the tree with the pair folded in.
     */
    method BinaryTurn(level: Precedence, expr: Expr) returns (matched: bool, next: Option<Expr>)
      requires Valid()
      modifies this
      ensures Valid()
      ensures matched <==> MatchesAt(tokens, old(current), Operators(level))
      ensures !matched ==> current == old(current) && errors == old(errors)
      ensures matched && next.None? ==> BinaryTail(level, tokens, expr, old(current), old(errors)) == Raised(errors)
      ensures matched && next.Some? ==>
                && current > old(current)
                && BinaryTail(level, tokens, next.value, current, errors)
                == BinaryTail(level, tokens, expr, old(current), old(errors))
      decreases |tokens| - current, 3 * Rank(level) + 2
    {
      ghost var before, logged := current, errors;
      matched := Match(Operators(level));
      if !matched {
        return false, None;
      }
      ghost var spec := BinaryTailStep(level, tokens, expr, before, logged);
      var operator := Previous(tokens, current);
      var right := Operand(level);
      assert Agrees(right, current, errors, spec);
      if right.None? {
        assert spec == Raised(errors);
        return true, None;
      }
      next := Some(Expr.Binary(expr, operator, right.value));
    }

    /** The call a binary level makes for its operands: the next level's method, or `unary`. */
    method Operand(level: Precedence) returns (r: Option<Expr>)
      requires Valid()
      modifies this
      ensures Valid()
      ensures Agrees(r, current, errors, OperandRule(level, tokens, old(current), old(errors)))
      decreases |tokens| - current, 3 * Rank(level)
    {
      if level == Factor {
        r := Unary();
      } else {
        r := BinaryLevel(Lower(level));
      }
    }

    /** `unary`. */
    method Unary() returns (r: Option<Expr>)
      requires Valid()
      modifies this
      ensures Valid()
      ensures Agrees(r, current, errors, UnaryRule(tokens, old(current), old(errors)))
      decreases |tokens| - current, 1
    {
      ghost var spec := UnaryRule(tokens, current, errors);
      var matched := Match([Minus, Bang]);
      if matched {
        var operator := Previous(tokens, current);
        var right := Unary();
        if right.None? {
          return None;
        }
        return Some(Expr.Unary(operator, right.value));
      }
      r := Primary();
    }

    /** `primary`. */
    method Primary() returns (r: Option<Expr>)
      requires Valid()
      modifies this
      ensures Valid()
      ensures Agrees(r, current, errors, PrimaryRule(tokens, old(current), old(errors)))
      decreases |tokens| - current, 0
    {
      var matched := Match([True]);
      if matched {
        return Some(Literal(BoolLit(true)));
      }
      matched := Match([False]);
      if matched {
        return Some(Literal(BoolLit(false)));
      }
      matched := Match([Nil]);
      if matched {
        return Some(Literal(NoLit));
      }
      matched := Match([Number, String]);
      if matched {
        return Some(Literal(Previous(tokens, current).literal));
      }
      matched := Match([LeftParen]);
      if matched {
        r := Group();
        return;
      }
      Error(tokens[current], ExpectExpression);
      return None;
    }

    /** The parenthesised branch of `primary`, after the `(`. */
    method Group() returns (r: Option<Expr>)
      requires Valid()
      modifies this
      ensures Valid()
      ensures Agrees(r, current, errors, GroupRule(tokens, old(current), old(errors)))
      decreases |tokens| - current, 16
    {
      var inner := Expression();
      if inner.None? {
        return None;
      }
      var _ := Consume(RightParen, ExpectRightParen);
      return Some(Grouping(inner.value));
    }

    /** `_statement`. */
    method Statement() returns (r: Option<Stmt>)
      requires Valid()
      modifies this
      ensures Valid()
      ensures Agrees(r, current, errors, StatementRule(tokens, old(current), old(errors)))
    {
      var matched := Match([TokenType.Print]);
      if matched {
        r := PrintStatement();
      } else {
        r := ExpressionStatement();
      }
    }

    /** `_print_statement`. */
    method PrintStatement() returns (r: Option<Stmt>)
      requires Valid()
      modifies this
      ensures Valid()
      ensures Agrees(r, current, errors, StatementTail(tokens, old(current), old(errors), ExpectSemicolonAfterValue, true))
    {
      var value := Expression();
      if value.None? {
        return None;
      }
      var _ := Consume(Semicolon, ExpectSemicolonAfterValue);
      return Some(Stmt.Print(value.value));
    }

    /** `_expression_statement`. */
    method ExpressionStatement() returns (r: Option<Stmt>)
      requires Valid()
      modifies this
      ensures Valid()
      ensures Agrees(r, current, errors, StatementTail(tokens, old(current), old(errors), ExpectSemicolonAfterExpression, false))
    {
      var value := Expression();
      if value.None? {
        return None;
      }
      var _ := Consume(Semicolon, ExpectSemicolonAfterExpression);
      return Some(Stmt.Expression(value.value));
    }

    /** `parse`: append statements until EOF. */
    method Parse() returns (r: Option<seq<Stmt>>)
      requires Valid()
      modifies this
      ensures Valid()
      ensures Agrees(r, current, errors, ProgramRule(tokens, old(current), old(errors)))
    {
      ghost var spec := ProgramRule(tokens, current, errors);
      var statements: seq<Stmt> := [];
      PrependNothing(spec);
      while !AtEnd(tokens, current)
        invariant Valid()
        invariant spec == Prepend(statements, ProgramRule(tokens, current, errors))
        decreases |tokens| - current
      {
        ghost var before, logged := current, errors;
        var s := Statement();
        if s.None? {
          return None;
        }
        ProgramStep(tokens, before, logged);
        PrependTwice(statements, [s.value], ProgramRule(tokens, current, errors));
        statements := statements + [s.value];
      }
      assert statements + [] == statements;
      return Some(statements);
    }

    /** `_synchronize`. */
    method Synchronize()
      requires Valid()
      modifies this`current
      ensures Valid()
      ensures current == SyncPos(tokens, old(current))
    {
      var _ := Advance();
      while !AtEnd(tokens, current)
        invariant Valid() && old(current) <= current
        invariant AtEnd(tokens, old(current)) ==> current == old(current)
        invariant !AtEnd(tokens, old(current)) ==>
                    old(current) < current && SyncLoop(tokens, old(current) + 1) == SyncLoop(tokens, current)
        decreases |tokens| - current
      {
        if Previous(tokens, current).kind == Semicolon {
          return;
        }
        if StartsDeclaration(tokens[current].kind) {
          return;
        }
        var _ := Advance();
      }
    }
  }
}
