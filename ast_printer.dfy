/**
 * The AST printer (pylox/ast_printer.py): expressions in parenthesised
 * prefix form, `(op left right)`, `(op operand)` and `(group inner)`, with
 * literals as Python's `str` of their value and `None` as "nil".
 *
 * The printer has visit methods for binary, grouping, literal and unary
 * nodes only; `Printable` says a tree is made of those. `Printed` and
 * `Parenthesized` are the specification; the methods `Print` and
 * `Parenthesize` follow the source, whose `parenthesize` builds its text
 * with a loop, and are proved to return exactly that text.
 */
module AstPrinting {
  import opened Tokens
  import opened Ast
  import opened NumberText
  import opened Sequences

  /** The trees the printer can visit: binary, grouping, literal and unary nodes all the way down. */
  predicate Printable(e: Expr) {
    match e
    case Binary(l, _, r) => Printable(l) && Printable(r)
    case Grouping(x) => Printable(x)
    case Literal(_) => true
    case Unary(_, x) => Printable(x)
    case _ => false
  }

  predicate AllPrintable(es: seq<Expr>) {
    forall i | 0 <= i < |es| :: Printable(es[i])
  }

  /** The number of nodes of a tree, the measure the mutual recursion below decreases. */
  function Size(e: Expr): (n: nat)
    ensures n >= 1
  {
    match e
    case Binary(l, _, r) => 1 + Size(l) + Size(r)
    case Grouping(x) => 1 + Size(x)
    case Unary(_, x) => 1 + Size(x)
    case _ => 1
  }

  function SizeAll(es: seq<Expr>): (n: nat)
    ensures es != [] ==> n >= Size(es[|es| - 1]) && n > SizeAll(es[..|es| - 1])
  {
    if es == [] then 0 else SizeAll(es[..|es| - 1]) + Size(es[|es| - 1])
  }

  /** Each element of a sequence is no bigger than the whole sequence. */
  lemma {:induction false} SizeAllBound(es: seq<Expr>, i: nat)
    requires i < |es|
    ensures Size(es[i]) <= SizeAll(es)
    decreases |es|
  {
    if i < |es| - 1 {
      SizeAllBound(es[..|es| - 1], i);
    }
  }

  lemma SizeAllPair(a: Expr, b: Expr)
    ensures SizeAll([a, b]) == Size(a) + Size(b)
  {
    assert [a, b][..1] == [a];
    assert [a][..0] == [];
  }

  lemma SizeAllSingle(a: Expr)
    ensures SizeAll([a]) == Size(a)
  {
    assert [a][..0] == [];
  }

  /**
   * `str(value)` for a literal node's value, "nil" for `None`
   * (pylox/ast_printer.py:19-22). Unlike `print`, the printer keeps the
   * ".0" of a whole float, and only a whole float ends in ".0".
   */
  function LiteralText(v: Lit): (r: string)
    ensures v.NoLit? ==> r == "nil"
    ensures v.BoolLit? ==> r == if v.b then "True" else "False"
    ensures v.IntLit? && v.i >= 0 ==> r == NatText(v.i)
    ensures v.IntLit? && v.i < 0 ==> r == "-" + NatText(-v.i)
    ensures v.FloatLit? && IsIntegral(v.x) ==> r == WholeText(v.x) + ".0"
    ensures v.FloatLit? && !IsIntegral(v.x) ==> !(|r| >= 2 && r[|r| - 2..] == ".0")
    ensures v.StrLit? ==> r == v.s
  {
    match v
    case NoLit => "nil"
    case BoolLit(b) => if b then "True" else "False"
    case IntLit(i) => IntText(i)
    case FloatLit(x) =>
      if IsIntegral(x) then IntegralFloatText(x); FloatText(x)
      else FractionalFloatText(x); FloatText(x)
    case StrLit(s) => s
  }

  /** The text the printer gives a tree. */
  function Printed(e: Expr): string
    requires Printable(e)
    decreases Size(e), 0
  {
    match e
    case Binary(l, op, r) =>
      SizeAllPair(l, r);
      Parenthesized(op.lexeme, [l, r])
    case Grouping(x) =>
      SizeAllSingle(x);
      Parenthesized("group", [x])
    case Literal(v) => LiteralText(v)
    case Unary(op, x) =>
      SizeAllSingle(x);
      Parenthesized(op.lexeme, [x])
  }

  /** `parenthesize(name, *exprs)`: "(", the name, each tree after a space, ")". */
  function Parenthesized(name: string, es: seq<Expr>): string
    requires AllPrintable(es)
    decreases SizeAll(es), 2
  {
    "(" + name + Spaced(es) + ")"
  }

  /** Each tree's text after a space, in order. */
  function Spaced(es: seq<Expr>): string
    requires AllPrintable(es)
    decreases SizeAll(es), 1
  {
    if es == [] then []
    else Spaced(es[..|es| - 1]) + " " + Printed(es[|es| - 1])
  }

  /** Adding the next tree's text after a space extends the spaced text by one tree. */
  lemma SpacedStep(head: string, es: seq<Expr>, i: nat)
    requires AllPrintable(es) && i < |es|
    ensures head + Spaced(es[..i]) + " " + Printed(es[i]) == head + Spaced(es[..i + 1])
  {
    assert es[..i + 1][..i] == es[..i];
    assert Spaced(es[..i + 1]) == Spaced(es[..i]) + " " + Printed(es[i]);
    Associative(head, Spaced(es[..i]) + " ", Printed(es[i]));
    Associative(head, Spaced(es[..i]), " ");
  }

  /** `print`: dispatch on the node, as `accept` does to the visit methods. */
  method Print(e: Expr) returns (s: string)
    requires Printable(e)
    ensures s == Printed(e)
    decreases Size(e), 0
  {
    match e
    case Binary(l, op, r) =>
      SizeAllPair(l, r);
      s := Parenthesize(op.lexeme, [l, r]);
    case Grouping(x) =>
      SizeAllSingle(x);
      s := Parenthesize("group", [x]);
    case Literal(v) =>
      s := LiteralText(v);
    case Unary(op, x) =>
      SizeAllSingle(x);
      s := Parenthesize(op.lexeme, [x]);
  }

  /** `parenthesize`: start with "(" and the name, add each tree after a space, close. */
  method Parenthesize(name: string, es: seq<Expr>) returns (s: string)
    requires AllPrintable(es)
    ensures s == Parenthesized(name, es)
    decreases SizeAll(es), 2
  {
    var builder := "(" + name;
    for i := 0 to |es|
      invariant builder == "(" + name + Spaced(es[..i])
    {
      SizeAllBound(es, i);
      var text := Print(es[i]);
      SpacedStep("(" + name, es, i);
      builder := builder + " " + text;
    }
    assert es[..|es|] == es;
    builder := builder + ")";
    return builder;
  }

  // ---------------------------------------------------------------------
  // Properties
  // ---------------------------------------------------------------------

  /** Two trees in parentheses: "(" + name + " " + first + " " + second + ")". */
  lemma PairText(name: string, l: Expr, r: Expr)
    requires Printable(l) && Printable(r)
    ensures Parenthesized(name, [l, r]) == "(" + name + " " + Printed(l) + " " + Printed(r) + ")"
  {
    assert [l, r][..1] == [l];
    assert [l][..0] == [];
    var first := Spaced([l]);
    assert first == Spaced([]) + " " + Printed(l);
    assert first == " " + Printed(l);
    assert Spaced([l, r]) == first + " " + Printed(r);
    Associative("(" + name, first + " ", Printed(r));
    Associative("(" + name, first, " ");
    Associative("(" + name, " ", Printed(l));
  }

  /** One tree in parentheses: "(" + name + " " + tree + ")". */
  lemma SingleText(name: string, x: Expr)
    requires Printable(x)
    ensures Parenthesized(name, [x]) == "(" + name + " " + Printed(x) + ")"
  {
    assert [x][..0] == [];
    assert Spaced([x]) == " " + Printed(x);
    Associative("(" + name, " ", Printed(x));
  }

  /** A binary node prints as "(" + operator + " " + left + " " + right + ")". */
  lemma BinaryText(l: Expr, op: Token, r: Expr)
    requires Printable(l) && Printable(r)
    ensures Printed(Binary(l, op, r)) == "(" + op.lexeme + " " + Printed(l) + " " + Printed(r) + ")"
  {
    assert Printed(Binary(l, op, r)) == Parenthesized(op.lexeme, [l, r]);
    PairText(op.lexeme, l, r);
  }

  /** A grouping prints as "(group " + inner + ")". */
  lemma GroupingText(x: Expr)
    requires Printable(x)
    ensures Printed(Grouping(x)) == "(group " + Printed(x) + ")"
  {
    assert Printed(Grouping(x)) == Parenthesized("group", [x]);
    SingleText("group", x);
    assert "(" + "group" + " " == "(group ";
  }

  /** A unary node prints as "(" + operator + " " + operand + ")". */
  lemma UnaryText(op: Token, x: Expr)
    requires Printable(x)
    ensures Printed(Unary(op, x)) == "(" + op.lexeme + " " + Printed(x) + ")"
  {
    assert Printed(Unary(op, x)) == Parenthesized(op.lexeme, [x]);
    SingleText(op.lexeme, x);
  }

  /** How often `c` occurs in `s`. */
  function Occurrences(s: string, c: char): nat {
    if s == [] then 0 else Occurrences(s[..|s| - 1], c) + (if s[|s| - 1] == c then 1 else 0)
  }

  lemma {:induction false} OccurrencesAppend(a: string, b: string, c: char)
    ensures Occurrences(a + b, c) == Occurrences(a, c) + Occurrences(b, c)
    decreases |b|
  {
    if b == [] {
      assert a + b == a;
    } else {
      OccurrencesAppend(a, b[..|b| - 1], c);
      assert (a + b)[..|a + b| - 1] == a + b[..|b| - 1];
    }
  }

  /** A text none of whose characters is `c` has no occurrence of it. */
  lemma {:induction false} NoOccurrences(s: string, c: char)
    requires forall i | 0 <= i < |s| :: s[i] != c
    ensures Occurrences(s, c) == 0
  {
    if s != [] {
      NoOccurrences(s[..|s| - 1], c);
    }
  }

  /** A text with no parenthesis in it. */
  predicate Plain(s: string) {
    Occurrences(s, '(') == 0 && Occurrences(s, ')') == 0
  }

  /** Every operator lexeme and every literal text in the tree is plain. */
  predicate PlainLeaves(e: Expr) {
    match e
    case Binary(l, op, r) => Plain(op.lexeme) && PlainLeaves(l) && PlainLeaves(r)
    case Grouping(x) => PlainLeaves(x)
    case Literal(v) => Plain(LiteralText(v))
    case Unary(op, x) => Plain(op.lexeme) && PlainLeaves(x)
    case _ => true
  }

  /** The number of binary, grouping and unary nodes: the calls `parenthesize` makes. */
  function Inner(e: Expr): nat {
    match e
    case Binary(l, _, r) => 1 + Inner(l) + Inner(r)
    case Grouping(x) => 1 + Inner(x)
    case Unary(_, x) => 1 + Inner(x)
    case _ => 0
  }

  /** A space between two texts adds no parenthesis. */
  lemma SpaceBetween(a: string, b: string, c: char)
    requires c == '(' || c == ')'
    ensures Occurrences(a + " " + b, c) == Occurrences(a, c) + Occurrences(b, c)
  {
    OccurrencesAppend(a, " ", c);
    OccurrencesAppend(a + " ", b, c);
    assert " "[..0] == [];
  }

  /** One opening and one closing parenthesis: the text of `(name` + ` text` + `)`. */
  lemma ParenthesisedCounts(name: string, inner: string, c: char)
    requires c == '(' || c == ')'
    requires Plain(name)
    ensures Occurrences("(" + name + inner + ")", c) == Occurrences(inner, c) + 1
  {
    OccurrencesAppend("(", name, c);
    OccurrencesAppend("(" + name, inner, c);
    OccurrencesAppend("(" + name + inner, ")", c);
    assert "("[..0] == [] && ")"[..0] == [];
  }

  /** The balance step for two trees under one pair of parentheses. */
  lemma PairCounts(name: string, l: Expr, r: Expr, c: char)
    requires Printable(l) && Printable(r) && Plain(name) && (c == '(' || c == ')')
    ensures Occurrences(Parenthesized(name, [l, r]), c) == Occurrences(Printed(l), c) + Occurrences(Printed(r), c) + 1
  {
    assert [l, r][..1] == [l];
    assert [l][..0] == [];
    assert Spaced([l]) == Spaced([]) + " " + Printed(l);
    SpaceBetween(Spaced([]), Printed(l), c);
    assert Spaced([l, r]) == Spaced([l]) + " " + Printed(r);
    SpaceBetween(Spaced([l]), Printed(r), c);
    ParenthesisedCounts(name, Spaced([l, r]), c);
  }

  /** The balance step for one tree under one pair of parentheses. */
  lemma SingleCounts(name: string, x: Expr, c: char)
    requires Printable(x) && Plain(name) && (c == '(' || c == ')')
    ensures Occurrences(Parenthesized(name, [x]), c) == Occurrences(Printed(x), c) + 1
  {
    assert [x][..0] == [];
    assert Spaced([x]) == Spaced([]) + " " + Printed(x);
    SpaceBetween(Spaced([]), Printed(x), c);
    ParenthesisedCounts(name, Spaced([x]), c);
  }

  /** "group" has no parenthesis in it. */
  lemma GroupIsPlain()
    ensures Plain("group")
  {
    NoOccurrences("group", '(');
    NoOccurrences("group", ')');
  }

  lemma BinaryCounts(l: Expr, op: Token, r: Expr, c: char)
    requires Printable(l) && Printable(r) && Plain(op.lexeme) && (c == '(' || c == ')')
    ensures Occurrences(Printed(Binary(l, op, r)), c) == Occurrences(Printed(l), c) + Occurrences(Printed(r), c) + 1
  {
    assert Printed(Binary(l, op, r)) == Parenthesized(op.lexeme, [l, r]);
    PairCounts(op.lexeme, l, r, c);
  }

  lemma GroupingCounts(x: Expr, c: char)
    requires Printable(x) && (c == '(' || c == ')')
    ensures Occurrences(Printed(Grouping(x)), c) == Occurrences(Printed(x), c) + 1
  {
    assert Printed(Grouping(x)) == Parenthesized("group", [x]);
    GroupIsPlain();
    SingleCounts("group", x, c);
  }

  lemma UnaryCounts(op: Token, x: Expr, c: char)
    requires Printable(x) && Plain(op.lexeme) && (c == '(' || c == ')')
    ensures Occurrences(Printed(Unary(op, x)), c) == Occurrences(Printed(x), c) + 1
  {
    assert Printed(Unary(op, x)) == Parenthesized(op.lexeme, [x]);
    SingleCounts(op.lexeme, x, c);
  }

  /**
   * When no lexeme or literal text holds a parenthesis, the printed text
   * has exactly one "(" and one ")" per parenthesised node.
   */
  lemma {:induction false} ParenthesesBalance(e: Expr, c: char)
    requires Printable(e) && PlainLeaves(e) && (c == '(' || c == ')')
    ensures Occurrences(Printed(e), c) == Inner(e)
    decreases Size(e)
  {
    match e
    case Binary(l, op, r) =>
      ParenthesesBalance(l, c);
      ParenthesesBalance(r, c);
      BinaryCounts(l, op, r, c);
    case Grouping(x) =>
      ParenthesesBalance(x, c);
      GroupingCounts(x, c);
    case Literal(v) =>
    case Unary(op, x) =>
      ParenthesesBalance(x, c);
      UnaryCounts(op, x, c);
  }

  /** `str(123)` is "123". */
  lemma IntExample()
    ensures IntText(123) == "123"
  {
    assert NatText(12) == NatText(1) + [Digit(2)] == "12";
    assert NatText(123) == NatText(12) + [Digit(3)] == "123";
  }

  /** `str(45.67)` is "45.67". */
  lemma FloatExample()
    ensures FloatText(45.67) == "45.67"
  {
    assert NatText(45) == NatText(4) + [Digit(5)] == "45";
    assert (45.67).Floor == 45;
    assert 45.67 - 45 as real == 0.67;
    FractionExample();
    assert UnsignedFloatText(45.67) == "45" + "." + "67";
  }

  /** The fractional digits of 0.67 are "67". */
  lemma FractionExample()
    ensures FractionDigits(0.67, MaxFractionDigits) == "67"
  {
    assert (0.67 * 10.0).Floor == 6 && 0.67 * 10.0 - 6 as real == 0.7;
    assert (0.7 * 10.0).Floor == 7 && 0.7 * 10.0 - 7 as real == 0.0;
    assert FractionDigits(0.7, 16) == [Digit(7)] + FractionDigits(0.0, 15);
    assert FractionDigits(0.67, 17) == [Digit(6)] + FractionDigits(0.7, 16);
  }

  /** The operand of the example: `-123` prints as "(- 123)". */
  lemma MinusExample()
    ensures Printed(Unary(Token(Minus, "-", NoLit, 1), Literal(IntLit(123)))) == "(- 123)"
  {
    IntExample();
    UnaryText(Token(Minus, "-", NoLit, 1), Literal(IntLit(123)));
  }

  /** The other operand: `(45.67)` prints as "(group 45.67)". */
  lemma GroupExample()
    ensures Printed(Grouping(Literal(FloatLit(45.67)))) == "(group 45.67)"
  {
    FloatExample();
    GroupingText(Literal(FloatLit(45.67)));
  }

  /**
   * The tree commented out in lox.py, `-123 * (45.67)`, prints as
   * "(* (- 123) (group 45.67))".
   */
  lemma LoxExample()
    ensures Printed(Binary(
              Unary(Token(Minus, "-", NoLit, 1), Literal(IntLit(123))),
              Token(Star, "*", NoLit, 1),
              Grouping(Literal(FloatLit(45.67)))))
            == "(* (- 123) (group 45.67))"
  {
    var minus := Unary(Token(Minus, "-", NoLit, 1), Literal(IntLit(123)));
    var group := Grouping(Literal(FloatLit(45.67)));
    MinusExample();
    GroupExample();
    BinaryText(minus, Token(Star, "*", NoLit, 1), group);
    ExampleJoin(Printed(minus), Printed(group));
  }

  /** The example's text assembled from its two operands' texts. */
  lemma ExampleJoin(a: string, b: string)
    requires a == "(- 123)" && b == "(group 45.67)"
    ensures "(" + "*" + " " + a + " " + b + ")" == "(* (- 123) (group 45.67))"
  {
  }
}
