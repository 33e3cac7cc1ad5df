/**
 * Worked parses of short token sequences: the rule functions of the parser
 * module applied to sequences of given token kinds, with any lexemes and
 * literals.
 */
module ParserExamples {
  import opened Tokens
  import opened Ast
  import opened Parser

  /** The tokens have these kinds, in order. */
  predicate KindsAre(ts: seq<Token>, kinds: seq<TokenType>) {
    |ts| == |kinds| && forall i | 0 <= i < |ts| :: ts[i].kind == kinds[i]
  }

  /** A sequence whose only EOF is the last token is a valid start for the parser. */
  lemma {:induction false} LastEof(ts: seq<Token>)
    requires |ts| > 0 && ts[|ts| - 1].kind == Eof
    requires forall j | 0 <= j < |ts| - 1 :: ts[j].kind != Eof
    ensures FirstEof(ts) == |ts| - 1 && Cursor(ts, 0)
  {
    if |ts| > 1 {
      LastEof(ts[1..]);
    }
  }

  /** A number token is a whole `unary`. */
  lemma NumberIsUnary(ts: seq<Token>, pos: nat, errs: seq<ParseError>)
    requires Cursor(ts, pos) && ts[pos].kind == Number
    ensures UnaryRule(ts, pos, errs) == Parsed(Literal(ts[pos].literal), pos + 1, errs)
  {
    assert PrimaryRule(ts, pos, errs) == Parsed(Literal(ts[pos].literal), pos + 1, errs);
  }

  /** A level whose operand is not followed by one of its operators is just that operand. */
  lemma LoneOperand(level: Precedence, ts: seq<Token>, pos: nat, errs: seq<ParseError>)
    requires Cursor(ts, pos)
    requires var o := OperandRule(level, ts, pos, errs); o.Parsed? && !MatchesAt(ts, o.pos, Operators(level))
    ensures BinaryRule(level, ts, pos, errs) == OperandRule(level, ts, pos, errs)
  {
  }

  /** A number followed by no `*` or `/` is a whole `factor`. */
  lemma NumberIsFactor(ts: seq<Token>, pos: nat, errs: seq<ParseError>)
    requires Cursor(ts, pos) && ts[pos].kind == Number && pos + 1 < |ts| && ts[pos + 1].kind !in {Star, Slash}
    ensures BinaryRule(Factor, ts, pos, errs) == Parsed(Literal(ts[pos].literal), pos + 1, errs)
  {
    NumberIsUnary(ts, pos, errs);
    LoneOperand(Factor, ts, pos, errs);
  }

  /** A `+` or `-` followed by a number that no `*` or `/` follows: one turn of `term`'s loop. */
  lemma TermTurn(ts: seq<Token>, left: Expr, pos: nat, errs: seq<ParseError>)
    requires Cursor(ts, pos) && ts[pos].kind in {Plus, Minus}
    requires pos + 2 < |ts| && ts[pos + 1].kind == Number && ts[pos + 2].kind !in {Star, Slash}
    ensures BinaryTail(Term, ts, left, pos, errs)
            == BinaryTail(Term, ts, Binary(left, ts[pos], Literal(ts[pos + 1].literal)), pos + 2, errs)
  {
    var right := BinaryTailStep(Term, ts, left, pos, errs);
    NumberIsFactor(ts, pos + 1, errs);
  }

  /** A `term` that raises, or that reaches EOF, is the whole expression. */
  lemma TermIsExpression(ts: seq<Token>, pos: nat, errs: seq<ParseError>, r: Parsed<Expr>)
    requires Cursor(ts, pos) && BinaryRule(Term, ts, pos, errs) == r
    requires r.Parsed? ==> r.pos < |ts| && AtEnd(ts, r.pos)
    ensures ExpressionRule(ts, pos, errs) == r
  {
    assert OperandRule(Comparison, ts, pos, errs) == r;
    if r.Parsed? {
      LoneOperand(Comparison, ts, pos, errs);
    }
    assert BinaryRule(Comparison, ts, pos, errs) == r;
    assert OperandRule(Equality, ts, pos, errs) == r;
    if r.Parsed? {
      LoneOperand(Equality, ts, pos, errs);
    }
  }

  /** `1 - 2 - 3` folds to the left: `(1 - 2) - 3`. */
  lemma SubtractionLeansLeft(ts: seq<Token>)
    requires KindsAre(ts, [Number, Minus, Number, Minus, Number, Eof])
    ensures Cursor(ts, 0)
    ensures var one, two, three := Literal(ts[0].literal), Literal(ts[2].literal), Literal(ts[4].literal);
            ExpressionRule(ts, 0, []) == Parsed(Binary(Binary(one, ts[1], two), ts[3], three), 5, [])
  {
    LastEof(ts);
    var one, two, three := Literal(ts[0].literal), Literal(ts[2].literal), Literal(ts[4].literal);
    var whole := Binary(Binary(one, ts[1], two), ts[3], three);
    NumberIsFactor(ts, 0, []);
    TermTurn(ts, one, 1, []);
    TermTurn(ts, Binary(one, ts[1], two), 3, []);
    assert BinaryTail(Term, ts, whole, 5, []) == Parsed(whole, 5, []);
    assert BinaryRule(Term, ts, 0, []) == Parsed(whole, 5, []);
    TermIsExpression(ts, 0, [], Parsed(whole, 5, []));
  }

  /** A `unary` that reaches EOF is the whole expression. */
  lemma UnaryIsExpression(ts: seq<Token>, pos: nat, errs: seq<ParseError>, e: Expr, p: nat, errs': seq<ParseError>)
    requires Cursor(ts, pos) && UnaryRule(ts, pos, errs) == Parsed(e, p, errs') && AtEnd(ts, p)
    ensures ExpressionRule(ts, pos, errs) == Parsed(e, p, errs')
  {
    LoneOperand(Factor, ts, pos, errs);
    assert OperandRule(Term, ts, pos, errs) == Parsed(e, p, errs');
    LoneOperand(Term, ts, pos, errs);
    TermIsExpression(ts, pos, errs, Parsed(e, p, errs'));
  }

  /** `1 + 2 * 3` binds `*` tighter: `1 + (2 * 3)`. */
  lemma ProductBindsTighter(ts: seq<Token>)
    requires KindsAre(ts, [Number, Plus, Number, Star, Number, Eof])
    ensures Cursor(ts, 0)
    ensures var one, two, three := Literal(ts[0].literal), Literal(ts[2].literal), Literal(ts[4].literal);
            ExpressionRule(ts, 0, []) == Parsed(Binary(one, ts[1], Binary(two, ts[3], three)), 5, [])
  {
    LastEof(ts);
    var one, two, three := Literal(ts[0].literal), Literal(ts[2].literal), Literal(ts[4].literal);
    var product := Binary(two, ts[3], three);
    NumberIsUnary(ts, 2, []);
    var _ := BinaryTailStep(Factor, ts, two, 3, []);
    NumberIsUnary(ts, 4, []);
    assert BinaryTail(Factor, ts, product, 5, []) == Parsed(product, 5, []);
    assert BinaryRule(Factor, ts, 2, []) == Parsed(product, 5, []);
    NumberIsFactor(ts, 0, []);
    var _ := BinaryTailStep(Term, ts, one, 1, []);
    assert BinaryTail(Term, ts, Binary(one, ts[1], product), 5, []) == Parsed(Binary(one, ts[1], product), 5, []);
    assert BinaryRule(Term, ts, 0, []) == Parsed(Binary(one, ts[1], product), 5, []);
    TermIsExpression(ts, 0, [], Parsed(Binary(one, ts[1], product), 5, []));
  }

  /** `- ! true` nests its prefix operators, the first outermost. */
  lemma PrefixesNest(ts: seq<Token>)
    requires KindsAre(ts, [Minus, Bang, True, Eof])
    ensures Cursor(ts, 0)
    ensures ExpressionRule(ts, 0, []) == Parsed(Unary(ts[0], Unary(ts[1], Literal(BoolLit(true)))), 3, [])
  {
    LastEof(ts);
    var e := Unary(ts[0], Unary(ts[1], Literal(BoolLit(true))));
    assert PrimaryRule(ts, 2, []) == Parsed(Literal(BoolLit(true)), 3, []);
    assert UnaryRule(ts, 2, []) == Parsed(Literal(BoolLit(true)), 3, []);
    assert UnaryRule(ts, 1, []) == Parsed(Unary(ts[1], Literal(BoolLit(true))), 3, []);
    assert UnaryRule(ts, 0, []) == Parsed(e, 3, []);
    UnaryIsExpression(ts, 0, [], e, 3, []);
  }

  /**
   * `print 1` without its `;`: the missing semicolon is reported at EOF and
   * the statement is still produced.
   */
  lemma MissingSemicolonReported(ts: seq<Token>)
    requires KindsAre(ts, [TokenType.Print, Number, Eof])
    ensures Cursor(ts, 0)
    ensures var report := [ParseError(ts[2], ExpectSemicolonAfterValue)];
            && StatementRule(ts, 0, []) == Parsed(Stmt.Print(Literal(ts[1].literal)), 2, report)
            && ProgramRule(ts, 0, []) == Parsed([Stmt.Print(Literal(ts[1].literal))], 2, report)
  {
    LastEof(ts);
    var one := Literal(ts[1].literal);
    NumberIsFactor(ts, 1, []);
    assert BinaryTail(Term, ts, one, 2, []) == Parsed(one, 2, []);
    TermIsExpression(ts, 1, [], Parsed(one, 2, []));
    var report := [ParseError(ts[2], ExpectSemicolonAfterValue)];
    var s := Stmt.Print(one);
    assert StatementRule(ts, 0, []) == Parsed(s, 2, report);
    assert ProgramRule(ts, 2, report) == Parsed([], 2, report);
    assert [s] + [] == [s];
    assert ProgramRule(ts, 0, []) == Prepend([s], Parsed([], 2, report));
  }

  /**
   * `1 +` at EOF: `primary` reports "Expect expression." at the EOF token and
   * raises, which ends the whole parse.
   */
  lemma DanglingOperatorRaises(ts: seq<Token>)
    requires KindsAre(ts, [Number, Plus, Eof])
    ensures Cursor(ts, 0)
    ensures ProgramRule(ts, 0, []) == Raised([ParseError(ts[2], ExpectExpression)])
  {
    LastEof(ts);
    var report := [ParseError(ts[2], ExpectExpression)];
    NumberIsFactor(ts, 0, []);
    var right := BinaryTailStep(Term, ts, Literal(ts[0].literal), 1, []);
    assert PrimaryRule(ts, 2, []) == Raised(report);
    assert UnaryRule(ts, 2, []) == Raised(report);
    assert BinaryRule(Factor, ts, 2, []) == Raised(report);
    assert right == Raised(report);
    assert BinaryRule(Term, ts, 0, []) == Raised(report);
    TermIsExpression(ts, 0, [], Raised(report));
    assert StatementRule(ts, 0, []) == Raised(report);
  }
}
