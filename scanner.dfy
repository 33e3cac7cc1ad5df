/**
 * The scanner (pylox/scanner.py). In this snapshot it recognises only ten
 * single-character punctuation tokens; every other character, whitespace,
 * digits, letters and newlines included, is reported as unexpected and
 * yields no token. `line` starts at 1 and nothing ever increments it.
 *
 * The source reports through `Lox.error(line, message)`; the model appends
 * the report to the scanner's own `errors` log instead.
 *
 * `TokensOf` and `ErrorsOf` are the specification: what the scanner appends
 * for a stretch of source text. The `Scanner` class follows the source's
 * cursor fields and its `while` loop and is proved to append exactly that.
 */
module Scanning {
  import opened Wrappers
  import opened Tokens
  import opened Sequences

  datatype ScanError = ScanError(line: int, message: string)

  /** The report for a character the scanner does not know (spelling as in the source). */
  const UnexpectedCharacter := "Unexpceted character."

  /** The token kind of each character `scanToken` recognises. */
  function PunctuationKind(c: char): Option<TokenType> {
    match c
    case '(' => Some(LeftParen)
    case ')' => Some(RightParen)
    case '{' => Some(LeftBrace)
    case '}' => Some(RightBrace)
    case ',' => Some(Comma)
    case '.' => Some(Dot)
    case '-' => Some(Minus)
    case '+' => Some(Plus)
    case ';' => Some(Semicolon)
    case '*' => Some(Star)
    case _ => None
  }

  /** What one call of `scanToken` appends to the token list for the character `c`. */
  function TokenFor(c: char, line: int): seq<Token> {
    match PunctuationKind(c)
    case Some(kind) => [Token(kind, [c], NoLit, line)]
    case None => []
  }

  /** What one call of `scanToken` appends to the log for the character `c`. */
  function ErrorFor(c: char, line: int): seq<ScanError> {
    if PunctuationKind(c).Some? then [] else [ScanError(line, UnexpectedCharacter)]
  }

  /** The tokens for a stretch of source text, one per recognised character, in order. */
  function TokensOf(s: string, line: int): seq<Token> {
    if s == [] then [] else TokensOf(s[..|s| - 1], line) + TokenFor(s[|s| - 1], line)
  }

  /** The reports for a stretch of source text, one per unrecognised character. */
  function ErrorsOf(s: string, line: int): seq<ScanError> {
    if s == [] then [] else ErrorsOf(s[..|s| - 1], line) + ErrorFor(s[|s| - 1], line)
  }

  /** The EOF token `scan_tokens` appends last. */
  function EofToken(line: int): Token {
    Token(Eof, "", NoLit, line)
  }

  /** The whole result of scanning `source` with a fresh scanner. */
  function Scan(source: string): seq<Token> {
    TokensOf(source, 1) + [EofToken(1)]
  }

  /** The characters of `s` that the scanner recognises, in order. */
  function Recognised(s: string): string {
    if s == [] then []
    else Recognised(s[..|s| - 1]) + (if PunctuationKind(s[|s| - 1]).Some? then [s[|s| - 1]] else [])
  }

  /** The lexemes of the tokens, one after another. */
  function Lexemes(ts: seq<Token>): string {
    if ts == [] then [] else Lexemes(ts[..|ts| - 1]) + ts[|ts| - 1].lexeme
  }

  /** Scanning one more character appends that character's token and report. */
  lemma ScanStep(source: string, from: nat, i: nat, line: int)
    requires from <= i < |source|
    ensures TokensOf(source[from..i + 1], line) == TokensOf(source[from..i], line) + TokenFor(source[i], line)
    ensures ErrorsOf(source[from..i + 1], line) == ErrorsOf(source[from..i], line) + ErrorFor(source[i], line)
  {
    assert source[from..i + 1][..i - from] == source[from..i];
  }

  class Scanner {
    const source: string
    var start: nat
    var current: nat
    var line: int
    var tokens: seq<Token>
    var errors: seq<ScanError>

    ghost predicate Valid()
      reads this
    {
      start <= current <= |source|
    }

    constructor (source: string)
      ensures Valid()
      ensures this.source == source && start == 0 && current == 0 && line == 1
      ensures tokens == [] && errors == []
    {
      this.source := source;
      start := 0;
      current := 0;
      line := 1;
      tokens := [];
      errors := [];
    }

    /**
     * `scan_tokens`: scan one token from each position until the end, then
     * append EOF; the result is the token list itself.
     */
    method ScanTokens() returns (r: seq<Token>)
      requires Valid()
      modifies this
      ensures Valid() && current == |source| && line == old(line)
      ensures tokens == old(tokens) + TokensOf(source[old(current)..], line) + [EofToken(line)]
      ensures errors == old(errors) + ErrorsOf(source[old(current)..], line)
      ensures r == tokens
    {
      ghost var from := current;
      while !IsAtEnd()
        invariant Valid() && from <= current && line == old(line)
        invariant tokens == old(tokens) + TokensOf(source[from..current], line)
        invariant errors == old(errors) + ErrorsOf(source[from..current], line)
        decreases |source| - current
      {
        start := current;
        ghost var i := current;
        ScanStep(source, from, i, line);
        ScanToken();
        Associative(old(tokens), TokensOf(source[from..i], line), TokenFor(source[i], line));
        Associative(old(errors), ErrorsOf(source[from..i], line), ErrorFor(source[i], line));
      }
      assert source[from..current] == source[from..];
      tokens := tokens + [EofToken(line)];
      return tokens;
    }

    /** `isAtEnd`. */
    function IsAtEnd(): (r: bool)
      reads this
      ensures r <==> current >= |source|
    {
      current >= |source|
    }

    /**
     * `scanToken`: consume one character; a recognised one becomes a token
     * whose lexeme is that character, any other is reported.
     */
    method ScanToken()
      requires Valid() && start == current < |source|
      modifies this`current, this`tokens, this`errors
      ensures Valid() && current == old(current) + 1
      ensures tokens == old(tokens) + TokenFor(source[old(current)], line)
      ensures errors == old(errors) + ErrorFor(source[old(current)], line)
    {
      var c := Advance();
      assert source[start..current] == [c];
      if c == '(' {
        AddToken(LeftParen);
        return;
      } else if c == ')' {
        AddToken(RightParen);
        return;
      } else if c == '{' {
        AddToken(LeftBrace);
        return;
      } else if c == '}' {
        AddToken(RightBrace);
        return;
      } else if c == ',' {
        AddToken(Comma);
        return;
      } else if c == '.' {
        AddToken(Dot);
        return;
      } else if c == '-' {
        AddToken(Minus);
        return;
      } else if c == '+' {
        AddToken(Plus);
        return;
      } else if c == ';' {
        AddToken(Semicolon);
        return;
      } else if c == '*' {
        AddToken(Star);
        return;
      } else {
        errors := errors + [ScanError(line, UnexpectedCharacter)];
        return;
      }
    }

    /** `advance`: the current character, and the cursor moves past it. */
    method Advance() returns (c: char)
      requires current < |source|
      modifies this`current
      ensures c == source[old(current)] && current == old(current) + 1
    {
      c := source[current];
      current := current + 1;
    }

    /** `add_token`: a token whose lexeme is the text from `start` to the cursor. */
    method AddToken(kind: TokenType)
      requires start <= current <= |source|
      modifies this`tokens
      ensures tokens == old(tokens) + [Token(kind, source[start..current], NoLit, line)]
    {
      var text := source[start..current];
      tokens := tokens + [Token(kind, text, NoLit, line)];
    }
  }

  // ---------------------------------------------------------------------
  // Properties of the specification
  // ---------------------------------------------------------------------

  /** The tokens of a stretch of text: each is a recognised character's own token, on the given line. */
  lemma {:induction false} TokensAreCharacters(s: string, line: int)
    ensures forall t | t in TokensOf(s, line) ::
              && t.kind != Eof && t.literal == NoLit && t.line == line
              && |t.lexeme| == 1 && PunctuationKind(t.lexeme[0]) == Some(t.kind)
  {
    if s != [] {
      TokensAreCharacters(s[..|s| - 1], line);
    }
  }

  /** One token per recognised character and one report per other character. */
  lemma {:induction false} CountsAddUp(s: string, line: int)
    ensures |TokensOf(s, line)| == |Recognised(s)|
    ensures |TokensOf(s, line)| + |ErrorsOf(s, line)| == |s|
  {
    if s != [] {
      CountsAddUp(s[..|s| - 1], line);
    }
  }

  /** The lexemes, read one after another, are exactly the recognised characters in source order. */
  lemma {:induction false} LexemesInOrder(s: string, line: int)
    ensures Lexemes(TokensOf(s, line)) == Recognised(s)
  {
    if s != [] {
      var init := s[..|s| - 1];
      LexemesInOrder(init, line);
      var ts := TokensOf(init, line) + TokenFor(s[|s| - 1], line);
      if PunctuationKind(s[|s| - 1]).Some? {
        assert ts[..|ts| - 1] == TokensOf(init, line);
      } else {
        assert ts == TokensOf(init, line);
      }
    }
  }

  /** Scanning text made of two parts appends the second part's tokens to the first's. */
  lemma {:induction false} TokensOfAppend(s: string, s': string, line: int)
    ensures TokensOf(s + s', line) == TokensOf(s, line) + TokensOf(s', line)
    decreases |s'|
  {
    if s' == [] {
      assert s + s' == s;
    } else {
      var init := s'[..|s'| - 1];
      TokensOfAppend(s, init, line);
      assert (s + s')[..|s + s'| - 1] == s + init;
      assert (s + s')[|s + s'| - 1] == s'[|s'| - 1];
      Associative(TokensOf(s, line), TokensOf(init, line), TokenFor(s'[|s'| - 1], line));
    }
  }

  /**
   * A fresh scan ends with exactly one EOF token, with lexeme "", no
   * literal and line 1; every token before it is a punctuation token on
   * line 1; and there is one token more than there are recognised
   * characters.
   */
  lemma ScanShape(source: string)
    ensures var ts := Scan(source);
            && |ts| == |Recognised(source)| + 1
            && ts[|ts| - 1] == Token(Eof, "", NoLit, 1)
            && forall i | 0 <= i < |ts| - 1 :: ts[i].kind != Eof && ts[i].line == 1 && ts[i].literal == NoLit
  {
    TokensAreCharacters(source, 1);
    CountsAddUp(source, 1);
    var ts := Scan(source);
    forall i | 0 <= i < |ts| - 1
      ensures ts[i].kind != Eof && ts[i].line == 1 && ts[i].literal == NoLit
    {
      assert ts[i] in TokensOf(source, 1);
    }
  }

  /** Each of the ten punctuation characters alone scans to its token and EOF, with no report. */
  lemma PunctuationAlone(c: char)
    requires PunctuationKind(c).Some?
    ensures Scan([c]) == [Token(PunctuationKind(c).value, [c], NoLit, 1), EofToken(1)]
    ensures ErrorsOf([c], 1) == []
  {
    assert [c][..0] == [];
  }

  /** Any other character alone scans to EOF only, with one "Unexpceted character." report. */
  lemma OtherAlone(c: char)
    requires PunctuationKind(c).None?
    ensures Scan([c]) == [EofToken(1)]
    ensures ErrorsOf([c], 1) == [ScanError(1, UnexpectedCharacter)]
  {
    assert [c][..0] == [];
    assert TokenFor(c, 1) == [];
    assert TokensOf([c], 1) == [];
  }

  /** A scanner run from construction yields `Scan(source)` and logs `ErrorsOf(source, 1)`. */
  method ScanSource(source: string) returns (ts: seq<Token>, errs: seq<ScanError>)
    ensures ts == Scan(source) && errs == ErrorsOf(source, 1)
  {
    var scanner := new Scanner(source);
    ts := scanner.ScanTokens();
    assert source[0..] == source;
    errs := scanner.errors;
  }
}
