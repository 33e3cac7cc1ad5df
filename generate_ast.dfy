/**
 * The AST generator (pylox/tool/generate_ast.py): from a grammar table of
 * entries "ClassName | field: Type, ...", it writes the node classes of one
 * base (`define_ast`) and the abstract visitor (`define_visitor`).
 *
 * Writing to a file is modelled as the returned sequence of lines: every
 * `f.write` in the source writes one whole line ending in "\n", so a line
 * here is one write without its "\n", and `f.write("\n")` is the empty line.
 *
 * Python's string operations are written out: `str.split`, `str.strip`
 * (ASCII whitespace), `str.lower` (ASCII letters) and `str.join`.
 */
module GenerateAst {
  import opened Sequences

  // ---------------------------------------------------------------------
  // Python string operations
  // ---------------------------------------------------------------------

  /** The characters `str.isspace` accepts below 128: tab to carriage return, 28 to 31, and space. */
  predicate IsSpace(c: char) {
    9 <= c as int <= 13 || 28 <= c as int <= 32
  }

  /** The number of whitespace characters at the front of `s`. */
  function Leading(s: string): (n: nat)
    ensures n <= |s| && (n < |s| ==> !IsSpace(s[n]))
  {
    if s != [] && IsSpace(s[0]) then 1 + Leading(s[1..]) else 0
  }

  /** The number of whitespace characters at the back of `s`. */
  function Trailing(s: string): (n: nat)
    ensures n <= |s| && (n < |s| ==> !IsSpace(s[|s| - 1 - n]))
  {
    if s != [] && IsSpace(s[|s| - 1]) then 1 + Trailing(s[..|s| - 1]) else 0
  }

  /** Only whitespace is counted at the front. */
  lemma {:induction false} LeadingSpaces(s: string)
    ensures forall k | 0 <= k < Leading(s) :: IsSpace(s[k])
  {
    if s != [] && IsSpace(s[0]) {
      LeadingSpaces(s[1..]);
      forall k | 1 <= k < Leading(s)
        ensures IsSpace(s[k])
      {
        assert s[k] == s[1..][k - 1];
      }
    }
  }

  /** Only whitespace is counted at the back. */
  lemma {:induction false} TrailingSpaces(s: string)
    ensures forall k | |s| - Trailing(s) <= k < |s| :: IsSpace(s[k])
  {
    if s != [] && IsSpace(s[|s| - 1]) {
      TrailingSpaces(s[..|s| - 1]);
      forall k | |s| - Trailing(s) <= k < |s| - 1
        ensures IsSpace(s[k])
      {
        assert s[k] == s[..|s| - 1][k];
      }
    }
  }

  /** `s.lstrip()`: `s` without its leading whitespace. */
  function StripLeft(s: string): string {
    s[Leading(s)..]
  }

  /** `s.rstrip()`: `s` without its trailing whitespace. */
  function StripRight(s: string): string {
    s[..|s| - Trailing(s)]
  }

  /** `s.strip()`. */
  function Strip(s: string): string {
    StripRight(StripLeft(s))
  }

  /** A text with no whitespace at either end. */
  predicate Stripped(s: string) {
    s == [] || (!IsSpace(s[0]) && !IsSpace(s[|s| - 1]))
  }

  /** The index of the first `c` in `s`, or `|s|` when there is none. */
  function Find(s: string, c: char): (i: nat)
    ensures i <= |s| && (i < |s| ==> s[i] == c)
  {
    if s == [] || s[0] == c then 0 else 1 + Find(s[1..], c)
  }

  /** No `c` comes before the one `Find` returns. */
  lemma {:induction false} FindFirst(s: string, c: char)
    ensures forall k | 0 <= k < Find(s, c) :: s[k] != c
  {
    if s != [] && s[0] != c {
      FindFirst(s[1..], c);
      forall k | 1 <= k < Find(s, c)
        ensures s[k] != c
      {
        assert s[k] == s[1..][k - 1];
      }
    }
  }

  /** `s.split(c, 1)[0]`, which is also `s.split(c)[0]`: the text before the first `c`. */
  function Before(s: string, c: char): string {
    s[..Find(s, c)]
  }

  /** Whether `s` holds a `c`. */
  predicate Found(s: string, c: char) {
    Find(s, c) < |s|
  }

  /** `s.split(c, 1)[1]`: the text after the first `c`; Python raises IndexError when there is none. */
  function After(s: string, c: char): string
    requires Found(s, c)
  {
    s[Find(s, c) + 1..]
  }

  /** `s.split(c)`: the pieces between occurrences of `c`, always at least one. */
  function Split(s: string, c: char): (pieces: seq<string>)
    ensures |pieces| >= 1 && pieces[0] == Before(s, c)
    decreases |s|
  {
    var i := Find(s, c);
    if i == |s| then [s] else [s[..i]] + Split(s[i + 1..], c)
  }

  /** `sep.join(xs)`. */
  function Join(xs: seq<string>, sep: string): string {
    if |xs| == 0 then ""
    else if |xs| == 1 then xs[0]
    else xs[0] + sep + Join(xs[1..], sep)
  }

  function LowerChar(c: char): (d: char)
    ensures !('A' <= d <= 'Z')
  {
    if 'A' <= c <= 'Z' then (c as int + 32) as char else c
  }

  /** No piece of `s.split(c)` holds `c`. */
  lemma {:induction false} SplitPieces(s: string, c: char)
    ensures forall k | 0 <= k < |Split(s, c)| :: c !in Split(s, c)[k]
    decreases |s|
  {
    FindFirst(s, c);
    var i := Find(s, c);
    if i < |s| {
      SplitPieces(s[i + 1..], c);
    }
  }

  /** `s.lower()` on ASCII letters. */
  function Lower(s: string): (r: string)
    ensures |r| == |s|
  {
    seq(|s|, k requires 0 <= k < |s| => LowerChar(s[k]))
  }

  // ---------------------------------------------------------------------
  // Properties of the string operations
  // ---------------------------------------------------------------------

  /** What `strip` returns is stripped, lies inside `s`, and only whitespace was cut off. */
  lemma StripSpec(s: string)
    ensures Stripped(Strip(s))
    ensures exists i, j | 0 <= i <= j <= |s| :: Strip(s) == s[i..j]
              && (forall k | 0 <= k < i :: IsSpace(s[k]))
              && (forall k | j <= k < |s| :: IsSpace(s[k]))
  {
    var l := StripLeft(s);
    var i := Leading(s);
    var j := |s| - Trailing(l);
    LeadingSpaces(s);
    TrailingSpaces(l);
    assert Strip(s) == s[i..j];
    forall k | j <= k < |s|
      ensures IsSpace(s[k])
    {
      assert s[k] == l[k - i];
    }
    if Strip(s) != [] {
      assert Strip(s)[0] == l[0];
      if l != [] {
        assert l[0] == s[i];
      }
    }
  }

  /** Stripping twice is stripping once. */
  lemma StripIdempotent(s: string)
    ensures Strip(Strip(s)) == Strip(s)
  {
    StripSpec(s);
    StrippedIsFixed(Strip(s));
  }

  /** A stripped text is left as it is. */
  lemma StrippedIsFixed(s: string)
    requires Stripped(s)
    ensures Strip(s) == s
  {
    assert Leading(s) == 0;
    assert StripLeft(s) == s;
    assert Trailing(s) == 0;
  }

  /** A space before a stripped text is cut off again. */
  lemma StripLeadingSpace(s: string)
    requires Stripped(s)
    ensures Strip(" " + s) == s
  {
    assert (" " + s)[1..] == s;
    StrippedIsFixed(s);
  }

  /** The first `c` in `a + [c] + b`, when `a` has none, is right after `a`. */
  lemma FindAfter(a: string, c: char, b: string)
    requires c !in a
    ensures Find(a + [c] + b, c) == |a|
  {
    var s := a + [c] + b;
    FindFirst(s, c);
    assert s[|a|] == c;
    assert forall k | 0 <= k < |a| :: s[k] == a[k];
  }

  /** Joining the pieces of `s.split(c)` with `c` gives back `s`. */
  lemma {:induction false} SplitJoin(s: string, c: char)
    ensures Join(Split(s, c), [c]) == s
    decreases |s|
  {
    var i := Find(s, c);
    if i < |s| {
      var rest := s[i + 1..];
      SplitJoin(rest, c);
      var tail := Split(rest, c);
      assert Split(s, c) == [s[..i]] + tail;
      assert ([s[..i]] + tail)[1..] == tail;
      assert s == s[..i] + [c] + rest;
    }
  }

  /** Splitting a join at `c`, when no part holds `c`, gives back the parts. */
  lemma {:induction false} JoinSplit(xs: seq<string>, c: char)
    requires |xs| >= 1 && forall k | 0 <= k < |xs| :: c !in xs[k]
    ensures Split(Join(xs, [c]), c) == xs
  {
    if |xs| > 1 {
      JoinSplit(xs[1..], c);
      var rest := Join(xs[1..], [c]);
      var s := xs[0] + [c] + rest;
      FindAfter(xs[0], c, rest);
      assert s[..|xs[0]|] == xs[0];
      assert s[|xs[0]| + 1..] == rest;
      assert xs == [xs[0]] + xs[1..];
    } else {
      assert Find(xs[0], c) == |xs[0]|;
    }
  }

  /** The pieces of a ", "-join split at ',': the first part, then each later part after a space. */
  lemma {:induction false} CommaJoinSplit(xs: seq<string>)
    requires |xs| >= 1 && forall k | 0 <= k < |xs| :: ',' !in xs[k]
    ensures var pieces := Split(Join(xs, ", "), ',');
            |pieces| == |xs| && pieces[0] == xs[0]
            && forall k | 1 <= k < |xs| :: pieces[k] == " " + xs[k]
  {
    if |xs| > 1 {
      var rest := Join(xs[1..], ", ");
      CommaJoinSplit(xs[1..]);
      assert Join(xs, ", ") == xs[0] + ", " + rest;
      CommaSplitStep(xs[0], rest);
      SpacedPieces(Split(Join(xs, ", "), ','), Split(rest, ','), xs);
    } else {
      assert Find(xs[0], ',') == |xs[0]|;
    }
  }

  /** The pieces of the whole from the first part and the pieces of the rest. */
  lemma SpacedPieces(pieces: seq<string>, inner: seq<string>, xs: seq<string>)
    requires |xs| >= 2 && |inner| == |xs| - 1 && inner[0] == xs[1]
    requires forall k | 1 <= k < |inner| :: inner[k] == " " + xs[k + 1]
    requires pieces == [xs[0]] + [" " + inner[0]] + inner[1..]
    ensures |pieces| == |xs| && pieces[0] == xs[0]
    ensures forall k | 1 <= k < |xs| :: pieces[k] == " " + xs[k]
  {
    forall k | 1 <= k < |xs|
      ensures pieces[k] == " " + xs[k]
    {
      if k > 1 {
        assert pieces[k] == inner[k - 1];
      }
    }
  }

  /** Splitting `x + ", " + rest` at ',': `x`, then the pieces of `rest` with a space before the first. */
  lemma CommaSplitStep(x: string, rest: string)
    requires ',' !in x
    ensures var inner := Split(rest, ',');
            Split(x + ", " + rest, ',') == [x] + [" " + inner[0]] + inner[1..]
  {
    var s := x + [','] + (" " + rest);
    assert x + ", " + rest == s;
    FindAfter(x, ',', " " + rest);
    assert s[..|x|] == x;
    assert s[|x| + 1..] == " " + rest;
    SpaceSplit(rest);
  }

  /** A leading space stays with the first piece. */
  lemma SpaceSplit(s: string)
    ensures var pieces := Split(" " + s, ',');
            pieces == [" " + Split(s, ',')[0]] + Split(s, ',')[1..]
  {
    var t := " " + s;
    assert t[1..] == s;
    FindSpace(s);
    var i := Find(s, ',');
    if i < |s| {
      assert t[..i + 1] == " " + s[..i];
      assert t[i + 2..] == s[i + 1..];
    }
  }

  lemma FindSpace(s: string)
    ensures Find(" " + s, ',') == Find(s, ',') + 1
  {
    assert (" " + s)[1..] == s;
  }

  /** Lower-casing the two base names. */
  lemma LowerBases()
    ensures Lower("Expr") == "expr" && Lower("Stmt") == "stmt"
  {
    assert Lower("r") == "r" && Lower("pr") == "pr" && Lower("xpr") == "xpr";
    assert Lower("t") == "t" && Lower("mt") == "mt" && Lower("tmt") == "tmt";
  }

  /** Lower-casing leaves no upper-case letter and changes nothing else. */
  lemma LowerLetters(s: string)
    ensures forall k | 0 <= k < |s| :: !('A' <= Lower(s)[k] <= 'Z')
    ensures forall k | 0 <= k < |s| && !('A' <= s[k] <= 'Z') :: Lower(s)[k] == s[k]
  {
  }

  /** Lower-casing is idempotent. */
  lemma {:induction false} LowerIdempotent(s: string)
    ensures Lower(Lower(s)) == Lower(s)
  {
    if s != [] {
      LowerIdempotent(s[1..]);
    }
  }

  // ---------------------------------------------------------------------
  // The grammar table
  // ---------------------------------------------------------------------

  const ExprTypes: seq<string> := [
    "Assign   | name: Token, value: Expr",
    "Binary   | left: Expr, operator: Token, right: Expr",
    "Call     | callee: Expr, paren: Token, arguments: List[Expr]",
    "Grouping | expression: Expr",
    "Literal  | value",
    "Logical  | left: Expr, operator: Token, right: Expr",
    "Unary    | operator: Token, right: Expr",
    "Variable | name: Token"
  ]

  const StmtTypes: seq<string> := [
    "Block      | statements: List[Stmt]",
    "Expression | expression: Expr",
    "Function | name: Token, params: List[Token], body: List[Stmt]",
    "If         | condittion: Expr, then_branch: Stmt, else_branch: Stmt",
    "Print      | expression: Expr",
    "Var        | name: Token, initializer: Expr",
    "While      | condition: Expr, body: Stmt"
  ]

  /** Entries `define_ast` can read: each has a '|' (the source raises IndexError otherwise). */
  predicate Entries(types: seq<string>) {
    forall k | 0 <= k < |types| :: Found(types[k], '|')
  }

  /** The class name of an entry: the text before the first '|', stripped. */
  function ClassName(entry: string): string {
    Strip(Before(entry, '|'))
  }

  /** A class name is stripped and holds no '|'. */
  lemma ClassNameClean(entry: string)
    ensures Stripped(ClassName(entry)) && '|' !in ClassName(entry)
  {
    StripSpec(Before(entry, '|'));
    FindFirst(entry, '|');
  }

  /** A field name is stripped and holds no ':'. */
  lemma FieldNameClean(piece: string)
    ensures Stripped(FieldName(piece)) && ':' !in FieldName(piece)
  {
    StripSpec(Before(piece, ':'));
    FindFirst(piece, ':');
  }

  /** The field list of an entry: the text after the first '|', stripped. */
  function FieldsText(entry: string): string
    requires Found(entry, '|')
  {
    Strip(After(entry, '|'))
  }

  /** The name of one comma-separated field: the text before ':', stripped. */
  function FieldName(piece: string): string {
    Strip(Before(piece, ':'))
  }

  /** The field names of an entry, in order. */
  function FieldNames(entry: string): seq<string>
    requires Found(entry, '|')
  {
    var pieces := Split(FieldsText(entry), ',');
    seq(|pieces|, k requires 0 <= k < |pieces| => FieldName(pieces[k]))
  }

  /** The visit method an `accept` of class `name` under base `base` calls. */
  function VisitName(name: string, base: string): string {
    MethodName(name, Lower(base))
  }

  /** "visit_" + the lowered class name + "_" + a kind. */
  function MethodName(name: string, kind: string): string {
    "visit_" + Lower(name) + "_" + kind
  }

  // ---------------------------------------------------------------------
  // The text of `define_ast`
  // ---------------------------------------------------------------------

  const Banner := "# Auto-generated by tool/generate_ast.py"

  /** The lines before the first class: only the Stmt base imports Expr. */
  function Header(base: string): seq<string> {
    [Banner, "from .token import Token"]
    + (if base == "Stmt" then ["from .expr import Expr"] else [])
    + ["from typing import List", "", "class " + base + ":", "    pass", ""]
  }

  function ClassLine(name: string, base: string): string {
    "class " + name + "(" + base + "):"
  }

  function InitLine(fields: string): string {
    "    def __init__(self, " + fields + "):"
  }

  function FieldLine(name: string): string {
    "        self." + name + " = " + name
  }

  function AcceptLine(name: string, base: string): string {
    "        return visitor." + VisitName(name, base) + "(self)"
  }

  /** One assignment line per field, in order. */
  function FieldLines(names: seq<string>): seq<string> {
    seq(|names|, k requires 0 <= k < |names| => FieldLine(names[k]))
  }

  /** The lines of the class of one entry. */
  function ClassLines(base: string, entry: string): seq<string>
    requires Found(entry, '|')
  {
    [ClassLine(ClassName(entry), base), InitLine(FieldsText(entry))]
    + FieldLines(FieldNames(entry))
    + ["", "    def accept(self, visitor):", AcceptLine(ClassName(entry), base), ""]
  }

  /** The classes of the entries: one block of lines per entry, in table order. */
  function Classes(base: string, types: seq<string>): seq<seq<string>>
    requires Entries(types)
  {
    seq(|types|, k requires 0 <= k < |types| => ClassLines(base, types[k]))
  }

  /** The whole text `define_ast` writes. */
  function AstLines(base: string, types: seq<string>): seq<string>
    requires Entries(types)
  {
    Header(base) + Concat(Classes(base, types))
  }

  /** `define_ast(output_dir, basename, types)`, with the file's lines as the result. */
  method DefineAst(basename: string, types: seq<string>) returns (lines: seq<string>)
    requires Entries(types)
    ensures lines == AstLines(basename, types)
  {
    lines := [Banner, "from .token import Token"];
    if basename == "Stmt" {
      lines := lines + ["from .expr import Expr"];
    }
    lines := lines + ["from typing import List", "", "class " + basename + ":", "    pass", ""];
    ghost var classes := Classes(basename, types);
    for i := 0 to |types|
      invariant lines == Header(basename) + Concat(classes[..i])
    {
      ghost var before := lines;
      lines := DefineClass(lines, basename, types[i]);
      ConcatStep(classes, i);
      Associative(Header(basename), Concat(classes[..i]), classes[i]);
    }
    assert classes[..|types|] == classes;
  }

  /** The body of the loop of `define_ast` for one entry: the lines of its class. */
  method DefineClass(prefix: seq<string>, basename: string, entry: string) returns (lines: seq<string>)
    requires Found(entry, '|')
    ensures lines == prefix + ClassLines(basename, entry)
  {
    var className := Strip(Before(entry, '|'));
    var fields := Strip(After(entry, '|'));
    ghost var head := [ClassLine(className, basename), InitLine(fields)];
    ghost var fieldLines := FieldLines(FieldNames(entry));
    ghost var tail := ["", "    def accept(self, visitor):", AcceptLine(className, basename), ""];
    assert ClassLines(basename, entry) == head + fieldLines + tail;
    lines := prefix + [ClassLine(className, basename), InitLine(fields)];
    ghost var start := lines;
    var pieces := Split(fields, ',');
    for j := 0 to |pieces|
      invariant lines == start + fieldLines[..j]
    {
      var fieldName := Strip(Before(pieces[j], ':'));
      TakeStep(fieldLines, j);
      assert fieldLines[j] == FieldLine(fieldName);
      Associative(start, fieldLines[..j], [FieldLine(fieldName)]);
      lines := lines + [FieldLine(fieldName)];
    }
    assert fieldLines[..|pieces|] == fieldLines;
    lines := lines + ["", "    def accept(self, visitor):", AcceptLine(className, basename), ""];
    AssociativeFour(prefix, head, fieldLines, tail);
  }

  // ---------------------------------------------------------------------
  // Properties of `define_ast`
  // ---------------------------------------------------------------------

  /** Only the Stmt file imports Expr. */
  lemma ExprImportOnlyForStmt(base: string)
    ensures "from .expr import Expr" in Header(base) <==> base == "Stmt"
  {
    var line := "from .expr import Expr";
    if base != "Stmt" {
      var h := Header(base);
      assert h == [Banner, "from .token import Token", "from typing import List", "", "class " + base + ":", "    pass", ""];
      assert Banner[0] != line[0] && "    pass"[0] != line[0];
      assert "from .token import Token"[6] != line[6] && "from typing import List"[5] != line[5];
      assert ("class " + base + ":")[0] != line[0];
      assert "" != line;
    }
  }

  /**
   * The class of an entry: its class line, its `__init__` line with the
   * field list as written, one assignment per field in field order, and an
   * `accept` that calls `VisitName(class, base)`.
   */
  lemma ClassShape(base: string, entry: string)
    requires Found(entry, '|')
    ensures var lines := ClassLines(base, entry); var fields := FieldNames(entry);
            && |lines| == |fields| + 6
            && lines[0] == "class " + ClassName(entry) + "(" + base + "):"
            && lines[1] == "    def __init__(self, " + FieldsText(entry) + "):"
            && (forall k | 0 <= k < |fields| :: lines[2 + k] == "        self." + fields[k] + " = " + fields[k])
            && lines[|fields| + 4] == "        return visitor." + VisitName(ClassName(entry), base) + "(self)"
  {
    var fields := FieldNames(entry);
    var lines := ClassLines(base, entry);
    forall k | 0 <= k < |fields|
      ensures lines[2 + k] == FieldLine(fields[k])
    {
      assert lines[2 + k] == FieldLines(fields)[k];
    }
  }

  /**
   * One class per entry, in table order: the text is the header, the
   * classes of the entries before entry `i`, the class of entry `i`, and
   * the classes of the entries after it.
   */
  lemma ClassesInOrder(base: string, types: seq<string>, i: nat)
    requires Entries(types) && i < |types|
    ensures AstLines(base, types)
            == Header(base) + Concat(Classes(base, types)[..i]) + ClassLines(base, types[i])
               + Concat(Classes(base, types)[i + 1..])
  {
    var classes := Classes(base, types);
    ConcatSplit(classes, i);
    Associative(Header(base), Concat(classes[..i]) + classes[i], Concat(classes[i + 1..]));
    Associative(Header(base), Concat(classes[..i]), classes[i]);
  }

  /** Whitespace after a text that does not end in whitespace is exactly its trailing part. */
  lemma {:induction false} TrailingPad(a: string, pad: string)
    requires a != [] && !IsSpace(a[|a| - 1])
    requires forall k | 0 <= k < |pad| :: IsSpace(pad[k])
    ensures Trailing(a + pad) == |pad|
    decreases |pad|
  {
    if pad == [] {
      assert a + pad == a;
    } else {
      var init := pad[..|pad| - 1];
      TrailingPad(a, init);
      var s := a + pad;
      assert s[..|s| - 1] == a + init;
      assert s[|s| - 1] == pad[|pad| - 1];
    }
  }

  /** The class name of "Name<spaces>|..." is Name, and what follows the '|' is the rest. */
  lemma PaddedName(name: string, pad: string, rest: string)
    requires name != [] && Stripped(name) && '|' !in name
    requires forall k | 0 <= k < |pad| :: IsSpace(pad[k])
    ensures var entry := name + pad + "|" + rest;
            Found(entry, '|') && ClassName(entry) == name && After(entry, '|') == rest
  {
    var head := name + pad;
    assert '|' !in head by {
      forall k | 0 <= k < |head|
        ensures head[k] != '|'
      {
        if k >= |name| {
          assert head[k] == pad[k - |name|];
        }
      }
    }
    var entry := head + ['|'] + rest;
    assert name + pad + "|" + rest == entry;
    FindAfter(head, '|', rest);
    assert Before(entry, '|') == head;
    assert Leading(head) == 0 by {
      assert head[0] == name[0];
    }
    TrailingPad(name, pad);
    assert StripRight(head) == name;
  }

  /** A field list that is one untyped field after a space is that single field. */
  lemma SingleField(field: string)
    requires Stripped(field) && ',' !in field && ':' !in field
    ensures Strip(" " + field) == field
    ensures var pieces := Split(Strip(" " + field), ',');
            |pieces| == 1 && FieldName(pieces[0]) == field
  {
    StripLeadingSpace(field);
    assert Find(field, ',') == |field| && Find(field, ':') == |field|;
    StrippedIsFixed(field);
  }

  /**
   * An entry "Name<spaces>| field" with a single untyped field, such as
   * "Literal  | value", is the class Name with the single field `field`.
   */
  lemma SingleFieldEntry(name: string, pad: string, field: string)
    requires name != [] && Stripped(name) && '|' !in name
    requires forall k | 0 <= k < |pad| :: IsSpace(pad[k])
    requires Stripped(field) && ',' !in field && ':' !in field
    ensures var entry := name + pad + "| " + field;
            Found(entry, '|') && ClassName(entry) == name && FieldNames(entry) == [field]
  {
    assert name + pad + "| " + field == name + pad + "|" + (" " + field);
    PaddedName(name, pad, " " + field);
    SingleField(field);
  }

  /** The entry "Literal  | value" of the Expr table is the class Literal with the single field value. */
  lemma LiteralEntry(entry: string)
    requires entry == ExprTypes[4]
    ensures ClassName(entry) == "Literal" && FieldNames(entry) == ["value"]
  {
    var name, field := "Literal", "value";
    assert entry == name + "  " + "| " + field;
    assert '|' !in name && ',' !in field && ':' !in field;
    SingleFieldEntry(name, "  ", field);
  }

  // ---------------------------------------------------------------------
  // The text of `define_visitor`
  // ---------------------------------------------------------------------

  /** The class names as the import lines compute them, with `split("|")[0]`: the same names as the classes'. */
  function ImportNames(types: seq<string>): (names: seq<string>)
    ensures |names| == |types|
    ensures forall k | 0 <= k < |types| :: names[k] == ClassName(types[k])
  {
    seq(|types|, k requires 0 <= k < |types| => Strip(Split(types[k], '|')[0]))
  }

  /** The declaration of the visit method for class `name` of kind `kind` ("expr" or "stmt"). */
  function VisitDecl(name: string, kind: string): string {
    "    def " + MethodName(name, kind) + "(self, " + kind + ": " + name + "):"
  }

  /** The four lines of one abstract visit method. */
  function VisitLines(name: string, kind: string): seq<string> {
    ["    @abstractmethod", VisitDecl(name, kind), "        pass", ""]
  }

  /** One visit method per entry, in table order. */
  function Visits(types: seq<string>, kind: string): seq<seq<string>> {
    seq(|types|, k requires 0 <= k < |types| => VisitLines(ClassName(types[k]), kind))
  }

  function VisitorHeader(exprTypes: seq<string>, stmtTypes: seq<string>): seq<string> {
    [ Banner, "from abc import ABC, abstractmethod",
      "from .expr import " + Join(ImportNames(exprTypes), ", "),
      "from .stmt import " + Join(ImportNames(stmtTypes), ", "),
      "", "class Visitor(ABC):", "" ]
  }

  /** The whole text `define_visitor` writes. */
  function VisitorLines(exprTypes: seq<string>, stmtTypes: seq<string>): seq<string> {
    VisitorHeader(exprTypes, stmtTypes) + Concat(Visits(exprTypes, "expr")) + Concat(Visits(stmtTypes, "stmt"))
  }

  /** `define_visitor(output_dir, expr_types, stmt_types)`, with the file's lines as the result. */
  method DefineVisitor(exprTypes: seq<string>, stmtTypes: seq<string>) returns (lines: seq<string>)
    ensures lines == VisitorLines(exprTypes, stmtTypes)
  {
    lines := [Banner, "from abc import ABC, abstractmethod"];
    var joinedExprTypes := Join(ImportNames(exprTypes), ", ");
    lines := lines + ["from .expr import " + joinedExprTypes];
    var joinedStmtTypes := Join(ImportNames(stmtTypes), ", ");
    lines := lines + ["from .stmt import " + joinedStmtTypes];
    lines := lines + ["", "class Visitor(ABC):", ""];
    ghost var header := lines;
    assert header == VisitorHeader(exprTypes, stmtTypes);
    ghost var exprVisits := Visits(exprTypes, "expr");
    for i := 0 to |exprTypes|
      invariant lines == header + Concat(exprVisits[..i])
    {
      var typeName := Strip(Before(exprTypes[i], '|'));
      ConcatStep(exprVisits, i);
      Associative(header, Concat(exprVisits[..i]), exprVisits[i]);
      lines := lines + ["    @abstractmethod", VisitDecl(typeName, "expr"), "        pass", ""];
    }
    assert exprVisits[..|exprTypes|] == exprVisits;
    ghost var middle := lines;
    ghost var stmtVisits := Visits(stmtTypes, "stmt");
    for i := 0 to |stmtTypes|
      invariant lines == middle + Concat(stmtVisits[..i])
    {
      var typeName := Strip(Before(stmtTypes[i], '|'));
      ConcatStep(stmtVisits, i);
      Associative(middle, Concat(stmtVisits[..i]), stmtVisits[i]);
      lines := lines + ["    @abstractmethod", VisitDecl(typeName, "stmt"), "        pass", ""];
    }
    assert stmtVisits[..|stmtTypes|] == stmtVisits;
    assert lines == header + Concat(exprVisits) + Concat(stmtVisits);
  }

  // ---------------------------------------------------------------------
  // Properties of `define_visitor`
  // ---------------------------------------------------------------------

  /** The declaration of entry `k` of a table is line `4 * k + 1` of its visit methods. */
  lemma VisitsAt(types: seq<string>, kind: string, k: nat)
    requires k < |types|
    ensures |Concat(Visits(types, kind))| == 4 * |types|
    ensures Concat(Visits(types, kind))[4 * k + 1] == VisitDecl(ClassName(types[k]), kind)
  {
    var visits := Visits(types, kind);
    ConcatUniform(visits, 4);
    ConcatUniformAt(visits, 4, k, 1);
  }

  /** The visit method of Expr entry `k` is declared on line `8 + 4 * k`. */
  lemma ExprVisitDeclared(exprTypes: seq<string>, stmtTypes: seq<string>, k: nat)
    requires k < |exprTypes|
    ensures var lines := VisitorLines(exprTypes, stmtTypes);
            8 + 4 * k < |lines| && lines[8 + 4 * k] == VisitDeclared(ClassName(exprTypes[k]), "Expr", "expr")
  {
    LowerBases();
    VisitsAt(exprTypes, "expr", k);
    var header := VisitorHeader(exprTypes, stmtTypes);
    var exprLines := Concat(Visits(exprTypes, "expr"));
    var stmtLines := Concat(Visits(stmtTypes, "stmt"));
    assert |header| == 7;
    IndexMiddle(header, exprLines, stmtLines, 4 * k + 1);
  }

  /** The visit method of Stmt entry `k` is declared on line `8 + 4 * |exprTypes| + 4 * k`. */
  lemma StmtVisitDeclared(exprTypes: seq<string>, stmtTypes: seq<string>, k: nat)
    requires k < |stmtTypes|
    ensures var lines := VisitorLines(exprTypes, stmtTypes);
            && 8 + 4 * |exprTypes| + 4 * k < |lines|
            && lines[8 + 4 * |exprTypes| + 4 * k] == VisitDeclared(ClassName(stmtTypes[k]), "Stmt", "stmt")
  {
    LowerBases();
    VisitsAt(stmtTypes, "stmt", k);
    var header := VisitorHeader(exprTypes, stmtTypes);
    var exprLines := Concat(Visits(exprTypes, "expr"));
    var stmtLines := Concat(Visits(stmtTypes, "stmt"));
    ConcatUniform(Visits(exprTypes, "expr"), 4);
    assert |header| == 7;
    IndexLast(header, exprLines, stmtLines, 4 * k + 1);
  }

  /**
   * The visitor declares, for every Expr entry and every Stmt entry, a
   * method named exactly as that class's `accept` calls it.
   */
  lemma AcceptMatchesVisitor(exprTypes: seq<string>, stmtTypes: seq<string>)
    ensures var lines := VisitorLines(exprTypes, stmtTypes);
            && (forall k | 0 <= k < |exprTypes| ::
                  8 + 4 * k < |lines| && lines[8 + 4 * k] == VisitDeclared(ClassName(exprTypes[k]), "Expr", "expr"))
            && (forall k | 0 <= k < |stmtTypes| ::
                  && 8 + 4 * |exprTypes| + 4 * k < |lines|
                  && lines[8 + 4 * |exprTypes| + 4 * k] == VisitDeclared(ClassName(stmtTypes[k]), "Stmt", "stmt"))
  {
    forall k | 0 <= k < |exprTypes|
      ensures var lines := VisitorLines(exprTypes, stmtTypes);
              8 + 4 * k < |lines| && lines[8 + 4 * k] == VisitDeclared(ClassName(exprTypes[k]), "Expr", "expr")
    {
      ExprVisitDeclared(exprTypes, stmtTypes, k);
    }
    forall k | 0 <= k < |stmtTypes|
      ensures var lines := VisitorLines(exprTypes, stmtTypes);
              && 8 + 4 * |exprTypes| + 4 * k < |lines|
              && lines[8 + 4 * |exprTypes| + 4 * k] == VisitDeclared(ClassName(stmtTypes[k]), "Stmt", "stmt")
    {
      StmtVisitDeclared(exprTypes, stmtTypes, k);
    }
  }

  /** The declaration of the visit method `accept` calls, for base `base`, with parameter `kind`. */
  function VisitDeclared(name: string, base: string, kind: string): string {
    "    def " + VisitName(name, base) + "(self, " + kind + ": " + name + "):"
  }

  /**
   * The import list names every class, in table order: split at ',' and
   * stripped, it gives back the class names.
   */
  lemma ImportRoundTrip(types: seq<string>)
    requires |types| >= 1
    requires forall k | 0 <= k < |types| :: ',' !in ClassName(types[k])
    ensures var pieces := Split(Join(ImportNames(types), ", "), ',');
            |pieces| == |types| && forall k | 0 <= k < |types| :: Strip(pieces[k]) == ClassName(types[k])
  {
    var names := ImportNames(types);
    CommaJoinSplit(names);
    var pieces := Split(Join(names, ", "), ',');
    forall k | 0 <= k < |types|
      ensures Strip(pieces[k]) == ClassName(types[k])
    {
      ClassNameClean(types[k]);
      if k == 0 {
        StrippedIsFixed(names[0]);
      } else {
        StripLeadingSpace(names[k]);
      }
    }
  }
}
