/**
 * Diagnostics for a parsed SansScript document. Five independent checks
 * run over the lines in a fixed order and their findings are concatenated:
 * missing indentation after a block opener, malformed block headers,
 * `elif`/`else` without an open `if`, unbalanced parentheses and brackets,
 * and calls of functions that are defined nowhere.
 */
module Analyzer {
  import opened Wrappers
  import opened AssocList
  import opened Text
  import opened Symbols
  import opened Lexer
  import opened Document

  datatype Severity = Error | Warning

  /** What a diagnostic reports; the wording of the messages is not modelled. */
  datatype Message =
    | ExpectedIndent
    | BadFunctionDef
    | MissingCloseParen
    | MissingColon(keyword: string)
    | ElseMissingColon
    | OrphanElif
    | OrphanElse
    | UnmatchedParens
    | UnmatchedBrackets
    | UndefinedFunction(name: string)

  /** The five checks, in the order the analyser runs them */
  datatype Check = Indentation | BlockStructure | Orphans | Brackets | Calls

  /** The check that issues each kind of message */
  function CheckOf(m: Message): Check {
    match m
    case ExpectedIndent => Indentation
    case BadFunctionDef | MissingCloseParen | MissingColon(_) | ElseMissingColon => BlockStructure
    case OrphanElif | OrphanElse => Orphans
    case UnmatchedParens | UnmatchedBrackets => Brackets
    case UndefinedFunction(_) => Calls
  }

  /** Columns `[start, end)` of line `line` */
  datatype Range = Range(line: nat, start: nat, end: nat)

  datatype Diagnostic = Diagnostic(range: Range, message: Message, severity: Severity)

  /** The range covering all of line `l`, whose text is `text` */
  function WholeLine(l: nat, text: string): Range {
    Range(l, 0, |text|)
  }

  /** Only missing indentation and calls of unknown functions are warnings;
      everything else the analyser reports is an error. */
  predicate SeverityFits(x: Diagnostic) {
    x.severity == if x.message.ExpectedIndent? || x.message.UndefinedFunction? then Warning else Error
  }

  /** The analyser reads the text, the tokens and the indentation of a line
      together, so the three lists have one entry per line. */
  predicate Aligned(d: ParsedDocument) {
    |d.tokens| == |d.lines| && |d.lineIndents| == |d.lines|
  }

  // ---------------------------------------------------------------------
  // Line classes shared by the indentation and the if/elif/else checks

  /** A line holding code: after stripping it is neither empty nor a comment */
  predicate IsCode(line: string) {
    var s := Strip(line);
    |s| > 0 && !StartsWith(s, "#")
  }

  /** `_line_opens_block`: the text starts with one of the block keywords */
  predicate StartsWithBlockOpener(s: string) {
    exists kw :: kw in BlockOpeners && StartsWith(s, kw)
  }

  /** The line, stripped, starts with a block keyword and ends with a colon. */
  predicate OpensBlock(line: string) {
    var s := Strip(line);
    EndsWith(s, ':') && StartsWithBlockOpener(s)
  }

  /** A stripped line that opens an `if` */
  predicate IsIfLine(s: string) {
    StartsWith(s, IfKeyword) && EndsWith(s, ':')
  }

  /** A stripped line that starts an `elif` (with or without its colon) */
  predicate IsElifLine(s: string) {
    StartsWith(s, ElifKeyword)
  }

  /** A stripped line that opens an `else` */
  predicate IsElseLine(s: string) {
    StartsWith(s, ElseKeyword) && EndsWith(s, ':')
  }

  /** No stripped line is of two of the three kinds, so the order in which
      the check tests them does not matter. */
  lemma LineKindsExclusive(s: string)
    ensures !(IsIfLine(s) && IsElifLine(s))
    ensures !(IsIfLine(s) && IsElseLine(s))
    ensures !(IsElifLine(s) && IsElseLine(s))
  {
    if IsIfLine(s) {
      assert s[0] == IfKeyword[0];
    }
    if IsElifLine(s) {
      assert s[1] == ElifKeyword[1];
    }
  }

  /** What the two line-by-line checks read off a line's stripped text */
  datatype Shape = Shape(code: bool, opens: bool, ifLine: bool, elifLine: bool, elseLine: bool)

  function ShapeOf(line: string): (sh: Shape)
    ensures !(sh.ifLine && sh.elifLine) && !(sh.ifLine && sh.elseLine) && !(sh.elifLine && sh.elseLine)
  {
    var s := Strip(line);
    LineKindsExclusive(s);
    Shape(IsCode(line), OpensBlock(line), IsIfLine(s), IsElifLine(s), IsElseLine(s))
  }

  /** The shapes of the lines, in order */
  function Shapes(lines: seq<string>): (r: seq<Shape>)
    ensures |r| == |lines|
    decreases |lines|
  {
    if |lines| == 0 then [] else [ShapeOf(lines[0])] + Shapes(lines[1..])
  }

  lemma {:induction false} ShapesAt(lines: seq<string>, i: nat)
    requires i < |lines|
    ensures Shapes(lines)[i] == ShapeOf(lines[i])
    decreases i
  {
    if i > 0 {
      ShapesAt(lines[1..], i - 1);
    }
  }

  /** The checks read the shape, the indentation and the length of a line. */
  ghost predicate ShapedAs(d: ParsedDocument, shapes: seq<Shape>) {
    Aligned(d) && |shapes| == |d.lines|
  }

  /** Shapes are those of the lines, with the kinds of the three keyword
      lines mutually exclusive. */
  ghost predicate ShapesExclusive(shapes: seq<Shape>) {
    forall q :: 0 <= q < |shapes| ==>
      var sh := shapes[q];
      !(sh.ifLine && sh.elifLine) && !(sh.ifLine && sh.elseLine) && !(sh.elifLine && sh.elseLine)
  }

  lemma ShapesAreExclusive(lines: seq<string>)
    ensures ShapesExclusive(Shapes(lines))
  {
    forall q | 0 <= q < |lines| ensures
      var sh := Shapes(lines)[q];
      !(sh.ifLine && sh.elifLine) && !(sh.ifLine && sh.elseLine) && !(sh.elifLine && sh.elseLine)
    {
      ShapesAt(lines, q);
    }
  }

  // ---------------------------------------------------------------------
  // Check 1: an indented block must follow a block opener

  /** The diagnostics are on strictly increasing lines: at most one per line. */
  ghost predicate LinesIncrease(xs: seq<Diagnostic>) {
    forall a, b :: 0 <= a < b < |xs| ==> xs[a].range.line < xs[b].range.line
  }

  /** `_check_indentation` over lines `i ..`, given the indentation of the
      previous code line and whether it opened a block */
  function IndentFrom(d: ParsedDocument, shapes: seq<Shape>, i: nat, prevIndent: nat, prevOpens: bool): (r: seq<Diagnostic>)
    requires ShapedAs(d, shapes) && i <= |d.lines|
    ensures forall x :: x in r ==>
      && i <= x.range.line < |d.lines| && x.range == WholeLine(x.range.line, d.lines[x.range.line])
      && x.message == ExpectedIndent && x.severity == Warning
    ensures LinesIncrease(r)
    decreases |d.lines| - i
  {
    if i == |d.lines| then []
    else if !shapes[i].code then IndentFrom(d, shapes, i + 1, prevIndent, prevOpens)
    else
      var indent := d.lineIndents[i];
      var rest := IndentFrom(d, shapes, i + 1, indent, shapes[i].opens);
      if prevOpens && indent <= prevIndent then
        [Diagnostic(WholeLine(i, d.lines[i]), ExpectedIndent, Warning)] + rest
      else rest
  }

  function CheckIndentation(d: ParsedDocument): seq<Diagnostic>
    requires Aligned(d)
  {
    IndentFrom(d, Shapes(d.lines), 0, 0, false)
  }

  /** The nearest code line above line `l`, if there is one */
  function LastCode(shapes: seq<Shape>, l: nat): (r: Option<nat>)
    requires l <= |shapes|
    ensures r.Some? ==> r.value < l && shapes[r.value].code
    ensures r.Some? ==> forall q :: r.value < q < l ==> !shapes[q].code
    ensures r.None? ==> forall q :: 0 <= q < l ==> !shapes[q].code
    decreases l
  {
    if l == 0 then None
    else if shapes[l - 1].code then Some(l - 1)
    else LastCode(shapes, l - 1)
  }

  /** The rule the indentation check enforces, stated per line: a code line
      is reported when the nearest code line above it opens a block and the
      line is not indented deeper than that one. */
  ghost predicate ExpectsIndent(d: ParsedDocument, shapes: seq<Shape>, l: nat)
    requires ShapedAs(d, shapes) && l < |d.lines|
  {
    && shapes[l].code
    && match LastCode(shapes, l)
       case None => false
       case Some(p) => shapes[p].opens && d.lineIndents[l] <= d.lineIndents[p]
  }

  /** The loop state of the indentation check before line `i` */
  function IndentState(d: ParsedDocument, shapes: seq<Shape>, i: nat): (nat, bool)
    requires ShapedAs(d, shapes) && i <= |d.lines|
  {
    match LastCode(shapes, i)
    case None => (0, false)
    case Some(p) => (d.lineIndents[p], shapes[p].opens)
  }

  lemma {:induction false} IndentFromExact(d: ParsedDocument, shapes: seq<Shape>, i: nat, l: nat)
    requires ShapedAs(d, shapes) && i <= l < |d.lines|
    ensures var s := IndentState(d, shapes, i);
            ((Diagnostic(WholeLine(l, d.lines[l]), ExpectedIndent, Warning) in IndentFrom(d, shapes, i, s.0, s.1))
              <==> ExpectsIndent(d, shapes, l))
    decreases |d.lines| - i
  {
    var s := IndentState(d, shapes, i);
    var s' := IndentState(d, shapes, i + 1);
    var w := Diagnostic(WholeLine(l, d.lines[l]), ExpectedIndent, Warning);
    assert s' == if shapes[i].code then (d.lineIndents[i], shapes[i].opens) else s;
    if i == l {
      var rest := IndentFrom(d, shapes, i + 1, s'.0, s'.1);
      assert w !in rest;
    } else {
      IndentFromExact(d, shapes, i + 1, l);
    }
  }

  /** The indentation check reports exactly the lines that break the rule. */
  lemma IndentationExact(d: ParsedDocument, l: nat)
    requires Aligned(d) && l < |d.lines|
    ensures (Diagnostic(WholeLine(l, d.lines[l]), ExpectedIndent, Warning) in Findings(Indentation, d))
              <==> ExpectsIndent(d, Shapes(d.lines), l)
    ensures LinesIncrease(Findings(Indentation, d))
  {
    var shapes := Shapes(d.lines);
    assert IndentState(d, shapes, 0) == (0, false);
    IndentFromExact(d, shapes, 0, l);
  }

  // ---------------------------------------------------------------------
  // Check 3: `elif` and `else` need an open `if` at the same indentation

  /** `_check_orphaned_elif_else` over lines `i ..`. The map holds, for
      each indentation with an open `if`, the line it was last updated on. */
  function OrphansFrom(d: ParsedDocument, shapes: seq<Shape>, i: nat, open: map<nat, nat>): (r: seq<Diagnostic>)
    requires ShapedAs(d, shapes) && i <= |d.lines|
    ensures forall x :: x in r ==>
      && i <= x.range.line < |d.lines| && x.range == WholeLine(x.range.line, d.lines[x.range.line])
      && (x.message == OrphanElif || x.message == OrphanElse) && x.severity == Error
    ensures LinesIncrease(r)
    decreases |d.lines| - i
  {
    if i == |d.lines| then []
    else if !shapes[i].code then OrphansFrom(d, shapes, i + 1, open)
    else
      var indent := d.lineIndents[i];
      var w := WholeLine(i, d.lines[i]);
      if shapes[i].ifLine then OrphansFrom(d, shapes, i + 1, open[indent := i])
      else if shapes[i].elifLine then
        if indent !in open then [Diagnostic(w, OrphanElif, Error)] + OrphansFrom(d, shapes, i + 1, open)
        else OrphansFrom(d, shapes, i + 1, open[indent := i])
      else if shapes[i].elseLine then
        if indent !in open then [Diagnostic(w, OrphanElse, Error)] + OrphansFrom(d, shapes, i + 1, open)
        else OrphansFrom(d, shapes, i + 1, open - {indent})
      else OrphansFrom(d, shapes, i + 1, open - {indent})
  }

  function CheckOrphans(d: ParsedDocument): seq<Diagnostic>
    requires Aligned(d)
  {
    OrphansFrom(d, Shapes(d.lines), 0, map[])
  }

  /** Line `q` is a code line at indentation `k` */
  ghost predicate CodeAt(d: ParsedDocument, shapes: seq<Shape>, q: nat, k: nat)
    requires ShapedAs(d, shapes) && q < |d.lines|
  {
    shapes[q].code && d.lineIndents[q] == k
  }

  /** Line `q` leaves an `if` at indentation `k` open: it is at another
      indentation, or not code, or an `if` or `elif` line itself. */
  ghost predicate KeepsIfOpen(d: ParsedDocument, shapes: seq<Shape>, q: nat, k: nat)
    requires ShapedAs(d, shapes) && q < |d.lines|
  {
    !CodeAt(d, shapes, q, k) || shapes[q].ifLine || shapes[q].elifLine
  }

  /** An `if` line at indentation `k` at line `p`, followed up to line `i`
      only by lines that keep it open */
  ghost predicate OpenSince(d: ParsedDocument, shapes: seq<Shape>, p: nat, i: nat, k: nat)
    requires ShapedAs(d, shapes) && i <= |d.lines|
  {
    && p < i && CodeAt(d, shapes, p, k) && shapes[p].ifLine
    && forall q :: p < q < i ==> KeepsIfOpen(d, shapes, q, k)
  }

  /** An `if` at indentation `k` is still open above line `i` */
  ghost predicate IfOpen(d: ParsedDocument, shapes: seq<Shape>, i: nat, k: nat)
    requires ShapedAs(d, shapes) && i <= |d.lines|
  {
    exists p: nat :: OpenSince(d, shapes, p, i, k)
  }

  /** An `if` line opens an `if` at its own indentation. */
  lemma IfOpenNew(d: ParsedDocument, shapes: seq<Shape>, i: nat, k: nat)
    requires ShapedAs(d, shapes) && i < |d.lines|
    requires CodeAt(d, shapes, i, k) && shapes[i].ifLine
    ensures IfOpen(d, shapes, i + 1, k)
  {
    assert OpenSince(d, shapes, i, i + 1, k);
  }

  /** A line that keeps an `if` open changes nothing, unless it opens one. */
  lemma IfOpenKept(d: ParsedDocument, shapes: seq<Shape>, i: nat, k: nat)
    requires ShapedAs(d, shapes) && i < |d.lines|
    requires KeepsIfOpen(d, shapes, i, k) && !(CodeAt(d, shapes, i, k) && shapes[i].ifLine)
    ensures IfOpen(d, shapes, i + 1, k) <==> IfOpen(d, shapes, i, k)
  {
    if IfOpen(d, shapes, i, k) {
      var p: nat :| OpenSince(d, shapes, p, i, k);
      assert OpenSince(d, shapes, p, i + 1, k);
    }
    if IfOpen(d, shapes, i + 1, k) {
      var p: nat :| OpenSince(d, shapes, p, i + 1, k);
      assert OpenSince(d, shapes, p, i, k);
    }
  }

  /** Any other code line at indentation `k` closes the `if` there. */
  lemma IfOpenClosed(d: ParsedDocument, shapes: seq<Shape>, i: nat, k: nat)
    requires ShapedAs(d, shapes) && i < |d.lines|
    requires !KeepsIfOpen(d, shapes, i, k)
    ensures !IfOpen(d, shapes, i + 1, k)
  {
    var next := i + 1;
    forall p: nat ensures !OpenSince(d, shapes, p, next, k) {
      if p < i {
        assert !KeepsIfOpen(d, shapes, i, k);
      }
    }
  }

  /** The map of the check holds exactly the indentations with an open `if`. */
  ghost predicate OpenMatches(d: ParsedDocument, shapes: seq<Shape>, i: nat, open: map<nat, nat>)
    requires ShapedAs(d, shapes) && i <= |d.lines|
  {
    forall k :: k in open <==> IfOpen(d, shapes, i, k)
  }

  /** The map the check carries past line `i` */
  function NextOpen(d: ParsedDocument, shapes: seq<Shape>, i: nat, open: map<nat, nat>): map<nat, nat>
    requires ShapedAs(d, shapes) && i < |d.lines|
  {
    var indent := d.lineIndents[i];
    if !shapes[i].code then open
    else if shapes[i].ifLine then open[indent := i]
    else if shapes[i].elifLine then (if indent !in open then open else open[indent := i])
    else if shapes[i].elseLine then (if indent !in open then open else open - {indent})
    else open - {indent}
  }

  /** The map after line `i` still holds exactly the open `if`s. */
  lemma OrphanStepKeeps(d: ParsedDocument, shapes: seq<Shape>, i: nat, open: map<nat, nat>)
    requires ShapedAs(d, shapes) && ShapesExclusive(shapes) && i < |d.lines|
    requires OpenMatches(d, shapes, i, open)
    ensures OpenMatches(d, shapes, i + 1, NextOpen(d, shapes, i, open))
  {
    var next := NextOpen(d, shapes, i, open);
    forall k ensures k in next <==> IfOpen(d, shapes, i + 1, k) {
      if CodeAt(d, shapes, i, k) && shapes[i].ifLine {
        IfOpenNew(d, shapes, i, k);
      } else if KeepsIfOpen(d, shapes, i, k) {
        IfOpenKept(d, shapes, i, k);
      } else {
        IfOpenClosed(d, shapes, i, k);
      }
    }
  }

  /** The reference rule for `elif`: an `elif` line with no open `if` at its
      indentation is an orphan. */
  ghost predicate OrphanElifAt(d: ParsedDocument, shapes: seq<Shape>, l: nat)
    requires ShapedAs(d, shapes) && l < |d.lines|
  {
    shapes[l].code && shapes[l].elifLine && !IfOpen(d, shapes, l, d.lineIndents[l])
  }

  /** The reference rule for `else`, likewise */
  ghost predicate OrphanElseAt(d: ParsedDocument, shapes: seq<Shape>, l: nat)
    requires ShapedAs(d, shapes) && l < |d.lines|
  {
    shapes[l].code && shapes[l].elseLine && !IfOpen(d, shapes, l, d.lineIndents[l])
  }

  lemma {:induction false} OrphansFromExact(d: ParsedDocument, shapes: seq<Shape>, i: nat, open: map<nat, nat>, l: nat)
    requires ShapedAs(d, shapes) && ShapesExclusive(shapes) && i <= l < |d.lines|
    requires OpenMatches(d, shapes, i, open)
    ensures (Diagnostic(WholeLine(l, d.lines[l]), OrphanElif, Error) in OrphansFrom(d, shapes, i, open))
              <==> OrphanElifAt(d, shapes, l)
    ensures (Diagnostic(WholeLine(l, d.lines[l]), OrphanElse, Error) in OrphansFrom(d, shapes, i, open))
              <==> OrphanElseAt(d, shapes, l)
    decreases |d.lines| - i
  {
    var next := NextOpen(d, shapes, i, open);
    OrphanStepKeeps(d, shapes, i, open);
    assert OrphansFrom(d, shapes, i, open) == OrphansFrom(d, shapes, i + 1, next) || 
           OrphansFrom(d, shapes, i, open) == [Diagnostic(WholeLine(i, d.lines[i]), if shapes[i].elifLine then OrphanElif else OrphanElse, Error)] + OrphansFrom(d, shapes, i + 1, next);
    if i == l {
      var rest := OrphansFrom(d, shapes, i + 1, next);
      assert forall x :: x in rest ==> x.range.line != l;
    } else {
      OrphansFromExact(d, shapes, i + 1, next, l);
    }
  }

  /** The check reports exactly the `elif` and `else` lines with no open `if`
      at their indentation. */
  lemma OrphansExact(d: ParsedDocument, l: nat)
    requires Aligned(d) && l < |d.lines|
    ensures (Diagnostic(WholeLine(l, d.lines[l]), OrphanElif, Error) in Findings(Orphans, d))
              <==> OrphanElifAt(d, Shapes(d.lines), l)
    ensures (Diagnostic(WholeLine(l, d.lines[l]), OrphanElse, Error) in Findings(Orphans, d))
              <==> OrphanElseAt(d, Shapes(d.lines), l)
    ensures LinesIncrease(Findings(Orphans, d))
  {
    ShapesAreExclusive(d.lines);
    OrphansFromExact(d, Shapes(d.lines), 0, map[], l);
  }

  // ---------------------------------------------------------------------
  // Check 2: block headers

  /** Keywords whose line must end with a colon (besides `else`, which has a
      message of its own) */
  const ColonKeywords: set<string> := {IfKeyword, WhileKeyword, ElifKeyword}

  /** The block check's findings for a line led by `head` whose stripped
      text is `t`, reported over `w`: at most one, since a line has one
      leading keyword, although the three tests are made independently. */
  function HeaderFindings(head: Token, t: string, w: Range): (r: seq<Diagnostic>)
    ensures |r| <= 1
    ensures forall x :: x in r ==> x.range == w && x.severity == Error && CheckOf(x.message) == BlockStructure
  {
    var isKeyword := head.kind == Keyword;
    var header :=
      if isKeyword && head.value == FunctionKeyword then
        if '(' !in t || !EndsWith(t, ':') then [Diagnostic(w, BadFunctionDef, Error)]
        else if ')' !in t then [Diagnostic(w, MissingCloseParen, Error)]
        else []
      else [];
    var colon :=
      if isKeyword && head.value in ColonKeywords && !EndsWith(t, ':') then
        [Diagnostic(w, MissingColon(head.value), Error)]
      else [];
    var otherwise :=
      if isKeyword && head.value == ElseKeyword && !EndsWith(t, ':') then
        [Diagnostic(w, ElseMissingColon, Error)]
      else [];
    header + colon + otherwise
  }

  /** `_check_block_structure` on line `l`, led by its first significant
      token. A function header needs `(` and a final colon, and then `)`;
      `if`, `while`, `elif` and `else` lines need a final colon. */
  function BlockStructureLine(d: ParsedDocument, l: nat): seq<Diagnostic>
    requires Aligned(d) && l < |d.lines|
  {
    var sig := Significant(d.tokens[l]);
    if |sig| == 0 then [] else HeaderFindings(sig[0], Strip(d.lines[l]), WholeLine(l, d.lines[l]))
  }

  /** On a line led by the function keyword that contains `(`, the block
      check reports only a missing final colon or a missing `)`. */
  lemma FunctionLineDiagnostics(d: ParsedDocument, l: nat)
    requires Aligned(d) && l < |d.lines|
    requires StartsFunction(Significant(d.tokens[l])) && '(' in Strip(d.lines[l])
    ensures var t := Strip(d.lines[l]);
            var w := WholeLine(l, d.lines[l]);
            BlockStructureLine(d, l) ==
              if !EndsWith(t, ':') then [Diagnostic(w, BadFunctionDef, Error)]
              else if ')' !in t then [Diagnostic(w, MissingCloseParen, Error)]
              else []
  {
    assert ElseKeyword != FunctionKeyword && FunctionKeyword !in ColonKeywords;
  }

  /** A line led by `if`, `while`, `elif` or `else` is reported exactly when
      it lacks its final colon, with the message naming the keyword except
      for `else`. */
  lemma KeywordLineDiagnostics(d: ParsedDocument, l: nat)
    requires Aligned(d) && l < |d.lines|
    requires var sig := Significant(d.tokens[l]);
      |sig| > 0 && sig[0].kind == Keyword && (sig[0].value in ColonKeywords || sig[0].value == ElseKeyword)
    ensures var head := Significant(d.tokens[l])[0];
            var w := WholeLine(l, d.lines[l]);
            BlockStructureLine(d, l) ==
              if EndsWith(Strip(d.lines[l]), ':') then []
              else if head.value == ElseKeyword then [Diagnostic(w, ElseMissingColon, Error)]
              else [Diagnostic(w, MissingColon(head.value), Error)]
  {
    assert FunctionKeyword !in ColonKeywords && ElseKeyword !in ColonKeywords;
  }

  /** An opening-parenthesis token stands for a `(` of the line, which
      survives stripping. */
  lemma ParenTokenInText(line: string, lineNo: nat, t: Token)
    requires t in Tokenize(line, lineNo) && t.kind == ParenOpen
    ensures '(' in Strip(line)
  {
    var toks := Tokenize(line, lineNo);
    var j :| 0 <= j < |toks| && toks[j] == t;
    TokenizeScans(line, lineNo, j);
    ScanShortKinds(line, t.col);
    StripKeeps(line, t.col);
  }

  /** A header the parser accepts always contains `(`, so the block check
      reports it only for a missing final colon or a missing `)`. */
  lemma HeaderLineDiagnostics(d: ParsedDocument, l: nat, name: string)
    requires Aligned(d) && l < |d.lines| && d.tokens[l] == Tokenize(d.lines[l], l)
    requires HeaderAt(d.tokens, d.lineIndents, l, name)
    ensures var t := Strip(d.lines[l]);
            var w := WholeLine(l, d.lines[l]);
            BlockStructureLine(d, l) ==
              if !EndsWith(t, ':') then [Diagnostic(w, BadFunctionDef, Error)]
              else if ')' !in t then [Diagnostic(w, MissingCloseParen, Error)]
              else []
  {
    var sig := Significant(d.tokens[l]);
    var k :| 2 <= k < |sig| && sig[k].kind == ParenOpen;
    SignificantMembers(d.tokens[l]);
    ParenTokenInText(d.lines[l], l, sig[k]);
    FunctionLineDiagnostics(d, l);
  }

  // ---------------------------------------------------------------------
  // Check 4: parentheses and brackets balance on each line

  /** The paren and bracket depths after tokens `i ..`, starting from depths
      `p` and `b`, as the loop counts them */
  function DepthsFrom(toks: seq<Token>, i: nat, p: int, b: int): (int, int)
    requires i <= |toks|
    decreases |toks| - i
  {
    if i == |toks| then (p, b)
    else
      var k := toks[i].kind;
      if k == ParenOpen then DepthsFrom(toks, i + 1, p + 1, b)
      else if k == ParenClose then DepthsFrom(toks, i + 1, p - 1, b)
      else if k == BracketOpen then DepthsFrom(toks, i + 1, p, b + 1)
      else if k == BracketClose then DepthsFrom(toks, i + 1, p, b - 1)
      else DepthsFrom(toks, i + 1, p, b)
  }

  /** The number of tokens of one kind */
  function CountKind(toks: seq<Token>, kind: TokenKind): nat
    decreases |toks|
  {
    if |toks| == 0 then 0
    else (if toks[0].kind == kind then 1 else 0) + CountKind(toks[1..], kind)
  }

  /** The final depths are the differences of the opening and closing counts. */
  lemma {:induction false} DepthsAreCounts(toks: seq<Token>, i: nat, p: int, b: int)
    requires i <= |toks|
    ensures DepthsFrom(toks, i, p, b).0 == p + CountKind(toks[i..], ParenOpen) - CountKind(toks[i..], ParenClose)
    ensures DepthsFrom(toks, i, p, b).1 == b + CountKind(toks[i..], BracketOpen) - CountKind(toks[i..], BracketClose)
    decreases |toks| - i
  {
    if i < |toks| {
      var k := toks[i].kind;
      assert toks[i..][1..] == toks[i + 1..];
      if k == ParenOpen {
        DepthsAreCounts(toks, i + 1, p + 1, b);
      } else if k == ParenClose {
        DepthsAreCounts(toks, i + 1, p - 1, b);
      } else if k == BracketOpen {
        DepthsAreCounts(toks, i + 1, p, b + 1);
      } else if k == BracketClose {
        DepthsAreCounts(toks, i + 1, p, b - 1);
      } else {
        DepthsAreCounts(toks, i + 1, p, b);
      }
    }
  }

  /** `_check_unmatched_parens` on line `l` */
  function BracketsLine(d: ParsedDocument, l: nat): (r: seq<Diagnostic>)
    requires Aligned(d) && l < |d.lines|
    ensures forall x :: x in r ==>
      x.range == WholeLine(l, d.lines[l]) && x.severity == Error && CheckOf(x.message) == Brackets
  {
    var depths := DepthsFrom(d.tokens[l], 0, 0, 0);
    var w := WholeLine(l, d.lines[l]);
    (if depths.0 != 0 then [Diagnostic(w, UnmatchedParens, Error)] else [])
    + (if depths.1 != 0 then [Diagnostic(w, UnmatchedBrackets, Error)] else [])
  }

  /** A line is reported for parentheses exactly when it has unequally many
      opening and closing ones, and likewise for brackets; the order in
      which they occur is not examined. */
  lemma BracketsExact(d: ParsedDocument, l: nat)
    requires Aligned(d) && l < |d.lines|
    ensures var toks := d.tokens[l];
            var w := WholeLine(l, d.lines[l]);
            && ((Diagnostic(w, UnmatchedParens, Error) in BracketsLine(d, l))
                  <==> CountKind(toks, ParenOpen) != CountKind(toks, ParenClose))
            && ((Diagnostic(w, UnmatchedBrackets, Error) in BracketsLine(d, l))
                  <==> CountKind(toks, BracketOpen) != CountKind(toks, BracketClose))
  {
    DepthsAreCounts(d.tokens[l], 0, 0, 0);
    assert d.tokens[l][0..] == d.tokens[l];
  }

  // ---------------------------------------------------------------------
  // Check 5: calls of undefined functions

  /** `_next_significant`: the first token at or after `j` that is not
      whitespace (a comment counts), or `|toks|` when there is none */
  function NextNonBlank(toks: seq<Token>, j: nat): (k: nat)
    requires j <= |toks|
    ensures j <= k <= |toks|
    ensures forall q :: j <= q < k ==> toks[q].kind == Whitespace
    ensures k < |toks| ==> toks[k].kind != Whitespace
    decreases |toks| - j
  {
    if j == |toks| || toks[j].kind != Whitespace then j else NextNonBlank(toks, j + 1)
  }

  /** Token `idx` is an identifier followed, across whitespace only, by `(` */
  predicate IsCallAt(toks: seq<Token>, idx: nat) {
    && idx < |toks| && toks[idx].kind == Identifier
    && var k := NextNonBlank(toks, idx + 1);
       k < |toks| && toks[k].kind == ParenOpen
  }

  /** The diagnostic an undefined call at token `j` of line `l` produces */
  function CallDiagnostic(d: ParsedDocument, l: nat, j: nat): (x: Diagnostic)
    requires Aligned(d) && l < |d.lines| && j < |d.tokens[l]|
    ensures x.range.line == l && CheckOf(x.message) == Calls
  {
    var t := d.tokens[l][j];
    Diagnostic(Range(l, t.col, t.endCol), UndefinedFunction(t.value), Warning)
  }

  /** `_check_undefined_references` on tokens `idx ..` of line `l` */
  function CallsFrom(d: ParsedDocument, l: nat, idx: nat): (r: seq<Diagnostic>)
    requires Aligned(d) && l < |d.lines| && idx <= |d.tokens[l]|
    decreases |d.tokens[l]| - idx
  {
    var toks := d.tokens[l];
    if idx == |toks| then []
    else
      var rest := CallsFrom(d, l, idx + 1);
      if ReportsCallAt(d, l, idx) then [CallDiagnostic(d, l, idx)] + rest else rest
  }

  /** The tests `_check_undefined_references` makes of token `idx`: a call
      whose name is no user function, built-in or keyword */
  predicate ReportsCallAt(d: ParsedDocument, l: nat, idx: nat)
    requires Aligned(d) && l < |d.lines| && idx < |d.tokens[l]|
  {
    var t := d.tokens[l][idx];
    IsCallAt(d.tokens[l], idx)
    && t.value !in Keys(d.functions) && t.value !in ReservedNames
  }

  function CallsLine(d: ParsedDocument, l: nat): seq<Diagnostic>
    requires Aligned(d) && l < |d.lines|
  {
    CallsFrom(d, l, 0)
  }

  /** Every call finding of line `l` is an undefined-function warning on that line. */
  lemma {:induction false} CallsFromIssued(d: ParsedDocument, l: nat, idx: nat)
    requires Aligned(d) && l < |d.lines| && idx <= |d.tokens[l]|
    ensures forall x :: x in CallsFrom(d, l, idx) ==>
      x.range.line == l && x.message.UndefinedFunction? && x.severity == Warning
    decreases |d.tokens[l]| - idx
  {
    if idx < |d.tokens[l]| {
      CallsFromIssued(d, l, idx + 1);
      forall x | x in CallsFrom(d, l, idx)
        ensures x.range.line == l && x.message.UndefinedFunction? && x.severity == Warning
      {
        CallsFromStep(d, l, idx, x);
      }
    }
  }

  /** The diagnostics start at strictly increasing columns. */
  ghost predicate StartsIncrease(xs: seq<Diagnostic>) {
    forall a, b :: 0 <= a < b < |xs| ==> xs[a].range.start < xs[b].range.start
  }

  /** The scan reports calls left to right, at most one per token: the
      diagnostics start at strictly increasing columns. */
  lemma {:induction false} CallsFromIncreasing(d: ParsedDocument, l: nat, idx: nat)
    requires Aligned(d) && l < |d.lines| && Tiles(d.tokens[l], d.lines[l], l, 0)
    requires idx <= |d.tokens[l]|
    ensures StartsIncrease(CallsFrom(d, l, idx))
    decreases |d.tokens[l]| - idx
  {
    var toks := d.tokens[l];
    if idx < |toks| {
      var rest := CallsFrom(d, l, idx + 1);
      CallsFromIncreasing(d, l, idx + 1);
      CallsFromWithin(d, l, idx + 1);
      if ReportsCallAt(d, l, idx) {
        var r := [CallDiagnostic(d, l, idx)] + rest;
        assert CallsFrom(d, l, idx) == r;
        assert TokenOf(toks[idx], d.lines[l], l);
        assert r[0].range.start == toks[idx].col;
        if idx + 1 < |toks| {
          ColumnsIncrease(toks, d.lines[l], l, 0, idx, idx + 1);
        }
        forall a, b | 0 <= a < b < |r|
          ensures r[a].range.start < r[b].range.start
        {
          assert r[b] == rest[b - 1] && r[b] in rest;
          if a > 0 {
            assert r[a] == rest[a - 1];
          } else {
            assert toks[idx + 1].col <= r[b].range.start;
          }
        }
      } else {
        assert CallsFrom(d, l, idx) == rest;
      }
    }
  }

  /** On a line the lexer produced, a reported call lies within the line,
      at or after the token the scan started from. */
  lemma {:induction false} CallsFromWithin(d: ParsedDocument, l: nat, idx: nat)
    requires Aligned(d) && l < |d.lines| && Tiles(d.tokens[l], d.lines[l], l, 0)
    requires idx <= |d.tokens[l]|
    ensures forall x :: x in CallsFrom(d, l, idx) ==>
      && idx < |d.tokens[l]| && d.tokens[l][idx].col <= x.range.start
      && x.range.start < x.range.end <= |d.lines[l]|
    decreases |d.tokens[l]| - idx
  {
    var toks := d.tokens[l];
    if idx < |toks| {
      CallsFromWithin(d, l, idx + 1);
      if idx + 1 < |toks| {
        ColumnsIncrease(toks, d.lines[l], l, 0, idx, idx + 1);
      }
      assert TokenOf(toks[idx], d.lines[l], l);
      forall x | x in CallsFrom(d, l, idx)
        ensures toks[idx].col <= x.range.start < x.range.end <= |d.lines[l]|
      {
        CallsFromStep(d, l, idx, x);
      }
    }
  }

  /** The lexer never classifies a vocabulary word as an identifier. */
  lemma IdentifierIsNoVocabularyWord(line: string, lineNo: nat, j: nat)
    requires j < |Tokenize(line, lineNo)| && Tokenize(line, lineNo)[j].kind == Identifier
    ensures !IsKnownWord(Tokenize(line, lineNo)[j].value)
  {
    var t := Tokenize(line, lineNo)[j];
    WordsClassified(line, lineNo, j);
    WordKindExact(t.value);
  }

  /** The scan from token `idx` reports the call at a later token `j` exactly
      when the tests pass at `j`: no other token gives the same diagnostic. */
  lemma {:induction false} CallsFromExact(d: ParsedDocument, l: nat, idx: nat, j: nat)
    requires Aligned(d) && l < |d.lines| && Tiles(d.tokens[l], d.lines[l], l, 0)
    requires idx <= j < |d.tokens[l]|
    ensures (CallDiagnostic(d, l, j) in CallsFrom(d, l, idx)) <==> ReportsCallAt(d, l, j)
    ensures StartsIncrease(CallsFrom(d, l, idx))
    decreases j - idx
  {
    var toks := d.tokens[l];
    var x := CallDiagnostic(d, l, j);
    CallsFromIncreasing(d, l, idx);
    if idx < j {
      CallsFromExact(d, l, idx + 1, j);
      ColumnsIncrease(toks, d.lines[l], l, 0, idx, j);
      CallsFromStep(d, l, idx, x);
    } else {
      if j + 1 < |toks| {
        CallsFromWithin(d, l, j + 1);
        ColumnsIncrease(toks, d.lines[l], l, 0, j, j + 1);
      }
      assert x !in CallsFrom(d, l, j + 1);
      CallsFromStep(d, l, j, x);
    }
  }

  /** A diagnostic is found from token `idx` when it is the one of token `idx`
      and the tests pass there, or it is found from the next token. */
  lemma CallsFromStep(d: ParsedDocument, l: nat, idx: nat, x: Diagnostic)
    requires Aligned(d) && l < |d.lines| && idx < |d.tokens[l]|
    ensures x in CallsFrom(d, l, idx) <==>
      (ReportsCallAt(d, l, idx) && x == CallDiagnostic(d, l, idx)) || x in CallsFrom(d, l, idx + 1)
  {
    var a := CallDiagnostic(d, l, idx);
    var rest := CallsFrom(d, l, idx + 1);
    assert CallsFrom(d, l, idx) == if ReportsCallAt(d, l, idx) then [a] + rest else rest;
    InCons(a, rest, x);
  }

  /** On a line the lexer produced, the built-in and keyword tests never
      fire: a call is reported exactly when its name is no user function. */
  lemma ReportsCallAtExact(d: ParsedDocument, l: nat, j: nat)
    requires Aligned(d) && l < |d.lines| && d.tokens[l] == Tokenize(d.lines[l], l) && j < |d.tokens[l]|
    ensures ReportsCallAt(d, l, j) <==> IsCallAt(d.tokens[l], j) && d.tokens[l][j].value !in Keys(d.functions)
  {
    if IsCallAt(d.tokens[l], j) {
      IdentifierIsNoVocabularyWord(d.lines[l], l, j);
      ReservedNamesExact(d.tokens[l][j].value);
    }
  }

  // ---------------------------------------------------------------------
  // The analyser

  /** The checks that look at each line on its own */
  predicate PerLine(c: Check) {
    c == BlockStructure || c == Brackets || c == Calls
  }

  /** What every finding of check `c` satisfies: it is on a line of the
      document, it is of that check's kind with the severity fitting it, and
      only a call is reported over less than its whole line. */
  predicate Issued(c: Check, d: ParsedDocument, x: Diagnostic) {
    && x.range.line < |d.lines| && CheckOf(x.message) == c && SeverityFits(x)
    && (c != Calls ==> x.range == WholeLine(x.range.line, d.lines[x.range.line]))
  }

  function LineDiagnostics(c: Check, d: ParsedDocument, l: nat): (r: seq<Diagnostic>)
    requires PerLine(c) && Aligned(d) && l < |d.lines|
    ensures forall x :: x in r ==> x.range.line == l && Issued(c, d, x)
  {
    match c
    case BlockStructure => BlockStructureLine(d, l)
    case Brackets => BracketsLine(d, l)
    case Calls =>
      CallsFromIssued(d, l, 0);
      CallsLine(d, l)
  }

  /** A per-line check run over lines `i ..`, in line order */
  function EachLine(c: Check, d: ParsedDocument, i: nat): (r: seq<Diagnostic>)
    requires PerLine(c) && Aligned(d) && i <= |d.lines|
    ensures forall x :: x in r ==> i <= x.range.line && Issued(c, d, x)
    decreases |d.lines| - i
  {
    if i == |d.lines| then [] else LineDiagnostics(c, d, i) + EachLine(c, d, i + 1)
  }

  /** A per-line check run over the document reports what it reports on
      each line, and nothing else. */
  lemma {:induction false} EachLineMembers(c: Check, d: ParsedDocument, i: nat, x: Diagnostic)
    requires PerLine(c) && Aligned(d) && i <= |d.lines|
    ensures (x in EachLine(c, d, i))
              <==> i <= x.range.line < |d.lines| && x in LineDiagnostics(c, d, x.range.line)
    decreases |d.lines| - i
  {
    if i < |d.lines| {
      EachLineMembers(c, d, i + 1, x);
      var here := LineDiagnostics(c, d, i);
      var later := EachLine(c, d, i + 1);
      assert EachLine(c, d, i) == here + later;
      InAppend(here, later, x);
    }
  }

  /** The findings of one check over the whole document */
  function Findings(c: Check, d: ParsedDocument): seq<Diagnostic>
    requires Aligned(d)
  {
    match c
    case Indentation => CheckIndentation(d)
    case Orphans => CheckOrphans(d)
    case _ => EachLine(c, d, 0)
  }

  /** Every finding of a check is on a line of the document, of the check's
      own kind, with the severity that kind has. */
  lemma FindingIssued(c: Check, d: ParsedDocument, x: Diagnostic)
    requires Aligned(d) && x in Findings(c, d)
    ensures Issued(c, d, x)
  {
    match c
    case Indentation =>
    case Orphans =>
    case _ =>
  }

  /** `analyze`: the five checks in order, their findings concatenated */
  function Analyze(d: ParsedDocument): seq<Diagnostic>
    requires Aligned(d)
  {
    Findings(Indentation, d) + Findings(BlockStructure, d) + Findings(Orphans, d)
      + Findings(Brackets, d) + Findings(Calls, d)
  }

  /** Each kind of message comes from one check only, so the analyser
      reports a diagnostic exactly when the check of its kind finds it. */
  lemma AnalyzeParts(d: ParsedDocument, x: Diagnostic)
    requires Aligned(d)
    ensures (x in Analyze(d)) <==> x in Findings(CheckOf(x.message), d)
  {
    if x in Analyze(d) {
      if x in Findings(Indentation, d) {
        FindingIssued(Indentation, d, x);
      } else if x in Findings(BlockStructure, d) {
        FindingIssued(BlockStructure, d, x);
      } else if x in Findings(Orphans, d) {
        FindingIssued(Orphans, d, x);
      } else if x in Findings(Brackets, d) {
        FindingIssued(Brackets, d, x);
      } else {
        FindingIssued(Calls, d, x);
      }
    }
  }

  /** Everything the analyser reports is on a line of the document, with the
      severity its kind has, and spans the whole line unless it is a call. */
  lemma AnalyzeIssued(d: ParsedDocument, x: Diagnostic)
    requires Aligned(d) && x in Analyze(d)
    ensures Issued(CheckOf(x.message), d, x)
  {
    AnalyzeParts(d, x);
    FindingIssued(CheckOf(x.message), d, x);
  }

  /** A finding of a per-line check is reported exactly when that check
      finds it on its own line. */
  lemma ReportsPerLine(c: Check, d: ParsedDocument, x: Diagnostic)
    requires PerLine(c) && Aligned(d) && CheckOf(x.message) == c
    ensures (x in Analyze(d)) <==> x.range.line < |d.lines| && x in LineDiagnostics(c, d, x.range.line)
  {
    AnalyzeParts(d, x);
    EachLineMembers(c, d, 0, x);
  }

  /** The analyser warns about line `l` missing its indentation exactly when
      the nearest code line above it opens a block and `l` is not indented
      deeper. */
  lemma ReportsMissingIndent(d: ParsedDocument, l: nat)
    requires Aligned(d) && l < |d.lines|
    ensures (Diagnostic(WholeLine(l, d.lines[l]), ExpectedIndent, Warning) in Analyze(d))
              <==> ExpectsIndent(d, Shapes(d.lines), l)
  {
    AnalyzeParts(d, Diagnostic(WholeLine(l, d.lines[l]), ExpectedIndent, Warning));
    IndentationExact(d, l);
  }

  /** The analyser reports an orphaned `elif` exactly when no `if` at its
      indentation is open above it. */
  lemma ReportsOrphanElif(d: ParsedDocument, l: nat)
    requires Aligned(d) && l < |d.lines|
    ensures (Diagnostic(WholeLine(l, d.lines[l]), OrphanElif, Error) in Analyze(d))
              <==> OrphanElifAt(d, Shapes(d.lines), l)
  {
    var x := Diagnostic(WholeLine(l, d.lines[l]), OrphanElif, Error);
    AnalyzeParts(d, x);
    assert CheckOf(x.message) == Orphans;
    OrphansExact(d, l);
  }

  /** The analyser reports an orphaned `else` exactly when no `if` at its
      indentation is open above it. */
  lemma ReportsOrphanElse(d: ParsedDocument, l: nat)
    requires Aligned(d) && l < |d.lines|
    ensures (Diagnostic(WholeLine(l, d.lines[l]), OrphanElse, Error) in Analyze(d))
              <==> OrphanElseAt(d, Shapes(d.lines), l)
  {
    var x := Diagnostic(WholeLine(l, d.lines[l]), OrphanElse, Error);
    AnalyzeParts(d, x);
    assert CheckOf(x.message) == Orphans;
    OrphansExact(d, l);
  }

  /** The analyser reports unbalanced parentheses (brackets) on a line
      exactly when the line has unequally many opening and closing ones. */
  lemma ReportsBrackets(d: ParsedDocument, l: nat)
    requires Aligned(d) && l < |d.lines|
    ensures var toks := d.tokens[l];
            var w := WholeLine(l, d.lines[l]);
            && ((Diagnostic(w, UnmatchedParens, Error) in Analyze(d))
                  <==> CountKind(toks, ParenOpen) != CountKind(toks, ParenClose))
            && ((Diagnostic(w, UnmatchedBrackets, Error) in Analyze(d))
                  <==> CountKind(toks, BracketOpen) != CountKind(toks, BracketClose))
  {
    var w := WholeLine(l, d.lines[l]);
    ReportsPerLine(Brackets, d, Diagnostic(w, UnmatchedParens, Error));
    ReportsPerLine(Brackets, d, Diagnostic(w, UnmatchedBrackets, Error));
    BracketsExact(d, l);
  }

  /** The analyser reports a call at token `j` of line `l` exactly when the
      name is not among the document's functions. */
  lemma ReportsUndefinedCall(d: ParsedDocument, l: nat, j: nat)
    requires Aligned(d) && l < |d.lines| && d.tokens[l] == Tokenize(d.lines[l], l) && j < |d.tokens[l]|
    ensures (CallDiagnostic(d, l, j) in Analyze(d))
              <==> IsCallAt(d.tokens[l], j) && d.tokens[l][j].value !in Keys(d.functions)
  {
    var x := CallDiagnostic(d, l, j);
    ReportsPerLine(Calls, d, x);
    assert LineDiagnostics(Calls, d, l) == CallsFrom(d, l, 0);
    CallsFromExact(d, l, 0, j);
    ReportsCallAtExact(d, l, j);
  }

  /** In a document read from source text, a call is reported exactly when
      no line of the document is a well-formed header of the called name. */
  lemma ReportsCallsOfUndeclared(source: string, l: nat, j: nat)
    requires var d := ParseDocument(source); l < |d.lines| && j < |d.tokens[l]|
    ensures var d := ParseDocument(source);
            (CallDiagnostic(d, l, j) in Analyze(d))
              <==> && IsCallAt(d.tokens[l], j)
                   && !exists h: nat :: h < |d.lines| && HeaderAt(d.tokens, d.lineIndents, h, d.tokens[l][j].value)
  {
    var d := ParseDocument(source);
    ReportsUndefinedCall(d, l, j);
    FunctionNamesAreHeaders(source, d.tokens[l][j].value);
  }

  /** A reported call is one the call check finds on its line. */
  lemma CallFound(d: ParsedDocument, x: Diagnostic)
    requires Aligned(d) && x in Findings(Calls, d)
    ensures x.range.line < |d.lines| && x in CallsFrom(d, x.range.line, 0)
  {
    EachLineMembers(Calls, d, 0, x);
  }

  /** A reported call lies within its line when the line's tokens tile it. */
  lemma CallWithinLine(d: ParsedDocument, x: Diagnostic)
    requires Aligned(d) && x in Findings(Calls, d)
    requires x.range.line < |d.lines| && Tiles(d.tokens[x.range.line], d.lines[x.range.line], x.range.line, 0)
    ensures x.range.start <= x.range.end <= |d.lines[x.range.line]|
  {
    CallFound(d, x);
    CallsFromWithin(d, x.range.line, 0);
  }

  /** A finding of any check lies within its line when the line's tokens
      tile it: only a call is reported over less than the whole line, and
      then over its token. */
  lemma FindingWithinLine(c: Check, d: ParsedDocument, x: Diagnostic)
    requires Aligned(d) && x in Findings(c, d)
    requires x.range.line < |d.lines| ==> Tiles(d.tokens[x.range.line], d.lines[x.range.line], x.range.line, 0)
    ensures x.range.line < |d.lines| && x.range.start <= x.range.end <= |d.lines[x.range.line]|
  {
    FindingIssued(c, d, x);
    if c == Calls {
      CallWithinLine(d, x);
    }
  }

  /** Everything the analyser reports on a lexed line lies within it. */
  lemma RangeWithinLine(d: ParsedDocument, x: Diagnostic)
    requires Aligned(d) && x in Analyze(d)
    requires x.range.line < |d.lines| ==> d.tokens[x.range.line] == Tokenize(d.lines[x.range.line], x.range.line)
    ensures x.range.line < |d.lines| && x.range.start <= x.range.end <= |d.lines[x.range.line]|
  {
    AnalyzeParts(d, x);
    FindingWithinLine(CheckOf(x.message), d, x);
  }

  /** Every diagnostic of a document read from source text lies within its line. */
  lemma RangesWithinLines(source: string)
    ensures var d := ParseDocument(source);
      forall x :: x in Analyze(d) ==>
        x.range.line < |d.lines| && x.range.start <= x.range.end <= |d.lines[x.range.line]|
  {
    var d := ParseDocument(source);
    forall x | x in Analyze(d)
      ensures x.range.line < |d.lines| && x.range.start <= x.range.end <= |d.lines[x.range.line]|
    {
      RangeWithinLine(d, x);
    }
  }
}
