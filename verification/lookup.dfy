/**
 * What the editor queries share: the token under the cursor, the function
 * whose body encloses a line, and the variable a name refers to there.
 * Hover, completion and go-to-definition each carry a copy of these
 * helpers; the copies behave identically and are modelled once.
 */
module Lookup {
  import opened Wrappers
  import opened AssocList
  import opened Lexer
  import opened Document

  /** A cursor position: a line and a column of it, both from 0 */
  datatype Position = Position(line: nat, character: nat)

  /** A span of the document, from a start line and column to an end line
      and column (exclusive) */
  datatype Range = Range(startLine: int, startChar: int, endLine: int, endChar: int)

  /** The columns of `length` characters from column `col` of line `line` */
  function Span(line: int, col: int, length: int): (r: Range)
    ensures r.startLine == r.endLine == line && r.endChar - r.startChar == length
  {
    Range(line, col, line, col + length)
  }

  /** Token `t` is under column `c` and is not whitespace. */
  predicate Covers(t: Token, c: nat) {
    t.col <= c < t.endCol && t.kind != Whitespace
  }

  /** The index of the first token from `i` on that covers column `c` */
  function FirstCovering(toks: seq<Token>, c: nat, i: nat): (r: Option<nat>)
    requires i <= |toks|
    ensures r.Some? ==> i <= r.value < |toks| && Covers(toks[r.value], c)
    ensures r.Some? ==> forall j :: i <= j < r.value ==> !Covers(toks[j], c)
    ensures r.None? ==> forall j :: i <= j < |toks| ==> !Covers(toks[j], c)
    decreases |toks| - i
  {
    if i == |toks| then None
    else if Covers(toks[i], c) then Some(i)
    else FirstCovering(toks, c, i + 1)
  }

  /** `_token_at_position`: the first non-whitespace token of the cursor's
      line whose columns include the cursor's, if any */
  function TokenAt(d: ParsedDocument, pos: Position): (r: Option<Token>)
    ensures r.Some? ==> pos.line < |d.tokens| && r.value in d.tokens[pos.line] && Covers(r.value, pos.character)
    ensures r.None? ==> pos.line >= |d.tokens| || forall t :: t in d.tokens[pos.line] ==> !Covers(t, pos.character)
  {
    if pos.line >= |d.tokens| then None
    else
      var toks := d.tokens[pos.line];
      match FirstCovering(toks, pos.character, 0)
      case None => None
      case Some(i) => Some(toks[i])
  }

  /** In a tiling of a line, at most one token covers a column. */
  lemma CoveringUnique(toks: seq<Token>, text: string, line: nat, c: nat, i: nat, j: nat)
    requires Tiles(toks, text, line, 0)
    requires i < |toks| && j < |toks| && Covers(toks[i], c) && Covers(toks[j], c)
    ensures i == j
  {
    if i < j {
      ColumnsIncrease(toks, text, line, 0, i, j);
    } else if j < i {
      ColumnsIncrease(toks, text, line, 0, j, i);
    }
  }

  /** On a lexed line, the token under the cursor is the one token that
      covers the cursor's column, and there is none when that token is
      whitespace or the cursor is past the end of the line. */
  lemma TokenAtExact(d: ParsedDocument, pos: Position, t: Token)
    requires pos.line < |d.tokens| && pos.line < |d.lines|
    requires d.tokens[pos.line] == Tokenize(d.lines[pos.line], pos.line)
    ensures TokenAt(d, pos) == Some(t) <==> t in d.tokens[pos.line] && Covers(t, pos.character)
  {
    var toks := d.tokens[pos.line];
    if t in toks && Covers(t, pos.character) {
      var j :| 0 <= j < |toks| && toks[j] == t;
      var i := FirstCovering(toks, pos.character, 0).value;
      CoveringUnique(toks, d.lines[pos.line], pos.line, pos.character, i, j);
    }
  }

  /** Function `f` encloses line `line`: the line is after its header and
      not after its last body line. */
  predicate Encloses(f: FuncDef, line: int) {
    f.line < line <= f.endLine
  }

  /** The index of the first function entry, in table order, enclosing `line` */
  function EnclosingFunction(fs: AList<string, FuncDef>, line: int, i: nat): (r: Option<nat>)
    requires i <= |fs|
    ensures r.Some? ==> i <= r.value < |fs| && Encloses(fs[r.value].1, line)
    ensures r.Some? ==> forall j :: i <= j < r.value ==> !Encloses(fs[j].1, line)
    ensures r.None? ==> forall j :: i <= j < |fs| ==> !Encloses(fs[j].1, line)
    decreases |fs| - i
  {
    if i == |fs| then None
    else if Encloses(fs[i].1, line) then Some(i)
    else EnclosingFunction(fs, line, i + 1)
  }

  /** Entry `i` is the first function of the table enclosing the line */
  ghost predicate FirstEncloser(fs: AList<string, FuncDef>, line: int, i: int) {
    && 0 <= i < |fs|
    && Encloses(fs[i].1, line)
    && forall j :: 0 <= j < i ==> !Encloses(fs[j].1, line)
  }

  lemma FirstEncloserUnique(fs: AList<string, FuncDef>, line: int, i: int, k: int)
    requires FirstEncloser(fs, line, i) && FirstEncloser(fs, line, k)
    ensures i == k
  {
  }

  /** `_current_scope`: the name of the first function enclosing the line,
      in table order, or the global scope when none does */
  function CurrentScope(fs: AList<string, FuncDef>, line: int): (r: string)
    ensures r == GlobalScope || r in Keys(fs)
    ensures (forall e :: e in fs ==> !Encloses(e.1, line)) ==> r == GlobalScope
    ensures forall i :: FirstEncloser(fs, line, i) ==> r == fs[i].0
  {
    match EnclosingFunction(fs, line, 0)
    case None => GlobalScope
    case Some(k) =>
      assert Keys(fs)[k] == fs[k].0;
      assert forall i :: FirstEncloser(fs, line, i) ==> i == k by {
        forall i | FirstEncloser(fs, line, i)
          ensures i == k
        {
          FirstEncloserUnique(fs, line, i, k);
        }
      }
      fs[k].0
  }

  /** A line inside exactly one function's body is in that function's scope. */
  lemma ScopeOfSoleFunction(fs: AList<string, FuncDef>, line: int, k: nat)
    requires k < |fs| && Encloses(fs[k].1, line)
    requires forall j :: 0 <= j < |fs| && j != k ==> !Encloses(fs[j].1, line)
    ensures CurrentScope(fs, line) == fs[k].0
  {
  }

  /** `_find_variable`: inside a function, the entry stored under the
      function's scope wins; otherwise, or when there is none, the entry
      stored under the bare name. */
  function FindVariable(d: ParsedDocument, name: string, line: int): (r: Option<VarDef>)
    ensures var scope := CurrentScope(d.functions, line);
            var scoped := scope != GlobalScope && ScopedKey(scope, name) in Keys(d.variables);
            && (r.Some? <==> scoped || name in Keys(d.variables))
            && (scoped ==> (ScopedKey(scope, name), r.value) in d.variables)
            && (r.Some? && !scoped ==> (name, r.value) in d.variables)
  {
    var scope := CurrentScope(d.functions, line);
    if scope != GlobalScope && ScopedKey(scope, name) in Keys(d.variables) then
      Get(d.variables, ScopedKey(scope, name))
    else Get(d.variables, name)
  }

  /** Outside every function only the bare name is consulted. */
  lemma FindVariableOutside(d: ParsedDocument, name: string, line: int)
    requires forall e :: e in d.functions ==> !Encloses(e.1, line)
    ensures FindVariable(d, name, line) == Get(d.variables, name)
  {
  }
}
