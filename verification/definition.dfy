/**
 * Go to definition and the document outline. A name under the cursor jumps
 * to the user function of that name, or else to the variable it refers to
 * at the cursor's line; the outline lists every function, then every
 * variable assigned outside all functions.
 */
module Definition {
  import opened Wrappers
  import opened AssocList
  import opened Lexer
  import opened Document
  import opened Lookup

  datatype Location = Location(uri: string, range: Range)

  /** Where function `f` is declared: its name on its header line */
  function FunctionNameRange(f: FuncDef): Range {
    Span(f.line, f.col, |f.name|)
  }

  /** Where variable `v` is first assigned: its name on that line */
  function VariableNameRange(v: VarDef): Range {
    Span(v.line, v.col, |v.name|)
  }

  /** The target the cursor's name refers to: the user function of that
      name first, then the variable as `_find_variable` resolves it */
  function DefinitionOf(d: ParsedDocument, name: string, line: int): (r: Option<Range>)
    ensures r.Some? <==> name in Keys(d.functions) || FindVariable(d, name, line).Some?
    ensures name in Keys(d.functions) ==> exists f :: (name, f) in d.functions && r == Some(FunctionNameRange(f))
    ensures name !in Keys(d.functions) && r.Some? ==> r == Some(VariableNameRange(FindVariable(d, name, line).value))
  {
    match Get(d.functions, name)
    case Some(f) => Some(FunctionNameRange(f))
    case None =>
      match FindVariable(d, name, line)
      case Some(v) => Some(VariableNameRange(v))
      case None => None
  }

  /** `provide_definition`: only identifiers and built-in names have one */
  function ProvideDefinition(d: ParsedDocument, pos: Position, uri: string): (r: Option<Location>)
    ensures r.Some? ==>
      && TokenAt(d, pos).Some?
      && TokenAt(d, pos).value.kind in {Identifier, Builtin}
      && r.value.uri == uri
      && r.value.range.startLine == r.value.range.endLine
    ensures TokenAt(d, pos).Some? && TokenAt(d, pos).value.kind in {Identifier, Builtin} ==>
      var target := DefinitionOf(d, TokenAt(d, pos).value.value, pos.line);
      && (r.Some? <==> target.Some?)
      && (r.Some? ==> r.value.range == target.value)
  {
    match TokenAt(d, pos)
    case None => None
    case Some(t) =>
      if t.kind != Identifier && t.kind != Builtin then None
      else
        match DefinitionOf(d, t.value, pos.line)
        case Some(range) => Some(Location(uri, range))
        case None => None
  }

  /** What well-formedness says about one function entry */
  lemma FunctionEntryOk(d: ParsedDocument, e: (string, FuncDef))
    requires WellFormed(d) && e in d.functions
    ensures FuncOk(e.0, e.1, d.tokens, d.lineIndents, |d.lines|)
    ensures d.tokens[e.1.line] == Tokenize(d.lines[e.1.line], e.1.line)
  {
  }

  /** What well-formedness says about one variable entry */
  lemma VariableEntryOk(d: ParsedDocument, e: (string, VarDef))
    requires WellFormed(d) && e in d.variables
    ensures VarOk(e.0, e.1, d.tokens, |d.lines|)
    ensures e.1.line < |d.lines| && d.tokens[e.1.line] == Tokenize(d.lines[e.1.line], e.1.line)
  {
  }

  /** The name token of a function header, as a token of its line */
  lemma HeaderNameToken(d: ParsedDocument, f: FuncDef, indent: nat)
    requires f.line < |d.lines| && f.line < |d.tokens|
    requires Tiles(d.tokens[f.line], d.lines[f.line], f.line, 0)
    requires ParseFuncHeader(Significant(d.tokens[f.line]), f.line, indent) == Some(f.(endLine := f.line))
    ensures exists t :: t in d.tokens[f.line] && t.value == f.name && t.col == f.col && t.endCol == f.col + |f.name|
    ensures f.col + |f.name| <= |d.lines[f.line]|
  {
    var sig := Significant(d.tokens[f.line]);
    HeaderName(sig, f.line, indent, f.(endLine := f.line));
    NameTokenSpan(d.tokens[f.line], d.lines[f.line], f.line, sig[1]);
  }

  /** A significant token of a lexed line spells its span of the line. */
  lemma NameTokenSpan(toks: seq<Token>, text: string, line: nat, t: Token)
    requires Tiles(toks, text, line, 0) && t in Significant(toks)
    ensures t in toks && t.endCol == t.col + |t.value| && t.col + |t.value| <= |text|
  {
    SignificantMembers(toks);
    TiledToken(toks, text, line, t);
  }

  /** The name of a parsed header is its second significant token. */
  lemma HeaderName(sig: seq<Token>, n: nat, indent: nat, f: FuncDef)
    requires ParseFuncHeader(sig, n, indent) == Some(f)
    ensures |sig| > 1 && sig[1].value == f.name && sig[1].col == f.col
  {
  }

  /** The identifier token a variable entry records, as a token of its line */
  lemma VariableNameToken(d: ParsedDocument, key: string, v: VarDef)
    requires VarOk(key, v, d.tokens, |d.lines|)
    requires v.line < |d.lines| && Tiles(d.tokens[v.line], d.lines[v.line], v.line, 0)
    ensures exists t :: t in d.tokens[v.line] && t.kind == Identifier && t.value == v.name && t.col == v.col && t.endCol == v.col + |v.name|
  {
    var t :| t in Significant(d.tokens[v.line]) && t.kind == Identifier && t.value == v.name && t.col == v.col;
    SignificantMembers(d.tokens[v.line]);
    TiledToken(d.tokens[v.line], d.lines[v.line], v.line, t);
  }

  /** In a well-formed document a function's target is the name token of
      its header. */
  lemma FunctionTarget(d: ParsedDocument, name: string, line: int)
    requires WellFormed(d)
    requires name in Keys(d.functions)
    ensures var r := DefinitionOf(d, name, line).value;
      && 0 <= r.startLine < |d.tokens|
      && (exists t :: t in d.tokens[r.startLine] && t.value == name
            && t.col == r.startChar && t.endCol == r.endChar)
  {
    var f := Get(d.functions, name).value;
    assert DefinitionOf(d, name, line) == Some(FunctionNameRange(f));
    FunctionEntryOk(d, (name, f));
    HeaderNameToken(d, f, d.lineIndents[f.line]);
  }

  /** In a well-formed document a variable's target is an identifier token
      spelling its name on the line where it is first assigned. */
  lemma VariableTarget(d: ParsedDocument, name: string, line: int)
    requires WellFormed(d)
    requires name !in Keys(d.functions) && FindVariable(d, name, line).Some?
    ensures var r := DefinitionOf(d, name, line).value;
      var v := FindVariable(d, name, line).value;
      && 0 <= r.startLine < |d.tokens|
      && (exists t :: t in d.tokens[r.startLine] && t.kind == Identifier && t.value == v.name
            && t.col == r.startChar && t.endCol == r.endChar)
  {
    var v := FindVariable(d, name, line).value;
    var scope := CurrentScope(d.functions, line);
    var key := if scope != GlobalScope && ScopedKey(scope, name) in Keys(d.variables) then ScopedKey(scope, name) else name;
    VariableEntryOk(d, (key, v));
    VariableNameToken(d, key, v);
  }

  datatype SymbolKind = FunctionSymbol | VariableSymbol

  /** An outline entry; a function's detail is its parameter list */
  datatype DocumentSymbol = DocumentSymbol(
    name: string, kind: SymbolKind, range: Range, selection: Range, params: Option<seq<string>>)

  /** The outline entry of function `f` stored under `name`: from the start
      of its header line to the end of its last line */
  function FunctionSymbolOf(d: ParsedDocument, name: string, f: FuncDef): DocumentSymbol
    requires f.endLine >= 0
  {
    var endChar := if f.endLine < |d.lines| then |d.lines[f.endLine]| else 0;
    DocumentSymbol(name, FunctionSymbol, Range(f.line, 0, f.endLine, endChar), Span(f.line, f.col, |name|),
      Some(seq(|f.params|, j requires 0 <= j < |f.params| => f.params[j].name)))
  }

  /** The outline entry of a variable: its name where it is first assigned */
  function VariableSymbolOf(v: VarDef): DocumentSymbol {
    DocumentSymbol(v.name, VariableSymbol, VariableNameRange(v), VariableNameRange(v), None)
  }

  /** No function ends before its first line. */
  ghost predicate EndLinesValid(fs: AList<string, FuncDef>) {
    forall e :: e in fs ==> e.1.endLine >= 0
  }

  function FunctionSymbols(d: ParsedDocument, fs: AList<string, FuncDef>): (r: seq<DocumentSymbol>)
    requires EndLinesValid(fs)
    ensures |r| == |fs|
    ensures forall i :: 0 <= i < |fs| ==> r[i] == FunctionSymbolOf(d, fs[i].0, fs[i].1)
  {
    seq(|fs|, i requires 0 <= i < |fs| => assert fs[i] in fs; FunctionSymbolOf(d, fs[i].0, fs[i].1))
  }

  /** The outline entries of the variables assigned outside every function,
      in table order */
  function GlobalVariableSymbols(vars: AList<string, VarDef>): (r: seq<DocumentSymbol>)
    ensures |r| <= |vars|
    ensures forall s :: s in r ==> s.kind == VariableSymbol
    decreases |vars|
  {
    if |vars| == 0 then []
    else
      var rest := GlobalVariableSymbols(vars[1..]);
      if vars[0].1.scope != GlobalScope then rest else [VariableSymbolOf(vars[0].1)] + rest
  }

  /** The outline of a table split in two is the outline of the first part
      followed by that of the second, so the variable entries keep the
      table's order and each global entry appears once. */
  lemma {:induction false} GlobalVariableSymbolsAppend(a: AList<string, VarDef>, b: AList<string, VarDef>)
    ensures GlobalVariableSymbols(a + b) == GlobalVariableSymbols(a) + GlobalVariableSymbols(b)
    decreases |a|
  {
    if |a| > 0 {
      assert (a + b)[0] == a[0];
      assert (a + b)[1..] == a[1..] + b;
      GlobalVariableSymbolsAppend(a[1..], b);
    } else {
      assert a + b == b;
    }
  }

  /** A variable is in the outline exactly when it is global. */
  lemma {:induction false} GlobalVariableSymbolsExact(vars: AList<string, VarDef>, s: DocumentSymbol)
    ensures s in GlobalVariableSymbols(vars) <==>
      exists e :: e in vars && e.1.scope == GlobalScope && s == VariableSymbolOf(e.1)
    decreases |vars|
  {
    if |vars| > 0 {
      GlobalVariableSymbolsExact(vars[1..], s);
      assert forall e :: e in vars <==> e == vars[0] || e in vars[1..];
    }
  }

  /** `provide_document_symbols` */
  function ProvideDocumentSymbols(d: ParsedDocument): (r: seq<DocumentSymbol>)
    requires EndLinesValid(d.functions)
    ensures |d.functions| <= |r| <= |d.functions| + |d.variables|
    ensures forall i :: 0 <= i < |d.functions| ==>
      r[i].name == d.functions[i].0 && r[i].kind == FunctionSymbol
    ensures forall i :: |d.functions| <= i < |r| ==> r[i].kind == VariableSymbol
  {
    var fsyms := FunctionSymbols(d, d.functions);
    var vsyms := GlobalVariableSymbols(d.variables);
    assert forall i :: |fsyms| <= i < |fsyms + vsyms| ==> (fsyms + vsyms)[i] in vsyms;
    fsyms + vsyms
  }

  /** An outline entry is a function's entry or a global variable's entry,
      and every one of these is in the outline. */
  lemma DocumentSymbolsExact(d: ParsedDocument, s: DocumentSymbol)
    requires EndLinesValid(d.functions)
    ensures s in ProvideDocumentSymbols(d) <==>
      || (exists i :: 0 <= i < |d.functions| && s == FunctionSymbolOf(d, d.functions[i].0, d.functions[i].1))
      || (exists e :: e in d.variables && e.1.scope == GlobalScope && s == VariableSymbolOf(e.1))
  {
    var fsyms := FunctionSymbols(d, d.functions);
    var vsyms := GlobalVariableSymbols(d.variables);
    assert ProvideDocumentSymbols(d) == fsyms + vsyms;
    GlobalVariableSymbolsExact(d.variables, s);
    if s in fsyms {
      var i :| 0 <= i < |fsyms| && fsyms[i] == s;
    }
  }

  /** A parsed document's functions never end before they start. */
  lemma ParsedEndLinesValid(source: string)
    ensures EndLinesValid(ParseDocument(source).functions)
  {
    var d := ParseDocument(source);
    ParseDocumentWellFormed(source);
    forall e | e in d.functions ensures e.1.endLine >= 0 {
      FunctionEntryOk(d, e);
    }
  }

  /** `r` starts no later and ends no earlier than `inner`. */
  predicate Contains(r: Range, inner: Range) {
    && (r.startLine < inner.startLine || (r.startLine == inner.startLine && r.startChar <= inner.startChar))
    && (inner.endLine < r.endLine || (inner.endLine == r.endLine && inner.endChar <= r.endChar))
  }

  /** In a well-formed document every function's outline range ends at the
      end of a real line and contains the range of its name. */
  lemma FunctionSymbolNests(d: ParsedDocument, i: nat)
    requires WellFormed(d) && i < |d.functions|
    ensures EndLinesValid(d.functions)
    ensures var s := ProvideDocumentSymbols(d)[i];
      && s.range.endLine < |d.lines| && s.range.endChar == |d.lines[s.range.endLine]|
      && Contains(s.range, s.selection)
  {
    var e := d.functions[i];
    var f := e.1;
    FunctionEntryOk(d, e);
    forall e' | e' in d.functions ensures e'.1.endLine >= 0 {
      FunctionEntryOk(d, e');
    }
    HeaderNameToken(d, f, d.lineIndents[f.line]);
  }
}
