/**
 * The document builder: splits a source text into lines, lexes every line,
 * measures its indentation, and walks the lines once to collect function
 * definitions (with their parameters and the last line of their body) and
 * the first assignment of every variable in every scope.
 */
module Document {
  import opened Wrappers
  import opened AssocList
  import opened Text
  import opened Symbols
  import opened Lexer

  datatype ParamInfo = ParamInfo(name: string, line: nat, col: nat)

  /** A function definition; `endLine` is the last line of its body. */
  datatype FuncDef = FuncDef(
    name: string, line: nat, col: nat, endLine: int,
    params: seq<ParamInfo>, bodyIndent: nat)

  /** The first assignment of a variable, and the scope it was made in */
  datatype VarDef = VarDef(name: string, line: nat, col: nat, scope: string)

  /** Functions are keyed by name; a variable assigned inside a function is
      keyed `function:name`, a variable assigned outside any function by its
      bare name. Both tables iterate in first-insertion order. */
  datatype ParsedDocument = ParsedDocument(
    tokens: seq<seq<Token>>,
    functions: AList<string, FuncDef>,
    variables: AList<string, VarDef>,
    lineIndents: seq<nat>,
    lines: seq<string>)

  /** The scope name of variables assigned outside every function */
  const GlobalScope := "global"

  /** The table key of a variable assigned in function `scope` */
  function ScopedKey(scope: string, name: string): string {
    scope + ":" + name
  }

  // ---------------------------------------------------------------------
  // Lines

  /** `source.split('\n')` without the empty piece after a final newline,
      and a single empty line for an empty document. */
  function SplitLines(source: string): (lines: seq<string>)
    ensures |lines| >= 1
    ensures forall k :: 0 <= k < |lines| ==> '\n' !in lines[k]
  {
    var raw := Split(source, '\n');
    if raw[|raw| - 1] == "" then
      if |raw| == 1 then [""] else raw[..|raw| - 1]
    else
      raw
  }

  /** Joining the lines with newlines gives the source back, less its
      final newline. */
  lemma SplitLinesRejoin(source: string)
    ensures EndsWith(source, '\n') ==> Join(SplitLines(source), '\n') + "\n" == source
    ensures !EndsWith(source, '\n') ==> Join(SplitLines(source), '\n') == source
  {
    var raw := Split(source, '\n');
    if raw[|raw| - 1] == "" {
      if |raw| > 1 {
        var lines := raw[..|raw| - 1];
        assert raw == lines + [""];
        JoinSnoc(lines, "", '\n');
      }
    } else {
      JoinEndsWithLast(raw, '\n');
      var last := raw[|raw| - 1];
      assert last[|last| - 1] in last;
    }
  }

  /** A join ends with its last piece. */
  lemma {:induction false} JoinEndsWithLast(parts: seq<string>, sep: char)
    requires |parts| >= 1
    ensures var j := Join(parts, sep); var last := parts[|parts| - 1];
            |last| <= |j| && j[|j| - |last|..] == last
    decreases |parts|
  {
    if |parts| > 1 {
      JoinEndsWithLast(parts[1..], sep);
      var tail := Join(parts[1..], sep);
      assert Join(parts, sep) == (parts[0] + [sep]) + tail;
    }
  }

  /** Lines saved with a final newline read back as the same lines. */
  lemma SplitLinesJoin(lines: seq<string>)
    requires |lines| >= 1
    requires forall k :: 0 <= k < |lines| ==> '\n' !in lines[k]
    ensures SplitLines(Join(lines, '\n') + "\n") == lines
  {
    var s := Join(lines, '\n') + "\n";
    JoinSnoc(lines, "", '\n');
    assert Join(lines + [""], '\n') == s;
    assert forall k :: 0 <= k < |lines + [""]| ==> '\n' !in (lines + [""])[k];
    SplitJoin(lines + [""], '\n');
    assert Split(s, '\n') == lines + [""];
    assert (lines + [""])[..|lines|] == lines;
  }

  // ---------------------------------------------------------------------
  // Function headers

  /** Index of the first token of kind `kind` at or after `i`, or `|sig|` */
  function FirstOfKind(sig: seq<Token>, i: nat, kind: TokenKind): (r: nat)
    requires i <= |sig|
    ensures i <= r <= |sig|
    ensures forall j :: i <= j < r ==> sig[j].kind != kind
    ensures r < |sig| ==> sig[r].kind == kind
    decreases |sig| - i
  {
    if i == |sig| || sig[i].kind == kind then i else FirstOfKind(sig, i + 1, kind)
  }

  /** The parameter an identifier token names */
  function ParamOf(t: Token): ParamInfo {
    ParamInfo(t.value, t.line, t.col)
  }

  /** The parameters the identifier tokens of `ts` name, in order: the
      other tokens (commas, literals, operators) are passed over. */
  function IdentifierParams(ts: seq<Token>): (ps: seq<ParamInfo>)
    ensures |ps| <= |ts|
  {
    if |ts| == 0 then []
    else
      var rest := IdentifierParams(ts[1..]);
      if ts[0].kind == Identifier then [ParamOf(ts[0])] + rest else rest
  }

  /** The parameters are those of the identifier tokens, and no others. */
  lemma {:induction false} IdentifierParamsMembers(ts: seq<Token>)
    ensures forall p :: p in IdentifierParams(ts) <==> exists t :: t in ts && t.kind == Identifier && p == ParamOf(t)
  {
    if |ts| > 0 {
      IdentifierParamsMembers(ts[1..]);
      assert forall t :: t in ts <==> t == ts[0] || t in ts[1..];
    }
  }

  /** The identifiers from index `j` up to the first closing parenthesis,
      or the end of the line, in order */
  function CollectParams(sig: seq<Token>, j: nat): (ps: seq<ParamInfo>)
    requires j <= |sig|
    ensures forall p :: p in ps <==>
      exists k :: j <= k < FirstOfKind(sig, j, ParenClose) && sig[k].kind == Identifier && p == ParamOf(sig[k])
    decreases |sig| - j
  {
    if j == |sig| || sig[j].kind == ParenClose then []
    else
      var rest := CollectParams(sig, j + 1);
      if sig[j].kind == Identifier then [ParamOf(sig[j])] + rest else rest
  }

  /** The collected parameters are those of the identifier tokens before
      the closing parenthesis, in their order on the line. */
  lemma {:induction false} CollectParamsInOrder(sig: seq<Token>, j: nat)
    requires j <= |sig|
    ensures CollectParams(sig, j) == IdentifierParams(sig[j..FirstOfKind(sig, j, ParenClose)])
    decreases |sig| - j
  {
    if j < |sig| && sig[j].kind != ParenClose {
      CollectParamsInOrder(sig, j + 1);
      var e := FirstOfKind(sig, j, ParenClose);
      assert sig[j..e][1..] == sig[j + 1..e];
    }
  }

  /** `_parse_func_header`: `कार्यम् name ( p1 , p2 ) :` read from the
      significant tokens of a line. The header is accepted when it has at
      least four tokens, the second names the function, and an opening
      parenthesis follows; the parameters are the identifiers between the
      first `(` and the next `)`, or the end of the line. */
  function ParseFuncHeader(sig: seq<Token>, lineNo: nat, indent: nat): (r: Option<FuncDef>)
    ensures r.Some? <==>
      |sig| >= 4 && sig[1].kind == Identifier && exists k :: 2 <= k < |sig| && sig[k].kind == ParenOpen
    ensures r.Some? ==>
      && r.value.name == sig[1].value && r.value.col == sig[1].col
      && r.value.line == lineNo && r.value.endLine == lineNo
      && r.value.bodyIndent == indent + 4
    ensures r.Some? ==>
      var open := FirstOfKind(sig, 2, ParenOpen);
      && open < |sig|
      && forall p :: p in r.value.params <==>
        exists k :: open < k < FirstOfKind(sig, open + 1, ParenClose) && sig[k].kind == Identifier && p == ParamOf(sig[k])
  {
    if |sig| < 4 || sig[1].kind != Identifier then None
    else
      var open := FirstOfKind(sig, 2, ParenOpen);
      if open == |sig| then None
      else
        var params := CollectParams(sig, open + 1);
        Some(FuncDef(sig[1].value, lineNo, sig[1].col, lineNo, params, indent + 4))
  }

  /** The tokens between a header's first `(` after the name and the next
      `)`, or the end of the line */
  function ParamTokens(sig: seq<Token>): seq<Token> {
    if |sig| < 2 then []
    else
      var open := FirstOfKind(sig, 2, ParenOpen);
      if open == |sig| then [] else sig[open + 1..FirstOfKind(sig, open + 1, ParenClose)]
  }

  /** The parameters of an accepted header are the identifiers after its
      first `(`, up to the next `)` or the end of the line, in order. */
  lemma HeaderParamsInOrder(sig: seq<Token>, lineNo: nat, indent: nat, f: FuncDef)
    requires ParseFuncHeader(sig, lineNo, indent) == Some(f)
    ensures f.params == IdentifierParams(ParamTokens(sig))
  {
    var open := FirstOfKind(sig, 2, ParenOpen);
    HeaderParams(sig, lineNo, indent, f);
    CollectParamsInOrder(sig, open + 1);
  }

  /** An accepted header's parameters are collected after its first `(`. */
  lemma HeaderParams(sig: seq<Token>, lineNo: nat, indent: nat, f: FuncDef)
    requires ParseFuncHeader(sig, lineNo, indent) == Some(f)
    ensures FirstOfKind(sig, 2, ParenOpen) < |sig|
    ensures f.params == CollectParams(sig, FirstOfKind(sig, 2, ParenOpen) + 1)
  {
  }

  // ---------------------------------------------------------------------
  // Registering variables

  /** The variable a parameter of function `fname` declares */
  function ParamVar(fname: string, p: ParamInfo): VarDef {
    VarDef(p.name, p.line, p.col, fname)
  }

  /** Pre-registers the parameters of function `fname` as variables of its
      scope, each only if its key is new. */
  function RegisterParams(vars: AList<string, VarDef>, fname: string, ps: seq<ParamInfo>): (r: AList<string, VarDef>)
    ensures |vars| <= |r| && r[..|vars|] == vars
    ensures forall e :: e in r ==> e in vars || exists p :: p in ps && e == (ScopedKey(fname, p.name), ParamVar(fname, p))
    ensures forall p :: p in ps ==> ScopedKey(fname, p.name) in Keys(r)
    decreases |ps|
  {
    if |ps| == 0 then vars
    else
      var p := ps[0];
      var v1 := PutIfAbsent(vars, ScopedKey(fname, p.name), ParamVar(fname, p));
      var r := RegisterParams(v1, fname, ps[1..]);
      assert r[..|vars|] == vars by {
        assert r[..|v1|][..|vars|] == r[..|vars|];
      }
      PrefixKeys(v1, r);
      r
  }

  lemma {:induction false} RegisterParamsKeepsKeysUnique(vars: AList<string, VarDef>, fname: string, ps: seq<ParamInfo>)
    requires UniqueKeys(vars)
    ensures UniqueKeys(RegisterParams(vars, fname, ps))
    decreases |ps|
  {
    if |ps| > 0 {
      var p := ps[0];
      PutIfAbsentKeepsKeysUnique(vars, ScopedKey(fname, p.name), ParamVar(fname, p));
      RegisterParamsKeepsKeysUnique(PutIfAbsent(vars, ScopedKey(fname, p.name), ParamVar(fname, p)), fname, ps[1..]);
    }
  }

  /** Do the significant tokens of a line read `name = …`? */
  predicate IsAssignment(sig: seq<Token>) {
    |sig| >= 3 && sig[0].kind == Identifier && sig[1].kind == Operator && sig[1].value == "="
  }

  /** The scope an assignment is made in: the open function, or the global scope */
  function ScopeOf(current: Option<FuncDef>): string {
    if current.Some? then current.value.name else GlobalScope
  }

  /** The table key of variable `name` assigned while `current` is open */
  function VarKey(current: Option<FuncDef>, name: string): string {
    if current.Some? then ScopedKey(current.value.name, name) else name
  }

  /** `_extract_assignment`: records `name = …` under its key, unless the key
      already has a record; a line that is no assignment changes nothing. */
  function ExtractAssignment(sig: seq<Token>, lineNo: nat, current: Option<FuncDef>, vars: AList<string, VarDef>): (r: AList<string, VarDef>)
    ensures |vars| <= |r| && r[..|vars|] == vars
    ensures !IsAssignment(sig) ==> r == vars
    ensures IsAssignment(sig) ==>
      var key := VarKey(current, sig[0].value);
      && (forall e :: e in r ==> e in vars || e == (key, VarDef(sig[0].value, lineNo, sig[0].col, ScopeOf(current))))
      && key in Keys(r)
      && (key in Keys(vars) ==> Get(r, key) == Get(vars, key))
  {
    if IsAssignment(sig) then
      var name := sig[0].value;
      PutIfAbsent(vars, VarKey(current, name), VarDef(name, lineNo, sig[0].col, ScopeOf(current)))
    else vars
  }

  // ---------------------------------------------------------------------
  // The line walk

  /** The loop state of `parse_document`: both tables, the function whose
      body is still open, and the indentation of its header (-1 when none).
      The open function is always the table entry under its own name, so
      updating its end line is a store into the table. */
  datatype BuildState = BuildState(
    functions: AList<string, FuncDef>,
    variables: AList<string, VarDef>,
    current: Option<FuncDef>,
    funcIndent: int)

  const Start: BuildState := BuildState([], [], None, -1)

  /** A significant line either closes the open function, when it is not
      indented past the header, or extends its body to this line. */
  function CloseOrExtend(st: BuildState, lineNo: nat, indent: nat): BuildState {
    match st.current
    case None => st
    case Some(f) =>
      if indent <= st.funcIndent then
        var f' := f.(endLine := lineNo - 1);
        BuildState(Put(st.functions, f.name, f'), st.variables, None, -1)
      else
        var f' := f.(endLine := lineNo);
        BuildState(Put(st.functions, f.name, f'), st.variables, Some(f'), st.funcIndent)
  }

  /** Does a line of significant tokens start with the function keyword? */
  predicate StartsFunction(sig: seq<Token>) {
    |sig| > 0 && sig[0].kind == Keyword && sig[0].value == FunctionKeyword
  }

  /** One iteration of the walk, over line `lineNo` with significant tokens `sig` */
  function Step(st: BuildState, lineNo: nat, sig: seq<Token>, indent: nat): BuildState {
    if |sig| == 0 then st
    else
      var st1 := CloseOrExtend(st, lineNo, indent);
      var header := if StartsFunction(sig) then ParseFuncHeader(sig, lineNo, indent) else None;
      match header
      case Some(f) =>
        BuildState(Put(st1.functions, f.name, f), RegisterParams(st1.variables, f.name, f.params), Some(f), indent)
      case None =>
        st1.(variables := ExtractAssignment(sig, lineNo, st1.current, st1.variables))
  }

  /** The state after walking lines `i ..` from state `st` */
  function Walk(st: BuildState, toks: seq<seq<Token>>, indents: seq<nat>, i: nat): BuildState
    requires i <= |toks| == |indents|
    decreases |toks| - i
  {
    if i == |toks| then st
    else Walk(Step(st, i, Significant(toks[i]), indents[i]), toks, indents, i + 1)
  }

  /** A function still open at the end of the document ends on its last line. */
  function Finish(st: BuildState, lineCount: nat): AList<string, FuncDef> {
    match st.current
    case None => st.functions
    case Some(f) => Put(st.functions, f.name, f.(endLine := lineCount - 1))
  }

  /** `parse_document` */
  function ParseDocument(source: string): (d: ParsedDocument)
    ensures d.lines == SplitLines(source)
    ensures |d.tokens| == |d.lines| && |d.lineIndents| == |d.lines|
    ensures forall i :: 0 <= i < |d.lines| ==>
      d.tokens[i] == Tokenize(d.lines[i], i) && d.lineIndents[i] == MeasureIndent(d.lines[i])
  {
    var lines := SplitLines(source);
    var toks := seq(|lines|, i requires 0 <= i < |lines| => Tokenize(lines[i], i));
    var indents := seq(|lines|, i requires 0 <= i < |lines| => MeasureIndent(lines[i]));
    var st := Walk(Start, toks, indents, 0);
    ParsedDocument(toks, Finish(st, |lines|), st.variables, indents, lines)
  }

  // ---------------------------------------------------------------------
  // What the walk guarantees

  /** Every token records the line it was read from. */
  ghost predicate TokensOnLines(toks: seq<seq<Token>>) {
    forall l, k :: 0 <= l < |toks| && 0 <= k < |toks[l]| ==> toks[l][k].line == l
  }

  /** Every significant line after the header, up to the end line, is
      indented past the header. */
  ghost predicate BodyIndented(f: FuncDef, toks: seq<seq<Token>>, indents: seq<nat>) {
    forall l ::
      (f.line < l <= f.endLine && l < |toks| && l < |indents| && f.line < |indents| && |Significant(toks[l])| > 0)
      ==> indents[l] > indents[f.line]
  }

  /** A function entry of the first `n` lines: stored under its own name,
      parsed from the header on its line, and ending on or after that line. */
  ghost predicate FuncOk(key: string, f: FuncDef, toks: seq<seq<Token>>, indents: seq<nat>, n: nat) {
    && key == f.name
    && f.line <= f.endLine < n <= |toks| == |indents|
    && StartsFunction(Significant(toks[f.line]))
    && ParseFuncHeader(Significant(toks[f.line]), f.line, indents[f.line]) == Some(f.(endLine := f.line))
    && BodyIndented(f, toks, indents)
  }

  /** A variable entry of the first `n` lines: keyed by its scope and name,
      and pointing at an identifier on its line. */
  ghost predicate VarOk(key: string, v: VarDef, toks: seq<seq<Token>>, n: nat) {
    && v.line < n <= |toks|
    && ((v.scope == GlobalScope && key == v.name) || key == ScopedKey(v.scope, v.name))
    && exists t :: t in Significant(toks[v.line]) && t.kind == Identifier && t.value == v.name && t.col == v.col
  }

  ghost predicate FuncsOk(fs: AList<string, FuncDef>, toks: seq<seq<Token>>, indents: seq<nat>, n: nat) {
    forall e :: e in fs ==> FuncOk(e.0, e.1, toks, indents, n)
  }

  /** Every variable entry is well placed, and its scope is global or a function. */
  ghost predicate VarsOk(vs: AList<string, VarDef>, fs: AList<string, FuncDef>, toks: seq<seq<Token>>, n: nat) {
    forall e :: e in vs ==> VarOk(e.0, e.1, toks, n) && (e.1.scope == GlobalScope || e.1.scope in Keys(fs))
  }

  /** The open function is in the table, and every significant line of its
      body so far is indented past its header. */
  ghost predicate CurrentOk(st: BuildState, toks: seq<seq<Token>>, indents: seq<nat>, n: nat) {
    st.current.Some? ==>
      var f := st.current.value;
      && (f.name, f) in st.functions
      && f.line < n <= |indents|
      && st.funcIndent == indents[f.line]
      && forall l :: f.line < l < n && l < |toks| && |Significant(toks[l])| > 0 ==> indents[l] > st.funcIndent
  }

  /** Every parameter of every function has a variable entry in its scope. */
  ghost predicate ParamsRegistered(fs: AList<string, FuncDef>, vs: AList<string, VarDef>) {
    forall e, p :: e in fs && p in e.1.params ==> ScopedKey(e.0, p.name) in Keys(vs)
  }

  /** The loop invariant of the walk after `n` lines */
  ghost predicate Inv(st: BuildState, toks: seq<seq<Token>>, indents: seq<nat>, n: nat) {
    && n <= |toks| == |indents|
    && TokensOnLines(toks)
    && UniqueKeys(st.functions) && UniqueKeys(st.variables)
    && FuncsOk(st.functions, toks, indents, n)
    && VarsOk(st.variables, st.functions, toks, n)
    && CurrentOk(st, toks, indents, n)
    && ParamsRegistered(st.functions, st.variables)
  }

  lemma FuncsOkGrow(fs: AList<string, FuncDef>, toks: seq<seq<Token>>, indents: seq<nat>, n: nat)
    requires FuncsOk(fs, toks, indents, n) && n < |toks|
    ensures FuncsOk(fs, toks, indents, n + 1)
  {
  }

  lemma VarsOkGrow(vs: AList<string, VarDef>, fs: AList<string, FuncDef>, toks: seq<seq<Token>>, n: nat)
    requires VarsOk(vs, fs, toks, n) && n < |toks|
    ensures VarsOk(vs, fs, toks, n + 1)
  {
  }

  /** Storing an entry into the function table keeps every variable's scope a key. */
  lemma VarsOkPut(vs: AList<string, VarDef>, fs: AList<string, FuncDef>, toks: seq<seq<Token>>, n: nat, f: FuncDef)
    requires VarsOk(vs, fs, toks, n)
    ensures VarsOk(vs, Put(fs, f.name, f), toks, n)
  {
    forall e | e in vs ensures e.1.scope == GlobalScope || e.1.scope in Keys(Put(fs, f.name, f)) {
      if e.1.scope != GlobalScope {
        PutKeepsKeys(fs, f.name, f, e.1.scope);
      }
    }
  }

  /** Storing a good entry into the function table keeps every entry good. */
  lemma FuncsOkPut(fs: AList<string, FuncDef>, toks: seq<seq<Token>>, indents: seq<nat>, n: nat, f: FuncDef)
    requires FuncsOk(fs, toks, indents, n) && FuncOk(f.name, f, toks, indents, n)
    ensures FuncsOk(Put(fs, f.name, f), toks, indents, n)
  {
    PutEntries(fs, f.name, f);
  }

  /** Storing a function with the same parameters under the same name keeps
      every parameter registered. */
  lemma ParamsRegisteredPut(fs: AList<string, FuncDef>, vs: AList<string, VarDef>, f: FuncDef)
    requires ParamsRegistered(fs, vs)
    requires forall p :: p in f.params ==> ScopedKey(f.name, p.name) in Keys(vs)
    ensures ParamsRegistered(Put(fs, f.name, f), vs)
  {
    PutEntries(fs, f.name, f);
  }

  /** The open function, with its body ended at line `e`, is a good entry
      once line `e` has been walked. */
  lemma OpenFunctionEndsAt(st: BuildState, toks: seq<seq<Token>>, indents: seq<nat>, n: nat, f': FuncDef)
    requires FuncsOk(st.functions, toks, indents, n) && CurrentOk(st, toks, indents, n)
    requires st.current.Some? && f' == st.current.value.(endLine := f'.endLine)
    requires st.current.value.line <= f'.endLine < n
    ensures FuncOk(f'.name, f', toks, indents, n)
  {
    var f := st.current.value;
    assert FuncOk(f.name, f, toks, indents, n);
    assert f'.(endLine := f.line) == f.(endLine := f.line);
  }

  /** A good entry of the first `n` lines stays good one line on. */
  lemma FuncOkGrow(key: string, f: FuncDef, toks: seq<seq<Token>>, indents: seq<nat>, n: nat)
    requires FuncOk(key, f, toks, indents, n) && n < |toks|
    ensures FuncOk(key, f, toks, indents, n + 1)
  {
  }

  /** Storing a good entry `f'` over the entry `f` of the same name and
      parameters keeps both tables good. */
  lemma StoreKeepsTables(fs: AList<string, FuncDef>, vs: AList<string, VarDef>, toks: seq<seq<Token>>, indents: seq<nat>, m: nat, f: FuncDef, f': FuncDef)
    requires UniqueKeys(fs) && FuncsOk(fs, toks, indents, m) && VarsOk(vs, fs, toks, m) && ParamsRegistered(fs, vs)
    requires (f.name, f) in fs && f'.name == f.name && f'.params == f.params
    requires FuncOk(f'.name, f', toks, indents, m)
    ensures UniqueKeys(Put(fs, f.name, f'))
    ensures FuncsOk(Put(fs, f.name, f'), toks, indents, m)
    ensures VarsOk(vs, Put(fs, f.name, f'), toks, m)
    ensures ParamsRegistered(Put(fs, f.name, f'), vs)
  {
    FuncsOkPut(fs, toks, indents, m, f');
    PutKeepsKeysUnique(fs, f.name, f');
    VarsOkPut(vs, fs, toks, m, f');
    ParamsRegisteredPut(fs, vs, f');
  }

  /** Closing the open function keeps the invariant, one line on. */
  lemma CloseKeeps(st: BuildState, toks: seq<seq<Token>>, indents: seq<nat>, n: nat)
    requires Inv(st, toks, indents, n) && n < |toks|
    requires st.current.Some? && indents[n] <= st.funcIndent
    ensures var f := st.current.value;
      Inv(BuildState(Put(st.functions, f.name, f.(endLine := n - 1)), st.variables, None, -1), toks, indents, n + 1)
  {
    var f := st.current.value;
    CloseTables(st, toks, indents, n, f.(endLine := n - 1));
  }

  /** Closing the open function on line `n`, one line before it, keeps
      both tables good, one line on. */
  lemma CloseTables(st: BuildState, toks: seq<seq<Token>>, indents: seq<nat>, n: nat, f': FuncDef)
    requires n < |toks|
    requires UniqueKeys(st.functions) && FuncsOk(st.functions, toks, indents, n)
    requires VarsOk(st.variables, st.functions, toks, n) && ParamsRegistered(st.functions, st.variables)
    requires CurrentOk(st, toks, indents, n)
    requires st.current.Some? && f' == st.current.value.(endLine := n - 1)
    ensures UniqueKeys(Put(st.functions, st.current.value.name, f'))
    ensures FuncsOk(Put(st.functions, st.current.value.name, f'), toks, indents, n + 1)
    ensures VarsOk(st.variables, Put(st.functions, st.current.value.name, f'), toks, n + 1)
    ensures ParamsRegistered(Put(st.functions, st.current.value.name, f'), st.variables)
  {
    OpenFunctionEndsAt(st, toks, indents, n, f');
    FuncOkGrow(f'.name, f', toks, indents, n);
    FuncsOkGrow(st.functions, toks, indents, n);
    VarsOkGrow(st.variables, st.functions, toks, n);
    StoreKeepsTables(st.functions, st.variables, toks, indents, n + 1, st.current.value, f');
  }

  /** Extending the open function to a more indented line keeps the invariant, one line on. */
  lemma ExtendKeeps(st: BuildState, toks: seq<seq<Token>>, indents: seq<nat>, n: nat)
    requires Inv(st, toks, indents, n) && n < |toks|
    requires st.current.Some? && indents[n] > st.funcIndent
    ensures var f' := st.current.value.(endLine := n);
      Inv(BuildState(Put(st.functions, st.current.value.name, f'), st.variables, Some(f'), st.funcIndent), toks, indents, n + 1)
  {
    var f := st.current.value;
    ExtendedEntry(st, toks, indents, n);
    FuncsOkGrow(st.functions, toks, indents, n);
    VarsOkGrow(st.variables, st.functions, toks, n);
    StoreKeepsTables(st.functions, st.variables, toks, indents, n + 1, f, f.(endLine := n));
    ExtendedCurrentOk(st, toks, indents, n, f.(endLine := n));
  }

  /** The open function extended to a more indented line `n` is a good entry. */
  lemma ExtendedEntry(st: BuildState, toks: seq<seq<Token>>, indents: seq<nat>, n: nat)
    requires FuncsOk(st.functions, toks, indents, n) && CurrentOk(st, toks, indents, n) && n < |toks|
    requires st.current.Some? && indents[n] > st.funcIndent
    ensures FuncOk(st.current.value.name, st.current.value.(endLine := n), toks, indents, n + 1)
  {
    var f := st.current.value;
    var f' := f.(endLine := n);
    assert FuncOk(f.name, f, toks, indents, n);
    assert f'.(endLine := f.line) == f.(endLine := f.line);
    forall l | f.line < l <= n && |Significant(toks[l])| > 0
      ensures indents[l] > indents[f.line]
    {
    }
  }

  /** The open function extended to a more indented line `n` stays the open entry. */
  lemma ExtendedCurrentOk(st: BuildState, toks: seq<seq<Token>>, indents: seq<nat>, n: nat, f': FuncDef)
    requires CurrentOk(st, toks, indents, n) && n < |indents|
    requires st.current.Some? && indents[n] > st.funcIndent
    requires f' == st.current.value.(endLine := n)
    ensures CurrentOk(BuildState(Put(st.functions, st.current.value.name, f'), st.variables, Some(f'), st.funcIndent), toks, indents, n + 1)
  {
    EntryOfPut(st.functions, st.current.value.name, f');
    var f := st.current.value;
    assert f'.line == f.line;
    forall l | f.line < l < n + 1 && l < |toks| && |Significant(toks[l])| > 0
      ensures indents[l] > st.funcIndent
    {
      if l < n {
        CurrentIndented(st, toks, indents, n, l);
      } else {
        assert l == n;
      }
    }
  }

  /** A significant line of the open function's body is indented past its header. */
  lemma CurrentIndented(st: BuildState, toks: seq<seq<Token>>, indents: seq<nat>, n: nat, l: nat)
    requires CurrentOk(st, toks, indents, n) && st.current.Some?
    requires st.current.value.line < l < n && l < |toks| && |Significant(toks[l])| > 0
    ensures l < |indents| && indents[l] > st.funcIndent
  {
  }

  /** Closing or extending the open function keeps the invariant, one line on. */
  lemma CloseOrExtendKeeps(st: BuildState, toks: seq<seq<Token>>, indents: seq<nat>, n: nat)
    requires Inv(st, toks, indents, n) && n < |toks|
    ensures Inv(CloseOrExtend(st, n, indents[n]), toks, indents, n + 1)
  {
    if st.current.None? {
      FuncsOkGrow(st.functions, toks, indents, n);
      VarsOkGrow(st.variables, st.functions, toks, n);
    } else if indents[n] <= st.funcIndent {
      CloseKeeps(st, toks, indents, n);
    } else {
      ExtendKeeps(st, toks, indents, n);
    }
  }

  /** The value just stored is an entry of the table. */
  lemma EntryOfPut<V>(m: AList<string, V>, k: string, v: V)
    ensures (k, v) in Put(m, k, v)
  {
    var r := Put(m, k, v);
    assert (k, v) in r by {
      assert Get(r, k) == Some(v);
    }
  }

  /** The variable entry a parameter of a header on line `n` produces is good. */
  lemma ParamVarOk(toks: seq<seq<Token>>, indents: seq<nat>, n: nat, f: FuncDef, p: ParamInfo, fs: AList<string, FuncDef>)
    requires n < |toks| == |indents| && TokensOnLines(toks)
    requires ParseFuncHeader(Significant(toks[n]), n, indents[n]) == Some(f)
    requires p in f.params && f.name in Keys(fs)
    ensures VarOk(ScopedKey(f.name, p.name), ParamVar(f.name, p), toks, n + 1)
    ensures ParamVar(f.name, p).scope in Keys(fs)
  {
    var sig := Significant(toks[n]);
    var open := FirstOfKind(sig, 2, ParenOpen);
    var close := FirstOfKind(sig, open + 1, ParenClose);
    assert close <= |sig|;
    var k :| open < k < close && sig[k].kind == Identifier && p == ParamOf(sig[k]);
    SignificantOnLine(toks, n, sig[k]);
    ParamTokenVarOk(toks, n, sig[k], f.name);
  }

  /** A parameter token of line `n` gives a good variable entry. */
  lemma ParamTokenVarOk(toks: seq<seq<Token>>, n: nat, t: Token, fname: string)
    requires n < |toks| && t.line == n
    requires t in Significant(toks[n]) && t.kind == Identifier
    ensures VarOk(ScopedKey(fname, t.value), ParamVar(fname, ParamOf(t)), toks, n + 1)
  {
    var v := ParamVar(fname, ParamOf(t));
    assert v.line == n;
    assert t in Significant(toks[v.line]) && t.value == v.name && t.col == v.col;
  }

  /** A significant token of line `n` lies on line `n`. */
  lemma SignificantOnLine(toks: seq<seq<Token>>, n: nat, t: Token)
    requires n < |toks| && TokensOnLines(toks)
    requires t in Significant(toks[n])
    ensures t.line == n
  {
    SignificantMembers(toks[n]);
    var i :| 0 <= i < |toks[n]| && toks[n][i] == t;
  }

  /** A parsed header on line `n` is a good entry of the first `n + 1` lines. */
  lemma HeaderFuncOk(toks: seq<seq<Token>>, indents: seq<nat>, n: nat, f: FuncDef)
    requires n < |toks| == |indents|
    requires StartsFunction(Significant(toks[n]))
    requires ParseFuncHeader(Significant(toks[n]), n, indents[n]) == Some(f)
    ensures FuncOk(f.name, f, toks, indents, n + 1)
  {
    assert f.(endLine := f.line) == f;
  }

  /** Registering the parameters of a header on line `n` keeps every
      variable entry good. */
  lemma HeaderVarsOk(vs: AList<string, VarDef>, fs: AList<string, FuncDef>, toks: seq<seq<Token>>, indents: seq<nat>, n: nat, f: FuncDef)
    requires n < |toks| == |indents| && TokensOnLines(toks)
    requires VarsOk(vs, fs, toks, n + 1)
    requires ParseFuncHeader(Significant(toks[n]), n, indents[n]) == Some(f)
    ensures VarsOk(RegisterParams(vs, f.name, f.params), Put(fs, f.name, f), toks, n + 1)
  {
    var fs' := Put(fs, f.name, f);
    var vs' := RegisterParams(vs, f.name, f.params);
    VarsOkPut(vs, fs, toks, n + 1, f);
    EntryOfPut(fs, f.name, f);
    EntryKey(fs', f.name, f);
    forall e | e in vs' ensures VarOk(e.0, e.1, toks, n + 1) && (e.1.scope == GlobalScope || e.1.scope in Keys(fs')) {
      if e !in vs {
        var p :| p in f.params && e == (ScopedKey(f.name, p.name), ParamVar(f.name, p));
        ParamVarOk(toks, indents, n, f, p, fs');
      }
    }
  }

  /** Registering the parameters of a stored header registers all of them. */
  lemma HeaderParamsRegistered(fs: AList<string, FuncDef>, vs: AList<string, VarDef>, f: FuncDef)
    requires ParamsRegistered(fs, vs)
    ensures ParamsRegistered(Put(fs, f.name, f), RegisterParams(vs, f.name, f.params))
  {
    var vs' := RegisterParams(vs, f.name, f.params);
    PrefixKeys(vs, vs');
    ParamsRegisteredPut(fs, vs', f);
  }

  /** A header read on line `n` becomes the open function. */
  lemma HeaderCurrentOk(fs: AList<string, FuncDef>, vs: AList<string, VarDef>, toks: seq<seq<Token>>, indents: seq<nat>, n: nat, f: FuncDef)
    requires n < |toks| == |indents| && f.line == n
    ensures CurrentOk(BuildState(Put(fs, f.name, f), vs, Some(f), indents[n]), toks, indents, n + 1)
  {
    EntryOfPut(fs, f.name, f);
  }

  /** A function header keeps the invariant. */
  lemma HeaderKeeps(st: BuildState, toks: seq<seq<Token>>, indents: seq<nat>, n: nat, f: FuncDef)
    requires Inv(st, toks, indents, n + 1) && n < |toks|
    requires StartsFunction(Significant(toks[n]))
    requires ParseFuncHeader(Significant(toks[n]), n, indents[n]) == Some(f)
    ensures Inv(BuildState(Put(st.functions, f.name, f), RegisterParams(st.variables, f.name, f.params), Some(f), indents[n]),
                toks, indents, n + 1)
  {
    HeaderFuncOk(toks, indents, n, f);
    FuncsOkPut(st.functions, toks, indents, n + 1, f);
    PutKeepsKeysUnique(st.functions, f.name, f);
    RegisterParamsKeepsKeysUnique(st.variables, f.name, f.params);
    HeaderVarsOk(st.variables, st.functions, toks, indents, n, f);
    HeaderParamsRegistered(st.functions, st.variables, f);
    HeaderCurrentOk(st.functions, RegisterParams(st.variables, f.name, f.params), toks, indents, n, f);
  }

  /** An assignment line keeps the invariant. */
  lemma AssignKeeps(st: BuildState, toks: seq<seq<Token>>, indents: seq<nat>, n: nat)
    requires Inv(st, toks, indents, n + 1) && n < |toks|
    ensures Inv(st.(variables := ExtractAssignment(Significant(toks[n]), n, st.current, st.variables)), toks, indents, n + 1)
  {
    var sig := Significant(toks[n]);
    var vs := ExtractAssignment(sig, n, st.current, st.variables);
    if IsAssignment(sig) {
      var key := VarKey(st.current, sig[0].value);
      var v := VarDef(sig[0].value, n, sig[0].col, ScopeOf(st.current));
      PutIfAbsentKeepsKeysUnique(st.variables, key, v);
      assert sig[0] in sig;
      assert VarOk(key, v, toks, n + 1);
      if st.current.Some? {
        EntryKey(st.functions, st.current.value.name, st.current.value);
      }
      PrefixKeys(st.variables, vs);
    }
  }

  /** One line of the walk keeps the invariant. */
  lemma StepKeeps(st: BuildState, toks: seq<seq<Token>>, indents: seq<nat>, n: nat)
    requires Inv(st, toks, indents, n) && n < |toks|
    ensures Inv(Step(st, n, Significant(toks[n]), indents[n]), toks, indents, n + 1)
  {
    var sig := Significant(toks[n]);
    if |sig| == 0 {
      FuncsOkGrow(st.functions, toks, indents, n);
      VarsOkGrow(st.variables, st.functions, toks, n);
    } else {
      CloseOrExtendKeeps(st, toks, indents, n);
      var st1 := CloseOrExtend(st, n, indents[n]);
      var header := if StartsFunction(sig) then ParseFuncHeader(sig, n, indents[n]) else None;
      if header.Some? {
        HeaderKeeps(st1, toks, indents, n, header.value);
      } else {
        AssignKeeps(st1, toks, indents, n);
      }
    }
  }

  /** The walk keeps the invariant to the end of the document. */
  lemma {:induction false} WalkKeeps(st: BuildState, toks: seq<seq<Token>>, indents: seq<nat>, i: nat)
    requires Inv(st, toks, indents, i)
    ensures Inv(Walk(st, toks, indents, i), toks, indents, |toks|)
    decreases |toks| - i
  {
    if i < |toks| {
      StepKeeps(st, toks, indents, i);
      WalkKeeps(Step(st, i, Significant(toks[i]), indents[i]), toks, indents, i + 1);
    }
  }

  /** Ending the open function on the last line keeps every entry good. */
  lemma FinishKeeps(st: BuildState, toks: seq<seq<Token>>, indents: seq<nat>)
    requires |toks| >= 1
    requires UniqueKeys(st.functions) && FuncsOk(st.functions, toks, indents, |toks|)
    requires VarsOk(st.variables, st.functions, toks, |toks|) && ParamsRegistered(st.functions, st.variables)
    requires CurrentOk(st, toks, indents, |toks|)
    ensures UniqueKeys(Finish(st, |toks|))
    ensures FuncsOk(Finish(st, |toks|), toks, indents, |toks|)
    ensures VarsOk(st.variables, Finish(st, |toks|), toks, |toks|)
    ensures ParamsRegistered(Finish(st, |toks|), st.variables)
  {
    if st.current.Some? {
      FinishOpenKeeps(st, toks, indents);
    } else {
      assert Finish(st, |toks|) == st.functions;
    }
  }

  /** Storing the function still open at the end keeps every entry good. */
  lemma FinishOpenKeeps(st: BuildState, toks: seq<seq<Token>>, indents: seq<nat>)
    requires |toks| >= 1 && st.current.Some?
    requires UniqueKeys(st.functions) && FuncsOk(st.functions, toks, indents, |toks|)
    requires VarsOk(st.variables, st.functions, toks, |toks|) && ParamsRegistered(st.functions, st.variables)
    requires CurrentOk(st, toks, indents, |toks|)
    ensures UniqueKeys(Finish(st, |toks|))
    ensures FuncsOk(Finish(st, |toks|), toks, indents, |toks|)
    ensures VarsOk(st.variables, Finish(st, |toks|), toks, |toks|)
    ensures ParamsRegistered(Finish(st, |toks|), st.variables)
  {
    var f := st.current.value;
    var f' := f.(endLine := |toks| - 1);
    OpenFunctionEndsAt(st, toks, indents, |toks|, f');
    StoreKeepsTables(st.functions, st.variables, toks, indents, |toks|, f, f');
    FinishStores(st, |toks|, f');
  }

  /** `Finish` stores the open function, ended on the last line. */
  lemma FinishStores(st: BuildState, lineCount: nat, f': FuncDef)
    requires st.current.Some? && f' == st.current.value.(endLine := lineCount - 1)
    ensures Finish(st, lineCount) == Put(st.functions, st.current.value.name, f')
  {
  }

  /** Everything a parsed document guarantees: the lines and their tokens
      and indentation agree, both tables have distinct keys, every function
      entry is a header with an indented body, every variable entry points
      at an identifier of its scope, and every parameter is registered. */
  ghost predicate WellFormed(d: ParsedDocument) {
    && |d.lines| >= 1
    && |d.tokens| == |d.lines| && |d.lineIndents| == |d.lines|
    && (forall i :: 0 <= i < |d.lines| ==>
          d.tokens[i] == Tokenize(d.lines[i], i) && d.lineIndents[i] == MeasureIndent(d.lines[i]))
    && TokensOnLines(d.tokens)
    && UniqueKeys(d.functions) && UniqueKeys(d.variables)
    && FuncsOk(d.functions, d.tokens, d.lineIndents, |d.lines|)
    && VarsOk(d.variables, d.functions, d.tokens, |d.lines|)
    && ParamsRegistered(d.functions, d.variables)
  }

  /** Every document the builder produces is well formed. */
  lemma ParseDocumentWellFormed(source: string)
    ensures WellFormed(ParseDocument(source))
  {
    var d := ParseDocument(source);
    var lines := d.lines;
    assert TokensOnLines(d.tokens) by {
      forall l, k | 0 <= l < |d.tokens| && 0 <= k < |d.tokens[l]| ensures d.tokens[l][k].line == l {
        assert TokenOf(d.tokens[l][k], lines[l], l);
      }
    }
    assert Inv(Start, d.tokens, d.lineIndents, 0);
    WalkKeeps(Start, d.tokens, d.lineIndents, 0);
    FinishKeeps(Walk(Start, d.tokens, d.lineIndents, 0), d.tokens, d.lineIndents);
  }

  /** The text each line's tokens spell out */
  function LineTexts(toks: seq<seq<Token>>): (texts: seq<string>)
    ensures |texts| == |toks|
    ensures forall i :: 0 <= i < |toks| ==> texts[i] == Concat(toks[i])
  {
    seq(|toks|, i requires 0 <= i < |toks| => Concat(toks[i]))
  }

  /** The document's tokens spell out the source: line by line they
      concatenate to the lines, and the lines joined by newlines are the
      source, less its final newline. */
  lemma DocumentRoundTrip(source: string)
    ensures LineTexts(ParseDocument(source).tokens) == SplitLines(source)
    ensures var text := Join(LineTexts(ParseDocument(source).tokens), '\n');
            (EndsWith(source, '\n') ==> text + "\n" == source) && (!EndsWith(source, '\n') ==> text == source)
  {
    var d := ParseDocument(source);
    LinesSpelled(d.tokens, d.lines);
    SplitLinesRejoin(source);
  }

  /** Lexed lines spell out the lines they were lexed from. */
  lemma LinesSpelled(toks: seq<seq<Token>>, lines: seq<string>)
    requires |toks| == |lines|
    requires forall i :: 0 <= i < |lines| ==> toks[i] == Tokenize(lines[i], i)
    ensures LineTexts(toks) == lines
  {
    forall i | 0 <= i < |toks| ensures Concat(toks[i]) == lines[i] {
      RoundTrip(lines[i], i);
    }
  }

  /** Line `l` holds a well-formed header of function `name`. */
  ghost predicate HeaderAt(toks: seq<seq<Token>>, indents: seq<nat>, l: nat, name: string) {
    && l < |toks| && l < |indents|
    && StartsFunction(Significant(toks[l]))
    && var h := ParseFuncHeader(Significant(toks[l]), l, indents[l]);
       h.Some? && h.value.name == name
  }

  /** A step never drops a function name. */
  lemma StepKeepsFunctionNames(st: BuildState, n: nat, sig: seq<Token>, indent: nat, k: string)
    requires k in Keys(st.functions)
    ensures k in Keys(Step(st, n, sig, indent).functions)
  {
    if |sig| > 0 {
      CloseOrExtendKeepsNames(st, n, indent, k);
      if StartsFunction(sig) && ParseFuncHeader(sig, n, indent).Some? {
        HeaderStepKeepsNames(st, n, sig, indent, k);
      } else {
        PlainStepKeepsNames(st, n, sig, indent, k);
      }
    }
  }

  /** A header line stores its function over the closed or extended table. */
  lemma HeaderStepKeepsNames(st: BuildState, n: nat, sig: seq<Token>, indent: nat, k: string)
    requires |sig| > 0 && StartsFunction(sig) && ParseFuncHeader(sig, n, indent).Some?
    requires k in Keys(CloseOrExtend(st, n, indent).functions)
    ensures k in Keys(Step(st, n, sig, indent).functions)
  {
    var st1 := CloseOrExtend(st, n, indent);
    var g := ParseFuncHeader(sig, n, indent).value;
    PutKeepsKeys(st1.functions, g.name, g, k);
    assert Step(st, n, sig, indent).functions == Put(st1.functions, g.name, g);
  }

  /** Any other significant line leaves the closed or extended table as it is. */
  lemma PlainStepKeepsNames(st: BuildState, n: nat, sig: seq<Token>, indent: nat, k: string)
    requires |sig| > 0 && !(StartsFunction(sig) && ParseFuncHeader(sig, n, indent).Some?)
    requires k in Keys(CloseOrExtend(st, n, indent).functions)
    ensures k in Keys(Step(st, n, sig, indent).functions)
  {
    assert Step(st, n, sig, indent).functions == CloseOrExtend(st, n, indent).functions;
  }

  /** Closing or extending the open function never drops a function name. */
  lemma CloseOrExtendKeepsNames(st: BuildState, n: nat, indent: nat, k: string)
    requires k in Keys(st.functions)
    ensures k in Keys(CloseOrExtend(st, n, indent).functions)
  {
    match st.current
    case None =>
    case Some(f) =>
      if indent <= st.funcIndent {
        PutKeepsKeys(st.functions, f.name, f.(endLine := n - 1), k);
      } else {
        PutKeepsKeys(st.functions, f.name, f.(endLine := n), k);
      }
  }

  /** Every well-formed header among the first `n` lines has an entry under its name. */
  ghost predicate HeadersIn(fs: AList<string, FuncDef>, toks: seq<seq<Token>>, indents: seq<nat>, n: nat) {
    forall l: nat, name :: l < n && HeaderAt(toks, indents, l, name) ==> name in Keys(fs)
  }

  /** A step records the header on its line, if any, and keeps the earlier names. */
  lemma StepRecordsHeader(st: BuildState, toks: seq<seq<Token>>, indents: seq<nat>, n: nat)
    requires n < |toks| == |indents|
    requires HeadersIn(st.functions, toks, indents, n)
    ensures HeadersIn(Step(st, n, Significant(toks[n]), indents[n]).functions, toks, indents, n + 1)
  {
    var sig := Significant(toks[n]);
    forall l: nat, name | l < n + 1 && HeaderAt(toks, indents, l, name)
      ensures name in Keys(Step(st, n, sig, indents[n]).functions)
    {
      if l < n {
        StepKeepsFunctionNames(st, n, sig, indents[n], name);
      } else {
        StepRecordsOwnHeader(st, n, sig, indents[n]);
      }
    }
  }

  /** A step over a well-formed header records it under its name. */
  lemma StepRecordsOwnHeader(st: BuildState, n: nat, sig: seq<Token>, indent: nat)
    requires StartsFunction(sig) && ParseFuncHeader(sig, n, indent).Some?
    ensures ParseFuncHeader(sig, n, indent).value.name in Keys(Step(st, n, sig, indent).functions)
  {
    var f := ParseFuncHeader(sig, n, indent).value;
    assert Step(st, n, sig, indent).functions == Put(CloseOrExtend(st, n, indent).functions, f.name, f);
  }

  /** The walk records every well-formed header. */
  lemma {:induction false} WalkRecordsHeaders(st: BuildState, toks: seq<seq<Token>>, indents: seq<nat>, i: nat)
    requires i <= |toks| == |indents|
    requires HeadersIn(st.functions, toks, indents, i)
    ensures HeadersIn(Walk(st, toks, indents, i).functions, toks, indents, |toks|)
    decreases |toks| - i
  {
    if i < |toks| {
      StepRecordsHeader(st, toks, indents, i);
      WalkRecordsHeaders(Step(st, i, Significant(toks[i]), indents[i]), toks, indents, i + 1);
    }
  }

  /** Every function entry comes from a well-formed header of its name. */
  lemma FunctionEntriesAreHeaders(d: ParsedDocument, name: string)
    requires WellFormed(d)
    requires name in Keys(d.functions)
    ensures exists l: nat :: l < |d.lines| && HeaderAt(d.tokens, d.lineIndents, l, name)
  {
    var i :| 0 <= i < |d.functions| && Keys(d.functions)[i] == name;
    var e := d.functions[i];
    assert e in d.functions;
    assert FuncOk(e.0, e.1, d.tokens, d.lineIndents, |d.lines|);
    assert HeaderAt(d.tokens, d.lineIndents, e.1.line, name);
  }

  /** The tables of a parsed document are those of the walk over its lines. */
  lemma ParseDocumentTables(source: string)
    ensures var d := ParseDocument(source);
            var st := Walk(Start, d.tokens, d.lineIndents, 0);
            d.functions == Finish(st, |d.lines|) && d.variables == st.variables
  {
  }

  /** Every well-formed header has a function entry once the walk is finished. */
  lemma WalkHeadersHaveEntries(toks: seq<seq<Token>>, indents: seq<nat>, l: nat, name: string)
    requires |toks| == |indents| && l < |toks| && HeaderAt(toks, indents, l, name)
    ensures name in Keys(Finish(Walk(Start, toks, indents, 0), |toks|))
  {
    var st := Walk(Start, toks, indents, 0);
    WalkRecordsHeaders(Start, toks, indents, 0);
    if st.current.Some? {
      var f := st.current.value;
      PutKeepsKeys(st.functions, f.name, f.(endLine := |toks| - 1), name);
    }
  }

  /** Every well-formed header of the document has a function entry. */
  lemma HeadersHaveEntries(source: string, l: nat, name: string)
    requires var d := ParseDocument(source); l < |d.lines| && HeaderAt(d.tokens, d.lineIndents, l, name)
    ensures name in Keys(ParseDocument(source).functions)
  {
    var d := ParseDocument(source);
    ParseDocumentTables(source);
    WalkHeadersHaveEntries(d.tokens, d.lineIndents, l, name);
  }

  /** The function table has an entry exactly for the names of the
      well-formed headers of the document. */
  lemma FunctionNamesAreHeaders(source: string, name: string)
    ensures var d := ParseDocument(source);
            name in Keys(d.functions) <==> exists l: nat :: l < |d.lines| && HeaderAt(d.tokens, d.lineIndents, l, name)
  {
    var d := ParseDocument(source);
    if name in Keys(d.functions) {
      ParseDocumentWellFormed(source);
      FunctionEntriesAreHeaders(d, name);
    }
    if exists l: nat :: l < |d.lines| && HeaderAt(d.tokens, d.lineIndents, l, name) {
      var l: nat :| l < |d.lines| && HeaderAt(d.tokens, d.lineIndents, l, name);
      HeadersHaveEntries(source, l, name);
    }
  }

  /** One line of the walk only appends variable entries. */
  lemma StepExtendsVariables(st: BuildState, n: nat, sig: seq<Token>, indent: nat)
    ensures IsPrefix(st.variables, Step(st, n, sig, indent).variables)
  {
    if |sig| > 0 {
      var st1 := CloseOrExtend(st, n, indent);
      assert st1.variables == st.variables;
    }
  }

  /** A walk never removes or changes a variable entry: every entry is the
      first assignment (or parameter) recorded under its key. */
  lemma {:induction false} VariablesOnlyGrow(st: BuildState, toks: seq<seq<Token>>, indents: seq<nat>, i: nat)
    requires i <= |toks| == |indents|
    ensures IsPrefix(st.variables, Walk(st, toks, indents, i).variables)
    decreases |toks| - i
  {
    if i < |toks| {
      var next := Step(st, i, Significant(toks[i]), indents[i]);
      StepExtendsVariables(st, i, Significant(toks[i]), indents[i]);
      VariablesOnlyGrow(next, toks, indents, i + 1);
      PrefixTrans(st.variables, next.variables, Walk(st, toks, indents, i).variables);
    } else {
      assert st.variables[..|st.variables|] == st.variables;
    }
  }
}
