/**
 * Semantic-token highlighting. Every token of the document that carries a
 * meaning is classified against a fixed legend and emitted as five
 * integers relative to the token before it, following the integer encoding
 * of semantic tokens in the Language Server Protocol 3.17: the line delta,
 * the start column (relative to the previous token's start on the same
 * line, absolute on a new line), the length, the legend index and the
 * modifier bits.
 */
module SemanticTokens {
  import opened Wrappers
  import opened AssocList
  import opened Lexer
  import opened Document

  /** The token types the server announces, indexed by the encoded type */
  const Legend: seq<string> :=
    ["keyword", "function", "variable", "number", "string", "comment", "operator", "parameter", "enumMember"]

  /** The modifiers the server announces; no token uses any of them. */
  const ModifierLegend: seq<string> := ["declaration", "definition", "readonly"]

  /** The kinds that never produce a highlighted token */
  predicate Skipped(k: TokenKind) {
    k in {Whitespace, ParenOpen, ParenClose, BracketOpen, BracketClose, Comma, Colon, Unknown}
  }

  /** The default legend index of each lexer kind, where it has one */
  function TypeIndex(k: TokenKind): Option<nat> {
    match k
    case Keyword => Some(0)
    case Builtin => Some(1)
    case Identifier => Some(2)
    case Number => Some(3)
    case Str => Some(4)
    case Comment => Some(5)
    case Operator => Some(6)
    case LogicalOp => Some(6)
    case Constant => Some(8)
    case _ => None
  }

  /** The parameter names of every function of the table, in one set */
  function ParamNames(fs: AList<string, FuncDef>): (r: set<string>)
    ensures forall i, j :: 0 <= i < |fs| && 0 <= j < |fs[i].1.params| ==> fs[i].1.params[j].name in r
    ensures forall n :: n in r ==> exists i, j :: 0 <= i < |fs| && 0 <= j < |fs[i].1.params| && fs[i].1.params[j].name == n
    decreases |fs|
  {
    if |fs| == 0 then {}
    else
      var rest := ParamNames(fs[1..]);
      var here := set p | p in fs[0].1.params :: p.name;
      assert forall i :: 0 < i < |fs| ==> fs[i] == fs[1..][i - 1];
      here + rest
  }

  /** The legend index of one token, or `None` when it is not highlighted:
      an identifier naming a function is highlighted as a function, one
      naming a parameter of any function as a parameter. */
  function Classify(t: Token, funcs: seq<string>, params: set<string>): Option<nat> {
    if Skipped(t.kind) then None
    else match TypeIndex(t.kind)
      case None => None
      case Some(k) =>
        if t.kind == Identifier then
          if t.value in funcs then Some(1)
          else if t.value in params then Some(7)
          else Some(k)
        else Some(k)
  }

  /** What each token means to an editor, named as in the legend */
  function Role(t: Token, funcs: seq<string>, params: set<string>): Option<string> {
    match t.kind
    case Keyword => Some("keyword")
    case Builtin => Some("function")
    case Identifier =>
      Some(if t.value in funcs then "function" else if t.value in params then "parameter" else "variable")
    case Number => Some("number")
    case Str => Some("string")
    case Comment => Some("comment")
    case Operator => Some("operator")
    case LogicalOp => Some("operator")
    case Constant => Some("enumMember")
    case _ => None
  }

  /** Every kind that is not skipped has a legend index, so a token is
      highlighted exactly when it has a role, and its index names that role
      in the legend. */
  lemma ClassifyMeansRole(t: Token, funcs: seq<string>, params: set<string>)
    ensures Classify(t, funcs, params).Some? <==> !Skipped(t.kind)
    ensures Classify(t, funcs, params).Some? <==> Role(t, funcs, params).Some?
    ensures Classify(t, funcs, params).Some? ==>
      Classify(t, funcs, params).value < |Legend|
      && Legend[Classify(t, funcs, params).value] == Role(t, funcs, params).value
  {
  }

  /** No two entries of the legend are equal, so a role has one index. */
  lemma LegendDistinct()
    ensures forall i, j :: 0 <= i < j < |Legend| ==> Legend[i] != Legend[j]
  {
  }

  /** A highlighted token with its legend index */
  datatype Emit = Emit(token: Token, typ: nat)

  /** The highlighted tokens of `toks`, in order: every emitted token is
      classified, and every classified token is emitted */
  function Emitted(toks: seq<Token>, funcs: seq<string>, params: set<string>): (r: seq<Emit>)
    ensures |r| <= |toks|
    ensures forall e :: e in r ==> e.token in toks && Classify(e.token, funcs, params) == Some(e.typ)
    ensures forall i :: 0 <= i < |toks| && Classify(toks[i], funcs, params).Some? ==>
      Emit(toks[i], Classify(toks[i], funcs, params).value) in r
    decreases |toks|
  {
    if |toks| == 0 then []
    else
      var init := toks[..|toks| - 1];
      var rest := Emitted(init, funcs, params);
      var t := toks[|toks| - 1];
      assert forall u :: u in init ==> u in toks;
      match Classify(t, funcs, params)
      case None => rest
      case Some(k) => rest + [Emit(t, k)]
  }

  /** Emission distributes over concatenation, so the highlighted tokens
      keep the order of the document's tokens. */
  lemma {:induction false} EmittedAppend(a: seq<Token>, b: seq<Token>, funcs: seq<string>, params: set<string>)
    ensures Emitted(a + b, funcs, params) == Emitted(a, funcs, params) + Emitted(b, funcs, params)
    decreases |b|
  {
    if |b| == 0 {
      assert a + b == a;
    } else {
      var b' := b[..|b| - 1];
      assert (a + b)[..|a + b| - 1] == a + b';
      assert (a + b)[|a + b| - 1] == b[|b| - 1];
      EmittedAppend(a, b', funcs, params);
    }
  }

  /** The encoder's state: the integers so far and the position of the last
      token emitted (line 0, column 0 before the first) */
  datatype Enc = Enc(data: seq<int>, prevLine: int, prevCol: int)

  /** One token's turn: skipped, or five integers relative to the last
      emitted token. The column is absolute when the line changes. */
  function EncodeToken(e: Enc, t: Token, funcs: seq<string>, params: set<string>): Enc {
    match Classify(t, funcs, params)
    case None => e
    case Some(k) =>
      var deltaLine := t.line - e.prevLine;
      var deltaCol := if deltaLine > 0 then t.col else t.col - e.prevCol;
      Enc(e.data + [deltaLine, deltaCol, t.endCol - t.col, k, 0], t.line, t.col)
  }

  /** The encoder run over `toks` from the start state */
  function Encode(toks: seq<Token>, funcs: seq<string>, params: set<string>): (e: Enc)
    ensures |e.data| == 5 * |Emitted(toks, funcs, params)|
    ensures var em := Emitted(toks, funcs, params);
            if |em| == 0 then e.prevLine == 0 && e.prevCol == 0
            else e.prevLine == em[|em| - 1].token.line && e.prevCol == em[|em| - 1].token.col
    decreases |toks|
  {
    if |toks| == 0 then Enc([], 0, 0)
    else EncodeToken(Encode(toks[..|toks| - 1], funcs, params), toks[|toks| - 1], funcs, params)
  }

  /** Integers `5k .. 5k + 5` of the data: the quintuple of the `k`th token */
  function Quintuple(data: seq<int>, k: nat): seq<int>
    requires 5 * k + 5 <= |data|
  {
    data[5 * k .. 5 * k + 5]
  }

  /** A token as a client reconstructs it: its line, start column, length
      and legend index */
  datatype Decoded = Decoded(line: int, col: int, length: int, typ: int)

  /** The client's decoding of the data: line deltas are summed, and the
      column restarts from 0 whenever the line changes. Also yields the
      position of the last token decoded. */
  function DecodeAll(data: seq<int>): (seq<Decoded>, int, int)
    decreases |data|
  {
    if |data| < 5 then ([], 0, 0)
    else
      var prior := DecodeAll(data[..|data| - 5]);
      var q := data[|data| - 5..];
      var line := prior.1 + q[0];
      var col := if q[0] == 0 then prior.2 + q[1] else q[1];
      (prior.0 + [Decoded(line, col, q[2], q[3])], line, col)
  }

  function Decode(data: seq<int>): seq<Decoded> {
    DecodeAll(data).0
  }

  /** What decoding the highlighted tokens must give back */
  function Expected(em: seq<Emit>): (r: seq<Decoded>)
    ensures |r| == |em|
  {
    seq(|em|, i requires 0 <= i < |em| => Decoded(em[i].token.line, em[i].token.col, em[i].token.endCol - em[i].token.col, em[i].typ))
  }

  /** Tokens come line by line: no token is on an earlier line than one
      before it. */
  ghost predicate LinesInOrder(toks: seq<Token>) {
    forall i, j :: 0 <= i < j < |toks| ==> toks[i].line <= toks[j].line
  }

  /** Decoding five more integers appends one token to what the prefix
      decodes to. */
  lemma DecodeSnoc(data: seq<int>, q: seq<int>)
    requires |q| == 5
    ensures var prior := DecodeAll(data);
            var line := prior.1 + q[0];
            var col := if q[0] == 0 then prior.2 + q[1] else q[1];
            DecodeAll(data + q) == (prior.0 + [Decoded(line, col, q[2], q[3])], line, col)
  {
    assert (data + q)[..|data + q| - 5] == data;
    assert (data + q)[|data + q| - 5..] == q;
  }

  /** The last token emitted so far is on a line no later than any token
      still to come. */
  lemma LastEmittedLine(toks: seq<Token>, funcs: seq<string>, params: set<string>, t: Token)
    requires LinesInOrder(toks + [t])
    ensures Encode(toks, funcs, params).prevLine <= t.line
  {
    var em := Emitted(toks, funcs, params);
    if |em| > 0 {
      var last := em[|em| - 1].token;
      assert last in toks;
      var i :| 0 <= i < |toks| && toks[i] == last;
      assert (toks + [t])[i] == last && (toks + [t])[|toks|] == t;
    }
  }

  /** The quintuple a highlighted token of type `k` adds after state `e` */
  function QuintupleOf(e: Enc, t: Token, k: nat): seq<int> {
    var deltaLine := t.line - e.prevLine;
    var deltaCol := if deltaLine > 0 then t.col else t.col - e.prevCol;
    [deltaLine, deltaCol, t.endCol - t.col, k, 0]
  }

  lemma EncodeTokenSome(e: Enc, t: Token, funcs: seq<string>, params: set<string>, k: nat)
    requires Classify(t, funcs, params) == Some(k)
    ensures EncodeToken(e, t, funcs, params) == Enc(e.data + QuintupleOf(e, t, k), t.line, t.col)
  {
  }

  lemma EmittedSnoc(init: seq<Token>, t: Token, funcs: seq<string>, params: set<string>)
    ensures Emitted(init + [t], funcs, params) ==
      match Classify(t, funcs, params)
      case None => Emitted(init, funcs, params)
      case Some(k) => Emitted(init, funcs, params) + [Emit(t, k)]
  {
    assert (init + [t])[..|init + [t]| - 1] == init;
  }

  /** A client decoding a token's quintuple after the data of state `e`
      recovers the token, when the token is on no earlier line than the
      last one emitted and the data decodes to that position. */
  lemma DecodeQuintuple(e: Enc, t: Token, k: nat)
    requires DecodeAll(e.data).1 == e.prevLine && DecodeAll(e.data).2 == e.prevCol
    requires e.prevLine <= t.line
    ensures DecodeAll(e.data + QuintupleOf(e, t, k)) ==
      (DecodeAll(e.data).0 + [Decoded(t.line, t.col, t.endCol - t.col, k)], t.line, t.col)
  {
    var q := QuintupleOf(e, t, k);
    DecodeSnoc(e.data, q);
  }

  /** Encoding a highlighted token after the others appends its quintuple,
      and decoding the result reproduces it, provided it is on no earlier
      line than the last token emitted. */
  lemma EncodeSnocDecodes(init: seq<Token>, t: Token, funcs: seq<string>, params: set<string>, k: nat)
    requires Classify(t, funcs, params) == Some(k)
    requires var e := Encode(init, funcs, params);
      DecodeAll(e.data) == (Expected(Emitted(init, funcs, params)), e.prevLine, e.prevCol)
    requires Encode(init, funcs, params).prevLine <= t.line
    ensures var e := Encode(init + [t], funcs, params);
            DecodeAll(e.data) == (Expected(Emitted(init + [t], funcs, params)), e.prevLine, e.prevCol)
  {
    var e := Encode(init, funcs, params);
    var em := Emitted(init, funcs, params);
    EncodeSnoc(init, t, funcs, params);
    EncodeTokenSome(e, t, funcs, params, k);
    EmittedSnoc(init, t, funcs, params);
    DecodeQuintuple(e, t, k);
    ExpectedSnoc(em, Emit(t, k));
  }

  /** Decoding the encoder's output gives back every highlighted token's
      position, length and type, in order, whenever tokens come line by line. */
  lemma {:induction false} DecodeEncode(toks: seq<Token>, funcs: seq<string>, params: set<string>)
    requires LinesInOrder(toks)
    ensures var e := Encode(toks, funcs, params);
            DecodeAll(e.data) == (Expected(Emitted(toks, funcs, params)), e.prevLine, e.prevCol)
    decreases |toks|
  {
    if |toks| > 0 {
      var init := toks[..|toks| - 1];
      var t := toks[|toks| - 1];
      assert toks == init + [t];
      assert LinesInOrder(init);
      DecodeEncode(init, funcs, params);
      match Classify(t, funcs, params)
      case None =>
        EncodeSnoc(init, t, funcs, params);
        EmittedSnoc(init, t, funcs, params);
      case Some(k) =>
        LastEmittedLine(init, funcs, params, t);
        EncodeSnocDecodes(init, t, funcs, params, k);
    }
  }

  lemma ExpectedSnoc(em: seq<Emit>, x: Emit)
    ensures Expected(em + [x]) == Expected(em) + [Decoded(x.token.line, x.token.col, x.token.endCol - x.token.col, x.typ)]
  {
  }

  /** The client decodes exactly the highlighted tokens. */
  lemma RoundTrip(toks: seq<Token>, funcs: seq<string>, params: set<string>)
    requires LinesInOrder(toks)
    ensures Decode(Encode(toks, funcs, params).data) == Expected(Emitted(toks, funcs, params))
  {
    DecodeEncode(toks, funcs, params);
  }

  /** Encoding one more token continues from the state the others left. */
  lemma EncodeSnoc(toks: seq<Token>, t: Token, funcs: seq<string>, params: set<string>)
    ensures Encode(toks + [t], funcs, params) == EncodeToken(Encode(toks, funcs, params), t, funcs, params)
  {
    assert (toks + [t])[..|toks + [t]| - 1] == toks;
  }

  /** The inner loop of `provide_semantic_tokens`: one line's tokens, in
      column order, continuing from the state the earlier lines left */
  method EncodeLine(e0: Enc, seen: seq<Token>, line: seq<Token>, funcs: seq<string>, params: set<string>) returns (e: Enc)
    requires e0 == Encode(seen, funcs, params)
    ensures e == Encode(seen + line, funcs, params)
  {
    e := e0;
    var k := 0;
    assert seen + line[..0] == seen;
    while k < |line|
      invariant 0 <= k <= |line|
      invariant e == Encode(seen + line[..k], funcs, params)
    {
      EncodeSnoc(seen + line[..k], line[k], funcs, params);
      PrefixSnoc(seen, line, k);
      e := EncodeToken(e, line[k], funcs, params);
      k := k + 1;
    }
    assert line[..k] == line;
  }

  lemma PrefixSnoc(seen: seq<Token>, line: seq<Token>, k: nat)
    requires k < |line|
    ensures seen + line[..k] + [line[k]] == seen + line[..k + 1]
  {
    assert line[..k + 1] == line[..k] + [line[k]];
  }

  /** `provide_semantic_tokens`: the document's tokens, line after line,
      encoded; an identifier is a function when it names a key of the
      function table and a parameter when it names a parameter of any. */
  method ProvideSemanticTokens(d: ParsedDocument) returns (data: seq<int>)
    ensures data == Encode(Flatten(d.tokens), Keys(d.functions), ParamNames(d.functions)).data
  {
    var funcs := Keys(d.functions);
    var params := ParamNames(d.functions);
    var e := Enc([], 0, 0);
    var l := 0;
    while l < |d.tokens|
      invariant 0 <= l <= |d.tokens|
      invariant e == Encode(Flatten(d.tokens[..l]), funcs, params)
    {
      e := EncodeLine(e, Flatten(d.tokens[..l]), d.tokens[l], funcs, params);
      FlattenSnoc(d.tokens, l);
      l := l + 1;
    }
    assert d.tokens[..l] == d.tokens;
    data := e.data;
  }

  /** The lines' tokens in order, as the nested loops visit them */
  function Flatten(tss: seq<seq<Token>>): seq<Token>
    decreases |tss|
  {
    if |tss| == 0 then [] else Flatten(tss[..|tss| - 1]) + tss[|tss| - 1]
  }

  lemma FlattenSnoc(tss: seq<seq<Token>>, l: nat)
    requires l < |tss|
    ensures Flatten(tss[..l + 1]) == Flatten(tss[..l]) + tss[l]
  {
    assert tss[..l + 1][..l] == tss[..l];
  }

  // ---------------------------------------------------------------------
  // The encoding of a document

  /** Token `a` starts strictly before token `b` in reading order */
  predicate Before(a: Token, b: Token) {
    a.line < b.line || (a.line == b.line && a.col < b.col)
  }

  /** Tokens in strict reading order, none of them empty */
  ghost predicate Ordered(toks: seq<Token>) {
    && (forall i, j :: 0 <= i < j < |toks| ==> Before(toks[i], toks[j]))
    && (forall i :: 0 <= i < |toks| ==> toks[i].col < toks[i].endCol)
  }

  /** Every token sits on line `line`. */
  ghost predicate OnLine(toks: seq<Token>, line: nat) {
    forall i :: 0 <= i < |toks| ==> toks[i].line == line
  }

  /** Tokens tiling a line are in reading order, not empty, and on that
      line. */
  lemma TilesOrdered(toks: seq<Token>, text: string, line: nat)
    requires Tiles(toks, text, line, 0)
    ensures Ordered(toks) && OnLine(toks, line)
  {
    forall i, j | 0 <= i < j < |toks| ensures Before(toks[i], toks[j]) {
      ColumnsIncrease(toks, text, line, 0, i, j);
    }
  }

  /** Lines of ordered tokens, each token on its own line, flatten to
      ordered tokens, all on lines before `|tss|`. */
  lemma {:induction false} FlattenOrdered(tss: seq<seq<Token>>)
    requires forall l :: 0 <= l < |tss| ==> Ordered(tss[l]) && OnLine(tss[l], l)
    ensures Ordered(Flatten(tss))
    ensures forall i :: 0 <= i < |Flatten(tss)| ==> Flatten(tss)[i].line < |tss|
    decreases |tss|
  {
    if |tss| > 0 {
      var n := |tss| - 1;
      var init := tss[..n];
      FlattenOrdered(init);
      var a := Flatten(init);
      var b := tss[n];
      assert Flatten(tss) == a + b;
      forall i, j | 0 <= i < j < |a + b| ensures Before((a + b)[i], (a + b)[j]) {
        if j < |a| {
          assert (a + b)[i] == a[i] && (a + b)[j] == a[j];
        } else if i >= |a| {
          assert (a + b)[i] == b[i - |a|] && (a + b)[j] == b[j - |a|];
        } else {
          assert (a + b)[i] == a[i] && (a + b)[j] == b[j - |a|];
        }
      }
      forall i | 0 <= i < |a + b| ensures (a + b)[i].col < (a + b)[i].endCol && (a + b)[i].line < |tss| {
        if i < |a| {
          assert (a + b)[i] == a[i];
        } else {
          assert (a + b)[i] == b[i - |a|];
        }
      }
    }
  }

  /** What each quintuple of well-placed data satisfies: lines never go
      back, a column within the same line moves strictly forward (the very
      first token excepted, which is relative to column 0), lengths are
      positive, the type is in the legend and no modifier is set. */
  predicate QuintupleFits(q: seq<int>, notFirst: bool)
    requires |q| == 5
  {
    && q[0] >= 0 && q[1] >= 0 && q[2] > 0 && 0 <= q[3] < |Legend| && q[4] == 0
    && (notFirst && q[0] == 0 ==> q[1] > 0)
  }

  lemma QuintupleSnoc(data: seq<int>, q: seq<int>, k: nat)
    requires 5 * k + 5 <= |data| && |q| == 5
    ensures Quintuple(data + q, k) == Quintuple(data, k)
  {
  }

  lemma QuintupleLast(data: seq<int>, q: seq<int>, n: nat)
    requires |data| == 5 * n && |q| == 5
    ensures Quintuple(data + q, n) == q
  {
  }

  /** A non-empty token of a legend type, placed after the last token
      emitted (or first of all), gets a quintuple that fits. */
  lemma QuintupleOfFits(e: Enc, t: Token, k: nat, first: bool)
    requires k < |Legend| && t.col < t.endCol
    requires first ==> e.prevLine == 0 && e.prevCol == 0
    requires !first ==> e.prevLine < t.line || (e.prevLine == t.line && e.prevCol < t.col)
    ensures QuintupleFits(QuintupleOf(e, t, k), !first)
  {
  }

  /** Encoding tokens in reading order yields quintuples that all fit. */
  lemma {:induction false} DeltasFit(toks: seq<Token>, funcs: seq<string>, params: set<string>)
    requires Ordered(toks)
    ensures var data := Encode(toks, funcs, params).data;
            forall k :: 0 <= k < |Emitted(toks, funcs, params)| ==> QuintupleFits(Quintuple(data, k), k > 0)
    decreases |toks|
  {
    if |toks| > 0 {
      var init := toks[..|toks| - 1];
      var t := toks[|toks| - 1];
      assert toks == init + [t];
      assert Ordered(init);
      DeltasFit(init, funcs, params);
      EncodeSnoc(init, t, funcs, params);
      EmittedSnoc(init, t, funcs, params);
      match Classify(t, funcs, params)
      case None =>
      case Some(k) =>
        var e := Encode(init, funcs, params);
        var n := |Emitted(init, funcs, params)|;
        EncodeTokenSome(e, t, funcs, params, k);
        ClassifyMeansRole(t, funcs, params);
        LastEmittedBefore(init, funcs, params, t);
        var q := QuintupleOf(e, t, k);
        assert Encode(toks, funcs, params).data == e.data + q;
        assert |Emitted(toks, funcs, params)| == n + 1;
        forall j | 0 <= j < n + 1 ensures QuintupleFits(Quintuple(e.data + q, j), j > 0) {
          if j < n {
            QuintupleSnoc(e.data, q, j);
          } else {
            QuintupleLast(e.data, q, n);
            QuintupleOfFits(e, t, k, n == 0);
          }
        }
    }
  }

  /** The last token emitted so far starts before any token still to come. */
  lemma LastEmittedBefore(toks: seq<Token>, funcs: seq<string>, params: set<string>, t: Token)
    requires Ordered(toks + [t])
    ensures var e := Encode(toks, funcs, params);
            |Emitted(toks, funcs, params)| > 0 ==> (e.prevLine < t.line || (e.prevLine == t.line && e.prevCol < t.col))
    ensures t.col < t.endCol
  {
    var em := Emitted(toks, funcs, params);
    assert (toks + [t])[|toks|] == t;
    if |em| > 0 {
      var last := em[|em| - 1].token;
      assert last in toks;
      var i :| 0 <= i < |toks| && toks[i] == last;
      assert (toks + [t])[i] == last;
    }
  }

  /** The tokens of a document read from source text, line after line,
      are in reading order. */
  lemma DocumentOrdered(source: string)
    ensures Ordered(Flatten(ParseDocument(source).tokens))
  {
    var d := ParseDocument(source);
    LinesTiled(d.tokens, d.lines);
    LinesOrdered(d.tokens, d.lines);
  }

  /** Tiled lines, flattened, are in reading order. */
  lemma LinesOrdered(toks: seq<seq<Token>>, lines: seq<string>)
    requires |toks| == |lines|
    requires forall i :: 0 <= i < |lines| ==> Tiles(toks[i], lines[i], i, 0)
    ensures Ordered(Flatten(toks))
  {
    forall l | 0 <= l < |toks| ensures Ordered(toks[l]) && OnLine(toks[l], l) {
      TilesOrdered(toks[l], lines[l], l);
    }
    FlattenOrdered(toks);
  }

  /** What a client may rely on in the encoding of `toks`: five integers
      per highlighted token, every quintuple well placed, and decoding gives
      back exactly the highlighted tokens. */
  ghost predicate FaithfulEncoding(toks: seq<Token>, funcs: seq<string>, params: set<string>) {
    var data := Encode(toks, funcs, params).data;
    var em := Emitted(toks, funcs, params);
    && |data| == 5 * |em|
    && Decode(data) == Expected(em)
    && forall k :: 0 <= k < |em| ==> QuintupleFits(Quintuple(data, k), k > 0)
  }

  /** Tokens in reading order are encoded faithfully. */
  lemma OrderedEncoding(toks: seq<Token>, funcs: seq<string>, params: set<string>)
    requires Ordered(toks)
    ensures FaithfulEncoding(toks, funcs, params)
  {
    RoundTrip(toks, funcs, params);
    DeltasFit(toks, funcs, params);
  }

  /** The semantic tokens of a document read from source text are encoded
      faithfully. */
  lemma DocumentEncoding(source: string)
    ensures var d := ParseDocument(source);
            FaithfulEncoding(Flatten(d.tokens), Keys(d.functions), ParamNames(d.functions))
  {
    var d := ParseDocument(source);
    DocumentOrdered(source);
    OrderedEncoding(Flatten(d.tokens), Keys(d.functions), ParamNames(d.functions));
  }
}
