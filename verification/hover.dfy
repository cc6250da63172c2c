/**
 * Hover: what the token under the cursor is. Vocabulary words show their
 * table entry, an identifier shows the user function of that name or else
 * the variable it refers to at the cursor's line, literals show their text;
 * operators, punctuation and comments show nothing.
 */
module Hover {
  import opened Wrappers
  import opened AssocList
  import opened Symbols
  import opened Lexer
  import opened Document
  import opened Lookup

  /** What a hover shows; the markdown the server renders from it is not modelled. */
  datatype HoverContent =
    | KeywordDoc(keyword: KeywordInfo)
    | BuiltinDoc(builtin: BuiltinInfo)
    | ConstantDoc(name: string, meaning: string)
    | LogicalOpDoc(name: string, meaning: string)
    | FunctionDoc(def: FuncDef)
    | VariableDoc(variable: VarDef)
    | StringDoc(text: string)
    | NumberDoc(text: string)

  datatype HoverInfo = HoverInfo(contents: HoverContent, range: Range)

  /** The content shown for token `t` at cursor line `line`, if any */
  function ContentFor(d: ParsedDocument, t: Token, line: int): Option<HoverContent> {
    match t.kind
    case Keyword =>
      (match KeywordEntry(t.value)
       case None => None
       case Some(kw) => Some(KeywordDoc(kw)))
    case Builtin =>
      (match BuiltinEntry(t.value)
       case None => None
       case Some(b) => Some(BuiltinDoc(b)))
    case Constant =>
      (match ConstantMeaning(t.value)
       case Some(desc) => if desc != "" then Some(ConstantDoc(t.value, desc)) else None
       case None => None)
    case LogicalOp =>
      (match LogicalOpMeaning(t.value)
       case Some(desc) => if desc != "" then Some(LogicalOpDoc(t.value, desc)) else None
       case None => None)
    case Identifier =>
      (match Get(d.functions, t.value)
       case Some(f) => Some(FunctionDoc(f))
       case None =>
         match FindVariable(d, t.value, line)
         case Some(v) => Some(VariableDoc(v))
         case None => None)
    case Str => Some(StringDoc(t.value))
    case Number => Some(NumberDoc(t.value))
    case _ => None
  }

  /** Content `c` describes token `t`: the table entry of its word, the user
      function of its name, the variable it refers to from `line`, or its
      literal text. */
  ghost predicate Describes(d: ParsedDocument, c: HoverContent, t: Token, line: int) {
    match c
    case KeywordDoc(kw) => t.kind == Keyword && kw in Keywords && kw.name == t.value
    case BuiltinDoc(b) => t.kind == Builtin && b in Builtins && b.name == t.value
    case ConstantDoc(n, m) => t.kind == Constant && (n, m) in Constants && n == t.value && m != ""
    case LogicalOpDoc(n, m) => t.kind == LogicalOp && (n, m) in LogicalOps && n == t.value && m != ""
    case FunctionDoc(f) => t.kind == Identifier && (t.value, f) in d.functions
    case VariableDoc(v) =>
      && t.kind == Identifier && t.value !in Keys(d.functions)
      && FindVariable(d, t.value, line) == Some(v)
    case StringDoc(s) => t.kind == Str && s == t.value
    case NumberDoc(s) => t.kind == Number && s == t.value
  }

  /** `provide_hover` */
  function ProvideHover(d: ParsedDocument, pos: Position): (r: Option<HoverInfo>)
    ensures r.Some? ==>
      && TokenAt(d, pos).Some?
      && var t := TokenAt(d, pos).value;
      && Describes(d, r.value.contents, t, pos.line)
      && r.value.range == Span(t.line, t.col, t.endCol - t.col)
      && r.value.range.startChar <= pos.character < r.value.range.endChar
  {
    match TokenAt(d, pos)
    case None => None
    case Some(t) =>
      ContentDescribes(d, t, pos.line);
      match ContentFor(d, t, pos.line)
      case None => None
      case Some(c) => Some(HoverInfo(c, Span(t.line, t.col, t.endCol - t.col)))
  }

  /** The content found for a token describes it. */
  lemma ContentDescribes(d: ParsedDocument, t: Token, line: int)
    ensures ContentFor(d, t, line).Some? ==> Describes(d, ContentFor(d, t, line).value, t, line)
  {
  }

  /** A word the lexer classified as a keyword, built-in, constant or logical
      operator is in that vocabulary, so it always has an entry to show. */
  lemma VocabularyEntry(text: string, line: nat, t: Token)
    requires t in Tokenize(text, line)
    ensures t.kind == Keyword ==> t.value in KeywordNames
    ensures t.kind == Builtin ==> t.value in BuiltinNames
    ensures t.kind == Constant ==> t.value in ConstantNames
    ensures t.kind == LogicalOp ==> t.value in LogicalOpNames
  {
    var toks := Tokenize(text, line);
    var k :| 0 <= k < |toks| && toks[k] == t;
    assert TokenOf(t, text, line);
    WordsClassified(text, line, k);
    WordKindExact(t.value);
  }

  /** Every constant and logical operator has a description to show. */
  lemma MeaningsNonEmpty()
    ensures forall c :: c in Constants ==> c.1 != ""
    ensures forall o :: o in LogicalOps ==> o.1 != ""
  {
  }

  /** On a lexed line, a hover appears exactly over a word of the four
      vocabularies, a string or number literal, or an identifier naming a
      user function or a variable visible from the cursor's line. */
  lemma HoverExact(d: ParsedDocument, pos: Position)
    requires pos.line < |d.tokens| && pos.line < |d.lines|
    requires d.tokens[pos.line] == Tokenize(d.lines[pos.line], pos.line)
    ensures ProvideHover(d, pos).Some? <==>
      && TokenAt(d, pos).Some?
      && var t := TokenAt(d, pos).value;
      || t.kind in {Keyword, Builtin, Constant, LogicalOp, Str, Number}
      || (t.kind == Identifier && (t.value in Keys(d.functions) || FindVariable(d, t.value, pos.line).Some?))
  {
    if TokenAt(d, pos).Some? {
      var t := TokenAt(d, pos).value;
      VocabularyEntry(d.lines[pos.line], pos.line, t);
      ContentExists(d, t, pos.line);
      assert ProvideHover(d, pos).Some? <==> ContentFor(d, t, pos.line).Some?;
    }
  }

  /** A token whose word is in its vocabulary has content exactly when it
      is a vocabulary word, a literal, or a known identifier. */
  lemma ContentExists(d: ParsedDocument, t: Token, line: int)
    requires t.kind == Keyword ==> t.value in KeywordNames
    requires t.kind == Builtin ==> t.value in BuiltinNames
    requires t.kind == Constant ==> t.value in ConstantNames
    requires t.kind == LogicalOp ==> t.value in LogicalOpNames
    ensures ContentFor(d, t, line).Some? <==>
      || t.kind in {Keyword, Builtin, Constant, LogicalOp, Str, Number}
      || (t.kind == Identifier && (t.value in Keys(d.functions) || FindVariable(d, t.value, line).Some?))
  {
    MeaningsNonEmpty();
  }

  /** In a well-formed document the hover range is on the cursor's line. */
  lemma HoverOnCursorLine(d: ParsedDocument, pos: Position)
    requires TokensOnLines(d.tokens)
    requires ProvideHover(d, pos).Some?
    ensures ProvideHover(d, pos).value.range.startLine == pos.line
  {
    var t := TokenAt(d, pos).value;
    var k :| 0 <= k < |d.tokens[pos.line]| && d.tokens[pos.line][k] == t;
  }
}
