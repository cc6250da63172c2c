/**
 * The SansScript lexer: one line of text becomes a sequence of classified
 * tokens that tile the line exactly, whitespace and comments included.
 * Lexing never fails; a character no rule claims becomes a one-character
 * `Unknown` token.
 */
module Lexer {
  import opened Wrappers
  import opened Symbols

  datatype TokenKind =
    | Keyword | Builtin | Constant | LogicalOp | Identifier
    | Number | Str | Operator
    | ParenOpen | ParenClose | BracketOpen | BracketClose
    | Comma | Colon | Comment | Whitespace | Unknown

  /** A token of line `line` covering columns `[col, endCol)` */
  datatype Token = Token(kind: TokenKind, value: string, line: nat, col: nat, endCol: nat)

  // Character classes (code-point ranges of the lexer's regular expressions)

  predicate IsDevanagari(c: char) { '\U{0900}' <= c <= '\U{097F}' }

  predicate IsDevanagariDigit(c: char) { '\U{0966}' <= c <= '\U{096F}' }

  predicate IsAsciiLetter(c: char) { ('a' <= c <= 'z') || ('A' <= c <= 'Z') }

  predicate IsAsciiDigit(c: char) { '0' <= c <= '9' }

  /** First character of a word: Devanagari block, underscore, ASCII letter */
  predicate IsIdentStart(c: char) { IsDevanagari(c) || c == '_' || IsAsciiLetter(c) }

  /** Later characters of a word: start characters and both digit sets */
  predicate IsIdentPart(c: char) { IsIdentStart(c) || IsAsciiDigit(c) || IsDevanagariDigit(c) }

  /** Characters of a number literal (start and continuation alike) */
  predicate IsDigit(c: char) { IsAsciiDigit(c) || IsDevanagariDigit(c) }

  /** Characters of a whitespace run */
  predicate IsBlank(c: char) { c == ' ' || c == '\t' }

  const DoubleOperators: set<string> := {"==", "!=", "<=", ">="}
  const SingleOperators: set<char> := {'+', '-', '*', '/', '%', '=', '<', '>'}

  /** The character classes a run can extend over */
  datatype RunClass = Blanks | NonQuotes | Digits | WordChars

  predicate InClass(c: char, cls: RunClass) {
    match cls
    case Blanks => IsBlank(c)
    case NonQuotes => c != '"'
    case Digits => IsDigit(c)
    case WordChars => IsIdentPart(c)
  }

  /** End of the maximal run of `cls` characters starting at `i` */
  function RunEnd(text: string, i: nat, cls: RunClass): (j: nat)
    requires i <= |text|
    ensures i <= j <= |text|
    ensures forall k :: i <= k < j ==> InClass(text[k], cls)
    ensures j == |text| || !InClass(text[j], cls)
    decreases |text| - i
  {
    if i < |text| && InClass(text[i], cls) then RunEnd(text, i + 1, cls) else i
  }

  /** A run end is determined by the two conditions that characterise it. */
  lemma RunEndUnique(text: string, i: nat, cls: RunClass, j: nat)
    requires i <= j <= |text|
    requires forall k :: i <= k < j ==> InClass(text[k], cls)
    requires j == |text| || !InClass(text[j], cls)
    ensures RunEnd(text, i, cls) == j
  {
  }

  /** Classification of a word, by priority: keyword, built-in, constant,
      logical operator, identifier */
  function WordKind(w: string): (k: TokenKind)
    ensures IsWordKind(k)
  {
    ByPriority(w in KeywordNames, w in BuiltinNames, w in ConstantNames, w in LogicalOpNames)
  }

  /** The kind of the first vocabulary, in priority order, that holds the
      word, given the word's membership in each */
  function ByPriority(kw: bool, bi: bool, c: bool, op: bool): TokenKind {
    if kw then Keyword
    else if bi then Builtin
    else if c then Constant
    else if op then LogicalOp
    else Identifier
  }

  /** When a word is in at most one vocabulary, that one alone decides. */
  lemma ByPriorityExact(kw: bool, bi: bool, c: bool, op: bool)
    requires kw ==> !bi && !c && !op
    requires bi ==> !c && !op
    requires c ==> !op
    ensures ByPriority(kw, bi, c, op) == Keyword <==> kw
    ensures ByPriority(kw, bi, c, op) == Builtin <==> bi
    ensures ByPriority(kw, bi, c, op) == Constant <==> c
    ensures ByPriority(kw, bi, c, op) == LogicalOp <==> op
    ensures ByPriority(kw, bi, c, op) == Identifier <==> !kw && !bi && !c && !op
  {
  }

  /** The vocabularies are disjoint, so each word kind holds exactly when the
      word is in that vocabulary: the priority order never matters. */
  lemma WordKindExact(w: string)
    ensures WordKind(w) == Keyword <==> w in KeywordNames
    ensures WordKind(w) == Builtin <==> w in BuiltinNames
    ensures WordKind(w) == Constant <==> w in ConstantNames
    ensures WordKind(w) == LogicalOp <==> w in LogicalOpNames
    ensures WordKind(w) == Identifier <==> !IsKnownWord(w)
  {
    VocabularyOf(w);
    ByPriorityExact(w in KeywordNames, w in BuiltinNames, w in ConstantNames, w in LogicalOpNames);
  }

  predicate IsWordKind(k: TokenKind) {
    k == Keyword || k == Builtin || k == Constant || k == LogicalOp || k == Identifier
  }

  /** Whether a two-character operator (`==`, `!=`, `<=`, `>=`) starts at `i` */
  predicate DoubleOperatorAt(text: string, i: nat) {
    i + 1 < |text| && text[i] in {'=', '!', '<', '>'} && text[i + 1] == '='
  }

  /** The character test above is membership of the two-character slice. */
  lemma DoubleOperatorAtIsSlice(text: string, i: nat)
    requires i + 1 < |text|
    ensures DoubleOperatorAt(text, i) <==> text[i..i + 2] in DoubleOperators
  {
    var w := text[i..i + 2];
    assert w == [text[i], text[i + 1]];
  }

  /** The character opens a token of a fixed single-character kind */
  predicate IsStructural(c: char) { c in {'(', ')', '[', ']', ',', ':'} }

  /** The rule a token's first character selects */
  datatype Lead = HashLead | BlankLead | QuoteLead | DigitLead | WordLead | OtherLead

  /** The lexer tries its rules in this order, so a Devanagari digit, which
      is also in the identifier-start block, starts a number. */
  function LeadOf(c: char): Lead {
    if c == '#' then HashLead
    else if IsBlank(c) then BlankLead
    else if c == '"' then QuoteLead
    else if IsDigit(c) then DigitLead
    else if IsIdentStart(c) then WordLead
    else OtherLead
  }

  /** Each lead class in terms of the character alone, not of rule order */
  lemma LeadOfExact(c: char)
    ensures LeadOf(c) == HashLead <==> c == '#'
    ensures LeadOf(c) == BlankLead <==> IsBlank(c)
    ensures LeadOf(c) == QuoteLead <==> c == '"'
    ensures LeadOf(c) == DigitLead <==> IsDigit(c)
    ensures LeadOf(c) == WordLead <==> IsIdentStart(c) && !IsDigit(c)
    ensures LeadOf(c) == OtherLead <==> c != '#' && c != '"' && !IsBlank(c) && !IsIdentPart(c)
    ensures LeadOf(c) != OtherLead ==> !(c in SingleOperators || c in {'=', '!', '<', '>'} || IsStructural(c))
  {
  }

  /** The kind and exclusive end of the token that starts at `i`. The kind is
      decided by the first character alone, except that a two-character
      operator is preferred to a single-character one. A word is reported as
      an `Identifier` here; `KindOf` then looks it up in the vocabularies. */
  function Scan(text: string, i: nat): (r: (TokenKind, nat))
    requires i < |text|
    ensures i < r.1 <= |text|
    ensures r.0 == Comment ==> r.1 == |text|
    ensures r.0 == Unknown ==> r.1 == i + 1
    ensures !IsWordKind(r.0) || r.0 == Identifier
  {
    var ch := text[i];
    match LeadOf(ch)
    case HashLead => (Comment, |text|)
    case BlankLead => (Whitespace, RunEnd(text, i, Blanks))
    case QuoteLead =>
      var j := RunEnd(text, i + 1, NonQuotes);
      (Str, if j < |text| then j + 1 else j)
    case DigitLead => (Number, RunEnd(text, i, Digits))
    case WordLead => (Identifier, RunEnd(text, i + 1, WordChars))
    case OtherLead => ScanPunctuation(text, i)
  }

  /** Operators and punctuation: the rules consulted when no longer token
      starts at `i`. Such a token is one or two characters long and is
      never a word. */
  function ScanPunctuation(text: string, i: nat): (r: (TokenKind, nat))
    requires i < |text|
    ensures r.1 == (if DoubleOperatorAt(text, i) then i + 2 else i + 1)
    ensures !IsWordKind(r.0) && r.0 != Comment && r.0 != Whitespace && r.0 != Str && r.0 != Number
  {
    var ch := text[i];
    if DoubleOperatorAt(text, i) then (Operator, i + 2)
    else if ch in SingleOperators then (Operator, i + 1)
    else if ch == '(' then (ParenOpen, i + 1)
    else if ch == ')' then (ParenClose, i + 1)
    else if ch == '[' then (BracketOpen, i + 1)
    else if ch == ']' then (BracketClose, i + 1)
    else if ch == ',' then (Comma, i + 1)
    else if ch == ':' then (Colon, i + 1)
    else (Unknown, i + 1)
  }

  /** The kind a token gets: a word's kind comes from the vocabularies, every
      other kind is the one the scanner found. */
  function KindOf(raw: TokenKind, value: string): (k: TokenKind)
    ensures raw != Identifier ==> k == raw
    ensures raw == Identifier ==> IsWordKind(k)
  {
    if raw == Identifier then WordKind(value) else raw
  }

  /** The kind the scanner reports for a token of kind `k`: to the scanner
      every word is an identifier. */
  function RawKind(k: TokenKind): TokenKind {
    if IsWordKind(k) then Identifier else k
  }

  /** The long token kinds correspond one to one with lead classes. */
  lemma ScanLead(text: string, i: nat)
    requires i < |text|
    ensures var r := Scan(text, i); var l := LeadOf(text[i]);
      && (r.0 == Comment <==> l == HashLead)
      && (r.0 == Whitespace <==> l == BlankLead)
      && (r.0 == Str <==> l == QuoteLead)
      && (r.0 == Number <==> l == DigitLead)
      && (r.0 == Identifier <==> l == WordLead)
      && (l == OtherLead ==> r == ScanPunctuation(text, i))
  {
  }

  /** The classes of tokens that extend past their first character are
      decided by that character; in particular a Devanagari digit starts a
      number even though it is also in the identifier-start block. */
  lemma ScanLongKinds(text: string, i: nat)
    requires i < |text|
    ensures var r := Scan(text, i);
      && (r.0 == Comment <==> text[i] == '#')
      && (r.0 == Whitespace <==> IsBlank(text[i]))
      && (r.0 == Str <==> text[i] == '"')
      && (r.0 == Number <==> IsDigit(text[i]))
      && (IsDevanagariDigit(text[i]) ==> r.0 == Number)
      && (r.0 == Identifier <==> IsIdentStart(text[i]) && !IsDigit(text[i]))
  {
    ScanLead(text, i);
    LeadOfExact(text[i]);
  }

  /** Operators and punctuation: a two-character operator beats a
      one-character one, and every other punctuation token is one character. */
  lemma ScanShortKinds(text: string, i: nat)
    requires i < |text|
    ensures var r := Scan(text, i);
      && (DoubleOperatorAt(text, i) ==> r == (Operator, i + 2))
      && (!DoubleOperatorAt(text, i) && (text[i] in SingleOperators || IsStructural(text[i])) ==> r.1 == i + 1)
      && (r.0 == Operator <==> DoubleOperatorAt(text, i) || text[i] in SingleOperators)
      && (r.0 == ParenOpen <==> text[i] == '(')
      && (r.0 == ParenClose <==> text[i] == ')')
      && (r.0 == BracketOpen <==> text[i] == '[')
      && (r.0 == BracketClose <==> text[i] == ']')
      && (r.0 == Comma <==> text[i] == ',')
      && (r.0 == Colon <==> text[i] == ':')
  {
    LeadOfExact(text[i]);
  }

  /** Any character no rule claims becomes a one-character unknown token. */
  lemma ScanUnknown(text: string, i: nat)
    requires i < |text|
    ensures Scan(text, i).0 == Unknown <==>
      && text[i] != '#' && text[i] != '"' && !IsBlank(text[i]) && !IsIdentPart(text[i])
      && !DoubleOperatorAt(text, i) && text[i] !in SingleOperators && !IsStructural(text[i])
  {
    ScanLead(text, i);
    LeadOfExact(text[i]);
    var p := ScanPunctuation(text, i);
    assert p.0 == Unknown <==> !DoubleOperatorAt(text, i) && text[i] !in SingleOperators && !IsStructural(text[i]);
  }

  /** Which rule claims the token at `i` depends on its first character
      alone, except that a two-character operator beats a one-character one. */
  lemma ScanByFirstChar(text: string, i: nat)
    requires i < |text|
    ensures var r := Scan(text, i);
      && (r.0 == Comment <==> text[i] == '#')
      && (r.0 == Whitespace <==> IsBlank(text[i]))
      && (r.0 == Str <==> text[i] == '"')
      && (r.0 == Number <==> IsDigit(text[i]))
      && (IsDevanagariDigit(text[i]) ==> r.0 == Number)
      && (r.0 == Identifier <==> IsIdentStart(text[i]) && !IsDigit(text[i]))
      && (DoubleOperatorAt(text, i) ==> r == (Operator, i + 2))
      && (!DoubleOperatorAt(text, i) && (text[i] in SingleOperators || IsStructural(text[i])) ==> r.1 == i + 1)
      && (r.0 == Operator <==> DoubleOperatorAt(text, i) || text[i] in SingleOperators)
      && (r.0 == ParenOpen <==> text[i] == '(')
      && (r.0 == ParenClose <==> text[i] == ')')
      && (r.0 == BracketOpen <==> text[i] == '[')
      && (r.0 == BracketClose <==> text[i] == ']')
      && (r.0 == Comma <==> text[i] == ',')
      && (r.0 == Colon <==> text[i] == ':')
      && (r.0 == Unknown <==>
            && text[i] != '#' && text[i] != '"' && !IsBlank(text[i]) && !IsIdentPart(text[i])
            && !DoubleOperatorAt(text, i) && text[i] !in SingleOperators && !IsStructural(text[i]))
  {
    ScanLongKinds(text, i);
    ScanShortKinds(text, i);
    ScanUnknown(text, i);
  }

  /** The run a whitespace, number or word token covers, and the extent of
      a string: from its opening quote through the next quote, or to the end
      of the line when the string is not closed */
  lemma ScanRuns(text: string, i: nat)
    requires i < |text|
    ensures Scan(text, i).0 == Whitespace ==> Scan(text, i).1 == RunEnd(text, i, Blanks)
    ensures Scan(text, i).0 == Number ==> Scan(text, i).1 == RunEnd(text, i, Digits)
    ensures Scan(text, i).0 == Identifier ==> Scan(text, i).1 == RunEnd(text, i + 1, WordChars)
    ensures Scan(text, i).0 == Str ==>
      var e := Scan(text, i).1;
      && text[i] == '"'
      && i < e <= |text|
      && (forall k :: i < k < e - 1 ==> text[k] != '"')
      && ((i < e - 1 && text[e - 1] == '"') || (e == |text| && forall k :: i < k < |text| ==> text[k] != '"'))
  {
    var r := Scan(text, i);
    match LeadOf(text[i])
    case HashLead =>
    case BlankLead =>
    case QuoteLead =>
    case DigitLead =>
    case WordLead =>
    case OtherLead =>
      assert r == ScanPunctuation(text, i);
  }

  /** The token lies on `line`, is non-empty, and its value is its span of `text`. */
  ghost predicate TokenOf(t: Token, text: string, line: nat) {
    t.line == line && t.col < t.endCol <= |text| && t.value == text[t.col..t.endCol]
  }

  /** `toks` tile `text[from..]`: they start at `from`, each ends where the next
      begins, the last ends at the end of the line, and none is empty. */
  ghost predicate Tiles(toks: seq<Token>, text: string, line: nat, from: nat) {
    && from <= |text|
    && (|toks| == 0 <==> from == |text|)
    && (forall k :: 0 <= k < |toks| ==> TokenOf(toks[k], text, line) && from <= toks[k].col)
    && (|toks| > 0 ==> toks[0].col == from && toks[|toks| - 1].endCol == |text|)
    && (forall k :: 0 <= k < |toks| - 1 ==> toks[k].endCol == toks[k + 1].col)
  }

  /** A token followed by a tiling of the rest of the line tiles from its start. */
  lemma TilesCons(t: Token, rest: seq<Token>, text: string, line: nat)
    requires TokenOf(t, text, line)
    requires Tiles(rest, text, line, t.endCol)
    ensures Tiles([t] + rest, text, line, t.col)
  {
    var r := [t] + rest;
    assert forall k :: 0 < k < |r| ==> r[k] == rest[k - 1];
    if |rest| > 0 {
      assert r[|r| - 1] == rest[|rest| - 1];
    }
  }

  /** The token of line `line` that the scanner finds at `i` */
  function NextToken(text: string, line: nat, i: nat): (t: Token)
    requires i < |text|
    ensures TokenOf(t, text, line) && t.col == i
    ensures t.endCol == Scan(text, i).1
    ensures t.kind == KindOf(Scan(text, i).0, t.value)
    ensures RawKind(t.kind) == Scan(text, i).0
  {
    var (raw, j) := Scan(text, i);
    Token(KindOf(raw, text[i..j]), text[i..j], line, i, j)
  }

  /** The tokens of `text[i..]`, in order */
  function TokensFrom(text: string, line: nat, i: nat): (r: seq<Token>)
    requires i <= |text|
    ensures Tiles(r, text, line, i)
    ensures forall k :: 0 <= k < |r| ==> Scan(text, r[k].col) == (RawKind(r[k].kind), r[k].endCol)
    ensures forall k :: 0 <= k < |r| && r[k].kind == Comment ==> k == |r| - 1
    decreases |text| - i
  {
    if i == |text| then []
    else
      var t := NextToken(text, line, i);
      var rest := TokensFrom(text, line, t.endCol);
      TilesCons(t, rest, text, line);
      [t] + rest
  }

  /** `tokenize_line(text, line)`: the tokens of a whole line */
  function Tokenize(text: string, line: nat): (r: seq<Token>)
    ensures Tiles(r, text, line, 0)
    ensures forall k :: 0 <= k < |r| && r[k].kind == Comment ==> k == |r| - 1
  {
    TokensFrom(text, line, 0)
  }

  /** Each token of a line is what the scanner finds at its column. */
  lemma TokenizeScans(text: string, line: nat, k: nat)
    requires k < |Tokenize(text, line)|
    ensures var t := Tokenize(text, line)[k];
      Scan(text, t.col) == (RawKind(t.kind), t.endCol)
  {}

  /** Lines lexed one by one are each tiled by their tokens. */
  lemma LinesTiled(toks: seq<seq<Token>>, lines: seq<string>)
    requires |toks| == |lines|
    requires forall i :: 0 <= i < |lines| ==> toks[i] == Tokenize(lines[i], i)
    ensures forall i :: 0 <= i < |lines| ==> Tiles(toks[i], lines[i], i, 0)
  {}

  /** Token `k` of `text[i..]`, if a word, has the kind its vocabulary gives it. */
  lemma {:induction false} WordClassifiedFrom(text: string, line: nat, i: nat, k: nat)
    requires i <= |text| && k < |TokensFrom(text, line, i)|
    ensures var t := TokensFrom(text, line, i)[k];
      IsWordKind(t.kind) ==> t.kind == WordKind(t.value)
    decreases k
  {
    var t := NextToken(text, line, i);
    var rest := TokensFrom(text, line, t.endCol);
    assert TokensFrom(text, line, i) == [t] + rest;
    if k > 0 {
      assert TokensFrom(text, line, i)[k] == rest[k - 1];
      WordClassifiedFrom(text, line, t.endCol, k - 1);
    }
  }

  /** The lexer gives every word the kind of the vocabulary it is in, and
      `Identifier` when it is in none. */
  lemma WordsClassified(text: string, line: nat, k: nat)
    requires k < |Tokenize(text, line)|
    ensures var t := Tokenize(text, line)[k];
      IsWordKind(t.kind) ==> t.kind == WordKind(t.value)
  {
    WordClassifiedFrom(text, line, 0, k);
  }

  /** A token of a tiling covers its own value on that line. */
  lemma TiledToken(toks: seq<Token>, text: string, line: nat, t: Token)
    requires Tiles(toks, text, line, 0) && t in toks
    ensures TokenOf(t, text, line)
  {
    var k :| 0 <= k < |toks| && toks[k] == t;
  }

  /** The token values, concatenated */
  function Concat(toks: seq<Token>): string
    decreases |toks|
  {
    if |toks| == 0 then "" else toks[0].value + Concat(toks[1..])
  }

  /** Tiling tokens spell out exactly the text they tile. */
  lemma {:induction false} TilesConcat(toks: seq<Token>, text: string, line: nat, from: nat)
    requires Tiles(toks, text, line, from)
    ensures Concat(toks) == text[from..]
    decreases |toks|
  {
    if |toks| > 0 {
      var t := toks[0];
      var rest := toks[1..];
      assert Tiles(rest, text, line, t.endCol) by {
        assert forall k :: 0 <= k < |rest| ==> rest[k] == toks[k + 1];
        if |rest| == 0 {
          assert t.endCol == |text|;
        } else {
          assert toks[|toks| - 1] == rest[|rest| - 1];
        }
        forall k | 0 <= k < |rest| ensures t.endCol <= rest[k].col {
          ColumnsIncrease(toks, text, line, from, 0, k + 1);
        }
      }
      TilesConcat(rest, text, line, t.endCol);
      assert text[from..] == text[from..t.endCol] + text[t.endCol..];
    }
  }

  /** In a tiling, a later token starts at or after the end of an earlier one. */
  lemma {:induction false} ColumnsIncrease(toks: seq<Token>, text: string, line: nat, from: nat, a: nat, b: nat)
    requires Tiles(toks, text, line, from)
    requires a < b < |toks|
    ensures toks[a].endCol <= toks[b].col
    decreases b - a
  {
    if a + 1 < b {
      ColumnsIncrease(toks, text, line, from, a + 1, b);
    }
  }

  /** Lexing is lossless: the token values of a line concatenate to the line. */
  lemma RoundTrip(text: string, line: nat)
    ensures Concat(Tokenize(text, line)) == text
  {
    TilesConcat(Tokenize(text, line), text, line, 0);
  }

  /** Advances from `i` over the maximal run of `cls` characters. */
  method SkipRun(text: string, i: nat, cls: RunClass) returns (j: nat)
    requires i <= |text|
    ensures j == RunEnd(text, i, cls)
  {
    j := i;
    while j < |text| && InClass(text[j], cls)
      invariant i <= j <= |text|
      invariant forall k :: i <= k < j ==> InClass(text[k], cls)
      decreases |text| - j
    {
      j := j + 1;
    }
    RunEndUnique(text, i, cls, j);
  }

  /** One iteration of the scanning loop of `tokenize_line`: the kind and
      end of the token that starts at `i`, as `Scan` defines them. */
  method ScanOne(text: string, i: nat) returns (kind: TokenKind, j: nat)
    requires i < |text|
    ensures (kind, j) == Scan(text, i)
  {
    var length := |text|;
    var ch := text[i];
    if ch == '#' {
      kind := Comment;
      j := length;
    } else if ch == ' ' || ch == '\t' {
      assert LeadOf(ch) == BlankLead;
      j := SkipRun(text, i, Blanks);
      kind := Whitespace;
    } else if ch == '"' {
      assert LeadOf(ch) == QuoteLead;
      j := SkipRun(text, i + 1, NonQuotes);
      if j < length {
        j := j + 1;
      }
      kind := Str;
    } else if IsDigit(ch) {
      assert LeadOf(ch) == DigitLead;
      j := SkipRun(text, i, Digits);
      kind := Number;
    } else if IsIdentStart(ch) {
      assert LeadOf(ch) == WordLead;
      j := SkipRun(text, i + 1, WordChars);
      kind := Identifier;
    } else {
      assert LeadOf(ch) == OtherLead;
      kind, j := ScanPunctuationOne(text, i);
    }
  }

  /** The punctuation branch of the scanning loop */
  method ScanPunctuationOne(text: string, i: nat) returns (kind: TokenKind, j: nat)
    requires i < |text|
    ensures (kind, j) == ScanPunctuation(text, i)
  {
    var ch := text[i];
    if i + 1 < |text| {
      DoubleOperatorAtIsSlice(text, i);
    }
    if i + 1 < |text| && text[i..i + 2] in DoubleOperators {
      return Operator, i + 2;
    }
    j := i + 1;
    if ch in SingleOperators {
      kind := Operator;
    } else if ch == '(' {
      kind := ParenOpen;
    } else if ch == ')' {
      kind := ParenClose;
    } else if ch == '[' {
      kind := BracketOpen;
    } else if ch == ']' {
      kind := BracketClose;
    } else if ch == ',' {
      kind := Comma;
    } else if ch == ':' {
      kind := Colon;
    } else {
      kind := Unknown;
    }
  }

  /** The tokens from `i` are the one the scanner finds there, then those after it. */
  lemma TokensFromStep(text: string, line: nat, i: nat)
    requires i < |text|
    ensures TokensFrom(text, line, i) == [NextToken(text, line, i)] + TokensFrom(text, line, Scan(text, i).1)
  {
  }

  /** `tokenize_line`, written as the single left-to-right loop of the
      original, computes the same tokens as `Tokenize`. */
  method TokenizeLine(text: string, lineNo: nat) returns (tokens: seq<Token>)
    ensures tokens == Tokenize(text, lineNo)
  {
    tokens := [];
    var i := 0;
    while i < |text|
      invariant 0 <= i <= |text|
      invariant tokens + TokensFrom(text, lineNo, i) == Tokenize(text, lineNo)
      decreases |text| - i
    {
      var kind, j := ScanOne(text, i);
      var t := Token(KindOf(kind, text[i..j]), text[i..j], lineNo, i, j);
      TokensFromStep(text, lineNo, i);
      AppendAssoc(tokens, [t], TokensFrom(text, lineNo, j));
      tokens := tokens + [t];
      i := j;
    }
  }

  /** `measure_indent`: leading spaces count 1 and leading tabs count 4;
      the count stops at the first other character. */
  function MeasureIndent(line: string): (n: nat)
    ensures n <= 4 * |line|
    ensures n == 0 <==> |line| == 0 || !IsBlank(line[0])
    ensures |line| > 0 && IsBlank(line[0]) ==> n >= 1
    decreases |line|
  {
    if |line| == 0 then 0
    else if line[0] == ' ' then 1 + MeasureIndent(line[1..])
    else if line[0] == '\t' then 4 + MeasureIndent(line[1..])
    else 0
  }

  /** Indentation weight of a run of blanks */
  function BlankWeight(s: string): nat
    decreases |s|
  {
    if |s| == 0 then 0 else (if s[0] == '\t' then 4 else 1) + BlankWeight(s[1..])
  }

  /** The indentation of a line is the weight of its leading whitespace
      token, and zero when the line does not start with one. */
  lemma IndentIsFirstTokenWeight(line: string, lineNo: nat)
    ensures var toks := Tokenize(line, lineNo);
            MeasureIndent(line) ==
              if |toks| > 0 && toks[0].kind == Whitespace then BlankWeight(toks[0].value) else 0
  {
    var toks := Tokenize(line, lineNo);
    if |toks| > 0 {
      ScanByFirstChar(line, 0);
      if toks[0].kind == Whitespace {
        ScanRuns(line, 0);
        IndentOfBlankPrefix(line, toks[0].endCol);
        assert toks[0].value == line[..toks[0].endCol];
      }
    }
  }

  lemma {:induction false} IndentOfBlankPrefix(line: string, j: nat)
    requires j <= |line|
    requires forall k :: 0 <= k < j ==> IsBlank(line[k])
    requires j == |line| || !IsBlank(line[j])
    ensures MeasureIndent(line) == BlankWeight(line[..j])
    decreases j
  {
    if j > 0 {
      assert line[..j][1..] == line[1..][..j - 1];
      IndentOfBlankPrefix(line[1..], j - 1);
    }
  }

  /** A significant token is anything but whitespace and comments. */
  predicate IsSignificant(t: Token) {
    t.kind != Whitespace && t.kind != Comment
  }

  /** `_significant_tokens`: the significant tokens, in their original order */
  function Significant(toks: seq<Token>): (r: seq<Token>)
    ensures |r| <= |toks|
    decreases |toks|
  {
    if |toks| == 0 then []
    else if IsSignificant(toks[0]) then [toks[0]] + Significant(toks[1..])
    else Significant(toks[1..])
  }

  /** The significant tokens are exactly the tokens that are neither
      whitespace nor comments. */
  lemma {:induction false} SignificantMembers(toks: seq<Token>)
    ensures forall t :: t in Significant(toks) <==> t in toks && IsSignificant(t)
    decreases |toks|
  {
    if |toks| > 0 {
      SignificantMembers(toks[1..]);
      assert forall t :: t in toks <==> t == toks[0] || t in toks[1..];
    }
  }

  /** Every vocabulary word is word-shaped: identifier characters only,
      and a first character that starts a word rather than a number. */
  ghost predicate WordShaped(w: string) {
    |w| > 0 && IsIdentStart(w[0]) && !IsDigit(w[0]) && forall k :: 0 <= k < |w| ==> IsIdentPart(w[k])
  }

  lemma KeywordIsWordShaped(i: nat)
    requires i < |Keywords|
    ensures WordShaped(Keywords[i].name)
  {
    if i == 0 {
    } else if i == 1 {
    } else if i == 2 {
    } else if i == 3 {
    } else if i == 4 {
    } else if i == 5 {
    } else if i == 6 {
    } else {
      assert i == 7;
    }
  }

  lemma BuiltinIsWordShaped(i: nat)
    requires i < |Builtins|
    ensures WordShaped(Builtins[i].name)
  {
    if i < 7 {
      EarlyBuiltinIsWordShaped(i);
    } else {
      LateBuiltinIsWordShaped(i);
    }
  }

  lemma EarlyBuiltinIsWordShaped(i: nat)
    requires i < 7
    ensures WordShaped(Builtins[i].name)
  {
    if i == 0 {
    } else if i == 1 {
    } else if i == 2 {
    } else if i == 3 {
    } else if i == 4 {
    } else if i == 5 {
    } else {
      assert i == 6;
    }
  }

  lemma LateBuiltinIsWordShaped(i: nat)
    requires 7 <= i < |Builtins|
    ensures WordShaped(Builtins[i].name)
  {
    if i == 7 {
    } else if i == 8 {
    } else if i == 9 {
    } else if i == 10 {
    } else if i == 11 {
    } else {
      assert i == 12;
    }
  }

  lemma KeywordNameIsWordShaped(w: string)
    requires w in KeywordNames
    ensures WordShaped(w)
  {
    var kw :| kw in Keywords && kw.name == w;
    var i :| 0 <= i < |Keywords| && Keywords[i] == kw;
    KeywordIsWordShaped(i);
  }

  lemma BuiltinNameIsWordShaped(w: string)
    requires w in BuiltinNames
    ensures WordShaped(w)
  {
    var b :| b in Builtins && b.name == w;
    var i :| 0 <= i < |Builtins| && Builtins[i] == b;
    BuiltinIsWordShaped(i);
  }

  lemma SmallWordIsWordShaped(w: string)
    requires w in ConstantNames + LogicalOpNames
    ensures WordShaped(w)
  {
    SmallTables();
    if w == "सत्यम्" {
    } else if w == "असत्यम्" {
    } else if w == "च" {
    } else if w == "वा" {
    } else {
      assert w == "न";
    }
  }

  lemma VocabularyWordIsWordShaped(w: string)
    requires IsKnownWord(w)
    ensures WordShaped(w)
  {
    if w in KeywordNames {
      KeywordNameIsWordShaped(w);
    }
    if w in BuiltinNames {
      BuiltinNameIsWordShaped(w);
    }
    if w in ConstantNames + LogicalOpNames {
      SmallWordIsWordShaped(w);
    }
  }

  lemma VocabularyIsWordShaped()
    ensures forall w :: IsKnownWord(w) ==> WordShaped(w)
  {
    forall w | IsKnownWord(w) ensures WordShaped(w) {
      VocabularyWordIsWordShaped(w);
    }
  }

  /** A word-shaped line lexes as a single word token. */
  lemma WordShapedIsOneToken(w: string, line: nat)
    requires WordShaped(w)
    ensures Tokenize(w, line) == [Token(WordKind(w), w, line, 0, |w|)]
  {
    assert forall k :: 1 <= k < |w| ==> InClass(w[k], WordChars);
    RunEndUnique(w, 1, WordChars, |w|);
    ScanLongKinds(w, 0);
    ScanRuns(w, 0);
    assert w[0..|w|] == w;
    var toks := Tokenize(w, line);
    assert toks[0].col == 0;
    assert toks[0].endCol == |w|;
    assert |toks| == 1;
  }

  /** A vocabulary word on a line of its own lexes as one token of its class. */
  lemma VocabularyWordIsOneToken(w: string, line: nat)
    requires IsKnownWord(w)
    ensures Tokenize(w, line) == [Token(WordKind(w), w, line, 0, |w|)]
    ensures WordKind(w) != Identifier
  {
    VocabularyWordIsWordShaped(w);
    WordShapedIsOneToken(w, line);
    WordKindExact(w);
  }
}
