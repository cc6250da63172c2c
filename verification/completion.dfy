/**
 * Completion: the partial word before the cursor is the prefix, and the
 * offered items are the keywords, built-ins, constants, logical operators,
 * user functions and visible variables whose names start with it, group by
 * group in that order.
 */
module Completion {
  import opened Wrappers
  import opened AssocList
  import opened Text
  import opened Symbols
  import opened Lexer
  import opened Document
  import opened Lookup

  /** `_is_ident_char`: underscore, ASCII letters and digits, and the whole
      Devanagari block */
  predicate IsIdentChar(c: char) {
    c == '_' || ('a' <= c <= 'z') || ('A' <= c <= 'Z') || ('0' <= c <= '9')
      || ('\U{0900}' <= c <= '\U{097F}')
  }

  /** The characters a word may extend over backwards are exactly those the
      lexer lets a word continue with. */
  lemma IdentCharIsIdentPart(c: char)
    ensures IsIdentChar(c) <==> IsIdentPart(c)
  {
  }

  /** Where the run of identifier characters ending at `col` begins */
  function IdentRunStart(line: string, col: nat): (start: nat)
    requires col <= |line|
    ensures start <= col
    ensures forall k :: start <= k < col ==> IsIdentChar(line[k])
    ensures start == 0 || !IsIdentChar(line[start - 1])
    decreases col
  {
    if col > 0 && IsIdentChar(line[col - 1]) then IdentRunStart(line, col - 1) else col
  }

  /** `w` is the whole run of identifier characters that ends at `col`. */
  predicate WordBefore(line: string, col: nat, w: string) {
    && col <= |line| && |w| <= col && w == line[col - |w|..col]
    && (forall k :: col - |w| <= k < col ==> IsIdentChar(line[k]))
    && (|w| == col || !IsIdentChar(line[col - |w| - 1]))
  }

  /** At most one word ends at a column. */
  lemma WordBeforeUnique(line: string, col: nat, w1: string, w2: string)
    requires WordBefore(line, col, w1) && WordBefore(line, col, w2)
    ensures w1 == w2
  {
  }

  /** `_word_at_cursor`: the identifier characters immediately before the
      cursor, the cursor clamped to the end of its line; nothing past the
      last line */
  function WordAtCursor(d: ParsedDocument, pos: Position): (w: string)
    ensures pos.line >= |d.lines| ==> w == ""
    ensures pos.line < |d.lines| ==>
      var line := d.lines[pos.line];
      WordBefore(line, if pos.character < |line| then pos.character else |line|, w)
  {
    if pos.line >= |d.lines| then ""
    else
      var line := d.lines[pos.line];
      var col := if pos.character < |line| then pos.character else |line|;
      var start := IdentRunStart(line, col);
      line[start..col]
  }

  /** The prefix filter keeps a name: an empty prefix keeps every name,
      otherwise the name must start with the prefix. */
  predicate Offered(prefix: string, name: string) {
    prefix == "" || StartsWith(name, prefix)
  }

  /** The completion item kinds the server uses */
  datatype ItemKind = KeywordKind | FunctionKind | ConstantKind | OperatorKind | VariableKind

  /** What an item's detail line is made from */
  datatype Detail =
    | KeywordDetail(english: string)
    | BuiltinDetail(english: string, params: seq<string>)
    | ConstantDetail(meaning: string)
    | LogicalOpDetail(meaning: string)
    | UserFunctionDetail(params: seq<string>)
    | VariableDetail(scope: string)

  datatype CompletionItem = CompletionItem(name: string, kind: ItemKind, detail: Detail)

  datatype CompletionList = CompletionList(isIncomplete: bool, items: seq<CompletionItem>)

  function KeywordItem(kw: KeywordInfo): CompletionItem {
    CompletionItem(kw.name, KeywordKind, KeywordDetail(kw.english))
  }

  function BuiltinItem(b: BuiltinInfo): CompletionItem {
    CompletionItem(b.name, FunctionKind, BuiltinDetail(b.english, b.params))
  }

  function ConstantItem(c: (string, string)): CompletionItem {
    CompletionItem(c.0, ConstantKind, ConstantDetail(c.1))
  }

  function LogicalOpItem(o: (string, string)): CompletionItem {
    CompletionItem(o.0, OperatorKind, LogicalOpDetail(o.1))
  }

  function ParamNamesOf(f: FuncDef): seq<string> {
    seq(|f.params|, j requires 0 <= j < |f.params| => f.params[j].name)
  }

  /** A user function is offered under its table key, with its parameter names */
  function UserFunctionItem(e: (string, FuncDef)): CompletionItem {
    CompletionItem(e.0, FunctionKind, UserFunctionDetail(ParamNamesOf(e.1)))
  }

  /** A variable is offered under its bare name, whatever key it is stored under */
  function VariableItem(v: VarDef): CompletionItem {
    CompletionItem(v.name, VariableKind, VariableDetail(v.scope))
  }

  /** The items a prefix keeps, in their original order */
  function Filter(prefix: string, items: seq<CompletionItem>): (r: seq<CompletionItem>)
    ensures forall it :: it in r <==> it in items && Offered(prefix, it.name)
    ensures |r| <= |items|
    ensures prefix == "" ==> r == items
    decreases |items|
  {
    if |items| == 0 then []
    else
      var rest := Filter(prefix, items[1..]);
      assert items == [items[0]] + items[1..];
      if Offered(prefix, items[0].name) then [items[0]] + rest else rest
  }

  /** Filtering distributes over concatenation, so the kept items stay in
      the order of `items`. */
  lemma {:induction false} FilterAppend(prefix: string, a: seq<CompletionItem>, b: seq<CompletionItem>)
    ensures Filter(prefix, a + b) == Filter(prefix, a) + Filter(prefix, b)
    decreases |a|
  {
    if |a| > 0 {
      assert (a + b)[0] == a[0];
      assert (a + b)[1..] == a[1..] + b;
      FilterAppend(prefix, a[1..], b);
    } else {
      assert a + b == b;
    }
  }

  /** Each table, turned into candidate items in table order */
  function KeywordItems(): seq<CompletionItem> {
    seq(|Keywords|, i requires 0 <= i < |Keywords| => KeywordItem(Keywords[i]))
  }

  function BuiltinItems(): seq<CompletionItem> {
    seq(|Builtins|, i requires 0 <= i < |Builtins| => BuiltinItem(Builtins[i]))
  }

  function ConstantItems(): seq<CompletionItem> {
    seq(|Constants|, i requires 0 <= i < |Constants| => ConstantItem(Constants[i]))
  }

  function LogicalOpItems(): seq<CompletionItem> {
    seq(|LogicalOps|, i requires 0 <= i < |LogicalOps| => LogicalOpItem(LogicalOps[i]))
  }

  function UserFunctionItems(fs: AList<string, FuncDef>): seq<CompletionItem> {
    seq(|fs|, i requires 0 <= i < |fs| => UserFunctionItem(fs[i]))
  }

  /** A variable of scope `v.scope` is visible from scope `scope`. */
  predicate Visible(v: VarDef, scope: string) {
    v.scope == GlobalScope || v.scope == scope
  }

  /** Entry `i` is the first entry of the table that declares `name`
      visibly from `scope` */
  ghost predicate FirstDeclarer(vars: AList<string, VarDef>, name: string, scope: string, i: int) {
    && 0 <= i < |vars|
    && vars[i].1.name == name && Visible(vars[i].1, scope)
    && forall j :: 0 <= j < i ==> !(vars[j].1.name == name && Visible(vars[j].1, scope))
  }

  /** The first entry in table order that declares `name` visibly from `scope` */
  function FirstVisible(vars: AList<string, VarDef>, name: string, scope: string): (r: Option<VarDef>)
    ensures r.Some? ==> r.value.name == name && Visible(r.value, scope) && exists e :: e in vars && e.1 == r.value
    ensures r.None? ==> forall e :: e in vars ==> e.1.name != name || !Visible(e.1, scope)
    ensures forall i :: FirstDeclarer(vars, name, scope, i) ==> r == Some(vars[i].1)
    decreases |vars|
  {
    if |vars| == 0 then None
    else if vars[0].1.name == name && Visible(vars[0].1, scope) then
      assert forall i :: FirstDeclarer(vars, name, scope, i) ==> i == 0;
      Some(vars[0].1)
    else
      var r := FirstVisible(vars[1..], name, scope);
      assert forall e :: e in vars ==> e == vars[0] || e in vars[1..];
      assert forall i :: FirstDeclarer(vars, name, scope, i) ==> FirstDeclarer(vars[1..], name, scope, i - 1) by {
        forall i | FirstDeclarer(vars, name, scope, i)
          ensures FirstDeclarer(vars[1..], name, scope, i - 1)
        {
          assert i != 0;
          assert forall j :: 0 <= j < i - 1 ==> vars[1..][j] == vars[j + 1];
        }
      }
      r
  }

  /** The variables loop: each name once, skipping names already offered,
      names the prefix rejects and entries not visible from `scope` */
  function VariableItems(vars: AList<string, VarDef>, prefix: string, scope: string, seen: set<string>): (r: seq<CompletionItem>)
    ensures forall it :: it in r ==> it.name !in seen && it.kind == VariableKind
    ensures forall i, j :: 0 <= i < j < |r| ==> r[i].name != r[j].name
    decreases |vars|
  {
    if |vars| == 0 then []
    else
      var v := vars[0].1;
      if v.name in seen || !Offered(prefix, v.name) || !Visible(v, scope) then
        VariableItems(vars[1..], prefix, scope, seen)
      else
        var rest := VariableItems(vars[1..], prefix, scope, seen + {v.name});
        assert forall it :: it in rest ==> it.name != v.name;
        [VariableItem(v)] + rest
  }

  /** A variable item is offered exactly when its name was not offered before,
      the prefix keeps it, and it is made from the first entry declaring that
      name visibly. */
  lemma {:induction false} VariableItemsExact(vars: AList<string, VarDef>, prefix: string, scope: string, seen: set<string>, it: CompletionItem)
    ensures it in VariableItems(vars, prefix, scope, seen) <==>
      && it.name !in seen && Offered(prefix, it.name)
      && FirstVisible(vars, it.name, scope).Some?
      && it == VariableItem(FirstVisible(vars, it.name, scope).value)
    decreases |vars|
  {
    if |vars| > 0 {
      var v := vars[0].1;
      if v.name in seen || !Offered(prefix, v.name) || !Visible(v, scope) {
        VariableItemsExact(vars[1..], prefix, scope, seen, it);
      } else {
        VariableItemsExact(vars[1..], prefix, scope, seen + {v.name}, it);
      }
    }
  }

  /** `provide_completions` */
  function ProvideCompletions(d: ParsedDocument, pos: Position): (r: CompletionList)
    ensures !r.isIncomplete
  {
    var prefix := WordAtCursor(d, pos);
    var scope := CurrentScope(d.functions, pos.line);
    CompletionList(false,
      Filter(prefix, KeywordItems()) + Filter(prefix, BuiltinItems()) + Filter(prefix, ConstantItems())
      + Filter(prefix, LogicalOpItems()) + Filter(prefix, UserFunctionItems(d.functions))
      + VariableItems(d.variables, prefix, scope, {}))
  }

  /** The group an item belongs to, in the order the groups are listed */
  function Group(it: CompletionItem): nat {
    match it.detail
    case KeywordDetail(_) => 0
    case BuiltinDetail(_, _) => 1
    case ConstantDetail(_) => 2
    case LogicalOpDetail(_) => 3
    case UserFunctionDetail(_) => 4
    case VariableDetail(_) => 5
  }

  /** Every item of a sequence is in group `g`. */
  predicate AllIn(items: seq<CompletionItem>, g: nat) {
    forall it :: it in items ==> Group(it) == g
  }

  lemma FilterAllIn(prefix: string, items: seq<CompletionItem>, g: nat)
    requires AllIn(items, g)
    ensures AllIn(Filter(prefix, items), g)
  {
  }

  lemma VariableItemsAllIn(vars: AList<string, VarDef>, prefix: string, scope: string, seen: set<string>)
    ensures AllIn(VariableItems(vars, prefix, scope, seen), 5)
  {
    var r := VariableItems(vars, prefix, scope, seen);
    forall it | it in r ensures Group(it) == 5 {
      VariableItemsExact(vars, prefix, scope, seen, it);
    }
  }

  /** The prefix filter, the document and the cursor decide which items the
      completion list holds: the offered names of each group, and the
      visible variables once per name. */
  lemma CompletionsExact(d: ParsedDocument, pos: Position, it: CompletionItem)
    ensures var prefix := WordAtCursor(d, pos);
            var scope := CurrentScope(d.functions, pos.line);
            (it in ProvideCompletions(d, pos).items <==>
              || (it in KeywordItems() && Offered(prefix, it.name))
              || (it in BuiltinItems() && Offered(prefix, it.name))
              || (it in ConstantItems() && Offered(prefix, it.name))
              || (it in LogicalOpItems() && Offered(prefix, it.name))
              || (it in UserFunctionItems(d.functions) && Offered(prefix, it.name))
              || (Offered(prefix, it.name) && FirstVisible(d.variables, it.name, scope).Some?
                  && it == VariableItem(FirstVisible(d.variables, it.name, scope).value)))
  {
    var prefix := WordAtCursor(d, pos);
    var scope := CurrentScope(d.functions, pos.line);
    VariableItemsExact(d.variables, prefix, scope, {}, it);
  }

  /** The items' groups never decrease, and none is above `g`. */
  predicate Ascending(items: seq<CompletionItem>, g: nat) {
    && (forall i, j :: 0 <= i <= j < |items| ==> Group(items[i]) <= Group(items[j]))
    && (forall it :: it in items ==> Group(it) <= g)
  }

  /** Appending a group no lower than any before it keeps the order. */
  lemma AppendGroup(x: seq<CompletionItem>, y: seq<CompletionItem>, g: nat)
    requires Ascending(x, g) && AllIn(y, g)
    ensures Ascending(x + y, g)
  {
    var z := x + y;
    forall i, j | 0 <= i <= j < |z| ensures Group(z[i]) <= Group(z[j]) {
      if j >= |x| {
        assert z[j] == y[j - |x|];
        if i < |x| {
          assert z[i] == x[i];
        } else {
          assert z[i] == y[i - |x|];
        }
      }
    }
  }

  /** Each table's candidates form one group. */
  lemma TablesGrouped(fs: AList<string, FuncDef>)
    ensures AllIn(KeywordItems(), 0) && AllIn(BuiltinItems(), 1) && AllIn(ConstantItems(), 2)
    ensures AllIn(LogicalOpItems(), 3) && AllIn(UserFunctionItems(fs), 4)
  {
  }

  /** The groups of the completion list, before and after the variables */
  lemma TablesAscending(prefix: string, fs: AList<string, FuncDef>)
    ensures Ascending(Filter(prefix, KeywordItems()) + Filter(prefix, BuiltinItems()) + Filter(prefix, ConstantItems())
      + Filter(prefix, LogicalOpItems()) + Filter(prefix, UserFunctionItems(fs)), 4)
  {
    var a := Filter(prefix, KeywordItems());
    var b := Filter(prefix, BuiltinItems());
    var c := Filter(prefix, ConstantItems());
    var o := Filter(prefix, LogicalOpItems());
    var f := Filter(prefix, UserFunctionItems(fs));
    TablesGrouped(fs);
    FilterAllIn(prefix, KeywordItems(), 0);
    FilterAllIn(prefix, BuiltinItems(), 1);
    FilterAllIn(prefix, ConstantItems(), 2);
    FilterAllIn(prefix, LogicalOpItems(), 3);
    FilterAllIn(prefix, UserFunctionItems(fs), 4);
    assert [] + a == a;
    AppendGroup([], a, 0);
    AppendGroup(a, b, 1);
    AppendGroup(a + b, c, 2);
    AppendGroup(a + b + c, o, 3);
    AppendGroup(a + b + c + o, f, 4);
  }

  /** Items come group by group: keywords, built-ins, constants, logical
      operators, user functions, variables. */
  lemma CompletionsGrouped(d: ParsedDocument, pos: Position)
    ensures Ascending(ProvideCompletions(d, pos).items, 5)
  {
    var prefix := WordAtCursor(d, pos);
    var scope := CurrentScope(d.functions, pos.line);
    var t := Filter(prefix, KeywordItems()) + Filter(prefix, BuiltinItems()) + Filter(prefix, ConstantItems())
      + Filter(prefix, LogicalOpItems()) + Filter(prefix, UserFunctionItems(d.functions));
    var v := VariableItems(d.variables, prefix, scope, {});
    assert ProvideCompletions(d, pos).items == t + v;
    TablesAscending(prefix, d.functions);
    VariableItemsAllIn(d.variables, prefix, scope, {});
    AppendGroup(t, v, 5);
  }
}
