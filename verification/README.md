# SansScript language server: the analysis core in Dafny

SansScript is a small scripting language. Its keywords and built-ins are
Sanskrit words in Devanagari, and blocks are marked by indentation. The
language server reads a document and answers editor queries about it. This
project models that pipeline as pure Dafny functions and proves what each
stage promises.

- **Lexer** (`Lexer`): `tokenize_line` splits a line into tokens that tile
  the line. The first character picks the rule that scans a token. An
  operator may need a second character (`!` alone is unknown, `!=` is an
  operator), and a word's kind depends on the whole word. `measure_indent` weighs leading blanks, and `_significant_tokens` drops
  whitespace and comments.
- **Document builder** (`Document`): `parse_document` splits the source
  into lines and lexes each one. It then walks the lines once to build two
  tables. The function table is filled from `कार्यम् name(params):` headers,
  with each function's last body line found by indentation. The variable
  table holds first assignments and parameters, keyed `scope:name` inside
  a function.
- **Function extents** (`FunctionExtent`): where the walk ends each
  function's body, and why no line lies in two bodies, so the scope of a
  line is well defined.
- **Vocabulary** (`Symbols`): the keyword, built-in, constant and
  logical-operator tables, and the block openers. The names the call check
  excludes (built-ins and keywords) are also written out as one literal set,
  `ReservedNames`, proved equal to the union of the two tables' names.
- **Analyzer** (`Analyzer`): `analyze` runs five checks and concatenates
  their diagnostics:
  - missing indentation after a block opener;
  - malformed headers and keyword lines;
  - orphaned `elif`/`else`;
  - unbalanced parentheses and brackets on a line;
  - calls of undefined functions.
- **Semantic tokens** (`SemanticTokens`): classifies every highlighted
  token against the legend. It delta-encodes the tokens as quintuples the
  editor decodes.
- **Queries** (`Lookup`, `Completion`, `Hover`, `Definition`):
  - the token under the cursor;
  - the function whose body encloses a line, and the variable a name
    refers to there;
  - completion lists, hover contents, go-to-definition and the document
    outline.

Python dictionaries are insertion-ordered association lists
(`AssocList`). `str.strip`, `split`, `startswith` and `endswith` are
written out in `Text`.

## Model

| member | source | states |
|---|---|---|
| Symbols.Find | SansScript_LSP/symbols.py:65 | A name-keyed lookup succeeds exactly when some entry has that name, and what it returns is an entry of the table with that name |
| Symbols.KeywordEntry | SansScript_LSP/symbols.py:65 | A keyword lookup succeeds exactly for the keyword names; the entry returned is the table's entry of that name |
| Symbols.BuiltinEntry | SansScript_LSP/symbols.py:160 | A built-in lookup succeeds exactly for the built-in names; the entry returned is the table's entry of that name |
| Symbols.ConstantMeaning | SansScript_LSP/symbols.py:68-71 | A constant has a description exactly when it is one of the constants, and the description is the one the table pairs with it |
| Symbols.LogicalOpMeaning | SansScript_LSP/symbols.py:73-77 | A logical operator has a description exactly when it is one of the word-shaped logical operators, and the description is its table entry |
| Symbols.KeywordTable | SansScript_LSP/symbols.py:24-66 | Eight keywords with pairwise distinct names, so the name set has eight members and the name-keyed map loses nothing |
| Symbols.BuiltinTable | SansScript_LSP/symbols.py:79-161 | Thirteen built-ins with pairwise distinct names, so the name-keyed map loses nothing |
| Symbols.SmallTables | SansScript_LSP/symbols.py:68-77 | The constant names are true and false, and the logical operators are and, or and not, as the Sanskrit words of the tables |
| Symbols.BlockOpenerFacts | SansScript_LSP/symbols.py:169 | There are five block openers, all keywords, the function keyword among them |
| Symbols.ReservedNamesExact | SansScript_LSP/symbols.py:66-161 | A word is reserved exactly when it is a built-in or a keyword name |
| Symbols.VocabulariesDisjoint | SansScript_LSP/symbols.py:171-173 | The four vocabularies are pairwise disjoint, so a known word belongs to exactly one class |
| Lexer.RunEnd | sanslsp/parser.py:120-124 | The end of a character run is the first position at or after the start that is outside the class; every character before it is inside |
| Lexer.WordKindExact | sanslsp/parser.py:149-159 | A word is a keyword, built-in, constant or logical operator exactly when it is in that vocabulary, and an identifier exactly when it is in none; the priority order never decides |
| Lexer.Scan | sanslsp/parser.py:113-199 | The token at a position is non-empty and ends within the line; a comment runs to the end of the line, an unknown character is one character, and every word is found as a plain identifier, before any vocabulary lookup |
| Lexer.KindOf | sanslsp/parser.py:149-160 | A token's final kind is the scanner's kind, except that a word gets one of the word kinds |
| Lexer.ScanByFirstChar | sanslsp/parser.py:116-198 | Each token kind holds exactly when its first character says so: `#` comment, blank whitespace, quote string, digit number, identifier start word; two-character operators win over one-character ones; anything else is unknown |
| Lexer.ScanRuns | sanslsp/parser.py:120-161 | Whitespace, number and word tokens cover the maximal run of their character class; a string runs from its quote through the next quote, with no quote inside, or to the end of the line when no quote closes it |
| Lexer.Tokenize | sanslsp/parser.py:103-201 | The tokens tile the line from column 0 to its end without gaps or overlap, each token's value is its slice of the line, and a comment is always the last token |
| Lexer.TokenizeScans | sanslsp/parser.py:113-201 | Every token of a line is what the scanner finds at its column: the same end, and the same kind up to the vocabulary lookup of words |
| Lexer.WordsClassified | sanslsp/parser.py:144-161 | Every word token of a line has the kind of the first vocabulary, in priority order, that holds it, and is an identifier when none does |
| Lexer.RoundTrip | sanslsp/parser.py:103-201 | Lexing loses nothing: the token values of a line concatenate back to the line |
| Lexer.ColumnsIncrease | sanslsp/parser.py:113-199 | In the lexer's output a later token starts at or after the end of an earlier one |
| Lexer.TokenizeLine | sanslsp/parser.py:103-201 | The single left-to-right loop of the original produces exactly the tokens of the recursive definition |
| Lexer.MeasureIndent | sanslsp/parser.py:204-217 | Indentation is zero exactly when the line does not start with a blank, is at least one otherwise, and is at most four per character |
| Lexer.IndentIsFirstTokenWeight | sanslsp/parser.py:204-217 | The indentation of a line is the weight (space 1, tab 4) of its leading whitespace token, and zero when there is none |
| Lexer.SignificantMembers | sanslsp/parser.py:220-225 | The significant tokens are exactly the tokens of the line that are neither whitespace nor comments |
| Lexer.VocabularyWordIsOneToken | sanslsp/parser.py:144-161 | A vocabulary word on its own lexes as one token of its class, never as an identifier |
| Document.SplitLines | sanslsp/parser.py:233-237 | There is at least one line, and no line contains a newline |
| Document.SplitLinesRejoin | sanslsp/parser.py:233-237 | Joining the lines with newlines gives the source back, less one final newline when the source ends with one |
| Document.SplitLinesJoin | sanslsp/parser.py:233-237 | Lines saved with a final newline read back as the same lines |
| Document.CollectParams | sanslsp/parser.py:316-322 | The parameters are exactly the identifiers from the given index up to the first closing parenthesis |
| Document.IdentifierParamsMembers | sanslsp/parser.py:316-322 | The parameters read from a run of tokens are exactly those its identifier tokens name |
| Document.CollectParamsInOrder | sanslsp/parser.py:316-322 | The collected parameter list is the identifiers before the first closing parenthesis, in their order on the line, with every other token passed over |
| Document.ParseFuncHeader | sanslsp/parser.py:293-331 | A header is accepted exactly when it has at least four significant tokens, an identifier second and an opening parenthesis later; the function gets that name and column, starts and ends on the header line, has body indentation four deeper, and its parameters are exactly the identifiers between the first `(` and the next `)` |
| Document.HeaderParamsInOrder | sanslsp/parser.py:309-331 | An accepted header's parameter list is the identifiers between its first `(` after the name and the next `)` (or the line's end), in order |
| Document.RegisterParams | sanslsp/parser.py:273-276 | Registering parameters only appends entries; each new entry is a parameter under the key `function:parameter`, and every parameter's key ends up present |
| Document.ExtractAssignment | sanslsp/parser.py:334-358 | A line that is no assignment changes nothing; an assignment only appends, under the scoped or bare key, a record of its name, line, column and scope, and never replaces an existing record |
| Document.ParseDocument | sanslsp/parser.py:228-290 | The document's lines are the split source, with one token list and one indentation per line, each computed from that line |
| Document.ParseDocumentWellFormed | sanslsp/parser.py:228-290 | Every parsed document is well formed: unique keys; each function entry is a header of its name that ends within the document, on or after its line, with its body indented; each variable entry points at an identifier of its line under the key its scope demands; every parameter is registered |
| FunctionExtent.WalkExtents | sanslsp/parser.py:252-282 | After the walk over any lines, no function's body holds another accepted header, and each body ends at the last line, before a significant line indented no deeper than its header, or on the line of the header that interrupts it |
| FunctionExtent.FunctionExtents | sanslsp/parser.py:252-282 | Every function of a parsed document has its body lines indented past the header, holds no other header, and ends for one of those three reasons |
| FunctionExtent.BodiesDisjoint | sanslsp/parser.py:252-282 | No line of a parsed document lies in the bodies of two of its functions |
| FunctionExtent.ScopeOfBody | sanslsp/completion.py:135-140 | In a parsed document the scope of a line inside a function's body is that function |
| Document.DocumentRoundTrip | sanslsp/parser.py:233-247 | The tokens of the document spell the lines, and the lines joined by newlines spell the source, less one final newline |
| Document.FunctionEntriesAreHeaders | sanslsp/parser.py:267-271 | Every function entry comes from a well-formed header line of that name |
| Document.HeadersHaveEntries | sanslsp/parser.py:267-271 | Every well-formed header line of the document leaves an entry for its name |
| Document.FunctionNamesAreHeaders | sanslsp/parser.py:249-282 | A name is in the function table exactly when some line is a well-formed header of it |
| Document.VariablesOnlyGrow | sanslsp/parser.py:249-279 | The walk never removes or changes a variable entry; the table before each line is a prefix of the table after it |
| Analyzer.LineKindsExclusive | sanslsp/analyzer.py:136-157 | No stripped line is of two of the if, elif and else shapes, so the order of the tests in the orphan check does not matter |
| Analyzer.IndentFrom | sanslsp/analyzer.py:54-81 | The indentation loop reports only missing-indentation warnings over whole lines of the document, at or after its start line, on strictly increasing lines |
| Analyzer.IndentationExact | sanslsp/analyzer.py:54-81 | The indentation check warns about a line exactly when it is code and the nearest code line above opens a block while the line is not indented deeper; its warnings are on strictly increasing lines, so at most one per line |
| Analyzer.OrphansFrom | sanslsp/analyzer.py:125-157 | The orphan loop reports only elif and else errors over whole lines of the document, at or after its start line, on strictly increasing lines |
| Analyzer.OrphansExact | sanslsp/analyzer.py:125-157 | The orphan check reports an elif (else) line exactly when no if at its indentation is open above it; its errors are on strictly increasing lines, so at most one per line |
| Analyzer.FunctionLineDiagnostics | sanslsp/analyzer.py:91-104 | A line led by the function keyword that contains `(` is reported for a missing final colon, else for a missing `)`, else not at all |
| Analyzer.KeywordLineDiagnostics | sanslsp/analyzer.py:106-122 | A line led by if, while, elif or else is reported exactly when it lacks its final colon, with the message for else or the one naming the keyword |
| Analyzer.HeaderFindings | sanslsp/analyzer.py:91-122 | The block check yields at most one error per line, over the whole line, of the block-structure kind, although its three tests are made independently |
| Analyzer.HeaderLineDiagnostics | sanslsp/analyzer.py:91-104 | A header the parser accepts always contains `(`, so it is reported only for a missing colon or a missing `)` |
| Analyzer.DepthsAreCounts | sanslsp/analyzer.py:163-173 | The final parenthesis and bracket depths are the opening counts minus the closing counts |
| Analyzer.BracketsExact | sanslsp/analyzer.py:160-186 | A line is reported for parentheses (brackets) exactly when it has unequally many opening and closing ones |
| Analyzer.CallsFromExact | sanslsp/analyzer.py:191-205 | The scan of a lexed line from a token on reports the call diagnostic of a later token exactly when the call tests pass at that token; no other token yields the same diagnostic, and the diagnostics start at strictly increasing columns, so each call is reported once |
| Analyzer.CallsFromIncreasing | sanslsp/analyzer.py:191-205 | The call scan of a lexed line reports left to right, at most one diagnostic per token: their start columns strictly increase |
| Analyzer.NextNonBlank | sanslsp/analyzer.py:208-213 | The next token at or after the start that is not whitespace (a comment counts), with only whitespace before it, or the end of the line when there is none |
| Analyzer.ReportsCallAtExact | sanslsp/analyzer.py:193-200 | On a lexed line the built-in and keyword tests never fire: the tests pass at a token exactly when it is an identifier followed, after whitespace, by `(` and its name is no user function |
| Analyzer.AnalyzeParts | sanslsp/analyzer.py:38-51 | The analyser reports a diagnostic exactly when the check of its message kind finds it |
| Analyzer.AnalyzeIssued | sanslsp/analyzer.py:38-51 | Every reported diagnostic is on a line of the document, carries the severity its kind has, and spans the whole line unless it is a call |
| Analyzer.ReportsMissingIndent | sanslsp/analyzer.py:54-81 | The analyser's output holds the missing-indentation warning for a line exactly when the reference rule expects an indented line there |
| Analyzer.ReportsOrphanElif | sanslsp/analyzer.py:136-146 | The analyser's output holds an orphaned-elif error exactly when no if at that indentation is open |
| Analyzer.ReportsOrphanElse | sanslsp/analyzer.py:147-155 | The analyser's output holds an orphaned-else error exactly when no if at that indentation is open |
| Analyzer.ReportsBrackets | sanslsp/analyzer.py:160-186 | The analyser reports unbalanced parentheses (brackets) on a line exactly when their counts differ |
| Analyzer.ReportsUndefinedCall | sanslsp/analyzer.py:189-205 | The analyser reports a token of a lexed line exactly when it is an identifier called with `(` and its name is not a key of the function table |
| Analyzer.ReportsCallsOfUndeclared | sanslsp/analyzer.py:189-205 | In a parsed document a call is reported exactly when no line of the document is a well-formed header of the called name |
| Analyzer.RangesWithinLines | sanslsp/analyzer.py:22-35 | Every diagnostic of a parsed document lies within the text of its line |
| SemanticTokens.ParamNames | sanslsp/semantic_tokens.py:61-64 | The parameter set holds exactly the parameter names of all functions |
| SemanticTokens.ClassifyMeansRole | sanslsp/semantic_tokens.py:28-81 | A token is highlighted exactly when its kind is not skipped, and its legend index names its role: function names as functions, parameter names as parameters |
| SemanticTokens.LegendDistinct | sanslsp/semantic_tokens.py:10-20 | The legend entries are distinct, so each role has one index |
| SemanticTokens.Emitted | sanslsp/semantic_tokens.py:68-81 | Only tokens of the document are emitted, each with the index its classification gives, and every token that classifies is emitted |
| SemanticTokens.EmittedAppend | sanslsp/semantic_tokens.py:67-89 | Emission distributes over concatenation, so the highlighted tokens keep the order of the document's tokens and each appears once per occurrence |
| SemanticTokens.Encode | sanslsp/semantic_tokens.py:83-89 | Five integers per highlighted token, and the encoder ends at the position of the last highlighted token |
| SemanticTokens.RoundTrip | sanslsp/semantic_tokens.py:83-89 | When tokens come line by line, decoding the data gives back every highlighted token's line, column, length and type, in order |
| SemanticTokens.EncodeLine | sanslsp/semantic_tokens.py:69-89 | The inner loop over one line continues the encoding of the lines before it |
| SemanticTokens.ProvideSemanticTokens | sanslsp/semantic_tokens.py:52-91 | The nested loop over lines and tokens computes the encoding of the document's tokens in line order, classified with the function names and the parameter set |
| SemanticTokens.DeltasFit | sanslsp/semantic_tokens.py:83-89 | Encoding tokens in reading order gives non-negative deltas, positive lengths, a legend index and zero modifiers, and a same-line delta is positive after the first token |
| SemanticTokens.DocumentOrdered | sanslsp/semantic_tokens.py:68-69 | A parsed document's tokens, line after line, are in reading order |
| SemanticTokens.DocumentEncoding | sanslsp/semantic_tokens.py:52-91 | The semantic tokens of every parsed document decode to its highlighted tokens, and every quintuple fits |
| Lookup.TokenAt | sanslsp/hover.py:83-90 | The token found is on the cursor's line, covers the cursor's column and is not whitespace; when none is found, no token of the line does |
| Lookup.TokenAtExact | sanslsp/hover.py:83-90 | On a lexed line the token found is exactly the one non-whitespace token covering the cursor's column |
| Lookup.EnclosingFunction | SansScript_LSP/definition.py:119-123 | The first function entry, in table order, whose body encloses the line |
| Lookup.CurrentScope | sanslsp/completion.py:135-140 | The scope of a line is the key of the first function, in table order, whose body encloses the line, and the global scope when none does |
| Lookup.FindVariable | sanslsp/hover.py:93-112 | A variable is found exactly when its scoped key exists inside a function or its bare name exists; the scoped entry wins, otherwise the bare entry is returned |
| Completion.IdentCharIsIdentPart | sanslsp/completion.py:124-132 | The cursor's word characters are exactly the lexer's identifier characters |
| Completion.IdentRunStart | sanslsp/completion.py:118-120 | The backward scan stops at the start of the maximal run of word characters ending at the cursor |
| Completion.WordAtCursor | sanslsp/completion.py:112-121 | Past the last line the prefix is empty; otherwise it is the maximal run of word characters ending at the cursor, clamped to the line's end |
| Completion.Filter | sanslsp/completion.py:34-92 | The prefix filter keeps exactly the items whose name starts with the prefix, never more items than it was given, and keeps everything for an empty prefix |
| Completion.FilterAppend | sanslsp/completion.py:34-92 | Filtering distributes over concatenation, so the kept items stay in their order and each is kept once per occurrence |
| Completion.FirstVisible | sanslsp/completion.py:95-107 | The result is a visible declaration of the name from the table, and it is the first entry in table order that declares the name visibly; none when no entry does |
| Completion.VariableItems | sanslsp/completion.py:94-107 | The variable items have distinct names, none already offered, all of variable kind |
| Completion.VariableItemsExact | sanslsp/completion.py:94-107 | A variable item is offered exactly when the prefix keeps its name and it is made from the first entry declaring that name visibly (global or of the cursor's scope) |
| Completion.ProvideCompletions | sanslsp/completion.py:24-109 | The completion list is always complete |
| Completion.CompletionsExact | sanslsp/completion.py:24-109 | An item is offered exactly when it is a keyword, built-in, constant, logical operator or user function the prefix keeps, or a visible variable, once per name |
| Completion.CompletionsGrouped | sanslsp/completion.py:24-109 | Items are listed group by group: keywords, built-ins, constants, logical operators, user functions, then variables |
| Hover.ProvideHover | sanslsp/hover.py:12-80 | A hover is over the token under the cursor, describes that token (its table entry, its function, the variable it refers to, or its literal text), and its range is the token's span, covering the cursor |
| Hover.VocabularyEntry | sanslsp/hover.py:24-48 | A token the lexer classifies as a vocabulary word is in that vocabulary, so its table lookup succeeds |
| Hover.HoverExact | sanslsp/hover.py:12-80 | On a lexed line a hover appears exactly over a vocabulary word, a string or number literal, or an identifier naming a user function or a variable visible from the cursor's line |
| Hover.ContentExists | sanslsp/hover.py:24-72 | A token whose word is in its vocabulary has hover content exactly when it is a vocabulary word, a literal, or an identifier naming a function or a visible variable |
| Hover.HoverOnCursorLine | sanslsp/hover.py:74-80 | The hover range is on the cursor's line |
| Definition.DefinitionOf | SansScript_LSP/definition.py:33-62 | A name has a target exactly when it is a function or a variable visible from the line; a function wins and targets its name in the header, otherwise the variable's name where it is first assigned |
| Definition.ProvideDefinition | SansScript_LSP/definition.py:17-62 | A location is given only for an identifier or built-in under the cursor, with the document's URI and a one-line range; for such a token it is given exactly when the name has a target, and its range is that target |
| Definition.FunctionTarget | SansScript_LSP/definition.py:35-43 | In a parsed document a function's target is the columns of a token on its header line that spells the function's name |
| Definition.VariableTarget | SansScript_LSP/definition.py:45-60 | In a parsed document a variable's target is the columns of an identifier token, on the line of its first assignment, that spells the variable's name |
| Definition.GlobalVariableSymbolsExact | SansScript_LSP/definition.py:91-104 | A variable is in the outline exactly when its scope is global |
| Definition.ProvideDocumentSymbols | SansScript_LSP/definition.py:65-106 | The outline lists every function in table order with its name, followed only by variables |
| Definition.DocumentSymbolsExact | SansScript_LSP/definition.py:65-106 | An outline entry is exactly a function's entry or a global variable's entry |
| Definition.GlobalVariableSymbolsAppend | SansScript_LSP/definition.py:91-104 | The variable part of the outline distributes over concatenation of the table, so global variables appear once per entry, in table order |
| Definition.ParsedEndLinesValid | SansScript_LSP/definition.py:75-78 | In a parsed document no function ends before its header, so the outline's line lookup is always defined |
| Definition.FunctionSymbolNests | SansScript_LSP/definition.py:75-82 | In a parsed document a function's outline range ends at the end of a real line and contains the range of its name |

## Left out

- The server loop and protocol plumbing: `server.py` and both `__main__.py`, including document storage and change notifications. The protocol records (`Position`, `Range`, `Diagnostic`, `CompletionItem`, `Hover`, `DocumentSymbol`) are plain datatypes here.
- Markdown, snippets and message text. Hover contents, completion details, snippets and diagnostic messages are tags that hold the data the text is formatted from. The documentation strings and the snippet and return-type fields of the tables are left out.
- Regular expressions. The character classes of the lexer's regexes are written as code-point predicates.
- Editor positions. They are counted in code points (Dafny characters), not in UTF-16 units.
- Negative end lines. Python would index a negative end line from the end of the list. A parsed document never has one (Definition.ParsedEndLinesValid), so the outline requires non-negative end lines.
- Duplicate helpers. `_token_at_position` and `_current_scope` have identical copies in the hover, completion and definition modules, and `_find_variable` matches the variable lookup inside `provide_definition`. Each is modelled once, in `Lookup`.
- Duplicate files. The repository has a second copy of the parser (`SansScript_LSP/parser.py`) and of the symbol tables (`sanslsp/symbols.py`). This model follows `sanslsp/parser.py` and `SansScript_LSP/symbols.py` and assumes the copies agree.
- Semantic token modifiers. The modifier legend is listed (`SemanticTokens.ModifierLegend`), but no token sets a modifier: the modifier field is always zero, as in the source.
- Analyzer.Analyze: no ensures of its own. What it reports is stated by Analyzer.AnalyzeParts, Analyzer.AnalyzeIssued and the `Reports…` lemmas.
- SemanticTokens.ProvideSemanticTokens: the nested loop is a loop over lines that calls a per-line method, and the flattened token list is its specification.
- Definition.VariableTarget: states that the target token spells the variable entry's name, not that this name equals the name under the cursor. Entries found by the scoped key are not re-derived from the key.
- Completion.ProvideCompletions: its own ensures states only completeness. The contents and order are stated by Completion.CompletionsExact and Completion.CompletionsGrouped.
- Document.ParseDocumentWellFormed: does not state that a later header with an existing name replaces the earlier entry, nor that an assignment's scope is the function open on its line. The first shows in Document.FunctionNamesAreHeaders only as key presence; the second only in the key shape of each variable entry.
- The `global` sentinel. The global scope is the string `global`, so a user function named `global` shares its name with the global scope. The model keeps this behaviour as written.
