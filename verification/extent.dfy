/**
 * Where the builder ends each function. A function's body runs from the
 * line after its header until the line before the first significant line
 * indented no deeper than the header, or until the header of another
 * function, which ends it on its own line, or until the last line of the
 * document. So no two bodies share a line, and the scope of a line is the
 * one function whose body holds it.
 */
module FunctionExtent {
  import opened Wrappers
  import opened AssocList
  import opened Lexer
  import opened Document
  import opened Lookup

  /** Line `l` holds a header the builder accepts */
  ghost predicate IsHeaderLine(toks: seq<seq<Token>>, indents: seq<nat>, l: int) {
    && 0 <= l < |toks| && l < |indents|
    && StartsFunction(Significant(toks[l]))
    && ParseFuncHeader(Significant(toks[l]), l, indents[l]).Some?
  }

  /** No accepted header lies strictly between the header and the last line of the body. */
  ghost predicate HeaderFree(f: FuncDef, toks: seq<seq<Token>>, indents: seq<nat>) {
    forall l :: f.line < l < f.endLine ==> !IsHeaderLine(toks, indents, l)
  }

  /** Why the body ends where it does: the document ends, the next line is
      significant and indented no deeper than the header, or the last line
      is itself another function's header. */
  ghost predicate EndsProperly(f: FuncDef, toks: seq<seq<Token>>, indents: seq<nat>) {
    || f.endLine == |toks| - 1
    || (&& 0 <= f.endLine + 1 < |toks| && f.endLine + 1 < |indents| && 0 <= f.line < |indents|
        && |Significant(toks[f.endLine + 1])| > 0
        && indents[f.endLine + 1] <= indents[f.line])
    || (f.line < f.endLine && IsHeaderLine(toks, indents, f.endLine))
  }

  /** What the walk keeps about extents after `n` lines: every entry is
      header-free, every entry but the open one has ended properly, and no
      header has been seen since the open function's own. */
  ghost predicate ExtentInv(st: BuildState, toks: seq<seq<Token>>, indents: seq<nat>, n: nat) {
    && n <= |toks| == |indents|
    && UniqueKeys(st.functions)
    && (forall e :: e in st.functions ==> HeaderFree(e.1, toks, indents))
    && (forall e :: e in st.functions ==>
          (st.current.Some? && e.0 == st.current.value.name) || EndsProperly(e.1, toks, indents))
    && (st.current.Some? ==>
          var f := st.current.value;
          && f.line < n
          && st.funcIndent == indents[f.line]
          && forall l :: f.line < l < n ==> !IsHeaderLine(toks, indents, l))
  }

  /** The state after closing or extending on line `n`, before its header is read */
  ghost predicate MidInv(st: BuildState, toks: seq<seq<Token>>, indents: seq<nat>, n: nat) {
    && n < |toks| == |indents|
    && UniqueKeys(st.functions)
    && (forall e :: e in st.functions ==> HeaderFree(e.1, toks, indents))
    && (forall e :: e in st.functions ==>
          (st.current.Some? && e.0 == st.current.value.name) || EndsProperly(e.1, toks, indents))
    && (st.current.Some? ==>
          var f := st.current.value;
          && f.line < n
          && st.funcIndent == indents[f.line]
          && (forall l :: f.line < l < n ==> !IsHeaderLine(toks, indents, l))
          && forall e :: e in st.functions && e.0 == f.name ==> e.1.line < n && e.1.endLine == n)
  }

  /** The open function, ended on the line before `n`, is header-free and
      ended properly. */
  lemma ClosedEntry(st: BuildState, toks: seq<seq<Token>>, indents: seq<nat>, n: nat, f': FuncDef)
    requires ExtentInv(st, toks, indents, n) && n < |toks|
    requires |Significant(toks[n])| > 0
    requires st.current.Some? && indents[n] <= st.funcIndent
    requires f' == st.current.value.(endLine := n - 1)
    ensures HeaderFree(f', toks, indents) && EndsProperly(f', toks, indents)
  {
    assert f'.endLine + 1 == n;
  }

  /** Closing the open function on line `n` ends it properly. */
  lemma CloseExtent(st: BuildState, toks: seq<seq<Token>>, indents: seq<nat>, n: nat, f': FuncDef)
    requires ExtentInv(st, toks, indents, n) && n < |toks|
    requires |Significant(toks[n])| > 0
    requires st.current.Some? && indents[n] <= st.funcIndent
    requires f' == st.current.value.(endLine := n - 1)
    ensures MidInv(BuildState(Put(st.functions, st.current.value.name, f'), st.variables, None, -1), toks, indents, n)
  {
    var f := st.current.value;
    var fs := Put(st.functions, f.name, f');
    PutKeepsKeysUnique(st.functions, f.name, f');
    ClosedEntry(st, toks, indents, n, f');
    forall e | e in fs
      ensures HeaderFree(e.1, toks, indents) && EndsProperly(e.1, toks, indents)
    {
      PutEntry(st.functions, f.name, f', e);
    }
  }

  /** Extending the open function to line `n` keeps it open, ending on `n`. */
  lemma ExtendExtent(st: BuildState, toks: seq<seq<Token>>, indents: seq<nat>, n: nat, f': FuncDef)
    requires ExtentInv(st, toks, indents, n) && n < |toks|
    requires st.current.Some?
    requires f' == st.current.value.(endLine := n)
    ensures MidInv(BuildState(Put(st.functions, st.current.value.name, f'), st.variables, Some(f'), st.funcIndent), toks, indents, n)
  {
    var f := st.current.value;
    var fs := Put(st.functions, f.name, f');
    PutKeepsKeysUnique(st.functions, f.name, f');
    assert HeaderFree(f', toks, indents);
    forall e | e in fs
      ensures HeaderFree(e.1, toks, indents)
      ensures e.0 == f.name || EndsProperly(e.1, toks, indents)
      ensures e.0 == f.name ==> e.1.line < n && e.1.endLine == n
    {
      PutEntry(st.functions, f.name, f', e);
    }
  }

  /** Line `n` closes or extends the open function. */
  lemma CloseOrExtendExtent(st: BuildState, toks: seq<seq<Token>>, indents: seq<nat>, n: nat)
    requires ExtentInv(st, toks, indents, n) && n < |toks|
    requires |Significant(toks[n])| > 0
    ensures MidInv(CloseOrExtend(st, n, indents[n]), toks, indents, n)
  {
    match st.current
    case None =>
    case Some(f) =>
      if indents[n] <= st.funcIndent {
        CloseExtent(st, toks, indents, n, f.(endLine := n - 1));
      } else {
        ExtendExtent(st, toks, indents, n, f.(endLine := n));
      }
  }

  /** A header on line `n` opens a new function; the one it interrupts, if
      still open, ends on this line. */
  lemma HeaderExtent(st: BuildState, toks: seq<seq<Token>>, indents: seq<nat>, n: nat, g: FuncDef, vs: AList<string, VarDef>)
    requires MidInv(st, toks, indents, n)
    requires IsHeaderLine(toks, indents, n)
    requires g == ParseFuncHeader(Significant(toks[n]), n, indents[n]).value
    ensures ExtentInv(BuildState(Put(st.functions, g.name, g), vs, Some(g), indents[n]), toks, indents, n + 1)
  {
    var fs := Put(st.functions, g.name, g);
    PutKeepsKeysUnique(st.functions, g.name, g);
    assert g.line == g.endLine == n;
    forall e | e in fs
      ensures HeaderFree(e.1, toks, indents)
      ensures e.0 == g.name || EndsProperly(e.1, toks, indents)
    {
      PutEntry(st.functions, g.name, g, e);
      if e.0 != g.name && st.current.Some? && e.0 == st.current.value.name {
        assert e.1.line < n && e.1.endLine == n;
        assert IsHeaderLine(toks, indents, e.1.endLine);
      }
    }
  }

  /** A significant line that is not a header keeps the open function open. */
  lemma PlainLineExtent(st: BuildState, toks: seq<seq<Token>>, indents: seq<nat>, n: nat, vs: AList<string, VarDef>)
    requires MidInv(st, toks, indents, n)
    requires !IsHeaderLine(toks, indents, n)
    ensures ExtentInv(st.(variables := vs), toks, indents, n + 1)
  {
  }

  /** A line without significant tokens changes nothing. */
  lemma BlankStepExtent(st: BuildState, toks: seq<seq<Token>>, indents: seq<nat>, n: nat)
    requires ExtentInv(st, toks, indents, n) && n < |toks|
    requires |Significant(toks[n])| == 0
    ensures ExtentInv(st, toks, indents, n + 1)
    ensures Step(st, n, Significant(toks[n]), indents[n]) == st
  {
    assert !IsHeaderLine(toks, indents, n);
  }

  /** A header line keeps the extent invariant, one line on. */
  lemma HeaderStepExtent(st: BuildState, toks: seq<seq<Token>>, indents: seq<nat>, n: nat)
    requires ExtentInv(st, toks, indents, n) && n < |toks|
    requires IsHeaderLine(toks, indents, n)
    ensures ExtentInv(Step(st, n, Significant(toks[n]), indents[n]), toks, indents, n + 1)
  {
    var sig := Significant(toks[n]);
    var indent := indents[n];
    CloseOrExtendExtent(st, toks, indents, n);
    var st1 := CloseOrExtend(st, n, indent);
    var g := ParseFuncHeader(sig, n, indent).value;
    var vs := RegisterParams(st1.variables, g.name, g.params);
    HeaderExtent(st1, toks, indents, n, g, vs);
    assert Step(st, n, sig, indent) == BuildState(Put(st1.functions, g.name, g), vs, Some(g), indent);
  }

  /** A significant line that is not a header keeps the extent invariant, one line on. */
  lemma PlainStepExtent(st: BuildState, toks: seq<seq<Token>>, indents: seq<nat>, n: nat)
    requires ExtentInv(st, toks, indents, n) && n < |toks|
    requires |Significant(toks[n])| > 0 && !IsHeaderLine(toks, indents, n)
    ensures ExtentInv(Step(st, n, Significant(toks[n]), indents[n]), toks, indents, n + 1)
  {
    var sig := Significant(toks[n]);
    var indent := indents[n];
    CloseOrExtendExtent(st, toks, indents, n);
    var st1 := CloseOrExtend(st, n, indent);
    var vs := ExtractAssignment(sig, n, st1.current, st1.variables);
    PlainLineExtent(st1, toks, indents, n, vs);
    assert Step(st, n, sig, indent) == st1.(variables := vs);
  }

  /** One line of the walk keeps the extent invariant. */
  lemma StepExtent(st: BuildState, toks: seq<seq<Token>>, indents: seq<nat>, n: nat)
    requires ExtentInv(st, toks, indents, n) && n < |toks|
    ensures ExtentInv(Step(st, n, Significant(toks[n]), indents[n]), toks, indents, n + 1)
  {
    if |Significant(toks[n])| == 0 {
      BlankStepExtent(st, toks, indents, n);
    } else if IsHeaderLine(toks, indents, n) {
      HeaderStepExtent(st, toks, indents, n);
    } else {
      PlainStepExtent(st, toks, indents, n);
    }
  }

  /** The walk keeps the extent invariant to the end of the document. */
  lemma {:induction false} WalkExtent(st: BuildState, toks: seq<seq<Token>>, indents: seq<nat>, i: nat)
    requires ExtentInv(st, toks, indents, i)
    ensures ExtentInv(Walk(st, toks, indents, i), toks, indents, |toks|)
    decreases |toks| - i
  {
    if i < |toks| {
      StepExtent(st, toks, indents, i);
      WalkExtent(Step(st, i, Significant(toks[i]), indents[i]), toks, indents, i + 1);
    }
  }

  /** Ending the open function on the last line ends every entry properly. */
  lemma FinishExtent(st: BuildState, toks: seq<seq<Token>>, indents: seq<nat>)
    requires ExtentInv(st, toks, indents, |toks|)
    ensures forall e :: e in Finish(st, |toks|) ==>
      HeaderFree(e.1, toks, indents) && EndsProperly(e.1, toks, indents)
  {
    if st.current.Some? {
      var f := st.current.value;
      var f' := f.(endLine := |toks| - 1);
      FinishStores(st, |toks|, f');
      forall e | e in Finish(st, |toks|)
        ensures HeaderFree(e.1, toks, indents) && EndsProperly(e.1, toks, indents)
      {
        PutEntry(st.functions, f.name, f', e);
      }
    }
  }

  /** Every entry of the finished walk over any lines is header-free and
      ended properly. */
  lemma WalkExtents(toks: seq<seq<Token>>, indents: seq<nat>)
    requires |toks| == |indents|
    ensures forall e :: e in Finish(Walk(Start, toks, indents, 0), |toks|) ==>
      HeaderFree(e.1, toks, indents) && EndsProperly(e.1, toks, indents)
  {
    WalkExtent(Start, toks, indents, 0);
    FinishExtent(Walk(Start, toks, indents, 0), toks, indents);
  }

  /** Every function of a parsed document ends where `parse_document` ends
      it: its body lines are indented past its header, no other header
      lies inside it, and it stops at the document's end, before a line
      indented no deeper than the header, or on a nested header's line. */
  lemma FunctionExtents(source: string, e: (string, FuncDef))
    requires e in ParseDocument(source).functions
    ensures var d := ParseDocument(source);
            && BodyIndented(e.1, d.tokens, d.lineIndents)
            && HeaderFree(e.1, d.tokens, d.lineIndents)
            && EndsProperly(e.1, d.tokens, d.lineIndents)
  {
    ParsedBodyIndented(source, e);
    ParsedEntryEnds(source, e);
  }

  lemma ParsedBodyIndented(source: string, e: (string, FuncDef))
    requires e in ParseDocument(source).functions
    ensures var d := ParseDocument(source); BodyIndented(e.1, d.tokens, d.lineIndents)
  {
    var d := ParseDocument(source);
    ParseDocumentWellFormed(source);
    assert FuncOk(e.0, e.1, d.tokens, d.lineIndents, |d.lines|);
  }

  lemma ParsedEntryEnds(source: string, e: (string, FuncDef))
    requires e in ParseDocument(source).functions
    ensures var d := ParseDocument(source);
            HeaderFree(e.1, d.tokens, d.lineIndents) && EndsProperly(e.1, d.tokens, d.lineIndents)
  {
    var d := ParseDocument(source);
    ParseDocumentTables(source);
    WalkExtents(d.tokens, d.lineIndents);
  }

  /** Two entries of a well-formed table come from different header lines. */
  lemma HeaderLinesDistinct(d: ParsedDocument, i: nat, j: nat)
    requires WellFormed(d)
    requires i < j < |d.functions|
    ensures d.functions[i].1.line != d.functions[j].1.line
  {
    var f := d.functions[i].1;
    var g := d.functions[j].1;
    assert FuncOk(d.functions[i].0, f, d.tokens, d.lineIndents, |d.lines|) by {
      assert d.functions[i] in d.functions;
    }
    assert FuncOk(d.functions[j].0, g, d.tokens, d.lineIndents, |d.lines|) by {
      assert d.functions[j] in d.functions;
    }
    assert f.line == g.line ==> f.(endLine := f.line).name == g.(endLine := g.line).name;
  }

  /** Every entry of a well-formed table sits on an accepted header line. */
  lemma EntryOnHeaderLine(d: ParsedDocument, e: (string, FuncDef))
    requires WellFormed(d) && e in d.functions
    ensures IsHeaderLine(d.tokens, d.lineIndents, e.1.line)
  {
    assert FuncOk(e.0, e.1, d.tokens, d.lineIndents, |d.lines|);
  }

  /** A body free of headers cannot share a line with a function whose
      header comes after its own. */
  lemma LaterHeaderOutside(toks: seq<seq<Token>>, indents: seq<nat>, f: FuncDef, g: FuncDef, line: int)
    requires HeaderFree(f, toks, indents) && IsHeaderLine(toks, indents, g.line) && f.line < g.line
    ensures !(Encloses(f, line) && Encloses(g, line))
  {
  }

  /** No line lies in the bodies of two functions of a parsed document. */
  lemma BodiesDisjoint(source: string, line: int, i: nat, j: nat)
    requires var d := ParseDocument(source); i < |d.functions| && j < |d.functions| && i != j
    ensures var fs := ParseDocument(source).functions; !(Encloses(fs[i].1, line) && Encloses(fs[j].1, line))
  {
    var d := ParseDocument(source);
    var fs := d.functions;
    ParseDocumentWellFormed(source);
    if i < j { HeaderLinesDistinct(d, i, j); } else { HeaderLinesDistinct(d, j, i); }
    assert fs[i] in fs && fs[j] in fs;
    FunctionExtents(source, fs[i]);
    FunctionExtents(source, fs[j]);
    EntryOnHeaderLine(d, fs[i]);
    EntryOnHeaderLine(d, fs[j]);
    if fs[i].1.line < fs[j].1.line {
      LaterHeaderOutside(d.tokens, d.lineIndents, fs[i].1, fs[j].1, line);
    } else {
      LaterHeaderOutside(d.tokens, d.lineIndents, fs[j].1, fs[i].1, line);
    }
  }

  /** So the scope of a line inside a function's body is that function. */
  lemma ScopeOfBody(source: string, line: int, k: nat)
    requires var fs := ParseDocument(source).functions; k < |fs| && Encloses(fs[k].1, line)
    ensures var fs := ParseDocument(source).functions; CurrentScope(fs, line) == fs[k].0
  {
    var fs := ParseDocument(source).functions;
    forall j | 0 <= j < |fs| && j != k
      ensures !Encloses(fs[j].1, line)
    {
      BodiesDisjoint(source, line, k, j);
    }
    ScopeOfSoleFunction(fs, line, k);
  }
}
