/**
 * The closed vocabularies of SansScript: keywords, built-in functions,
 * constants and word-shaped logical operators, with the English gloss,
 * one-line descriptions and parameter names the editor features show. The
 * longer documentation texts, return types and snippets are not modelled.
 */
module Symbols {
  import opened Wrappers

  datatype KeywordInfo = KeywordInfo(name: string, english: string)

  datatype BuiltinInfo = BuiltinInfo(name: string, english: string, params: seq<string>)

  /** Keywords in declaration order (the order completion lists them in) */
  const Keywords: seq<KeywordInfo> := [
    KeywordInfo("यदि", "if"),
    KeywordInfo("अथवा_यदि", "elif"),
    KeywordInfo("अन्यथा", "else"),
    KeywordInfo("यावत्", "while"),
    KeywordInfo("कार्यम्", "function"),
    KeywordInfo("प्रतिददाति", "return"),
    KeywordInfo("विरम", "break"),
    KeywordInfo("अनुवर्तय", "continue")
  ]

  const IfKeyword := "यदि"
  const ElifKeyword := "अथवा_यदि"
  const ElseKeyword := "अन्यथा"
  const WhileKeyword := "यावत्"
  const FunctionKeyword := "कार्यम्"

  const KeywordNames: set<string> := set kw | kw in Keywords :: kw.name

  /** Constants with their one-line description, in declaration order */
  const Constants: seq<(string, string)> := [
    ("सत्यम्", "true  — Boolean true"),
    ("असत्यम्", "false — Boolean false")
  ]

  /** Word-shaped logical operators with their one-line description */
  const LogicalOps: seq<(string, string)> := [
    ("च", "and — Logical AND"),
    ("वा", "or  — Logical OR"),
    ("न", "not — Logical NOT (prefix)")
  ]

  /** Built-in functions in declaration order */
  const Builtins: seq<BuiltinInfo> := [
    BuiltinInfo("मुद्रय", "print", ["value"]),
    BuiltinInfo("निर्गम", "exit", ["code"]),
    BuiltinInfo("दीर्घता", "length", ["value"]),
    BuiltinInfo("योजय", "append", ["list", "element"]),
    BuiltinInfo("उपपाठ", "substring / sublist", ["value", "start", "end"]),
    BuiltinInfo("अन्वेषय", "find", ["haystack", "needle"]),
    BuiltinInfo("वर्णाङ्क", "char_code", ["string"]),
    BuiltinInfo("अंकवर्ण", "from_char_code", ["code_point"]),
    BuiltinInfo("पाठ्य", "to_string", ["value"]),
    BuiltinInfo("पूर्णाङ्क", "to_int", ["value"]),
    BuiltinInfo("पूर्णाङ्क_पाठ_से", "parse_int", ["string"]),
    BuiltinInfo("विभज", "split", ["string", "delimiter"]),
    BuiltinInfo("सञ्चिका_पठ", "read_file", ["path"])
  ]

  const BuiltinNames: set<string> := set b | b in Builtins :: b.name

  /** The symbolic operators the language defines */
  const Operators: set<string> := {"+", "-", "*", "/", "%", "==", "!=", "<", ">", "<=", ">=", "="}

  /** Keywords whose line introduces an indented body */
  const BlockOpeners: set<string> := {IfKeyword, ElifKeyword, ElseKeyword, WhileKeyword, FunctionKeyword}

  const ConstantNames: set<string> := set c | c in Constants :: c.0
  const LogicalOpNames: set<string> := set o | o in LogicalOps :: o.0
  /** The names the undefined-call check leaves alone: every built-in and
      every keyword, spelled out (`ReservedNamesExact` shows the two agree) */
  const ReservedNames: set<string> := {
    "मुद्रय", "निर्गम", "दीर्घता", "योजय", "उपपाठ", "अन्वेषय", "वर्णाङ्क",
    "अंकवर्ण", "पाठ्य", "पूर्णाङ्क", "पूर्णाङ्क_पाठ_से", "विभज", "सञ्चिका_पठ",
    "यदि", "अथवा_यदि", "अन्यथा", "यावत्", "कार्यम्", "प्रतिददाति", "विरम", "अनुवर्तय"
  }

  /** The word belongs to one of the four closed vocabularies */
  predicate IsKnownWord(w: string) {
    w in KeywordNames || w in BuiltinNames || w in ConstantNames || w in LogicalOpNames
  }

  /** The first entry of `xs` whose name is `name`, if any, as a dict
      lookup keyed by `nameOf` finds it */
  function Find<T>(xs: seq<T>, nameOf: T -> string, name: string): (r: Option<T>)
    ensures r.Some? <==> exists i :: 0 <= i < |xs| && nameOf(xs[i]) == name
    ensures r.Some? ==> r.value in xs && nameOf(r.value) == name
    decreases |xs|
  {
    if |xs| == 0 then None
    else if nameOf(xs[0]) == name then Some(xs[0])
    else
      var r := Find(xs[1..], nameOf, name);
      assert forall i :: 0 < i < |xs| ==> xs[i] == xs[1..][i - 1];
      r
  }

  function KeywordName(k: KeywordInfo): string { k.name }

  function BuiltinName(b: BuiltinInfo): string { b.name }

  /** `KEYWORD_MAP.get(name)`: the keyword entry with that name, if any */
  function KeywordEntry(name: string): (r: Option<KeywordInfo>)
    ensures r.Some? <==> name in KeywordNames
    ensures r.Some? ==> r.value in Keywords && r.value.name == name
  {
    Find(Keywords, KeywordName, name)
  }

  /** `BUILTIN_MAP.get(name)`: the built-in entry with that name, if any */
  function BuiltinEntry(name: string): (r: Option<BuiltinInfo>)
    ensures r.Some? <==> name in BuiltinNames
    ensures r.Some? ==> r.value in Builtins && r.value.name == name
  {
    Find(Builtins, BuiltinName, name)
  }

  /** `CONSTANTS.get(name)`: the description of a constant, if any */
  function ConstantMeaning(name: string): (r: Option<string>)
    ensures r.Some? <==> name in ConstantNames
    ensures r.Some? ==> (name, r.value) in Constants
  {
    if name == Constants[0].0 then Some(Constants[0].1)
    else if name == Constants[1].0 then Some(Constants[1].1)
    else None
  }

  /** `LOGICAL_OPS.get(name)`: the description of a logical operator, if any */
  function LogicalOpMeaning(name: string): (r: Option<string>)
    ensures r.Some? <==> name in LogicalOpNames
    ensures r.Some? ==> (name, r.value) in LogicalOps
  {
    if name == LogicalOps[0].0 then Some(LogicalOps[0].1)
    else if name == LogicalOps[1].0 then Some(LogicalOps[1].1)
    else if name == LogicalOps[2].0 then Some(LogicalOps[2].1)
    else None
  }

  /** A cheap witness of inequality: length, first and last character.
      It happens to be injective on the whole vocabulary. */
  function Fingerprint(w: string): (int, char, char) {
    if |w| == 0 then (0, ' ', ' ') else (|w|, w[0], w[|w| - 1])
  }

  /** A list of distinct strings has as many elements as its set. */
  lemma {:induction false} DistinctCard(names: seq<string>)
    requires forall i, j :: 0 <= i < j < |names| ==> names[i] != names[j]
    ensures |set n | n in names| == |names|
    decreases |names|
  {
    if |names| > 0 {
      var rest := names[1..];
      DistinctCard(rest);
      assert (set n | n in names) == (set n | n in rest) + {names[0]};
      assert names[0] !in rest;
    }
  }

  /** The keyword table has eight entries with distinct names. */
  lemma KeywordTable()
    ensures |Keywords| == 8
    ensures forall i, j :: 0 <= i < j < |Keywords| ==> Keywords[i].name != Keywords[j].name
    ensures |KeywordNames| == 8
  {
    forall i, j | 0 <= i < j < |Keywords| ensures Keywords[i].name != Keywords[j].name {
      assert Fingerprint(Keywords[i].name) != Fingerprint(Keywords[j].name);
    }
    var names := seq(|Keywords|, i requires 0 <= i < |Keywords| => Keywords[i].name);
    DistinctCard(names);
    assert (set n | n in names) == KeywordNames by {
      forall n ensures n in names <==> n in KeywordNames {
        if n in KeywordNames {
          var kw :| kw in Keywords && kw.name == n;
          var i :| 0 <= i < |Keywords| && Keywords[i] == kw;
          assert names[i] == n;
        }
      }
    }
  }

  /** The built-in table has thirteen entries with distinct names. */
  lemma BuiltinTable()
    ensures |Builtins| == 13
    ensures forall i, j :: 0 <= i < j < |Builtins| ==> Builtins[i].name != Builtins[j].name
    ensures |BuiltinNames| == 13
  {
    forall i, j | 0 <= i < j < |Builtins| ensures Builtins[i].name != Builtins[j].name {
      assert Fingerprint(Builtins[i].name) != Fingerprint(Builtins[j].name);
    }
    var names := seq(|Builtins|, i requires 0 <= i < |Builtins| => Builtins[i].name);
    DistinctCard(names);
    assert (set n | n in names) == BuiltinNames by {
      forall n ensures n in names <==> n in BuiltinNames {
        if n in BuiltinNames {
          var b :| b in Builtins && b.name == n;
          var i :| 0 <= i < |Builtins| && Builtins[i] == b;
          assert names[i] == n;
        }
      }
    }
  }

  /** Constant and logical-operator names are the keys of their tables. */
  lemma SmallTables()
    ensures ConstantNames == {"सत्यम्", "असत्यम्"}
    ensures LogicalOpNames == {"च", "वा", "न"}
  {
    ConstantTable();
    LogicalOpTable();
  }

  lemma ConstantTable()
    ensures ConstantNames == {"सत्यम्", "असत्यम्"}
  {
    assert Constants[0] in Constants && Constants[1] in Constants;
  }

  lemma LogicalOpTable()
    ensures LogicalOpNames == {"च", "वा", "न"}
  {
    assert LogicalOps[0] in LogicalOps && LogicalOps[1] in LogicalOps && LogicalOps[2] in LogicalOps;
  }

  /** Five block openers, all of them keywords, the function keyword among them. */
  lemma BlockOpenerFacts()
    ensures |BlockOpeners| == 5
    ensures BlockOpeners <= KeywordNames
    ensures FunctionKeyword in BlockOpeners
  {
    BlockOpenersCount();
    BlockOpenersAreKeywords();
  }

  lemma BlockOpenersCount()
    ensures |BlockOpeners| == 5
  {
  }

  lemma BlockOpenersAreKeywords()
    ensures BlockOpeners <= KeywordNames
  {
    assert Keywords[0] in Keywords && Keywords[1] in Keywords && Keywords[2] in Keywords;
    assert Keywords[3] in Keywords && Keywords[4] in Keywords;
  }

  /** No built-in is named like the `i`-th keyword. */
  lemma KeywordIsNotBuiltin(i: nat)
    requires i < |Keywords|
    ensures forall b :: b in Builtins ==> b.name != Keywords[i].name
  {
    forall j | 0 <= j < |Builtins| ensures Builtins[j].name != Keywords[i].name {
      assert Fingerprint(Keywords[i].name) != Fingerprint(Builtins[j].name);
    }
  }

  /** Keywords and built-ins share no name. */
  lemma KeywordsAreNotBuiltins()
    ensures KeywordNames !! BuiltinNames
  {
    forall w | w in KeywordNames ensures w !in BuiltinNames {
      var kw :| kw in Keywords && kw.name == w;
      var i :| 0 <= i < |Keywords| && Keywords[i] == kw;
      KeywordIsNotBuiltin(i);
    }
  }

  /** The constants and logical operators, listed once */
  const SmallWords: seq<string> := ["सत्यम्", "असत्यम्", "च", "वा", "न"]

  lemma SmallWordsListed(w: string)
    requires w in ConstantNames || w in LogicalOpNames
    ensures w in SmallWords
  {
    SmallTables();
    assert SmallWords[0] == "सत्यम्" && SmallWords[1] == "असत्यम्";
    assert SmallWords[2] == "च" && SmallWords[3] == "वा" && SmallWords[4] == "न";
  }

  /** Neither keywords nor built-ins are constants or logical operators. */
  lemma SmallWordsAreNotLongWords(w: string)
    requires w in ConstantNames || w in LogicalOpNames
    ensures w !in KeywordNames && w !in BuiltinNames
  {
    SmallWordsListed(w);
    var j :| 0 <= j < |SmallWords| && SmallWords[j] == w;
    SmallWordIsNoKeyword(j);
    SmallWordIsNoBuiltin(j);
  }

  lemma SmallWordIsNoKeyword(j: nat)
    requires j < |SmallWords|
    ensures forall kw :: kw in Keywords ==> kw.name != SmallWords[j]
  {
    forall i | 0 <= i < |Keywords| ensures Keywords[i].name != SmallWords[j] {
      assert Fingerprint(Keywords[i].name) != Fingerprint(SmallWords[j]);
    }
  }

  lemma SmallWordIsNoBuiltin(j: nat)
    requires j < |SmallWords|
    ensures forall b :: b in Builtins ==> b.name != SmallWords[j]
  {
    forall i | 0 <= i < |Builtins| ensures Builtins[i].name != SmallWords[j] {
      assert Fingerprint(Builtins[i].name) != Fingerprint(SmallWords[j]);
    }
  }

  lemma SmallWordsApart()
    ensures KeywordNames !! ConstantNames && KeywordNames !! LogicalOpNames
    ensures BuiltinNames !! ConstantNames && BuiltinNames !! LogicalOpNames
  {
    forall w | w in ConstantNames || w in LogicalOpNames
      ensures w !in KeywordNames && w !in BuiltinNames
    {
      SmallWordsAreNotLongWords(w);
    }
  }

  lemma ConstantsAreNotLogicalOps()
    ensures ConstantNames !! LogicalOpNames
  {
    SmallTables();
  }

  /** No word belongs to two vocabularies, so the order in which the lexer
      consults them never decides a classification. */
  lemma VocabulariesDisjoint()
    ensures KeywordNames !! BuiltinNames
    ensures KeywordNames !! ConstantNames
    ensures KeywordNames !! LogicalOpNames
    ensures BuiltinNames !! ConstantNames
    ensures BuiltinNames !! LogicalOpNames
    ensures ConstantNames !! LogicalOpNames
  {
    KeywordsAreNotBuiltins();
    SmallWordsApart();
    ConstantsAreNotLogicalOps();
  }

  /** A word of one vocabulary is in none of the others. */
  lemma VocabularyOf(w: string)
    ensures w in KeywordNames ==> w !in BuiltinNames && w !in ConstantNames && w !in LogicalOpNames
    ensures w in BuiltinNames ==> w !in ConstantNames && w !in LogicalOpNames
    ensures w in ConstantNames ==> w !in LogicalOpNames
  {
    VocabulariesDisjoint();
  }

  /** The `i`-th built-in is reserved. */
  lemma BuiltinReserved(i: nat)
    requires i < |Builtins|
    ensures Builtins[i].name in ReservedNames
  {
    if i < 7 {
      if i == 0 {
      } else if i == 1 {
      } else if i == 2 {
      } else if i == 3 {
      } else if i == 4 {
      } else if i == 5 {
      } else {
        assert i == 6;
      }
    } else {
      if i == 7 {
      } else if i == 8 {
      } else if i == 9 {
      } else if i == 10 {
      } else if i == 11 {
      } else {
        assert i == 12;
      }
    }
  }

  /** The `i`-th keyword is reserved. */
  lemma KeywordReserved(i: nat)
    requires i < |Keywords|
    ensures Keywords[i].name in ReservedNames
  {
    if i == 0 {
    } else if i == 1 {
    } else if i == 2 {
    } else if i == 3 {
    } else if i == 4 {
    } else if i == 5 {
    } else if i == 6 {
    } else {
      assert i == 7;
    }
  }

  /** The `i`-th reserved name: the built-ins first, then the keywords */
  function ReservedAt(i: nat): string
    requires i < |Builtins| + |Keywords|
  {
    if i < |Builtins| then Builtins[i].name else Keywords[i - |Builtins|].name
  }

  /** Every reserved name is a built-in or a keyword. */
  lemma ReservedListed(w: string)
    requires w in ReservedNames
    ensures w in BuiltinNames || w in KeywordNames
  {
    var i: nat :| i < |Builtins| + |Keywords| && ReservedAt(i) == w by {
      ReservedIndex(w);
    }
    ReservedAtListed(i);
  }

  /** The `i`-th reserved name is a built-in or a keyword. */
  lemma ReservedAtListed(i: nat)
    requires i < |Builtins| + |Keywords|
    ensures ReservedAt(i) in BuiltinNames || ReservedAt(i) in KeywordNames
  {
    if i < |Builtins| {
      assert Builtins[i] in Builtins;
    } else {
      assert Keywords[i - |Builtins|] in Keywords;
    }
  }

  /** The position of a reserved name among the built-ins, then the keywords */
  lemma ReservedIndex(w: string)
    requires w in ReservedNames
    ensures exists i: nat :: i < |Builtins| + |Keywords| && ReservedAt(i) == w
  {
    if w in {"मुद्रय", "निर्गम", "दीर्घता", "योजय", "उपपाठ", "अन्वेषय", "वर्णाङ्क", "अंकवर्ण", "पाठ्य", "पूर्णाङ्क", "पूर्णाङ्क_पाठ_से", "विभज", "सञ्चिका_पठ"} {
      BuiltinIndex(w);
    } else {
      KeywordIndex(w);
    }
  }

  lemma BuiltinIndex(w: string)
    requires w in {"मुद्रय", "निर्गम", "दीर्घता", "योजय", "उपपाठ", "अन्वेषय", "वर्णाङ्क", "अंकवर्ण", "पाठ्य", "पूर्णाङ्क", "पूर्णाङ्क_पाठ_से", "विभज", "सञ्चिका_पठ"}
    ensures exists i: nat :: i < |Builtins| + |Keywords| && ReservedAt(i) == w
  {
    if w == "मुद्रय" {
      assert ReservedAt(0) == w;
    } else if w == "निर्गम" {
      assert ReservedAt(1) == w;
    } else if w == "दीर्घता" {
      assert ReservedAt(2) == w;
    } else if w == "योजय" {
      assert ReservedAt(3) == w;
    } else if w == "उपपाठ" {
      assert ReservedAt(4) == w;
    } else if w == "अन्वेषय" {
      assert ReservedAt(5) == w;
    } else if w == "वर्णाङ्क" {
      assert ReservedAt(6) == w;
    } else if w == "अंकवर्ण" {
      assert ReservedAt(7) == w;
    } else if w == "पाठ्य" {
      assert ReservedAt(8) == w;
    } else if w == "पूर्णाङ्क" {
      assert ReservedAt(9) == w;
    } else if w == "पूर्णाङ्क_पाठ_से" {
      assert ReservedAt(10) == w;
    } else if w == "विभज" {
      assert ReservedAt(11) == w;
    } else {
      assert ReservedAt(12) == w;
    }
  }

  lemma KeywordIndex(w: string)
    requires w in {"यदि", "अथवा_यदि", "अन्यथा", "यावत्", "कार्यम्", "प्रतिददाति", "विरम", "अनुवर्तय"}
    ensures exists i: nat :: i < |Builtins| + |Keywords| && ReservedAt(i) == w
  {
    if w == "यदि" {
      assert ReservedAt(13) == w;
    } else if w == "अथवा_यदि" {
      assert ReservedAt(14) == w;
    } else if w == "अन्यथा" {
      assert ReservedAt(15) == w;
    } else if w == "यावत्" {
      assert ReservedAt(16) == w;
    } else if w == "कार्यम्" {
      assert ReservedAt(17) == w;
    } else if w == "प्रतिददाति" {
      assert ReservedAt(18) == w;
    } else if w == "विरम" {
      assert ReservedAt(19) == w;
    } else {
      assert ReservedAt(20) == w;
    }
  }

  /** The reserved names are exactly the built-ins and the keywords. */
  lemma ReservedNamesExact(w: string)
    ensures w in ReservedNames <==> w in BuiltinNames || w in KeywordNames
  {
    if w in ReservedNames {
      ReservedListed(w);
    }
    if w in BuiltinNames || w in KeywordNames {
      VocabularyReserved(w);
    }
  }

  /** Every built-in and keyword is reserved. */
  lemma VocabularyReserved(w: string)
    requires w in BuiltinNames || w in KeywordNames
    ensures w in ReservedNames
  {
    if w in BuiltinNames {
      var b :| b in Builtins && b.name == w;
      var i :| 0 <= i < |Builtins| && Builtins[i] == b;
      BuiltinReserved(i);
    } else {
      var kw :| kw in Keywords && kw.name == w;
      var i :| 0 <= i < |Keywords| && Keywords[i] == kw;
      KeywordReserved(i);
    }
  }
}
