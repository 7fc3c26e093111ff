/** The names an emitted grammar defines: rules, quoted terminators, built-in ones and the three that
    follow, and when one of them is defined twice. */
module Definitions {
  import opened Ast
  import opened Terminals
  import opened Emitting

  /** A lexer rule's name and pattern. */
  type LexerDef = (string, string)

  function PrintDefs(os: string, defs: seq<LexerDef>): string {
    if defs == [] then os
    else PrintDefs(os, defs[..|defs| - 1]) + LexerRule(defs[|defs| - 1].0, defs[|defs| - 1].1)
  }

  const LAST: seq<LexerDef> := [
    ("Identifier", "[a-zA-Z][a-zA-Z0-9_]*"), ("WS", "[ \\r\\n\\t] -> skip"), ("Comment", "'#' .*? '\\n' ->skip")]

  function CustomDefs(customs: seq<string>): seq<LexerDef> {
    seq(|customs|, k requires 0 <= k < |customs| => (Capitalised(customs[k]), "'" + customs[k] + "'"))
  }

  function BuiltinDefs(patterns: map<string, string>, builtins: seq<string>): seq<LexerDef>
    requires forall k :: 0 <= k < |builtins| ==> builtins[k] in patterns
  {
    seq(|builtins|, k requires 0 <= k < |builtins| => (builtins[k], patterns[builtins[k]]))
  }

  // ----- the lexer part of the file is the list of these definitions -----

  lemma {:induction false} PrintConcat(os: string, a: seq<LexerDef>, b: seq<LexerDef>)
    ensures PrintDefs(os, a + b) == PrintDefs(PrintDefs(os, a), b)
  {
    if b == [] {
      assert a + b == a;
    } else {
      assert (a + b)[..|a + b| - 1] == a + b[..|b| - 1] && (a + b)[|a + b| - 1] == b[|b| - 1];
      hide LexerRule;
      PrintConcat(os, a, b[..|b| - 1]);
    }
  }

  lemma {:induction false} CustomsAreDefs(os: string, customs: seq<string>)
    ensures PrintCustoms(os, customs) == PrintDefs(os, CustomDefs(customs))
  {
    hide LexerRule, Capitalised;
    if customs != [] {
      var n := |customs| - 1;
      assert CustomDefs(customs)[..n] == CustomDefs(customs[..n]);
      CustomsAreDefs(os, customs[..n]);
    }
  }

  lemma {:induction false} BuiltinsAreDefs(os: string, patterns: map<string, string>, builtins: seq<string>)
    requires forall k :: 0 <= k < |builtins| ==> builtins[k] in patterns
    ensures PrintBuiltins(os, patterns, builtins) == PrintDefs(os, BuiltinDefs(patterns, builtins))
  {
    hide LexerRule;
    if builtins != [] {
      var n := |builtins| - 1;
      assert BuiltinDefs(patterns, builtins)[..n] == BuiltinDefs(patterns, builtins[..n]);
      BuiltinsAreDefs(os, patterns, builtins[..n]);
    }
  }

  /** A blank line completes the last rule. */
  lemma BlankLine(name: string, pattern: string)
    ensures name + "\n" + "  : " + pattern + "\n  ;\n" + "\n" == LexerRule(name, pattern)
  {
    assert "\n  ;\n" + "\n" == "\n  ;\n\n";
    assert name + "\n" + "  : " + pattern + "\n  ;\n" + "\n" == name + "\n" + "  : " + pattern + ("\n  ;\n" + "\n");
  }

  lemma ThreeMore(os: string, a: LexerDef, b: LexerDef, c: LexerDef)
    ensures PrintDefs(os, [a, b, c]) == os + (LexerRule(a.0, a.1) + LexerRule(b.0, b.1) + LexerRule(c.0, c.1))
  {
    hide LexerRule;
    assert [a, b, c][..2] == [a, b] && [a, b][..1] == [a] && [a][..0] == [];
    assert PrintDefs(os, [a]) == os + LexerRule(a.0, a.1);
    assert PrintDefs(os, [a, b]) == PrintDefs(os, [a]) + LexerRule(b.0, b.1);
  }

  lemma LastIsDefs(os: string)
    ensures os + WS_AND_COMMENT + "\n" == PrintDefs(os, LAST)
  {
    BlankLine(LAST[2].0, LAST[2].1);
    ThreeMore(os, LAST[0], LAST[1], LAST[2]);
    hide LexerRule, PrintDefs;
  }

  function LexerDefs(customs: seq<string>, builtins: seq<string>): seq<LexerDef>
    requires forall k :: 0 <= k < |builtins| ==> builtins[k] in BUILTIN
  {
    CustomDefs(customs) + BuiltinDefs(BUILTIN, builtins) + LAST
  }

  /** After the rules, the file consists of the lexer definitions and nothing else. */
  lemma FileIsDefs(os: string, grammarName: string, m: Module, customs: seq<string>, builtins: seq<string>)
    requires forall k :: 0 <= k < |builtins| ==> builtins[k] in BUILTIN
    ensures PrintAntlr(os, grammarName, m, customs, builtins) + "\n" ==
      PrintDefs(PrintRules(os + "grammar " + grammarName + ";\n\n", m.rules), LexerDefs(customs, builtins))
  {
    var ruled := PrintRules(os + "grammar " + grammarName + ";\n\n", m.rules);
    hide PrintRules, PrintCustoms, PrintBuiltins, PrintDefs, CustomDefs, BuiltinDefs, BUILTIN, WS_AND_COMMENT, LAST;
    CustomsAreDefs(ruled, customs);
    BuiltinsAreDefs(PrintCustoms(ruled, customs), BUILTIN, builtins);
    LastIsDefs(PrintBuiltins(PrintCustoms(ruled, customs), BUILTIN, builtins));
    PrintConcat(ruled, CustomDefs(customs), BuiltinDefs(BUILTIN, builtins));
    PrintConcat(ruled, CustomDefs(customs) + BuiltinDefs(BUILTIN, builtins), LAST);
  }

  // ----- names -----

  function RuleNames(rules: seq<Rule>): seq<string> {
    seq(|rules|, k requires 0 <= k < |rules| => rules[k].name)
  }

  function CustomNames(customs: seq<string>): seq<string> {
    seq(|customs|, k requires 0 <= k < |customs| => Capitalised(customs[k]))
  }

  const LAST_NAMES: seq<string> := ["Identifier", "WS", "Comment"]

  /** All names the file defines, in order. */
  function Names(m: Module, customs: seq<string>, builtins: seq<string>): seq<string> {
    RuleNames(m.rules) + (CustomNames(customs) + (builtins + LAST_NAMES))
  }

  /** The lexer part of the names are those of the lexer definitions. */
  lemma NamesOfDefs(customs: seq<string>, builtins: seq<string>)
    requires forall k :: 0 <= k < |builtins| ==> builtins[k] in BUILTIN
    ensures var names := CustomNames(customs) + (builtins + LAST_NAMES);
      |names| == |LexerDefs(customs, builtins)|
      && forall k :: 0 <= k < |names| ==> names[k] == LexerDefs(customs, builtins)[k].0
  {
    hide BUILTIN, Capitalised;
  }

  predicate NoneTwice(names: seq<string>) {
    forall i, j :: 0 <= i < j < |names| ==> names[i] != names[j]
  }

  predicate Disjoint(a: seq<string>, b: seq<string>) { forall s :: s in a ==> s !in b }

  lemma NoneTwiceConcat(a: seq<string>, b: seq<string>)
    ensures NoneTwice(a + b) <==> NoneTwice(a) && NoneTwice(b) && Disjoint(a, b)
  {
    var c := a + b;
    assert forall i :: 0 <= i < |a| ==> c[i] == a[i];
    assert forall j :: 0 <= j < |b| ==> c[|a| + j] == b[j];
    if NoneTwice(c) {
      forall i, j | 0 <= i < j < |b| ensures b[i] != b[j] { assert c[|a| + i] != c[|a| + j]; }
      forall s | s in a ensures s !in b {
        var i :| 0 <= i < |a| && a[i] == s;
        forall j | 0 <= j < |b| ensures b[j] != s { assert c[i] != c[|a| + j]; }
      }
    }
    if NoneTwice(a) && NoneTwice(b) && Disjoint(a, b) {
      forall i, j | 0 <= i < j < |c| ensures c[i] != c[j] {
        if i < |a| && |a| <= j {
          assert a[i] in a && b[j - |a|] in b;
        }
      }
    }
  }

  /** A list of all elements of a set, as many as there are, has none twice. */
  lemma EnumeratedOnce(order: seq<string>, s: set<string>)
    requires Enumerates(order, s)
    ensures NoneTwice(order)
  {
    if i, j :| 0 <= i < j < |order| && order[i] == order[j] {
      var shorter := order[..j] + order[j + 1..];
      forall t | t in s ensures t in shorter {
        var k :| 0 <= k < |order| && order[k] == t;
        assert k != j ==> shorter[if k < j then k else k - 1] == t;
        assert shorter[i] == order[j];
      }
      FewEnough(shorter, s);
    }
  }

  lemma {:induction false} FewEnough(order: seq<string>, s: set<string>)
    requires forall t :: t in s ==> t in order
    ensures |s| <= |order|
    decreases |order|
  {
    if order == [] {
      assert s == {};
    } else {
      var t := order[0];
      forall u | u in s - {t} ensures u in order[1..] {
        var k :| 0 <= k < |order| && order[k] == u;
        assert order[1..][k - 1] == u;
      }
      FewEnough(order[1..], s - {t});
      assert |s| <= |s - {t}| + 1 by { if t in s { assert s == (s - {t}) + {t}; } else { assert s - {t} == s; } }
    }
  }

  // ----- when no name is defined twice -----

  const RESERVED: set<string> := BUILTIN.Keys + {"Identifier", "WS", "Comment"}

  /** The quoted terminators are printed under names of their own. */
  ghost predicate QuotedApart(custom: set<string>) {
    && (forall t, u :: t in custom && u in custom && Capitalised(t) == Capitalised(u) ==> t == u)
    && forall t :: t in custom ==> Capitalised(t) !in RESERVED
  }

  /** So are the rules. */
  ghost predicate RulesApart(custom: set<string>, rules: seq<Rule>) {
    && NoneTwice(RuleNames(rules))
    && forall k :: 0 <= k < |rules| ==>
         rules[k].name !in RESERVED && forall t :: t in custom ==> Capitalised(t) != rules[k].name
  }

  lemma CustomNamesOnce(custom: set<string>, customs: seq<string>)
    requires Enumerates(customs, custom)
    ensures NoneTwice(CustomNames(customs)) <==>
      forall t, u :: t in custom && u in custom && Capitalised(t) == Capitalised(u) ==> t == u
  {
    EnumeratedOnce(customs, custom);
    hide Capitalised;
    var names := CustomNames(customs);
    if NoneTwice(names) {
      forall t, u | t in custom && u in custom && Capitalised(t) == Capitalised(u) ensures t == u {
        var i :| 0 <= i < |customs| && customs[i] == t;
        var j :| 0 <= j < |customs| && customs[j] == u;
        assert names[i] == names[j];
      }
    } else {
      var i, j :| 0 <= i < j < |names| && names[i] == names[j];
      assert customs[i] in custom && customs[j] in custom && customs[i] != customs[j];
    }
  }

  lemma LastNames()
    ensures NoneTwice(LAST_NAMES) && forall s :: s in LAST_NAMES <==> s in {"Identifier", "WS", "Comment"}
  {
  }

  lemma LastNamesAreNew()
    ensures "Identifier" !in BUILTIN && "WS" !in BUILTIN && "Comment" !in BUILTIN
  {
  }

  /** The names at the end of the file. */
  lemma Tail(builtins: seq<string>)
    requires Enumerates(builtins, BUILTIN.Keys)
    ensures NoneTwice(builtins + LAST_NAMES) && forall s :: s in builtins + LAST_NAMES <==> s in RESERVED
  {
    LastNames();
    LastNamesAreNew();
    hide BUILTIN, LAST_NAMES, NoneTwice;
    EnumeratedOnce(builtins, BUILTIN.Keys);
    NoneTwiceConcat(builtins, LAST_NAMES);
  }

  lemma CustomsApart(custom: set<string>, customs: seq<string>, tail: seq<string>)
    requires Enumerates(customs, custom) && forall s :: s in tail <==> s in RESERVED
    ensures Disjoint(CustomNames(customs), tail) <==> forall t :: t in custom ==> Capitalised(t) !in RESERVED
  {
    hide Capitalised, RESERVED;
    CustomNamesAre(custom, customs);
    var names := CustomNames(customs);
    hide CustomNames, Enumerates;
    if Disjoint(names, tail) {
      forall t | t in custom ensures Capitalised(t) !in RESERVED {
        assert Capitalised(t) in names && Capitalised(t) !in tail;
      }
    }
    if forall t :: t in custom ==> Capitalised(t) !in RESERVED {
      forall s | s in names ensures s !in tail {
        var t :| t in custom && Capitalised(t) == s;
      }
    }
  }

  lemma CustomNamesAre(custom: set<string>, customs: seq<string>)
    requires Enumerates(customs, custom)
    ensures forall s :: s in CustomNames(customs) <==> exists t :: t in custom && Capitalised(t) == s
  {
    hide Capitalised;
    var names := CustomNames(customs);
    forall s ensures s in names <==> exists t :: t in custom && Capitalised(t) == s {
      if s in names {
        var i :| 0 <= i < |names| && names[i] == s;
        assert customs[i] in custom && Capitalised(customs[i]) == s;
      }
      if t :| t in custom && Capitalised(t) == s {
        var i :| 0 <= i < |customs| && customs[i] == t;
        assert names[i] == s;
      }
    }
  }

  lemma RuleNamesApart(custom: set<string>, customs: seq<string>, tail: seq<string>, rules: seq<Rule>)
    requires Enumerates(customs, custom) && forall s :: s in tail <==> s in RESERVED
    ensures Disjoint(RuleNames(rules), CustomNames(customs) + tail) <==>
      forall k :: 0 <= k < |rules| ==>
        rules[k].name !in RESERVED && forall t :: t in custom ==> Capitalised(t) != rules[k].name
  {
    hide Capitalised, RESERVED;
    CustomNamesAre(custom, customs);
    var names, rest := RuleNames(rules), CustomNames(customs) + tail;
    hide CustomNames, Enumerates;
    forall k | 0 <= k < |rules|
      ensures rules[k].name in names
      ensures rules[k].name !in rest <==>
        rules[k].name !in RESERVED && forall t :: t in custom ==> Capitalised(t) != rules[k].name
    {
      assert names[k] == rules[k].name;
      assert rules[k].name in rest <==> rules[k].name in CustomNames(customs) || rules[k].name in tail;
    }
  }

  /** No name is defined twice in an emitted grammar exactly if the quoted terminators and the rules
      have names of their own. */
  lemma NoneDefinedTwice(m: Module, custom: set<string>, customs: seq<string>, builtins: seq<string>)
    requires Enumerates(customs, custom) && Enumerates(builtins, BUILTIN.Keys)
    ensures NoneTwice(Names(m, customs, builtins)) <==> QuotedApart(custom) && RulesApart(custom, m.rules)
    ensures NoneTwice(CustomNames(customs) + (builtins + LAST_NAMES)) <==> QuotedApart(custom)
  {
    var tail := builtins + LAST_NAMES;
    Tail(builtins);
    CustomNamesOnce(custom, customs);
    CustomsApart(custom, customs, tail);
    RuleNamesApart(custom, customs, tail, m.rules);
    NoneTwiceConcat(CustomNames(customs), tail);
    NoneTwiceConcat(RuleNames(m.rules), CustomNames(customs) + tail);
    hide Enumerates, Disjoint, NoneTwice, RuleNames, CustomNames, BUILTIN, Capitalised, RESERVED;
  }

  /** Quoting `var` defines Var a second time, and quoting two words that differ in the case of their
      first letter defines one name twice. */
  lemma DefinedTwice(custom: set<string>)
    ensures "var" in custom ==> !QuotedApart(custom)
    ensures "a" in custom && "A" in custom ==> !QuotedApart(custom)
  {
    assert Capitalised("var") == "Var" && "Var" in BUILTIN;
    assert Capitalised("a") == "A" == Capitalised("A") && "a" != "A";
  }
}
