/** CGModule.cpp: printing the grammar. */
module Emitting {
  import opened Ast
  import opened Terminals
  import opened GeneratorSpec
  import opened Parsing

  // ----- the stream after printing, as a function of the stream before -----

  /** The name an element is printed under. */
  function Printed(e: Element): string {
    if e.kind == TerminatorKind then Capitalised(e.name) else e.name
  }

  /** Names are followed by a space, operators are not. */
  function ElementText(e: Element): string {
    if e.kind == PbExpression then e.name else Printed(e) + " "
  }

  function PrintElements(os: string, g: seq<Element>): string {
    if g == [] then os else PrintElements(os, g[..|g| - 1]) + ElementText(g[|g| - 1])
  }

  function PrintGenerator(os: string, g: seq<Element>): string { PrintElements(os, g) + "\n" }

  function PrintAlternatives(os: string, alts: seq<Alternative>): string {
    if alts == [] then os
    else
      var last := |alts| - 1;
      PrintGenerator(PrintAlternatives(os, alts[..last]) + (if last == 0 then "  : " else "  | "), alts[last].generator)
  }

  function PrintRules(os: string, rules: seq<Rule>): string {
    if rules == [] then os
    else
      var rule := rules[|rules| - 1];
      PrintAlternatives(PrintRules(os, rules[..|rules| - 1]) + rule.name + "\n", rule.alternatives) + "  ;\n" + "\n"
  }

  /** A lexer rule. */
  function LexerRule(name: string, pattern: string): string {
    name + "\n" + "  : " + pattern + "\n  ;\n\n"
  }

  function PrintCustoms(os: string, order: seq<string>): string {
    if order == [] then os
    else
      var t := order[|order| - 1];
      PrintCustoms(os, order[..|order| - 1]) + LexerRule(Capitalised(t), "'" + t + "'")
  }

  function PrintBuiltins(os: string, patterns: map<string, string>, order: seq<string>): string
    requires forall k :: 0 <= k < |order| ==> order[k] in patterns
  {
    if order == [] then os
    else
      var t := order[|order| - 1];
      PrintBuiltins(os, patterns, order[..|order| - 1]) + LexerRule(t, patterns[t])
  }

  /** The last three rules; the file does not end in a blank line. */
  const WS_AND_COMMENT: string :=
    LexerRule("Identifier", "[a-zA-Z][a-zA-Z0-9_]*") + LexerRule("WS", "[ \\r\\n\\t] -> skip") +
    ("Comment" + "\n" + "  : " + "'#' .*? '\\n' ->skip" + "\n  ;\n")

  /** order lists the elements of s once each. */
  ghost predicate Enumerates(order: seq<string>, s: set<string>) {
    (forall t :: t in order <==> t in s) && |order| == |s|
  }

  function PrintAntlr(os: string, grammarName: string, m: Module, customs: seq<string>, builtins: seq<string>): string
    requires forall k :: 0 <= k < |builtins| ==> builtins[k] in BUILTIN
  {
    var ruled := PrintRules(os + "grammar " + grammarName + ";\n\n", m.rules);
    PrintBuiltins(PrintCustoms(ruled, customs), BUILTIN, builtins) + WS_AND_COMMENT
  }

  // ----- the emitter: every method appends to the stream -----

  class CGModule {
    const terminators: Terminators
    var os: string

    constructor (terminators: Terminators)
      ensures this.terminators == terminators && os == ""
    {
      this.terminators := terminators;
      os := "";
    }

    method EmitGenerator(generator: seq<Element>)
      modifies this
      ensures os == PrintGenerator(old(os), generator)
    {
      for k := 0 to |generator|
        invariant os == PrintElements(old(os), generator[..k])
      {
        var base := generator[k];
        assert generator[..k + 1][..k] == generator[..k];
        if base.kind == TerminatorKind {
          os := os + (Capitalised(base.name) + " ");
        } else if base.kind == RuleKind {
          os := os + (base.name + " ");
        } else {
          os := os + base.name;
        }
      }
      assert generator[..|generator|] == generator;
      os := os + "\n";
    }

    method EmitAlternatives(alts: seq<Alternative>)
      modifies this
      ensures os == PrintAlternatives(old(os), alts) + "  ;\n"
    {
      hide PrintGenerator;
      for k := 0 to |alts|
        invariant os == PrintAlternatives(old(os), alts[..k])
      {
        assert alts[..k + 1][..k] == alts[..k];
        os := os + (if k == 0 then "  : " else "  | ");
        EmitGenerator(alts[k].generator);
      }
      assert alts[..|alts|] == alts;
      os := os + "  ;\n";
    }

    method EmitRules(rules: seq<Rule>)
      modifies this
      ensures os == PrintRules(old(os), rules)
    {
      hide PrintAlternatives;
      for k := 0 to |rules|
        invariant os == PrintRules(old(os), rules[..k])
      {
        assert rules[..k + 1][..k] == rules[..k];
        os := os + rules[k].name + "\n";
        EmitAlternatives(rules[k].alternatives);
        os := os + "\n";
      }
      assert rules[..|rules|] == rules;
    }

    /** The set is walked in some order of its own. */
    method EmitCustomTerminators() returns (ghost order: seq<string>)
      modifies this
      ensures Enumerates(order, terminators.custom) && os == PrintCustoms(old(os), order)
    {
      hide LexerRule, Capitalised;
      order := [];
      var rest := terminators.custom;
      while rest != {}
        invariant rest <= terminators.custom && Enumerates(order, terminators.custom - rest)
        invariant os == PrintCustoms(old(os), order)
        decreases rest
      {
        var t :| t in rest;
        OneMore(order, t, rest, terminators.custom);
        os := os + LexerRule(Capitalised(t), "'" + t + "'");
        rest, order := rest - {t}, order + [t];
      }
      assert terminators.custom - rest == terminators.custom;
    }

    method EmitPatterns(patterns: map<string, string>) returns (ghost order: seq<string>)
      modifies this
      ensures Enumerates(order, patterns.Keys) && os == PrintBuiltins(old(os), patterns, order)
    {
      order := [];
      var rest := patterns.Keys;
      assert PatternsPrinted(old(os), patterns, rest, order, os);
      while rest != {}
        invariant PatternsPrinted(old(os), patterns, rest, order, os)
        decreases rest
      {
        hide PatternsPrinted;
        var t :| t in rest;
        PrintOnePattern(old(os), patterns, rest, order, os, t);
        os := os + LexerRule(t, patterns[t]);
        rest, order := rest - {t}, order + [t];
      }
      assert patterns.Keys - rest == patterns.Keys;
    }

    method EmitTerminators() returns (ghost order: seq<string>)
      modifies this
      ensures Enumerates(order, BUILTIN.Keys) && os == PrintBuiltins(old(os), BUILTIN, order) + WS_AND_COMMENT
    {
      hide BUILTIN, WS_AND_COMMENT, PrintBuiltins;
      order := EmitPatterns(BUILTIN);
      os := os + WS_AND_COMMENT;
    }

    method EmitAntlr(grammarName: string, m: Module) returns (ghost customs: seq<string>, ghost builtins: seq<string>)
      modifies this
      ensures Enumerates(customs, terminators.custom) && Enumerates(builtins, BUILTIN.Keys)
      ensures os == PrintAntlr(old(os), grammarName, m, customs, builtins)
    {
      hide PrintRules, PrintCustoms, PrintBuiltins, BUILTIN, WS_AND_COMMENT;
      os := os + "grammar " + grammarName + ";\n\n";
      EmitRules(m.rules);
      customs := EmitCustomTerminators();
      builtins := EmitTerminators();
    }
  }

  /** All patterns but those of `rest` have been printed, in the given order. */
  ghost predicate PatternsPrinted(before: string, patterns: map<string, string>, rest: set<string>,
                                  order: seq<string>, os: string) {
    && rest <= patterns.Keys && Enumerates(order, patterns.Keys - rest)
    && (forall k :: 0 <= k < |order| ==> order[k] in patterns)
    && os == PrintBuiltins(before, patterns, order)
  }

  lemma PrintOnePattern(before: string, patterns: map<string, string>, rest: set<string>, order: seq<string>,
                        os: string, t: string)
    requires PatternsPrinted(before, patterns, rest, order, os) && t in rest
    ensures t in patterns
    ensures PatternsPrinted(before, patterns, rest - {t}, order + [t], os + LexerRule(t, patterns[t]))
  {
    OneMore(order, t, rest, patterns.Keys);
    hide LexerRule, Enumerates;
  }

  lemma OneMore(order: seq<string>, t: string, rest: set<string>, all: set<string>)
    requires t in rest && rest <= all && Enumerates(order, all - rest)
    ensures Enumerates(order + [t], all - (rest - {t}))
    ensures (order + [t])[..|order|] == order && (order + [t])[|order|] == t
  {
    assert all - (rest - {t}) == (all - rest) + {t};
  }

  // ----- no dangling token references -----

  /** The pattern of a built-in or of a quoted terminator printed under this name. */
  ghost predicate TerminatorPattern(custom: set<string>, name: string, pattern: string) {
    || (name in BUILTIN && pattern == BUILTIN[name])
    || exists t :: t in custom && Capitalised(t) == name && pattern == "'" + t + "'"
  }

  /** The lexer rule of a terminator with this name stands in the text, at the start of a line. */
  ghost predicate DefinesToken(custom: set<string>, text: string, name: string) {
    exists lo: string, pattern: string, hi: string ::
      && TerminatorPattern(custom, name, pattern)
      && EndsLine(lo) && text == lo + LexerRule(name, pattern) + hi
  }

  predicate EndsLine(text: string) { text != "" && text[|text| - 1] == '\n' }

  lemma AppendKeepsDefinition(custom: set<string>, text: string, name: string, more: string)
    requires DefinesToken(custom, text, name)
    ensures DefinesToken(custom, text + more, name)
  {
    hide LexerRule, EndsLine, TerminatorPattern;
    var lo, pattern, hi :|
      TerminatorPattern(custom, name, pattern) && EndsLine(lo) && text == lo + LexerRule(name, pattern) + hi;
    assert text + more == lo + LexerRule(name, pattern) + (hi + more);
  }

  lemma NewDefinition(custom: set<string>, text: string, name: string, pattern: string)
    requires EndsLine(text) && TerminatorPattern(custom, name, pattern)
    ensures DefinesToken(custom, text + LexerRule(name, pattern), name) && EndsLine(text + LexerRule(name, pattern))
  {
    hide TerminatorPattern;
    var block := LexerRule(name, pattern);
    assert block[|block| - 1] == '\n';
    hide LexerRule;
    assert text + block == text + block + "";
  }

  lemma {:induction false} CustomDefinitions(custom: set<string>, os: string, order: seq<string>)
    requires EndsLine(os) && forall t :: t in order ==> t in custom
    ensures EndsLine(PrintCustoms(os, order))
    ensures forall t :: t in order ==> DefinesToken(custom, PrintCustoms(os, order), Capitalised(t))
  {
    hide LexerRule, EndsLine, DefinesToken, Capitalised, BUILTIN;
    if order != [] {
      var prefix, last := order[..|order| - 1], order[|order| - 1];
      CustomDefinitions(custom, os, prefix);
      var block := LexerRule(Capitalised(last), "'" + last + "'");
      NewDefinition(custom, PrintCustoms(os, prefix), Capitalised(last), "'" + last + "'");
      hide TerminatorPattern;
      forall t | t in order ensures DefinesToken(custom, PrintCustoms(os, order), Capitalised(t)) {
        if t in prefix { AppendKeepsDefinition(custom, PrintCustoms(os, prefix), Capitalised(t), block); }
      }
    }
  }

  /** Printing the built-ins defines them and keeps the definitions there were. */
  lemma {:induction false} BuiltinDefinitions(custom: set<string>, os: string, patterns: map<string, string>,
                                              order: seq<string>)
    requires EndsLine(os) && forall k :: 0 <= k < |order| ==> order[k] in patterns
    requires forall name :: name in patterns ==> TerminatorPattern(custom, name, patterns[name])
    ensures EndsLine(PrintBuiltins(os, patterns, order))
    ensures forall t :: t in order ==> DefinesToken(custom, PrintBuiltins(os, patterns, order), t)
    ensures forall name ::
      DefinesToken(custom, os, name) ==> DefinesToken(custom, PrintBuiltins(os, patterns, order), name)
  {
    hide LexerRule, EndsLine, DefinesToken, TerminatorPattern;
    if order != [] {
      var prefix, last := order[..|order| - 1], order[|order| - 1];
      BuiltinDefinitions(custom, os, patterns, prefix);
      var before := PrintBuiltins(os, patterns, prefix);
      NewDefinition(custom, before, last, patterns[last]);
      forall name | name in order || DefinesToken(custom, os, name)
        ensures DefinesToken(custom, PrintBuiltins(os, patterns, order), name)
      {
        if name in prefix || DefinesToken(custom, os, name) {
          AppendKeepsDefinition(custom, before, name, LexerRule(last, patterns[last]));
        }
      }
    }
  }

  lemma RulesEndLine(os: string, rules: seq<Rule>)
    requires EndsLine(os)
    ensures EndsLine(PrintRules(os, rules))
  {
  }

  lemma BuiltinPatterns(custom: set<string>)
    ensures forall name :: name in BUILTIN ==> TerminatorPattern(custom, name, BUILTIN[name])
  {
    hide BUILTIN, Capitalised;
  }

  /** Every terminator printed in a rule of a parsed module is defined by a lexer rule of the same
      grammar file, whose pattern is that of a built-in or of a quoted terminator with that name. */
  lemma NoDanglingReference(os: string, grammarName: string, m: Module, custom: set<string>,
                            customs: seq<string>, builtins: seq<string>, r: nat, a: nat, k: nat)
    requires ModuleOk(custom, m)
    requires Enumerates(customs, custom) && Enumerates(builtins, BUILTIN.Keys)
    requires r < |m.rules| && a < |m.rules[r].alternatives| && k < |m.rules[r].alternatives[a].generator|
    requires m.rules[r].alternatives[a].generator[k].kind == TerminatorKind
    ensures DefinesToken(custom, PrintAntlr(os, grammarName, m, customs, builtins),
                         Printed(m.rules[r].alternatives[a].generator[k]))
  {
    var e := m.rules[r].alternatives[a].generator[k];
    assert HasLexerRule(custom, Printed(e)) by {
      assert RuleOk(custom, m.rules[r]) && AlternativeOk(custom, m.rules[r].alternatives[a]) && ElementOk(custom, e);
    }
    var name := Printed(e);
    var header := os + "grammar " + grammarName + ";\n\n";
    assert EndsLine(header);
    RulesEndLine(header, m.rules);
    BuiltinPatterns(custom);
    hide LexerRule, EndsLine, DefinesToken, TerminatorPattern;
    hide BUILTIN, PrintRules, PrintCustoms, PrintBuiltins, WS_AND_COMMENT, ModuleOk, Printed;
    var ruled := PrintRules(header, m.rules);
    CustomDefinitions(custom, ruled, customs);
    BuiltinDefinitions(custom, PrintCustoms(ruled, customs), BUILTIN, builtins);
    AppendKeepsDefinition(custom, PrintBuiltins(PrintCustoms(ruled, customs), BUILTIN, builtins), name, WS_AND_COMMENT);
  }
}
