/** The language of whole files, and the text it is written in. */
module FileGrammar {
  import opened Lexing
  import opened Options
  import opened Tokens
  import opened Ast
  import opened Terminals
  import opened GeneratorSpec
  import opened FileSpec
  import opened Scripts
  import opened RuleGrammar
  import opened OpGrammar

  /** An abandoned rule is one that breaks off before its semicolon. */
  datatype Definition =
    | RuleDef(rule: Source)
    | Abandoned(rule: Source)
    | DialectDef(dialect: DialectSource)
    | OpDef(op: OpSource)
  {
    predicate IsRule() { RuleDef? || Abandoned? }
  }

  ghost predicate DefinitionOk(d: Definition) {
    match d
    case RuleDef(rule) => SourceOk(rule)
    case Abandoned(rule) => SourceOk(rule)
    case DialectDef(dialect) => DialectOk(dialect)
    case OpDef(op) => OpOk(op)
  }

  function WriteDefinition(d: Definition, rest: Script): Script {
    match d
    case RuleDef(rule) => WriteRule(rule, rest)
    case Abandoned(rule) => WriteAbandoned(rule, rest)
    case DialectDef(dialect) => WriteDialect(dialect, rest)
    case OpDef(op) => WriteOp(op, rest)
  }

  /** Definitions, and what follows them. */
  function WriteDefinitions(defs: seq<Definition>, rest: Script): (w: Script)
    ensures rest.Advances() ==> w.Advances()
  {
    if defs == [] then rest else WriteDefinition(defs[0], WriteDefinitions(defs[1..], rest))
  }

  function WriteFile(defs: seq<Definition>): (w: Script)
    ensures w.Advances()
  {
    WriteDefinitions(defs, End)
  }

  /** Neither one more element or alternative nor a semicolon follows. */
  ghost predicate BreaksOff(rest: Script) { EndsGenerator(rest) && !AtMark(rest) }

  /** Each definition can be read, and if the last is an abandoned rule, that is where it ends. */
  ghost predicate DefinitionsOk(defs: seq<Definition>, rest: Script) {
    && (forall k :: 0 <= k < |defs| ==> DefinitionOk(defs[k]))
    && (defs != [] && defs[|defs| - 1].Abandoned? ==> BreaksOff(rest))
  }

  lemma DefinitionBreaksOff(d: Definition, rest: Script)
    ensures BreaksOff(WriteDefinition(d, rest))
  {
    Keywords();
    hide IsTokenText, KindOf;
  }

  /** What follows the first definition, too, is what it needs. */
  lemma OkFrom(defs: seq<Definition>, rest: Script)
    requires DefinitionsOk(defs, rest) && defs != []
    ensures DefinitionOk(defs[0]) && DefinitionsOk(defs[1..], rest)
    ensures defs[0].Abandoned? ==> BreaksOff(WriteDefinitions(defs[1..], rest))
  {
    hide DefinitionOk, BreaksOff;
    if 1 < |defs| { DefinitionBreaksOff(defs[1], WriteDefinitions(defs[2..], rest)); }
  }

  // ----- what a file means -----

  /** The rules in order, each word classified by the terminators quoted before it, and all these.  An
      abandoned rule keeps its terminators only. */
  function RulesMeaning(custom: set<string>, defs: seq<Definition>): (seq<Rule>, set<string>)
    decreases |defs|
  {
    if defs == [] then ([], custom)
    else if !defs[0].IsRule() then RulesMeaning(custom, defs[1..])
    else
      var (alts, between) := AlternativesMeaning(custom, defs[0].rule.alternatives);
      var (rest, after) := RulesMeaning(between, defs[1..]);
      ([Rule(defs[0].rule.name, if defs[0].Abandoned? then [] else alts)] + rest, after)
  }

  /** The last dialect. */
  function LastDialect(defs: seq<Definition>, before: Option<Dialect>): Option<Dialect>
    decreases |defs|
  {
    if defs == [] then before
    else LastDialect(defs[1..], if defs[0].DialectDef? then Some(DialectMeaning(defs[0].dialect)) else before)
  }

  function AllOps(defs: seq<Definition>): seq<Op> {
    if defs == [] then [] else (if defs[0].OpDef? then [OpMeaning(defs[0].op)] else []) + AllOps(defs[1..])
  }

  /** A module followed by the definitions. */
  function Extended(m: Module, custom: set<string>, defs: seq<Definition>): Module {
    Module(m.rules + RulesMeaning(custom, defs).0, LastDialect(defs, m.dialect), m.ops + AllOps(defs))
  }

  lemma ExtendByNone(m: Module, custom: set<string>)
    ensures Extended(m, custom, []) == m && RulesMeaning(custom, []).1 == custom
  {
    assert m.rules + [] == m.rules && m.ops + [] == m.ops;
  }

  lemma ExtendByRule(m: Module, custom: set<string>, defs: seq<Definition>)
    requires defs != [] && defs[0].IsRule()
    ensures var (alts, between) := AlternativesMeaning(custom, defs[0].rule.alternatives);
      && Extended(m, custom, defs)
           == Extended(m.(rules := m.rules + [Rule(defs[0].rule.name, if defs[0].Abandoned? then [] else alts)]),
                       between, defs[1..])
      && RulesMeaning(custom, defs).1 == RulesMeaning(between, defs[1..]).1
  {
    hide AlternativesMeaning;
    var (alts, between) := AlternativesMeaning(custom, defs[0].rule.alternatives);
    var rule := Rule(defs[0].rule.name, if defs[0].Abandoned? then [] else alts);
    var rest := RulesMeaning(between, defs[1..]).0;
    assert m.rules + ([rule] + rest) == m.rules + [rule] + rest;
    assert [] + AllOps(defs[1..]) == AllOps(defs[1..]);
  }

  lemma ExtendByOther(m: Module, custom: set<string>, defs: seq<Definition>)
    requires defs != [] && !defs[0].IsRule()
    ensures var m' := if defs[0].DialectDef? then m.(dialect := Some(DialectMeaning(defs[0].dialect)))
                      else m.(ops := m.ops + [OpMeaning(defs[0].op)]);
      Extended(m, custom, defs) == Extended(m', custom, defs[1..])
    ensures RulesMeaning(custom, defs) == RulesMeaning(custom, defs[1..])
  {
    hide DialectMeaning, OpMeaning;
    var ops := AllOps(defs[1..]);
    assert [] + ops == ops;
    if defs[0].OpDef? {
      assert m.ops + ([OpMeaning(defs[0].op)] + ops) == m.ops + [OpMeaning(defs[0].op)] + ops;
    }
  }

  /** The parser reads definitions as what they mean, and is then where the rest begins. */
  lemma {:induction false} ReadDefinitions(buf: string, s: State, m: Module, defs: seq<Definition>, rest: Script)
    returns (r: State)
    requires DefinitionsOk(defs, rest) && TokenTexts(s.custom)
    requires Reads(buf, s, WriteDefinitions(defs, rest)) && rest.Advances()
    ensures s.cur <= |buf| && r.cur <= |buf| && Reads(buf, r, rest) && TokenTexts(r.custom)
    ensures Engine(buf, s, m) == Engine(buf, r, Extended(m, s.custom, defs))
    ensures r.custom == RulesMeaning(s.custom, defs).1
    decreases |defs|
  {
    hide Reads, Spells, Engine, Extended, AlternativesMeaning, RulesMeaning, SourceOk, DialectOk, OpOk, WriteRule,
         WriteAbandoned, WriteDialect, WriteOp, DefinitionsOk, TokenTexts;
    if defs == [] {
      ReadsInside(buf, s, rest);
      ExtendByNone(m, s.custom);
      r := s;
    } else {
      OkFrom(defs, rest);
      var more := WriteDefinitions(defs[1..], rest);
      match defs[0] {
        case RuleDef(rule) =>
          ExtendByRule(m, s.custom, defs);
          r := ReadRule(buf, s, m, rule, more);
          var alts := AlternativesMeaning(s.custom, rule.alternatives).0;
          r := ReadDefinitions(buf, r, m.(rules := m.rules + [Rule(rule.name, alts)]), defs[1..], rest);
        case Abandoned(rule) =>
          ExtendByRule(m, s.custom, defs);
          r := ReadAbandoned(buf, s, m, rule, more);
          r := ReadDefinitions(buf, r, m.(rules := m.rules + [Rule(rule.name, [])]), defs[1..], rest);
        case DialectDef(dialect) =>
          ExtendByOther(m, s.custom, defs);
          r := ReadDialect(buf, s, m, dialect, more);
          r := ReadDefinitions(buf, r, m.(dialect := Some(DialectMeaning(dialect))), defs[1..], rest);
        case OpDef(op) =>
          ExtendByOther(m, s.custom, defs);
          r := ReadOp(buf, s, m, op, more);
          r := ReadDefinitions(buf, r, m.(ops := m.ops + [OpMeaning(op)]), defs[1..], rest);
      }
    }
  }

  /** What a list of definitions means. */
  function FileMeaning(defs: seq<Definition>): Module {
    Module(RulesMeaning({}, defs).0, LastDialect(defs, None), AllOps(defs))
  }

  /** From the beginning of a text. */
  lemma ReadFromStart(buf: string, defs: seq<Definition>, rest: Script) returns (r: State)
    requires DefinitionsOk(defs, rest) && Spells(buf, 0, WriteDefinitions(defs, rest)) && rest.Advances()
    ensures r.cur <= |buf| && Reads(buf, r, rest) && TokenTexts(r.custom) && r.custom == RulesMeaning({}, defs).1
    ensures Engine(buf, Advance(buf, State(START, 0, {})), EMPTY) == Engine(buf, r, FileMeaning(defs))
  {
    hide Reads, Spells, Engine, DefinitionsOk, WriteDefinitions, RulesMeaning, AllOps;
    AdvanceReads(buf, State(START, 0, {}), WriteDefinitions(defs, rest));
    r := ReadDefinitions(buf, Advance(buf, State(START, 0, {})), EMPTY, defs, rest);
    assert [] + RulesMeaning({}, defs).0 == RulesMeaning({}, defs).0 && [] + AllOps(defs) == AllOps(defs);
  }

  /** For every text that spells a list of definitions, the parser returns exactly the module they
      mean. */
  lemma ParserReadsFile(buf: string, defs: seq<Definition>) returns (r: State)
    requires (forall k :: 0 <= k < |defs| ==> DefinitionOk(defs[k])) && Spells(buf, 0, WriteFile(defs))
    ensures Engine(buf, Advance(buf, State(START, 0, {})), EMPTY) == Parsed(Done, r, FileMeaning(defs))
    ensures r.custom == RulesMeaning({}, defs).1
  {
    hide Spells, DefinitionOk, WriteDefinitions, FileMeaning, RulesMeaning, RuleSpec, DialectSpec, OpSpec;
    r := ReadFromStart(buf, defs, End);
  }

  function RuleDefs(rules: seq<Source>): seq<Definition> {
    seq(|rules|, k requires 0 <= k < |rules| => RuleDef(rules[k]))
  }

  lemma {:induction false} RulesAreWords(defs: seq<Definition>)
    requires forall k :: 0 <= k < |defs| ==> defs[k].RuleDef?
    ensures OnlyWords(WriteFile(defs))
  {
    hide WriteRule;
    if defs != [] { RulesAreWords(defs[1..]); }
  }

  /** Rules are tokens only: for every text whose run of tokens spells a list of rules, the parser
      returns exactly those rules. */
  lemma ParserReadsRules(buf: string, rules: seq<Source>) returns (r: State)
    requires forall k :: 0 <= k < |rules| ==> SourceOk(rules[k])
    requires RunIs(buf, Run(buf, 0, START), PieceTexts(WriteFile(RuleDefs(rules))))
    ensures var (meaning, after) := RulesMeaning({}, RuleDefs(rules));
      && Engine(buf, Advance(buf, State(START, 0, {})), EMPTY) == Parsed(Done, r, Module(meaning, None, []))
      && r.custom == after
  {
    var defs := RuleDefs(rules);
    hide RunIs, Spells, Engine, SourceOk, RulesMeaning, WriteFile;
    RulesAreWords(defs);
    WordsAreTheRun(buf, 0, START, WriteFile(defs));
    r := ParserReadsFile(buf, defs);
    NothingElse(defs);
  }

  lemma {:induction false} NothingElse(defs: seq<Definition>)
    requires forall k :: 0 <= k < |defs| ==> defs[k].RuleDef?
    ensures LastDialect(defs, None) == None && AllOps(defs) == []
  {
    if defs != [] { NothingElse(defs[1..]); }
  }
}
