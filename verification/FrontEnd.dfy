/** frontendgen.cpp: the passes put together, from a text to its module and to the grammar file. */
module FrontEnd {
  import opened Lexing
  import opened Options
  import opened Ast
  import opened Terminals
  import opened GeneratorSpec
  import opened FileSpec
  import opened Scripts
  import opened Parsing
  import opened FileGrammar
  import opened Mistakes
  import opened Writing
  import opened Emitting
  import opened Definitions
  import opened GrammarText

  /** Any text: the parse ends, and its outcome, module and terminators are the specified ones. */
  method Parse(text: string) returns (o: Outcome, m: Module, terminators: Terminators)
    ensures fresh(terminators) && ModuleOk(terminators.custom, m)
    ensures TokenTexts(terminators.custom)
    ensures var r := Engine(text, GeneratorSpec.Advance(text, State(START, 0, {})), EMPTY);
      o == r.o && (o == Done ==> m == r.v && terminators.custom == r.s.custom)
  {
    hide Engine, GeneratorSpec.Advance, Ok;
    var lexer := new Lexer(text);
    terminators := new Terminators();
    var parser := new Parser(lexer, terminators);
    o, m := parser.CompilEngine();
    OkTexts(text, parser.St());
  }

  /** A text that spells a list of definitions: the module is exactly what they mean. */
  method ParseSpelled(text: string, ghost defs: seq<Definition>)
    returns (o: Outcome, m: Module, terminators: Terminators)
    requires (forall k :: 0 <= k < |defs| ==> DefinitionOk(defs[k])) && Spells(text, 0, WriteFile(defs))
    ensures fresh(terminators) && o == Done
    ensures m == FileMeaning(defs)
    ensures terminators.custom == RulesMeaning({}, defs).1
  {
    hide Engine, GeneratorSpec.Advance, Spells, DefinitionOk, WriteFile, RulesMeaning, FileMeaning;
    var _ := ParserReadsFile(text, defs);
    o, m, terminators := Parse(text);
  }

  /** A text that goes wrong after a list of definitions: the parse throws, or returns nothing, or
      returns what the definitions mean. */
  method ParseMistaken(text: string, ghost defs: seq<Definition>, ghost x: Mistake)
    returns (o: Outcome, m: Module, terminators: Terminators)
    requires MistakeOk(x) && DefinitionsOk(defs, WriteMistake(x))
    requires Spells(text, 0, WriteDefinitions(defs, WriteMistake(x)))
    ensures o == x.Ends() && (o == Done ==> m == x.Keeps(FileMeaning(defs)))
  {
    hide Engine, GeneratorSpec.Advance, Spells, DefinitionsOk, WriteDefinitions, FileMeaning, MistakeOk, WriteMistake;
    ParserMeetsMistake(text, defs, x);
    o, m, terminators := Parse(text);
  }

  /** The text of a list of definitions is a text that spells it. */
  method ParseWritten(defs: seq<Definition>) returns (o: Outcome, m: Module)
    requires forall k :: 0 <= k < |defs| ==> DefinitionOk(defs[k])
    ensures o == Done && m == FileMeaning(defs)
  {
    hide Engine, GeneratorSpec.Advance, DefinitionOk, WriteFile, RulesMeaning, FileMeaning;
    var _ := WriteThenParse(defs);
    var terminators;
    o, m, terminators := Parse(Written(WriteFile(defs)));
  }

  /** Every terminator printed in a rule is defined in the file. */
  ghost predicate AllDefined(custom: set<string>, m: Module, file: string) {
    forall r, a, k ::
      0 <= r < |m.rules| && 0 <= a < |m.rules[r].alternatives| && 0 <= k < |m.rules[r].alternatives[a].generator|
      && m.rules[r].alternatives[a].generator[k].kind == TerminatorKind ==>
        DefinesToken(custom, file, Printed(m.rules[r].alternatives[a].generator[k]))
  }

  /** Parsing a text and emitting its grammar.  Without a grammar name, or when the parse does not
      return, there is no file.  The file reads as its header, the words of its rules and its lexer
      definitions, in some order; the rules can be read back from it exactly if each has an alternative
      and neither colon nor semicolon is quoted.  Every terminator printed in a rule is defined, and no
      name is defined twice exactly if the quoted terminators and the rules have names of their own. */
  method Generate(text: string, grammarName: string)
    returns (o: Outcome, file: Option<string>, ghost m: Module, ghost custom: set<string>,
             ghost customs: seq<string>, ghost builtins: seq<string>)
    ensures var r := Engine(text, GeneratorSpec.Advance(text, State(START, 0, {})), EMPTY);
      o == r.o && (o == Done ==> m == r.v && custom == r.s.custom)
    ensures file.Some? <==> o == Done && grammarName != ""
    ensures file.Some? ==> Enumerates(customs, custom) && Enumerates(builtins, BUILTIN.Keys)
    ensures file.Some? ==> file.value == PrintAntlr("", grammarName, m, customs, builtins)
    ensures file.Some? && IsTokenText(grammarName) ==>
      FileReads(file.value, grammarName, m.rules, LexerDefs(customs, builtins))
    ensures file.Some? ==>
      (ReadRules(RulesWords(m.rules)) == Some(Shapes(m.rules)) <==>
       forall k :: 0 <= k < |m.rules| ==> RuleReadable(m.rules[k]))
    ensures file.Some? ==> AllDefined(custom, m, file.value)
    ensures file.Some? ==>
      (NoneTwice(Names(m, customs, builtins)) <==> QuotedApart(custom) && RulesApart(custom, m.rules))
  {
    hide Engine, GeneratorSpec.Advance, ModuleOk, Enumerates, BUILTIN, PrintAntlr, DefinesToken, IsTokenText;
    hide Names, NoneTwice, QuotedApart, RulesApart, FileReads, LexerDefs, ReadRules, RulesWords, Shapes, RuleReadable;
    hide RulesPrintable;
    var terminators, parsed;
    file, customs, builtins := None, [], [];
    o, parsed, terminators := Parse(text);
    m, custom := parsed, terminators.custom;
    if o == Done && grammarName != "" {
      var cgModule := new CGModule(terminators);
      customs, builtins := cgModule.EmitAntlr(grammarName, parsed);
      file := Some(cgModule.os);
      if IsTokenText(grammarName) { EmittedFileReads(grammarName, m, custom, customs, builtins); }
      ParsedRulesArePrintable(custom, m);
      ReadBackIff(m.rules);
      NoneDefinedTwice(m, custom, customs, builtins);
      forall r, a, k |
        0 <= r < |m.rules| && 0 <= a < |m.rules[r].alternatives| && 0 <= k < |m.rules[r].alternatives[a].generator|
        && m.rules[r].alternatives[a].generator[k].kind == TerminatorKind
        ensures DefinesToken(custom, file.value, Printed(m.rules[r].alternatives[a].generator[k]))
      {
        NoDanglingReference("", grammarName, m, custom, customs, builtins, r, a, k);
      }
    }
  }
}
