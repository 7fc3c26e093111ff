/** Parser.cpp: the recursive-descent parser.  It terminates on every input; the only ways not to
    return are an exception from std::stoi and a raw scan for a mark that never comes. */
module Parsing {
  import opened Lexing
  import opened Options
  import opened Ast
  import opened Terminals
  import opened GeneratorSpec
  import opened OperandSpec
  import opened FileSpec

  class Parser {
    const lexer: Lexer
    const terminators: Terminators
    var token: Token

    ghost function St(): State
      reads this, lexer, terminators
    {
      State(token, lexer.cur, terminators.custom)
    }

    ghost predicate Valid()
      reads this, lexer, terminators
      ensures Valid() ==> lexer.Valid()
    {
      Ok(lexer.buf, St())
    }

    /** The cursor is where the current token ends: no raw scan has happened since. */
    ghost predicate Fresh()
      reads this, lexer
    {
      token.Live() ==> lexer.cur == token.start + token.length
    }

    /** Work left: it bounds every loop of the parser. */
    ghost function Left(): nat
      requires lexer.Valid()
      reads this, lexer, terminators
    {
      Measure(lexer.buf, St())
    }

    /** The state is valid, terminators are only added and the work left has not grown. */
    twostate predicate Moved()
      reads this, lexer, terminators
    {
      old(Valid()) && Valid() && old(terminators.custom) <= terminators.custom && Left() <= old(Left())
    }

    /** The call ended as the specification says, in its state and with its result. */
    ghost predicate Agrees<T>(r: Parsed<T>, o: Outcome, v: T)
      reads this, lexer, terminators
    {
      o == r.o && (o == Done ==> St() == r.s && v == r.v)
    }

    /** Besides, no terminator was added. */
    twostate predicate Skipped()
      reads this, lexer, terminators
    {
      Moved() && terminators.custom == old(terminators.custom)
    }

    constructor (lexer: Lexer, terminators: Terminators)
      requires lexer.Valid() && lexer.cur == 0 && terminators.custom == {}
      modifies lexer
      ensures Valid() && this.lexer == lexer && this.terminators == terminators
      ensures St() == GeneratorSpec.Advance(lexer.buf, State(Token(UNKNOWN, 0, 0), 0, {}))
    {
      this.lexer, this.terminators := lexer, terminators;
      token := Token(UNKNOWN, 0, 0);
      new;
      AdvanceOk(lexer.buf, St());
      token := lexer.Next(token);
    }

    method Advance()
      requires Valid()
      modifies this, lexer
      ensures St() == GeneratorSpec.Advance(lexer.buf, old(St()))
      ensures Skipped() && Fresh() && (old(token.Live()) ==> Left() < old(Left()))
    {
      AdvanceOk(lexer.buf, St());
      NextMeans(lexer.buf, lexer.cur, token);
      token := lexer.Next(token);
    }

    function Content(): string
      requires Valid()
      reads this, lexer, terminators
      ensures Content() == Text(lexer.buf, St())
    {
      token.Content(lexer.buf)
    }

    method Consume(expected: TokenKind) returns (b: bool)
      requires Valid()
      modifies this, lexer
      ensures Skipped() && b == (old(token.kind) == expected)
      ensures St() == Accept(lexer.buf, old(St()), expected) && (old(Fresh()) ==> Fresh())
    {
      b := token.kind == expected;
      if b { Advance(); }
    }

    /** A raw scan for quoted or bracketed text; the token stays as it is. */
    method ScanMark(open: char, close: char) returns (o: Outcome, content: string)
      requires Valid() && open != '\0'
      modifies lexer
      ensures Skipped() && token == old(token) && Agrees(Scan(lexer.buf, old(St()), open, close), o, content)
    {
      ghost var at := Span(lexer.buf, lexer.cur, IsWhitespace);
      o, content := lexer.GetMarkContent([open], [close]);
      if At(lexer.buf, at) == open && o == Done {
        forall e | at <= e <= |lexer.buf| && Marked(lexer.buf, open, close, at, e) ensures e == lexer.cur {
          MarkedUnique(lexer.buf, open, close, at, e, lexer.cur);
        }
      }
    }

    // ----- generators -----

    method ParserIdentifier(alt: Alternative) returns (alt': Alternative)
      requires Valid() && token.kind == IDENTIFIER
      modifies this, lexer
      ensures Valid() && St() == GeneratorSpec.Advance(lexer.buf, old(St()))
      ensures alt' == alt.(generator := alt.generator +
        [IdentifierElement(old(terminators.custom), old(Content()))])
    {
      var isTerminator := terminators.IsTerminatorName(Content());
      var r := Element(Content(), if isTerminator then TerminatorKind else RuleKind);
      alt' := alt.(generator := alt.generator + [r]);
      Advance();
    }

    method ParserTerminator(alt: Alternative) returns (alt': Alternative)
      requires Valid() && token.kind == APOSTROPHE
      modifies this, lexer, terminators
      ensures Valid() && (St(), alt') == Quoted(lexer.buf, old(St()), alt)
    {
      Advance();
      alt' := alt.(generator := alt.generator + [Element(Content(), TerminatorKind)]);
      assert IsTokenText(Content());
      terminators.AddCustomTerminators(Content());
      Advance();
      var _ := Consume(APOSTROPHE);
    }

    method ParserPBExpression(alt: Alternative) returns (alt': Alternative)
      requires Valid() && IsOperator(token.kind)
      modifies this, lexer
      ensures Valid() && St() == GeneratorSpec.Advance(lexer.buf, old(St()))
      ensures alt' == alt.(generator := alt.generator + [Element(old(Content()), PbExpression)])
    {
      alt' := alt.(generator := alt.generator + [Element(Content(), PbExpression)]);
      Advance();
    }

    method ParserCurlyBracketOpen(alt: Alternative) returns (o: Outcome, alt': Alternative)
      requires Valid() && token.kind == CURLY_BRACKET_OPEN
      modifies this, lexer
      ensures Valid() && (o, St(), alt') == CurlyBracket(lexer.buf, old(St()), alt)
    {
      hide Ok, GeneratorSpec.Advance, BuilderIndex, BuilderName, Text;
      alt' := alt;
      Advance();
      if Content() != "builder" {
        return Done, alt;
      }
      Advance();
      var isEqual := Consume(EQUAL);
      if !isEqual {
        return Done, alt;
      }
      var refs := alt.(builderNames := [], builderIdxs := []);
      ghost var s, refs0 := St(), refs;
      while token.kind == IDENTIFIER
        invariant Valid() && BuilderRefs(lexer.buf, St(), refs) == BuilderRefs(lexer.buf, s, refs0)
        invariant terminators.custom == old(terminators.custom)
        decreases Left()
      {
        var name, index := BuilderName(Content()), BuilderIndex(Content());
        if index.None? {
          return Threw, alt;
        }
        refs := refs.(builderNames := refs.builderNames + [name], builderIdxs := refs.builderIdxs + [index.value]);
        Advance();
        if token.kind == COMMA { Advance(); }
      }
      var _ := Consume(CURLY_BRACKET_CLOSE);
      return Done, refs;
    }

    method ParserGenerator(alt: Alternative) returns (o: Outcome, alt': Alternative)
      requires Valid()
      modifies this, lexer, terminators
      ensures Valid() && (o, St(), alt') == Generator(lexer.buf, old(St()), alt)
    {
      alt' := alt;
      while token.kind == IDENTIFIER || token.kind == APOSTROPHE || token.kind == CURLY_BRACKET_OPEN
            || IsOperator(token.kind)
        invariant Valid() && Generator(lexer.buf, St(), alt') == Generator(lexer.buf, old(St()), alt)
        decreases Left()
      {
        if token.kind == IDENTIFIER {
          alt' := ParserIdentifier(alt');
        } else if token.kind == APOSTROPHE {
          alt' := ParserTerminator(alt');
        } else if token.kind == CURLY_BRACKET_OPEN {
          o, alt' := ParserCurlyBracketOpen(alt');
          if o != Done { return; }
        } else {
          alt' := ParserPBExpression(alt');
        }
      }
      o := Done;
    }

    method ParserAlternative() returns (o: Outcome, alt: Alternative)
      requires Valid()
      modifies this, lexer, terminators
      ensures Moved() && AlternativeOk(terminators.custom, alt)
      ensures (o, St(), alt) == Generator(lexer.buf, old(St()), Alternative([], [], []))
    {
      GeneratorOk(lexer.buf, St(), Alternative([], [], []));
      o, alt := ParserGenerator(Alternative([], [], []));
    }

    // ----- rules -----

    /** A rule that is not followed through to its semicolon keeps no alternatives. */
    method ParserRules(name: string) returns (o: Outcome, rule: Rule)
      requires Valid()
      modifies this, lexer, terminators
      ensures Moved() && RuleOk(terminators.custom, rule) && rule.name == name
      ensures Agrees(RuleSpec(lexer.buf, old(St()), name), o, rule)
    {
      hide Ok, GeneratorSpec.Advance, AlternativeOk, Generator, Measure;
      o, rule := Done, Rule(name, []);
      if token.kind != COLON {
        return;
      }
      var generators: seq<Alternative> := [];
      while token.kind != SEMI && token.kind == COLON
        invariant o == Done && Moved() && RuleOk(terminators.custom, Rule(name, generators))
        invariant Alternatives(lexer.buf, St(), generators) == Alternatives(lexer.buf, old(St()), [])
        decreases Left()
      {
        Advance();
        ghost var before := terminators.custom;
        var alt;
        o, alt := ParserAlternative();
        if o != Done { return; }
        MoreTerminatorsInRule(before, terminators.custom, Rule(name, generators));
        if token.kind != COLON && token.kind != SEMI {
          return;
        }
        generators := generators + [alt];
      }
      rule := Rule(name, generators);
    }

    // ----- dialects -----

    method ParserDialect(defName: string) returns (o: Outcome, dialect: Dialect)
      requires Valid()
      modifies this, lexer
      ensures Skipped() && Agrees(DialectSpec(lexer.buf, old(St()), Dialect(defName, "", "")), o, dialect)
    {
      hide Ok, GeneratorSpec.Advance, Scan, Measure, Text;
      o, dialect := Done, Dialect(defName, "", "");
      var name, cppNamespace := "", "";
      while token.kind == COLON
        invariant o == Done && Skipped()
        invariant DialectSpec(lexer.buf, St(), Dialect(defName, name, cppNamespace))
          == DialectSpec(lexer.buf, old(St()), Dialect(defName, "", ""))
        decreases Left()
      {
        Advance();
        if Content() == "name" {
          Advance();
          o, name := ScanMark('\"', '\"');
          if o != Done { return; }
          Advance();
        } else if Content() == "cppNamespace" {
          Advance();
          o, cppNamespace := ScanMark('\"', '\"');
          if o != Done { return; }
          Advance();
        }
      }
      dialect := Dialect(defName, name, cppNamespace);
      Advance();
    }

    // ----- DAGs -----

    method ParserCArg() returns (o: Outcome, operand: Operand)
      requires Valid() && token.Live()
      modifies this, lexer
      ensures Skipped() && (o == Done ==> Fresh() && Left() < old(Left()))
      ensures Agrees(CArg(lexer.buf, old(St())), o, operand)
    {
      hide Ok, GeneratorSpec.Advance, Scan, Measure;
      operand := Operand(None, "");
      var text, value;
      Advance();
      o, text := ScanMark('\"', '\"');
      if o != Done { return; }
      Advance();
      o, value := ScanMark('\"', '\"');
      if o != Done { return; }
      Advance();
      var _ := Consume(ANGLE_BRACKET_CLOSE);
      operand := Operand(Some(text), value);
    }

    /** A raw scan to the next ch, returning the text from the start of the current token. */
    method ScanEnd(ch: char) returns (o: Outcome, content: string)
      requires Valid() && ch != '\0'
      modifies lexer
      ensures Skipped() && token == old(token) && (o == Done ==> Left() < old(Left()))
      ensures token.start <= old(lexer.cur) <= lexer.cur
      ensures Agrees(ScanTo(lexer.buf, old(St()), ch), o, content)
      ensures o == Done ==>
        Found(lexer.buf, old(lexer.cur), lexer.cur, ch) && content == lexer.buf[token.start..lexer.cur]
    {
      ghost var at := lexer.cur;
      o, content := lexer.GetEndChContent(token.start, ch);
      if o == Done {
        FirstIs(lexer.buf, at, ch, lexer.cur - 1);
      } else {
        FirstIs(lexer.buf, at, ch, |lexer.buf|);
      }
    }

    /** `AnyTypeOf<...>`: when there is an operand, it ends at a closing bracket, and it is the source
        text up to there exactly if `<` directly follows the word. */
    method ParserAnyTypeOf() returns (o: Outcome, operand: Operand)
      requires Valid() && Fresh() && token.Live() && Content() == "AnyTypeOf"
      modifies this, lexer
      ensures Skipped() && (o == Done ==> Fresh() && Left() < old(Left()))
      ensures Agrees(AnyTypeOf(lexer.buf, old(St())), o, operand)
      ensures o == Done && operand.text.Some? ==>
        exists end :: AnyTypeOfOperand(lexer.buf, old(token.start), operand.text.value, end)
    {
      AnyTypeOfMeans(lexer.buf, St());
      hide Ok, GeneratorSpec.Advance, Slice, AnyTypeOfOperand, Measure, Text, Found, ScanTo;
      o, operand := Done, Operand(None, "");
      var start := token.start;
      Advance();
      if token.kind != ANGLE_BRACKET_OPEN {
        return;
      }
      var tail;
      o, tail := ScanEnd('>');
      if o != Done { return; }
      operand := Operand(Some(Slice(lexer.buf, start, 9 + |tail|)), "");
      Advance();
    }

    /** The brackets after the type in angle brackets, when `counted` characters of the operand have
        been counted already. */
    method ParserAfterType(start: nat, counted: nat) returns (operand: string)
      requires Valid()
      modifies this, lexer
      ensures Skipped() && Fresh()
      ensures (St(), operand) == (var r := AfterType(lexer.buf, start, counted, old(St())); (r.0, r.1))
    {
      hide Ok, GeneratorSpec.Advance, Measure, Slice;
      var number := 1;
      Advance();
      if token.kind == SQUARE_BRACKET_CLOSE {
        Advance();
        number := number + 1;
      }
      var _ := Consume(ANGLE_BRACKET_CLOSE);
      operand := Slice(lexer.buf, start, counted + number);
    }

    /** A TableGen type, with an optional parameter: `F64Tensor`, `Variadic<F32>`, `TensorOf<[F64]>`.
        The operand's length is put together from token lengths and bracket counts.  When there is a
        parameter and its bracket closes at `end`, the operand is the source text up to there exactly
        if there is no whitespace inside it. */
    method ParserTypeOperand() returns (operand: string, ghost closed: bool, ghost end: nat)
      requires Valid() && Fresh() && token.kind == IDENTIFIER
      modifies this, lexer
      ensures Skipped() && Fresh() && Left() < old(Left())
      ensures (St(), operand, closed, end) == TypeOperandSpec(lexer.buf, old(St()))
      ensures closed ==> TypeOperand(lexer.buf, old(token.start), operand, end)
    {
      hide Ok, GeneratorSpec.Advance, Measure, Slice, TypeOperand, Text, AfterType;
      TypeOperandMeans(lexer.buf, St());
      ghost var s := St();
      var start, size := token.start, token.length;
      operand, closed, end := Content(), TypeOperandSpec(lexer.buf, s).2, TypeOperandSpec(lexer.buf, s).3;
      Advance();
      if token.kind == ANGLE_BRACKET_OPEN {
        var number := 1;
        Advance();
        if token.kind == SQUARE_BRACKET_OPEN {
          Advance();
          number := number + 1;
        }
        operand := ParserAfterType(start, size + number + token.length);
      }
    }

    method ParserOperandName() returns (name: string)
      requires Valid() && Fresh()
      modifies this, lexer
      ensures Skipped() && Fresh() && Agrees(OperandName(lexer.buf, old(St())), Done, name)
    {
      hide Ok, GeneratorSpec.Advance, Measure, Text;
      name := "";
      if token.kind == COLON {
        Advance();
        Advance();
        name := Content();
        Advance();
      }
    }

    /** One operand and its default value; no operand when `AnyTypeOf` is not followed by `<`. */
    method ParserOperand() returns (o: Outcome, operand: Operand)
      requires Valid() && Fresh() && (token.kind == IDENTIFIER || token.kind == DOUBLE_QUOTATION_MARK)
      modifies this, lexer
      ensures Skipped() && (o == Done ==> Fresh() && Left() < old(Left()))
      ensures Agrees(OneOperand(lexer.buf, old(St())), o, operand)
    {
      hide Ok, GeneratorSpec.Advance, Measure, TypeOperandSpec, AnyTypeOfOperand, TypeOperand, Text;
      hide CArg, AnyTypeOf, ScanTo, Found;
      operand := Operand(None, "");
      ghost var closed, end;
      if Content() == "CArg" {
        o, operand := ParserCArg();
      } else if Content() == "AnyTypeOf" {
        o, operand := ParserAnyTypeOf();
      } else if token.kind == DOUBLE_QUOTATION_MARK {
        var text;
        o, text := ScanEnd('\"');
        if o != Done { return; }
        Advance();
        operand := Operand(Some(text), "");
      } else {
        var text;
        text, closed, end := ParserTypeOperand();
        o, operand := Done, Operand(Some(text), "");
      }
    }

    /** Operands and operand names stay in step, whatever the input. */
    method ParserDAG(arguments: Option<Dag>) returns (o: Outcome, dag: Option<Dag>)
      requires Valid() && InStep(arguments)
      modifies this, lexer
      ensures Skipped() && (old(token.Live()) ==> Left() < old(Left())) && InStep(dag)
      ensures Agrees(DagSpec(lexer.buf, old(St()), arguments), o, dag)
    {
      hide Ok, GeneratorSpec.Advance, Measure, OneOperand, OperandName, Text, AddOperand;
      o, dag := Done, arguments;
      Advance();
      var _ := Consume(PARENTHESE_OPEN);
      var d := Dag(Content(), [], [], map[]);
      Advance();
      ghost var s, d0 := St(), d;
      while token.kind == IDENTIFIER || token.kind == DOUBLE_QUOTATION_MARK
        invariant o == Done && Skipped() && Fresh() && d.InStep()
        invariant old(token.Live()) ==> Left() < old(Left())
        invariant Operands(lexer.buf, St(), d) == Operands(lexer.buf, s, d0)
        decreases Left()
      {
        var operand;
        o, operand := ParserOperand();
        if o != Done { return; }
        if operand.text.None? { return; }
        var operandName := ParserOperandName();
        d := AddOperand(d, operand.text.value, operandName, operand.value);
        if token.kind == COMMA { Advance(); }
      }
      dag := Some(d);
    }

    // ----- operations -----

    method ParserCode() returns (o: Outcome, code: string)
      requires Valid()
      modifies this, lexer
      ensures Skipped() && Agrees(Code(lexer.buf, old(St())), o, code)
    {
      hide Ok, GeneratorSpec.Advance, Measure, Scan;
      o, code := Done, "";
      if token.kind == COMMA {
        o, code := ScanMark('[', ']');
        if o != Done { return; }
        Advance();
      }
    }

    /** One `OpBuilder<...>`; none when it is malformed. */
    method ParserBuilder() returns (o: Outcome, builder: Option<Builder>)
      requires Valid()
      modifies this, lexer
      ensures Skipped() && (builder.Some? ==> InStep(builder.value.dag) && Left() < old(Left()))
      ensures Agrees(OneBuilder(lexer.buf, old(St())), o, builder)
    {
      hide Ok, GeneratorSpec.Advance, Measure, Text, DagSpec, Code;
      o, builder := Done, None;
      Advance();
      if token.kind != ANGLE_BRACKET_OPEN { return; }
      var dag, code := None, "";
      o, dag := ParserDAG(None);
      if o != Done { return; }
      Advance();
      o, code := ParserCode();
      if o != Done { return; }
      var closed := Consume(ANGLE_BRACKET_CLOSE);
      if closed {
        builder := Some(Builder(dag, code));
      }
    }

    method ParserBuilders() returns (o: Outcome, builders: seq<Builder>)
      requires Valid()
      modifies this, lexer
      ensures Skipped() && forall k :: 0 <= k < |builders| ==> InStep(builders[k].dag)
      ensures Agrees(BuildersSpec(lexer.buf, old(St())), o, builders)
    {
      hide Ok, GeneratorSpec.Advance, Measure, Text, OneBuilder;
      o, builders := Done, [];
      var isOpen := Consume(SQUARE_BRACKET_OPEN);
      if !isOpen { return; }
      ghost var s := St();
      while Content() == "OpBuilder"
        invariant o == Done && Skipped() && forall k :: 0 <= k < |builders| ==> InStep(builders[k].dag)
        invariant BuildersLoop(lexer.buf, St(), builders) == BuildersLoop(lexer.buf, s, [])
        decreases Left()
      {
        var builder;
        o, builder := ParserBuilder();
        if o != Done || builder.None? { return; }
        builders := builders + [builder.value];
        if token.kind == COMMA { Advance(); }
      }
    }

    method ParserOp(opName: string) returns (o: Outcome, op: Option<Op>)
      requires Valid()
      modifies this, lexer
      ensures Skipped() && (op.Some? ==> OpOk(op.value))
      ensures Agrees(OpSpec(lexer.buf, old(St()), opName), o, op)
    {
      hide Ok, GeneratorSpec.Advance, Measure, Text, DagSpec, BuildersSpec;
      o, op := Done, None;
      var arguments, results, builders := None, None, [];
      Advance();
      ghost var s := St();
      while token.kind == COLON
        invariant o == Done && Skipped() && OpOk(Op(opName, arguments, results, builders))
        invariant OpLoop(lexer.buf, St(), Op(opName, arguments, results, builders))
          == OpLoop(lexer.buf, s, Op(opName, None, None, []))
        decreases Left()
      {
        Advance();
        if Content() == "arguments" {
          Advance();
          if token.kind != EQUAL { return; }
          o, arguments := ParserDAG(arguments);
          if o != Done { return; }
          Advance();
        } else if Content() == "results" {
          Advance();
          if token.kind != EQUAL { return; }
          o, results := ParserDAG(results);
          if o != Done { return; }
          Advance();
        } else if Content() == "builders" {
          Advance();
          var isEqual := Consume(EQUAL);
          if !isEqual { return; }
          var more;
          o, more := ParserBuilders();
          if o != Done { return; }
          builders := builders + more;
          Advance();
        } else {
          return;
        }
      }
      var closed := Consume(SEMI);
      if closed {
        op := Some(Op(opName, arguments, results, builders));
      }
    }

    // ----- the whole file -----

    /** Whatever the input, the parse ends, and in what it hands on every terminator of every rule
        has a lexer rule, builder names and indices pair up and DAG operands and names are in step. */
    method CompilEngine() returns (o: Outcome, m: Module)
      requires Valid()
      modifies this, lexer, terminators
      ensures Moved() && ModuleOk(terminators.custom, m)
      ensures Agrees(Engine(lexer.buf, old(St()), EMPTY), o, m)
    {
      hide Ok, Name, GeneratorSpec.Advance, Measure, Text, RuleOk, OpOk, RuleSpec, DialectSpec, OpSpec, Accept;
      o, m := Done, EMPTY;
      var rules, dialect, ops := [], None, [];
      while token.kind != EOF
        invariant o == Done && Moved() && ModuleOk(terminators.custom, Module(rules, dialect, ops))
        invariant Engine(lexer.buf, St(), Module(rules, dialect, ops)) == Engine(lexer.buf, old(St()), EMPTY)
        decreases Left()
      {
        if token.kind == KW_RULE {
          Advance();
          if token.kind != IDENTIFIER { return; }
          var name := Content();
          OkTexts(lexer.buf, St());
          ghost var before := terminators.custom;
          Advance();
          var rule;
          o, rule := ParserRules(name);
          if o != Done { return; }
          MoreTerminatorsInRules(before, terminators.custom, rules);
          rules := rules + [rule];
          var _ := Consume(SEMI);
        } else if token.kind == KW_DIALECT {
          Advance();
          if token.kind != IDENTIFIER { return; }
          var defName := Content();
          Advance();
          var d;
          o, d := ParserDialect(defName);
          if o != Done { return; }
          dialect := Some(d);
        } else if token.kind == KW_OP {
          Advance();
          var op;
          o, op := ParserOp(Content());
          if o != Done { return; }
          if op.None? {
            m := Module(rules, dialect, ops);
            return;
          }
          ops := ops + [op.value];
        } else {
          m := Module(rules, dialect, ops);
          return;
        }
      }
      m := Module(rules, dialect, ops);
    }
  }

  // ----- what the parser has collected -----

  ghost predicate InStep(dag: Option<Dag>) { dag.Some? ==> dag.value.InStep() }

  ghost predicate OpOk(op: Op) {
    InStep(op.arguments) && InStep(op.results) && forall k :: 0 <= k < |op.builders| ==> InStep(op.builders[k].dag)
  }

  ghost predicate ModuleOk(custom: set<string>, m: Module) {
    && (forall k :: 0 <= k < |m.rules| ==> RuleOk(custom, m.rules[k]) && Name(m.rules[k].name))
    && (forall k :: 0 <= k < |m.ops| ==> OpOk(m.ops[k]))
  }

  ghost predicate RuleOk(custom: set<string>, rule: Rule) {
    forall k :: 0 <= k < |rule.alternatives| ==> AlternativeOk(custom, rule.alternatives[k])
  }

  lemma MoreTerminatorsInRule(custom: set<string>, more: set<string>, rule: Rule)
    requires custom <= more && RuleOk(custom, rule)
    ensures RuleOk(more, rule)
  {
    forall k | 0 <= k < |rule.alternatives| ensures AlternativeOk(more, rule.alternatives[k]) {
      MoreTerminators(custom, more, rule.alternatives[k]);
    }
  }

  lemma MoreTerminatorsInRules(custom: set<string>, more: set<string>, rules: seq<Rule>)
    requires custom <= more && forall k :: 0 <= k < |rules| ==> RuleOk(custom, rules[k])
    ensures forall k :: 0 <= k < |rules| ==> RuleOk(more, rules[k])
  {
    forall k | 0 <= k < |rules| ensures RuleOk(more, rules[k]) {
      MoreTerminatorsInRule(custom, more, rules[k]);
    }
  }
}
