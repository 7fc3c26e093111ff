/** The language of operations and dialects. */
module OpGrammar {
  import opened Lexing
  import opened Options
  import opened Ast
  import opened GeneratorSpec
  import opened FileSpec
  import opened Scripts
  import opened DagGrammar

  // ----- operations as they are written -----

  /** `OpBuilder<(...), [...]>`; the code is optional. */
  datatype BuilderSource = BuilderSource(dag: DagSource, code: Option<string>, comma: bool)

  datatype Attribute =
    | ArgumentsAre(dag: DagSource)
    | ResultsAre(dag: DagSource)
    | BuildersAre(builders: seq<BuilderSource>)

  datatype OpSource = OpSource(name: string, attributes: seq<Attribute>)

  ghost predicate CodeText(s: string) { Marked(s, '[', ']', 0, |s|) }

  ghost predicate BuilderOk(b: BuilderSource) { DagOk(b.dag) && (b.code.Some? ==> CodeText(b.code.value)) }

  ghost predicate AttributeOk(a: Attribute) {
    match a
    case BuildersAre(builders) => forall k :: 0 <= k < |builders| ==> BuilderOk(builders[k])
    case _ => DagOk(a.dag)
  }

  ghost predicate OpOk(op: OpSource) {
    IsTokenText(op.name) && forall k :: 0 <= k < |op.attributes| ==> AttributeOk(op.attributes[k])
  }

  function WriteCode(code: Option<string>, rest: Script): (w: Script)
    ensures rest.Advances() ==> w.Advances()
  {
    match code
    case None => rest
    case Some(c) => Then(Sign(','), Then(Enclosed(c), rest))
  }

  function WriteBuilder(b: BuilderSource, rest: Script): Script {
    var code := WriteCode(b.code, Then(Sign('>'), Comma(b.comma, rest)));
    Then(Spaced("OpBuilder"), Then(Sign('<'), WriteDag(b.dag, code)))
  }

  function WriteBuilders(bs: seq<BuilderSource>, rest: Script): (w: Script)
    ensures rest.Advances() ==> w.Advances()
    ensures rest.Then? && rest.piece.text != "," ==> w.Then? && w.piece.text != ","
  {
    if bs == [] then rest else WriteBuilder(bs[0], WriteBuilders(bs[1..], rest))
  }

  function WriteAttribute(a: Attribute, rest: Script): Script {
    match a
    case ArgumentsAre(dag) => Then(Sign(':'), Then(Spaced("arguments"), Then(Sign('='), WriteDag(dag, rest))))
    case ResultsAre(dag) => Then(Sign(':'), Then(Spaced("results"), Then(Sign('='), WriteDag(dag, rest))))
    case BuildersAre(bs) =>
      var list := WriteBuilders(bs, Then(Sign(']'), rest));
      Then(Sign(':'), Then(Spaced("builders"), Then(Sign('='), Then(Sign('['), list))))
  }

  function WriteAttributes(attributes: seq<Attribute>, rest: Script): (w: Script)
    ensures rest.Advances() ==> w.Advances()
  {
    if attributes == [] then rest else WriteAttribute(attributes[0], WriteAttributes(attributes[1..], rest))
  }

  /** An operation up to its semicolon. */
  function WriteOpStart(op: OpSource, rest: Script): Script {
    Then(Spaced("op"), Then(Spaced(op.name), WriteAttributes(op.attributes, rest)))
  }

  function WriteOp(op: OpSource, rest: Script): Script { WriteOpStart(op, Then(Sign(';'), rest)) }

  // ----- what they mean -----

  function BuilderMeaning(b: BuilderSource): Builder {
    Builder(Some(DagMeaning(b.dag)), if b.code.Some? then b.code.value else "")
  }

  function BuilderMeanings(bs: seq<BuilderSource>): seq<Builder> {
    seq(|bs|, k requires 0 <= k < |bs| => BuilderMeaning(bs[k]))
  }

  /** The last arguments and the last results count, and all builders. */
  function LastArguments(attributes: seq<Attribute>, before: Option<Dag>): Option<Dag>
    decreases |attributes|
  {
    if attributes == [] then before
    else
      var a := attributes[0];
      LastArguments(attributes[1..], if a.ArgumentsAre? then Some(DagMeaning(a.dag)) else before)
  }

  function LastResults(attributes: seq<Attribute>, before: Option<Dag>): Option<Dag>
    decreases |attributes|
  {
    if attributes == [] then before
    else
      var a := attributes[0];
      LastResults(attributes[1..], if a.ResultsAre? then Some(DagMeaning(a.dag)) else before)
  }

  function AllBuilders(attributes: seq<Attribute>): seq<Builder> {
    if attributes == [] then []
    else
      var a := attributes[0];
      (if a.BuildersAre? then BuilderMeanings(a.builders) else []) + AllBuilders(attributes[1..])
  }

  /** An operation followed by attributes. */
  function Extended(op: Op, attributes: seq<Attribute>): Op {
    Op(op.name, LastArguments(attributes, op.arguments), LastResults(attributes, op.results),
       op.builders + AllBuilders(attributes))
  }

  function OpMeaning(op: OpSource): Op {
    Op(op.name, LastArguments(op.attributes, None), LastResults(op.attributes, None), AllBuilders(op.attributes))
  }

  // ----- the parser reads operations -----

  lemma ReadCode(buf: string, s: State, code: Option<string>, rest: Script) returns (r: State)
    requires Reads(buf, s, WriteCode(code, Then(Sign('>'), rest))) && (code.Some? ==> CodeText(code.value))
    ensures s.cur <= |buf| && Reads(buf, r, Then(Sign('>'), rest)) && r.custom == s.custom
    ensures Code(buf, s) == Parsed(Done, r, if code.Some? then code.value else "")
  {
    hide Reads, Spells, Advance, Measure, IsTokenText, KindOf, Marked, Scan;
    var close := Then(Sign('>'), rest);
    match code {
      case None =>
        ReadSign(buf, s, '>', ANGLE_BRACKET_CLOSE, rest);
        r := s;
      case Some(c) =>
        ReadSign(buf, s, ',', COMMA, Then(Enclosed(c), close));
        ScanReads(buf, s, c, close, '[', ']');
        var s1 := Scan(buf, s, '[', ']').s;
        AdvanceReads(buf, s1, close);
        r := Advance(buf, s1);
    }
  }

  lemma ReadBuilder(buf: string, s: State, b: BuilderSource, rest: Script) returns (r: State)
    requires BuilderOk(b) && Reads(buf, s, WriteBuilder(b, rest)) && Comma(b.comma, rest).Advances()
    ensures s.cur <= |buf| && Text(buf, s) == "OpBuilder" && Reads(buf, r, Comma(b.comma, rest)) && r.custom == s.custom
    ensures OneBuilder(buf, s) == Parsed(Done, r, Some(BuilderMeaning(b)))
  {
    hide Reads, Spells, Advance, Measure, IsTokenText, KindOf, Text, DagSpec, Code, DagOk, DagMeaning, WriteDag,
         CodeText;
    var after := Comma(b.comma, rest);
    var code := WriteCode(b.code, Then(Sign('>'), after));
    var dag := WriteDag(b.dag, code);
    DagAdvances(b.dag, code);
    ReadOne(buf, s, Spaced("OpBuilder"), Then(Sign('<'), dag));
    var s1 := Advance(buf, s);
    ReadSign(buf, s1, '<', ANGLE_BRACKET_OPEN, dag);
    var s2 := ReadDag(buf, s1, None, b.dag, code);
    ReadSign(buf, s2, ')', PARENTHESE_CLOSE, code);
    var s3 := ReadCode(buf, Advance(buf, s2), b.code, after);
    ReadSign(buf, s3, '>', ANGLE_BRACKET_CLOSE, after);
    r := Advance(buf, s3);
  }

  lemma DagAdvances(d: DagSource, rest: Script)
    ensures WriteDag(d, rest).Advances()
  {
  }

  lemma {:induction false} ReadBuilders(buf: string, s: State, before: seq<Builder>, bs: seq<BuilderSource>,
                                        rest: Script)
    returns (r: State)
    requires forall k :: 0 <= k < |bs| ==> BuilderOk(bs[k])
    requires Reads(buf, s, WriteBuilders(bs, Then(Sign(']'), rest)))
    ensures s.cur <= |buf| && Reads(buf, r, Then(Sign(']'), rest)) && r.custom == s.custom
    ensures BuildersLoop(buf, s, before) == Parsed(Done, r, before + BuilderMeanings(bs))
    decreases |bs|
  {
    hide Reads, Spells, Advance, Measure, IsTokenText, KindOf, Text, OneBuilder, BuilderOk, WriteBuilder,
         BuilderMeaning, Accept;
    var close := Then(Sign(']'), rest);
    if bs == [] {
      ReadSign(buf, s, ']', SQUARE_BRACKET_CLOSE, rest);
      assert before + BuilderMeanings(bs) == before;
      r := s;
    } else {
      var more := WriteBuilders(bs[1..], close);
      assert BuilderOk(bs[0]);
      r := ReadBuilder(buf, s, bs[0], more);
      ReadComma(buf, r, bs[0].comma, more);
      r := ReadBuilders(buf, Accept(buf, r, COMMA), before + [BuilderMeaning(bs[0])], bs[1..], rest);
      assert before + [BuilderMeaning(bs[0])] + BuilderMeanings(bs[1..]) == before + BuilderMeanings(bs);
    }
  }

  /** The colon, the name of an attribute and the equals sign. */
  lemma ReadHeader(buf: string, s: State, name: string, rest: Script)
    requires Reads(buf, s, Then(Sign(':'), Then(Spaced(name), Then(Sign('='), rest))))
    ensures var s1 := Advance(buf, s);
      var s2 := Advance(buf, s1);
      && s.cur <= |buf| && s.token.kind == COLON && Text(buf, s1) == name && s2.token.kind == EQUAL
      && Spells(buf, s2.cur, rest) && s2.custom == s.custom && Reads(buf, s2, Then(Sign('='), rest))
  {
    hide Reads, Spells, Advance, Measure, IsTokenText, KindOf, Text;
    var equal := Then(Sign('='), rest);
    ReadSign(buf, s, ':', COLON, Then(Spaced(name), equal));
    ReadOne(buf, Advance(buf, s), Spaced(name), equal);
    ReadSign(buf, Advance(buf, Advance(buf, s)), '=', EQUAL, rest);
  }

  function WithAttribute(op: Op, a: Attribute): Op {
    match a
    case ArgumentsAre(dag) => op.(arguments := Some(DagMeaning(dag)))
    case ResultsAre(dag) => op.(results := Some(DagMeaning(dag)))
    case BuildersAre(bs) => op.(builders := op.builders + BuilderMeanings(bs))
  }

  lemma ExtendByOne(op: Op, attributes: seq<Attribute>)
    requires attributes != []
    ensures Extended(op, attributes) == Extended(WithAttribute(op, attributes[0]), attributes[1..])
  {
    hide DagMeaning, BuilderMeanings;
    var a, more := attributes[0], AllBuilders(attributes[1..]);
    assert [] + more == more;
    if a.BuildersAre? {
      assert op.builders + (BuilderMeanings(a.builders) + more) == op.builders + BuilderMeanings(a.builders) + more;
    }
  }

  lemma ReadDagAttribute(buf: string, s: State, op: Op, a: Attribute, rest: Script) returns (r: State)
    requires !a.BuildersAre? && AttributeOk(a) && Reads(buf, s, WriteAttribute(a, rest)) && rest.Advances()
    ensures s.cur <= |buf| && Reads(buf, r, rest) && r.custom == s.custom
    ensures OpLoop(buf, s, op) == OpLoop(buf, r, WithAttribute(op, a))
  {
    hide Reads, Spells, Advance, Measure, IsTokenText, KindOf, Text, DagSpec, BuildersSpec, DagOk, DagMeaning, WriteDag;
    ReadHeader(buf, s, if a.ArgumentsAre? then "arguments" else "results", WriteDag(a.dag, rest));
    var s2 := Advance(buf, Advance(buf, s));
    var s3 := ReadDag(buf, s2, if a.ArgumentsAre? then op.arguments else op.results, a.dag, rest);
    ReadSign(buf, s3, ')', PARENTHESE_CLOSE, rest);
    r := Advance(buf, s3);
  }

  lemma ReadBuildersAttribute(buf: string, s: State, op: Op, bs: seq<BuilderSource>, rest: Script) returns (r: State)
    requires AttributeOk(BuildersAre(bs)) && Reads(buf, s, WriteAttribute(BuildersAre(bs), rest)) && rest.Advances()
    ensures s.cur <= |buf| && Reads(buf, r, rest) && r.custom == s.custom
    ensures OpLoop(buf, s, op) == OpLoop(buf, r, WithAttribute(op, BuildersAre(bs)))
  {
    hide Reads, Spells, Advance, Measure, IsTokenText, KindOf, Text, DagSpec, BuildersLoop, BuilderOk,
         BuilderMeanings, WriteBuilders;
    var list := WriteBuilders(bs, Then(Sign(']'), rest));
    ReadHeader(buf, s, "builders", Then(Sign('['), list));
    var s2 := Advance(buf, Advance(buf, s));
    ReadSign(buf, s2, '=', EQUAL, Then(Sign('['), list));
    var s3 := Advance(buf, s2);
    ReadSign(buf, s3, '[', SQUARE_BRACKET_OPEN, list);
    var s4 := ReadBuilders(buf, Advance(buf, s3), [], bs, rest);
    assert [] + BuilderMeanings(bs) == BuilderMeanings(bs);
    ReadSign(buf, s4, ']', SQUARE_BRACKET_CLOSE, rest);
    r := Advance(buf, s4);
  }

  lemma {:induction false} ReadAttributes(buf: string, s: State, op: Op, attributes: seq<Attribute>, rest: Script)
    returns (r: State)
    requires forall k :: 0 <= k < |attributes| ==> AttributeOk(attributes[k])
    requires Reads(buf, s, WriteAttributes(attributes, rest)) && rest.Advances()
    ensures s.cur <= |buf| && r.cur <= |buf| && Reads(buf, r, rest) && r.custom == s.custom
    ensures OpLoop(buf, s, op) == OpLoop(buf, r, Extended(op, attributes))
    decreases |attributes|
  {
    hide Reads, Spells, Advance, Measure, IsTokenText, KindOf, AttributeOk, WriteAttribute, WithAttribute, Extended,
         OpLoop;
    ReadsInside(buf, s, WriteAttributes(attributes, rest));
    if attributes == [] {
      ExtendByNone(op);
      r := s;
    } else {
      var a, more := attributes[0], WriteAttributes(attributes[1..], rest);
      assert AttributeOk(a);
      ExtendByOne(op, attributes);
      if a.BuildersAre? {
        r := ReadBuildersAttribute(buf, s, op, a.builders, more);
      } else {
        r := ReadDagAttribute(buf, s, op, a, more);
      }
      r := ReadAttributes(buf, r, WithAttribute(op, a), attributes[1..], rest);
    }
  }

  lemma ExtendByNone(op: Op)
    ensures Extended(op, []) == op
  {
    assert op.builders + [] == op.builders;
  }

  /** The parser is behind the attributes of an operation. */
  lemma ReadOpStart(buf: string, s: State, m: Module, op: OpSource, rest: Script) returns (r: State)
    requires OpOk(op) && Reads(buf, s, WriteOpStart(op, rest)) && rest.Advances()
    ensures s.cur <= |buf| && r.cur <= |buf| && Reads(buf, r, rest) && r.custom == s.custom
    ensures var e := OpLoop(buf, r, OpMeaning(op));
      Engine(buf, s, m) == if e.o != Done then Parsed(e.o, e.s, EMPTY)
                           else if e.v.None? then Parsed(Done, e.s, m)
                           else Engine(buf, e.s, m.(ops := m.ops + [e.v.value]))
  {
    Keywords();
    hide Reads, Spells, Advance, Measure, IsTokenText, KindOf, Text, OpLoop, RuleSpec, DialectSpec, AttributeOk;
    hide LastArguments, LastResults, AllBuilders;
    var attributes := WriteAttributes(op.attributes, rest);
    ReadOne(buf, s, Spaced("op"), Then(Spaced(op.name), attributes));
    var s1 := Advance(buf, s);
    ReadOne(buf, s1, Spaced(op.name), attributes);
    r := ReadAttributes(buf, Advance(buf, s1), Op(op.name, None, None, []), op.attributes, rest);
    assert [] + AllBuilders(op.attributes) == AllBuilders(op.attributes);
  }

  /** The parser reads an operation as what it means. */
  lemma ReadOp(buf: string, s: State, m: Module, op: OpSource, rest: Script) returns (r: State)
    requires OpOk(op) && Reads(buf, s, WriteOp(op, rest)) && rest.Advances()
    ensures s.cur <= |buf| && r.cur <= |buf| && Reads(buf, r, rest) && r.custom == s.custom
    ensures Engine(buf, s, m) == Engine(buf, r, m.(ops := m.ops + [OpMeaning(op)]))
  {
    hide Reads, Spells, Advance, Measure, OpOk, OpMeaning, Engine;
    r := ReadOpStart(buf, s, m, op, Then(Sign(';'), rest));
    ReadSign(buf, r, ';', SEMI, rest);
    r := Advance(buf, r);
    ReadsInside(buf, r, rest);
  }

  lemma ReadsInside(buf: string, s: State, script: Script)
    requires Reads(buf, s, script)
    ensures s.cur <= |buf|
  {
  }

  // ----- dialects -----

  datatype DialectAttribute = NameIs(text: string) | NamespaceIs(text: string)

  datatype DialectSource = DialectSource(defName: string, attributes: seq<DialectAttribute>)

  ghost predicate DialectOk(d: DialectSource) {
    Name(d.defName) && forall k :: 0 <= k < |d.attributes| ==> QuotedText(d.attributes[k].text)
  }

  function WriteDialectAttribute(a: DialectAttribute, rest: Script): Script {
    var name := if a.NameIs? then "name" else "cppNamespace";
    Then(Sign(':'), Then(Spaced(name), Then(Sign('='), Then(Enclosed(a.text), rest))))
  }

  function WriteDialectAttributes(attributes: seq<DialectAttribute>, rest: Script): (w: Script)
    ensures rest.Advances() ==> w.Advances()
  {
    if attributes == [] then rest
    else WriteDialectAttribute(attributes[0], WriteDialectAttributes(attributes[1..], rest))
  }

  /** A dialect up to its semicolon. */
  function WriteDialectStart(d: DialectSource, rest: Script): Script {
    Then(Spaced("dialect"), Then(Spaced(d.defName), WriteDialectAttributes(d.attributes, rest)))
  }

  function WriteDialect(d: DialectSource, rest: Script): Script { WriteDialectStart(d, Then(Sign(';'), rest)) }

  /** The last name and the last namespace count. */
  function LastName(attributes: seq<DialectAttribute>, before: string): string
    decreases |attributes|
  {
    if attributes == [] then before
    else LastName(attributes[1..], if attributes[0].NameIs? then attributes[0].text else before)
  }

  function LastNamespace(attributes: seq<DialectAttribute>, before: string): string
    decreases |attributes|
  {
    if attributes == [] then before
    else LastNamespace(attributes[1..], if attributes[0].NamespaceIs? then attributes[0].text else before)
  }

  function DialectMeaning(d: DialectSource): Dialect {
    Dialect(d.defName, LastName(d.attributes, ""), LastNamespace(d.attributes, ""))
  }

  lemma ReadDialectAttribute(buf: string, s: State, d: Dialect, a: DialectAttribute, rest: Script) returns (r: State)
    requires QuotedText(a.text) && Reads(buf, s, WriteDialectAttribute(a, rest)) && rest.Advances()
    ensures s.cur <= |buf| && Reads(buf, r, rest) && r.custom == s.custom
    ensures DialectSpec(buf, s, d)
      == DialectSpec(buf, r, if a.NameIs? then d.(name := a.text) else d.(cppNamespace := a.text))
  {
    hide Reads, Spells, Advance, Measure, IsTokenText, KindOf, Text, Scan, Marked;
    ReadHeader(buf, s, if a.NameIs? then "name" else "cppNamespace", Then(Enclosed(a.text), rest));
    var s2 := Advance(buf, Advance(buf, s));
    ReadsInside(buf, s2, Then(Sign('='), Then(Enclosed(a.text), rest)));
    ScanReads(buf, s2, a.text, rest, '\"', '\"');
    var s3 := Scan(buf, s2, '\"', '\"').s;
    AdvanceReads(buf, s3, rest);
    r := Advance(buf, s3);
  }

  lemma {:induction false} ReadDialectAttributes(buf: string, s: State, d: Dialect,
                                                 attributes: seq<DialectAttribute>, rest: Script)
    returns (r: State)
    requires forall k :: 0 <= k < |attributes| ==> QuotedText(attributes[k].text)
    requires Reads(buf, s, WriteDialectAttributes(attributes, rest)) && rest.Advances()
    ensures s.cur <= |buf| && r.cur <= |buf| && Reads(buf, r, rest) && r.custom == s.custom
    ensures DialectSpec(buf, s, d) == DialectSpec(buf, r,
      Dialect(d.defName, LastName(attributes, d.name), LastNamespace(attributes, d.cppNamespace)))
    decreases |attributes|
  {
    hide Reads, Spells, Advance, Measure, IsTokenText, KindOf, Text, Scan, QuotedText, WriteDialectAttribute,
         DialectSpec;
    ReadsInside(buf, s, WriteDialectAttributes(attributes, rest));
    if attributes == [] {
      r := s;
    } else {
      var a := attributes[0];
      r := ReadDialectAttribute(buf, s, d, a, WriteDialectAttributes(attributes[1..], rest));
      r := ReadDialectAttributes(buf, r, if a.NameIs? then d.(name := a.text) else d.(cppNamespace := a.text),
        attributes[1..], rest);
    }
  }

  /** The parser is behind the attributes of a dialect. */
  lemma ReadDialectStart(buf: string, s: State, m: Module, d: DialectSource, rest: Script) returns (r: State)
    requires DialectOk(d) && Reads(buf, s, WriteDialectStart(d, rest)) && rest.Advances()
    ensures s.cur <= |buf| && r.cur <= |buf| && Reads(buf, r, rest) && r.custom == s.custom
    ensures var e := DialectSpec(buf, r, DialectMeaning(d));
      Engine(buf, s, m) == if e.o != Done then Parsed(e.o, e.s, EMPTY)
                           else Engine(buf, e.s, m.(dialect := Some(e.v)))
  {
    Keywords();
    hide Reads, Spells, Advance, Measure, IsTokenText, KindOf, Text, RuleSpec, DialectSpec, OpSpec, QuotedText,
         LastName, LastNamespace;
    var attributes := WriteDialectAttributes(d.attributes, rest);
    ReadOne(buf, s, Spaced("dialect"), Then(Spaced(d.defName), attributes));
    var s1 := Advance(buf, s);
    ReadOne(buf, s1, Spaced(d.defName), attributes);
    r := ReadDialectAttributes(buf, Advance(buf, s1), Dialect(d.defName, "", ""), d.attributes, rest);
  }

  /** The parser reads a dialect as what it means. */
  lemma ReadDialect(buf: string, s: State, m: Module, d: DialectSource, rest: Script) returns (r: State)
    requires DialectOk(d) && Reads(buf, s, WriteDialect(d, rest)) && rest.Advances()
    ensures s.cur <= |buf| && r.cur <= |buf| && Reads(buf, r, rest) && r.custom == s.custom
    ensures Engine(buf, s, m) == Engine(buf, r, m.(dialect := Some(DialectMeaning(d))))
  {
    hide Reads, Spells, Advance, Measure, DialectOk, DialectMeaning, Engine;
    r := ReadDialectStart(buf, s, m, d, Then(Sign(';'), rest));
    ReadSign(buf, r, ';', SEMI, rest);
    r := Advance(buf, r);
    ReadsInside(buf, r, rest);
  }
}
