/** AST.h: what the parser builds.  Nodes are values; an absent pointer is None. */
module Ast {
  import opened Options

  datatype BaseKind = RuleKind | TerminatorKind | PbExpression

  /** AntlrBase: one element of a generator. */
  datatype Element = Element(name: string, kind: BaseKind)

  /** GeneratorAndOthers. */
  datatype Alternative = Alternative(generator: seq<Element>, builderNames: seq<string>, builderIdxs: seq<nat>)

  datatype Rule = Rule(name: string, alternatives: seq<Alternative>)

  datatype Dialect = Dialect(defName: string, name: string, cppNamespace: string)

  datatype Dag = Dag(operator: string, operands: seq<string>, operandNames: seq<string>, values: map<string, string>)
  {
    function AddOperand(operand: string, operandName: string): Dag {
      this.(operands := operands + [operand], operandNames := operandNames + [operandName])
    }

    function SetValue(operand: string, value: string): Dag {
      this.(values := values[operand := value])
    }

    /** Operands and their names are listed in step. */
    ghost predicate InStep() { |operands| == |operandNames| }
  }

  datatype Builder = Builder(dag: Option<Dag>, code: string)

  datatype Op = Op(name: string, arguments: Option<Dag>, results: Option<Dag>, builders: seq<Builder>)

  datatype Module = Module(rules: seq<Rule>, dialect: Option<Dialect>, ops: seq<Op>)
}
