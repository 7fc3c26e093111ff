/** When the FX import raises, and what it binds. */
module FxSuccess {
  import opened Options
  import opened TensorShape
  import opened FxImporter

  /** A node no branch of CodeGen is for. */
  predicate Ignored(node: Node) {
    node.Unhandled? || (node.CallFunction? && node.target != "add" && node.target != "matmul")
  }

  function PlaceholderCount(nodes: seq<Node>): nat {
    if nodes == [] then 0
    else PlaceholderCount(nodes[..|nodes| - 1]) + if nodes[|nodes| - 1].Placeholder? then 1 else 0
  }

  /** The shape a call gives its name, when its operands are bound. */
  function CallShape(target: string, a: Shape, b: Shape): Option<Shape> {
    if target == "add" then Some(a)
    else if target == "matmul" && |a| >= 1 && |b| >= 2 then Some([a[0], b[1]])
    else None
  }

  /** The names bound after the nodes, with the shapes of what they stand for; a name that is bound
      again stands for the later. */
  function Bound(inputs: seq<Shape>, nodes: seq<Node>): map<string, Shape> {
    if nodes == [] then map[]
    else
      var before, node := Bound(inputs, nodes[..|nodes| - 1]), nodes[|nodes| - 1];
      match node
      case Placeholder(name) =>
        var n := PlaceholderCount(nodes[..|nodes| - 1]);
        if n < |inputs| then before[name := inputs[n]] else before
      case CallFunction(name, target, args) =>
        if |args| >= 2 && args[0] in before && args[1] in before
           && CallShape(target, before[args[0]], before[args[1]]).Some?
        then before[name := CallShape(target, before[args[0]], before[args[1]]).value] else before
      case Output(results) =>
        if results != [] && results[0] in before then before["output" := before[results[0]]] else before - {"output"}
      case Unhandled(_) => before
  }

  /** Node k can be imported: there is an input for a placeholder, a sum or product finds its operands
      among the names bound before it, and with enough dimensions, an output names something. */
  predicate Importable(inputs: seq<Shape>, nodes: seq<Node>, k: nat)
    requires k < |nodes|
  {
    var before := Bound(inputs, nodes[..k]);
    match nodes[k]
    case Placeholder(_) => PlaceholderCount(nodes[..k]) < |inputs|
    case CallFunction(_, target, args) =>
      target == "add" || target == "matmul" ==>
        && |args| >= 2 && args[0] in before && args[1] in before
        && (target == "matmul" ==> |before[args[0]]| >= 1 && |before[args[1]]| >= 2)
    case Output(results) => results != []
    case Unhandled(_) => true
  }

  lemma {:induction false} GenSnoc(s: Code, nodes: seq<Node>, node: Node)
    requires Defined(s)
    ensures GenAll(s, nodes + [node]) == if GenAll(s, nodes).None? then None else Gen(GenAll(s, nodes).value, node)
    decreases |nodes|
  {
    if nodes == [] {
      assert ([] + [node])[1..] == [];
    } else {
      assert (nodes + [node])[0] == nodes[0] && (nodes + [node])[1..] == nodes[1..] + [node];
      if Gen(s, nodes[0]).Some? { GenSnoc(Gen(s, nodes[0]).value, nodes[1..], node); }
    }
  }

  /** The arguments that are left after c placeholders. */
  function Waiting(n: nat, c: nat): (args: seq<nat>)
    requires c <= n
    ensures |args| == n - c && forall k :: 0 <= k < n - c ==> args[k] == c + k
  {
    seq(n - c, k requires k >= 0 => c + k)
  }

  /** The state of the importer agrees with what is bound. */
  ghost predicate Tracks(inputs: seq<Shape>, nodes: seq<Node>, s: Code) {
    && Defined(s)
    && PlaceholderCount(nodes) <= |inputs| && |inputs| <= |s.types| && s.types[..|inputs|] == inputs
    && s.args == Waiting(|inputs|, PlaceholderCount(nodes))
    && s.symbols.Keys == Bound(inputs, nodes).Keys
    && forall n :: n in s.symbols ==> s.types[s.symbols[n]] == Bound(inputs, nodes)[n]
  }

  lemma TrackPlaceholder(inputs: seq<Shape>, nodes: seq<Node>, s: Code, name: string)
    requires Tracks(inputs, nodes, s)
    ensures var next := nodes + [Placeholder(name)];
      (Gen(s, Placeholder(name)).Some? <==> PlaceholderCount(nodes) < |inputs|)
      && (Gen(s, Placeholder(name)).Some? ==> Tracks(inputs, next, Gen(s, Placeholder(name)).value))
  {
    CountOne(nodes, name);
    if s.args != [] { BindOne(inputs, nodes, name); }
    var c := PlaceholderCount(nodes);
    hide PlaceholderCount, Bound;
    if s.args != [] {
      assert s.args[0] == c && s.types[c] == s.types[..|inputs|][c];
      assert s.args[1..] == Waiting(|inputs|, c + 1);
    }
  }

  lemma BindOne(inputs: seq<Shape>, nodes: seq<Node>, name: string)
    requires PlaceholderCount(nodes) < |inputs|
    ensures Bound(inputs, nodes + [Placeholder(name)]) == Bound(inputs, nodes)[name := inputs[PlaceholderCount(nodes)]]
  {
    assert (nodes + [Placeholder(name)])[..|nodes|] == nodes;
  }

  lemma CountOne(nodes: seq<Node>, name: string)
    ensures PlaceholderCount(nodes + [Placeholder(name)]) == PlaceholderCount(nodes) + 1
  {
    assert (nodes + [Placeholder(name)])[..|nodes|] == nodes;
  }

  lemma TrackCall(inputs: seq<Shape>, nodes: seq<Node>, s: Code, node: Node)
    requires Tracks(inputs, nodes, s) && node.CallFunction?
    ensures Gen(s, node).Some? <==> Importable(inputs, nodes + [node], |nodes|)
    ensures Gen(s, node).Some? ==> Tracks(inputs, nodes + [node], Gen(s, node).value)
  {
    assert (nodes + [node])[..|nodes|] == nodes && (nodes + [node])[|nodes|] == node;
    hide PlaceholderCount;
    assert PlaceholderCount(nodes + [node]) == PlaceholderCount(nodes) by { CountCall(nodes, node); }
    if Gen(s, node).Some? {
      var r := Gen(s, node).value;
      assert forall k :: 0 <= k < |s.types| ==> r.types[k] == s.types[k];
      assert r.types[..|inputs|] == s.types[..|inputs|];
    }
  }

  lemma CountCall(nodes: seq<Node>, node: Node)
    requires !node.Placeholder?
    ensures PlaceholderCount(nodes + [node]) == PlaceholderCount(nodes)
  {
    assert (nodes + [node])[..|nodes|] == nodes;
  }

  lemma BindOutput(inputs: seq<Shape>, nodes: seq<Node>, results: seq<string>)
    ensures var before := Bound(inputs, nodes);
      Bound(inputs, nodes + [Output(results)]) ==
        if results != [] && results[0] in before then before["output" := before[results[0]]] else before - {"output"}
  {
    assert (nodes + [Output(results)])[..|nodes|] == nodes;
  }

  lemma TrackOutput(inputs: seq<Shape>, nodes: seq<Node>, s: Code, results: seq<string>)
    requires Tracks(inputs, nodes, s)
    ensures Gen(s, Output(results)).Some? <==> results != []
    ensures results != [] ==> Tracks(inputs, nodes + [Output(results)], Gen(s, Output(results)).value)
  {
    hide PlaceholderCount, Bound, Waiting;
    CountCall(nodes, Output(results));
    BindOutput(inputs, nodes, results);
  }

  lemma BindUnhandled(inputs: seq<Shape>, nodes: seq<Node>, name: string)
    ensures Bound(inputs, nodes + [Unhandled(name)]) == Bound(inputs, nodes)
  {
    assert (nodes + [Unhandled(name)])[..|nodes|] == nodes;
  }

  lemma TrackUnhandled(inputs: seq<Shape>, nodes: seq<Node>, s: Code, name: string)
    requires Tracks(inputs, nodes, s)
    ensures Gen(s, Unhandled(name)) == Some(s) && Tracks(inputs, nodes + [Unhandled(name)], s)
  {
    hide PlaceholderCount, Bound, Waiting, Defined;
    CountCall(nodes, Unhandled(name));
    BindUnhandled(inputs, nodes, name);
  }

  lemma Track(inputs: seq<Shape>, nodes: seq<Node>, s: Code, node: Node)
    requires Tracks(inputs, nodes, s)
    ensures Gen(s, node).Some? <==> Importable(inputs, nodes + [node], |nodes|)
    ensures Gen(s, node).Some? ==> Tracks(inputs, nodes + [node], Gen(s, node).value)
  {
    assert (nodes + [node])[..|nodes|] == nodes && (nodes + [node])[|nodes|] == node;
    hide Tracks, Gen;
    match node {
      case Placeholder(name) => TrackPlaceholder(inputs, nodes, s, name);
      case CallFunction(_, _, _) => TrackCall(inputs, nodes, s, node);
      case Output(results) => TrackOutput(inputs, nodes, s, results);
      case Unhandled(name) => TrackUnhandled(inputs, nodes, s, name);
    }
  }

  lemma {:induction false} ImportPrefix(inputs: seq<Shape>, nodes: seq<Node>, n: nat)
    requires n <= |nodes|
    ensures GenAll(Start(inputs), nodes[..n]).Some? <==> forall k :: 0 <= k < n ==> Importable(inputs, nodes, k)
    ensures GenAll(Start(inputs), nodes[..n]).Some? ==>
      Tracks(inputs, nodes[..n], GenAll(Start(inputs), nodes[..n]).value)
  {
    hide Gen, Importable;
    if n == 0 {
      assert nodes[..0] == [];
    } else {
      hide Tracks;
      ImportPrefix(inputs, nodes, n - 1);
      assert nodes[..n - 1] + [nodes[n - 1]] == nodes[..n];
      GenSnoc(Start(inputs), nodes[..n - 1], nodes[n - 1]);
      SamePrefix(inputs, nodes, n);
      if GenAll(Start(inputs), nodes[..n - 1]).Some? {
        Track(inputs, nodes[..n - 1], GenAll(Start(inputs), nodes[..n - 1]).value, nodes[n - 1]);
      }
    }
  }

  lemma SamePrefix(inputs: seq<Shape>, nodes: seq<Node>, n: nat)
    requires 0 < n <= |nodes|
    ensures Importable(inputs, nodes[..n], n - 1) <==> Importable(inputs, nodes, n - 1)
  {
    assert nodes[..n][..n - 1] == nodes[..n - 1] && nodes[..n][n - 1] == nodes[n - 1];
    hide Bound, PlaceholderCount;
  }

  /** On any graph, the import raises no exception exactly if every node can be imported; the names it
      then binds have the expected types.  A node that no branch is for never makes it raise. */
  lemma ImportSucceeds(inputs: seq<Shape>, nodes: seq<Node>)
    ensures GenAll(Start(inputs), nodes).Some? <==> forall k :: 0 <= k < |nodes| ==> Importable(inputs, nodes, k)
    ensures GenAll(Start(inputs), nodes).Some? ==>
      var s := GenAll(Start(inputs), nodes).value;
      && s.symbols.Keys == Bound(inputs, nodes).Keys
      && forall n :: n in s.symbols ==> s.symbols[n] < |s.types| && s.types[s.symbols[n]] == Bound(inputs, nodes)[n]
    ensures forall k :: 0 <= k < |nodes| && Ignored(nodes[k]) ==> Importable(inputs, nodes, k)
  {
    ImportPrefix(inputs, nodes, |nodes|);
    assert nodes[..|nodes|] == nodes;
    hide Bound, PlaceholderCount, Gen, GenAll;
  }

  /** A new importer over a graph. */
  method Import(inputs: seq<Shape>, nodes: seq<Node>) returns (ok: bool, importer: Importer)
    ensures fresh(importer) && (ok <==> forall k :: 0 <= k < |nodes| ==> Importable(inputs, nodes, k))
    ensures ok ==> GenAll(Start(inputs), nodes) == Some(importer.State())
  {
    ImportSucceeds(inputs, nodes);
    hide GenAll, Importable;
    importer := new Importer(inputs);
    ok := importer.Run(nodes);
  }

  // ----- ignored nodes -----

  function WithoutIgnored(nodes: seq<Node>): seq<Node> {
    if nodes == [] then []
    else (if Ignored(nodes[0]) then [] else [nodes[0]]) + WithoutIgnored(nodes[1..])
  }

  /** The import is the same without the nodes it ignores. */
  lemma {:induction false} IgnoredNodesDoNotMatter(s: Code, nodes: seq<Node>)
    requires Defined(s)
    ensures GenAll(s, nodes) == GenAll(s, WithoutIgnored(nodes))
    decreases |nodes|
  {
    if nodes != [] {
      var rest := WithoutIgnored(nodes[1..]);
      if Ignored(nodes[0]) {
        assert Gen(s, nodes[0]) == Some(s);
        assert [] + rest == rest;
        hide Gen;
        IgnoredNodesDoNotMatter(s, nodes[1..]);
      } else {
        hide Gen;
        assert ([nodes[0]] + rest)[1..] == rest;
        if Gen(s, nodes[0]).Some? { IgnoredNodesDoNotMatter(Gen(s, nodes[0]).value, nodes[1..]); }
      }
    }
  }
}
