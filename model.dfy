/** `Model` (crates/ir/src/model.rs and steelix/src/ir/model.rs): the node
    arena, the declared input and output ids and the traversal order, with the
    methods that build the graph, order it and run it. The two trees declare the
    same fields and the same graph-building methods; they differ in `run`,
    which is modelled once per tree (`RunCrates`, `RunSteelix`). */
module GraphModel {
  import opened Wrappers
  import opened Tensors
  import opened IrCore
  import Ops
  import opened Graph
  import opened Execution

  class Model {
    var nodes: seq<OpNode>
    var inputs: seq<nat>
    var outputs: seq<nat>
    var traversalOrder: Option<seq<nat>>

    /** The arena invariant the graph-building methods keep. */
    ghost predicate Valid()
      reads this
    {
      Arena(nodes) && Wired(nodes) && Mirrored(nodes)
    }

    /** `Model::new`: the derived default, an empty graph with no order. */
    constructor ()
      ensures nodes == [] && inputs == [] && outputs == [] && traversalOrder == None
      ensures Valid()
    {
      nodes := [];
      inputs := [];
      outputs := [];
      traversalOrder := None;
    }

    /** `update_traversal_order`. */
    method UpdateTraversalOrder(order: seq<nat>)
      modifies this
      ensures traversalOrder == Some(order)
      ensures nodes == old(nodes) && inputs == old(inputs) && outputs == old(outputs)
    {
      traversalOrder := Some(order);
    }

    /** `add_node`: the new node gets the next index as its id and no edges. */
    method AddNode(name: string, op: Ops.Op) returns (id: nat)
      modifies this
      ensures id == |old(nodes)|
      ensures nodes == old(nodes) + [OpNode(id, name, op, [], [])]
      ensures inputs == old(inputs) && outputs == old(outputs) && traversalOrder == old(traversalOrder)
      ensures old(Valid()) ==> Valid()
    {
      id := |nodes|;
      var node := OpNode(id, name, op, [], []);
      if Valid() {
        AppendKeeps(nodes, node);
      }
      nodes := nodes + [node];
    }

    /** `add_edge`: the consumer is pushed on the producer's consumers, then the
        producer on the consumer's providers. An index out of range panics; a
        consumer out of range does so after the producer was already changed. */
    method AddEdge(producer: nat, consumer: nat) returns (r: Result<()>)
      modifies this
      ensures r.Ok? <==> producer < |old(nodes)| && consumer < |old(nodes)|
      ensures r.Err? ==> r.fault == Panic(OUT_OF_BOUNDS)
      ensures r.Ok? ==> Linked(old(nodes), nodes, producer, consumer)
      ensures r.Ok? && old(Valid()) ==> Valid()
      ensures producer >= |old(nodes)| ==> nodes == old(nodes)
      ensures inputs == old(inputs) && outputs == old(outputs) && traversalOrder == old(traversalOrder)
    {
      if producer >= |nodes| {
        return Err(Panic(OUT_OF_BOUNDS));
      }
      ghost var before := nodes;
      var p := nodes[producer];
      nodes := nodes[producer := p.(consumers := p.consumers + [consumer])];
      if consumer >= |nodes| {
        return Err(Panic(OUT_OF_BOUNDS));
      }
      var c := nodes[consumer];
      nodes := nodes[consumer := c.(providers := c.providers + [producer])];
      assert Linked(before, nodes, producer, consumer);
      LinkKeeps(before, nodes, producer, consumer);
      r := Ok(());
    }

    /** `build_traversal_order`: the depth-first search from each output, whose
        order is stored. Every node comes after its providers (declared inputs
        are leaves), each node once, every output present, and only nodes the
        outputs reach. */
    method BuildTraversalOrder()
      requires Wired(nodes) && Acyclic(nodes, inputs)
      requires forall j :: 0 <= j < |outputs| ==> outputs[j] < |nodes|
      modifies this
      ensures nodes == old(nodes) && inputs == old(inputs) && outputs == old(outputs)
      ensures traversalOrder.Some?
      ensures var order := traversalOrder.value;
        && Distinct(order)
        && (forall i :: 0 <= i < |order| ==> order[i] < |nodes|)
        && (forall j :: 0 <= j < |outputs| ==> outputs[j] in order)
        && ProvidersFirst(nodes, inputs, order)
        && OnlyReachable(nodes, inputs, outputs, order)
    {
      var order := TraversalOrder(nodes, inputs, outputs);
      UpdateTraversalOrder(order);
    }

    /** crates `insert_user_inputs`: every declared input must be bound by
        name. `update` is the trait's default, which drops the tensor, so the
        model is left as it was. */
    method InsertUserInputs(initials: map<string, Tensors.Tensor>) returns (r: Result<()>)
      ensures r == BindInputs(nodes, inputs, initials)
    {
      for k := 0 to |inputs|
        invariant BindInputs(nodes, inputs, initials) == BindInputs(nodes, inputs[k..], initials)
      {
        assert inputs[k..][1..] == inputs[k + 1..];
        if inputs[k] >= |nodes| {
          return Err(Panic(OUT_OF_BOUNDS));
        }
        if nodes[inputs[k]].name !in initials {
          return Err(Validation(INPUT_MISSING));
        }
      }
      r := Ok(());
    }

    /** crates `run`: unwrap the order, drop its last entry, check the inputs,
        then realize each node in turn. */
    method RunCrates(initials: map<string, Tensors.Tensor>) returns (r: Result<CratesSummary>)
      ensures r == CratesRun(Ops.Realize, nodes, inputs, traversalOrder, initials)
    {
      if traversalOrder.None? {
        return Err(Panic(UNWRAP_NONE));
      }
      var order := traversalOrder.value;
      if order != [] {
        order := order[..|order| - 1];
      }
      var bound := InsertUserInputs(initials);
      if bound.Err? {
        return Err(bound.fault);
      }
      r := CratesLoop(Ops.Realize, nodes, order);
    }

    /** steelix `run`: unwrap the order, drop its last entry, then realize each
        node in turn. */
    method RunSteelix() returns (r: Result<SteelixSummary>)
      ensures r == SteelixRun(Ops.Realize, nodes, traversalOrder)
    {
      if traversalOrder.None? {
        return Err(Panic(UNWRAP_NONE));
      }
      var order := traversalOrder.value;
      if order != [] {
        order := order[..|order| - 1];
      }
      r := SteelixLoop(Ops.Realize, nodes, order);
    }
  }
}
