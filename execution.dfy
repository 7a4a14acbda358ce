/** What `Model::run` computes (crates/ir/src/model.rs:149-190 and
    steelix/src/ir/model.rs:131-177), stated as functions of the node arena and
    the traversal order: each entry of the order but the last is realized in
    turn, reading its providers' first outputs from a cache keyed by node id;
    the costs are summed and the non-Constant nodes counted by name. The two
    versions differ only in how a missing cache entry is read, in whether an
    empty result is accepted, and in what the summary holds. */
module Execution {
  import opened Wrappers
  import opened Shapes
  import opened Tensors
  import opened IrCore
  import Ops
  import opened Graph

  /** Which of the two source trees a run follows. */
  datatype Tree = Crates | Steelix

  /** `Op::realize`, reached through the boxed op of each node. The run
      functions take it as a parameter and are applied to `Ops.Realize`. */
  type Realizer = (Ops.Op, seq<Tensors.Tensor>) -> Result<RealizedOp>

  /** `ModelSummary` of crates/ir. */
  datatype CratesSummary = CratesSummary(totalFlops: nat, totalParams: nat, opCounts: map<string, nat>)

  /** `ModelSummary` of steelix. */
  datatype SteelixSummary = SteelixSummary(totalFlops: nat, totalParams: nat,
                                           opFrequencies: map<string, nat>, outputShapes: map<nat, Shape>)

  /** The message of the crates `insert_user_inputs` check. */
  const INPUT_MISSING: string := "Failed to get required input."

  // ---------------------------------------------------------------------------
  // Id-keyed maps written in order

  /** The map obtained by inserting `vals[i]` under `keys[i]` for each `i` in
      turn: a later insertion under the same key replaces an earlier one. */
  function LastWrite<V>(keys: seq<nat>, vals: seq<V>): (m: map<nat, V>)
    requires |keys| == |vals|
    ensures forall x :: x in m <==> x in keys
  {
    if keys == [] then map[]
    else
      var n := |keys| - 1;
      assert keys == keys[..n] + [keys[n]];
      LastWrite(keys[..n], vals[..n])[keys[n] := vals[n]]
  }

  /** The value under a key is the one written last under it. */
  lemma {:induction false} LastWriteReadsLast<V>(keys: seq<nat>, vals: seq<V>, i: nat)
    requires |keys| == |vals| && i < |keys|
    requires forall j :: i < j < |keys| ==> keys[j] != keys[i]
    ensures keys[i] in LastWrite(keys, vals) && LastWrite(keys, vals)[keys[i]] == vals[i]
  {
    var n := |keys| - 1;
    if i < n {
      LastWriteReadsLast(keys[..n], vals[..n], i);
    }
  }

  /** The outputs of each realized op. */
  function Outputs(rs: seq<RealizedOp>): (s: seq<seq<Tensors.Tensor>>)
    ensures |s| == |rs| && forall i :: 0 <= i < |rs| ==> s[i] == rs[i].outputs
  {
    seq(|rs|, i requires 0 <= i < |rs| => rs[i].outputs)
  }

  /** The shape of the first output of each realized op (empty when there is none). */
  function FirstShapes(rs: seq<RealizedOp>): (s: seq<Shape>)
    ensures |s| == |rs|
    ensures forall i :: 0 <= i < |rs| && rs[i].outputs != [] ==> s[i] == rs[i].outputs[0].shape
  {
    seq(|rs|, i requires 0 <= i < |rs| => if rs[i].outputs == [] then [] else rs[i].outputs[0].shape)
  }

  /** `TraversalState::intermediates` after the nodes `ids` gave the results `rs`. */
  function Cache(ids: seq<nat>, rs: seq<RealizedOp>): map<nat, seq<Tensors.Tensor>>
    requires |ids| == |rs|
  {
    LastWrite(ids, Outputs(rs))
  }

  // ---------------------------------------------------------------------------
  // One node

  /** The tensor passed for provider `id`: the first output cached for it. A
      missing entry is an `unwrap` on `None` in crates and the default tensor in
      steelix; an entry with no outputs makes the `[0]` index panic. */
  function ProviderInput(tree: Tree, cache: map<nat, seq<Tensors.Tensor>>, id: nat): (r: Result<Tensors.Tensor>)
    ensures r.Ok? <==> (id in cache && cache[id] != []) || (id !in cache && tree == Steelix)
    ensures id in cache && cache[id] != [] ==> r == Ok(cache[id][0])
    ensures id !in cache && tree == Steelix ==> r == Ok(DefaultTensor)
    ensures r.Err? ==> IsPanic(r)
  {
    if id !in cache then
      (if tree.Crates? then Err(Panic(UNWRAP_NONE)) else Ok(DefaultTensor))
    else if cache[id] == [] then Err(Panic(OUT_OF_BOUNDS))
    else Ok(cache[id][0])
  }

  /** The provider tensors of a node, in the order of its provider list; the
      first provider that cannot be read decides the error. */
  function ProviderInputs(tree: Tree, cache: map<nat, seq<Tensors.Tensor>>, ids: seq<nat>): (r: Result<seq<Tensors.Tensor>>)
    ensures r.Ok? <==> forall k :: 0 <= k < |ids| ==> ProviderInput(tree, cache, ids[k]).Ok?
    ensures r.Ok? ==> |r.value| == |ids| && forall k :: 0 <= k < |ids| ==> r.value[k] == ProviderInput(tree, cache, ids[k]).value
  {
    if ids == [] then Ok([])
    else
      var n := |ids| - 1;
      assert forall k :: 0 <= k < n ==> ids[..n][k] == ids[k];
      var front := ProviderInputs(tree, cache, ids[..n]);
      if front.Err? then Err(front.fault)
      else
        var t := ProviderInput(tree, cache, ids[n]);
        if t.Err? then Err(t.fault) else Ok(front.value + [t.value])
  }

  /** The first provider that cannot be read decides the error. */
  lemma {:induction false} FirstUnreadableDecides(tree: Tree, cache: map<nat, seq<Tensors.Tensor>>, ids: seq<nat>, k: nat)
    requires k < |ids| && ProviderInput(tree, cache, ids[k]).Err?
    requires forall q :: 0 <= q < k ==> ProviderInput(tree, cache, ids[q]).Ok?
    ensures ProviderInputs(tree, cache, ids) == Err(ProviderInput(tree, cache, ids[k]).fault)
  {
    var n := |ids| - 1;
    if k < n {
      assert forall q :: 0 <= q <= k ==> ids[..n][q] == ids[q];
      FirstUnreadableDecides(tree, cache, ids[..n], k);
    }
  }

  /** One turn of the loop: index the node, gather its providers, realize it;
      in steelix the first output must exist, since its shape is recorded. */
  function Step(tree: Tree, realize: Realizer, nodes: seq<OpNode>, cache: map<nat, seq<Tensors.Tensor>>, id: nat): (r: Result<RealizedOp>)
    ensures id >= |nodes| ==> r == Err(Panic(OUT_OF_BOUNDS))
    ensures r.Ok? ==> id < |nodes| && ProviderInputs(tree, cache, nodes[id].providers).Ok?
    ensures r.Ok? && tree.Steelix? ==> r.value.outputs != []
  {
    if id >= |nodes| then Err(Panic(OUT_OF_BOUNDS))
    else
      var ins := ProviderInputs(tree, cache, nodes[id].providers);
      if ins.Err? then Err(ins.fault)
      else
        var realized := realize(nodes[id].op, ins.value);
        if realized.Err? then realized
        else if tree.Steelix? && realized.value.outputs == [] then Err(Panic(OUT_OF_BOUNDS))
        else realized
  }

  // ---------------------------------------------------------------------------
  // The loop

  /** The results of realizing `ids` in turn, each node reading the cache the
      earlier ones filled; the first failure ends the run. */
  function Realizations(tree: Tree, realize: Realizer, nodes: seq<OpNode>, ids: seq<nat>): (r: Result<seq<RealizedOp>>)
    ensures r.Ok? ==> |r.value| == |ids| && forall k :: 0 <= k < |ids| ==> ids[k] < |nodes|
    ensures r.Ok? && tree.Steelix? ==> forall k :: 0 <= k < |ids| ==> r.value[k].outputs != []
  {
    if ids == [] then Ok([])
    else
      var n := |ids| - 1;
      var done := Realizations(tree, realize, nodes, ids[..n]);
      if done.Err? then done
      else
        var s := Step(tree, realize, nodes, Cache(ids[..n], done.value), ids[n]);
        if s.Err? then Err(s.fault)
        else
          assert forall k :: 0 <= k < n ==> ids[..n][k] == ids[k];
          Ok(done.value + [s.value])
  }

  /** A successful run is a successful run of each prefix: node `k` gave the
      result `Step` gives it from the cache of the nodes before it. */
  lemma {:induction false} RealizationsPrefix(tree: Tree, realize: Realizer, nodes: seq<OpNode>, ids: seq<nat>, k: nat)
    requires Realizations(tree, realize, nodes, ids).Ok? && k <= |ids|
    ensures var rs := Realizations(tree, realize, nodes, ids).value;
      && Realizations(tree, realize, nodes, ids[..k]) == Ok(rs[..k])
      && (k < |ids| ==> Step(tree, realize, nodes, Cache(ids[..k], rs[..k]), ids[k]) == Ok(rs[k]))
    decreases |ids|
  {
    var n := |ids| - 1;
    var rs := Realizations(tree, realize, nodes, ids).value;
    if k <= n {
      RealizationsLast(tree, realize, nodes, ids);
      if k < n {
        RealizationsPrefix(tree, realize, nodes, ids[..n], k);
        SlicesOfPrefix(ids, rs, n, k);
      }
    } else {
      assert ids[..k] == ids && rs[..k] == rs;
    }
  }

  /** The last step of a successful run, and the run before it. */
  lemma RealizationsLast(tree: Tree, realize: Realizer, nodes: seq<OpNode>, ids: seq<nat>)
    requires Realizations(tree, realize, nodes, ids).Ok? && ids != []
    ensures var rs, n := Realizations(tree, realize, nodes, ids).value, |ids| - 1;
      && Realizations(tree, realize, nodes, ids[..n]) == Ok(rs[..n])
      && Step(tree, realize, nodes, Cache(ids[..n], rs[..n]), ids[n]) == Ok(rs[n])
  {
  }

  lemma SlicesOfPrefix<S, T>(xs: seq<S>, ys: seq<T>, n: nat, k: nat)
    requires k < n <= |xs| && n <= |ys|
    ensures xs[..n][..k] == xs[..k] && ys[..n][..k] == ys[..k]
    ensures xs[..n][k] == xs[k] && ys[..n][k] == ys[k]
  {
  }

  /** The first failure aborts the run: once a prefix fails, every longer run
      fails with the same error. */
  lemma {:induction false} FirstFailureAborts(tree: Tree, realize: Realizer, nodes: seq<OpNode>, ids: seq<nat>, k: nat)
    requires k <= |ids| && Realizations(tree, realize, nodes, ids[..k]).Err?
    ensures Realizations(tree, realize, nodes, ids) == Realizations(tree, realize, nodes, ids[..k])
    decreases |ids| - k
  {
    if k < |ids| {
      var next := ids[..k + 1];
      assert next[..k] == ids[..k];
      assert Realizations(tree, realize, nodes, next) == Realizations(tree, realize, nodes, ids[..k]);
      FirstFailureAborts(tree, realize, nodes, ids, k + 1);
    } else {
      assert ids[..k] == ids;
    }
  }

  /** Extending a successful run by one more node. */
  lemma StepExtends(tree: Tree, realize: Realizer, nodes: seq<OpNode>, ids: seq<nat>, k: nat, done: seq<RealizedOp>)
    requires k < |ids| && Realizations(tree, realize, nodes, ids[..k]) == Ok(done)
    ensures var s := Step(tree, realize, nodes, Cache(ids[..k], done), ids[k]);
      && (s.Ok? ==> Realizations(tree, realize, nodes, ids[..k + 1]) == Ok(done + [s.value]))
      && (s.Err? ==> Realizations(tree, realize, nodes, ids) == Err(s.fault))
  {
    var next := ids[..k + 1];
    assert next[..k] == ids[..k] && next[k] == ids[k];
    var s := Step(tree, realize, nodes, Cache(ids[..k], done), ids[k]);
    if s.Err? {
      FirstFailureAborts(tree, realize, nodes, ids, k + 1);
    }
  }

  // ---------------------------------------------------------------------------
  // The summary

  function TotalFlops(rs: seq<RealizedOp>): nat
  {
    if rs == [] then 0 else TotalFlops(rs[..|rs| - 1]) + rs[|rs| - 1].cost.flops
  }

  function TotalParams(rs: seq<RealizedOp>): nat
  {
    if rs == [] then 0 else TotalParams(rs[..|rs| - 1]) + rs[|rs| - 1].cost.parameters
  }

  /** The totals over two runs one after the other are the sums of their totals. */
  lemma {:induction false} TotalsAdd(a: seq<RealizedOp>, b: seq<RealizedOp>)
    ensures TotalFlops(a + b) == TotalFlops(a) + TotalFlops(b)
    ensures TotalParams(a + b) == TotalParams(a) + TotalParams(b)
    decreases |b|
  {
    if b == [] {
      assert a + b == a;
    } else {
      var n := |b| - 1;
      assert (a + b)[..|a + b| - 1] == a + b[..n];
      TotalsAdd(a, b[..n]);
    }
  }

  /** A node is counted when its op is not in the Constant group. */
  predicate Counted(node: OpNode)
  {
    Ops.Group(node.op) != OpGroup.Constant
  }

  /** The names of the counted nodes among `ids`, in order. */
  function CountedNames(nodes: seq<OpNode>, ids: seq<nat>): seq<string>
    requires forall k :: 0 <= k < |ids| ==> ids[k] < |nodes|
  {
    if ids == [] then []
    else
      var n := |ids| - 1;
      CountedNames(nodes, ids[..n]) + (if Counted(nodes[ids[n]]) then [nodes[ids[n]].name] else [])
  }

  /** `op_counts`: the `entry(name).or_insert(0) += 1` fold over the counted nodes. */
  function OpCounts(nodes: seq<OpNode>, ids: seq<nat>): map<string, nat>
    requires forall k :: 0 <= k < |ids| ==> ids[k] < |nodes|
  {
    if ids == [] then map[]
    else
      var n := |ids| - 1;
      Tally(OpCounts(nodes, ids[..n]), nodes[ids[n]])
  }

  /** `*op_counts.entry(name).or_insert(0) += 1` for a counted node. */
  function Tally(m: map<string, nat>, node: OpNode): map<string, nat>
  {
    if Counted(node) then m[node.name := (if node.name in m then m[node.name] else 0) + 1] else m
  }

  /** The counts map holds exactly the names of counted nodes, each with the
      number of counted nodes of that name. */
  lemma {:induction false} OpCountsCountNames(nodes: seq<OpNode>, ids: seq<nat>)
    requires forall k :: 0 <= k < |ids| ==> ids[k] < |nodes|
    ensures forall name :: name in OpCounts(nodes, ids) <==> multiset(CountedNames(nodes, ids))[name] > 0
    ensures forall name :: name in OpCounts(nodes, ids) ==> OpCounts(nodes, ids)[name] == multiset(CountedNames(nodes, ids))[name]
  {
    if ids != [] {
      OpCountsCountNames(nodes, ids[..|ids| - 1]);
    }
  }

  /** The per-node shapes of steelix's `output_shapes`. */
  function OutputShapes(ids: seq<nat>, rs: seq<RealizedOp>): map<nat, Shape>
    requires |ids| == |rs|
  {
    LastWrite(ids, FirstShapes(rs))
  }

  /** `order.pop()`: the order without its last entry (`pop` on an empty vector
      leaves it empty). */
  function Popped(order: seq<nat>): (r: seq<nat>)
    ensures order != [] ==> r + [order[|order| - 1]] == order
    ensures order == [] ==> r == []
  {
    if order == [] then [] else order[..|order| - 1]
  }

  // ---------------------------------------------------------------------------
  // Whole runs

  /** `insert_user_inputs`: each declared input id must index a node, and the
      node's name must be bound; the first input that fails decides the error.
      (`update` is the trait's default, which ignores the tensor.) */
  function BindInputs(nodes: seq<OpNode>, inputs: seq<nat>, initials: map<string, Tensors.Tensor>): (r: Result<()>)
    ensures r.Ok? <==> forall k :: 0 <= k < |inputs| ==> inputs[k] < |nodes| && nodes[inputs[k]].name in initials
    ensures r.Err? ==> r.fault == Panic(OUT_OF_BOUNDS) || r.fault == Validation(INPUT_MISSING)
    ensures (forall k :: 0 <= k < |inputs| ==> inputs[k] < |nodes|) && r.Err? ==> r.fault == Validation(INPUT_MISSING)
  {
    if inputs == [] then Ok(())
    else if inputs[0] >= |nodes| then Err(Panic(OUT_OF_BOUNDS))
    else if nodes[inputs[0]].name !in initials then Err(Validation(INPUT_MISSING))
    else
      assert forall k :: 1 <= k < |inputs| ==> inputs[1..][k - 1] == inputs[k];
      BindInputs(nodes, inputs[1..], initials)
  }

  /** The summary the crates loop returns after realizing `ids`. */
  function CratesSummaryOf(realize: Realizer, nodes: seq<OpNode>, ids: seq<nat>): Result<CratesSummary>
  {
    match Realizations(Crates, realize, nodes, ids)
    case Err(f) => Err(f)
    case Ok(rs) => Ok(CratesSummary(TotalFlops(rs) * 8, TotalParams(rs), OpCounts(nodes, ids)))
  }

  lemma SummaryOfFailure(realize: Realizer, nodes: seq<OpNode>, ids: seq<nat>, f: Fault)
    requires Realizations(Crates, realize, nodes, ids) == Err(f)
    ensures CratesSummaryOf(realize, nodes, ids) == Err(f)
  {
  }

  lemma SummaryOfSuccess(realize: Realizer, nodes: seq<OpNode>, ids: seq<nat>, rs: seq<RealizedOp>)
    requires Realizations(Crates, realize, nodes, ids) == Ok(rs)
    ensures CratesSummaryOf(realize, nodes, ids) == Ok(CratesSummary(TotalFlops(rs) * 8, TotalParams(rs), OpCounts(nodes, ids)))
  {
  }

  /** The summary the steelix loop returns after realizing `ids`. */
  function SteelixSummaryOf(realize: Realizer, nodes: seq<OpNode>, ids: seq<nat>): Result<SteelixSummary>
  {
    match Realizations(Steelix, realize, nodes, ids)
    case Err(f) => Err(f)
    case Ok(rs) => Ok(SteelixSummary(TotalFlops(rs), TotalParams(rs), OpCounts(nodes, ids), OutputShapes(ids, rs)))
  }

  /** crates `Model::run`: no order is an `unwrap` on `None`; the inputs are
      checked before any node is realized. */
  function CratesRun(realize: Realizer, nodes: seq<OpNode>, inputs: seq<nat>, order: Option<seq<nat>>,
                     initials: map<string, Tensors.Tensor>): Result<CratesSummary>
  {
    if order.None? then Err(Panic(UNWRAP_NONE))
    else
      var bound := BindInputs(nodes, inputs, initials);
      if bound.Err? then Err(bound.fault)
      else CratesSummaryOf(realize, nodes, Popped(order.value))
  }

  /** steelix `Model::run`: no input check. */
  function SteelixRun(realize: Realizer, nodes: seq<OpNode>, order: Option<seq<nat>>): Result<SteelixSummary>
  {
    if order.None? then Err(Panic(UNWRAP_NONE))
    else SteelixSummaryOf(realize, nodes, Popped(order.value))
  }

  // ---------------------------------------------------------------------------
  // Properties of runs

  /** Every provider a node of `ids` reads was realized before the node. */
  ghost predicate ReadsEarlier(nodes: seq<OpNode>, ids: seq<nat>)
  {
    forall k, q :: 0 <= k < |ids| && ids[k] < |nodes| && 0 <= q < |nodes[ids[k]].providers|
      ==> nodes[ids[k]].providers[q] in ids[..k]
  }

  /** Each entry of a cache filled by steelix results holds an output. */
  lemma {:induction false} CacheHoldsOutputs(ids: seq<nat>, rs: seq<RealizedOp>)
    requires |ids| == |rs| && forall k :: 0 <= k < |rs| ==> rs[k].outputs != []
    ensures forall x :: x in Cache(ids, rs) ==> Cache(ids, rs)[x] != []
  {
    if ids != [] {
      var n := |ids| - 1;
      assert Outputs(rs)[..n] == Outputs(rs[..n]);
      CacheHoldsOutputs(ids[..n], rs[..n]);
      assert Cache(ids, rs) == Cache(ids[..n], rs[..n])[ids[n] := rs[n].outputs];
    }
  }

  /** When every provider is read from a filled cache entry, the two trees read
      the same tensors. */
  lemma SameInputs(cache: map<nat, seq<Tensors.Tensor>>, ids: seq<nat>)
    requires forall k :: 0 <= k < |ids| ==> ids[k] in cache && cache[ids[k]] != []
    ensures ProviderInputs(Crates, cache, ids) == ProviderInputs(Steelix, cache, ids)
    ensures ProviderInputs(Crates, cache, ids).Ok?
  {
    var c, s := ProviderInputs(Crates, cache, ids), ProviderInputs(Steelix, cache, ids);
    assert c.Ok? && s.Ok?;
    assert c.value == s.value;
  }

  /** On an order in which every node comes after its providers, the crates run
      and the steelix run realize the same ops with the same results: the
      steelix fallback to the default tensor is never taken, and the crates
      `unwrap` never fails. */
  lemma {:induction false} TreesAgree(realize: Realizer, nodes: seq<OpNode>, ids: seq<nat>)
    requires ReadsEarlier(nodes, ids) && Realizations(Steelix, realize, nodes, ids).Ok?
    ensures Realizations(Crates, realize, nodes, ids) == Realizations(Steelix, realize, nodes, ids)
  {
    if ids != [] {
      var n := |ids| - 1;
      var front := ids[..n];
      assert forall k :: 0 <= k < n ==> front[k] == ids[k] && front[..k] == ids[..k];
      TreesAgree(realize, nodes, front);
      var done := Realizations(Steelix, realize, nodes, front).value;
      var cache := Cache(front, done);
      CacheHoldsOutputs(front, done);
      var id := ids[n];
      if id < |nodes| {
        assert forall q :: 0 <= q < |nodes[id].providers| ==> nodes[id].providers[q] in front;
        SameInputs(cache, nodes[id].providers);
      }
    }
  }

  /** On such an order, a steelix summary and a crates summary agree: the same
      parameter total and op counts, and a flop total eight times larger in
      crates. */
  lemma OrderedSummariesAgree(realize: Realizer, nodes: seq<OpNode>, ids: seq<nat>)
    requires ReadsEarlier(nodes, ids) && SteelixSummaryOf(realize, nodes, ids).Ok?
    ensures var c, s := CratesSummaryOf(realize, nodes, ids), SteelixSummaryOf(realize, nodes, ids).value;
      && c.Ok? && c.value.totalFlops == 8 * s.totalFlops && c.value.totalParams == s.totalParams
      && c.value.opCounts == s.opFrequencies
  {
    TreesAgree(realize, nodes, ids);
  }

  /** A traversal order whose non-input nodes come after their providers, in a
      graph whose inputs have no providers, reads only earlier nodes once its
      last entry is popped. */
  lemma PoppedReadsEarlier(nodes: seq<OpNode>, inputs: seq<nat>, order: seq<nat>)
    requires ProvidersFirst(nodes, inputs, order)
    requires forall j :: 0 <= j < |inputs| && inputs[j] < |nodes| ==> nodes[inputs[j]].providers == []
    ensures ReadsEarlier(nodes, Popped(order))
  {
    var ids := Popped(order);
    forall k, q | 0 <= k < |ids| && ids[k] < |nodes| && 0 <= q < |nodes[ids[k]].providers|
      ensures nodes[ids[k]].providers[q] in ids[..k]
    {
      assert ids[k] == order[k] && ids[..k] == order[..k];
    }
  }

  /** On a traversal order built over a graph whose declared inputs have no
      providers, once the crates inputs are bound, a successful steelix run and
      the crates run report the same model, up to the factor 8 on flops. */
  lemma BuiltOrderRunsAgree(realize: Realizer, nodes: seq<OpNode>, inputs: seq<nat>, order: seq<nat>,
                            initials: map<string, Tensors.Tensor>)
    requires ProvidersFirst(nodes, inputs, order)
    requires forall j :: 0 <= j < |inputs| && inputs[j] < |nodes| ==> nodes[inputs[j]].providers == []
    requires BindInputs(nodes, inputs, initials).Ok? && SteelixRun(realize, nodes, Some(order)).Ok?
    ensures var c, s := CratesRun(realize, nodes, inputs, Some(order), initials), SteelixRun(realize, nodes, Some(order)).value;
      && c.Ok? && c.value.totalFlops == 8 * s.totalFlops && c.value.totalParams == s.totalParams
      && c.value.opCounts == s.opFrequencies
  {
    PoppedReadsEarlier(nodes, inputs, order);
    OrderedSummariesAgree(realize, nodes, Popped(order));
  }

  /** With distinct ids, steelix's `output_shapes` maps each realized node to
      the shape of its first output. */
  lemma ShapesRecorded(realize: Realizer, nodes: seq<OpNode>, ids: seq<nat>, k: nat)
    requires Distinct(ids) && k < |ids| && SteelixSummaryOf(realize, nodes, ids).Ok?
    ensures var s := SteelixSummaryOf(realize, nodes, ids).value;
      var rs := Realizations(Steelix, realize, nodes, ids).value;
      && (forall x :: x in s.outputShapes <==> x in ids)
      && s.outputShapes[ids[k]] == rs[k].outputs[0].shape
  {
    var rs := Realizations(Steelix, realize, nodes, ids).value;
    LastWriteReadsLast(ids, FirstShapes(rs), k);
  }

  /** crates checks the inputs before realizing anything: an unbound input
      name stops the run with the validation error, whatever the ops do. */
  lemma UnboundInputStopsRun(realize: Realizer, nodes: seq<OpNode>, inputs: seq<nat>, order: seq<nat>,
                             initials: map<string, Tensors.Tensor>, j: nat)
    requires forall k :: 0 <= k < |inputs| ==> inputs[k] < |nodes|
    requires j < |inputs| && nodes[inputs[j]].name !in initials
    ensures CratesRun(realize, nodes, inputs, Some(order), initials) == Err(Validation(INPUT_MISSING))
  {
  }

  /** The last entry of the order is never realized: a run is the same whatever
      node it names. */
  lemma LastEntryIgnored(realize: Realizer, nodes: seq<OpNode>, inputs: seq<nat>, order: seq<nat>,
                         x: nat, y: nat, initials: map<string, Tensors.Tensor>)
    ensures CratesRun(realize, nodes, inputs, Some(order + [x]), initials)
            == CratesRun(realize, nodes, inputs, Some(order + [y]), initials)
    ensures SteelixRun(realize, nodes, Some(order + [x])) == SteelixRun(realize, nodes, Some(order + [y]))
  {
    assert Popped(order + [x]) == order == Popped(order + [y]);
  }

  // ---------------------------------------------------------------------------
  // The loops

  lemma CacheExtends(ids: seq<nat>, i: nat, done: seq<RealizedOp>, r: RealizedOp)
    requires |done| == i < |ids|
    ensures Cache(ids[..i + 1], done + [r]) == Cache(ids[..i], done)[ids[i] := r.outputs]
    ensures OutputShapes(ids[..i + 1], done + [r]) == OutputShapes(ids[..i], done)[ids[i] := FirstShapes(done + [r])[i]]
  {
    assert ids[..i + 1][..i] == ids[..i];
    assert Outputs(done + [r])[..i] == Outputs(done);
    assert FirstShapes(done + [r])[..i] == FirstShapes(done);
  }

  lemma TotalsExtend(done: seq<RealizedOp>, r: RealizedOp)
    ensures TotalFlops(done + [r]) == TotalFlops(done) + r.cost.flops
    ensures TotalParams(done + [r]) == TotalParams(done) + r.cost.parameters
  {
    assert (done + [r])[..|done|] == done;
  }

  lemma OpCountsExtend(nodes: seq<OpNode>, ids: seq<nat>, i: nat)
    requires i < |ids| && ids[i] < |nodes| && forall k :: 0 <= k < i ==> ids[k] < |nodes|
    ensures forall k :: 0 <= k < i + 1 ==> ids[k] < |nodes|
    ensures OpCounts(nodes, ids[..i + 1]) == Tally(OpCounts(nodes, ids[..i]), nodes[ids[i]])
  {
    assert ids[..i + 1][..i] == ids[..i];
  }

  /** One pass of the loop body: look the node up, collect the first output of
      each provider from the cache, realize the op; steelix then reads the
      first output, which must exist. Updating the counters is left to the
      loops. */
  method RealizeNode(tree: Tree, realize: Realizer, nodes: seq<OpNode>, cache: map<nat, seq<Tensors.Tensor>>, id: nat)
    returns (r: Result<RealizedOp>)
    ensures r == Step(tree, realize, nodes, cache, id)
  {
    if id >= |nodes| {
      return Err(Panic(OUT_OF_BOUNDS));
    }
    var node := nodes[id];
    var providers := ProviderInputs(tree, cache, node.providers);
    if providers.Err? {
      return Err(providers.fault);
    }
    r := realize(node.op, providers.value);
    if r.Ok? && tree.Steelix? && r.value.outputs == [] {
      r := Err(Panic(OUT_OF_BOUNDS));
    }
  }

  /** What the loops know after `i` nodes: the run so far succeeded with
      results `done`, and the cache and the counters hold what those results
      give. */
  ghost predicate RunAt(tree: Tree, realize: Realizer, nodes: seq<OpNode>, ids: seq<nat>, i: nat,
                        done: seq<RealizedOp>, cache: map<nat, seq<Tensors.Tensor>>,
                        totalFlops: nat, totalParams: nat, opCounts: map<string, nat>)
  {
    && i <= |ids| && |done| == i
    && Realizations(tree, realize, nodes, ids[..i]) == Ok(done)
    && (forall k :: 0 <= k < i ==> ids[k] < |nodes|)
    && cache == Cache(ids[..i], done)
    && totalFlops == TotalFlops(done) && totalParams == TotalParams(done)
    && opCounts == OpCounts(nodes, ids[..i])
  }

  /** One more node realized successfully keeps `RunAt`. */
  lemma RunAdvance(tree: Tree, realize: Realizer, nodes: seq<OpNode>, ids: seq<nat>, i: nat,
                   done: seq<RealizedOp>, cache: map<nat, seq<Tensors.Tensor>>,
                   totalFlops: nat, totalParams: nat, opCounts: map<string, nat>, r: RealizedOp)
    requires i < |ids| && RunAt(tree, realize, nodes, ids, i, done, cache, totalFlops, totalParams, opCounts)
    requires Step(tree, realize, nodes, cache, ids[i]) == Ok(r)
    ensures ids[i] < |nodes|
    ensures RunAt(tree, realize, nodes, ids, i + 1, done + [r], cache[ids[i] := r.outputs],
                  totalFlops + r.cost.flops, totalParams + r.cost.parameters, Tally(opCounts, nodes[ids[i]]))
    ensures r.outputs != [] ==>
      OutputShapes(ids[..i + 1], done + [r]) == OutputShapes(ids[..i], done)[ids[i] := r.outputs[0].shape]
  {
    StepExtends(tree, realize, nodes, ids, i, done);
    OpCountsExtend(nodes, ids, i);
    CacheExtends(ids, i, done, r);
    TotalsExtend(done, r);
  }

  /** A failed node ends the run with its error. */
  lemma RunStops(tree: Tree, realize: Realizer, nodes: seq<OpNode>, ids: seq<nat>, i: nat,
                 done: seq<RealizedOp>, cache: map<nat, seq<Tensors.Tensor>>,
                 totalFlops: nat, totalParams: nat, opCounts: map<string, nat>)
    requires i < |ids| && RunAt(tree, realize, nodes, ids, i, done, cache, totalFlops, totalParams, opCounts)
    requires Step(tree, realize, nodes, cache, ids[i]).Err?
    ensures Realizations(tree, realize, nodes, ids) == Err(Step(tree, realize, nodes, cache, ids[i]).fault)
  {
    StepExtends(tree, realize, nodes, ids, i, done);
  }

  /** The crates `for node_id in order` loop with its accumulators. */
  method CratesLoop(realize: Realizer, nodes: seq<OpNode>, ids: seq<nat>) returns (r: Result<CratesSummary>)
    ensures r == CratesSummaryOf(realize, nodes, ids)
  {
    var intermediates: map<nat, seq<Tensors.Tensor>> := map[];
    var totalFlops: nat, totalParams: nat := 0, 0;
    var opCounts: map<string, nat> := map[];
    ghost var done: seq<RealizedOp> := [];
    for i := 0 to |ids|
      invariant RunAt(Crates, realize, nodes, ids, i, done, intermediates, totalFlops, totalParams, opCounts)
    {
      var id := ids[i];
      var result := RealizeNode(Crates, realize, nodes, intermediates, id);
      if result.Err? {
        RunStops(Crates, realize, nodes, ids, i, done, intermediates, totalFlops, totalParams, opCounts);
        SummaryOfFailure(realize, nodes, ids, result.fault);
        return Err(result.fault);
      }
      RunAdvance(Crates, realize, nodes, ids, i, done, intermediates, totalFlops, totalParams, opCounts, result.value);
      opCounts := Tally(opCounts, nodes[id]);
      totalFlops := totalFlops + result.value.cost.flops;
      totalParams := totalParams + result.value.cost.parameters;
      intermediates := intermediates[id := result.value.outputs];
      done := done + [result.value];
    }
    assert ids[..|ids|] == ids;
    SummaryOfSuccess(realize, nodes, ids, done);
    totalFlops := totalFlops * 8;
    r := Ok(CratesSummary(totalFlops, totalParams, opCounts));
  }

  /** The steelix `for node_id in order` loop, which also records the shape of
      each node's first output. */
  method SteelixLoop(realize: Realizer, nodes: seq<OpNode>, ids: seq<nat>) returns (r: Result<SteelixSummary>)
    ensures r == SteelixSummaryOf(realize, nodes, ids)
  {
    var intermediates: map<nat, seq<Tensors.Tensor>> := map[];
    var totalFlops: nat, totalParams: nat := 0, 0;
    var outputShapes: map<nat, Shape> := map[];
    var opCounts: map<string, nat> := map[];
    ghost var done: seq<RealizedOp> := [];
    for i := 0 to |ids|
      invariant RunAt(Steelix, realize, nodes, ids, i, done, intermediates, totalFlops, totalParams, opCounts)
      invariant outputShapes == OutputShapes(ids[..i], done)
    {
      var id := ids[i];
      var result := RealizeNode(Steelix, realize, nodes, intermediates, id);
      if result.Err? {
        RunStops(Steelix, realize, nodes, ids, i, done, intermediates, totalFlops, totalParams, opCounts);
        return Err(result.fault);
      }
      RunAdvance(Steelix, realize, nodes, ids, i, done, intermediates, totalFlops, totalParams, opCounts, result.value);
      opCounts := Tally(opCounts, nodes[id]);
      totalFlops := totalFlops + result.value.cost.flops;
      totalParams := totalParams + result.value.cost.parameters;
      outputShapes := outputShapes[id := result.value.outputs[0].shape];
      intermediates := intermediates[id := result.value.outputs];
      done := done + [result.value];
    }
    assert ids[..|ids|] == ids;
    r := Ok(SteelixSummary(totalFlops, totalParams, opCounts, outputShapes));
  }
}
