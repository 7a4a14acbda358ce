/** The node graph of a model (crates/ir/src/model.rs and steelix/src/ir/model.rs
    hold the same text for it): an arena of nodes addressed by index, each with
    the ids of its providers and consumers, and the depth-first search that
    `build_traversal_order` runs over it with an explicit stack of
    `(node, provider index)` frames. */
module Graph {
  import Ops

  /** `OpNode`: the node's id, its name, its op, and the ids it reads from and
      is read by, in the order the edges were added. */
  datatype OpNode = OpNode(id: nat, name: string, op: Ops.Op, providers: seq<nat>, consumers: seq<nat>)

  /** Every node sits at the index equal to its id. */
  predicate Arena(nodes: seq<OpNode>)
  {
    forall i :: 0 <= i < |nodes| ==> nodes[i].id == i
  }

  /** Every provider and consumer id names a node of the arena. */
  predicate Wired(nodes: seq<OpNode>)
  {
    && (forall v, k :: 0 <= v < |nodes| && 0 <= k < |nodes[v].providers| ==> nodes[v].providers[k] < |nodes|)
    && (forall v, k :: 0 <= v < |nodes| && 0 <= k < |nodes[v].consumers| ==> nodes[v].consumers[k] < |nodes|)
  }

  /** Every edge is recorded at both ends: `v` is a consumer of `u` exactly as
      many times as `u` is a provider of `v`. */
  predicate Mirrored(nodes: seq<OpNode>)
  {
    forall u, v :: 0 <= u < |nodes| && 0 <= v < |nodes| ==>
      multiset(nodes[u].consumers)[v] == multiset(nodes[v].providers)[u]
  }

  /** `after` is `before` with one more edge from `p` to `c`: `c` appended to
      the consumers of `p` and `p` to the providers of `c`, nothing else changed. */
  ghost predicate Linked(before: seq<OpNode>, after: seq<OpNode>, p: nat, c: nat)
  {
    && |after| == |before|
    && forall i :: 0 <= i < |before| ==>
         after[i] == before[i].(consumers := before[i].consumers + (if i == p then [c] else []),
                                providers := before[i].providers + (if i == c then [p] else []))
  }

  /** A node with no edges, appended at the index equal to its id, keeps the
      arena well formed. */
  lemma AppendKeeps(nodes: seq<OpNode>, node: OpNode)
    requires node.id == |nodes| && node.providers == [] && node.consumers == []
    requires Arena(nodes) && Wired(nodes) && Mirrored(nodes)
    ensures var after := nodes + [node]; Arena(after) && Wired(after) && Mirrored(after)
  {
    var after := nodes + [node];
    var n := |nodes|;
    forall u, v | 0 <= u < |after| && 0 <= v < |after|
      ensures multiset(after[u].consumers)[v] == multiset(after[v].providers)[u]
    {
      if u == n {
        assert v < n ==> u !in nodes[v].providers;
      } else if v == n {
        assert v !in nodes[u].consumers;
      } else {
        assert after[u] == nodes[u] && after[v] == nodes[v];
      }
    }
  }

  /** Adding an edge between two nodes of a well-formed arena keeps it well
      formed: the edge is recorded once at each end. */
  lemma LinkKeeps(before: seq<OpNode>, after: seq<OpNode>, p: nat, c: nat)
    requires Linked(before, after, p, c) && p < |before| && c < |before|
    ensures Arena(before) ==> Arena(after)
    ensures Wired(before) ==> Wired(after)
    ensures Mirrored(before) ==> Mirrored(after)
  {
    if Wired(before) {
      forall v, k | 0 <= v < |after| && 0 <= k < |after[v].providers|
        ensures after[v].providers[k] < |after|
      {
        if k >= |before[v].providers| {
          assert after[v].providers[k] == p;
        }
      }
      forall v, k | 0 <= v < |after| && 0 <= k < |after[v].consumers|
        ensures after[v].consumers[k] < |after|
      {
        if k >= |before[v].consumers| {
          assert after[v].consumers[k] == c;
        }
      }
    }
    if Mirrored(before) {
      forall u, v | 0 <= u < |after| && 0 <= v < |after|
        ensures multiset(after[u].consumers)[v] == multiset(after[v].providers)[u]
      {
        assert multiset(after[u].consumers)[v]
               == multiset(before[u].consumers)[v] + (if u == p && v == c then 1 else 0);
        assert multiset(after[v].providers)[u]
               == multiset(before[v].providers)[u] + (if u == p && v == c then 1 else 0);
      }
    }
  }

  // ---------------------------------------------------------------------------
  // The traversal order

  /** A witness that the search terminates: below every node that is not a
      declared input, its providers have a strictly smaller rank. Such a rank
      exists exactly when no cycle passes through non-input nodes. */
  ghost predicate Ranked(nodes: seq<OpNode>, inputs: seq<nat>, rank: seq<nat>)
  {
    && |rank| == |nodes|
    && forall v, k ::
         (0 <= v < |nodes| && v !in inputs && 0 <= k < |nodes[v].providers| && nodes[v].providers[k] < |nodes|)
         ==> rank[nodes[v].providers[k]] < rank[v]
  }

  ghost predicate Acyclic(nodes: seq<OpNode>, inputs: seq<nat>)
  {
    exists rank :: Ranked(nodes, inputs, rank)
  }

  /** No id occurs twice. */
  predicate Distinct(order: seq<nat>)
  {
    forall i, j :: 0 <= i < j < |order| ==> order[i] != order[j]
  }

  /** Every node of `order` that is not a declared input comes after all its
      providers. */
  ghost predicate ProvidersFirst(nodes: seq<OpNode>, inputs: seq<nat>, order: seq<nat>)
  {
    forall i, k ::
      (0 <= i < |order| && order[i] < |nodes| && order[i] !in inputs && 0 <= k < |nodes[order[i]].providers|)
      ==> nodes[order[i]].providers[k] in order[..i]
  }

  /** `s` holds the providers of each of its nodes that is not a declared input. */
  ghost predicate Closed(nodes: seq<OpNode>, inputs: seq<nat>, s: set<nat>)
  {
    forall u, k ::
      (u in s && 0 <= u < |nodes| && u !in inputs && 0 <= k < |nodes[u].providers|)
      ==> nodes[u].providers[k] in s
  }

  /** `order` holds only what the search must reach: it lies inside every set
      that contains the outputs and is closed under providers of non-inputs. */
  ghost predicate OnlyReachable(nodes: seq<OpNode>, inputs: seq<nat>, outputs: seq<nat>, order: seq<nat>)
  {
    forall s ::
      (Closed(nodes, inputs, s) && forall j :: 0 <= j < |outputs| ==> outputs[j] in s)
      ==> forall i :: 0 <= i < |order| ==> order[i] in s
  }

  /** A stack frame: the node and the index of the next provider to look at. */
  datatype Frame = Frame(node: nat, next: nat)

  /** Why an emitted node was reached: it is an output target, or a provider
      of a non-input node emitted later (or still on the stack). */
  datatype Reason = Target | ProviderOf(consumer: nat)

  ghost predicate OnStack(stack: seq<Frame>, u: nat)
  {
    exists k :: 0 <= k < |stack| && stack[k].node == u
  }

  /** A frame names a node not yet emitted, and every provider before its
      index has been emitted. */
  ghost predicate FrameOk(nodes: seq<OpNode>, visited: set<nat>, f: Frame)
  {
    && f.node < |nodes| && f.node !in visited
    && f.next <= |nodes[f.node].providers|
    && forall q :: 0 <= q < f.next ==> nodes[f.node].providers[q] in visited
  }

  /** The frame below a frame for `u` is a non-input node that was looking at `u`. */
  ghost predicate Links(nodes: seq<OpNode>, inputs: seq<nat>, f: Frame, u: nat)
  {
    f.node < |nodes| && f.node !in inputs && f.next < |nodes[f.node].providers|
    && nodes[f.node].providers[f.next] == u
  }

  ghost predicate Justified(nodes: seq<OpNode>, inputs: seq<nat>, outputs: seq<nat>,
                      order: seq<nat>, why: seq<Reason>, stack: seq<Frame>, i: nat)
    requires i < |order| == |why|
  {
    match why[i]
    case Target => order[i] in outputs
    case ProviderOf(u) =>
      && u < |nodes| && u !in inputs && order[i] in nodes[u].providers
      && (u in order[i + 1..] || OnStack(stack, u))
  }

  /** What the search keeps true between two emissions. */
  ghost predicate Emitted(nodes: seq<OpNode>, inputs: seq<nat>, outputs: seq<nat>,
                    visited: set<nat>, order: seq<nat>, why: seq<Reason>, stack: seq<Frame>)
  {
    && (forall x :: x in visited <==> x in order)
    && Distinct(order)
    && (forall i :: 0 <= i < |order| ==> order[i] < |nodes|)
    && ProvidersFirst(nodes, inputs, order)
    && |why| == |order|
    && (forall i :: 0 <= i < |order| ==> Justified(nodes, inputs, outputs, order, why, stack, i))
  }

  /** The invariant of the inner loop that explores from `target`. */
  ghost predicate Searching(nodes: seq<OpNode>, inputs: seq<nat>, outputs: seq<nat>, rank: seq<nat>, target: nat,
                      visited: set<nat>, order: seq<nat>, why: seq<Reason>, stack: seq<Frame>)
  {
    && Wired(nodes) && Ranked(nodes, inputs, rank) && target in outputs
    && Emitted(nodes, inputs, outputs, visited, order, why, stack)
    && (forall k :: 0 <= k < |stack| ==> FrameOk(nodes, visited, stack[k]))
    && (forall k :: 0 <= k < |stack| - 1 ==> Links(nodes, inputs, stack[k], stack[k + 1].node))
    && (forall k, l :: 0 <= k < l < |stack| ==> rank[stack[l].node] < rank[stack[k].node])
    && (stack != [] ==> stack[0].node == target)
    && (stack == [] ==> target in visited)
  }

  /** The top frame is finished: an input, or all its providers emitted. The
      node is emitted and its frame dropped. */
  lemma EmitKeeps(nodes: seq<OpNode>, inputs: seq<nat>, outputs: seq<nat>, rank: seq<nat>, target: nat,
                  visited: set<nat>, order: seq<nat>, why: seq<Reason>, rest: seq<Frame>, f: Frame, reason: Reason)
    requires Searching(nodes, inputs, outputs, rank, target, visited, order, why, rest + [f])
    requires f.node < |nodes| && (f.node in inputs || f.next == |nodes[f.node].providers|)
    requires reason == if rest == [] then Target else ProviderOf(rest[|rest| - 1].node)
    ensures f.node !in visited
    ensures Searching(nodes, inputs, outputs, rank, target, visited + {f.node}, order + [f.node], why + [reason], rest)
  {
    var stack := rest + [f];
    assert forall k :: 0 <= k < |rest| ==> stack[k] == rest[k];
    assert stack[|rest|] == f;
    var v := f.node;
    var visited', order', why' := visited + {v}, order + [v], why + [reason];
    forall x ensures x in visited' <==> x in order' {
    }
    forall i, j | 0 <= i < j < |order'| ensures order'[i] != order'[j] {
      if j == |order| {
        assert order[i] in visited;
      }
    }
    forall i, k | 0 <= i < |order'| && order'[i] < |nodes| && order'[i] !in inputs
                  && 0 <= k < |nodes[order'[i]].providers|
      ensures nodes[order'[i]].providers[k] in order'[..i]
    {
      assert order'[..i] == if i < |order| then order[..i] else order;
      if i == |order| {
        assert nodes[v].providers[k] in visited;
      }
    }
    forall k | 0 <= k < |rest| ensures FrameOk(nodes, visited', rest[k]) {
      assert rank[v] < rank[rest[k].node];
    }
    forall i | 0 <= i < |order'| ensures Justified(nodes, inputs, outputs, order', why', rest, i) {
      if i < |order| {
        assert Justified(nodes, inputs, outputs, order, why, stack, i);
        assert order'[i + 1..] == order[i + 1..] + [v];
        match why[i]
        case Target =>
        case ProviderOf(u) =>
          if u !in order[i + 1..] && u != v {
            var k :| 0 <= k < |stack| && stack[k].node == u;
            assert k < |rest| && rest[k].node == u;
          }
      } else {
        if rest != [] {
          assert Links(nodes, inputs, stack[|rest| - 1], stack[|rest|].node);
          assert OnStack(rest, rest[|rest| - 1].node);
        }
      }
    }
  }

  /** The top frame's next provider is already emitted: move past it. */
  lemma AdvanceKeeps(nodes: seq<OpNode>, inputs: seq<nat>, outputs: seq<nat>, rank: seq<nat>, target: nat,
                     visited: set<nat>, order: seq<nat>, why: seq<Reason>, rest: seq<Frame>, f: Frame)
    requires Searching(nodes, inputs, outputs, rank, target, visited, order, why, rest + [f])
    requires f.node < |nodes| && f.node !in inputs && f.next < |nodes[f.node].providers|
    requires nodes[f.node].providers[f.next] in visited
    ensures Searching(nodes, inputs, outputs, rank, target, visited, order, why, rest + [Frame(f.node, f.next + 1)])
  {
    var stack := rest + [f];
    assert forall k :: 0 <= k < |rest| ==> stack[k] == rest[k];
    assert stack[|rest|] == f;
    var stack' := rest + [Frame(f.node, f.next + 1)];
    assert forall k :: 0 <= k < |stack| ==> stack'[k].node == stack[k].node;
    forall k | 0 <= k < |stack| - 1 ensures Links(nodes, inputs, stack'[k], stack'[k + 1].node) {
      assert stack'[k] == stack[k];
    }
    forall i | 0 <= i < |order| ensures Justified(nodes, inputs, outputs, order, why, stack', i) {
      assert Justified(nodes, inputs, outputs, order, why, stack, i);
      match why[i]
      case Target =>
      case ProviderOf(u) =>
        if OnStack(stack, u) {
          var k :| 0 <= k < |stack| && stack[k].node == u;
          assert stack'[k].node == u;
        }
    }
  }

  /** The top frame's next provider is not emitted yet: keep the frame and
      explore the provider from its first provider on. */
  lemma PushKeeps(nodes: seq<OpNode>, inputs: seq<nat>, outputs: seq<nat>, rank: seq<nat>, target: nat,
                  visited: set<nat>, order: seq<nat>, why: seq<Reason>, rest: seq<Frame>, f: Frame, p: nat)
    requires Searching(nodes, inputs, outputs, rank, target, visited, order, why, rest + [f])
    requires f.node < |nodes| && f.node !in inputs && f.next < |nodes[f.node].providers|
    requires p == nodes[f.node].providers[f.next] && p !in visited
    ensures p < |rank| && f.node < |rank| && rank[p] < rank[f.node]
    ensures Searching(nodes, inputs, outputs, rank, target, visited, order, why, rest + [f] + [Frame(p, 0)])
  {
    var stack := rest + [f];
    assert forall k :: 0 <= k < |rest| ==> stack[k] == rest[k];
    assert stack[|rest|] == f;
    var stack' := stack + [Frame(p, 0)];
    assert rank[p] < rank[f.node];
    forall k, l | 0 <= k < l < |stack'| ensures rank[stack'[l].node] < rank[stack'[k].node] {
      if l == |stack| && k < |stack| - 1 {
        assert rank[f.node] < rank[stack[k].node];
      }
    }
    forall i | 0 <= i < |order| ensures Justified(nodes, inputs, outputs, order, why, stack', i) {
      assert Justified(nodes, inputs, outputs, order, why, stack, i);
      match why[i]
      case Target =>
      case ProviderOf(u) =>
        if OnStack(stack, u) {
          var k :| 0 <= k < |stack| && stack[k].node == u;
          assert stack'[k].node == u;
        }
    }
  }

  /** All ids below `n`. */
  function Ids(n: nat): (s: set<nat>)
    ensures forall x: nat :: x in s <==> x < n
  {
    if n == 0 then {} else Ids(n - 1) + {n - 1}
  }

  lemma VisitShrinks(all: set<nat>, visited: set<nat>, v: nat)
    requires v in all && v !in visited
    ensures |all - (visited + {v})| < |all - visited|
  {
    assert all - visited == (all - (visited + {v})) + {v};
  }

  /** The inner `while let Some(..) = current_stack.pop()` loop, started from a
      target not yet visited: on return the target is emitted, what was emitted
      before is kept as a prefix, and the emitted nodes keep their invariant. */
  method Explore(nodes: seq<OpNode>, inputs: seq<nat>, outputs: seq<nat>, ghost rank: seq<nat>, target: nat,
                 visited0: set<nat>, order0: seq<nat>, ghost why0: seq<Reason>)
    returns (visited: set<nat>, order: seq<nat>, ghost why: seq<Reason>)
    requires Wired(nodes) && Ranked(nodes, inputs, rank)
    requires target in outputs && target < |nodes| && target !in visited0
    requires Emitted(nodes, inputs, outputs, visited0, order0, why0, [])
    ensures Emitted(nodes, inputs, outputs, visited, order, why, [])
    ensures target in visited
    ensures |order0| <= |order| && order[..|order0|] == order0
  {
    visited, order, why := visited0, order0, why0;
    var stack := [Frame(target, 0)];
    StartKeeps(nodes, inputs, outputs, rank, target, visited, order, why);
    while stack != []
      invariant Searching(nodes, inputs, outputs, rank, target, visited, order, why, stack)
      invariant |order0| <= |order| && order[..|order0|] == order0
      decreases |Ids(|nodes|) - visited|, TopRank(rank, stack), TopLeft(nodes, stack)
    {
      var rest, f := stack[..|stack| - 1], stack[|stack| - 1];
      SplitLast(stack);
      TopFrame(nodes, inputs, outputs, rank, target, visited, order, why, rest, f);
      if f.node in inputs || f.next == |nodes[f.node].providers| {
        PrefixGrows(order0, order, f.node);
        visited, order, why := EmitStep(nodes, inputs, outputs, rank, target, visited, order, why, rest, f);
        stack := rest;
      } else {
        var provider := nodes[f.node].providers[f.next];
        if provider in visited {
          stack := AdvanceStep(nodes, inputs, outputs, rank, target, visited, order, why, rest, f);
        } else {
          stack := PushStep(nodes, inputs, outputs, rank, target, visited, order, why, rest, f, provider);
        }
      }
    }
  }

  lemma SplitLast<T>(s: seq<T>)
    requires s != []
    ensures s == s[..|s| - 1] + [s[|s| - 1]]
  {
  }

  /** The measure of the search, in lexicographic order: nodes not yet
      emitted, the rank of the top frame's node, its providers left. */
  ghost predicate Progress(nodes: seq<OpNode>, rank: seq<nat>, visited: set<nat>, stack: seq<Frame>,
                           visited': set<nat>, stack': seq<Frame>)
  {
    var all := Ids(|nodes|);
    || |all - visited'| < |all - visited|
    || (|all - visited'| == |all - visited| && TopRank(rank, stack') < TopRank(rank, stack))
    || (|all - visited'| == |all - visited| && TopRank(rank, stack') == TopRank(rank, stack)
        && TopLeft(nodes, stack') < TopLeft(nodes, stack))
  }

  /** The popped frame is finished: emit its node. */
  method EmitStep(nodes: seq<OpNode>, inputs: seq<nat>, outputs: seq<nat>, ghost rank: seq<nat>, target: nat,
                  visited: set<nat>, order: seq<nat>, ghost why: seq<Reason>, rest: seq<Frame>, f: Frame)
    returns (visited': set<nat>, order': seq<nat>, ghost why': seq<Reason>)
    requires Searching(nodes, inputs, outputs, rank, target, visited, order, why, rest + [f])
    requires f.node < |nodes| && (f.node in inputs || f.next == |nodes[f.node].providers|)
    ensures Searching(nodes, inputs, outputs, rank, target, visited', order', why', rest)
    ensures order' == order + [f.node] && visited' == visited + {f.node}
    ensures Progress(nodes, rank, visited, rest + [f], visited', rest)
  {
    var reason := if rest == [] then Target else ProviderOf(rest[|rest| - 1].node);
    EmitKeeps(nodes, inputs, outputs, rank, target, visited, order, why, rest, f, reason);
    VisitShrinks(Ids(|nodes|), visited, f.node);
    order' := order + [f.node];
    visited' := visited + {f.node};
    why' := why + [reason];
  }

  /** The popped frame's next provider is emitted: look at the one after it. */
  method AdvanceStep(nodes: seq<OpNode>, inputs: seq<nat>, outputs: seq<nat>, ghost rank: seq<nat>, target: nat,
                     visited: set<nat>, order: seq<nat>, ghost why: seq<Reason>, rest: seq<Frame>, f: Frame)
    returns (stack': seq<Frame>)
    requires Searching(nodes, inputs, outputs, rank, target, visited, order, why, rest + [f])
    requires f.node < |nodes| && f.node !in inputs && f.next < |nodes[f.node].providers|
    requires nodes[f.node].providers[f.next] in visited
    ensures Searching(nodes, inputs, outputs, rank, target, visited, order, why, stack')
    ensures stack' == rest + [Frame(f.node, f.next + 1)]
    ensures Progress(nodes, rank, visited, rest + [f], visited, stack')
  {
    AdvanceKeeps(nodes, inputs, outputs, rank, target, visited, order, why, rest, f);
    AdvanceMeasure(nodes, rank, rest, f);
    stack' := rest + [Frame(f.node, f.next + 1)];
  }

  /** The popped frame's next provider is not emitted: put the frame back and
      push a frame for the provider. */
  method PushStep(nodes: seq<OpNode>, inputs: seq<nat>, outputs: seq<nat>, ghost rank: seq<nat>, target: nat,
                  visited: set<nat>, order: seq<nat>, ghost why: seq<Reason>, rest: seq<Frame>, f: Frame, provider: nat)
    returns (stack': seq<Frame>)
    requires Searching(nodes, inputs, outputs, rank, target, visited, order, why, rest + [f])
    requires f.node < |nodes| && f.node !in inputs && f.next < |nodes[f.node].providers|
    requires provider == nodes[f.node].providers[f.next] && provider !in visited
    ensures Searching(nodes, inputs, outputs, rank, target, visited, order, why, stack')
    ensures stack' == rest + [f] + [Frame(provider, 0)]
    ensures Progress(nodes, rank, visited, rest + [f], visited, stack')
  {
    PushKeeps(nodes, inputs, outputs, rank, target, visited, order, why, rest, f, provider);
    PushMeasure(rank, rest, f, provider);
    stack' := rest + [f] + [Frame(provider, 0)];
  }

  lemma PrefixGrows(prefix: seq<nat>, order: seq<nat>, v: nat)
    requires |prefix| <= |order| && order[..|prefix|] == prefix
    ensures (order + [v])[..|prefix|] == prefix
  {
    assert (order + [v])[..|prefix|] == order[..|prefix|];
  }

  lemma AdvanceMeasure(nodes: seq<OpNode>, rank: seq<nat>, rest: seq<Frame>, f: Frame)
    requires f.node < |nodes| && f.next < |nodes[f.node].providers|
    ensures TopRank(rank, rest + [Frame(f.node, f.next + 1)]) == TopRank(rank, rest + [f])
    ensures TopLeft(nodes, rest + [Frame(f.node, f.next + 1)]) < TopLeft(nodes, rest + [f])
  {
  }

  lemma PushMeasure(rank: seq<nat>, rest: seq<Frame>, f: Frame, p: nat)
    requires p < |rank| && f.node < |rank| && rank[p] < rank[f.node]
    ensures TopRank(rank, rest + [f] + [Frame(p, 0)]) < TopRank(rank, rest + [f])
  {
  }

  /** The rank of the top frame's node, and how many providers it has left. */
  function TopRank(rank: seq<nat>, stack: seq<Frame>): nat
  {
    if stack == [] || stack[|stack| - 1].node >= |rank| then 0 else rank[stack[|stack| - 1].node]
  }

  function TopLeft(nodes: seq<OpNode>, stack: seq<Frame>): nat
  {
    if stack == [] || stack[|stack| - 1].node >= |nodes| then 0
    else var f := stack[|stack| - 1];
      if f.next <= |nodes[f.node].providers| then |nodes[f.node].providers| - f.next else 0
  }

  lemma TopFrame(nodes: seq<OpNode>, inputs: seq<nat>, outputs: seq<nat>, rank: seq<nat>, target: nat,
                 visited: set<nat>, order: seq<nat>, why: seq<Reason>, rest: seq<Frame>, f: Frame)
    requires Searching(nodes, inputs, outputs, rank, target, visited, order, why, rest + [f])
    ensures f.node < |nodes| == |rank| && f.next <= |nodes[f.node].providers|
  {
    assert FrameOk(nodes, visited, (rest + [f])[|rest|]);
  }

  /** The stack holding only the target frame starts the search. */
  lemma StartKeeps(nodes: seq<OpNode>, inputs: seq<nat>, outputs: seq<nat>, rank: seq<nat>, target: nat,
                   visited: set<nat>, order: seq<nat>, why: seq<Reason>)
    requires Wired(nodes) && Ranked(nodes, inputs, rank)
    requires target in outputs && target < |nodes| && target !in visited
    requires Emitted(nodes, inputs, outputs, visited, order, why, [])
    ensures Searching(nodes, inputs, outputs, rank, target, visited, order, why, [Frame(target, 0)])
  {
    forall i | 0 <= i < |order| ensures Justified(nodes, inputs, outputs, order, why, [Frame(target, 0)], i) {
      assert Justified(nodes, inputs, outputs, order, why, [], i);
    }
  }

  /** Every node a justified order holds lies in any set that contains the
      outputs and is closed under providers of non-inputs. */
  lemma {:induction false} JustifiedInClosed(nodes: seq<OpNode>, inputs: seq<nat>, outputs: seq<nat>,
                                             order: seq<nat>, why: seq<Reason>, s: set<nat>, i: nat)
    requires |why| == |order| && i < |order|
    requires forall i :: 0 <= i < |order| ==> Justified(nodes, inputs, outputs, order, why, [], i)
    requires Closed(nodes, inputs, s) && forall j :: 0 <= j < |outputs| ==> outputs[j] in s
    ensures order[i] in s
    decreases |order| - i
  {
    assert Justified(nodes, inputs, outputs, order, why, [], i);
    match why[i]
    case Target =>
    case ProviderOf(u) =>
      assert !OnStack([], u);
      var j :| i + 1 <= j < |order| && order[j] == u;
      JustifiedInClosed(nodes, inputs, outputs, order, why, s, j);
      var k :| 0 <= k < |nodes[u].providers| && nodes[u].providers[k] == order[i];
  }

  /** The search over every output target: all outputs emitted, each node once,
      providers before the non-input nodes that read them, and nothing that is
      not reachable from an output through providers of non-inputs. */
  method TraversalOrder(nodes: seq<OpNode>, inputs: seq<nat>, outputs: seq<nat>) returns (order: seq<nat>)
    requires Wired(nodes) && Acyclic(nodes, inputs)
    requires forall j :: 0 <= j < |outputs| ==> outputs[j] < |nodes|
    ensures Distinct(order)
    ensures forall i :: 0 <= i < |order| ==> order[i] < |nodes|
    ensures forall j :: 0 <= j < |outputs| ==> outputs[j] in order
    ensures ProvidersFirst(nodes, inputs, order)
    ensures OnlyReachable(nodes, inputs, outputs, order)
  {
    ghost var rank :| Ranked(nodes, inputs, rank);
    var visited: set<nat> := {};
    order := [];
    ghost var why: seq<Reason> := [];
    for j := 0 to |outputs|
      invariant Emitted(nodes, inputs, outputs, visited, order, why, [])
      invariant forall q :: 0 <= q < j ==> outputs[q] in visited
    {
      var target := outputs[j];
      if target in visited {
        continue;
      }
      ghost var before := order;
      visited, order, why := Explore(nodes, inputs, outputs, rank, target, visited, order, why);
      forall q | 0 <= q < j ensures outputs[q] in visited {
        assert outputs[q] in before;
        var i :| 0 <= i < |before| && before[i] == outputs[q];
        assert order[i] == outputs[q];
      }
    }
    forall s | Closed(nodes, inputs, s) && (forall j :: 0 <= j < |outputs| ==> outputs[j] in s)
      ensures forall i :: 0 <= i < |order| ==> order[i] in s
    {
      forall i | 0 <= i < |order| ensures order[i] in s {
        JustifiedInClosed(nodes, inputs, outputs, order, why, s, i);
      }
    }
  }

  /** Providers-first makes the emitted set closed: together with the covered
      outputs and `OnlyReachable`, the order holds exactly the nodes reachable
      from the outputs, with exploration stopping at declared inputs. */
  lemma ProvidersFirstCloses(nodes: seq<OpNode>, inputs: seq<nat>, order: seq<nat>)
    requires ProvidersFirst(nodes, inputs, order)
    ensures Closed(nodes, inputs, set x | x in order)
  {
    forall u, k | u in (set x | x in order) && 0 <= u < |nodes| && u !in inputs && 0 <= k < |nodes[u].providers|
      ensures nodes[u].providers[k] in (set x | x in order)
    {
      var i :| 0 <= i < |order| && order[i] == u;
      assert nodes[u].providers[k] in order[..i];
    }
  }
}
