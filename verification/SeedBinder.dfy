/**
 Binding a seed text at launch: it is appended to the context of every first-wave agent, the
 agents no other agent stands above.
*/
module SeedBinder {
  import opened Wrappers
  import opened Graphs
  import opened Finite

  datatype Node = Node(id: Id, agent: bool, after: seq<Id>, context: string)

  function ById(nodes: seq<Node>): (m: map<Id, Node>)
    ensures forall x :: x in m <==> exists i :: 0 <= i < |nodes| && nodes[i].id == x
    ensures forall x :: x in m ==> m[x] in nodes && m[x].id == x
  {
    if nodes == [] then map[]
    else
      var last := |nodes| - 1;
      var m := ById(nodes[..last]);
      assert nodes == nodes[..last] + [nodes[last]];
      m[nodes[last].id := nodes[last]]
  }

  /** Of nodes that share an id the last one counts. */
  lemma {:induction false} LastOfIdCounts(nodes: seq<Node>, i: nat)
    requires i < |nodes| && forall j :: i < j < |nodes| ==> nodes[j].id != nodes[i].id
    ensures nodes[i].id in ById(nodes) && ById(nodes)[nodes[i].id] == nodes[i]
  {
    if i < |nodes| - 1 { LastOfIdCounts(nodes[..|nodes| - 1], i); }
  }

  /** Every dependency names a node: the validator refuses other graphs before this one runs. */
  predicate Known(byid: map<Id, Node>) {
    forall x :: x in byid ==> forall a :: a in byid[x].after ==> a in byid
  }

  function After(byid: map<Id, Node>): Graph {
    set x, a | x in byid && a in byid[x].after :: (x, a)
  }

  /** The recursion: `seen` is the walk's own nodes, not a shared visited set. */
  predicate AgentAncestor(byid: map<Id, Node>, x: Id, seen: set<Id>)
    requires Known(byid) && x in byid
    decreases byid.Keys - seen
  {
    AnyAgentAbove(byid, byid[x].after, seen)
  }

  /** The loop over one node's parents. */
  predicate AnyAgentAbove(byid: map<Id, Node>, parents: seq<Id>, seen: set<Id>)
    requires Known(byid) && forall a :: a in parents ==> a in byid
    decreases byid.Keys - seen, |parents|
  {
    if parents == [] then false
    else if parents[0] in seen then AnyAgentAbove(byid, parents[1..], seen)
    else byid[parents[0]].agent || AgentAncestor(byid, parents[0], seen + {parents[0]})
         || AnyAgentAbove(byid, parents[1..], seen)
  }

  // ---------------------------------------------------------------- what the recursion decides --

  /** Some agent other than `x` is a transitive ancestor of it. */
  ghost predicate OtherAgentAbove(byid: map<Id, Node>, x: Id) {
    exists y :: y in byid && y != x && byid[y].agent && Reaches(After(byid), x, y)
  }

  predicate Opens(byid: map<Id, Node>, a: Id, seen: set<Id>)
    requires Known(byid) && a in byid
    decreases byid.Keys - seen, 0
  {
    a !in seen && (byid[a].agent || AgentAncestor(byid, a, seen + {a}))
  }

  lemma {:induction false} AnyIsSome(byid: map<Id, Node>, parents: seq<Id>, seen: set<Id>)
    requires Known(byid) && forall a :: a in parents ==> a in byid
    ensures AnyAgentAbove(byid, parents, seen) <==> exists a :: a in parents && Opens(byid, a, seen)
    decreases |parents|
  {
    if parents != [] {
      AnyIsSome(byid, parents[1..], seen);
      assert AnyAgentAbove(byid, parents, seen) <==>
             Opens(byid, parents[0], seen) || AnyAgentAbove(byid, parents[1..], seen);
      assert forall a :: a in parents <==> a == parents[0] || a in parents[1..];
    }
  }

  lemma {:induction false} FindsOnlyAgents(byid: map<Id, Node>, x: Id, seen: set<Id>)
    requires Known(byid) && x in byid && AgentAncestor(byid, x, seen)
    ensures exists y :: y in byid && y !in seen && byid[y].agent && Reaches(After(byid), x, y)
    decreases byid.Keys - seen
  {
    AnyIsSome(byid, byid[x].after, seen);
    var a :| a in byid[x].after && Opens(byid, a, seen);
    var g := After(byid);
    Here(g, a);
    Further(g, x, a, a);
    if !byid[a].agent {
      FindsOnlyAgents(byid, a, seen + {a});
      var y :| y in byid && y !in seen + {a} && byid[y].agent && Reaches(g, a, y);
      Further(g, x, a, y);
    }
  }

  /** A loop-free walk to an agent that avoids `seen` is found. */
  lemma {:induction false} FindsSimpleWalks(byid: map<Id, Node>, p: seq<Id>, seen: set<Id>)
    requires Known(byid) && Path(After(byid), p) && Simple(p) && |p| > 1
    requires forall i :: 0 < i < |p| ==> p[i] !in seen
    requires p[0] in byid && p[|p| - 1] in byid && byid[p[|p| - 1]].agent
    ensures AgentAncestor(byid, p[0], seen)
    decreases |p|
  {
    var a := p[1];
    Extends(After(byid), p);
    assert (p[0], p[1]) in After(byid);
    assert a in byid[p[0]].after;
    if |p| > 2 {
      var q := p[1..];
      forall i | 0 < i < |q| ensures q[i] !in seen + {a} { assert q[i] == p[i + 1]; }
      FindsSimpleWalks(byid, q, seen + {a});
    }
    assert Opens(byid, a, seen);
    AnyIsSome(byid, byid[p[0]].after, seen);
  }

  /** The recursion decides exactly whether another agent stands above, on cyclic graphs too. */
  lemma DecidesOtherAgentAbove(byid: map<Id, Node>, x: Id)
    requires Known(byid) && x in byid
    ensures AgentAncestor(byid, x, {x}) <==> OtherAgentAbove(byid, x)
  {
    if AgentAncestor(byid, x, {x}) { FindsOnlyAgents(byid, x, {x}); }
    if OtherAgentAbove(byid, x) {
      var y :| y in byid && y != x && byid[y].agent && Reaches(After(byid), x, y);
      var p :| Between(After(byid), p, x, y);
      var q := SimpleBetween(After(byid), p, x, y);
      FindsSimpleWalks(byid, q, {x});
    }
  }

  // ---------------------------------------------------------------- the binder --

  ghost predicate FirstWave(byid: map<Id, Node>, n: Node) { n.agent && !OtherAgentAbove(byid, n.id) }

  function Seeded(n: Node, seed: string): Node {
    n.(context := (if n.context == "" then "" else n.context + "\n\n") + seed)
  }

  /** `m` is `n` with the seed at the end of its context, after its own context and a blank line. */
  predicate CarriesSeed(n: Node, m: Node, seed: string) {
    && m.id == n.id && m.after == n.after && m.agent == n.agent
    && n.context <= m.context && |seed| <= |m.context| && m.context[|m.context| - |seed|..] == seed
    && (if n.context == "" then |m.context| == |seed|
        else |m.context| == |n.context| + 2 + |seed|
             && m.context[|n.context|] == '\n' && m.context[|n.context| + 1] == '\n')
  }

  lemma {:induction false} SeededCarriesSeed(n: Node, seed: string)
    ensures CarriesSeed(n, Seeded(n, seed), seed)
  {
    var own := if n.context == "" then "" else n.context + "\n\n";
    assert (own + seed)[|own|..] == seed;
  }

  /** The code's own test of a node. */
  predicate Root(byid: map<Id, Node>, n: Node)
    requires Known(byid) && n.id in byid
  {
    n.agent && !AgentAncestor(byid, n.id, {n.id})
  }

  lemma RootsAreFirstWave(byid: map<Id, Node>, nodes: seq<Node>)
    requires Known(byid) && forall i :: 0 <= i < |nodes| ==> nodes[i].id in byid
    ensures forall i :: 0 <= i < |nodes| ==> (Root(byid, nodes[i]) <==> FirstWave(byid, nodes[i]))
  {
    forall i | 0 <= i < |nodes| ensures Root(byid, nodes[i]) <==> FirstWave(byid, nodes[i]) {
      DecidesOtherAgentAbove(byid, nodes[i].id);
    }
  }

  method Append(byid: map<Id, Node>, nodes: seq<Node>, seed: string) returns (bound: seq<Node>, roots: nat)
    requires Known(byid) && forall i :: 0 <= i < |nodes| ==> nodes[i].id in byid
    ensures roots == 0 <==> forall i :: 0 <= i < |nodes| ==> !Root(byid, nodes[i])
    ensures |bound| == |nodes|
    ensures forall i :: 0 <= i < |nodes| ==>
              bound[i] == if Root(byid, nodes[i]) then Seeded(nodes[i], seed) else nodes[i]
  {
    bound, roots := [], 0;
    for k := 0 to |nodes|
      invariant |bound| == k
      invariant roots == 0 <==> forall i :: 0 <= i < k ==> !Root(byid, nodes[i])
      invariant forall i :: 0 <= i < k ==> bound[i] == if Root(byid, nodes[i]) then Seeded(nodes[i], seed) else nodes[i]
    {
      var n := nodes[k];
      if Root(byid, n) {
        n := Seeded(n, seed);
        roots := roots + 1;
      }
      bound := bound + [n];
    }
  }

  method BindSeed(nodes: seq<Node>, seed: string) returns (result: Option<seq<Node>>)
    requires Known(ById(nodes))
    ensures result.None? <==> forall i :: 0 <= i < |nodes| ==> !FirstWave(ById(nodes), nodes[i])
    ensures result.Some? ==>
              && |result.value| == |nodes|
              && forall i :: 0 <= i < |nodes| ==>
                    if FirstWave(ById(nodes), nodes[i]) then CarriesSeed(nodes[i], result.value[i], seed)
                    else result.value[i] == nodes[i]
  {
    forall i | 0 <= i < |nodes| ensures CarriesSeed(nodes[i], Seeded(nodes[i], seed), seed) {
      SeededCarriesSeed(nodes[i], seed);
    }
    var byid := ById(nodes);
    var bound, roots := Append(byid, nodes, seed);
    RootsAreFirstWave(byid, nodes);
    result := if roots == 0 then None else Some(bound);
  }

  // ---------------------------------------------------------------- when it refuses --

  ghost function Above(byid: map<Id, Node>, x: Id): set<Id> {
    set y | y in byid && Reaches(After(byid), x, y)
  }

  /** Climbing from any agent of an acyclic graph ends at one no other agent stands above. */
  lemma {:induction false} TopAgent(byid: map<Id, Node>, x: Id) returns (t: Id)
    requires Acyclic(After(byid)) && x in byid && byid[x].agent
    ensures t in byid && byid[t].agent && !OtherAgentAbove(byid, t)
    decreases |Above(byid, x)|
  {
    var g := After(byid);
    if OtherAgentAbove(byid, x) {
      var y :| y in byid && y != x && byid[y].agent && Reaches(g, x, y);
      NoWayBack(g, x, y);
      forall z | z in Above(byid, y) ensures z in Above(byid, x) { Transitive(g, x, y, z); }
      Here(g, x);
      assert x in Above(byid, x) && x !in Above(byid, y);
      StrictSubsetSize(Above(byid, y), Above(byid, x));
      t := TopAgent(byid, y);
    } else {
      t := x;
    }
  }

  lemma NoWayBack(g: Graph, x: Id, y: Id)
    requires Acyclic(g) && x != y && Reaches(g, x, y)
    ensures !Reaches(g, y, x)
  {
    if Reaches(g, y, x) {
      var p :| Between(g, p, x, y);
      var q :| Between(g, q, y, x);
      Joined(g, p, q);
    }
  }

  predicate UniqueIds(nodes: seq<Node>) { forall i, j :: 0 <= i < j < |nodes| ==> nodes[i].id != nodes[j].id }

  /** On an acyclic graph the seed is refused exactly when there is no agent at all. */
  lemma RefusedOnlyWithoutAgents(nodes: seq<Node>)
    requires UniqueIds(nodes) && Acyclic(After(ById(nodes)))
    ensures (forall i :: 0 <= i < |nodes| ==> !FirstWave(ById(nodes), nodes[i]))
            <==> (forall i :: 0 <= i < |nodes| ==> !nodes[i].agent)
  {
    var byid := ById(nodes);
    if i :| 0 <= i < |nodes| && nodes[i].agent {
      assert byid[nodes[i].id] == nodes[i];
      var t := TopAgent(byid, nodes[i].id);
      var k :| 0 <= k < |nodes| && nodes[k] == byid[t];
      assert FirstWave(byid, nodes[k]);
    }
  }
}
