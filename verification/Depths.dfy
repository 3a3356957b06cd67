/** Depth of a node: the length of the longest walk along dependencies that starts there. */
module Depths {
  import opened Graphs

  /** Dependencies by id; of two nodes with one id the later wins. */
  function ById(nodes: seq<Link>): (m: map<Id, seq<Id>>)
    ensures forall x :: x in m <==> exists i :: 0 <= i < |nodes| && nodes[i].id == x
  {
    if nodes == [] then map[]
    else
      var last := |nodes| - 1;
      var m := ById(nodes[..last]);
      assert nodes == nodes[..last] + [nodes[last]];
      m[nodes[last].id := nodes[last].after]
  }

  predicate Known(byid: map<Id, seq<Id>>) {
    forall x :: x in byid ==> forall a :: a in byid[x] ==> a in byid
  }

  function After(byid: map<Id, seq<Id>>): Graph {
    set x, a | x in byid && a in byid[x] :: (x, a)
  }

  ghost predicate From(g: Graph, p: seq<Id>, x: Id) { Path(g, p) && p[0] == x }

  ghost predicate Attains(g: Graph, x: Id, v: nat) {
    exists p :: From(g, p, x) && |p| == v + 1
  }

  ghost predicate IsDepth(g: Graph, x: Id, v: nat) {
    Attains(g, x, v) && forall p :: From(g, p, x) ==> |p| <= v + 1
  }

  /** A proper walk: from `x` up to `y` in one step or more. */
  ghost predicate Above(g: Graph, x: Id, y: Id) {
    exists p :: Between(g, p, x, y) && |p| > 1
  }

  lemma DepthIsUnique(g: Graph, x: Id, v: nat, w: nat)
    requires IsDepth(g, x, v) && IsDepth(g, x, w)
    ensures v == w
  {
  }

  lemma AttainsHere(g: Graph, x: Id)
    ensures Attains(g, x, 0)
  {
    assert From(g, [x], x);
  }

  lemma AttainsMore(g: Graph, x: Id, a: Id, v: nat)
    requires (x, a) in g && Attains(g, a, v)
    ensures Attains(g, x, v + 1)
  {
    var p :| From(g, p, a) && |p| == v + 1;
    Longer(g, p, x);
  }

  lemma Tail(g: Graph, p: seq<Id>)
    requires Path(g, p) && |p| > 1
    ensures (p[0], p[1]) in g && From(g, p[1..], p[1])
  {
    Extends(g, p);
  }

  lemma Longer(g: Graph, p: seq<Id>, x: Id)
    requires Path(g, p) && (x, p[0]) in g
    ensures From(g, [x] + p, x)
  {
    Extends(g, [x] + p);
    assert ([x] + p)[1..] == p;
  }

  /** Every dependency's depth is known and below `v`, and one is just below: then `v` is the depth. */
  lemma DepthFromDependencies(g: Graph, x: Id, v: nat, depth: map<Id, nat>)
    requires forall a :: (x, a) in g ==> a in depth && IsDepth(g, a, depth[a]) && depth[a] < v
    requires v == 0 || exists a :: (x, a) in g && depth[a] == v - 1
    ensures IsDepth(g, x, v)
  {
    if v == 0 {
      AttainsHere(g, x);
    } else {
      var a :| (x, a) in g && depth[a] == v - 1;
      AttainsMore(g, x, a, v - 1);
    }
    forall p | From(g, p, x) ensures |p| <= v + 1 {
      if |p| > 1 { Tail(g, p); }
    }
  }

  /** Depth falls along a dependency. */
  lemma DepthFalls(g: Graph, x: Id, a: Id, v: nat, w: nat)
    requires (x, a) in g && IsDepth(g, x, v) && IsDepth(g, a, w)
    ensures w < v
  {
    AttainsMore(g, x, a, w);
    var p :| From(g, p, x) && |p| == w + 2;
  }

  lemma {:induction false} DepthFallsAlong(g: Graph, p: seq<Id>, depth: map<Id, nat>)
    requires Path(g, p)
    requires forall i :: 0 <= i < |p| ==> p[i] in depth && IsDepth(g, p[i], depth[p[i]])
    ensures depth[p[|p| - 1]] + |p| - 1 <= depth[p[0]]
    decreases |p|
  {
    if |p| > 1 {
      Tail(g, p);
      DepthFalls(g, p[0], p[1], depth[p[0]], depth[p[1]]);
      assert forall i :: 0 <= i < |p[1..]| ==> p[1..][i] == p[i + 1];
      DepthFallsAlong(g, p[1..], depth);
    }
  }

  /** Where every node has a depth there is no cycle. */
  lemma DepthsMeanAcyclic(byid: map<Id, seq<Id>>, depth: map<Id, nat>)
    requires Known(byid) && forall x :: x in byid ==> x in depth && IsDepth(After(byid), x, depth[x])
    ensures Acyclic(After(byid))
  {
    var g := After(byid);
    forall p, x | Between(g, p, x, x) ensures |p| == 1 {
      if |p| > 1 {
        forall i | 0 <= i < |p| ensures p[i] in byid {
          assert if i > 0 then Hop(g, p, i) else Hop(g, p, 1);
        }
        DepthFallsAlong(g, p, depth);
      }
    }
  }

  /** A positive depth comes from a dependency one below. */
  lemma DepthHasStep(g: Graph, x: Id, v: nat)
    requires IsDepth(g, x, v) && v > 0
    ensures exists a :: (x, a) in g && IsDepth(g, a, v - 1)
  {
    var p :| From(g, p, x) && |p| == v + 1;
    Tail(g, p);
    forall q | From(g, q, p[1]) ensures |q| <= v {
      Longer(g, q, x);
    }
    assert IsDepth(g, p[1], v - 1);
  }
}
