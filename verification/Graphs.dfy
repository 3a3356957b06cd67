/** Walks over a finite relation: the shared vocabulary of the graph transforms and the layouts. */
module Graphs {
  type Id = string

  /** Pairs (node, dependency): the node lists the dependency under `after`. */
  type Graph = set<(Id, Id)>

  datatype Link = Link(id: Id, after: seq<Id>)

  /** The relation of a node list, whatever ids repeat or dangle in it. */
  function Edges(links: seq<Link>): Graph {
    set i, j | 0 <= i < |links| && 0 <= j < |links[i].after| :: (links[i].id, links[i].after[j])
  }

  lemma EdgeOf(links: seq<Link>, k: nat, a: Id)
    requires k < |links| && a in links[k].after
    ensures (links[k].id, a) in Edges(links)
  {
    var j :| 0 <= j < |links[k].after| && links[k].after[j] == a;
    assert (links[k].id, links[k].after[j]) in Edges(links);
  }

  lemma LinkOf(links: seq<Link>, e: (Id, Id)) returns (k: nat)
    requires e in Edges(links)
    ensures k < |links| && links[k].id == e.0 && e.1 in links[k].after
  {
    var i, j :| 0 <= i < |links| && 0 <= j < |links[i].after| && e == (links[i].id, links[i].after[j]);
    k := i;
  }

  /** A walk along dependencies, from a node towards its ancestors. */
  predicate Path(g: Graph, p: seq<Id>) {
    |p| > 0 && forall i :: 0 < i < |p| ==> Hop(g, p, i)
  }

  predicate Hop(g: Graph, p: seq<Id>, i: int)
    requires 0 < i < |p|
  {
    (p[i - 1], p[i]) in g
  }

  ghost predicate Between(g: Graph, p: seq<Id>, x: Id, y: Id) {
    Path(g, p) && p[0] == x && p[|p| - 1] == y
  }

  /** `y` is `x` or a transitive ancestor of it. */
  ghost predicate Reaches(g: Graph, x: Id, y: Id) {
    exists p :: Between(g, p, x, y)
  }

  ghost predicate Acyclic(g: Graph) {
    forall p, x :: Between(g, p, x, x) ==> |p| == 1
  }

  /** A set is closed under dependencies. */
  ghost predicate Closed(g: Graph, s: iset<Id>) {
    forall e :: e in g && e.0 in s ==> e.1 in s
  }

  /** A walk is a first step and a walk. */
  lemma Extends(g: Graph, p: seq<Id>)
    requires |p| > 1
    ensures Path(g, p) <==> (p[0], p[1]) in g && Path(g, p[1..])
  {
    var q := p[1..];
    if Path(g, p) {
      assert Hop(g, p, 1);
      forall i | 0 < i < |q| ensures Hop(g, q, i) { assert Hop(g, p, i + 1); }
    }
    if (p[0], p[1]) in g && Path(g, q) {
      forall i | 0 < i < |p| ensures Hop(g, p, i) {
        if i > 1 { assert Hop(g, q, i - 1); }
      }
    }
  }

  lemma Here(g: Graph, x: Id)
    ensures Reaches(g, x, x)
  {
    assert Between(g, [x], x, x);
  }

  lemma Further(g: Graph, x: Id, a: Id, y: Id)
    requires (x, a) in g && Reaches(g, a, y)
    ensures Reaches(g, x, y)
  {
    var p :| Between(g, p, a, y);
    Extends(g, [x] + p);
    assert ([x] + p)[1..] == p;
    assert Between(g, [x] + p, x, y);
  }

  /** A walk out of a closed set does not exist. */
  lemma {:induction false} StaysInside(g: Graph, s: iset<Id>, p: seq<Id>)
    requires Closed(g, s) && Path(g, p) && p[0] in s
    ensures forall i :: 0 <= i < |p| ==> p[i] in s
    decreases |p|
  {
    if |p| > 1 {
      Extends(g, p);
      assert (p[0], p[1]) in g;
      StaysInside(g, s, p[1..]);
      assert forall i :: 1 <= i < |p| ==> p[i] == p[1..][i - 1];
    }
  }

  lemma Joined(g: Graph, p: seq<Id>, q: seq<Id>)
    requires Path(g, p) && Path(g, q) && p[|p| - 1] == q[0]
    ensures Between(g, p + q[1..], p[0], q[|q| - 1])
  {
    var r := p + q[1..];
    forall i | 0 < i < |r| ensures Hop(g, r, i) {
      if i < |p| {
        assert Hop(g, p, i);
      } else {
        assert r[i] == q[i - |p| + 1] && r[i - 1] == q[i - |p|];
        assert Hop(g, q, i - |p| + 1);
      }
    }
  }

  lemma Sliced(g: Graph, p: seq<Id>, i: nat, j: nat)
    requires Path(g, p) && i < j <= |p|
    ensures Path(g, p[i..j])
  {
    forall k | 0 < k < |p[i..j]| ensures Hop(g, p[i..j], k) { assert Hop(g, p, i + k); }
  }

  lemma Transitive(g: Graph, x: Id, y: Id, z: Id)
    requires Reaches(g, x, y) && Reaches(g, y, z)
    ensures Reaches(g, x, z)
  {
    var p :| Between(g, p, x, y);
    var q :| Between(g, q, y, z);
    Joined(g, p, q);
  }

  predicate Simple(p: seq<Id>) { forall i, j :: 0 <= i < j < |p| ==> p[i] != p[j] }

  /** Cutting its loops leaves a walk between the same ends that repeats no node. */
  lemma {:induction false} SimpleBetween(g: Graph, p: seq<Id>, x: Id, y: Id) returns (q: seq<Id>)
    requires Between(g, p, x, y)
    ensures Between(g, q, x, y) && Simple(q)
    decreases |p|
  {
    if Simple(p) {
      q := p;
    } else {
      var i, j :| 0 <= i < j < |p| && p[i] == p[j];
      Sliced(g, p, 0, i + 1);
      Sliced(g, p, j, |p|);
      assert p[..i + 1] == p[0..i + 1] && p[j..] == p[j..|p|];
      Joined(g, p[..i + 1], p[j..]);
      q := SimpleBetween(g, p[..i + 1] + p[j..][1..], x, y);
    }
  }
}
