/**
 Which committed nodes an amend keeps verbatim: a local test of every proposed node, then a
 loop that drops nodes until the set is closed under `after`.

 A definition is split the way the test reads it: the route keys, and everything else that is
 not a budget or policy key (`rest`).  Absent and null keys are both None.
*/
module ReplayFreeze {
  import opened Wrappers
  import opened Graphs

  type Rest(==, !new)

  datatype Def = Def(
    id: Option<Id>, after: seq<Id>, rest: Rest, model: Option<string>, tier: Option<string>, provider: Option<string>)

  datatype Status = Done | Partial | Skipped | Failed | Running | Pending | Held

  /** The record's status at the committed definition. */
  type Records = Def -> Status

  predicate Set(s: Option<string>) { s.Some? && s.value != "" }

  /** Committed definitions by id; of two with one id the later wins. */
  function Committed(was: seq<Def>): (ob: map<Id, Def>)
    ensures forall x :: x in ob ==> ob[x].id == Some(x) && ob[x] in was
  {
    if was == [] then map[]
    else
      var c := was[|was| - 1];
      var ob := Committed(was[..|was| - 1]);
      if Set(c.id) then ob[c.id.value := c] else ob
  }

  predicate SameRoute(n: Def, c: Def) {
    || (n.model == c.model && n.tier == c.tier && n.provider == c.provider)
    || (Set(c.tier) && n.model == c.tier && (n.provider == None || n.provider == c.provider))
    || (!Set(n.provider) && !Set(c.tier) && Set(c.provider)
        && n.model == Some(c.provider.value + "/" + (if c.model.Some? then c.model.value else "None")))
  }

  predicate Replayable(s: Status) { s in {Done, Partial, Skipped} }

  /** One proposed definition passes the local test. */
  predicate Passes(ob: map<Id, Def>, rec: Records, n: Def) {
    && n.id.Some? && n.id.value in ob
    && var c := ob[n.id.value];
    && n.rest == c.rest && n.after == c.after && SameRoute(n, c) && Replayable(rec(c))
  }

  function Links(nodes: seq<Def>): (links: seq<Link>) {
    if nodes == [] then []
    else if nodes[0].id.None? then Links(nodes[1..])
    else [Link(nodes[0].id.value, nodes[0].after)] + Links(nodes[1..])
  }

  function After(nodes: seq<Def>): Graph { Edges(Links(nodes)) }

  /** Some proposed node of that id passes. */
  ghost predicate LocallyUnchanged(was: seq<Def>, rec: Records, nodes: seq<Def>, x: Id) {
    exists i :: 0 <= i < |nodes| && nodes[i].id == Some(x) && Passes(Committed(was), rec, nodes[i])
  }

  /** A node and every transitive ancestor are locally unchanged. */
  ghost predicate UnchangedThroughout(was: seq<Def>, rec: Records, nodes: seq<Def>, x: Id) {
    forall a :: Reaches(After(nodes), x, a) ==> LocallyUnchanged(was, rec, nodes, a)
  }

  // ---------------------------------------------------------------- the relation --

  lemma {:induction false} InLinks(nodes: seq<Def>, l: Link)
    ensures l in Links(nodes) <==>
              exists i :: 0 <= i < |nodes| && nodes[i].id == Some(l.id) && nodes[i].after == l.after
  {
    if nodes != [] {
      InLinks(nodes[1..], l);
      if l in Links(nodes[1..]) {
        var i :| 0 <= i < |nodes| - 1 && nodes[1..][i].id == Some(l.id) && nodes[1..][i].after == l.after;
        assert nodes[i + 1].id == Some(l.id);
      }
      if i :| 0 <= i < |nodes| && nodes[i].id == Some(l.id) && nodes[i].after == l.after {
        if i > 0 { assert nodes[1..][i - 1].id == Some(l.id); }
      }
    }
  }

  lemma NodeEdge(nodes: seq<Def>, i: nat, a: Id)
    requires i < |nodes| && nodes[i].id.Some? && a in nodes[i].after
    ensures (nodes[i].id.value, a) in After(nodes)
  {
    var l := Link(nodes[i].id.value, nodes[i].after);
    InLinks(nodes, l);
    var k :| 0 <= k < |Links(nodes)| && Links(nodes)[k] == l;
    EdgeOf(Links(nodes), k, a);
  }

  lemma NodeOf(nodes: seq<Def>, e: (Id, Id)) returns (i: nat)
    requires e in After(nodes)
    ensures i < |nodes| && nodes[i].id == Some(e.0) && e.1 in nodes[i].after
  {
    var k := LinkOf(Links(nodes), e);
    var l := Links(nodes)[k];
    InLinks(nodes, l);
    i :| 0 <= i < |nodes| && nodes[i].id == Some(l.id) && nodes[i].after == l.after;
  }

  // ---------------------------------------------------------------- the loop --

  /** The first `k` nodes' dependencies are in the set whenever they are. */
  predicate ClosedBefore(nodes: seq<Def>, frozen: set<Id>, k: nat) {
    forall i :: 0 <= i < k <= |nodes| ==> Keeps(nodes[i], frozen)
  }

  predicate Keeps(n: Def, frozen: set<Id>) {
    n.id.Some? && n.id.value in frozen ==> forall a :: a in n.after ==> a in frozen
  }

  ghost predicate Within(nodes: seq<Def>, good: iset<Id>) {
    forall i :: 0 <= i < |nodes| && nodes[i].id.Some? && nodes[i].id.value in good ==>
      forall a :: a in nodes[i].after ==> a in good
  }

  ghost function Throughout(was: seq<Def>, rec: Records, nodes: seq<Def>): iset<Id> {
    iset x | UnchangedThroughout(was, rec, nodes, x)
  }

  lemma ThroughoutUp(was: seq<Def>, rec: Records, nodes: seq<Def>, x: Id, a: Id)
    requires (x, a) in After(nodes) && UnchangedThroughout(was, rec, nodes, x)
    ensures UnchangedThroughout(was, rec, nodes, a)
  {
    forall y | Reaches(After(nodes), a, y) ensures LocallyUnchanged(was, rec, nodes, y) {
      Further(After(nodes), x, a, y);
    }
  }

  lemma ThroughoutIsWithin(was: seq<Def>, rec: Records, nodes: seq<Def>)
    ensures Within(nodes, Throughout(was, rec, nodes))
  {
    var good := Throughout(was, rec, nodes);
    forall i, a | 0 <= i < |nodes| && nodes[i].id.Some? && nodes[i].id.value in good && a in nodes[i].after
      ensures a in good
    {
      NodeEdge(nodes, i, a);
      ThroughoutUp(was, rec, nodes, nodes[i].id.value, a);
    }
  }

  /** The ids of the first `k` nodes that pass. */
  ghost predicate PassedBefore(was: seq<Def>, rec: Records, nodes: seq<Def>, k: nat, frozen: set<Id>) {
    forall x :: x in frozen <==>
      exists i :: 0 <= i < k <= |nodes| && nodes[i].id == Some(x) && Passes(Committed(was), rec, nodes[i])
  }

  lemma PassOne(was: seq<Def>, rec: Records, nodes: seq<Def>, k: nat, frozen: set<Id>)
    requires k < |nodes| && PassedBefore(was, rec, nodes, k, frozen)
    ensures PassedBefore(was, rec, nodes, k + 1,
                         if Passes(Committed(was), rec, nodes[k]) then frozen + {nodes[k].id.value} else frozen)
  {
  }

  lemma ThroughoutPassed(was: seq<Def>, rec: Records, nodes: seq<Def>, local: set<Id>)
    requires PassedBefore(was, rec, nodes, |nodes|, local)
    ensures forall x :: x in Throughout(was, rec, nodes) ==> x in local
  {
    forall x | UnchangedThroughout(was, rec, nodes, x) ensures x in local {
      Here(After(nodes), x);
    }
  }

  /** A closed set of passing nodes that has lost none of the good ones is the good ones. */
  lemma ClosedIsThroughout(was: seq<Def>, rec: Records, nodes: seq<Def>, local: set<Id>, frozen: set<Id>)
    requires PassedBefore(was, rec, nodes, |nodes|, local) && frozen <= local
    requires ClosedBefore(nodes, frozen, |nodes|)
    requires forall x :: x in Throughout(was, rec, nodes) ==> x in frozen
    ensures forall x :: x in frozen <==> UnchangedThroughout(was, rec, nodes, x)
  {
    var g := After(nodes);
    var inside := iset x | x in frozen;
    forall e | e in g && e.0 in inside ensures e.1 in inside {
      var i := NodeOf(nodes, e);
      assert Keeps(nodes[i], frozen);
    }
    forall x, a | x in frozen && Reaches(g, x, a) ensures LocallyUnchanged(was, rec, nodes, a) {
      var p :| Between(g, p, x, a);
      StaysInside(g, inside, p);
    }
  }

  /** The first loop: every proposed definition against its committed one. */
  method LocalPass(rec: Records, was: seq<Def>, nodes: seq<Def>) returns (ob: map<Id, Def>, frozen: set<Id>)
    ensures ob == Committed(was) && PassedBefore(was, rec, nodes, |nodes|, frozen)
  {
    ob := Committed(was);
    frozen := {};
    for k := 0 to |nodes|
      invariant PassedBefore(was, rec, nodes, k, frozen)
    {
      PassOne(was, rec, nodes, k, frozen);
      if Passes(ob, rec, nodes[k]) { frozen := frozen + {nodes[k].id.value}; }
    }
  }

  /** The second loop.  `good` is what it must not drop. */
  method CloseUnderAfter(nodes: seq<Def>, local: set<Id>, ghost good: iset<Id>) returns (frozen: set<Id>)
    requires Within(nodes, good) && forall x :: x in good ==> x in local
    ensures frozen <= local && ClosedBefore(nodes, frozen, |nodes|)
    ensures forall x :: x in good ==> x in frozen
  {
    frozen := local;
    var moved := true;
    while moved
      invariant frozen <= local && forall x :: x in good ==> x in frozen
      invariant !moved ==> ClosedBefore(nodes, frozen, |nodes|)
      decreases |frozen|, moved
    {
      moved := false;
      ghost var before := frozen;
      for k := 0 to |nodes|
        invariant frozen <= local && forall x :: x in good ==> x in frozen
        invariant if moved then |frozen| < |before| else frozen == before && ClosedBefore(nodes, frozen, k)
      {
        if !Keeps(nodes[k], frozen) {
          frozen := frozen - {nodes[k].id.value};
          moved := true;
        }
      }
    }
  }

  /** Any node list: repeated ids, dangling `after` entries and cycles included. */
  method FrozenCommitted(rec: Records, was: seq<Def>, nodes: seq<Def>) returns (ob: map<Id, Def>, frozen: set<Id>)
    ensures ob == Committed(was)
    ensures forall x :: x in frozen <==> UnchangedThroughout(was, rec, nodes, x)
  {
    var local;
    ob, local := LocalPass(rec, was, nodes);
    ThroughoutIsWithin(was, rec, nodes);
    ThroughoutPassed(was, rec, nodes, local);
    frozen := CloseUnderAfter(nodes, local, Throughout(was, rec, nodes));
    ClosedIsThroughout(was, rec, nodes, local, frozen);
  }

  // ---------------------------------------------------------------- the local test, spelled out --

  /** The last committed definition of the id. */
  ghost predicate LastOf(was: seq<Def>, k: nat, x: Id) {
    k < |was| && was[k].id == Some(x) && forall j :: k < j < |was| ==> was[j].id != Some(x)
  }

  lemma {:induction false} LastOfFewer(was: seq<Def>, k: nat, x: Id)
    requires was != [] && k < |was| - 1
    ensures LastOf(was, k, x) <==> LastOf(was[..|was| - 1], k, x) && was[|was| - 1].id != Some(x)
  {
    var fewer := was[..|was| - 1];
    assert forall j :: 0 <= j < |fewer| ==> fewer[j] == was[j];
  }

  lemma {:induction false} LastIsCommitted(was: seq<Def>, k: nat, x: Id)
    requires LastOf(was, k, x) && x != ""
    ensures x in Committed(was) && Committed(was)[x] == was[k]
    decreases |was|
  {
    var last := |was| - 1;
    if k < last {
      LastOfFewer(was, k, x);
      LastIsCommitted(was[..last], k, x);
    }
  }

  lemma {:induction false} CommittedIsTheLast(was: seq<Def>, x: Id) returns (k: nat)
    requires x in Committed(was)
    ensures LastOf(was, k, x) && x != ""
  {
    var last := |was| - 1;
    if was[last].id == Some(x) && x != "" {
      k := last;
    } else {
      k := CommittedIsTheLast(was[..last], x);
      LastOfFewer(was, k, x);
    }
  }

  /**
   The ways to write a committed definition again.  An author names the tier it was baked from,
   with no provider or the baked one, or writes an untiered bake as one literal; the `tier` key
   is free wherever `model` tells the route.
  */
  function Spellings(c: Def, tier: Option<string>): set<Def> {
    if c.tier.Some? && c.tier.value != "" then
      {c, c.(model := c.tier, tier := tier), c.(model := c.tier, tier := tier, provider := None)}
    else if c.provider.Some? && c.provider.value != "" then
      var literal := c.(model := Some(c.provider.value + "/" + GetOr(c.model, "None")), tier := tier);
      {c, literal.(provider := None), literal.(provider := Some(""))}
    else {c}
  }

  lemma SpelledTheSame(n: Def, c: Def)
    requires n.id == c.id && n.rest == c.rest && n.after == c.after
    ensures SameRoute(n, c) <==> n in Spellings(c, n.tier)
  {
    assert n == c.(model := n.model, tier := n.tier, provider := n.provider);
    assert n.provider.Some? && n.provider.value == "" ==> n.provider == Some("");
  }

  lemma SpelledPasses(was: seq<Def>, rec: Records, nodes: seq<Def>, i: nat, k: nat, x: Id)
    requires i < |nodes| && nodes[i].id == Some(x) && x != "" && LastOf(was, k, x)
    ensures Passes(Committed(was), rec, nodes[i]) <==>
            nodes[i] in Spellings(was[k], nodes[i].tier) && rec(was[k]) in {Done, Partial, Skipped}
  {
    LastIsCommitted(was, k, x);
    if nodes[i].rest == was[k].rest && nodes[i].after == was[k].after { SpelledTheSame(nodes[i], was[k]); }
  }

  /**
   A node is locally unchanged exactly when it is a respelling of the last committed definition
   of its id and the record of that definition says done, partial or skipped.
  */
  lemma UnchangedIffRespelled(was: seq<Def>, rec: Records, nodes: seq<Def>, x: Id)
    ensures LocallyUnchanged(was, rec, nodes, x) <==>
            x != "" &&
            exists i, k: nat :: && 0 <= i < |nodes| && nodes[i].id == Some(x) && LastOf(was, k, x)
                                && nodes[i] in Spellings(was[k], nodes[i].tier)
                                && rec(was[k]) in {Done, Partial, Skipped}
  {
    if i :| 0 <= i < |nodes| && nodes[i].id == Some(x) && Passes(Committed(was), rec, nodes[i]) {
      var k := CommittedIsTheLast(was, x);
      SpelledPasses(was, rec, nodes, i, k, x);
    }
    if x != "" {
      forall i, k: nat | 0 <= i < |nodes| && nodes[i].id == Some(x) && LastOf(was, k, x)
          && nodes[i] in Spellings(was[k], nodes[i].tier) && rec(was[k]) in {Done, Partial, Skipped}
        ensures LocallyUnchanged(was, rec, nodes, x)
      {
        SpelledPasses(was, rec, nodes, i, k, x);
      }
    }
  }

  // ---------------------------------------------------------------- what it means --

  /** Ids occur once, as the graph validator demands of both graphs. */
  predicate UniqueIds(nodes: seq<Def>) {
    forall i, j :: 0 <= i < j < |nodes| ==> nodes[i].id != nodes[j].id
  }

  predicate Named(nodes: seq<Def>) { forall i :: 0 <= i < |nodes| ==> Set(nodes[i].id) }

  /** A locally unchanged node has the same dependencies in both graphs. */
  lemma SameDependencies(was: seq<Def>, rec: Records, nodes: seq<Def>, x: Id, a: Id)
    requires UniqueIds(was) && UniqueIds(nodes) && Named(was) && LocallyUnchanged(was, rec, nodes, x)
    ensures (x, a) in After(nodes) <==> (x, a) in After(was)
  {
    var i :| 0 <= i < |nodes| && nodes[i].id == Some(x) && Passes(Committed(was), rec, nodes[i]);
    var c := Committed(was)[x];
    var m :| 0 <= m < |was| && was[m] == c;
    if a in c.after {
      NodeEdge(nodes, i, a);
      NodeEdge(was, m, a);
    }
    if (x, a) in After(nodes) { var k := NodeOf(nodes, (x, a)); }
    if (x, a) in After(was) { var k := NodeOf(was, (x, a)); }
  }

  /** The walks up from a frozen node are the same in the committed graph and in the amended one. */
  lemma {:induction false} SameWalks(was: seq<Def>, rec: Records, nodes: seq<Def>, p: seq<Id>)
    requires UniqueIds(was) && UniqueIds(nodes) && Named(was)
    requires |p| > 0 && UnchangedThroughout(was, rec, nodes, p[0])
    ensures Path(After(nodes), p) <==> Path(After(was), p)
    decreases |p|
  {
    Here(After(nodes), p[0]);
    if |p| > 1 {
      SameDependencies(was, rec, nodes, p[0], p[1]);
      Extends(After(nodes), p);
      Extends(After(was), p);
      if (p[0], p[1]) in After(nodes) {
        forall y | Reaches(After(nodes), p[1], y) ensures LocallyUnchanged(was, rec, nodes, y) {
          Further(After(nodes), p[0], p[1], y);
        }
        SameWalks(was, rec, nodes, p[1..]);
      }
    }
  }

  /**
   A frozen node has exactly its committed ancestors, and each of them stands with an unchanged
   definition and a replayable committed record: keeping the committed route is safe.
  */
  lemma FrozenAncestryIsCommitted(was: seq<Def>, rec: Records, nodes: seq<Def>, x: Id, a: Id)
    requires UniqueIds(was) && UniqueIds(nodes) && Named(was) && UnchangedThroughout(was, rec, nodes, x)
    ensures Reaches(After(nodes), x, a) <==> Reaches(After(was), x, a)
    ensures Reaches(After(was), x, a) ==> a in Committed(was) && Replayable(rec(Committed(was)[a]))
  {
    var g, h := After(nodes), After(was);
    if Reaches(g, x, a) {
      var p :| Between(g, p, x, a);
      SameWalks(was, rec, nodes, p);
      assert Between(h, p, x, a);
    }
    if Reaches(h, x, a) {
      var p :| Between(h, p, x, a);
      SameWalks(was, rec, nodes, p);
      assert Between(g, p, x, a);
    }
  }

  /** The frozen set is the largest: any set of locally unchanged nodes closed under `after` is in it. */
  lemma FrozenIsLargest(was: seq<Def>, rec: Records, nodes: seq<Def>, other: iset<Id>)
    requires Closed(After(nodes), other) && forall x :: x in other ==> LocallyUnchanged(was, rec, nodes, x)
    ensures forall x :: x in other ==> UnchangedThroughout(was, rec, nodes, x)
  {
    forall x, a | x in other && Reaches(After(nodes), x, a) ensures LocallyUnchanged(was, rec, nodes, a) {
      var p :| Between(After(nodes), p, x, a);
      StaysInside(After(nodes), other, p);
    }
  }
}
