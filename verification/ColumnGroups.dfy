/** The desktop's depth columns: nodes grouped by depth, columns ascending, list order kept within. */
module ColumnGroups {
  import opened Graphs
  import opened Depths
  import opened Ascending

  datatype Column = Column(depth: int, defs: seq<Id>)

  function DepthOf(depths: map<Id, nat>, x: Id): nat { if x in depths then depths[x] else 0 }

  /** The nodes of one depth, in list order. */
  function OfDepth(nodes: seq<Id>, depths: map<Id, nat>, d: int): seq<Id> {
    if nodes == [] then []
    else
      var last := |nodes| - 1;
      OfDepth(nodes[..last], depths, d) + if DepthOf(depths, nodes[last]) == d then [nodes[last]] else []
  }

  lemma {:induction false} OfDepthHas(nodes: seq<Id>, depths: map<Id, nat>, d: int, x: Id)
    ensures x in OfDepth(nodes, depths, d) <==> x in nodes && DepthOf(depths, x) == d
  {
    if nodes != [] {
      var last := |nodes| - 1;
      OfDepthHas(nodes[..last], depths, d, x);
      assert x in nodes <==> x in nodes[..last] || x == nodes[last];
    }
  }

  /** The columns of a node list: one for each depth that occurs, ascending, with its nodes in order. */
  ghost predicate IsGrouping(nodes: seq<Id>, depths: map<Id, nat>, cols: seq<Column>) {
    && (forall i, j :: 0 <= i < j < |cols| ==> cols[i].depth < cols[j].depth)
    && (forall i :: 0 <= i < |cols| ==> cols[i].defs == OfDepth(nodes, depths, cols[i].depth) && cols[i].defs != [])
    && (forall x :: x in nodes ==> exists i :: 0 <= i < |cols| && cols[i].depth == DepthOf(depths, x))
  }

  ghost predicate Grouped(nodes: seq<Id>, depths: map<Id, nat>, k: nat, groups: map<int, seq<Id>>) {
    && k <= |nodes|
    && (forall d :: d in groups ==> groups[d] == OfDepth(nodes[..k], depths, d) && groups[d] != [])
    && (forall i :: 0 <= i < k ==> DepthOf(depths, nodes[i]) in groups)
  }

  lemma GroupOne(nodes: seq<Id>, depths: map<Id, nat>, k: nat, groups: map<int, seq<Id>>)
    requires k < |nodes| && Grouped(nodes, depths, k, groups)
    ensures var d := DepthOf(depths, nodes[k]);
            Grouped(nodes, depths, k + 1, groups[d := (if d in groups then groups[d] else []) + [nodes[k]]])
  {
    var d := DepthOf(depths, nodes[k]);
    assert nodes[..k + 1][..k] == nodes[..k];
    if d !in groups && OfDepth(nodes[..k], depths, d) != [] {
      var x := OfDepth(nodes[..k], depths, d)[0];
      OfDepthHas(nodes[..k], depths, d, x);
    }
  }

  /** The dict's columns in ascending order. */
  ghost predicate Listed(groups: map<int, seq<Id>>, keys: seq<int>, cols: seq<Column>) {
    && |cols| == |keys|
    && (forall j :: 0 <= j < |keys| ==> keys[j] in groups && cols[j] == Column(keys[j], groups[keys[j]]))
  }

  lemma ListedGroups(
    nodes: seq<Id>, depths: map<Id, nat>, groups: map<int, seq<Id>>, keys: seq<int>, cols: seq<Column>)
    requires Grouped(nodes, depths, |nodes|, groups) && Listed(groups, keys, cols)
    requires (forall i, j :: 0 <= i < j < |keys| ==> keys[i] < keys[j]) && (forall d :: d in groups ==> d in keys)
    ensures IsGrouping(nodes, depths, cols)
  {
    assert nodes[..|nodes|] == nodes;
    forall x | x in nodes ensures exists i :: 0 <= i < |cols| && cols[i].depth == DepthOf(depths, x) {
      var n :| 0 <= n < |nodes| && nodes[n] == x;
      assert DepthOf(depths, nodes[n]) in groups;
      var i :| 0 <= i < |keys| && keys[i] == DepthOf(depths, x);
      assert cols[i].depth == keys[i];
    }
  }

  method ListColumns(groups: map<int, seq<Id>>, keys: seq<int>) returns (cols: seq<Column>)
    requires forall i :: 0 <= i < |keys| ==> keys[i] in groups
    ensures Listed(groups, keys, cols)
  {
    cols := [];
    for i := 0 to |keys|
      invariant |cols| == i
      invariant forall j :: 0 <= j < i ==> cols[j] == Column(keys[j], groups[keys[j]])
    {
      cols := cols + [Column(keys[i], groups[keys[i]])];
    }
  }

  method Group(nodes: seq<Id>, depths: map<Id, nat>) returns (cols: seq<Column>)
    ensures IsGrouping(nodes, depths, cols)
  {
    var groups: map<int, seq<Id>> := map[];
    for k := 0 to |nodes|
      invariant Grouped(nodes, depths, k, groups)
    {
      GroupOne(nodes, depths, k, groups);
      var d := DepthOf(depths, nodes[k]);
      groups := groups[d := (if d in groups then groups[d] else []) + [nodes[k]]];
    }
    var keys := Sorted(groups.Keys);
    assert forall i :: 0 <= i < |keys| ==> keys[i] in groups.Keys;
    cols := ListColumns(groups, keys);
    ListedGroups(nodes, depths, groups, keys, cols);
  }

  // ---------------------------------------------------------------- what the columns show --

  /** A depth map as the searches give it for an acyclic graph of known dependencies. */
  ghost predicate Exact(nodes: seq<Id>, g: Graph, depths: map<Id, nat>) {
    && (forall x :: x in nodes ==> x in depths && IsDepth(g, x, depths[x]))
    && (forall x, a :: x in nodes && (x, a) in g ==> a in nodes)
  }

  /** Every dependency of a node of a column lies in a column further left. */
  lemma DependenciesLieLeft(nodes: seq<Id>, g: Graph, depths: map<Id, nat>, cols: seq<Column>, i: nat, x: Id, a: Id)
    requires IsGrouping(nodes, depths, cols) && Exact(nodes, g, depths)
    requires i < |cols| && x in cols[i].defs && (x, a) in g
    ensures exists j :: 0 <= j < i && a in cols[j].defs
  {
    OfDepthHas(nodes, depths, cols[i].depth, x);
    DepthFalls(g, x, a, depths[x], depths[a]);
    var j :| 0 <= j < |cols| && cols[j].depth == DepthOf(depths, a);
    OfDepthHas(nodes, depths, cols[j].depth, a);
    assert j < i;
  }

  /** A node of positive depth has a dependency just below. */
  lemma StepBelow(nodes: seq<Id>, g: Graph, depths: map<Id, nat>, x: Id) returns (a: Id)
    requires Exact(nodes, g, depths) && x in nodes && depths[x] > 0
    ensures a in nodes && depths[a] == depths[x] - 1
  {
    DepthHasStep(g, x, depths[x]);
    a :| (x, a) in g && IsDepth(g, a, depths[x] - 1);
    DepthIsUnique(g, a, depths[x] - 1, depths[a]);
  }

  /** A column other than the first has the depth below it as a column too. */
  lemma DepthBelow(nodes: seq<Id>, g: Graph, depths: map<Id, nat>, cols: seq<Column>, i: nat) returns (j: nat)
    requires IsGrouping(nodes, depths, cols) && Exact(nodes, g, depths) && i < |cols|
    ensures cols[i].depth >= 0
    ensures cols[i].depth > 0 ==> j < |cols| && cols[j].depth == cols[i].depth - 1
  {
    var x := cols[i].defs[0];
    OfDepthHas(nodes, depths, cols[i].depth, x);
    j := 0;
    if cols[i].depth > 0 {
      var a := StepBelow(nodes, g, depths, x);
      j :| 0 <= j < |cols| && cols[j].depth == DepthOf(depths, a);
    }
  }

  /** The columns are the depths 0, 1, 2, ... without a gap. */
  lemma {:induction false} ColumnsAreContiguous(
    nodes: seq<Id>, g: Graph, depths: map<Id, nat>, cols: seq<Column>, i: nat)
    requires IsGrouping(nodes, depths, cols) && Exact(nodes, g, depths) && i < |cols|
    ensures cols[i].depth == i
    decreases i
  {
    var j := DepthBelow(nodes, g, depths, cols, i);
    assert forall a, b :: 0 <= a <= b < |cols| ==> cols[a].depth <= cols[b].depth;
    if i > 0 { ColumnsAreContiguous(nodes, g, depths, cols, i - 1); }
  }

  /** The nodes of all columns, column after column. */
  function Drawn(cols: seq<Column>): seq<Id> {
    if cols == [] then [] else Drawn(cols[..|cols| - 1]) + cols[|cols| - 1].defs
  }

  lemma {:induction false} OfDepthCounts(nodes: seq<Id>, depths: map<Id, nat>, d: int, x: Id)
    ensures multiset(OfDepth(nodes, depths, d))[x] == if DepthOf(depths, x) == d then multiset(nodes)[x] else 0
  {
    if nodes != [] {
      var last := |nodes| - 1;
      OfDepthCounts(nodes[..last], depths, d, x);
      assert nodes == nodes[..last] + [nodes[last]];
    }
  }

  ghost predicate HasDepth(cols: seq<Column>, d: int) { exists i :: 0 <= i < |cols| && cols[i].depth == d }

  lemma HasDepthSplits(cols: seq<Column>, d: int)
    requires cols != [] && forall i, j :: 0 <= i < j < |cols| ==> cols[i].depth < cols[j].depth
    ensures var last := |cols| - 1;
            && (HasDepth(cols, d) <==> HasDepth(cols[..last], d) || cols[last].depth == d)
            && !(HasDepth(cols[..last], d) && cols[last].depth == d)
  {
    var rest := cols[..|cols| - 1];
    if HasDepth(rest, d) {
      var i :| 0 <= i < |rest| && rest[i].depth == d;
      assert cols[i].depth == d;
    }
    if HasDepth(cols, d) {
      var i :| 0 <= i < |cols| && cols[i].depth == d;
      if i < |rest| { assert rest[i].depth == d; }
    }
  }

  lemma {:induction false} DrawnCounts(nodes: seq<Id>, depths: map<Id, nat>, cols: seq<Column>, x: Id)
    requires forall i :: 0 <= i < |cols| ==> cols[i].defs == OfDepth(nodes, depths, cols[i].depth)
    requires forall i, j :: 0 <= i < j < |cols| ==> cols[i].depth < cols[j].depth
    ensures multiset(Drawn(cols))[x] == if HasDepth(cols, DepthOf(depths, x)) then multiset(nodes)[x] else 0
    decreases |cols|
  {
    if cols != [] {
      var last := |cols| - 1;
      var rest := cols[..last];
      assert forall i :: 0 <= i < last ==> rest[i] == cols[i];
      DrawnCounts(nodes, depths, rest, x);
      OfDepthCounts(nodes, depths, cols[last].depth, x);
      assert multiset(Drawn(cols))[x] == multiset(Drawn(rest))[x] + multiset(cols[last].defs)[x];
      HasDepthSplits(cols, DepthOf(depths, x));
    }
  }

  /** Every listed node is drawn as often as it is listed, and nothing else is. */
  lemma EveryNodeIsDrawnOnce(nodes: seq<Id>, depths: map<Id, nat>, cols: seq<Column>)
    requires IsGrouping(nodes, depths, cols)
    ensures multiset(Drawn(cols)) == multiset(nodes)
  {
    forall x ensures multiset(Drawn(cols))[x] == multiset(nodes)[x] {
      DrawnCounts(nodes, depths, cols, x);
      assert x in nodes ==> HasDepth(cols, DepthOf(depths, x));
    }
  }
}
