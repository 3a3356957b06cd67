/** The two depth searches, written apart, tell the same story. */
module DepthAgreement {
  import opened Graphs
  import opened Depths
  import Diagram = DiagramDepth
  import Desktop = DesktopDepth

  /**
   Where the diagram's search does not raise, the desktop's gives every node the very same
   depth; and it does not raise on any acyclic graph whose dependencies are known.
  */
  lemma {:induction false} SearchesAgree(nodes: seq<Link>, r: Diagram.Outcome, depth: map<Id, nat>, shown: map<Id, nat>)
    requires Diagram.Memo(ById(nodes), depth) && Diagram.Justified(ById(nodes), r)
    requires r.Depth? ==> forall k :: 0 <= k < |nodes| ==> nodes[k].id in depth
    requires forall x :: x in shown ==> Desktop.Answers(After(Desktop.Resolved(ById(nodes))), x, shown[x])
    requires forall k :: 0 <= k < |nodes| ==> nodes[k].id in shown
    ensures Known(ById(nodes)) && Acyclic(After(ById(nodes))) ==>
              r.Depth? && forall k :: 0 <= k < |nodes| ==> shown[nodes[k].id] == depth[nodes[k].id]
  {
    var byid := ById(nodes);
    Diagram.RaisesExactlyWhen(nodes, depth, r);
    if Known(byid) && Acyclic(After(byid)) {
      Desktop.KnownResolves(byid);
      forall k | 0 <= k < |nodes| ensures shown[nodes[k].id] == depth[nodes[k].id] {
        DepthIsUnique(After(byid), nodes[k].id, shown[nodes[k].id], depth[nodes[k].id]);
      }
    }
  }

  /** Both searches on one node list, from the list to the verdicts. */
  method RunBoth(nodes: seq<Link>) returns (r: Diagram.Outcome, drawn: map<Id, nat>, shown: map<Id, nat>)
    ensures r.Depth? <==> Known(ById(nodes)) && Acyclic(After(ById(nodes)))
    ensures r.Depth? ==> forall k :: 0 <= k < |nodes| ==>
              var x := nodes[k].id;
              x in drawn && x in shown && drawn[x] == shown[x] && IsDepth(After(ById(nodes)), x, drawn[x])
  {
    var a := new Diagram.Search(nodes);
    r := a.DepthMap(nodes);
    drawn := a.depth;
    var b := new Desktop.Search(nodes);
    shown := b.DepthMap(nodes);
    Diagram.RaisesExactlyWhen(nodes, drawn, r);
    SearchesAgree(nodes, r, drawn, shown);
  }
}
