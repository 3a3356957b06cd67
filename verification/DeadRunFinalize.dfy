/**
 `finalize_run`: closing the falsely running records of a dead run.  The run directory is the
 node records, the runner's verdict and the event log; any single write may fail.

 The unseen helpers are arguments: `live` is the spawn-verification law, `current` the
 fingerprint rule for an item record, `standing` whether the read model calls a recorded exit
 authoritative.  The pass runs under the runner's own lock, so nobody else writes meanwhile.
*/
module DeadRunFinalize {
  import opened Wrappers

  type NodeId = int

  /** `nodes/<id>.json` and `nodes/<id>.<idx>.json` */
  datatype Name = Node(id: NodeId) | Item(id: NodeId, idx: nat)

  datatype Status = Running | Failed | Committed
  /** `Torn` is a file that does not parse; `fp` is the record's own fingerprint, never restamped.
      `closed` lists the items a finalize-authored aggregate names. */
  datatype Rec = Torn | Rec(status: Status, finalized: bool, pid: int, fp: int, closed: set<nat>)

  /** runner_exit.json; `blockers` are the node ids a finalize-authored verdict names. */
  datatype Exit = Exit(finalized: bool, reason: int, blockers: set<NodeId>)

  datatype Run = Run(recs: map<Name, Rec>, exit: Option<Exit>, events: seq<set<NodeId>>)

  /** What does not change during a pass. */
  datatype World = World(
    graph: set<NodeId>,
    live: (Name, Rec) -> bool,
    current: (NodeId, Rec) -> bool,
    standing: Option<Exit> -> bool,
    graphFp: NodeId -> int)

  /** Which writes of one pass fail. */
  datatype Faults = Faults(recs: set<Name>, aggs: set<NodeId>, exit: bool, event: bool)

  const BLOCKED_BY_FAILED := 0   // "blocked by failed ..."

  // ---------------------------------------------------------------- one pass --

  /** A record whose claim to be running nobody can verify. */
  predicate Claims(w: World, recs: map<Name, Rec>, n: Name) {
    n in recs && n.id in w.graph && recs[n].Rec? && !recs[n].finalized
    && recs[n].status.Running? && !w.live(n, recs[n])
  }

  function Closed(rec: Rec): Rec
    requires rec.Rec?
  {
    rec.(status := Failed, finalized := true)
  }

  predicate Doa(w: World, recs: map<Name, Rec>, n: Name) {
    n in recs && n.id in w.graph && recs[n].Rec? && recs[n].finalized
  }

  /** After the record loop. */
  function RecsClosed(w: World, recs: map<Name, Rec>, f: Faults): map<Name, Rec> {
    map n | n in recs :: if Claims(w, recs, n) && n !in f.recs then Closed(recs[n]) else recs[n]
  }

  /** Fan-outs with a closed item claim of the current fingerprint. */
  function Parents(w: World, recs: map<Name, Rec>): set<NodeId> {
    set n | n in recs && n.Item? && Doa(w, recs, n) && w.current(n.id, recs[n]) :: n.id
  }

  function ClosedItems(recs: map<Name, Rec>, id: NodeId): set<nat> {
    set n | n in recs && n.Item? && n.id == id && recs[n].Rec? && recs[n].finalized :: n.idx
  }

  function Aggregate(w: World, recs: map<Name, Rec>, id: NodeId): Rec {
    Rec(Failed, true, 0, w.graphFp(id), ClosedItems(recs, id))
  }

  /** After the aggregate loop. */
  function AggsWritten(w: World, recs: map<Name, Rec>, f: Faults): map<Name, Rec> {
    recs + map id | id in Parents(w, recs) && Node(id) !in recs && id !in f.aggs :: Node(id) := Aggregate(w, recs, id)
  }

  function DoaIds(w: World, recs: map<Name, Rec>): set<NodeId> {
    set n | n in recs && Doa(w, recs, n) :: n.id
  }

  /** An exit no finalize pass may replace: its own, or one the read model calls authoritative. */
  predicate Stands(w: World, exit: Option<Exit>) {
    (exit.Some? && exit.value.finalized) || w.standing(exit)
  }

  function Verdict(ids: set<NodeId>): Exit { Exit(true, BLOCKED_BY_FAILED, ids) }

  function Newly(w: World, recs: map<Name, Rec>, f: Faults): set<NodeId> {
    set n | n in recs && Claims(w, recs, n) && n !in f.recs :: n.id
  }

  predicate LostRecord(w: World, recs: map<Name, Rec>, f: Faults) {
    exists n :: n in recs && Claims(w, recs, n) && n in f.recs
  }

  predicate LostAggregate(w: World, recs: map<Name, Rec>, f: Faults) {
    exists id :: id in Parents(w, recs) && Node(id) !in recs && id in f.aggs
  }

  function VerdictWritten(w: World, recs: map<Name, Rec>, exit: Option<Exit>, f: Faults): Option<Exit> {
    if DoaIds(w, recs) == {} || Stands(w, exit) || f.exit then exit else Some(Verdict(DoaIds(w, recs)))
  }

  /** The whole of `_finalize_locked`: the run it leaves, and its exit code. */
  function Finalized(w: World, r: Run, f: Faults): Run {
    var recs1 := RecsClosed(w, r.recs, f);
    Run(AggsWritten(w, recs1, f),
        VerdictWritten(w, recs1, r.exit, f),
        if Newly(w, r.recs, f) == {} || f.event then r.events else r.events + [Newly(w, r.recs, f)])
  }

  function ExitCode(w: World, r: Run, f: Faults): nat {
    var recs1 := RecsClosed(w, r.recs, f);
    if LostRecord(w, r.recs, f) || LostAggregate(w, recs1, f)
       || (DoaIds(w, recs1) != {} && !Stands(w, r.exit) && f.exit) then 4 else 0
  }

  // ---------------------------------------------------------------- the code --

  class RunDir {
    var recs: map<Name, Rec>
    var exit: Option<Exit>
    var events: seq<set<NodeId>>

    function Abs(): Run reads this { Run(recs, exit, events) }

    constructor (r: Run)
      ensures Abs() == r
    {
      recs, exit, events := r.recs, r.exit, r.events;
    }

    /** The record loop over one directory listing. */
    method CloseRecords(w: World, f: Faults) returns (newly: set<NodeId>, errors: nat)
      modifies this`recs
      ensures recs == RecsClosed(w, old(recs), f)
      ensures newly == Newly(w, old(recs), f) && (errors > 0 <==> LostRecord(w, old(recs), f))
    {
      newly, errors := {}, 0;
      var todo := recs.Keys;
      while todo != {}
        invariant todo <= old(recs).Keys && recs.Keys == old(recs).Keys
        invariant forall n :: n in recs ==>
                    recs[n] ==
                      if n !in todo && Claims(w, old(recs), n) && n !in f.recs then Closed(old(recs)[n])
                      else old(recs)[n]
        invariant newly == set n | n in old(recs) && n !in todo && Claims(w, old(recs), n) && n !in f.recs :: n.id
        invariant errors > 0 <==> exists n :: n in old(recs) && n !in todo && Claims(w, old(recs), n) && n in f.recs
        decreases todo
      {
        var n :| n in todo;
        var rec := recs[n];
        todo := todo - {n};
        if rec.Torn? || n.id !in w.graph { continue; }       // torn, or amended away: not ours
        if rec.finalized { continue; }                       // already closed
        if !rec.status.Running? { continue; }                // committed truth
        if w.live(n, rec) { continue; }                      // a live child is adopted
        assert Claims(w, old(recs), n);
        if n in f.recs {
          errors := errors + 1;
          continue;
        }
        recs := recs[n := Closed(rec)];
        newly := newly + {n.id};
      }
    }

    /** No standing record is touched, and what is new is the failed aggregate of a fan-out. */
    method WriteAggregates(w: World, f: Faults) returns (errors: nat)
      modifies this`recs
      ensures recs == AggsWritten(w, old(recs), f)
      ensures forall n :: n in old(recs) ==> n in recs && recs[n] == old(recs)[n]
      ensures forall n :: n in recs && n !in old(recs) ==> MadeFor(w, Abs(), n, recs[n])
      ensures errors > 0 <==> LostAggregate(w, old(recs), f)
    {
      AggregatesAreMade(w, recs, f, Run(AggsWritten(w, recs, f), exit, events));
      errors := AggregateLoop(w, f);
    }

    method AggregateLoop(w: World, f: Faults) returns (errors: nat)
      modifies this`recs
      ensures recs == AggsWritten(w, old(recs), f)
      ensures errors > 0 <==> LostAggregate(w, old(recs), f)
    {
      errors := 0;
      var all := Parents(w, recs);
      var todo := all;
      while todo != {}
        invariant todo <= all == Parents(w, old(recs))
        invariant forall n :: n in recs <==>
                    n in old(recs) || (n.Node? && n.id in all && n.id !in todo && n.id !in f.aggs)
        invariant forall n :: n in recs ==>
                    recs[n] == if n in old(recs) then old(recs)[n] else Aggregate(w, old(recs), n.id)
        invariant errors > 0 <==> exists id :: id in all && id !in todo && Node(id) !in old(recs) && id in f.aggs
        decreases todo
      {
        var id :| id in todo;
        todo := todo - {id};
        if Node(id) in recs { continue; }                    // an aggregate is a fact
        if id in f.aggs {
          errors := errors + 1;
          continue;
        }
        AggregateSeesItems(w, old(recs), recs, id);
        recs := recs[Node(id) := Aggregate(w, recs, id)];
      }
    }

    /** The exit record, unless nothing died or one stands that no pass may replace. */
    method WriteVerdict(w: World, ids: set<NodeId>, f: Faults) returns (failed: bool)
      modifies this`exit
      ensures exit == if ids == {} || Stands(w, old(exit)) || f.exit then old(exit) else Some(Verdict(ids))
      ensures failed <==> ids != {} && !Stands(w, old(exit)) && f.exit
    {
      if ids == {} { return false; }
      if (exit.Some? && exit.value.finalized) || w.standing(exit) { return false; }
      if f.exit { return true; }
      exit := Some(Verdict(ids));
      return false;
    }

    method Finalize(w: World, f: Faults) returns (code: nat)
      modifies this
      ensures Abs() == Finalized(w, old(Abs()), f) && code == ExitCode(w, old(Abs()), f)
    {
      var newly, lost := CloseRecords(w, f);
      if newly != {} && !f.event { events := events + [newly]; }
      var ids := DoaIds(w, recs);
      var lostAggs := WriteAggregates(w, f);
      var failed := WriteVerdict(w, ids, f);
      code := if lost + lostAggs > 0 || failed then 4 else 0;
    }
  }

  lemma AggregateSeesItems(w: World, a: map<Name, Rec>, b: map<Name, Rec>, id: NodeId)
    requires forall n :: n in b && n.Item? <==> n in a && n.Item?
    requires forall n :: n in b && n.Item? ==> b[n] == a[n]
    ensures Aggregate(w, a, id) == Aggregate(w, b, id)
  {
    assert ClosedItems(a, id) == ClosedItems(b, id);
  }

  // ---------------------------------------------------------------- one pass, exactly --

  lemma ItemsAfterAggregates(w: World, recs: map<Name, Rec>, f: Faults)
    ensures var r2 := AggsWritten(w, recs, f);
            && (forall n :: n in recs ==> n in r2 && r2[n] == recs[n])
            && (forall n :: n in r2 && n !in recs ==>
                  n.Node? && n.id in Parents(w, recs) && n.id in w.graph && r2[n] == Aggregate(w, recs, n.id))
            && Parents(w, r2) == Parents(w, recs)
            && DoaIds(w, r2) == DoaIds(w, recs)
  {
    var r2 := AggsWritten(w, recs, f);
    forall id ensures id in Parents(w, r2) <==> id in Parents(w, recs) {
      if id in Parents(w, r2) {
        var n :| n in r2 && n.Item? && Doa(w, r2, n) && w.current(n.id, r2[n]) && n.id == id;
        assert n in recs;
      }
      if id in Parents(w, recs) {
        var n :| n in recs && n.Item? && Doa(w, recs, n) && w.current(n.id, recs[n]) && n.id == id;
        assert n in r2;
      }
    }
    forall id ensures id in DoaIds(w, r2) <==> id in DoaIds(w, recs) {
      if id in DoaIds(w, r2) {
        var n :| n in r2 && Doa(w, r2, n) && n.id == id;
        if n in recs { assert Doa(w, recs, n); } else {
          var m :| m in recs && m.Item? && Doa(w, recs, m) && w.current(m.id, recs[m]) && m.id == id;
        }
      }
      if id in DoaIds(w, recs) { var n :| n in recs && Doa(w, recs, n) && n.id == id; assert Doa(w, r2, n); }
    }
  }

  /** A pass that reports 0 leaves no unverifiable running record of a graph node, an aggregate
      for every fan-out with a current closed item, and a standing verdict if anything is closed. */
  lemma ZeroMeansClosed(w: World, r: Run, f: Faults)
    requires ExitCode(w, r, f) == 0
    ensures var r' := Finalized(w, r, f);
            && (forall n :: !Claims(w, r'.recs, n))
            && (forall id :: id in Parents(w, r'.recs) ==> Node(id) in r'.recs)
            && (DoaIds(w, r'.recs) != {} ==> Stands(w, r'.exit))
  {
    var recs1 := RecsClosed(w, r.recs, f);
    ItemsAfterAggregates(w, recs1, f);
    forall n ensures !Claims(w, recs1, n) {
      if n in r.recs && Claims(w, r.recs, n) { assert n !in f.recs; }
    }
    forall n ensures !Claims(w, AggsWritten(w, recs1, f), n) {
      assert !Claims(w, recs1, n);
    }
  }

  /** Then one more pass, whatever it could not write, changes no byte and reports 0 again. */
  lemma ZeroIsFinal(w: World, r: Run, f: Faults, g: Faults)
    requires ExitCode(w, r, f) == 0
    ensures var r' := Finalized(w, r, f);
            Finalized(w, r', g) == r' && ExitCode(w, r', g) == 0
  {
    var r' := Finalized(w, r, f);
    ZeroMeansClosed(w, r, f);
    NothingToClose(w, r'.recs, g);
    NothingToAggregate(w, r'.recs, g);
  }

  lemma NothingToClose(w: World, recs: map<Name, Rec>, g: Faults)
    requires forall n :: !Claims(w, recs, n)
    ensures RecsClosed(w, recs, g) == recs && Newly(w, recs, g) == {} && !LostRecord(w, recs, g)
  {
  }

  lemma NothingToAggregate(w: World, recs: map<Name, Rec>, g: Faults)
    requires forall id :: id in Parents(w, recs) ==> Node(id) in recs
    ensures AggsWritten(w, recs, g) == recs && !LostAggregate(w, recs, g)
  {
  }

  // ---------------------------------------------------------------- any sequence of passes --

  /** Each pass sees its own world: children die and graphs are amended in between. */
  function Passes(r: Run, ps: seq<(World, Faults)>): Run
    decreases |ps|
  {
    if ps == [] then r else Passes(Finalized(ps[0].0, r, ps[0].1), ps[1..])
  }

  /** No pass ever changes a record it has no claim to, a recorded aggregate among them, or an
      exit that stands; a record it does close keeps its own fingerprint and pid. */
  lemma {:induction false} PassesKeepFacts(r: Run, ps: seq<(World, Faults)>, n: Name)
    ensures var r' := Passes(r, ps);
            && (n in r.recs ==> n in r'.recs)
            && (n in r.recs && (forall i :: 0 <= i < |ps| ==> !Claims(ps[i].0, r.recs, n)) ==> r'.recs[n] == r.recs[n])
            && (n in r.recs ==>
                  r'.recs[n] == r.recs[n]
                  || (r.recs[n].Rec? && r.recs[n].status.Running? && r'.recs[n] == Closed(r.recs[n])))
            && ((forall i :: 0 <= i < |ps| ==> Stands(ps[i].0, r.exit)) ==> r'.exit == r.exit)
            && r.events <= r'.events
    decreases |ps|
  {
    if ps != [] {
      var w, f := ps[0].0, ps[0].1;
      var r1 := Finalized(w, r, f);
      ItemsAfterAggregates(w, RecsClosed(w, r.recs, f), f);
      PassesKeepFacts(r1, ps[1..], n);
      if n in r.recs && r1.recs[n] == r.recs[n] {
        assert forall i :: 0 <= i < |ps| - 1 ==> ps[1..][i] == ps[i + 1];
        assert forall v: World :: Claims(v, r1.recs, n) == Claims(v, r.recs, n);
      }
    }
  }

  // ---------------------------------------------------------------- what a pass writes --

  /** The item's record stands and some pass has closed it. */
  predicate ClosedItem(r: Run, id: NodeId, idx: nat) {
    Item(id, idx) in r.recs && r.recs[Item(id, idx)].Rec? && r.recs[Item(id, idx)].finalized
  }

  /** A record a pass has closed: failed, and otherwise what its spawn wrote. */
  predicate ClosedFrom(a: Rec, b: Rec) {
    && a.Rec? && a.status.Running? && !a.finalized
    && b.Rec? && b.status.Failed? && b.finalized
    && b.fp == a.fp && b.pid == a.pid && b.closed == a.closed
  }

  /** An aggregate a pass made: the failed record of a fan-out of the graph, under the graph's own
      fingerprint, naming exactly the closed items. */
  ghost predicate MadeFor(w: World, r: Run, n: Name, b: Rec) {
    && n.Node? && n.id in w.graph
    && b.Rec? && b.status.Failed? && b.finalized && b.pid == 0 && b.fp == w.graphFp(n.id)
    && b.closed != {} && forall idx :: idx in b.closed <==> ClosedItem(r, n.id, idx)
  }

  /** What the aggregate loop makes. */
  lemma AggregatesAreMade(w: World, recs: map<Name, Rec>, f: Faults, r: Run)
    requires r.recs == AggsWritten(w, recs, f)
    ensures forall n :: n in recs ==> n in r.recs && r.recs[n] == recs[n]
    ensures forall n :: n in r.recs && n !in recs ==> MadeFor(w, r, n, r.recs[n])
  {
    ItemsAfterAggregates(w, recs, f);
    forall n | n in r.recs && n !in recs ensures MadeFor(w, r, n, r.recs[n]) {
      SameClosed(w, recs, r, n.id);
      var m :| m in recs && m.Item? && Doa(w, recs, m) && w.current(m.id, recs[m]) && m.id == n.id;
      assert m.idx in ClosedItems(recs, n.id);
    }
  }

  /** A standing record is rewritten exactly when its claim to run cannot be verified and the write
      lands, and then it is closed. */
  lemma PassClosesExactly(w: World, r: Run, f: Faults, n: Name)
    requires n in r.recs
    ensures var r' := Finalized(w, r, f);
            && n in r'.recs
            && (r'.recs[n] != r.recs[n] <==>
                  && n.id in w.graph && r.recs[n].Rec? && r.recs[n].status.Running? && !r.recs[n].finalized
                  && !w.live(n, r.recs[n]) && n !in f.recs)
            && (r'.recs[n] != r.recs[n] ==> ClosedFrom(r.recs[n], r'.recs[n]))
  {
  }

  /** A missing record is made exactly for a fan-out that has a closed item of the current
      fingerprint, when the write lands. */
  lemma PassMakesExactly(w: World, r: Run, f: Faults, n: Name)
    requires n !in r.recs
    ensures var r' := Finalized(w, r, f);
            && (n in r'.recs <==>
                  && n.Node? && n.id in w.graph && n.id !in f.aggs
                  && exists idx :: ClosedItem(r', n.id, idx) && w.current(n.id, r'.recs[Item(n.id, idx)]))
            && (n in r'.recs ==> MadeFor(w, r', n, r'.recs[n]))
  {
    var recs1, r' := RecsClosed(w, r.recs, f), Finalized(w, r, f);
    ItemsAfterAggregates(w, recs1, f);
    AggregatesAreMade(w, recs1, f, r');
    if n.Node? && n.id in Parents(w, recs1) {
      var m :| m in recs1 && m.Item? && Doa(w, recs1, m) && w.current(m.id, recs1[m]) && m.id == n.id;
      assert m == Item(n.id, m.idx) && ClosedItem(r', n.id, m.idx);
    }
    if n.Node? && n.id in w.graph {
      forall idx | ClosedItem(r', n.id, idx) && w.current(n.id, r'.recs[Item(n.id, idx)])
        ensures n.id in Parents(w, recs1)
      {
        assert Doa(w, recs1, Item(n.id, idx));
      }
    }
  }

  lemma SameClosed(w: World, recs: map<Name, Rec>, r: Run, id: NodeId)
    requires forall n :: n in recs ==> n in r.recs && r.recs[n] == recs[n]
    requires forall n :: n in r.recs && n !in recs ==> n.Node?
    ensures forall idx :: idx in ClosedItems(recs, id) <==> ClosedItem(r, id, idx)
  {
    forall idx ensures idx in ClosedItems(recs, id) <==> ClosedItem(r, id, idx) {
      if ClosedItem(r, id, idx) { assert Item(id, idx) in recs; }
    }
  }

  /** The nodes a pass closed a record of. */
  ghost predicate ClosedNow(r: Run, r': Run, id: NodeId) {
    exists n :: n in r.recs && n in r'.recs && n.id == id && r'.recs[n] != r.recs[n]
  }

  /** The event names exactly the nodes of the records closed now, once, if there are any and the
      write lands; nothing before it is touched. */
  lemma PassTellsWhatItClosed(w: World, r: Run, f: Faults)
    ensures var r' := Finalized(w, r, f);
            if (exists id :: ClosedNow(r, r', id)) && !f.event
            then && |r'.events| == |r.events| + 1 && r'.events[..|r.events|] == r.events
                 && (forall id :: id in r'.events[|r.events|] <==> ClosedNow(r, r', id))
            else r'.events == r.events
  {
    var r' := Finalized(w, r, f);
    forall id ensures id in Newly(w, r.recs, f) <==> ClosedNow(r, r', id) {
      if id in Newly(w, r.recs, f) {
        var n :| n in r.recs && Claims(w, r.recs, n) && n !in f.recs && n.id == id;
        PassClosesExactly(w, r, f, n);
      }
      if ClosedNow(r, r', id) {
        var n :| n in r.recs && n in r'.recs && n.id == id && r'.recs[n] != r.recs[n];
        PassClosesExactly(w, r, f, n);
      }
    }
    assert Newly(w, r.recs, f) != {} ==> exists id :: id in Newly(w, r.recs, f);
  }

  /** Some record of the graph node is closed. */
  ghost predicate HasClosed(w: World, r: Run, id: NodeId) {
    id in w.graph && exists n :: n in r.recs && n.id == id && r.recs[n].Rec? && r.recs[n].finalized
  }

  lemma ClosedNodesAre(w: World, r: Run, f: Faults)
    ensures var ids := DoaIds(w, RecsClosed(w, r.recs, f)); var r' := Finalized(w, r, f);
            && (forall id :: id in ids <==> HasClosed(w, r', id))
            && (ids != {} <==> exists id :: HasClosed(w, r', id))
  {
    var recs1, r' := RecsClosed(w, r.recs, f), Finalized(w, r, f);
    ItemsAfterAggregates(w, recs1, f);
    forall id ensures id in DoaIds(w, recs1) <==> HasClosed(w, r', id) {
      if HasClosed(w, r', id) {
        var n :| n in r'.recs && n.id == id && r'.recs[n].Rec? && r'.recs[n].finalized;
        assert Doa(w, r'.recs, n);
      }
      if id in DoaIds(w, recs1) {
        var n :| n in recs1 && Doa(w, recs1, n) && n.id == id;
        assert n in r'.recs;
      }
    }
    assert DoaIds(w, recs1) != {} ==> exists id :: id in DoaIds(w, recs1);
  }

  /** A verdict is written exactly when something of the graph is closed, no finalize-authored or
      authoritative one stands and the write lands; it blames exactly the nodes with closed records. */
  lemma PassJudges(w: World, r: Run, f: Faults)
    ensures var r' := Finalized(w, r, f);
            if (exists id :: HasClosed(w, r', id))
               && !(r.exit.Some? && r.exit.value.finalized) && !w.standing(r.exit) && !f.exit
            then && r'.exit.Some? && r'.exit.value.finalized && r'.exit.value.reason == BLOCKED_BY_FAILED
                 && (forall id :: id in r'.exit.value.blockers <==> HasClosed(w, r', id))
            else r'.exit == r.exit
  {
    ItemsAfterAggregates(w, RecsClosed(w, r.recs, f), f);
    ClosedNodesAre(w, r, f);
  }

  /** A pass reports failure exactly when a write it needed was lost. */
  lemma FourMeansLost(w: World, r: Run, f: Faults)
    ensures var r' := Finalized(w, r, f);
            ExitCode(w, r, f) == 4 <==>
              || (exists n :: n in f.recs && Claims(w, r.recs, n))
              || (exists id :: id in f.aggs && id in Parents(w, r'.recs) && Node(id) !in r.recs)
              || (f.exit && (exists id :: HasClosed(w, r', id)) && !Stands(w, r.exit))
    ensures ExitCode(w, r, f) == 4 || ExitCode(w, r, f) == 0
  {
    ItemsAfterAggregates(w, RecsClosed(w, r.recs, f), f);
    ClosedNodesAre(w, r, f);
  }

  /** A record as some pass of the sequence made it. */
  ghost predicate MadeByPass(r: Run, ps: seq<(World, Faults)>, n: Name, b: Rec) {
    exists i :: 0 <= i < |ps| && MadeFor(ps[i].0, Passes(r, ps[..i + 1]), n, b)
  }

  lemma {:induction false} MadeLater(r: Run, ps: seq<(World, Faults)>, n: Name, b: Rec)
    requires ps != [] && MadeByPass(Finalized(ps[0].0, r, ps[0].1), ps[1..], n, b)
    ensures MadeByPass(r, ps, n, b)
  {
    var r1 := Finalized(ps[0].0, r, ps[0].1);
    var i :| 0 <= i < |ps[1..]| && MadeFor(ps[1..][i].0, Passes(r1, ps[1..][..i + 1]), n, b);
    assert ps[..i + 2][1..] == ps[1..][..i + 1] && ps[..i + 2][0] == ps[0];
    assert MadeFor(ps[i + 1].0, Passes(r, ps[..i + 2]), n, b);
  }

  lemma {:induction false} MadeFirst(r: Run, ps: seq<(World, Faults)>, n: Name, b: Rec)
    requires ps != [] && MadeFor(ps[0].0, Finalized(ps[0].0, r, ps[0].1), n, b)
    ensures MadeByPass(r, ps, n, b)
  {
    var r1 := Finalized(ps[0].0, r, ps[0].1);
    assert ps[..1][1..] == [] && ps[..1][0] == ps[0];
    assert Passes(r, ps[..1]) == Passes(r1, ps[..1][1..]) == r1;
    assert MadeFor(ps[0].0, Passes(r, ps[..0 + 1]), n, b);
  }

  /**
   After any passes in any worlds, with any writes lost: a committed record is one that stood
   before, unchanged; every other record that is new or changed is failed and closed, a changed one
   with its own fingerprint, pid and items, a new one the aggregate of a fan-out under the graph's
   fingerprint, naming exactly the items closed when it was written.
  */
  lemma {:induction false} PassesOnlyFail(r: Run, ps: seq<(World, Faults)>, n: Name)
    requires n in Passes(r, ps).recs
    ensures var b := Passes(r, ps).recs[n];
            && (n in r.recs ==> b == r.recs[n] || ClosedFrom(r.recs[n], b))
            && (n !in r.recs ==> MadeByPass(r, ps, n, b))
            && (b.Rec? && b.status.Committed? ==> n in r.recs && b == r.recs[n])
    decreases |ps|
  {
    if ps != [] {
      var w, f := ps[0].0, ps[0].1;
      var r1, b := Finalized(w, r, f), Passes(r, ps).recs[n];
      PassesOnlyFail(r1, ps[1..], n);
      if n in r.recs {
        PassClosesExactly(w, r, f, n);
      } else {
        PassMakesExactly(w, r, f, n);
        if n in r1.recs { MadeFirst(r, ps, n, b); } else { MadeLater(r, ps, n, b); }
        assert exists i :: 0 <= i < |ps| && MadeFor(ps[i].0, Passes(r, ps[..i + 1]), n, b);
      }
    }
  }

  // ---------------------------------------------------------------- retries --

  function NoFaults(): Faults { Faults({}, {}, false, false) }

  /** The same record, except that an aggregate may name fewer items. */
  ghost predicate AsRec(a: Rec, b: Rec) {
    a == b || (a.Rec? && b.Rec? && a.finalized && a.closed <= b.closed && a == b.(closed := a.closed))
  }

  /** The same verdict, except that a finalize-authored one may name fewer nodes. */
  ghost predicate AsExit(a: Option<Exit>, b: Option<Exit>) {
    a == b || (a.Some? && b.Some? && a.value.finalized && a.value.blockers <= b.value.blockers
               && a.value == b.value.(blockers := a.value.blockers))
  }

  ghost predicate AsRun(a: Run, b: Run) {
    && a.recs.Keys == b.recs.Keys
    && (forall n :: n in a.recs ==> AsRec(a.recs[n], b.recs[n]))
    && AsExit(a.exit, b.exit)
  }

  lemma ClosedLater(w: World, recs: map<Name, Rec>, f: Faults)
    ensures var part, full := RecsClosed(w, recs, f), RecsClosed(w, recs, NoFaults());
            && RecsClosed(w, part, NoFaults()) == full
            && Parents(w, part) <= Parents(w, full)
            && DoaIds(w, part) <= DoaIds(w, full)
            && (forall id :: ClosedItems(part, id) <= ClosedItems(full, id))
  {
    var part, full := RecsClosed(w, recs, f), RecsClosed(w, recs, NoFaults());
    forall n | n in part && part[n].Rec? && part[n].finalized ensures full[n] == part[n] {}
    forall id | id in Parents(w, part) ensures id in Parents(w, full) {
      var n :| n in part && n.Item? && Doa(w, part, n) && w.current(n.id, part[n]) && n.id == id;
      assert full[n] == part[n];
    }
    forall id | id in DoaIds(w, part) ensures id in DoaIds(w, full) {
      var n :| n in part && Doa(w, part, n) && n.id == id;
      assert full[n] == part[n];
    }
  }

  /** The records a full pass finds after a partial one: those of a full pass alone, and the
      aggregates the partial pass wrote. */
  lemma SecondPassRecords(w: World, recs: map<Name, Rec>, f: Faults)
    ensures var part, full := RecsClosed(w, recs, f), RecsClosed(w, recs, NoFaults());
            var again := RecsClosed(w, AggsWritten(w, part, f), NoFaults());
            && (forall n :: n in full ==> n in again && again[n] == full[n])
            && (forall n :: n in again && n !in full ==>
                  n.Node? && n.id in Parents(w, part) && n.id in w.graph && again[n] == Aggregate(w, part, n.id))
            && Parents(w, again) == Parents(w, full) && DoaIds(w, again) == DoaIds(w, full)
  {
    var part, full := RecsClosed(w, recs, f), RecsClosed(w, recs, NoFaults());
    var mid := AggsWritten(w, part, f);
    var again := RecsClosed(w, mid, NoFaults());
    ClosedLater(w, recs, f);
    ItemsAfterAggregates(w, part, f);
    forall n | n in full ensures n in again && again[n] == full[n] {
      assert Claims(w, mid, n) == Claims(w, part, n);
      assert RecsClosed(w, part, NoFaults())[n] == full[n];
    }
    SameItems(w, full, again);
    assert forall id :: id in Parents(w, part) ==> id in DoaIds(w, part);
    SameDoa(w, full, again);
  }

  lemma SameItems(w: World, a: map<Name, Rec>, b: map<Name, Rec>)
    requires forall n :: n in a ==> n in b && b[n] == a[n]
    requires forall n :: n in b && n !in a ==> n.Node?
    ensures Parents(w, b) == Parents(w, a)
  {
    forall id ensures id in Parents(w, b) <==> id in Parents(w, a) {
      if id in Parents(w, b) {
        var n :| n in b && n.Item? && Doa(w, b, n) && w.current(n.id, b[n]) && n.id == id;
        assert n in a;
      }
      if id in Parents(w, a) {
        var n :| n in a && n.Item? && Doa(w, a, n) && w.current(n.id, a[n]) && n.id == id;
        assert n in b;
      }
    }
  }

  lemma SameDoa(w: World, a: map<Name, Rec>, b: map<Name, Rec>)
    requires forall n :: n in a ==> n in b && b[n] == a[n]
    requires forall n :: n in b && n !in a ==> n.id in DoaIds(w, a)
    ensures DoaIds(w, b) == DoaIds(w, a)
  {
    forall id ensures id in DoaIds(w, b) <==> id in DoaIds(w, a) {
      if id in DoaIds(w, b) { var n :| n in b && Doa(w, b, n) && n.id == id; if n in a { assert Doa(w, a, n); } }
      if id in DoaIds(w, a) { var n :| n in a && Doa(w, a, n) && n.id == id; assert Doa(w, b, n); }
    }
  }

  /** A pass that lost any of its writes, followed by one that lost none, ends where the latter
      alone would have ended, up to the id lists already written. */
  lemma RetryRepairs(w: World, r: Run, f: Faults)
    ensures AsRun(Finalized(w, Finalized(w, r, f), NoFaults()), Finalized(w, r, NoFaults()))
  {
    var a, b := Finalized(w, Finalized(w, r, f), NoFaults()), Finalized(w, r, NoFaults());
    forall n ensures (n in a.recs <==> n in b.recs) && (n in a.recs ==> AsRec(a.recs[n], b.recs[n])) {
      if n.Node? && n.id in Aggregated(w, r, f) {
        AggregatedList(w, r, f, n.id);
        ClosedLater(w, r.recs, f);
      } else {
        OtherRecord(w, r, f, n);
      }
    }
    RetryRepairsExit(w, r, f);
  }

  lemma RetryRepairsExit(w: World, r: Run, f: Faults)
    ensures AsExit(Finalized(w, Finalized(w, r, f), NoFaults()).exit, Finalized(w, r, NoFaults()).exit)
  {
    ClosedLater(w, r.recs, f);
    SecondPassRecords(w, r.recs, f);
  }

  lemma SameClosedItems(a: map<Name, Rec>, b: map<Name, Rec>, id: NodeId)
    requires forall n :: n in a ==> n in b && b[n] == a[n]
    requires forall n :: n in b && n !in a ==> n.Node?
    ensures ClosedItems(a, id) == ClosedItems(b, id)
  {
  }

  lemma AsRunIsTransitive(a: Run, b: Run, c: Run)
    requires AsRun(a, b) && AsRun(b, c)
    ensures AsRun(a, c)
  {
    forall n | n in a.recs ensures AsRec(a.recs[n], c.recs[n]) {
      assert AsRec(b.recs[n], c.recs[n]);
    }
  }

  function Retried(w: World, r: Run, fs: seq<Faults>): Run
    decreases |fs|
  {
    if fs == [] then r else Retried(w, Finalized(w, r, fs[0]), fs[1..])
  }

  /** However many passes lose however many writes, one clean pass repairs them all. */
  lemma {:induction false} AnyRetriesRepair(w: World, r: Run, fs: seq<Faults>)
    ensures AsRun(Finalized(w, Retried(w, r, fs), NoFaults()), Finalized(w, r, NoFaults()))
    ensures ExitCode(w, Retried(w, r, fs), NoFaults()) == 0
    decreases |fs|
  {
    if fs != [] {
      var r1 := Finalized(w, r, fs[0]);
      AnyRetriesRepair(w, r1, fs[1..]);
      RetryRepairs(w, r, fs[0]);
      AsRunIsTransitive(
        Finalized(w, Retried(w, r, fs), NoFaults()), Finalized(w, r1, NoFaults()), Finalized(w, r, NoFaults()));
    }
  }

  // ---------------------------------------------------------------- when a retry restores the lists --

  /** A claim whose record write the pass lost. */
  predicate Lost(w: World, recs: map<Name, Rec>, f: Faults, n: Name) {
    n in recs && Claims(w, recs, n) && n in f.recs
  }

  /** The fan-outs whose aggregate the pass writes. */
  function Aggregated(w: World, r: Run, f: Faults): set<NodeId> {
    var part := RecsClosed(w, r.recs, f);
    set id | id in Parents(w, part) && Node(id) !in part && id !in f.aggs
  }

  /** No aggregate is written while a claim of one of its items is lost. */
  predicate ListsWhole(w: World, r: Run, f: Faults) {
    forall n :: n in r.recs && n.Item? && Lost(w, r.recs, f, n) ==> n.id !in Aggregated(w, r, f)
  }

  /** If the verdict is written, every node with a lost claim has another closed record. */
  predicate VerdictWhole(w: World, r: Run, f: Faults) {
    var part := RecsClosed(w, r.recs, f);
    DoaIds(w, part) != {} && !Stands(w, r.exit) && !f.exit ==>
      forall n :: n in r.recs && Lost(w, r.recs, f, n) ==> n.id in DoaIds(w, part)
  }

  lemma ClosedItemIs(recs: map<Name, Rec>, id: NodeId, k: nat)
    ensures k in ClosedItems(recs, id) <==> Item(id, k) in recs && recs[Item(id, k)].Rec? && recs[Item(id, k)].finalized
  {
    if k in ClosedItems(recs, id) {
      var m :| m in recs && m.Item? && m.id == id && recs[m].Rec? && recs[m].finalized && m.idx == k;
      assert m == Item(id, k);
    }
    if Item(id, k) in recs && recs[Item(id, k)].Rec? && recs[Item(id, k)].finalized { assert Item(id, k).idx == k; }
  }

  lemma ListMissesTheLost(w: World, recs: map<Name, Rec>, f: Faults, id: NodeId)
    ensures ClosedItems(RecsClosed(w, recs, f), id) == ClosedItems(RecsClosed(w, recs, NoFaults()), id)
            <==> forall n :: n in recs && n.Item? && n.id == id ==> !Lost(w, recs, f, n)
  {
    var part, full := RecsClosed(w, recs, f), RecsClosed(w, recs, NoFaults());
    ClosedLater(w, recs, f);
    forall n | n in recs && n.Item? && n.id == id && Lost(w, recs, f, n)
      ensures n.idx in ClosedItems(full, id) && n.idx !in ClosedItems(part, id)
    {
      assert full[n] == Closed(recs[n]) && part[n] == recs[n];
      ClosedItemIs(part, id, n.idx);
      ClosedItemIs(full, id, n.idx);
    }
    if forall n :: n in recs && n.Item? && n.id == id ==> !Lost(w, recs, f, n) {
      forall k | k in ClosedItems(full, id) ensures k in ClosedItems(part, id) {
        ClosedItemIs(full, id, k);
        ClosedItemIs(part, id, k);
        assert !Lost(w, recs, f, Item(id, k));
      }
    }
  }

  /** What a clean pass after the lossy one finds: a clean pass's records, and in addition exactly
      the aggregates the lossy pass wrote. */
  lemma FoundAgain(w: World, r: Run, f: Faults, again: map<Name, Rec>)
    requires again == RecsClosed(w, Finalized(w, r, f).recs, NoFaults())
    ensures var part, full := RecsClosed(w, r.recs, f), RecsClosed(w, r.recs, NoFaults());
            && (forall n :: n in full ==> n in again && again[n] == full[n])
            && (forall n :: n in again && n !in full ==> n.Node? && n.id in Aggregated(w, r, f))
            && (forall id :: id in Aggregated(w, r, f) ==>
                  Node(id) !in full && Node(id) in again && again[Node(id)] == Aggregate(w, part, id)
                    && id in Parents(w, full))
            && Parents(w, again) == Parents(w, full)
  {
    var part := RecsClosed(w, r.recs, f);
    ClosedLater(w, r.recs, f);
    SecondPassRecords(w, r.recs, f);
    var mid := AggsWritten(w, part, f);
    assert mid == Finalized(w, r, f).recs;
    forall n | n in again && n !in part ensures n.Node? && n.id in Aggregated(w, r, f) { assert n in mid; }
    forall id | id in Aggregated(w, r, f) ensures Node(id) in again { assert Node(id) in mid; }
  }

  lemma AggregatedList(w: World, r: Run, f: Faults, id: NodeId)
    requires id in Aggregated(w, r, f)
    ensures var a, b := Finalized(w, Finalized(w, r, f), NoFaults()).recs, Finalized(w, r, NoFaults()).recs;
            && Node(id) in a && Node(id) in b
            && a[Node(id)] == Aggregate(w, RecsClosed(w, r.recs, f), id)
            && b[Node(id)] == Aggregate(w, RecsClosed(w, r.recs, NoFaults()), id)
  {
    var full := RecsClosed(w, r.recs, NoFaults());
    var again := RecsClosed(w, Finalized(w, r, f).recs, NoFaults());
    FoundAgain(w, r, f, again);
    assert Finalized(w, Finalized(w, r, f), NoFaults()).recs == AggsWritten(w, again, NoFaults());
    AggregateStays(w, again, id);
    AggregateMade(w, full, id);
  }

  /** A clean pass leaves an aggregate that stands alone, and makes one that is missing. */
  lemma AggregateStays(w: World, recs: map<Name, Rec>, id: NodeId)
    requires Node(id) in recs
    ensures var r := AggsWritten(w, recs, NoFaults()); Node(id) in r && r[Node(id)] == recs[Node(id)]
  {
  }

  lemma AggregateMade(w: World, recs: map<Name, Rec>, id: NodeId)
    requires Node(id) !in recs && id in Parents(w, recs)
    ensures var r := AggsWritten(w, recs, NoFaults()); Node(id) in r && r[Node(id)] == Aggregate(w, recs, id)
  {
  }

  lemma OtherRecord(w: World, r: Run, f: Faults, n: Name)
    requires !(n.Node? && n.id in Aggregated(w, r, f))
    ensures var a, b := Finalized(w, Finalized(w, r, f), NoFaults()).recs, Finalized(w, r, NoFaults()).recs;
            (n in a <==> n in b) && (n in a ==> a[n] == b[n])
  {
    var full := RecsClosed(w, r.recs, NoFaults());
    var again := RecsClosed(w, Finalized(w, r, f).recs, NoFaults());
    FoundAgain(w, r, f, again);
    if n !in full && n.Node? { SameClosedItems(full, again, n.id); }
  }

  lemma SameLists(w: World, recs: map<Name, Rec>, other: map<Name, Rec>, id: NodeId)
    ensures Aggregate(w, recs, id) == Aggregate(w, other, id) <==> ClosedItems(recs, id) == ClosedItems(other, id)
  {
  }

  lemma AggregatedListIff(w: World, r: Run, f: Faults, id: NodeId)
    requires id in Aggregated(w, r, f)
    ensures var a, b := Finalized(w, Finalized(w, r, f), NoFaults()).recs, Finalized(w, r, NoFaults()).recs;
            && Node(id) in a && Node(id) in b
            && (a[Node(id)] == b[Node(id)] <==>
                  forall n :: n in r.recs && n.Item? && n.id == id ==> !Lost(w, r.recs, f, n))
  {
    AggregatedList(w, r, f, id);
    ListMissesTheLost(w, r.recs, f, id);
    SameLists(w, RecsClosed(w, r.recs, f), RecsClosed(w, r.recs, NoFaults()), id);
  }

  lemma SameRecords(a: map<Name, Rec>, b: map<Name, Rec>)
    requires forall n :: (n in a <==> n in b) && (n in a ==> a[n] == b[n])
    ensures a == b
  {
  }

  /** The clean pass after a lossy one ends with the very records a clean pass alone would have
      left, if and only if the lossy one wrote no aggregate while an item of it was lost. */
  lemma RetryRestoresRecordsIff(w: World, r: Run, f: Faults)
    ensures Finalized(w, Finalized(w, r, f), NoFaults()).recs == Finalized(w, r, NoFaults()).recs
            <==> ListsWhole(w, r, f)
  {
    var a, b := Finalized(w, Finalized(w, r, f), NoFaults()).recs, Finalized(w, r, NoFaults()).recs;
    if ListsWhole(w, r, f) {
      forall n ensures (n in a <==> n in b) && (n in a ==> a[n] == b[n]) {
        if n.Node? && n.id in Aggregated(w, r, f) {
          AggregatedListIff(w, r, f, n.id);
        } else {
          OtherRecord(w, r, f, n);
        }
      }
      SameRecords(a, b);
    } else {
      var n :| n in r.recs && n.Item? && Lost(w, r.recs, f, n) && n.id in Aggregated(w, r, f);
      AggregatedListIff(w, r, f, n.id);
    }
  }

  /** And with the very verdict, if and only if the lossy pass wrote none that misses a node. */
  lemma RetryRestoresVerdictIff(w: World, r: Run, f: Faults)
    ensures Finalized(w, Finalized(w, r, f), NoFaults()).exit == Finalized(w, r, NoFaults()).exit
            <==> VerdictWhole(w, r, f)
  {
    var part, full := RecsClosed(w, r.recs, f), RecsClosed(w, r.recs, NoFaults());
    ClosedLater(w, r.recs, f);
    SecondPassRecords(w, r.recs, f);
    LostNodes(w, r.recs, f);
  }

  lemma LostNodes(w: World, recs: map<Name, Rec>, f: Faults)
    ensures var part := RecsClosed(w, recs, f);
            DoaIds(w, part) == DoaIds(w, RecsClosed(w, recs, NoFaults()))
            <==> forall n :: n in recs && Lost(w, recs, f, n) ==> n.id in DoaIds(w, part)
  {
    var part, full := RecsClosed(w, recs, f), RecsClosed(w, recs, NoFaults());
    ClosedLater(w, recs, f);
    forall n | n in recs && Lost(w, recs, f, n) ensures n.id in DoaIds(w, full) {
      assert full[n] == Closed(recs[n]);
      assert Doa(w, full, n);
    }
    if forall n :: n in recs && Lost(w, recs, f, n) ==> n.id in DoaIds(w, part) {
      forall id | id in DoaIds(w, full) ensures id in DoaIds(w, part) {
        var n :| n in full && Doa(w, full, n) && n.id == id;
        if !Lost(w, recs, f, n) {
          assert part[n] == full[n];
          assert Doa(w, part, n);
        }
      }
    }
  }

  // ---------------------------------------------------------------- two lossy passes --

  function AllDead(graph: set<NodeId>): World {
    World(graph, (_, _) => false, (_, _) => true, _ => false, _ => 0)
  }

  const STARTED := Rec(Running, false, 0, 0, {})

  /** A fan-out whose second item's write fails: the aggregate names the first item for good. */
  lemma RetryLosesAnItem()
    ensures var w := AllDead({1});
            var r := Run(map[Item(1, 0) := STARTED, Item(1, 1) := STARTED], None, []);
            var f := Faults({Item(1, 1)}, {}, false, false);
            Finalized(w, Finalized(w, r, f), NoFaults()).recs != Finalized(w, r, NoFaults()).recs
  {
    var w := AllDead({1});
    var r := Run(map[Item(1, 0) := STARTED, Item(1, 1) := STARTED], None, []);
    var f := Faults({Item(1, 1)}, {}, false, false);
    AggregatesTheFirst(w, r.recs, f);
    assert Lost(w, r.recs, f, Item(1, 1)) && 1 in Aggregated(w, r, f);
    RetryRestoresRecordsIff(w, r, f);
  }

  lemma AggregatesTheFirst(w: World, recs: map<Name, Rec>, f: Faults)
    requires w == AllDead({1}) && recs == map[Item(1, 0) := STARTED, Item(1, 1) := STARTED]
    requires f == Faults({Item(1, 1)}, {}, false, false)
    ensures var part := RecsClosed(w, recs, f); 1 in Parents(w, part) && Node(1) !in part
  {
    var part := RecsClosed(w, recs, f);
    assert Item(1, 0) in part && Doa(w, part, Item(1, 0));
  }

  /** Two nodes, and the second one's write fails: the verdict names the first for good. */
  lemma RetryLosesABlocker()
    ensures var w := AllDead({1, 2});
            var r := Run(map[Node(1) := STARTED, Node(2) := STARTED], None, []);
            var f := Faults({Node(2)}, {}, false, false);
            Finalized(w, Finalized(w, r, f), NoFaults()).exit != Finalized(w, r, NoFaults()).exit
  {
    var w := AllDead({1, 2});
    var r := Run(map[Node(1) := STARTED, Node(2) := STARTED], None, []);
    var f := Faults({Node(2)}, {}, false, false);
    NamesTheFirst(w, r.recs, f);
    assert Lost(w, r.recs, f, Node(2));
    RetryRestoresVerdictIff(w, r, f);
  }

  lemma NamesTheFirst(w: World, recs: map<Name, Rec>, f: Faults)
    requires w == AllDead({1, 2}) && recs == map[Node(1) := STARTED, Node(2) := STARTED]
    requires f == Faults({Node(2)}, {}, false, false)
    ensures DoaIds(w, RecsClosed(w, recs, f)) == {1}
  {
    var part := RecsClosed(w, recs, f);
    assert part.Keys == {Node(1), Node(2)};
    assert Node(1) in part && Doa(w, part, Node(1)) && !Doa(w, part, Node(2));
  }

  // ---------------------------------------------------------------- any number of passes --

  /** Every pass of the sequence keeps its lists whole. */
  predicate AllListsWhole(w: World, r: Run, fs: seq<Faults>)
    decreases |fs|
  {
    fs != [] ==> ListsWhole(w, r, fs[0]) && AllListsWhole(w, Finalized(w, r, fs[0]), fs[1..])
  }

  predicate AllVerdictsWhole(w: World, r: Run, fs: seq<Faults>)
    decreases |fs|
  {
    fs != [] ==> VerdictWhole(w, r, fs[0]) && AllVerdictsWhole(w, Finalized(w, r, fs[0]), fs[1..])
  }

  /** Lists only shrink along retries, so what is equal in the end was equal all along. */
  lemma Squeezed(a: Run, b: Run, c: Run)
    requires AsRun(a, b) && AsRun(b, c)
    ensures a.recs == c.recs <==> a.recs == b.recs && b.recs == c.recs
    ensures a.exit == c.exit <==> a.exit == b.exit && b.exit == c.exit
  {
    if a.recs == c.recs {
      forall n | n in a.recs ensures a.recs[n] == b.recs[n] {
        assert AsRec(a.recs[n], b.recs[n]) && AsRec(b.recs[n], c.recs[n]);
      }
    }
    SqueezedExit(a.exit, b.exit, c.exit);
  }

  lemma SqueezedExit(a: Option<Exit>, b: Option<Exit>, c: Option<Exit>)
    requires AsExit(a, b) && AsExit(b, c)
    ensures a == c ==> a == b
  {
    if a.Some? && b.Some? {
      var x, y := a.value.blockers, b.value.blockers;
      assert x <= y && y <= x ==> x == y;
    }
  }

  /** However many passes lose however many writes: the clean pass after them restores records and
      verdict exactly if and only if none of them wrote a list that misses a lost id. */
  lemma {:induction false} RetriesRestoreIff(w: World, r: Run, fs: seq<Faults>)
    ensures var a, b := Finalized(w, Retried(w, r, fs), NoFaults()), Finalized(w, r, NoFaults());
            && (a.recs == b.recs <==> AllListsWhole(w, r, fs))
            && (a.exit == b.exit <==> AllVerdictsWhole(w, r, fs))
    decreases |fs|
  {
    if fs != [] {
      var r1 := Finalized(w, r, fs[0]);
      RetriesRestoreIff(w, r1, fs[1..]);
      RetryRestoresRecordsIff(w, r, fs[0]);
      RetryRestoresVerdictIff(w, r, fs[0]);
      AnyRetriesRepair(w, r1, fs[1..]);
      RetryRepairs(w, r, fs[0]);
      Squeezed(Finalized(w, Retried(w, r, fs), NoFaults()), Finalized(w, r1, NoFaults()), Finalized(w, r, NoFaults()));
    }
  }
}
