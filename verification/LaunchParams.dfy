/**
 Resolving a graph's `params` contract at launch: the effective binding, the nodes `where`
 removes, the patches `by` applies, and the list of everything wrong with the launch.

 Slot names are numbered in their sorted order.  `cases` is the `by` seam; a missing one is the empty table.
*/
module LaunchParams {
  import opened Wrappers
  import opened Graphs
  import opened Ascending
  import opened Finite

  type Slot = int
  type Value = string
  type Field = string

  datatype Kind = Pin | Tune(domain: seq<Value>, default: Option<Value>) | Other

  /** A supplied value: usable text, or something that is no string or is blank. */
  datatype Bound = Text(text: Value) | Unusable

  /** The launch's `run_context`: a seed text, or a map (empty when there is none). */
  datatype Binding = Seed(seed: string) | Keys(keys: map<Slot, Bound>)

  datatype Where = Where(param: Slot, allowed: seq<Value>)
  datatype Patch = Patch(id: Option<Id>, after: Option<seq<Id>>, fields: map<Field, string>)
  datatype Node = Node(
    id: Id, after: seq<Id>, guard: Option<Where>, cases: map<Slot, map<Value, Patch>>, fields: map<Field, string>)

  datatype Why = SeedBinding | NoSuchSlot | NotText | OutsideDomain | NothingLeft | NeverBound | UnboundPin
  datatype Violation = Violation(slot: Option<Slot>, why: Why)

  /** The slots a node's text refers to. */
  type Refs = Node -> set<Slot>

  // ---------------------------------------------------------------- the binding --

  predicate Accepts(kind: Kind, b: Bound) { b.Text? && (kind.Tune? ==> b.text in kind.domain) }

  predicate Defaulted(kind: Kind) { kind.Tune? && kind.default.Some? }

  predicate Supplied(p: map<Slot, Kind>, keys: map<Slot, Bound>, s: Slot) {
    s in p && s in keys && Accepts(p[s], keys[s])
  }

  /** A usable supplied value, else the default. */
  function Effective(p: map<Slot, Kind>, keys: map<Slot, Bound>): map<Slot, Value> {
    map s | s in p && (Supplied(p, keys, s) || Defaulted(p[s])) ::
      if Supplied(p, keys, s) then keys[s].text else p[s].default.value
  }

  /** What is wrong with one supplied key. */
  predicate KeyDefect(p: map<Slot, Kind>, keys: map<Slot, Bound>, v: Violation) {
    && v.slot.Some? && v.slot.value in keys
    && var s := v.slot.value;
    if s !in p then v.why == NoSuchSlot
    else if keys[s].Unusable? then v.why == NotText
    else !Accepts(p[s], keys[s]) && v.why == OutsideDomain
  }

  /** The effective binding once the keys of `done` have been read. */
  ghost predicate BoundSoFar(p: map<Slot, Kind>, keys: map<Slot, Bound>, done: seq<Slot>, eff: map<Slot, Value>) {
    && (forall s :: s in eff <==> s in p && (Defaulted(p[s]) || (s in done && Supplied(p, keys, s))))
    && (forall s :: s in eff ==>
          eff[s] == if s in done && Supplied(p, keys, s) then keys[s].text else p[s].default.value)
  }

  /** The defects of the undeclared keys and of those of `done`. */
  ghost predicate ListedSoFar(p: map<Slot, Kind>, keys: map<Slot, Bound>, done: seq<Slot>, violations: seq<Violation>) {
    forall v :: v in violations <==> KeyDefect(p, keys, v) && (v.slot.value in p ==> v.slot.value in done)
  }

  method ListStrangers(p: map<Slot, Kind>, keys: map<Slot, Bound>) returns (violations: seq<Violation>)
    ensures ListedSoFar(p, keys, [], violations)
  {
    violations := [];
    var strangers := Sorted(keys.Keys - p.Keys);
    for i := 0 to |strangers|
      invariant forall v :: v in violations <==> v.slot.Some? && v.slot.value in strangers[..i] && v.why == NoSuchSlot
    {
      violations := violations + [Violation(Some(strangers[i]), NoSuchSlot)];
    }
    assert strangers[..|strangers|] == strangers;
  }

  method Bind(p: map<Slot, Kind>, keys: map<Slot, Bound>) returns (eff: map<Slot, Value>, violations: seq<Violation>)
    ensures eff == Effective(p, keys)
    ensures forall v :: v in violations <==> KeyDefect(p, keys, v)
  {
    eff := map s | s in p && Defaulted(p[s]) :: p[s].default.value;
    violations := ListStrangers(p, keys);
    var known := Sorted(keys.Keys * p.Keys);
    for i := 0 to |known|
      invariant BoundSoFar(p, keys, known[..i], eff)
      invariant ListedSoFar(p, keys, known[..i], violations)
    {
      var key := known[i];
      assert key in keys.Keys * p.Keys && known[..i + 1] == known[..i] + [key];
      ReadOne(p, keys, known[..i], key, eff, violations);
      if keys[key].Unusable? {
        violations := violations + [Violation(Some(key), NotText)];
      } else if !Accepts(p[key], keys[key]) {
        violations := violations + [Violation(Some(key), OutsideDomain)];
      } else {
        eff := eff[key := keys[key].text];
      }
    }
    assert known[..|known|] == known;
    AllBound(p, keys, known, eff);
  }

  lemma ReadOne(
    p: map<Slot, Kind>, keys: map<Slot, Bound>, done: seq<Slot>, s: Slot,
    eff: map<Slot, Value>, violations: seq<Violation>)
    requires BoundSoFar(p, keys, done, eff) && ListedSoFar(p, keys, done, violations)
    requires s in p && s in keys
    ensures BoundSoFar(p, keys, done + [s], if Accepts(p[s], keys[s]) then eff[s := keys[s].text] else eff)
    ensures ListedSoFar(p, keys, done + [s],
              if keys[s].Unusable? then violations + [Violation(Some(s), NotText)]
              else if !Accepts(p[s], keys[s]) then violations + [Violation(Some(s), OutsideDomain)]
              else violations)
  {
  }

  lemma AllBound(p: map<Slot, Kind>, keys: map<Slot, Bound>, known: seq<Slot>, eff: map<Slot, Value>)
    requires BoundSoFar(p, keys, known, eff) && forall s :: s in known <==> s in p && s in keys
    ensures eff == Effective(p, keys)
  {
    var full := Effective(p, keys);
    forall s ensures s in eff <==> s in full {
    }
    forall s | s in eff ensures eff[s] == full[s] {
    }
  }

  // ---------------------------------------------------------------- where --

  predicate Fails(n: Node, eff: map<Slot, Value>) {
    n.guard.Some? && !(n.guard.value.param in eff && eff[n.guard.value.param] in n.guard.value.allowed)
  }

  function Links(nodes: seq<Node>): seq<Link> {
    seq(|nodes|, i requires 0 <= i < |nodes| => Link(nodes[i].id, nodes[i].after))
  }

  function After(nodes: seq<Node>): Graph { Edges(Links(nodes)) }

  /** The node is, or descends from, one whose `where` fails. */
  ghost predicate Doomed(nodes: seq<Node>, eff: map<Slot, Value>, x: Id) {
    exists i :: 0 <= i < |nodes| && Fails(nodes[i], eff) && Reaches(After(nodes), x, nodes[i].id)
  }

  ghost function Removed(nodes: seq<Node>, eff: map<Slot, Value>): set<Id> {
    set i | 0 <= i < |nodes| && Doomed(nodes, eff, nodes[i].id) :: nodes[i].id
  }

  predicate Spared(n: Node, removed: set<Id>) {
    n.id !in removed ==> forall a :: a in n.after ==> a !in removed
  }

  /** A set every child of which is in it too. */
  ghost predicate Inherited(nodes: seq<Node>, doomed: iset<Id>) {
    forall i, a :: 0 <= i < |nodes| && a in nodes[i].after && a in doomed ==> nodes[i].id in doomed
  }

  function Ids(nodes: seq<Node>): set<Id> { set i | 0 <= i < |nodes| :: nodes[i].id }

  /** The cascade.  `doomed` is what it may remove. */
  method Cascade(nodes: seq<Node>, failed: set<Id>, ghost doomed: iset<Id>) returns (removed: set<Id>)
    requires failed <= Ids(nodes) && Inherited(nodes, doomed) && forall x :: x in failed ==> x in doomed
    ensures failed <= removed <= Ids(nodes) && forall i :: 0 <= i < |nodes| ==> Spared(nodes[i], removed)
    ensures forall x :: x in removed ==> x in doomed
  {
    ghost var ids := Ids(nodes);
    removed := failed;
    var changed := true;
    while changed
      invariant failed <= removed <= ids && forall x :: x in removed ==> x in doomed
      invariant !changed ==> forall i :: 0 <= i < |nodes| ==> Spared(nodes[i], removed)
      decreases |ids - removed|, changed
    {
      changed := false;
      ghost var before := removed;
      for k := 0 to |nodes|
        invariant failed <= removed <= ids && forall x :: x in removed ==> x in doomed
        invariant if changed then ids - removed < ids - before
                  else removed == before && forall i :: 0 <= i < k ==> Spared(nodes[i], removed)
      {
        var n := nodes[k];
        if !Spared(n, removed) {
          assert n.id in ids;
          removed := removed + {n.id};
          changed := true;
        }
      }
      if changed { StrictSubsetSize(ids - removed, ids - before); }
    }
  }

  lemma DoomIsInherited(nodes: seq<Node>, eff: map<Slot, Value>)
    ensures Inherited(nodes, iset x | Doomed(nodes, eff, x))
  {
    forall i, a | 0 <= i < |nodes| && a in nodes[i].after && Doomed(nodes, eff, a)
      ensures Doomed(nodes, eff, nodes[i].id)
    {
      EdgeOf(Links(nodes), i, a);
      var k :| 0 <= k < |nodes| && Fails(nodes[k], eff) && Reaches(After(nodes), a, nodes[k].id);
      Further(After(nodes), nodes[i].id, a, nodes[k].id);
    }
  }

  /** Once every survivor is spared, nobody outside reaches in. */
  lemma SparedAreNotDoomed(nodes: seq<Node>, eff: map<Slot, Value>, removed: set<Id>, x: Id)
    requires forall i :: 0 <= i < |nodes| ==>
               Spared(nodes[i], removed) && (Fails(nodes[i], eff) ==> nodes[i].id in removed)
    requires Doomed(nodes, eff, x)
    ensures x in removed
  {
    var g := After(nodes);
    var k :| 0 <= k < |nodes| && Fails(nodes[k], eff) && Reaches(g, x, nodes[k].id);
    var p :| Between(g, p, x, nodes[k].id);
    var outside := iset y | y !in removed;
    forall e | e in g && e.0 in outside ensures e.1 in outside {
      var i := LinkOf(Links(nodes), e);
      assert Spared(nodes[i], removed);
    }
    if x !in removed { StaysInside(g, outside, p); }
  }

  method Prune(nodes: seq<Node>, eff: map<Slot, Value>) returns (removed: set<Id>)
    ensures removed == Removed(nodes, eff)
  {
    var failed := set i | 0 <= i < |nodes| && Fails(nodes[i], eff) :: nodes[i].id;
    ghost var doomed := iset x | Doomed(nodes, eff, x);
    DoomIsInherited(nodes, eff);
    forall i | 0 <= i < |nodes| && Fails(nodes[i], eff) ensures Doomed(nodes, eff, nodes[i].id) {
      Here(After(nodes), nodes[i].id);
    }
    removed := Cascade(nodes, failed, doomed);
    ExactlyTheDoomed(nodes, eff, removed);
  }

  lemma ExactlyTheDoomed(nodes: seq<Node>, eff: map<Slot, Value>, removed: set<Id>)
    requires forall i :: 0 <= i < |nodes| ==>
               Spared(nodes[i], removed) && (Fails(nodes[i], eff) ==> nodes[i].id in removed)
    requires removed <= Ids(nodes) && forall x :: x in removed ==> Doomed(nodes, eff, x)
    ensures removed == Removed(nodes, eff)
  {
    forall x | Doomed(nodes, eff, x) ensures x in removed {
      SparedAreNotDoomed(nodes, eff, removed, x);
    }
  }

  // ---------------------------------------------------------------- by --

  /** The slot's case for its effective value is a patch. */
  predicate Chooses(n: Node, eff: map<Slot, Value>, s: Slot) {
    s in n.cases && s in eff && eff[s] in n.cases[s]
  }

  function Chosen(n: Node, eff: map<Slot, Value>, s: Slot): Patch
    requires Chooses(n, eff, s)
  {
    n.cases[s][eff[s]]
  }

  function Apply(n: Node, patch: Patch): Node {
    n.(id := GetOr(patch.id, n.id), after := GetOr(patch.after, n.after), fields := n.fields + patch.fields)
  }

  /** The chosen patches of `slots` in order. */
  function PatchedBy(n: Node, by_: Node, eff: map<Slot, Value>, slots: seq<Slot>): Node {
    if slots == [] then n
    else
      var s := slots[|slots| - 1];
      var m := PatchedBy(n, by_, eff, slots[..|slots| - 1]);
      if Chooses(by_, eff, s) then Apply(m, Chosen(by_, eff, s)) else m
  }

  /** A surviving node as it ships: patched, its seams popped. */
  function Concrete(n: Node, eff: map<Slot, Value>): Node {
    PatchedBy(n, n, eff, Sorted(n.cases.Keys)).(guard := None, cases := map[])
  }

  function Materialized(nodes: seq<Node>, removed: set<Id>, eff: map<Slot, Value>): (final: seq<Node>)
  {
    if nodes == [] then []
    else
      var rest := Materialized(nodes[1..], removed, eff);
      if nodes[0].id in removed then rest else [Concrete(nodes[0], eff)] + rest
  }

  /** The patches of one slot more. */
  lemma {:induction false} OneMoreSlot(n: Node, eff: map<Slot, Value>, slots: seq<Slot>, i: nat)
    requires i < |slots|
    ensures var m := PatchedBy(n, n, eff, slots[..i]);
            PatchedBy(n, n, eff, slots[..i + 1]) ==
            if Chooses(n, eff, slots[i]) then Apply(m, Chosen(n, eff, slots[i])) else m
  {
    assert slots[..i + 1][..i] == slots[..i] && slots[..i + 1][i] == slots[i];
  }

  method ApplyCases(n: Node, eff: map<Slot, Value>) returns (m: Node)
    ensures m == Concrete(n, eff)
  {
    m := n;
    var slots := Sorted(n.cases.Keys);
    for i := 0 to |slots|
      invariant m == PatchedBy(n, n, eff, slots[..i])
    {
      OneMoreSlot(n, eff, slots, i);
      if Chooses(n, eff, slots[i]) { m := Apply(m, Chosen(n, eff, slots[i])); }
    }
    assert slots[..|slots|] == slots;
    m := m.(guard := None, cases := map[]);
  }

  lemma OneMoreNode(nodes: seq<Node>, k: nat, removed: set<Id>, eff: map<Slot, Value>, final: seq<Node>)
    requires k < |nodes|
    ensures final + Materialized(nodes[k..], removed, eff) ==
            (if nodes[k].id in removed then final else final + [Concrete(nodes[k], eff)])
            + Materialized(nodes[k + 1..], removed, eff)
  {
    assert nodes[k..][1..] == nodes[k + 1..] && nodes[k..][0] == nodes[k];
    var rest := Materialized(nodes[k + 1..], removed, eff);
    assert final + ([Concrete(nodes[k], eff)] + rest) == final + [Concrete(nodes[k], eff)] + rest;
  }

  method Materialize(nodes: seq<Node>, removed: set<Id>, eff: map<Slot, Value>) returns (final: seq<Node>)
    ensures final == Materialized(nodes, removed, eff)
  {
    final := [];
    assert nodes[0..] == nodes;
    for k := 0 to |nodes|
      invariant final + Materialized(nodes[k..], removed, eff) == Materialized(nodes, removed, eff)
    {
      OneMoreNode(nodes, k, removed, eff, final);
      if nodes[k].id !in removed {
        var m := ApplyCases(nodes[k], eff);
        final := final + [m];
      }
    }
  }

  // ---------------------------------------------------------------- totality --

  function RefsOf(final: seq<Node>, refs: Refs): set<Slot> {
    set k, s | 0 <= k < |final| && s in refs(final[k]) :: s
  }

  /** Slots that drive a `where` or a `by`. */
  function Gates(nodes: seq<Node>): set<Slot> {
    (set k | 0 <= k < |nodes| && nodes[k].guard.Some? :: nodes[k].guard.value.param)
    + (set k, s | 0 <= k < |nodes| && s in nodes[k].cases :: s)
  }

  predicate TotalityDefect(
    p: map<Slot, Kind>, eff: map<Slot, Value>, bound: set<Slot>, gates: set<Slot>, v: Violation)
  {
    && v.slot.Some? && v.slot.value in p
    && var s := v.slot.value;
    if s in eff then s !in bound && !(p[s].Tune? && s in gates) && v.why == NeverBound
    else p[s].Pin? && s in bound && v.why == UnboundPin
  }

  method CheckTotality(p: map<Slot, Kind>, eff: map<Slot, Value>, bound: set<Slot>, gates: set<Slot>)
    returns (violations: seq<Violation>)
    ensures forall v :: v in violations <==> TotalityDefect(p, eff, bound, gates, v)
  {
    violations := [];
    var slots := Sorted(p.Keys);
    for i := 0 to |slots|
      invariant forall v :: v in violations <==> TotalityDefect(p, eff, bound, gates, v) && v.slot.value in slots[..i]
    {
      var s := slots[i];
      assert s in p.Keys;
      if s in eff {
        if s !in bound && !(p[s].Tune? && s in gates) { violations := violations + [Violation(Some(s), NeverBound)]; }
      } else if p[s].Pin? && s in bound {
        violations := violations + [Violation(Some(s), UnboundPin)];
      }
    }
    assert slots[..|slots|] == slots;
  }

  /** Everything that can be wrong with a launch that passes a map. */
  ghost predicate Defect(p: map<Slot, Kind>, nodes: seq<Node>, keys: map<Slot, Bound>, refs: Refs, v: Violation) {
    var eff := Effective(p, keys);
    var final := Materialized(nodes, Removed(nodes, eff), eff);
    || KeyDefect(p, keys, v)
    || (final == [] && v == Violation(None, NothingLeft))
    || (final != [] && TotalityDefect(p, eff, RefsOf(final, refs), Gates(nodes), v))
  }

  /**
   The launch door.  `result` is the concrete graph and the stamped binding; a refusal lists
   every defect, and only those.
  */
  method Resolve(p: map<Slot, Kind>, nodes: seq<Node>, binding: Binding, refs: Refs)
    returns (result: Option<(seq<Node>, map<Slot, Value>)>, violations: seq<Violation>)
    ensures forall v :: v in violations <==>
              if binding.Seed? then v == Violation(None, SeedBinding) else Defect(p, nodes, binding.keys, refs, v)
    ensures result.Some? <==> violations == []
    ensures result.Some? ==>
              && binding.Keys? && result.value.1 == Effective(p, binding.keys)
              && result.value.0 == Materialized(nodes, Removed(nodes, result.value.1), result.value.1)
  {
    if binding.Seed? { return None, [Violation(None, SeedBinding)]; }
    var gates := Gates(nodes);
    var eff, wrong := Bind(p, binding.keys);
    var removed := Prune(nodes, eff);
    var final := Materialize(nodes, removed, eff);
    if final == [] {
      violations := wrong + [Violation(None, NothingLeft)];
      return None, violations;
    }
    var more := CheckTotality(p, eff, RefsOf(final, refs), gates);
    violations := wrong + more;
    result := if violations == [] then Some((final, eff)) else None;
  }
}
