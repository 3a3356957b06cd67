/** What a launch that resolves may rely on. */
module LaunchLaws {
  import opened Wrappers
  import opened Graphs
  import opened Ascending
  import opened LaunchParams

  // ---------------------------------------------------------------- which nodes ship --

  /** The positions from `k` on that survive. */
  function Origins(nodes: seq<Node>, removed: set<Id>, k: nat): (at: seq<nat>)
    requires k <= |nodes|
    ensures forall a :: 0 <= a < |at| ==> k <= at[a] < |nodes| && nodes[at[a]].id !in removed
    ensures forall i :: k <= i < |nodes| && nodes[i].id !in removed ==> i in at
    ensures forall a, b :: 0 <= a < b < |at| ==> at[a] < at[b]
    decreases |nodes| - k
  {
    if k == |nodes| then []
    else
      var rest := Origins(nodes, removed, k + 1);
      if nodes[k].id in removed then rest
      else
        assert forall a :: 0 <= a < |[k] + rest| ==> ([k] + rest)[a] == if a == 0 then k else rest[a - 1];
        [k] + rest
  }

  ghost predicate Ships(final: seq<Node>, nodes: seq<Node>, at: seq<nat>, eff: map<Slot, Value>) {
    |final| == |at| && forall i :: 0 <= i < |at| ==> at[i] < |nodes| && final[i] == Concrete(nodes[at[i]], eff)
  }

  lemma OneMoreShips(final: seq<Node>, nodes: seq<Node>, at: seq<nat>, eff: map<Slot, Value>, k: nat)
    requires Ships(final, nodes, at, eff) && k < |nodes|
    ensures Ships([Concrete(nodes[k], eff)] + final, nodes, [k] + at, eff)
  {
  }

  /** The concrete graph is the survivors, each as it ships, in their order. */
  lemma {:induction false} ShipsTheSurvivors(nodes: seq<Node>, removed: set<Id>, eff: map<Slot, Value>, k: nat)
    requires k <= |nodes|
    ensures Ships(Materialized(nodes[k..], removed, eff), nodes, Origins(nodes, removed, k), eff)
    decreases |nodes| - k
  {
    if k < |nodes| {
      assert nodes[k..][1..] == nodes[k + 1..] && nodes[k..][0] == nodes[k];
      ShipsTheSurvivors(nodes, removed, eff, k + 1);
      OneMoreShips(Materialized(nodes[k + 1..], removed, eff), nodes, Origins(nodes, removed, k + 1), eff, k);
    }
  }

  /** Whoever stands on a removed or failing node is removed. */
  lemma RemovalDescends(nodes: seq<Node>, eff: map<Slot, Value>, i: nat, j: nat)
    requires i < |nodes| && j < |nodes| && Reaches(After(nodes), nodes[i].id, nodes[j].id)
    requires nodes[j].id in Removed(nodes, eff) || Fails(nodes[j], eff)
    ensures nodes[i].id in Removed(nodes, eff)
  {
    var g := After(nodes);
    if !Fails(nodes[j], eff) {
      var m :| 0 <= m < |nodes| && Doomed(nodes, eff, nodes[m].id) && nodes[m].id == nodes[j].id;
      var k :| 0 <= k < |nodes| && Fails(nodes[k], eff) && Reaches(g, nodes[j].id, nodes[k].id);
      Transitive(g, nodes[i].id, nodes[j].id, nodes[k].id);
    }
    assert Doomed(nodes, eff, nodes[i].id);
  }

  /** A survivor's own gate and the gates of all its ancestors pass, and none of them is removed. */
  lemma SurvivorsStandOnSurvivors(nodes: seq<Node>, eff: map<Slot, Value>, i: nat)
    requires i < |nodes| && nodes[i].id !in Removed(nodes, eff)
    ensures forall j :: 0 <= j < |nodes| && Reaches(After(nodes), nodes[i].id, nodes[j].id) ==>
              nodes[j].id !in Removed(nodes, eff) && !Fails(nodes[j], eff)
  {
    forall j | 0 <= j < |nodes| && Reaches(After(nodes), nodes[i].id, nodes[j].id)
      ensures nodes[j].id !in Removed(nodes, eff) && !Fails(nodes[j], eff)
    {
      if nodes[j].id in Removed(nodes, eff) || Fails(nodes[j], eff) { RemovalDescends(nodes, eff, i, j); }
    }
  }

  // ---------------------------------------------------------------- what a patch does --

  predicate Sets(n: Node, eff: map<Slot, Value>, s: Slot, f: Field) {
    Chooses(n, eff, s) && f in Chosen(n, eff, s).fields
  }

  /** The highest slot whose chosen patch has the field. */
  ghost predicate Decides(n: Node, eff: map<Slot, Value>, s: Slot, f: Field) {
    Sets(n, eff, s, f) && forall t :: Sets(n, eff, t, f) ==> t <= s
  }

  predicate Rewires(n: Node, eff: map<Slot, Value>, s: Slot) { Chooses(n, eff, s) && Chosen(n, eff, s).after.Some? }

  ghost predicate DecidesAfter(n: Node, eff: map<Slot, Value>, s: Slot) {
    Rewires(n, eff, s) && forall t :: Rewires(n, eff, t) ==> t <= s
  }

  predicate Rising(slots: seq<Slot>) { forall i, j :: 0 <= i < j < |slots| ==> slots[i] < slots[j] }

  lemma {:induction false} FieldSet(n: Node, eff: map<Slot, Value>, slots: seq<Slot>, f: Field, s: Slot)
    requires Rising(slots) && s in slots && Decides(n, eff, s, f)
    ensures var m := PatchedBy(n, n, eff, slots); f in m.fields && m.fields[f] == Chosen(n, eff, s).fields[f]
    decreases |slots|
  {
    var last := |slots| - 1;
    if slots[last] != s {
      assert s in slots[..last];
      assert !Sets(n, eff, slots[last], f);
      FieldSet(n, eff, slots[..last], f, s);
    }
  }

  lemma {:induction false} FieldKept(n: Node, eff: map<Slot, Value>, slots: seq<Slot>, f: Field)
    requires forall s :: !Sets(n, eff, s, f)
    ensures var m := PatchedBy(n, n, eff, slots);
            (f in m.fields <==> f in n.fields) && (f in n.fields ==> m.fields[f] == n.fields[f])
    decreases |slots|
  {
    if slots != [] {
      FieldKept(n, eff, slots[..|slots| - 1], f);
      assert !Sets(n, eff, slots[|slots| - 1], f);
    }
  }

  lemma {:induction false} AfterSet(n: Node, eff: map<Slot, Value>, slots: seq<Slot>, s: Slot)
    requires Rising(slots) && s in slots && DecidesAfter(n, eff, s)
    ensures PatchedBy(n, n, eff, slots).after == Chosen(n, eff, s).after.value
    decreases |slots|
  {
    var last := |slots| - 1;
    if slots[last] != s {
      assert s in slots[..last];
      assert !Rewires(n, eff, slots[last]);
      AfterSet(n, eff, slots[..last], s);
    }
  }

  lemma {:induction false} AfterKept(n: Node, eff: map<Slot, Value>, slots: seq<Slot>)
    requires forall s :: !Rewires(n, eff, s)
    ensures PatchedBy(n, n, eff, slots).after == n.after
    decreases |slots|
  {
    if slots != [] {
      AfterKept(n, eff, slots[..|slots| - 1]);
      assert !Rewires(n, eff, slots[|slots| - 1]);
    }
  }

  predicate Renames(n: Node, eff: map<Slot, Value>, s: Slot) { Chooses(n, eff, s) && Chosen(n, eff, s).id.Some? }

  ghost predicate DecidesId(n: Node, eff: map<Slot, Value>, s: Slot) {
    Renames(n, eff, s) && forall t :: Renames(n, eff, t) ==> t <= s
  }

  lemma {:induction false} IdSet(n: Node, eff: map<Slot, Value>, slots: seq<Slot>, s: Slot)
    requires Rising(slots) && s in slots && DecidesId(n, eff, s)
    ensures PatchedBy(n, n, eff, slots).id == Chosen(n, eff, s).id.value
    decreases |slots|
  {
    var last := |slots| - 1;
    if slots[last] != s {
      assert s in slots[..last];
      assert !Renames(n, eff, slots[last]);
      IdSet(n, eff, slots[..last], s);
    }
  }

  lemma {:induction false} IdKept(n: Node, eff: map<Slot, Value>, slots: seq<Slot>)
    requires forall s :: !Renames(n, eff, s)
    ensures PatchedBy(n, n, eff, slots).id == n.id
    decreases |slots|
  {
    if slots != [] {
      IdKept(n, eff, slots[..|slots| - 1]);
      assert !Renames(n, eff, slots[|slots| - 1]);
    }
  }

  /** However many patches apply, a field is the one the highest slot sets, or untouched. */
  lemma HighestSlotDecidesField(n: Node, eff: map<Slot, Value>, f: Field)
    ensures var m := Concrete(n, eff);
            && (forall s :: Decides(n, eff, s, f) ==> f in m.fields && m.fields[f] == Chosen(n, eff, s).fields[f])
            && ((forall s :: !Sets(n, eff, s, f)) ==>
                  (f in m.fields <==> f in n.fields) && (f in n.fields ==> m.fields[f] == n.fields[f]))
  {
    var slots := Sorted(n.cases.Keys);
    forall s | Decides(n, eff, s, f)
      ensures f in Concrete(n, eff).fields && Concrete(n, eff).fields[f] == Chosen(n, eff, s).fields[f]
    {
      FieldSet(n, eff, slots, f, s);
    }
    if forall s :: !Sets(n, eff, s, f) { FieldKept(n, eff, slots, f); }
  }

  /** So is `after`. */
  lemma HighestSlotDecidesAfter(n: Node, eff: map<Slot, Value>)
    ensures forall s :: DecidesAfter(n, eff, s) ==> Concrete(n, eff).after == Chosen(n, eff, s).after.value
    ensures (forall s :: !Rewires(n, eff, s)) ==> Concrete(n, eff).after == n.after
  {
    var slots := Sorted(n.cases.Keys);
    forall s | DecidesAfter(n, eff, s) ensures Concrete(n, eff).after == Chosen(n, eff, s).after.value {
      AfterSet(n, eff, slots, s);
    }
    if forall s :: !Rewires(n, eff, s) { AfterKept(n, eff, slots); }
  }

  /** And the id. */
  lemma HighestSlotDecidesId(n: Node, eff: map<Slot, Value>)
    ensures forall s :: DecidesId(n, eff, s) ==> Concrete(n, eff).id == Chosen(n, eff, s).id.value
    ensures (forall s :: !Renames(n, eff, s)) ==> Concrete(n, eff).id == n.id
  {
    var slots := Sorted(n.cases.Keys);
    forall s | DecidesId(n, eff, s) ensures Concrete(n, eff).id == Chosen(n, eff, s).id.value {
      IdSet(n, eff, slots, s);
    }
    if forall s :: !Renames(n, eff, s) { IdKept(n, eff, slots); }
  }

  /** Some slot decides `after` when one sets it. */
  lemma {:induction false} HighestRewirer(n: Node, eff: map<Slot, Value>, slots: seq<Slot>) returns (s: Slot)
    requires Rising(slots) && exists t :: t in slots && Rewires(n, eff, t)
    ensures s in slots && Rewires(n, eff, s) && forall t :: t in slots && Rewires(n, eff, t) ==> t <= s
    decreases |slots|
  {
    var last := |slots| - 1;
    assert forall t :: t in slots <==> t in slots[..last] || t == slots[last];
    if Rewires(n, eff, slots[last]) {
      s := slots[last];
    } else {
      s := HighestRewirer(n, eff, slots[..last]);
    }
  }

  /**
   No dependency of a shipped node points at a removed one, if and only if the patch that
   decides its `after`, should there be one, names none.
  */
  lemma DependenciesShipToo(nodes: seq<Node>, eff: map<Slot, Value>, i: nat)
    requires i < |nodes| && nodes[i].id !in Removed(nodes, eff)
    ensures (forall a :: a in Concrete(nodes[i], eff).after ==> a !in Removed(nodes, eff)) <==>
            (forall s, a :: DecidesAfter(nodes[i], eff, s) && a in Chosen(nodes[i], eff, s).after.value ==>
               a !in Removed(nodes, eff))
  {
    var n := nodes[i];
    var slots := Sorted(n.cases.Keys);
    HighestSlotDecidesAfter(n, eff);
    if s :| Rewires(n, eff, s) {
      assert s in slots;
      var top := HighestRewirer(n, eff, slots);
      assert DecidesAfter(n, eff, top);
    } else {
      OwnDependenciesSurvive(nodes, eff, i);
    }
  }

  lemma OwnDependenciesSurvive(nodes: seq<Node>, eff: map<Slot, Value>, i: nat)
    requires i < |nodes| && nodes[i].id !in Removed(nodes, eff)
    ensures forall a :: a in nodes[i].after ==> a !in Removed(nodes, eff)
  {
    SurvivorsStandOnSurvivors(nodes, eff, i);
    forall a | a in nodes[i].after ensures a !in Removed(nodes, eff) {
      EdgeOf(Links(nodes), i, a);
      Here(After(nodes), a);
      Further(After(nodes), nodes[i].id, a, a);
      assert forall j :: 0 <= j < |nodes| && nodes[j].id == a ==> nodes[j].id !in Removed(nodes, eff);
    }
  }

  // ---------------------------------------------------------------- what a launch is refused for --

  /** The value a slot stands for: the supplied text its declaration takes, else a knob's default. */
  predicate Means(p: map<Slot, Kind>, keys: map<Slot, Bound>, s: Slot, t: Value) {
    && s in p
    && if s in keys && keys[s].Text? && (p[s].Tune? ==> keys[s].text in p[s].domain) then keys[s] == Text(t)
       else p[s].Tune? && p[s].default == Some(t)
  }

  lemma EffectiveMeans(p: map<Slot, Kind>, keys: map<Slot, Bound>, s: Slot, t: Value)
    ensures s in Effective(p, keys) && Effective(p, keys)[s] == t <==> Means(p, keys, s, t)
  {
  }

  lemma MeansSomething(p: map<Slot, Kind>, keys: map<Slot, Bound>, s: Slot)
    ensures (exists t :: Means(p, keys, s, t)) <==> s in Effective(p, keys)
  {
    forall t { EffectiveMeans(p, keys, s, t); }
    if s in Effective(p, keys) { assert Means(p, keys, s, Effective(p, keys)[s]); }
  }

  /** Every `where` at the node and above it allows what its slot stands for. */
  ghost predicate Allowed(p: map<Slot, Kind>, nodes: seq<Node>, keys: map<Slot, Bound>, x: Id) {
    forall j :: 0 <= j < |nodes| && nodes[j].guard.Some? && Reaches(After(nodes), x, nodes[j].id) ==>
      exists t :: t in nodes[j].guard.value.allowed && Means(p, keys, nodes[j].guard.value.param, t)
  }

  /** A node stays if and only if every `where` at it and above it allows what its slot stands for. */
  lemma StaysIffAllowed(p: map<Slot, Kind>, nodes: seq<Node>, keys: map<Slot, Bound>, i: nat)
    requires i < |nodes|
    ensures nodes[i].id !in Removed(nodes, Effective(p, keys)) <==> Allowed(p, nodes, keys, nodes[i].id)
  {
    var eff := Effective(p, keys);
    var x := nodes[i].id;
    forall j | 0 <= j < |nodes|
      ensures Fails(nodes[j], eff) <==>
              && nodes[j].guard.Some?
              && !exists t :: t in nodes[j].guard.value.allowed && Means(p, keys, nodes[j].guard.value.param, t)
    {
      GuardFails(p, nodes[j], keys);
    }
    assert Doomed(nodes, eff, x) <==> !Allowed(p, nodes, keys, x);
  }

  lemma GuardFails(p: map<Slot, Kind>, n: Node, keys: map<Slot, Bound>)
    ensures Fails(n, Effective(p, keys)) <==>
            && n.guard.Some?
            && !exists t :: t in n.guard.value.allowed && Means(p, keys, n.guard.value.param, t)
  {
    if n.guard.Some? {
      forall t { EffectiveMeans(p, keys, n.guard.value.param, t); }
    }
  }

  /** The text of some node that ships refers to the slot. */
  ghost predicate Referred(p: map<Slot, Kind>, nodes: seq<Node>, keys: map<Slot, Bound>, refs: Refs, s: Slot) {
    var eff := Effective(p, keys);
    exists i :: 0 <= i < |nodes| && Allowed(p, nodes, keys, nodes[i].id) && s in refs(Concrete(nodes[i], eff))
  }

  lemma ReferredIsInTheText(p: map<Slot, Kind>, nodes: seq<Node>, keys: map<Slot, Bound>, refs: Refs, s: Slot)
    ensures var eff := Effective(p, keys);
            s in RefsOf(Materialized(nodes, Removed(nodes, eff), eff), refs) <==> Referred(p, nodes, keys, refs, s)
  {
    var eff := Effective(p, keys);
    var removed := Removed(nodes, eff);
    var final := Materialized(nodes, removed, eff);
    var at := Origins(nodes, removed, 0);
    assert nodes[0..] == nodes;
    ShipsTheSurvivors(nodes, removed, eff, 0);
    if i :| 0 <= i < |nodes| && Allowed(p, nodes, keys, nodes[i].id) && s in refs(Concrete(nodes[i], eff)) {
      StaysIffAllowed(p, nodes, keys, i);
      var k :| 0 <= k < |at| && at[k] == i;
      assert final[k] == Concrete(nodes[i], eff);
    }
    if k :| 0 <= k < |final| && s in refs(final[k]) {
      StaysIffAllowed(p, nodes, keys, at[k]);
      assert final[k] == Concrete(nodes[at[k]], eff);
    }
  }

  ghost predicate SomethingShips(p: map<Slot, Kind>, nodes: seq<Node>, keys: map<Slot, Bound>) {
    exists i :: 0 <= i < |nodes| && Allowed(p, nodes, keys, nodes[i].id)
  }

  lemma ShipsUnlessEmpty(p: map<Slot, Kind>, nodes: seq<Node>, keys: map<Slot, Bound>)
    ensures var eff := Effective(p, keys);
            Materialized(nodes, Removed(nodes, eff), eff) != [] <==> SomethingShips(p, nodes, keys)
  {
    var eff := Effective(p, keys);
    var removed := Removed(nodes, eff);
    var at := Origins(nodes, removed, 0);
    assert nodes[0..] == nodes;
    ShipsTheSurvivors(nodes, removed, eff, 0);
    if i :| 0 <= i < |nodes| && Allowed(p, nodes, keys, nodes[i].id) {
      StaysIffAllowed(p, nodes, keys, i);
      assert i in at;
    }
    if at != [] { StaysIffAllowed(p, nodes, keys, at[0]); }
  }

  /** The slot drives a `where` or a `by`. */
  ghost predicate Steers(nodes: seq<Node>, s: Slot) {
    exists k :: 0 <= k < |nodes| && (s in nodes[k].cases || exists allowed :: nodes[k].guard == Some(Where(s, allowed)))
  }

  lemma GatesSteer(nodes: seq<Node>, s: Slot)
    ensures s in Gates(nodes) <==> Steers(nodes, s)
  {
    forall k | 0 <= k < |nodes|
      ensures (nodes[k].guard.Some? && nodes[k].guard.value.param == s) <==>
              exists allowed :: nodes[k].guard == Some(Where(s, allowed))
    {
      if nodes[k].guard.Some? {
        var w := nodes[k].guard.value;
        assert nodes[k].guard == Some(Where(w.param, w.allowed));
      }
    }
  }

  /** A key is refused for being undeclared, for being no text, or for a text outside its knob's domain. */
  lemma KeyIsRefusedFor(p: map<Slot, Kind>, nodes: seq<Node>, keys: map<Slot, Bound>, refs: Refs, s: Slot)
    ensures Defect(p, nodes, keys, refs, Violation(Some(s), NoSuchSlot)) <==> s in keys && s !in p
    ensures Defect(p, nodes, keys, refs, Violation(Some(s), NotText)) <==> s in keys && s in p && keys[s] == Unusable
    ensures Defect(p, nodes, keys, refs, Violation(Some(s), OutsideDomain)) <==>
            s in keys && s in p && p[s].Tune? && keys[s].Text? && keys[s].text !in p[s].domain
  {
  }

  /** A slot with a value is refused when no text that ships refers to it, unless it is a knob that steers. */
  lemma ValueIsRefusedFor(p: map<Slot, Kind>, nodes: seq<Node>, keys: map<Slot, Bound>, refs: Refs, s: Slot)
    ensures Defect(p, nodes, keys, refs, Violation(Some(s), NeverBound)) <==>
            && SomethingShips(p, nodes, keys) && (exists t :: Means(p, keys, s, t))
            && !Referred(p, nodes, keys, refs, s) && (p[s].Tune? ==> !Steers(nodes, s))
  {
    MeansSomething(p, keys, s);
    ShipsUnlessEmpty(p, nodes, keys);
    ReferredIsInTheText(p, nodes, keys, refs, s);
    GatesSteer(nodes, s);
  }

  /** A pin is refused when a text that ships refers to it and the launch passes no usable text for it. */
  lemma PinIsRefusedFor(p: map<Slot, Kind>, nodes: seq<Node>, keys: map<Slot, Bound>, refs: Refs, s: Slot)
    ensures Defect(p, nodes, keys, refs, Violation(Some(s), UnboundPin)) <==>
            && s in p && p[s].Pin? && (s in keys ==> keys[s].Unusable?) && Referred(p, nodes, keys, refs, s)
  {
    ShipsUnlessEmpty(p, nodes, keys);
    ReferredIsInTheText(p, nodes, keys, refs, s);
  }

  /** The launch as a whole is refused when nothing ships; there is no other ground. */
  lemma NothingElseIsRefused(p: map<Slot, Kind>, nodes: seq<Node>, keys: map<Slot, Bound>, refs: Refs, v: Violation)
    requires v.slot.None? || v.why in {SeedBinding, NothingLeft}
    ensures Defect(p, nodes, keys, refs, v) <==> v == Violation(None, NothingLeft) && !SomethingShips(p, nodes, keys)
  {
    ShipsUnlessEmpty(p, nodes, keys);
  }

  // ---------------------------------------------------------------- the contract --

  /** A launch nothing is wrong with. */
  ghost predicate Sound(p: map<Slot, Kind>, nodes: seq<Node>, keys: map<Slot, Bound>, refs: Refs) {
    forall v :: !Defect(p, nodes, keys, refs, v)
  }

  /** A sound launch stamps every supplied value as supplied, fills only defaults, and keeps knobs in their domains. */
  lemma StampIsTotal(p: map<Slot, Kind>, nodes: seq<Node>, keys: map<Slot, Bound>, refs: Refs)
    requires Sound(p, nodes, keys, refs)
    requires forall s :: s in p && Defaulted(p[s]) ==> p[s].default.value in p[s].domain
    ensures var eff := Effective(p, keys);
            && (forall s :: s in keys ==> s in p && s in eff && keys[s] == Text(eff[s]))
            && (forall s :: s in eff ==> s in p && (s in keys || p[s] == Tune(p[s].domain, Some(eff[s]))))
            && (forall s :: s in eff && p[s].Tune? ==> eff[s] in p[s].domain)
  {
    forall s | s in keys ensures s in p && Supplied(p, keys, s) {
      assert !Defect(p, nodes, keys, refs, Violation(Some(s), NoSuchSlot));
      assert !Defect(p, nodes, keys, refs, Violation(Some(s), NotText));
      assert !Defect(p, nodes, keys, refs, Violation(Some(s), OutsideDomain));
    }
  }

  /**
   A sound launch ships at least one node; every pin its text refers to is bound, a referred
   slot left unbound is a knob without a default, and every bound slot is referred to or gates.
  */
  lemma EveryValueIsUsed(p: map<Slot, Kind>, nodes: seq<Node>, keys: map<Slot, Bound>, refs: Refs, s: Slot)
    requires Sound(p, nodes, keys, refs) && s in p
    ensures var eff := Effective(p, keys); var final := Materialized(nodes, Removed(nodes, eff), eff);
            && final != []
            && (s in RefsOf(final, refs) && s !in eff ==> s !in keys && !p[s].Pin? && !Defaulted(p[s]))
            && (s in eff ==> s in RefsOf(final, refs) || (p[s].Tune? && s in Gates(nodes)))
  {
    var eff := Effective(p, keys);
    var final := Materialized(nodes, Removed(nodes, eff), eff);
    assert !Defect(p, nodes, keys, refs, Violation(None, NothingLeft));
    assert !Defect(p, nodes, keys, refs, Violation(Some(s), NeverBound));
    assert !Defect(p, nodes, keys, refs, Violation(Some(s), UnboundPin));
    if s in keys {
      assert !Defect(p, nodes, keys, refs, Violation(Some(s), NotText));
      assert !Defect(p, nodes, keys, refs, Violation(Some(s), OutsideDomain));
    }
  }

  /** The concrete graph leaves nothing to decide: under any binding it materializes to itself. */
  lemma ConcreteIsFinal(nodes: seq<Node>, removed: set<Id>, eff: map<Slot, Value>, other: map<Slot, Value>)
    ensures var final := Materialized(nodes, removed, eff); Materialized(final, Removed(final, other), other) == final
  {
    var final := Materialized(nodes, removed, eff);
    Seamless(nodes, removed, eff);
    assert Removed(final, other) == {};
    SeamlessShipsAsIs(final, other);
  }

  predicate Seams(n: Node) { n.guard.Some? || n.cases != map[] }

  lemma {:induction false} Seamless(nodes: seq<Node>, removed: set<Id>, eff: map<Slot, Value>)
    ensures forall i :: 0 <= i < |Materialized(nodes, removed, eff)| ==> !Seams(Materialized(nodes, removed, eff)[i])
  {
    if nodes != [] { Seamless(nodes[1..], removed, eff); }
  }

  lemma {:induction false} SeamlessShipsAsIs(nodes: seq<Node>, eff: map<Slot, Value>)
    requires forall i :: 0 <= i < |nodes| ==> !Seams(nodes[i])
    ensures Materialized(nodes, {}, eff) == nodes
  {
    if nodes != [] {
      SeamlessShipsAsIs(nodes[1..], eff);
      assert Sorted(nodes[0].cases.Keys) == [];
    }
  }
}
