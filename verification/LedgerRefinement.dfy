/**
 The ledger file with its mirror, under every history of local calls, failing reads and writes
 and foreign writes, is a plain map from (session, run) to entry.
*/
module LedgerRefinement {
  import opened Wrappers
  import opened CardLedger

  ghost predicate NoEmptySession(d: Data) {
    forall s :: s in d ==> d[s] != map[]
  }

  function In(p: Plain, k: (Session, Run)): Option<Entry> {
    if k in p then Some(p[k]) else None
  }

  lemma FlatHas(d: Data, s: Session, r: Run)
    ensures In(Flat(d), (s, r)) == Lookup(d, s, r)
  {
  }

  lemma SamePlain(d: Data, p: Plain)
    requires forall s, r :: In(p, (s, r)) == Lookup(d, s, r)
    ensures Flat(d) == p
  {
    forall k: (Session, Run) ensures In(p, k) == In(Flat(d), k) {
      assert k == (k.0, k.1);
      FlatHas(d, k.0, k.1);
    }
    forall k: (Session, Run) ensures k in p <==> k in Flat(d) {
      assert In(p, k) == In(Flat(d), k);
    }
    forall k: (Session, Run) | k in p ensures p[k] == Flat(d)[k] {
      assert In(p, k) == In(Flat(d), k);
    }
  }

  /** Pruning removes empty sessions and nothing else. */
  lemma {:induction false} PrunedIsFlat(d: Data)
    ensures NoEmptySession(Pruned(d)) && Flat(Pruned(d)) == Flat(d)
  {
    forall s, r ensures In(Flat(d), (s, r)) == Lookup(Pruned(d), s, r) { FlatHas(d, s, r); }
    SamePlain(Pruned(d), Flat(d));
  }

  lemma SameLookups(d: Data, e: Data, s: Session, r: Run)
    requires Flat(d) == Flat(e)
    ensures Lookup(d, s, r) == Lookup(e, s, r)
  {
    FlatHas(d, s, r);
    FlatHas(e, s, r);
  }

  lemma SameSession(d: Data, e: Data, s: Session)
    requires NoEmptySession(d) && Flat(d) == Flat(e) && s in d
    ensures s in e && d[s] == e[s]
  {
    var first := SomeKey(d[s]);
    SameLookups(d, e, s, first);
    forall r ensures Lookup(d, s, r) == Lookup(e, s, r) { SameLookups(d, e, s, r); }
    SameRuns(d[s], e[s], d, e, s);
  }

  lemma SameRuns(a: map<Run, Entry>, b: map<Run, Entry>, d: Data, e: Data, s: Session)
    requires s in d && s in e && a == d[s] && b == e[s]
    requires forall r :: Lookup(d, s, r) == Lookup(e, s, r)
    ensures a == b
  {
    forall r ensures (r in a <==> r in b) && (r in a ==> a[r] == b[r]) {
      assert Lookup(d, s, r) == Lookup(e, s, r);
    }
  }

  /** A file without empty sessions is determined by the plain map it stands for. */
  lemma FlatIsFaithful(d: Data, e: Data)
    requires NoEmptySession(d) && NoEmptySession(e) && Flat(d) == Flat(e)
    ensures d == e
  {
    forall s ensures s in d <==> s in e {
      if s in d { SameSession(d, e, s); }
      if s in e { SameSession(e, d, s); }
    }
    forall s | s in d ensures d[s] == e[s] { SameSession(d, e, s); }
  }

  // ---------------------------------------------------------------- one edit --

  /** What a call does to a plain map when its read works and its write lands: the first
      timestamp and a known name survive a second add, a move touches an existing entry only, a
      drop removes one entry. */
  function PlainEdit(p: Plain, op: Op): Plain {
    match op
    case AddOp(s, r, state, name, now) =>
      p[(s, r) := if (s, r) !in p then Entry(state, now, name)
                  else Entry(state, p[(s, r)].ts, if name != "" then name else p[(s, r)].name)]
    case MoveOp(s, r, state) => if (s, r) in p then p[(s, r) := p[(s, r)].(state := state)] else p
    case DropOp(s, r) => p - {(s, r)}
  }

  lemma AddedLookup(d: Data, op: Op, s: Session, r: Run)
    requires op.AddOp?
    ensures Lookup(EditOf(d, op).value, s, r) ==
            if s == op.s && r == op.r then Some(Renewed(Lookup(d, op.s, op.r), op.state, op.name, op.now))
            else Lookup(d, s, r)
  {
  }

  lemma AddRefines(d: Data, op: Op)
    requires op.AddOp?
    ensures Flat(EditOf(d, op).value) == PlainEdit(Flat(d), op)
  {
    var e := EditOf(d, op).value;
    FlatHas(d, op.s, op.r);
    forall s, r ensures In(PlainEdit(Flat(d), op), (s, r)) == Lookup(e, s, r) {
      FlatHas(d, s, r);
      AddedLookup(d, op, s, r);
    }
    SamePlain(e, PlainEdit(Flat(d), op));
  }

  lemma MoveRefines(d: Data, op: Op)
    requires op.MoveOp?
    ensures EditOf(d, op).None? ==> PlainEdit(Flat(d), op) == Flat(d)
    ensures EditOf(d, op).Some? ==> Flat(EditOf(d, op).value) == PlainEdit(Flat(d), op)
  {
    FlatHas(d, op.s, op.r);
    var e := GetOr(EditOf(d, op), d);
    forall s, r ensures In(PlainEdit(Flat(d), op), (s, r)) == Lookup(e, s, r) { FlatHas(d, s, r); }
    SamePlain(e, PlainEdit(Flat(d), op));
  }

  lemma DropRefines(d: Data, op: Op)
    requires op.DropOp?
    ensures EditOf(d, op).None? ==> PlainEdit(Flat(d), op) == Flat(d)
    ensures EditOf(d, op).Some? ==> Flat(EditOf(d, op).value) == PlainEdit(Flat(d), op)
  {
    FlatHas(d, op.s, op.r);
    var e := GetOr(EditOf(d, op), d);
    forall s, r ensures In(PlainEdit(Flat(d), op), (s, r)) == Lookup(e, s, r) { FlatHas(d, s, r); }
    SamePlain(e, PlainEdit(Flat(d), op));
  }

  /** An edit of the data is that edit of the plain map, and no edit is no change of it. */
  lemma EditRefines(d: Data, op: Op)
    ensures EditOf(d, op).None? ==> PlainEdit(Flat(d), op) == Flat(d)
    ensures EditOf(d, op).Some? ==> Flat(Pruned(EditOf(d, op).value)) == PlainEdit(Flat(d), op)
  {
    match op {
      case AddOp(_, _, _, _, _) => AddRefines(d, op);
      case MoveOp(_, _, _) => MoveRefines(d, op);
      case DropOp(_, _) => DropRefines(d, op);
    }
    if EditOf(d, op).Some? { PrunedIsFlat(EditOf(d, op).value); }
  }

  // ---------------------------------------------------------------- histories --

  datatype Event =
    | Local(op: Op, access: Access, fate: Fate, stamp: Stamp)
    | Read(access: Access)
    | Foreign(content: Option<Content>, stamp: Stamp)

  /** What each method of the ledger does to file and mirror. */
  function Next(disk: Disk, ev: Event): Disk {
    match ev
    case Local(op, access, fate, stamp) => Mutated(disk, op, access, fate, stamp)
    case Read(access) => Disk(disk.file, Refreshed(disk.file, disk.mirror, access))
    case Foreign(content, stamp) => Disk(if content.None? then None else Some(File(content.value, stamp)), disk.mirror)
  }

  function After(disk: Disk, evs: seq<Event>): Disk
    decreases |evs|
  {
    if evs == [] then disk else After(Next(disk, evs[0]), evs[1..])
  }

  /** Every write leaves a stamp the file never showed before. */
  ghost predicate Stamped(seen: set<Stamp>, evs: seq<Event>)
    decreases |evs|
  {
    evs != [] ==>
      if evs[0].Read? then Stamped(seen, evs[1..])
      else evs[0].stamp !in seen && Stamped(seen + {evs[0].stamp}, evs[1..])
  }

  ghost predicate Ok(disk: Disk, seen: set<Stamp>) {
    && Agrees(disk)
    && (disk.file.Some? ==> disk.file.value.stamp in seen)
    && (disk.mirror.Some? ==> disk.mirror.value.stamp in seen)
  }

  /** The call cannot see the file that is there: it goes on as if there was none. */
  predicate Blind(disk: Disk, access: Access) {
    disk.file.Some? && (access.StatFails? || (access.ReadFails? && !Hit(disk.file.value, disk.mirror)))
  }

  /** What the event is to a plain map. */
  datatype PlainEvent =
    | Edit(op: Op, blind: bool, landed: bool)
    | Nothing
    | Replace(p: Plain)

  ghost function Abstract(disk: Disk, ev: Event): PlainEvent {
    match ev
    case Local(op, access, fate, _) => Edit(op, Blind(disk, access), !fate.WriteFails?)
    case Read(_) => Nothing
    case Foreign(content, _) =>
      Replace(Flat(if content == None || content.value.Unusable? then map[] else content.value.data))
  }

  ghost function PlainNext(p: Plain, ev: PlainEvent): Plain {
    match ev
    case Nothing => p
    case Replace(q) => q
    case Edit(op, blind, landed) =>
      if !landed || (blind && !op.AddOp?) then p
      else PlainEdit(if blind then map[] else p, op)
  }

  ghost function Trace(disk: Disk, evs: seq<Event>): seq<PlainEvent>
    decreases |evs|
  {
    if evs == [] then [] else [Abstract(disk, evs[0])] + Trace(Next(disk, evs[0]), evs[1..])
  }

  ghost function PlainAfter(p: Plain, evs: seq<PlainEvent>): Plain
    decreases |evs|
  {
    if evs == [] then p else PlainAfter(PlainNext(p, evs[0]), evs[1..])
  }

  /** The mirror never misleads: a call that is not blind works on the file's data. */
  lemma LoadedIs(disk: Disk, access: Access)
    requires Agrees(disk)
    ensures Loaded(disk.file, disk.mirror, access) == if Blind(disk, access) then map[] else View(disk.file)
  {
  }

  lemma FlatOfNothing(d: Data)
    requires d == map[]
    ensures Flat(d) == map[]
  {
  }

  lemma LocalRefines(disk: Disk, ev: Event)
    requires Agrees(disk) && ev.Local?
    ensures Flat(View(Next(disk, ev).file)) == PlainNext(Flat(View(disk.file)), Abstract(disk, ev))
  {
    var d := Loaded(disk.file, disk.mirror, ev.access);
    LoadedIs(disk, ev.access);
    MutatedView(disk, ev.op, ev.access, ev.fate, ev.stamp);
    EditOnPlain(View(disk.file), d, ev.op, Blind(disk, ev.access));
  }

  lemma MutatedView(disk: Disk, op: Op, access: Access, fate: Fate, stamp: Stamp)
    ensures var edit := EditOf(Loaded(disk.file, disk.mirror, access), op);
            View(Mutated(disk, op, access, fate, stamp).file) ==
            if edit.None? || fate.WriteFails? then View(disk.file) else Pruned(edit.value)
  {
  }

  lemma EditOnPlain(view: Data, d: Data, op: Op, blind: bool)
    requires d == if blind then map[] else view
    ensures var edit := EditOf(d, op);
            Flat(if edit.None? then view else Pruned(edit.value)) == PlainNext(Flat(view), Edit(op, blind, true))
  {
    EditRefines(d, op);
    if blind {
      FlatOfNothing(d);
      if !op.AddOp? { NothingToEdit(d, op); }
    }
  }

  lemma NothingToEdit(d: Data, op: Op)
    requires d == map[] && !op.AddOp?
    ensures EditOf(d, op).None?
  {
    assert Lookup(d, op.s, op.r).None?;
  }

  lemma StepRefines(disk: Disk, ev: Event)
    requires Agrees(disk)
    ensures Flat(View(Next(disk, ev).file)) == PlainNext(Flat(View(disk.file)), Abstract(disk, ev))
  {
    match ev
    case Local(_, _, _, _) => LocalRefines(disk, ev);
    case Read(_) =>
    case Foreign(_, _) =>
  }

  lemma StepKeepsOk(disk: Disk, seen: set<Stamp>, ev: Event)
    requires Ok(disk, seen) && (!ev.Read? ==> ev.stamp !in seen)
    ensures Ok(Next(disk, ev), if ev.Read? then seen else seen + {ev.stamp})
  {
  }

  /** Every history of adds, moves, drops, reads and foreign writes, with any reads and writes
      failing, refines the plain map on which a call does its edit, does nothing when its write
      fails, and starts from nothing when it could not read. */
  lemma {:induction false} LedgerRefinesPlainMap(disk: Disk, seen: set<Stamp>, evs: seq<Event>)
    requires Ok(disk, seen) && Stamped(seen, evs)
    ensures Flat(View(After(disk, evs).file)) == PlainAfter(Flat(View(disk.file)), Trace(disk, evs))
    decreases |evs|
  {
    if evs != [] {
      var ev, next := evs[0], Next(disk, evs[0]);
      StepRefines(disk, ev);
      StepKeepsOk(disk, seen, ev);
      LedgerRefinesPlainMap(next, if ev.Read? then seen else seen + {ev.stamp}, evs[1..]);
      assert Trace(disk, evs)[1..] == Trace(next, evs[1..]);
    }
  }

  // ---------------------------------------------------------------- empty sessions --

  /** The file as it was last put there by somebody else. */
  function LastForeign(file: Option<File>, evs: seq<Event>): Option<File> {
    if evs == [] then file
    else
      var ev := evs[|evs| - 1];
      if ev.Foreign? then (if ev.content.None? then None else Some(File(ev.content.value, ev.stamp)))
      else LastForeign(file, evs[..|evs| - 1])
  }

  lemma {:induction false} AfterSnoc(disk: Disk, evs: seq<Event>)
    requires evs != []
    ensures After(disk, evs) == Next(After(disk, evs[..|evs| - 1]), evs[|evs| - 1])
    decreases |evs|
  {
    if |evs| > 1 {
      AfterSnoc(Next(disk, evs[0]), evs[1..]);
      assert evs[1..][..|evs| - 2] == evs[..|evs| - 1][1..];
    }
  }

  /** Whatever the file held before and whatever others put there: it is untouched since
      somebody else put it there, or it holds no empty session. */
  lemma {:induction false} SavedFileHasNoEmptySession(disk: Disk, evs: seq<Event>)
    ensures var file := After(disk, evs).file;
            file == LastForeign(disk.file, evs)
            || (file.Some? && file.value.content.Json? && NoEmptySession(View(file)))
    decreases |evs|
  {
    if evs != [] {
      AfterSnoc(disk, evs);
      SavedFileHasNoEmptySession(disk, evs[..|evs| - 1]);
    }
  }

  // ---------------------------------------------------------------- a blind write --

  /** A call that cannot read goes on from nothing, so a landed add keeps no other entry.  It
      still does what the plain map asks exactly when there was nothing else to keep, and the
      entry, if there was one, was one this very add would write. */
  lemma BlindAddForgets(disk: Disk, ev: Event)
    requires Agrees(disk) && ev.Local? && ev.op.AddOp? && Blind(disk, ev.access) && !ev.fate.WriteFails?
    ensures var p := Flat(View(disk.file)); var op := ev.op; var k := (op.s, op.r);
            Flat(View(Next(disk, ev).file)) == PlainEdit(p, op)
            <==> (forall x :: x in p ==> x == k)
                 && (k in p ==> p[k].ts == op.now && (op.name == "" ==> p[k].name == ""))
  {
    LocalRefines(disk, ev);
    BlindPlain(Flat(View(disk.file)), ev.op);
  }

  lemma BlindPlain(p: Plain, op: Op)
    requires op.AddOp?
    ensures var k := (op.s, op.r);
            PlainEdit(map[], op) == PlainEdit(p, op)
            <==> (forall x :: x in p ==> x == k)
                 && (k in p ==> p[k].ts == op.now && (op.name == "" ==> p[k].name == ""))
  {
    var k := (op.s, op.r);
    var after, blind := PlainEdit(p, op), PlainEdit(map[], op);
    assert blind == map[k := Entry(op.state, op.now, op.name)];
    assert after == p[k := after[k]];
    if blind == after {
      assert after[k] == blind[k];
      forall x | x in p ensures x == k { assert x in after; }
    } else if (forall x :: x in p ==> x == k) {
      assert after == map[k := after[k]];
    }
  }
}
