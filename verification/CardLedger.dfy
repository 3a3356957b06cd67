/**
 The pending-card ledger: a JSON file that other processes also rewrite, and an in-process
 mirror of it that is trusted only while the file's (mtime, size) stamp stands still.

 The class below is proved against functions on the decoded file, and those against a plain
 map from (session, run) to entry.  How the file system behaves is an argument of each call.
*/
module CardLedger {
  import opened Wrappers

  type Session = int
  type Run = int
  type Stamp = int

  datatype CardState = Pending | Held
  datatype Entry = Entry(state: CardState, ts: int, name: string)

  type Data = map<Session, map<Run, Entry>>

  /** A file is decodable JSON of the right shape, or `_load` reads it as empty. */
  datatype Content = Json(data: Data) | Unusable
  datatype File = File(content: Content, stamp: Stamp)
  datatype Mirror = Mirror(stamp: Stamp, data: Data)

  /** What the file system does to the reading half of one call. */
  datatype Access = Works | StatFails | ReadFails
  /** And to the writing half; `Unstamped` is a write that landed but could not be stat'ed. */
  datatype Fate = Lands | WriteFails | Unstamped

  function View(file: Option<File>): Data {
    if file.Some? && file.value.content.Json? then file.value.content.data else map[]
  }

  predicate Hit(file: File, mirror: Option<Mirror>) {
    mirror.Some? && mirror.value.stamp == file.stamp
  }

  /** `_load` */
  function Loaded(file: Option<File>, mirror: Option<Mirror>, access: Access): Data {
    if file.None? || access.StatFails? then map[]
    else if Hit(file.value, mirror) then mirror.value.data
    else if access.ReadFails? then map[]
    else View(file)
  }

  /** The mirror `_load` leaves behind. */
  function Refreshed(file: Option<File>, mirror: Option<Mirror>, access: Access): Option<Mirror> {
    if access.StatFails? then mirror
    else if file.None? then None
    else if Hit(file.value, mirror) then mirror
    else if access.ReadFails? || file.value.content.Unusable? then None
    else Some(Mirror(file.value.stamp, file.value.content.data))
  }

  // ---------------------------------------------------------------- the three edits --

  function RunsIn(d: Data, s: Session): map<Run, Entry> {
    if s in d then d[s] else map[]
  }

  /** `for sess in [... if not runs]: del data[sess]` */
  function Pruned(d: Data): Data {
    map s | s in d && d[s] != map[] :: d[s]
  }

  function Renewed(old_: Option<Entry>, state: CardState, name: string, now: int): Entry {
    if old_.None? then Entry(state, now, name)
    else Entry(state, old_.value.ts, if name != "" then name else old_.value.name)
  }

  function Lookup(d: Data, s: Session, r: Run): Option<Entry> {
    if s in d && r in d[s] then Some(d[s][r]) else None
  }

  /** The closure inside `add`. */
  function Added(d: Data, s: Session, r: Run, state: CardState, name: string, now: int): Data {
    d[s := RunsIn(d, s)[r := Renewed(Lookup(d, s, r), state, name, now)]]
  }

  /** The closures inside `set_state` and `drop`; None is their `return False`. */
  function Moved(d: Data, s: Session, r: Run, state: CardState): Option<Data> {
    match Lookup(d, s, r)
    case None => None
    case Some(e) => if e.state == state then None else Some(d[s := d[s][r := e.(state := state)]])
  }

  function Dropped(d: Data, s: Session, r: Run): Option<Data> {
    if Lookup(d, s, r).None? then None else Some(d[s := d[s] - {r}])
  }

  /** What `_mutate` leaves in the file. */
  function Edited(d: Data, edit: Option<Data>): Data {
    if edit.None? then d else Pruned(edit.value)
  }

  // ---------------------------------------------------------------- whole calls --

  datatype Disk = Disk(file: Option<File>, mirror: Option<Mirror>)

  datatype Op =
    | AddOp(s: Session, r: Run, state: CardState, name: string, now: int)
    | MoveOp(s: Session, r: Run, state: CardState)
    | DropOp(s: Session, r: Run)

  /** What the call's closure makes of the data it is given; None writes nothing. */
  function EditOf(d: Data, op: Op): Option<Data> {
    match op
    case AddOp(s, r, state, name, now) => Some(Added(d, s, r, state, name, now))
    case MoveOp(s, r, state) => Moved(d, s, r, state)
    case DropOp(s, r) => Dropped(d, s, r)
  }

  /** A call writes nothing exactly when it moves or drops an entry that is not there, or moves one to where it is. */
  lemma EditsNothingIff(d: Data, op: Op)
    ensures EditOf(d, op).None? <==>
            || (op.DropOp? && Lookup(d, op.s, op.r).None?)
            || (op.MoveOp? && forall e :: Lookup(d, op.s, op.r) == Some(e) ==> e.state == op.state)
  {
  }

  /** `_save`: the file and its mirror, or neither. */
  function Saved(disk: Disk, data: Data, fate: Fate, stamp: Stamp): Disk {
    match fate
    case WriteFails => disk
    case Lands => Disk(Some(File(Json(data), stamp)), Some(Mirror(stamp, data)))
    case Unstamped => Disk(Some(File(Json(data), stamp)), None)
  }

  function Committed(disk: Disk, edit: Option<Data>, fate: Fate, stamp: Stamp): Disk {
    if edit.None? then disk else Saved(disk, Pruned(edit.value), fate, stamp)
  }

  /** One read-modify-write. */
  function Mutated(disk: Disk, op: Op, access: Access, fate: Fate, stamp: Stamp): Disk {
    Committed(Disk(disk.file, Refreshed(disk.file, disk.mirror, access)),
              EditOf(Loaded(disk.file, disk.mirror, access), op), fate, stamp)
  }

  /** A mirror that carries the file's stamp carries the file's data. */
  predicate Agrees(disk: Disk) {
    disk.file.Some? && Hit(disk.file.value, disk.mirror) ==> disk.file.value.content == Json(disk.mirror.value.data)
  }

  /**
   What the mirror a read leaves behind is worth to the next read of the same file: when that one
   cannot read, it still answers the file if the read before could or a trusted mirror stood already,
   and a read before that saw nothing has spoilt nothing.  A read that finds no file forgets the mirror.
  */
  lemma NextReadServes(file: Option<File>, mirror: Option<Mirror>, first: Access, second: Access)
    requires Agrees(Disk(file, mirror))
    ensures Loaded(file, Refreshed(file, mirror, first), second) ==
            if file.None? || second.StatFails? then map[]
            else if second.Works? || first.Works? || Hit(file.value, mirror) then View(file)
            else map[]
    ensures file.None? && !first.StatFails? ==> Refreshed(file, mirror, first) == None
    ensures Agrees(Disk(file, Refreshed(file, mirror, first)))
  {
  }

  // ---------------------------------------------------------------- the module state --

  class Ledger {
    var file: Option<File>
    var mirror: Option<Mirror>
    ghost var stamps: set<Stamp>    // every stamp the file ever showed

    function Abs(): Disk reads this { Disk(file, mirror) }

    ghost predicate Valid() reads this {
      && (file.Some? ==> file.value.stamp in stamps)
      && (mirror.Some? ==> mirror.value.stamp in stamps)
      && Agrees(Abs())
    }

    constructor ()
      ensures Valid() && file.None?
    {
      file, mirror, stamps := None, None, {};
    }

    /** Another process replaces or removes the file; a new file has a new stamp. */
    method Foreign(content: Option<Content>, stamp: Stamp)
      requires Valid() && stamp !in stamps
      modifies this
      ensures Valid() && mirror == old(mirror) && stamps == old(stamps) + {stamp}
      ensures file == if content.None? then None else Some(File(content.value, stamp))
    {
      file := if content.None? then None else Some(File(content.value, stamp));
      stamps := stamps + {stamp};
    }

    method Load(access: Access) returns (data: Data)
      requires Valid()
      modifies this`mirror
      ensures Valid()
      ensures data == Loaded(file, old(mirror), access) && mirror == Refreshed(file, old(mirror), access)
      ensures access.Works? ==> data == View(file)
    {
      if access.StatFails? { return map[]; }
      if file.None? {
        mirror := None;
        return map[];
      }
      if mirror.Some? && mirror.value.stamp == file.value.stamp { return mirror.value.data; }
      if access.ReadFails? || file.value.content.Unusable? {
        mirror := None;
        return map[];
      }
      mirror := Some(Mirror(file.value.stamp, file.value.content.data));
      return file.value.content.data;
    }

    /** `_save`; false is the raised OSError. */
    method Save(data: Data, fate: Fate, stamp: Stamp) returns (landed: bool)
      requires Valid() && stamp !in stamps
      modifies this
      ensures Valid() && landed == !fate.WriteFails? && stamps <= old(stamps) + {stamp}
      ensures Abs() == Saved(old(Abs()), data, fate, stamp)
    {
      if fate.WriteFails? { return false; }
      file := Some(File(Json(data), stamp));
      mirror := if fate.Unstamped? then None else Some(Mirror(stamp, data));
      stamps := stamps + {stamp};
      return true;
    }

    /** `_mutate` once its closure has run on a copy of the loaded data. */
    method Commit(edit: Option<Data>, fate: Fate, stamp: Stamp) returns (ok: bool)
      requires Valid() && stamp !in stamps
      modifies this
      ensures Valid() && stamps <= old(stamps) + {stamp}
      ensures ok == (edit.None? || !fate.WriteFails?)
      ensures Abs() == Committed(old(Abs()), edit, fate, stamp)
    {
      if edit.None? { return true; }
      ok := Save(Pruned(edit.value), fate, stamp);
    }

    method Add(s: Session, r: Run, state: CardState, name: string, now: int, access: Access, fate: Fate, stamp: Stamp)
      returns (ok: bool)
      requires Valid() && stamp !in stamps
      modifies this
      ensures Valid() && ok == !fate.WriteFails?
      ensures Abs() == Mutated(old(Abs()), AddOp(s, r, state, name, now), access, fate, stamp)
      ensures access.Works? && ok ==> View(file) == Pruned(Added(View(old(file)), s, r, state, name, now))
    {
      var data := Load(access);
      ok := Commit(Some(Added(data, s, r, state, name, now)), fate, stamp);
    }

    method SetState(s: Session, r: Run, state: CardState, access: Access, fate: Fate, stamp: Stamp) returns (ok: bool)
      requires Valid() && stamp !in stamps
      modifies this
      ensures Valid()
      ensures ok == (Moved(Loaded(old(file), old(mirror), access), s, r, state).None? || !fate.WriteFails?)
      ensures Abs() == Mutated(old(Abs()), MoveOp(s, r, state), access, fate, stamp)
      ensures access.Works? && ok ==> View(file) == Edited(View(old(file)), Moved(View(old(file)), s, r, state))
    {
      var data := Load(access);
      ok := Commit(Moved(data, s, r, state), fate, stamp);
    }

    method Drop(s: Session, r: Run, access: Access, fate: Fate, stamp: Stamp) returns (ok: bool)
      requires Valid() && stamp !in stamps
      modifies this
      ensures Valid()
      ensures ok == (Dropped(Loaded(old(file), old(mirror), access), s, r).None? || !fate.WriteFails?)
      ensures Abs() == Mutated(old(Abs()), DropOp(s, r), access, fate, stamp)
      ensures access.Works? && ok ==> View(file) == Edited(View(old(file)), Dropped(View(old(file)), s, r))
    {
      var data := Load(access);
      ok := Commit(Dropped(data, s, r), fate, stamp);
    }

    /** `entries`: one session's runs, newest first. */
    method Entries(s: Session, access: Access) returns (out: seq<Run>)
      requires Valid()
      modifies this`mirror
      ensures Valid() && mirror == Refreshed(file, old(mirror), access)
      ensures out == Newest(RunsIn(Loaded(file, old(mirror), access), s))
      ensures access.Works? ==> out == Newest(RunsIn(View(file), s))
    {
      var data := Load(access);
      out := [];
      var rest := RunsIn(data, s);
      while rest != map[]
        invariant Valid() && mirror == Refreshed(file, old(mirror), access)
        invariant Newest(RunsIn(data, s)) == out + Newest(rest)
        decreases |rest|
      {
        HasFirst(rest);
        var r :| r in rest && forall x :: x in rest && x != r ==> Before(rest, r, x);
        FirstComes(rest, r, out);
        out := out + [r];
        rest := rest - {r};
      }
    }
  }

  // ---------------------------------------------------------------- newest first --

  /** `sorted(..., key=(ts, run_id), reverse=True)` puts `a` before `b`. */
  predicate Before(runs: map<Run, Entry>, a: Run, b: Run)
    requires a in runs && b in runs
  {
    runs[a].ts > runs[b].ts || (runs[a].ts == runs[b].ts && a > b)
  }

  ghost predicate IsFirst(runs: map<Run, Entry>, r: Run) {
    r in runs && forall x :: x in runs && x != r ==> Before(runs, r, x)
  }

  lemma SomeKey<K, V>(m: map<K, V>) returns (k: K)
    requires m != map[]
    ensures k in m
  {
    k :| k in m;
  }

  lemma {:induction false} HasFirst(runs: map<Run, Entry>)
    requires runs != map[]
    ensures exists r :: IsFirst(runs, r)
    decreases |runs|
  {
    var a := SomeKey(runs);
    var rest := runs - {a};
    if rest == map[] {
      assert forall x :: x in runs && x != a ==> x in rest;
      assert IsFirst(runs, a);
    } else {
      HasFirst(rest);
      var b :| IsFirst(rest, b);
      assert forall x :: x in runs && x != a ==> x in rest;
      if Before(runs, a, b) { assert IsFirst(runs, a); } else { assert IsFirst(runs, b); }
    }
  }

  ghost function First(runs: map<Run, Entry>): (r: Run)
    requires runs != map[]
    ensures IsFirst(runs, r)
  {
    HasFirst(runs);
    var r :| IsFirst(runs, r);
    r
  }

  lemma FirstIsUnique(runs: map<Run, Entry>, r: Run)
    requires runs != map[] && IsFirst(runs, r)
    ensures First(runs) == r
  {
  }

  ghost function Newest(runs: map<Run, Entry>): seq<Run>
    decreases |runs|
  {
    if runs == map[] then [] else [First(runs)] + Newest(runs - {First(runs)})
  }

  lemma {:induction false} FirstComes(runs: map<Run, Entry>, r: Run, out: seq<Run>)
    requires runs != map[] && IsFirst(runs, r)
    ensures out + Newest(runs) == (out + [r]) + Newest(runs - {r}) && |runs - {r}| < |runs|
  {
    FirstIsUnique(runs, r);
    assert Newest(runs) == [r] + Newest(runs - {r});
    assert |runs - {r}| < |runs|;
  }

  lemma {:induction false} NewestHas(runs: map<Run, Entry>, x: Run)
    ensures x in Newest(runs) <==> x in runs
    decreases |runs|
  {
    if runs != map[] {
      var r := First(runs);
      NewestHas(runs - {r}, x);
      assert Newest(runs) == [r] + Newest(runs - {r});
    }
  }

  lemma {:induction false} NewestSize(runs: map<Run, Entry>)
    ensures |Newest(runs)| == |runs|
    decreases |runs|
  {
    if runs != map[] {
      var r := First(runs);
      NewestSize(runs - {r});
      assert runs.Keys == (runs - {r}).Keys + {r};
    }
  }

  lemma {:induction false} NewestOrder(runs: map<Run, Entry>, i: nat, j: nat)
    requires i < j < |Newest(runs)|
    ensures var s := Newest(runs); s[i] in runs && s[j] in runs && Before(runs, s[i], s[j])
    decreases |runs|
  {
    var r := First(runs);
    var rest := runs - {r};
    var s := Newest(rest);
    assert Newest(runs) == [r] + s;
    assert Newest(runs)[j] == s[j - 1];
    NewestHas(rest, s[j - 1]);
    if i > 0 {
      NewestOrder(rest, i - 1, j - 1);
      assert Newest(runs)[i] == s[i - 1];
    }
  }

  /** The order is a listing of the runs, each once, newest first. */
  lemma {:induction false} NewestLists(runs: map<Run, Entry>)
    ensures forall x :: x in Newest(runs) <==> x in runs
    ensures |Newest(runs)| == |runs|
    ensures forall i, j :: 0 <= i < j < |Newest(runs)| ==>
              Newest(runs)[i] in runs && Newest(runs)[j] in runs && Before(runs, Newest(runs)[i], Newest(runs)[j])
  {
    forall x ensures x in Newest(runs) <==> x in runs { NewestHas(runs, x); }
    NewestSize(runs);
    forall i, j | 0 <= i < j < |Newest(runs)|
      ensures Newest(runs)[i] in runs && Newest(runs)[j] in runs && Before(runs, Newest(runs)[i], Newest(runs)[j])
    {
      NewestOrder(runs, i, j);
    }
  }

  function Without(s: seq<Run>, gone: set<Run>): seq<Run> {
    if s == [] then []
    else if s[0] in gone then Without(s[1..], gone)
    else [s[0]] + Without(s[1..], gone)
  }

  lemma {:induction false} NewestWithout(runs: map<Run, Entry>, gone: set<Run>)
    ensures Newest(runs - gone) == Without(Newest(runs), gone)
    decreases |runs|
  {
    if runs == map[] {
      assert runs - gone == map[];
    } else {
      var r := First(runs);
      NewestWithout(runs - {r}, gone);
      if r in gone {
        assert (runs - {r}) - gone == runs - gone;
      } else {
        assert r in runs - gone;
        FirstIsUnique(runs - gone, r);
        assert (runs - gone) - {r} == (runs - {r}) - gone;
      }
    }
  }

  // ---------------------------------------------------------------- the plain map --

  type Plain = map<(Session, Run), Entry>

  ghost function FlatKeys(d: Data): set<(Session, Run)> {
    set s, r | s in d && r in d[s] :: (s, r)
  }

  ghost function Flat(d: Data): Plain {
    map k | k in FlatKeys(d) :: d[k.0][k.1]
  }
}
