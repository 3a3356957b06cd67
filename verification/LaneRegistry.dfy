/**
 The lane section of `act_run` with `_lane_entry`, `_lane_state` and the write order of
 `_create_run`: doors race on the one registry file (and lock) a lane key hashes to, and any
 of them may crash after any write.

 Two keys may hash to one file, so an entry carries its key.  The legacy twin of the file is
 read when the resolved one is absent and is never written.
*/
module LaneRegistry {
  import opened Wrappers
  import opened Collections
  import opened Finite

  type DoorId = nat
  type RunId = nat
  type Key = nat

  datatype Entry = Entry(key: Key, run: RunId)

  /** A run directory: its three mandatory files, its runner, and its read-model verdict. */
  datatype RunDir = RunDir(graph: bool, meta: bool, wake: bool, spawned: bool, finished: bool) {
    predicate Complete() { graph && meta && wake }
  }

  datatype Result = Deduped(run: RunId) | Launched(run: RunId) | Collision | ProofFailed

  datatype Pc =
    | Start | Locked | EntryRead | MayCreate
    | DirMade | GraphWritten | MetaWritten | WakeWritten   // the writes of _create_run, in order
    | Registered | Proved | Spawned
    | Finished | Dead

  datatype Door = Door(pc: Pc, key: Key, entry: Option<Entry>, mine: RunId, result: Option<Result>)

  datatype State = State(
    registry: Option<Entry>,
    legacy: Option<Entry>,
    runs: map<RunId, RunDir>,
    lock: Option<DoorId>,
    doors: map<DoorId, Door>,
    used: set<RunId>,          // history: directory names ever made
    named: set<RunId>,         // history: runs an entry of this file ever named
    reopened: nat)             // history: how often a finished run became unfinished again

  datatype Step =
    | Acquire(d: DoorId, key: Key)
    | ReadEntry(d: DoorId)
    | Decide(d: DoorId)
    | MakeDir(d: DoorId, run: RunId)
    | WriteGraph(d: DoorId)
    | WriteMeta(d: DoorId)
    | WriteWake(d: DoorId)
    | Register(d: DoorId)
    | Prove(d: DoorId, synced: bool)
    | Spawn(d: DoorId)
    | Return(d: DoorId)
    | Crash(d: DoorId)
    | Finish(run: RunId)       // environment: a run reaches a terminal status
    | Reopen(run: RunId)       // environment: an amend makes it non-terminal again
    | Remove(run: RunId)       // environment: the directory is deleted from outside

  /** `_lane_entry`: the resolved file wins over the legacy one. */
  function Lookup(s: State): Option<Entry> {
    if s.registry.Some? then s.registry else s.legacy
  }

  /** `_lane_state(...)["unfinished"]`; a missing directory reads as orphaned, which is unfinished. */
  predicate Unfinished(s: State, run: RunId) {
    run !in s.runs || !s.runs[run].finished
  }

  predicate Live(s: State, run: RunId) {
    run in s.runs && !s.runs[run].finished
  }

  function DoorOf(s: State, d: DoorId): Door {
    if d in s.doors then s.doors[d] else Door(Start, 0, None, 0, None)
  }

  function At(s: State, d: DoorId, pc: Pc): State {
    s.(doors := s.doors[d := DoorOf(s, d).(pc := pc)])
  }

  function Answer(s: State, d: DoorId, r: Result): State {
    s.(doors := s.doors[d := DoorOf(s, d).(pc := Finished, result := Some(r))], lock := None)
  }

  function SetRun(s: State, run: RunId, dir: RunDir): State {
    s.(runs := s.runs[run := dir])
  }

  /** `_prove_run_dir`: every mandatory file is there and was synced. */
  predicate Proves(s: State, run: RunId, synced: bool) {
    synced && run in s.runs && s.runs[run].Complete()
  }

  function Do(s: State, step: Step): State {
    match step
    case Acquire(d, key) =>
      if DoorOf(s, d).pc != Start || s.lock.Some? then s else
        s.(doors := s.doors[d := DoorOf(s, d).(pc := Locked, key := key)], lock := Some(d))
    case ReadEntry(d) =>
      if DoorOf(s, d).pc != Locked then s else
        s.(doors := s.doors[d := DoorOf(s, d).(pc := EntryRead, entry := Lookup(s))])
    case Decide(d) =>
      var me := DoorOf(s, d);
      if me.pc != EntryRead then s
      else if me.entry.None? then At(s, d, MayCreate)
      else if me.entry.value.key != me.key then Answer(s, d, Collision)
      else if Unfinished(s, me.entry.value.run) then Answer(s, d, Deduped(me.entry.value.run))
      else At(s, d, MayCreate)
    case MakeDir(d, run) =>
      if DoorOf(s, d).pc != MayCreate || run in s.used then s else
        s.(doors := s.doors[d := DoorOf(s, d).(pc := DirMade, mine := run)],
           runs := s.runs[run := RunDir(false, false, false, false, false)], used := s.used + {run})
    case WriteGraph(d) =>
      var me := DoorOf(s, d);
      if me.pc != DirMade || me.mine !in s.runs then s else
        SetRun(At(s, d, GraphWritten), me.mine, s.runs[me.mine].(graph := true))
    case WriteMeta(d) =>
      var me := DoorOf(s, d);
      if me.pc != GraphWritten || me.mine !in s.runs then s else
        SetRun(At(s, d, MetaWritten), me.mine, s.runs[me.mine].(meta := true))
    case WriteWake(d) =>
      var me := DoorOf(s, d);
      if me.pc != MetaWritten || me.mine !in s.runs then s else
        SetRun(At(s, d, WakeWritten), me.mine, s.runs[me.mine].(wake := true))
    case Register(d) =>
      var me := DoorOf(s, d);
      if me.pc != WakeWritten then s else
        At(s, d, Registered).(registry := Some(Entry(me.key, me.mine)), named := s.named + {me.mine})
    case Prove(d, synced) =>
      var me := DoorOf(s, d);
      if me.pc != Registered then s
      else if Proves(s, me.mine, synced) then At(s, d, Proved)
      else Answer(s, d, ProofFailed)
    case Spawn(d) =>
      var me := DoorOf(s, d);
      if me.pc != Proved then s
      else if me.mine !in s.runs then At(s, d, Spawned)
      else SetRun(At(s, d, Spawned), me.mine, s.runs[me.mine].(spawned := true))
    case Return(d) =>
      var me := DoorOf(s, d);
      if me.pc != Spawned then s
      else Answer(s, d, if me.mine in s.runs then Launched(me.mine) else ProofFailed)
    case Crash(d) =>
      if DoorOf(s, d).pc in {Finished, Dead} then s else
        At(s, d, Dead).(lock := if s.lock == Some(d) then None else s.lock)
    case Finish(run) =>
      if run !in s.runs then s else SetRun(s, run, s.runs[run].(finished := true))
    case Reopen(run) =>
      if run !in s.runs || !s.runs[run].finished then s
      else SetRun(s, run, s.runs[run].(finished := false)).(reopened := s.reopened + 1)
    case Remove(run) =>
      s.(runs := s.runs - {run})
  }

  function Run(s: State, steps: seq<Step>): State
    decreases |steps|
  {
    if steps == [] then s else Run(Do(s, steps[0]), steps[1..])
  }

  /** A root before any door of this version ran: perhaps a legacy entry with its complete run. */
  ghost predicate Initial(s: State) {
    && s.registry.None? && s.lock.None? && s.doors == map[] && s.reopened == 0
    && (forall r :: r in s.runs ==> r in s.used)
    && s.named == (if s.legacy.Some? then {s.legacy.value.run} else {})
    && (s.legacy.Some? ==> s.legacy.value.run in s.runs && s.runs[s.legacy.value.run].Complete())
    && (forall r :: r in s.runs && s.runs[r].spawned ==> r in s.named)
  }

  // ---------------------------------------------------------------- invariants --

  predicate Critical(pc: Pc) { pc !in {Start, Finished, Dead} }
  predicate Building(pc: Pc) { pc in {DirMade, GraphWritten, MetaWritten, WakeWritten} }

  /** How much of its own directory a door in the middle of `_create_run` has written. */
  ghost predicate Written(me: Door, dir: RunDir) {
    && (me.pc in {GraphWritten, MetaWritten, WakeWritten} ==> dir.graph)
    && (me.pc in {MetaWritten, WakeWritten} ==> dir.meta)
    && (me.pc == WakeWritten ==> dir.wake)
    && !dir.spawned
  }

  /** The lock, and the entry read under it. */
  ghost predicate DoorLock(s: State, d: DoorId, me: Door) {
    && (Critical(me.pc) <==> s.lock == Some(d))
    && (me.pc in {EntryRead, MayCreate} || Building(me.pc) ==> me.entry == Lookup(s))
    && (me.pc == MayCreate || Building(me.pc) ==> me.entry.Some? ==> me.entry.value.key == me.key)
  }

  /** The directory under construction, registered only once complete. */
  ghost predicate DoorBuild(s: State, me: Door) {
    && (Building(me.pc) ==>
          && me.mine in s.used && me.mine !in s.named
          && (me.mine in s.runs ==> Written(me, s.runs[me.mine])))
    && (me.pc in {Registered, Proved, Spawned} ==> s.registry == Some(Entry(me.key, me.mine)))
  }

  ghost predicate DoorResult(s: State, me: Door) {
    me.result.Some? && (me.result.value.Deduped? || me.result.value.Launched?) ==> me.result.value.run in s.named
  }

  ghost predicate DoorOk(s: State, d: DoorId, me: Door) {
    DoorLock(s, d, me) && DoorBuild(s, me) && DoorResult(s, me)
  }

  ghost predicate RunsOk(s: State) {
    && (forall r :: r in s.runs ==> r in s.used)
    && (forall r :: r in s.named ==> r in s.used)
    && (forall r :: r in s.named && r in s.runs ==> s.runs[r].Complete())
    && (forall r :: r in s.runs && s.runs[r].spawned ==> r in s.named)
    && (Lookup(s).Some? ==> Lookup(s).value.run in s.named)
  }

  ghost predicate Inv(s: State) {
    && RunsOk(s)
    && (s.lock.Some? ==> s.lock.value in s.doors)
    && (forall d :: d in s.doors ==> DoorOk(s, d, s.doors[d]))
  }

  /** Some door has decided to create and has not registered its run yet. */
  ghost predicate Creating(s: State) {
    s.lock.Some? && s.lock.value in s.doors
    && (s.doors[s.lock.value].pc == MayCreate || Building(s.doors[s.lock.value].pc))
  }

  /** Registered runs that are live although the file names another run, or is about to. */
  ghost function Extra(s: State): set<RunId> {
    set r | r in s.named && InExtra(s, r)
  }

  /** The door a step belongs to; environment steps have none. */
  function Actor(step: Step): Option<DoorId> {
    if step.Finish? || step.Reopen? || step.Remove? then None else Some(step.d)
  }

  /** The directory the step's door builds, if it has one, is as its program counter says. */
  ghost predicate BuilderOk(s: State, step: Step) {
    Actor(step).Some? && Actor(step).value in s.doors ==> DoorBuild(s, s.doors[Actor(step).value])
  }

  lemma StepKeepsNames(s: State, step: Step)
    requires RunsOk(s) && BuilderOk(s, step)
    ensures var s' := Do(s, step);
            && (forall r :: r in s'.runs ==> r in s'.used) && (forall r :: r in s'.named ==> r in s'.used)
            && (Lookup(s').Some? ==> Lookup(s').value.run in s'.named)
  {
  }

  lemma StepKeepsComplete(s: State, step: Step)
    requires RunsOk(s) && BuilderOk(s, step)
    ensures var s' := Do(s, step);
            && (forall r :: r in s'.named && r in s'.runs ==> s'.runs[r].Complete())
            && (forall r :: r in s'.runs && s'.runs[r].spawned ==> r in s'.named)
  {
  }

  lemma StepKeepsRuns(s: State, step: Step)
    requires RunsOk(s) && BuilderOk(s, step)
    ensures RunsOk(Do(s, step))
  {
    StepKeepsNames(s, step);
    StepKeepsComplete(s, step);
  }

  /** The lock, as the step's door holds it or not. */
  ghost predicate LockerOk(s: State, step: Step) {
    Actor(step).Some? && Actor(step).value in s.doors ==>
      DoorLock(s, Actor(step).value, s.doors[Actor(step).value])
  }

  lemma StepKeepsActorCritical(s: State, step: Step)
    requires LockerOk(s, step) && Actor(step).Some? && (s.lock.Some? ==> s.lock.value in s.doors)
    ensures var d := step.d; var s' := Do(s, step);
            d in s'.doors ==> (Critical(s'.doors[d].pc) <==> s'.lock == Some(d))
  {
  }

  lemma StepKeepsActorEntry(s: State, step: Step)
    requires LockerOk(s, step) && Actor(step).Some?
    ensures var d := step.d; var s' := Do(s, step);
            d in s'.doors ==>
              var me := s'.doors[d];
              && (me.pc in {EntryRead, MayCreate} || Building(me.pc) ==> me.entry == Lookup(s'))
              && (me.pc == MayCreate || Building(me.pc) ==> me.entry.Some? ==> me.entry.value.key == me.key)
  {
  }

  lemma StepKeepsActorLock(s: State, step: Step)
    requires LockerOk(s, step) && Actor(step).Some? && (s.lock.Some? ==> s.lock.value in s.doors)
    ensures var d := step.d; var s' := Do(s, step); d in s'.doors ==> DoorLock(s', d, s'.doors[d])
  {
    StepKeepsActorCritical(s, step);
    StepKeepsActorEntry(s, step);
  }

  /** Steps of `_create_run`. */
  predicate Writes(step: Step) {
    step.MakeDir? || step.WriteGraph? || step.WriteMeta? || step.WriteWake?
  }

  lemma WriteKeepsBuild(s: State, step: Step)
    requires RunsOk(s) && BuilderOk(s, step) && Writes(step)
    ensures var d := step.d; var s' := Do(s, step); d in s'.doors ==> DoorBuild(s', s'.doors[d])
  {
  }

  lemma OtherKeepsBuild(s: State, step: Step)
    requires RunsOk(s) && BuilderOk(s, step) && Actor(step).Some? && !Writes(step)
    ensures var d := step.d; var s' := Do(s, step); d in s'.doors ==> DoorBuild(s', s'.doors[d])
  {
  }

  lemma StepKeepsActorBuild(s: State, step: Step)
    requires RunsOk(s) && BuilderOk(s, step) && Actor(step).Some?
    ensures var d := step.d; var s' := Do(s, step); d in s'.doors ==> DoorBuild(s', s'.doors[d])
  {
    if Writes(step) { WriteKeepsBuild(s, step); } else { OtherKeepsBuild(s, step); }
  }

  lemma StepKeepsActorResult(s: State, step: Step)
    requires RunsOk(s) && BuilderOk(s, step) && LockerOk(s, step) && Actor(step).Some?
    requires step.d in s.doors ==> DoorResult(s, s.doors[step.d])
    requires step.d in s.doors && s.doors[step.d].pc in {Registered, Proved, Spawned} ==>
               s.doors[step.d].mine in s.named
    ensures var d := step.d; var s' := Do(s, step); d in s'.doors ==> DoorResult(s', s'.doors[d])
  {
  }

  /** The door and the step's door are not both inside the lock. */
  lemma OtherKeepsLock(s: State, step: Step, d: DoorId)
    requires LockerOk(s, step) && d in s.doors && Actor(step) != Some(d) && DoorLock(s, d, s.doors[d])
    ensures DoorLock(Do(s, step), d, s.doors[d])
  {
  }

  lemma OtherDoorKeepsBuild(s: State, step: Step, d: DoorId)
    requires LockerOk(s, step) && BuilderOk(s, step) && d in s.doors && Actor(step) != Some(d)
    requires DoorLock(s, d, s.doors[d]) && DoorBuild(s, s.doors[d]) && RunsOk(s)
    ensures DoorBuild(Do(s, step), s.doors[d])
  {
  }

  lemma OtherKeepsResult(s: State, step: Step, d: DoorId)
    requires d in s.doors && DoorResult(s, s.doors[d])
    ensures DoorResult(Do(s, step), s.doors[d])
  {
  }

  lemma StepKeepsOther(s: State, step: Step, d: DoorId)
    requires Inv(s) && d in s.doors && Actor(step) != Some(d) && LockerOk(s, step) && BuilderOk(s, step)
    ensures DoorOk(Do(s, step), d, s.doors[d])
  {
    assert DoorOk(s, d, s.doors[d]);
    OtherKeepsLock(s, step, d);
    OtherDoorKeepsBuild(s, step, d);
    OtherKeepsResult(s, step, d);
  }

  lemma StepKeepsActor(s: State, step: Step)
    requires Inv(s) && Actor(step).Some?
    ensures var d := step.d; var s' := Do(s, step); d in s'.doors ==> DoorOk(s', d, s'.doors[d])
  {
    if step.d in s.doors { assert DoorOk(s, step.d, s.doors[step.d]); }
    StepKeepsActorLock(s, step);
    StepKeepsActorBuild(s, step);
    StepKeepsActorResult(s, step);
  }

  lemma StepKeepsInv(s: State, step: Step)
    requires Inv(s)
    ensures Inv(Do(s, step))
  {
    var s' := Do(s, step);
    if Actor(step).Some? && Actor(step).value in s.doors {
      assert DoorOk(s, Actor(step).value, s.doors[Actor(step).value]);
    }
    StepKeepsRuns(s, step);
    StepKeepsHolder(s, step);
    forall d | d in s'.doors ensures DoorOk(s', d, s'.doors[d]) {
      if Actor(step) == Some(d) {
        StepKeepsActor(s, step);
      } else {
        StepKeepsDoors(s, step);
        StepKeepsOther(s, step, d);
      }
    }
  }

  lemma StepKeepsHolder(s: State, step: Step)
    requires Inv(s)
    ensures var s' := Do(s, step); s'.lock.Some? ==> s'.lock.value in s'.doors
  {
  }

  /** A step changes no door but its own. */
  lemma StepKeepsDoors(s: State, step: Step)
    ensures var s' := Do(s, step);
            && (forall d :: d in s.doors ==> d in s'.doors)
            && (forall d :: d in s'.doors && Actor(step) != Some(d) ==> d in s.doors && s'.doors[d] == s.doors[d])
  {
  }

  ghost predicate InExtra(s: State, r: RunId) {
    r in s.named && Live(s, r) && (Lookup(s).None? || Lookup(s).value.run != r || Creating(s))
  }

  /** The door that registers was creating, so every live registered run counted already. */
  lemma RegisterInExtra(s: State, d: DoorId, r: RunId)
    requires RunsOk(s) && (d in s.doors ==> DoorLock(s, d, s.doors[d]) && DoorBuild(s, s.doors[d]))
    requires InExtra(Do(s, Register(d)), r)
    ensures InExtra(s, r)
  {
  }

  /** Only a decision to create starts creating. */
  lemma CreatingStays(s: State, step: Step)
    requires LockerOk(s, step) && (s.lock.Some? ==> s.lock.value in s.doors)
    requires !step.Decide? && Creating(Do(s, step))
    ensures Creating(s)
  {
  }

  /** A named run becomes live by a reopening only. */
  lemma LiveStays(s: State, step: Step, r: RunId)
    requires RunsOk(s) && BuilderOk(s, step) && !step.Register?
    requires r in Do(s, step).named && Live(Do(s, step), r)
    ensures r in s.named && Lookup(Do(s, step)) == Lookup(s)
    ensures Live(s, r) || (step == Reopen(r) && Do(s, step).reopened == s.reopened + 1)
  {
  }

  /** A decision to create finds the run the file names finished. */
  lemma DecideInExtra(s: State, d: DoorId, r: RunId)
    requires d in s.doors ==> DoorLock(s, d, s.doors[d])
    requires s.lock.Some? ==> s.lock.value in s.doors
    requires InExtra(Do(s, Decide(d)), r)
    ensures InExtra(s, r)
  {
  }

  lemma OtherInExtra(s: State, step: Step, r: RunId)
    requires RunsOk(s) && LockerOk(s, step) && BuilderOk(s, step)
    requires s.lock.Some? ==> s.lock.value in s.doors
    requires !step.Register? && !step.Decide? && InExtra(Do(s, step), r)
    ensures InExtra(s, r) || (step == Reopen(r) && Do(s, step).reopened == s.reopened + 1)
  {
    LiveStays(s, step, r);
    if Creating(Do(s, step)) { CreatingStays(s, step); }
  }

  lemma StepInExtra(s: State, step: Step, r: RunId)
    requires Inv(s) && InExtra(Do(s, step), r)
    ensures InExtra(s, r) || (step == Reopen(r) && Do(s, step).reopened == s.reopened + 1)
  {
    if Actor(step).Some? && Actor(step).value in s.doors {
      assert DoorOk(s, Actor(step).value, s.doors[Actor(step).value]);
    }
    match step
    case Register(d) => RegisterInExtra(s, d, r);
    case Decide(d) => DecideInExtra(s, d, r);
    case _ => OtherInExtra(s, step, r);
  }

  lemma ReopenedOnlyGrows(s: State, step: Step)
    ensures s.reopened <= Do(s, step).reopened <= s.reopened + 1
  {
  }

  /** Only a reopening adds to the live runs beside the one the file names. */
  lemma StepExtra(s: State, step: Step)
    requires Inv(s) && |Extra(s)| <= s.reopened
    ensures |Extra(Do(s, step))| <= Do(s, step).reopened
  {
    var s' := Do(s, step);
    ReopenedOnlyGrows(s, step);
    var added := if step.Reopen? && s'.reopened == s.reopened + 1 then {step.run} else {};
    forall r | r in Extra(s') ensures r in Extra(s) + added { StepInExtra(s, step, r); }
    SubsetSize(Extra(s'), Extra(s) + added);
  }

  lemma {:induction false} RunKeepsInv(s: State, steps: seq<Step>)
    requires Inv(s) && |Extra(s)| <= s.reopened
    ensures var s' := Run(s, steps); Inv(s') && |Extra(s')| <= s'.reopened
    decreases |steps|
  {
    if steps != [] {
      StepKeepsInv(s, steps[0]);
      StepExtra(s, steps[0]);
      RunKeepsInv(Do(s, steps[0]), steps[1..]);
    }
  }

  lemma InitialInv(s: State)
    requires Initial(s)
    ensures Inv(s) && Extra(s) == {}
  {
  }

  // ---------------------------------------------------------------- main results --

  /** Whatever crashed, the entry never names a run directory that lacks a mandatory file,
      and no runner was ever spawned for a run no entry named. */
  lemma EntryNamesACompleteRun(s0: State, steps: seq<Step>)
    requires Initial(s0)
    ensures var s := Run(s0, steps);
            && (Lookup(s).Some? ==>
                  Lookup(s).value.run in s.used
                  && (Lookup(s).value.run in s.runs ==>
                        var dir := s.runs[Lookup(s).value.run];
                        dir.graph && dir.meta && dir.wake))
            && (forall r :: r in s.runs && s.runs[r].spawned ==>
                  r in s.named && s.runs[r].graph && s.runs[r].meta && s.runs[r].wake)
  {
    InitialInv(s0);
    RunKeepsInv(s0, steps);
  }

  /** A door goes on to create exactly when the file names no run, or names a run of its own
      key that is finished at that moment; otherwise it gets the incumbent's id or the typed
      collision refusal.  Nobody else creates: only a door let through makes a directory. */
  lemma CreatesOnlyOverAFinishedRun(s0: State, steps: seq<Step>, d: DoorId)
    requires Initial(s0)
    ensures var s := Run(s0, steps); var s' := Do(s, Decide(d)); var now := Lookup(s);
            d in s.doors && s.doors[d].pc == EntryRead ==>
              && (s'.doors[d].pc == MayCreate <==>
                    || now.None?
                    || (now.value.key == s.doors[d].key && now.value.run in s.runs && s.runs[now.value.run].finished))
              && (now.Some? && now.value.key == s.doors[d].key && Unfinished(s, now.value.run) ==>
                    s'.doors[d].result == Some(Deduped(now.value.run)) && s'.lock.None?)
              && (now.Some? && now.value.key != s.doors[d].key ==>
                    s'.doors[d].result == Some(Collision) && s'.lock.None?)
    ensures var s := Run(s0, steps);
            forall r :: Do(s, MakeDir(d, r)).used != s.used ==> s.lock == Some(d) && s.doors[d].pc == MayCreate
  {
    InitialInv(s0);
    RunKeepsInv(s0, steps);
    var s := Run(s0, steps);
    if d in s.doors { assert DoorOk(s, d, s.doors[d]); }
  }

  /** A caller is only ever handed a run some entry named. */
  lemma AnswersNameRegisteredRuns(s0: State, steps: seq<Step>, d: DoorId)
    requires Initial(s0)
    ensures var s := Run(s0, steps);
            d in s.doors && s.doors[d].result.Some?
            && (s.doors[d].result.value.Deduped? || s.doors[d].result.value.Launched?) ==>
              s.doors[d].result.value.run in s.named
  {
    InitialInv(s0);
    RunKeepsInv(s0, steps);
    var s := Run(s0, steps);
    if d in s.doors { assert DoorOk(s, d, s.doors[d]); }
  }

  /** Registered runs that are unfinished at once: at most one more than there were reopenings.
      With finished runs staying finished, at most one; and only registered runs have runners. */
  lemma AtMostOneUnfinishedRun(s0: State, steps: seq<Step>)
    requires Initial(s0)
    ensures var s := Run(s0, steps);
            && |set r | r in s.named && Live(s, r)| <= 1 + s.reopened
            && (s.reopened == 0 ==>
                  forall a, b :: a in s.named && b in s.named && Live(s, a) && Live(s, b) ==> a == b)
  {
    InitialInv(s0);
    RunKeepsInv(s0, steps);
    var s := Run(s0, steps);
    var live := set r | r in s.named && Live(s, r);
    var current := if Lookup(s).Some? then {Lookup(s).value.run} else {};
    assert live <= Extra(s) + current;
    SubsetSize(live, Extra(s) + current);
    if s.reopened == 0 {
      assert Extra(s) == {};
      forall a, b | a in s.named && b in s.named && Live(s, a) && Live(s, b) ensures a == b {
        assert a in live && b in live;
      }
    }
  }

  // ---------------------------------------------------------------- a launch starts its runner --

  /** A door past its spawn, or answered with a launch, left a runner in the directory. */
  ghost predicate RunnerOk(s: State, me: Door) {
    && (me.pc == Spawned && me.mine in s.runs ==> s.runs[me.mine].spawned)
    && (me.result.Some? && me.result.value.Launched? && me.result.value.run in s.runs ==>
          s.runs[me.result.value.run].spawned)
  }

  ghost predicate RunnersOk(s: State) { forall d :: d in s.doors ==> RunnerOk(s, s.doors[d]) }

  /** A spawned runner is not undone, and a name once used is not made again. */
  lemma SpawnedStays(s: State, step: Step, r: RunId)
    requires r in s.used && r in Do(s, step).runs
    ensures r in s.runs && (s.runs[r].spawned ==> Do(s, step).runs[r].spawned)
  {
  }

  lemma OwnRunnerSpawned(s: State, step: Step)
    requires RunsOk(s) && Actor(step).Some? && (step.d in s.doors ==> DoorBuild(s, s.doors[step.d]))
    requires step.d in s.doors ==> RunnerOk(s, s.doors[step.d])
    ensures var s' := Do(s, step);
            step.d in s'.doors && s'.doors[step.d].pc == Spawned ==>
              var r := s'.doors[step.d].mine; r in s'.runs ==> s'.runs[r].spawned
  {
  }

  lemma OwnRunnerAnswered(s: State, step: Step)
    requires RunsOk(s) && Actor(step).Some?
    requires step.d in s.doors ==> DoorResult(s, s.doors[step.d]) && RunnerOk(s, s.doors[step.d])
    ensures var s' := Do(s, step);
            step.d in s'.doors && s'.doors[step.d].result.Some? && s'.doors[step.d].result.value.Launched? ==>
              var r := s'.doors[step.d].result.value.run; r in s'.runs ==> s'.runs[r].spawned
  {
    var s' := Do(s, step);
    if step.d in s.doors && s'.doors[step.d].result.Some? && s'.doors[step.d].result.value.Launched? {
      var r := s'.doors[step.d].result.value.run;
      if s'.doors[step.d].result == s.doors[step.d].result && r in s'.runs { SpawnedStays(s, step, r); }
    }
  }

  lemma StepKeepsOwnRunner(s: State, step: Step)
    requires RunsOk(s) && BuilderOk(s, step) && Actor(step).Some?
    requires step.d in s.doors ==> DoorResult(s, s.doors[step.d]) && RunnerOk(s, s.doors[step.d])
    ensures var s' := Do(s, step); step.d in s'.doors ==> RunnerOk(s', s'.doors[step.d])
  {
    OwnRunnerSpawned(s, step);
    OwnRunnerAnswered(s, step);
  }

  lemma StepKeepsRunners(s: State, step: Step)
    requires Inv(s) && RunnersOk(s)
    ensures RunnersOk(Do(s, step))
  {
    var s' := Do(s, step);
    StepKeepsDoors(s, step);
    forall d | d in s'.doors ensures RunnerOk(s', s'.doors[d]) {
      if d in s.doors { assert DoorOk(s, d, s.doors[d]) && RunnerOk(s, s.doors[d]); }
      if Actor(step) == Some(d) {
        StepKeepsOwnRunner(s, step);
      } else {
        OtherKeepsRunner(s, step, s.doors[d]);
      }
    }
  }

  lemma OtherKeepsRunner(s: State, step: Step, me: Door)
    requires RunsOk(s) && DoorBuild(s, me) && DoorResult(s, me) && RunnerOk(s, me)
    ensures RunnerOk(Do(s, step), me)
  {
    if me.pc == Spawned && me.mine in Do(s, step).runs { SpawnedStays(s, step, me.mine); }
    if me.result.Some? && me.result.value.Launched? && me.result.value.run in Do(s, step).runs {
      SpawnedStays(s, step, me.result.value.run);
    }
  }

  lemma {:induction false} RunKeepsRunners(s: State, steps: seq<Step>)
    requires Inv(s) && RunnersOk(s)
    ensures Inv(Run(s, steps)) && RunnersOk(Run(s, steps))
    decreases |steps|
  {
    if steps != [] {
      StepKeepsInv(s, steps[0]);
      StepKeepsRunners(s, steps[0]);
      RunKeepsRunners(Do(s, steps[0]), steps[1..]);
    }
  }

  /** Whoever is told that it launched a run finds its directory, as long as nobody removed it,
      complete and with a runner spawned into it. */
  lemma LaunchedRunHasARunner(s0: State, steps: seq<Step>, d: DoorId)
    requires Initial(s0)
    ensures var s := Run(s0, steps);
            d in s.doors && s.doors[d].result.Some? && s.doors[d].result.value.Launched? ==>
              var r := s.doors[d].result.value.run;
              r in s.named && (r in s.runs ==> s.runs[r].spawned && s.runs[r].Complete())
  {
    InitialInv(s0);
    RunKeepsRunners(s0, steps);
    var s := Run(s0, steps);
    if d in s.doors { assert DoorOk(s, d, s.doors[d]) && RunnerOk(s, s.doors[d]); }
  }

  /** Past its proof a door is on the way to answering with the run it made, or has done so. */
  ghost predicate Launching(s: State, d: DoorId, r: RunId) {
    && d in s.doors
    && (|| (s.doors[d].pc in {Proved, Spawned} && s.doors[d].mine == r && r in s.runs)
        || (s.doors[d].pc == Finished && s.doors[d].result == Some(Launched(r))))
  }

  lemma StepKeepsLaunching(s: State, step: Step, d: DoorId, r: RunId)
    requires Launching(s, d, r) && step != Crash(d) && step != Remove(r)
    ensures Launching(Do(s, step), d, r)
  {
  }

  /** A proved door that does not crash and whose directory stays is answered with its own run,
      whatever other doors and the environment do meanwhile. */
  lemma {:induction false} ProvedDoorLaunches(s: State, steps: seq<Step>, d: DoorId)
    requires d in s.doors && s.doors[d].pc in {Proved, Spawned} && s.doors[d].mine in s.runs
    requires forall i :: 0 <= i < |steps| ==> steps[i] != Crash(d) && steps[i] != Remove(s.doors[d].mine)
    ensures var s' := Run(s, steps);
            && d in s'.doors
            && (s'.doors[d].pc in {Proved, Spawned} || s'.doors[d].result == Some(Launched(s.doors[d].mine)))
  {
    RunKeepsLaunching(s, steps, d, s.doors[d].mine);
  }

  lemma {:induction false} RunKeepsLaunching(s: State, steps: seq<Step>, d: DoorId, r: RunId)
    requires Launching(s, d, r) && forall i :: 0 <= i < |steps| ==> steps[i] != Crash(d) && steps[i] != Remove(r)
    ensures Launching(Run(s, steps), d, r)
    decreases |steps|
  {
    if steps != [] {
      StepKeepsLaunching(s, steps[0], d, r);
      RunKeepsLaunching(Do(s, steps[0]), steps[1..], d, r);
    }
  }

  ghost predicate PastProof(s: State, d: DoorId) {
    && d in s.doors
    && (s.doors[d].pc in {Proved, Spawned} || (s.doors[d].result.Some? && s.doors[d].result.value.Launched?))
  }

  lemma OnlyASyncProves(s: State, step: Step, d: DoorId)
    requires !PastProof(s, d)
    ensures PastProof(Do(s, step), d) ==> step == Prove(d, true)
  {
  }

  /** Nobody launches whose directory was not proved with a sync that worked. */
  lemma {:induction false} LaunchWasSynced(s: State, steps: seq<Step>, d: DoorId)
    requires !PastProof(s, d)
    ensures PastProof(Run(s, steps), d) ==> Prove(d, true) in steps
    decreases |steps|
  {
    if steps != [] {
      OnlyASyncProves(s, steps[0], d);
      if !PastProof(Do(s, steps[0]), d) { LaunchWasSynced(Do(s, steps[0]), steps[1..], d); }
    }
  }

  lemma {:induction false} AnswersStand(s: State, steps: seq<Step>, d: DoorId)
    requires d in s.doors && s.doors[d].pc in {Finished, Dead}
    ensures var s' := Run(s, steps); d in s'.doors && s'.doors[d] == s.doors[d]
    decreases |steps|
  {
    if steps != [] {
      var next := Do(s, steps[0]);
      assert d in next.doors && next.doors[d] == s.doors[d];
      AnswersStand(next, steps[1..], d);
    }
  }

  /** A proof that fails, and a launch whose directory is gone at the end, are reported as failed for good. */
  lemma {:induction false} DoorWithoutProofFails(s: State, step: Step, steps: seq<Step>, d: DoorId)
    requires d in s.doors
    requires || (s.doors[d].pc == Registered && exists synced :: step == Prove(d, synced) && !synced)
             || (s.doors[d].pc == Registered && step == Prove(d, true) && s.doors[d].mine !in s.runs)
             || (s.doors[d].pc == Spawned && step == Return(d) && s.doors[d].mine !in s.runs)
    ensures var s' := Run(Do(s, step), steps); d in s'.doors && s'.doors[d].result == Some(ProofFailed)
  {
    AnswersStand(Do(s, step), steps, d);
  }

  /** A door that crashes holds no lock, gives no answer, and never does anything more. */
  lemma {:induction false} CrashedDoorIsGone(s: State, steps: seq<Step>, d: DoorId)
    requires d in s.doors && s.doors[d].pc !in {Finished, Dead}
    ensures Do(s, Crash(d)).lock == if s.lock == Some(d) then None else s.lock
    ensures var s' := Run(Do(s, Crash(d)), steps); d in s'.doors && s'.doors[d] == s.doors[d].(pc := Dead)
  {
    AnswersStand(Do(s, Crash(d)), steps, d);
  }

  // ---------------------------------------------------------------- one door alone --

  lemma {:induction false} RunConcat(s: State, xs: seq<Step>, ys: seq<Step>)
    ensures Run(s, xs + ys) == Run(Run(s, xs), ys)
    decreases |xs|
  {
    if xs == [] {
      assert xs + ys == ys;
    } else {
      TailOfConcat(xs, ys);
      RunConcat(Do(s, xs[0]), xs[1..], ys);
    }
  }

  lemma {:induction false} RunFour(s: State, a: seq<Step>, b: seq<Step>, c: seq<Step>, d: seq<Step>)
    ensures Run(s, a + b + c + d) == Run(Run(Run(Run(s, a), b), c), d)
  {
    RunConcat(s, a + b + c, d);
    RunConcat(s, a + b, c);
    RunConcat(s, a, b);
  }

  lemma {:induction false} RunOne(s: State, x: Step)
    ensures Run(s, [x]) == Do(s, x)
  {
    assert [x][1..] == [];
    assert Run(Do(s, x), []) == Do(s, x);
  }

  lemma {:induction false} RunTwo(s: State, x: Step, y: Step)
    ensures Run(s, [x, y]) == Do(Do(s, x), y)
  {
    assert [x, y][1..] == [y] && [y][1..] == [];
    assert Run(Do(s, x), [y]) == Run(Do(Do(s, x), y), []);
  }

  /** The door takes the lock and reads the entry under it. */
  function Entering(d: DoorId, key: Key): seq<Step> { [Acquire(d, key), ReadEntry(d)] }

  lemma SoloEnters(s: State, d: DoorId, key: Key)
    requires d !in s.doors && s.lock.None?
    ensures Run(s, Entering(d, key)) ==
            s.(doors := s.doors[d := Door(EntryRead, key, Lookup(s), 0, None)], lock := Some(d))
  {
    RunTwo(s, Acquire(d, key), ReadEntry(d));
    PutAgain(s.doors, d, Door(Locked, key, None, 0, None), Door(EntryRead, key, Lookup(s), 0, None));
  }

  /** The file names no run, or a finished one of this key. */
  predicate Vacant(s: State, key: Key) {
    || Lookup(s).None?
    || (Lookup(s).value.key == key && Lookup(s).value.run in s.runs && s.runs[Lookup(s).value.run].finished)
  }

  lemma SoloDecides(s: State, d: DoorId, r: RunId)
    requires d in s.doors && s.doors[d].pc == EntryRead && s.doors[d].entry == Lookup(s) && r !in s.used
    requires Vacant(s, s.doors[d].key)
    ensures Run(s, [Decide(d), MakeDir(d, r)]) ==
            s.(doors := s.doors[d := s.doors[d].(pc := DirMade, mine := r)], used := s.used + {r},
               runs := s.runs[r := RunDir(false, false, false, false, false)])
  {
    RunTwo(s, Decide(d), MakeDir(d, r));
    PutAgain(s.doors, d, s.doors[d].(pc := MayCreate), s.doors[d].(pc := DirMade, mine := r));
  }

  lemma SoloWritesTwo(s: State, d: DoorId, r: RunId)
    requires d in s.doors && s.doors[d].pc == DirMade && s.doors[d].mine == r && r in s.runs
    ensures Run(s, [WriteGraph(d), WriteMeta(d)]) ==
            s.(doors := s.doors[d := s.doors[d].(pc := MetaWritten)],
               runs := s.runs[r := s.runs[r].(graph := true, meta := true)])
  {
    RunTwo(s, WriteGraph(d), WriteMeta(d));
    PutAgain(s.doors, d, s.doors[d].(pc := GraphWritten), s.doors[d].(pc := MetaWritten));
    PutAgain(s.runs, r, s.runs[r].(graph := true), s.runs[r].(graph := true, meta := true));
  }

  lemma SoloRegisters(s: State, d: DoorId, r: RunId)
    requires d in s.doors && s.doors[d].pc == MetaWritten && s.doors[d].mine == r && r in s.runs
    ensures Run(s, [WriteWake(d), Register(d)]) ==
            s.(doors := s.doors[d := s.doors[d].(pc := Registered)], named := s.named + {r},
               runs := s.runs[r := s.runs[r].(wake := true)], registry := Some(Entry(s.doors[d].key, r)))
  {
    RunTwo(s, WriteWake(d), Register(d));
    PutAgain(s.doors, d, s.doors[d].(pc := WakeWritten), s.doors[d].(pc := Registered));
  }

  lemma SoloProves(s: State, d: DoorId, r: RunId)
    requires d in s.doors && s.doors[d].pc == Registered && s.doors[d].mine == r
    requires r in s.runs && s.runs[r].Complete()
    ensures Run(s, [Prove(d, true), Spawn(d)]) ==
            s.(doors := s.doors[d := s.doors[d].(pc := Spawned)], runs := s.runs[r := s.runs[r].(spawned := true)])
  {
    RunTwo(s, Prove(d, true), Spawn(d));
    PutAgain(s.doors, d, s.doors[d].(pc := Proved), s.doors[d].(pc := Spawned));
  }

  /** The steps of one door that creates a run, and its answer. */
  function Creating1(d: DoorId, r: RunId): seq<Step> {
    [Decide(d), MakeDir(d, r)] + [WriteGraph(d), WriteMeta(d)]
  }

  function Creating2(d: DoorId): seq<Step> { [WriteWake(d), Register(d)] + [Prove(d, true), Spawn(d)] }

  lemma {:induction false} SoloCreates1(s: State, d: DoorId, r: RunId)
    requires d in s.doors && s.doors[d].pc == EntryRead && s.doors[d].entry == Lookup(s) && r !in s.used
    requires Vacant(s, s.doors[d].key)
    ensures Run(s, Creating1(d, r)) ==
            s.(doors := s.doors[d := s.doors[d].(pc := MetaWritten, mine := r)], used := s.used + {r},
               runs := s.runs[r := RunDir(true, true, false, false, false)])
  {
    RunConcat(s, [Decide(d), MakeDir(d, r)], [WriteGraph(d), WriteMeta(d)]);
    SoloDecides(s, d, r);
    var s1 := Run(s, [Decide(d), MakeDir(d, r)]);
    SoloWritesTwo(s1, d, r);
    PutAgain(s.doors, d, s1.doors[d], s1.doors[d].(pc := MetaWritten));
    PutAgain(s.runs, r, s1.runs[r], s1.runs[r].(graph := true, meta := true));
  }

  lemma {:induction false} SoloCreates2(s: State, d: DoorId, r: RunId)
    requires d in s.doors && s.doors[d].pc == MetaWritten && s.doors[d].mine == r
    requires r in s.runs && s.runs[r] == RunDir(true, true, false, false, false)
    ensures Run(s, Creating2(d)) ==
            s.(doors := s.doors[d := s.doors[d].(pc := Spawned)], named := s.named + {r},
               runs := s.runs[r := RunDir(true, true, true, true, false)],
               registry := Some(Entry(s.doors[d].key, r)))
  {
    RunConcat(s, [WriteWake(d), Register(d)], [Prove(d, true), Spawn(d)]);
    SoloRegisters(s, d, r);
    var s1 := Run(s, [WriteWake(d), Register(d)]);
    SoloProves(s1, d, r);
    PutAgain(s.doors, d, s1.doors[d], s1.doors[d].(pc := Spawned));
    PutAgain(s.runs, r, s1.runs[r], s1.runs[r].(spawned := true));
  }

  lemma {:induction false} SoloCreates(s: State, d: DoorId, r: RunId)
    requires d in s.doors && s.doors[d].pc == EntryRead && s.doors[d].entry == Lookup(s) && r !in s.used
    requires Vacant(s, s.doors[d].key)
    ensures Run(s, Creating1(d, r) + Creating2(d)) ==
            s.(doors := s.doors[d := s.doors[d].(pc := Spawned, mine := r)], used := s.used + {r},
               named := s.named + {r}, registry := Some(Entry(s.doors[d].key, r)),
               runs := s.runs[r := RunDir(true, true, true, true, false)])
  {
    RunConcat(s, Creating1(d, r), Creating2(d));
    SoloCreates1(s, d, r);
    var s1 := Run(s, Creating1(d, r));
    SoloCreates2(s1, d, r);
    PutAgain(s.doors, d, s1.doors[d], s1.doors[d].(pc := Spawned));
    PutAgain(s.runs, r, s1.runs[r], RunDir(true, true, true, true, false));
  }

  lemma {:induction false} SoloBuilds(s: State, d: DoorId, key: Key, r: RunId)
    requires d !in s.doors && s.lock.None? && r !in s.used && Vacant(s, key)
    ensures Run(s, Entering(d, key) + (Creating1(d, r) + Creating2(d))) ==
            s.(doors := s.doors[d := Door(Spawned, key, Lookup(s), r, None)], lock := Some(d),
               registry := Some(Entry(key, r)), runs := s.runs[r := RunDir(true, true, true, true, false)],
               used := s.used + {r}, named := s.named + {r})
  {
    RunConcat(s, Entering(d, key), Creating1(d, r) + Creating2(d));
    SoloEnters(s, d, key);
    var s1 := Run(s, Entering(d, key));
    SoloCreates(s1, d, r);
    PutAgain(s.doors, d, s1.doors[d], Door(Spawned, key, Lookup(s), r, None));
  }

  /** A whole launch by one door. */
  function LaunchOf(d: DoorId, key: Key, r: RunId): seq<Step> {
    Entering(d, key) + (Creating1(d, r) + Creating2(d)) + [Return(d)]
  }

  /** From any state with the lock free and the lane vacant, a door that runs alone launches: the
      file names the new run, its directory is complete with a runner in it, the caller gets its id,
      the lock is free, and nothing else has changed. */
  lemma {:induction false} SoloDoorLaunches(s: State, d: DoorId, key: Key, r: RunId)
    requires d !in s.doors && s.lock.None? && r !in s.used && Vacant(s, key)
    ensures Run(s, LaunchOf(d, key, r)) ==
            s.(doors := s.doors[d := Door(Finished, key, Lookup(s), r, Some(Launched(r)))],
               registry := Some(Entry(key, r)), runs := s.runs[r := RunDir(true, true, true, true, false)],
               used := s.used + {r}, named := s.named + {r})
  {
    var front := Entering(d, key) + (Creating1(d, r) + Creating2(d));
    RunConcat(s, front, [Return(d)]);
    SoloBuilds(s, d, key, r);
    var s2 := Run(s, front);
    RunOne(s2, Return(d));
    PutAgain(s.doors, d, s2.doors[d], Door(Finished, key, Lookup(s), r, Some(Launched(r))));
  }

  /** A lane whose run has finished is open to the next door. */
  lemma {:induction false} LaunchedAndFinished(s: State, d: DoorId, key: Key, r: RunId)
    requires d !in s.doors && s.lock.None? && Vacant(s, key) && r !in s.used
    ensures var s' := Run(Run(s, LaunchOf(d, key, r)), [Finish(r)]);
            && s'.doors.Keys == s.doors.Keys + {d} && DoorOf(s', d).result == Some(Launched(r))
            && s'.lock.None? && Vacant(s', key) && s'.used == s.used + {r} && s'.reopened == s.reopened
            && r in s'.named && r in s'.runs && s'.runs[r].finished
  {
    SoloDoorLaunches(s, d, key, r);
    RunOne(Run(s, LaunchOf(d, key, r)), Finish(r));
  }

  /** An older run is reopened beside the one just launched. */
  lemma {:induction false} LaunchedAndReopened(s: State, d: DoorId, e: DoorId, key: Key, r: RunId, q: RunId)
    requires e !in s.doors && d != e && s.lock.None? && Vacant(s, key) && q !in s.used && r != q
    requires r in s.runs && s.runs[r].finished
    ensures var s' := Run(Run(s, LaunchOf(e, key, q)), [Reopen(r)]);
            && s'.named == s.named + {q} && Live(s', r) && Live(s', q) && s'.reopened == s.reopened + 1
            && DoorOf(s', d) == DoorOf(s, d) && DoorOf(s', e).result == Some(Launched(q))
  {
    SoloDoorLaunches(s, e, key, q);
    RunOne(Run(s, LaunchOf(e, key, q)), Reopen(r));
  }

  /** The bound of one unfinished run and one more per reopening is reached. */
  lemma {:induction false} ReopenedRunMakesTwo(s: State, d: DoorId, e: DoorId, key: Key, r: RunId, q: RunId)
    requires d !in s.doors && e !in s.doors && d != e && s.lock.None? && Vacant(s, key)
    requires r !in s.used && q !in s.used && r != q
    ensures var s' := Run(s, LaunchOf(d, key, r) + [Finish(r)] + LaunchOf(e, key, q) + [Reopen(r)]);
            && {r, q} <= s'.named && Live(s', r) && Live(s', q) && s'.reopened == s.reopened + 1
            && DoorOf(s', d).result == Some(Launched(r)) && DoorOf(s', e).result == Some(Launched(q))
  {
    RunFour(s, LaunchOf(d, key, r), [Finish(r)], LaunchOf(e, key, q), [Reopen(r)]);
    LaunchedAndFinished(s, d, key, r);
    LaunchedAndReopened(Run(Run(s, LaunchOf(d, key, r)), [Finish(r)]), d, e, key, r, q);
  }

  /** A launched run whose directory is deleted keeps its lane: the next door is handed its id. */
  lemma {:induction false} RemovedRunKeepsTheLane(s: State, d: DoorId, e: DoorId, key: Key, r: RunId)
    requires d !in s.doors && e !in s.doors && d != e && s.lock.None? && Vacant(s, key) && r !in s.used
    ensures var s' := Run(s, LaunchOf(d, key, r) + [Remove(r)] + Entering(e, key) + [Decide(e)]);
            r !in s'.runs && DoorOf(s', e).result == Some(Deduped(r))
  {
    RunFour(s, LaunchOf(d, key, r), [Remove(r)], Entering(e, key), [Decide(e)]);
    var s1 := Run(s, LaunchOf(d, key, r));
    SoloDoorLaunches(s, d, key, r);
    var s2 := Run(s1, [Remove(r)]);
    RunOne(s1, Remove(r));
    SoloEnters(s2, e, key);
    RunOne(Run(s2, Entering(e, key)), Decide(e));
  }
}
