/**
 `recover_crashed_runner`: any number of watchdog callers, each of which computes the run's
 fingerprint before it takes the admission lock, then checks guard and crash signature, spawns,
 appends a receipt and replaces the guard under the lock.
*/
module RespawnGuard {
  import opened Wrappers
  import opened Collections

  type CallerId = nat
  type Fp = int

  datatype Pc = Start | Fingerprinted | Inside | Unguarded | Crashed | Spawned | Receipted | Done | Dead

  datatype Caller = Caller(pc: Pc, fp: Fp, respawned: bool)
  datatype Receipt = Receipt(who: CallerId, fp: Fp)

  datatype State = State(
    fp: Fp,                          // the fingerprint of graph.json and run.json now
    signature: bool,                 // the crashed-no-exit signature now
    guard: Option<Fp>,
    receipts: seq<Receipt>,
    lock: Option<CallerId>,
    callers: map<CallerId, Caller>,
    confirmed: seq<CallerId>,        // history: spawns confirmed live
    fps: set<Fp>,                    // history: fingerprints the run ever had
    crashes: nat,                    // history: callers that died inside
    late: nat,                       // history: callers that entered with a fingerprint gone by
    restored: nat,                   // history: amends that brought an earlier fingerprint back
    again: nat,                      // history: confirmed spawns past the guard for a fingerprint with a receipt
    lost: nat)                       // history: callers that died between spawn and receipt

  datatype Step =
    | Fingerprint(c: CallerId)
    | Enter(c: CallerId)
    | CheckGuard(c: CallerId)
    | CheckSignature(c: CallerId)
    | Spawn(c: CallerId, live: bool)
    | AppendReceipt(c: CallerId)
    | WriteGuard(c: CallerId)
    | Crash(c: CallerId)
    | Amend(fp: Fp)                  // environment: another graph or run.json
    | Runner(signature: bool)        // environment: the runner dies, or lives again

  function Get(s: State, c: CallerId): Caller {
    if c in s.callers then s.callers[c] else Caller(Start, 0, false)
  }

  function Put(s: State, c: CallerId, me: Caller): State { s.(callers := s.callers[c := me]) }

  /** `return {"respawned": False, ...}`, leaving the lock. */
  function Leave(s: State, c: CallerId): State { Put(s, c, Get(s, c).(pc := Done)).(lock := None) }

  /** The fingerprint has a receipt in the event log. */
  predicate Respawned(s: State, fp: Fp) { exists i :: 0 <= i < |s.receipts| && s.receipts[i].fp == fp }

  function Do(s: State, step: Step): State {
    match step
    case Fingerprint(c) =>
      if Get(s, c).pc != Start then s else Put(s, c, Caller(Fingerprinted, s.fp, false))
    case Enter(c) =>
      if Get(s, c).pc != Fingerprinted || s.lock.Some? then s else
        Put(s, c, Get(s, c).(pc := Inside))
        .(lock := Some(c), late := if Get(s, c).fp == s.fp then s.late else s.late + 1)
    case CheckGuard(c) =>
      if Get(s, c).pc != Inside then s
      else if s.guard == Some(Get(s, c).fp) then Leave(s, c)
      else Put(s, c, Get(s, c).(pc := Unguarded))
    case CheckSignature(c) =>
      if Get(s, c).pc != Unguarded then s
      else if !s.signature then Leave(s, c)
      else Put(s, c, Get(s, c).(pc := Crashed))
    case Spawn(c, live) =>
      if Get(s, c).pc != Crashed then s
      else if !live then Leave(s, c)
      else
        Put(s, c, Get(s, c).(pc := Spawned))
        .(confirmed := s.confirmed + [c], again := if Respawned(s, Get(s, c).fp) then s.again + 1 else s.again)
    case AppendReceipt(c) =>
      if Get(s, c).pc != Spawned then s else
        Put(s, c, Get(s, c).(pc := Receipted)).(receipts := s.receipts + [Receipt(c, Get(s, c).fp)])
    case WriteGuard(c) =>
      if Get(s, c).pc != Receipted then s else
        Put(s, c, Get(s, c).(pc := Done, respawned := true)).(guard := Some(Get(s, c).fp), lock := None)
    case Crash(c) =>
      if s.lock != Some(c) then s else
        Put(s, c, Get(s, c).(pc := Dead))
        .(lock := None, crashes := s.crashes + 1, lost := if Get(s, c).pc == Spawned then s.lost + 1 else s.lost)
    case Amend(fp) =>
      s.(fp := fp, fps := s.fps + {fp}, restored := if fp != s.fp && fp in s.fps then s.restored + 1 else s.restored)
    case Runner(signature) => s.(signature := signature)
  }

  function Run(s: State, steps: seq<Step>): State
    decreases |steps|
  {
    if steps == [] then s else Run(Do(s, steps[0]), steps[1..])
  }

  function Initial(fp: Fp, signature: bool): State {
    State(fp, signature, None, [], None, map[], [], {fp}, 0, 0, 0, 0, 0)
  }

  function LastFp(rs: seq<Receipt>): Option<Fp> {
    if rs == [] then None else Some(rs[|rs| - 1].fp)
  }

  predicate Inner(pc: Pc) { pc in {Inside, Unguarded, Crashed, Spawned, Receipted} }

  ghost predicate CallerOk(s: State, c: CallerId, me: Caller) {
    && (Inner(me.pc) <==> s.lock == Some(c))
    && (me.pc != Start ==> me.fp in s.fps)
    && (me.pc in {Unguarded, Crashed, Spawned} ==> s.guard != Some(me.fp))
    && (me.pc in {Spawned, Receipted} ==> c in s.confirmed)
    && (me.pc == Receipted ==> s.receipts != [] && s.receipts[|s.receipts| - 1] == Receipt(c, me.fp))
    && (me.respawned ==> me.pc == Done && Receipt(c, me.fp) in s.receipts)
  }

  /** Somebody is between its receipt and its guard write. */
  predicate Lagging(s: State) {
    s.lock.Some? && s.lock.value in s.callers && s.callers[s.lock.value].pc == Receipted
  }

  ghost predicate Receipts(s: State) {
    && (forall i :: 0 <= i < |s.receipts| ==> s.receipts[i].who in s.confirmed && s.receipts[i].fp in s.fps)
    && (s.crashes == 0 ==> forall i :: 0 < i < |s.receipts| ==> s.receipts[i].fp != s.receipts[i - 1].fp)
    && (s.crashes == 0 && !Lagging(s) ==> s.guard == LastFp(s.receipts))
  }

  ghost predicate Inv(s: State) {
    && Receipts(s)
    && s.fp in s.fps && (s.lock.Some? ==> s.lock.value in s.callers)
    && (forall c :: c in s.callers ==> CallerOk(s, c, s.callers[c]))
  }

  function Actor(step: Step): Option<CallerId> {
    if step.Amend? || step.Runner? then None else Some(step.c)
  }

  lemma AppendKeepsReceipts(s: State, c: CallerId)
    requires Receipts(s) && c in s.callers && CallerOk(s, c, s.callers[c])
    ensures Receipts(Do(s, AppendReceipt(c)))
  {
    if s.callers[c].pc == Spawned && s.crashes == 0 { assert s.guard == LastFp(s.receipts); }
  }

  lemma StepKeepsReceipts(s: State, step: Step)
    requires Inv(s)
    ensures Receipts(Do(s, step))
  {
    if Actor(step).Some? && Actor(step).value in s.callers {
      assert CallerOk(s, Actor(step).value, s.callers[Actor(step).value]);
      if step.AppendReceipt? { AppendKeepsReceipts(s, step.c); }
    }
  }

  lemma StepKeepsActor(s: State, step: Step, c: CallerId)
    requires Receipts(s) && s.fp in s.fps && Actor(step) == Some(c) && c in Do(s, step).callers
    requires if c in s.callers then CallerOk(s, c, s.callers[c]) else s.lock != Some(c)
    ensures CallerOk(Do(s, step), c, Do(s, step).callers[c])
  {
  }

  lemma StepKeepsOther(s: State, step: Step, c: CallerId)
    requires Actor(step) != Some(c) && c in s.callers && CallerOk(s, c, s.callers[c])
    requires Actor(step).Some? && Actor(step).value in s.callers ==>
               CallerOk(s, Actor(step).value, s.callers[Actor(step).value])
    ensures CallerOk(Do(s, step), c, s.callers[c])
  {
  }

  lemma OthersStay(s: State, step: Step, c: CallerId)
    requires Actor(step) != Some(c) && c in Do(s, step).callers
    ensures c in s.callers && Do(s, step).callers[c] == s.callers[c]
  {
  }

  lemma StepKeepsCaller(s: State, step: Step, c: CallerId)
    requires Inv(s) && c in Do(s, step).callers
    ensures CallerOk(Do(s, step), c, Do(s, step).callers[c])
  {
    if c in s.callers { assert CallerOk(s, c, s.callers[c]); }
    if Actor(step) == Some(c) {
      StepKeepsActor(s, step, c);
    } else {
      OthersStay(s, step, c);
      if Actor(step).Some? && Actor(step).value in s.callers {
        assert CallerOk(s, Actor(step).value, s.callers[Actor(step).value]);
      }
      StepKeepsOther(s, step, c);
    }
  }

  lemma {:induction false} RunKeepsInv(s: State, steps: seq<Step>)
    requires Inv(s)
    ensures Inv(Run(s, steps))
    decreases |steps|
  {
    if steps != [] {
      StepKeepsInv(s, steps[0]);
      RunKeepsInv(Do(s, steps[0]), steps[1..]);
    }
  }

  /** Receipts exist only for confirmed spawns.  When no caller died inside, the guard is the last
      receipt's fingerprint (outside the one write between them) and adjacent receipts differ. */
  lemma GuardFollowsReceipts(fp: Fp, signature: bool, steps: seq<Step>)
    ensures var s := Run(Initial(fp, signature), steps);
            && (forall i :: 0 <= i < |s.receipts| ==> s.receipts[i].who in s.confirmed)
            && (s.crashes == 0 && !Lagging(s) ==> s.guard == LastFp(s.receipts))
            && (s.crashes == 0 ==> forall i :: 0 < i < |s.receipts| ==> s.receipts[i].fp != s.receipts[i - 1].fp)
  {
    RunKeepsInv(Initial(fp, signature), steps);
  }

  /** A run that was never amended is respawned at most once. */
  lemma UnamendedRunRespawnsOnce(fp: Fp, signature: bool, steps: seq<Step>)
    ensures var s := Run(Initial(fp, signature), steps);
            s.crashes == 0 && s.fps == {fp} ==> |s.receipts| <= 1
  {
    RunKeepsInv(Initial(fp, signature), steps);
    var s := Run(Initial(fp, signature), steps);
    if s.crashes == 0 && |s.receipts| > 1 {
      var a, b := s.receipts[0].fp, s.receipts[1].fp;
      assert a != b && a in s.fps && b in s.fps;
    }
  }

  // ---------------------------------------------------------------- once per fingerprint --

  predicate Orderly(s: State) { s.crashes == 0 && s.late == 0 && s.restored == 0 }

  ghost predicate Distinct(rs: seq<Receipt>) { forall i, j :: 0 <= i < j < |rs| ==> rs[i].fp != rs[j].fp }

  /** The caller that holds the lock carries the run's fingerprint, or the run has moved on to one
      never respawned; past the guard, its own was never respawned either. */
  ghost predicate HolderFresh(s: State) {
    s.lock.Some? && s.lock.value in s.callers ==>
      var me := s.callers[s.lock.value];
      && (me.fp != s.fp ==> !Respawned(s, s.fp))
      && (me.pc == Inside && Respawned(s, me.fp) ==> s.guard == Some(me.fp))
      && (me.pc in {Unguarded, Crashed, Spawned} ==> !Respawned(s, me.fp))
  }

  ghost predicate Once(s: State) {
    && Distinct(s.receipts)
    && (Respawned(s, s.fp) ==> LastFp(s.receipts) == Some(s.fp))
    && HolderFresh(s)
  }

  lemma HistoryOnlyGrows(s: State, step: Step)
    ensures Orderly(Do(s, step)) ==> Orderly(s)
  {
  }

  lemma RespawnedIsKnown(s: State, fp: Fp)
    requires Receipts(s) && fp !in s.fps
    ensures !Respawned(s, fp)
  {
  }

  lemma EnterOnce(s: State, c: CallerId)
    requires Inv(s) && Once(s) && Orderly(Do(s, Enter(c)))
    ensures Once(Do(s, Enter(c)))
  {
  }

  lemma AppendOnce(s: State, c: CallerId)
    requires Inv(s) && Once(s)
    ensures Once(Do(s, AppendReceipt(c)))
  {
    if c in s.callers && s.callers[c].pc == Spawned {
      assert CallerOk(s, c, s.callers[c]);
      var u := Do(s, AppendReceipt(c));
      assert forall fp :: Respawned(u, fp) ==> Respawned(s, fp) || fp == s.callers[c].fp;
    }
  }

  lemma AmendOnce(s: State, fp: Fp)
    requires Inv(s) && Once(s) && Orderly(Do(s, Amend(fp)))
    ensures Once(Do(s, Amend(fp)))
  {
    var u := Do(s, Amend(fp));
    assert u.receipts == s.receipts;
    if fp !in s.fps { RespawnedIsKnown(s, fp); }
  }

  lemma OtherOnce(s: State, step: Step)
    requires Inv(s) && Once(s) && Orderly(Do(s, step))
    requires !step.Enter? && !step.AppendReceipt? && !step.Amend?
    ensures Once(Do(s, step))
  {
    var u := Do(s, step);
    assert u.receipts == s.receipts && u.fp == s.fp;
    if Actor(step).Some? && Actor(step).value in s.callers {
      assert CallerOk(s, Actor(step).value, s.callers[Actor(step).value]);
    }
  }

  lemma StepKeepsOnce(s: State, step: Step)
    requires Inv(s) && Once(s) && Orderly(Do(s, step))
    ensures Once(Do(s, step))
  {
    match step
    case Enter(c) => EnterOnce(s, c);
    case AppendReceipt(c) => AppendOnce(s, c);
    case Amend(fp) => AmendOnce(s, fp);
    case _ => OtherOnce(s, step);
  }

  lemma {:induction false} OrderlyBefore(s: State, steps: seq<Step>)
    ensures Orderly(Run(s, steps)) ==> Orderly(s)
    decreases |steps|
  {
    if steps != [] {
      OrderlyBefore(Do(s, steps[0]), steps[1..]);
      HistoryOnlyGrows(s, steps[0]);
    }
  }

  lemma StepKeepsInv(s: State, step: Step)
    requires Inv(s)
    ensures Inv(Do(s, step))
  {
    var u := Do(s, step);
    StepKeepsReceipts(s, step);
    forall c | c in u.callers ensures CallerOk(u, c, u.callers[c]) { StepKeepsCaller(s, step, c); }
  }

  lemma {:induction false} RunKeepsOnce(s: State, steps: seq<Step>)
    requires Inv(s) && Once(s) && Orderly(Run(s, steps))
    ensures Once(Run(s, steps))
    decreases |steps|
  {
    if steps != [] {
      OrderlyBefore(Do(s, steps[0]), steps[1..]);
      StepKeepsOnce(s, steps[0]);
      StepKeepsInv(s, steps[0]);
      RunKeepsOnce(Do(s, steps[0]), steps[1..]);
    }
  }

  /** In every run in which no caller dies inside, no caller enters with a fingerprint the run has
      left, and no amend brings an earlier fingerprint back, each fingerprint is respawned at most
      once.  The three runs below break one condition each, and respawn a fingerprint twice. */
  lemma OncePerFingerprint(fp: Fp, signature: bool, steps: seq<Step>)
    ensures var s := Run(Initial(fp, signature), steps); Orderly(s) ==> Distinct(s.receipts)
  {
    if Orderly(Run(Initial(fp, signature), steps)) { RunKeepsOnce(Initial(fp, signature), steps); }
  }

  // ---------------------------------------------------------------- and exactly when --

  /** The lock holder has spawned and not appended its receipt. */
  predicate Owing(s: State) {
    s.lock.Some? && s.lock.value in s.callers && s.callers[s.lock.value].pc == Spawned
  }

  ghost predicate Repeated(s: State) {
    !Distinct(s.receipts) || (Owing(s) && Respawned(s, s.callers[s.lock.value].fp))
  }

  /** A fingerprint is repeated only by a counted spawn, and by every one that is not lost. */
  ghost predicate Counted(s: State) {
    (s.again == 0 ==> !Repeated(s)) && (s.again > 0 && s.lost == 0 ==> Repeated(s))
  }

  lemma SpawnCounted(s: State, c: CallerId, live: bool)
    requires Inv(s) && Counted(s)
    ensures Counted(Do(s, Spawn(c, live)))
  {
    if c in s.callers {
      assert CallerOk(s, c, s.callers[c]);
      assert Do(s, Spawn(c, live)).receipts == s.receipts;
    }
  }

  lemma ReceiptCounted(s: State, c: CallerId)
    requires Inv(s) && Counted(s)
    ensures Counted(Do(s, AppendReceipt(c)))
  {
    if c in s.callers && s.callers[c].pc == Spawned {
      assert CallerOk(s, c, s.callers[c]);
      OneMoreReceipt(s.receipts, Receipt(c, s.callers[c].fp));
    }
  }

  lemma OneMoreReceipt(rs: seq<Receipt>, r: Receipt)
    ensures Distinct(rs + [r]) <==> Distinct(rs) && forall i :: 0 <= i < |rs| ==> rs[i].fp != r.fp
  {
    var more := rs + [r];
    assert forall i :: 0 <= i < |rs| ==> more[i] == rs[i];
    assert more[|rs|] == r;
    if Distinct(more) {
      forall i, j | 0 <= i < j < |rs| ensures rs[i].fp != rs[j].fp { assert more[i].fp != more[j].fp; }
      forall i | 0 <= i < |rs| ensures rs[i].fp != r.fp { assert more[i].fp != more[|rs|].fp; }
    }
  }

  lemma OtherCounted(s: State, step: Step)
    requires Inv(s) && Counted(s) && !step.Spawn? && !step.AppendReceipt?
    ensures Counted(Do(s, step))
  {
    assert Do(s, step).receipts == s.receipts;
    if Actor(step).Some? && Actor(step).value in s.callers {
      assert CallerOk(s, Actor(step).value, s.callers[Actor(step).value]);
    }
    if s.lock.Some? { assert CallerOk(s, s.lock.value, s.callers[s.lock.value]); }
  }

  lemma {:induction false} RunCounted(s: State, steps: seq<Step>)
    requires Inv(s) && Counted(s)
    ensures Counted(Run(s, steps)) && Inv(Run(s, steps))
    decreases |steps|
  {
    if steps != [] {
      match steps[0] {
        case Spawn(c, live) => SpawnCounted(s, c, live);
        case AppendReceipt(c) => ReceiptCounted(s, c);
        case _ => OtherCounted(s, steps[0]);
      }
      StepKeepsInv(s, steps[0]);
      RunCounted(Do(s, steps[0]), steps[1..]);
    }
  }

  /** In every run, crashes included: no fingerprint has two receipts if no confirmed spawn was for
      a fingerprint that already had one, which the guard, naming another, let through.  It is if
      and only if as long as nobody died, or stands, between its spawn and its receipt. */
  lemma OnceExactlyWhen(fp: Fp, signature: bool, steps: seq<Step>)
    ensures var s := Run(Initial(fp, signature), steps);
            && (s.again == 0 ==> Distinct(s.receipts))
            && (s.lost == 0 && !Owing(s) ==> (Distinct(s.receipts) <==> s.again == 0))
  {
    RunCounted(Initial(fp, signature), steps);
  }

  // ---------------------------------------------------------------- only over a crash --

  /** At some instant of the run the caller held the lock and the run had the crash signature. */
  ghost predicate SawCrash(s0: State, steps: seq<Step>, c: CallerId) {
    exists i :: 0 <= i <= |steps| && CrashSeen(Run(s0, steps[..i]), c)
  }

  predicate CrashSeen(s: State, c: CallerId) { s.lock == Some(c) && s.signature }

  lemma {:induction false} SeenBefore(s0: State, front: seq<Step>, x: Step, c: CallerId)
    requires SawCrash(s0, front, c)
    ensures SawCrash(s0, front + [x], c)
  {
    var i :| 0 <= i <= |front| && CrashSeen(Run(s0, front[..i]), c);
    assert (front + [x])[..i] == front[..i];
  }

  lemma {:induction false} SeenNow(s0: State, front: seq<Step>, x: Step, c: CallerId)
    requires CrashSeen(Run(s0, front), c)
    ensures SawCrash(s0, front + [x], c)
  {
    assert (front + [x])[..|front|] == front;
  }

  /** Past the signature check, or counted as confirmed. */
  predicate PastCheck(s: State, c: CallerId) {
    c in s.confirmed || (c in s.callers && s.callers[c].pc == Crashed)
  }

  lemma StepPastCheck(s: State, x: Step, c: CallerId)
    requires Inv(s) && PastCheck(Do(s, x), c) && !PastCheck(s, c)
    ensures CrashSeen(s, c)
  {
    if c in s.callers { assert CallerOk(s, c, s.callers[c]); }
  }

  lemma StepConfirms(s: State, x: Step, c: CallerId)
    requires c in Do(s, x).confirmed && c !in s.confirmed
    ensures x == Spawn(c, true)
  {
  }

  lemma {:induction false} PastCheckSawCrash(fp: Fp, signature: bool, steps: seq<Step>, c: CallerId)
    ensures var s0 := Initial(fp, signature);
            && (PastCheck(Run(s0, steps), c) ==> SawCrash(s0, steps, c))
            && (c in Run(s0, steps).confirmed ==> Spawn(c, true) in steps)
    decreases |steps|
  {
    var s0 := Initial(fp, signature);
    if steps != [] {
      var front, x := steps[..|steps| - 1], steps[|steps| - 1];
      assert steps == front + [x];
      var s := Run(s0, front);
      RunSnoc(s0, front, x);
      RunKeepsInv(s0, front);
      PastCheckSawCrash(fp, signature, front, c);
      if PastCheck(Do(s, x), c) {
        if PastCheck(s, c) {
          SeenBefore(s0, front, x, c);
        } else {
          StepPastCheck(s, x, c);
          SeenNow(s0, front, x, c);
        }
        if c in Do(s, x).confirmed && c !in s.confirmed { StepConfirms(s, x, c); }
      }
    }
  }

  lemma {:induction false} NoRunnerDies(s: State, steps: seq<Step>)
    requires !s.signature && forall i :: 0 <= i < |steps| ==> steps[i] != Runner(true)
    ensures !Run(s, steps).signature
    decreases |steps|
  {
    if steps != [] { NoRunnerDies(Do(s, steps[0]), steps[1..]); }
  }

  /** Every respawn is of a crashed run: its caller saw the crash signature while it held the lock,
      and its spawn was confirmed live. */
  lemma RespawnsOnlyOverACrash(fp: Fp, signature: bool, steps: seq<Step>)
    ensures var s := Run(Initial(fp, signature), steps);
            && (forall c :: c in s.confirmed ==>
                  SawCrash(Initial(fp, signature), steps, c) && Spawn(c, true) in steps)
            && (forall i :: 0 <= i < |s.receipts| ==> s.receipts[i].who in s.confirmed)
            && (forall c :: c in s.callers && s.callers[c].respawned ==>
                  s.callers[c].pc == Done && c in s.confirmed)
  {
    var s0 := Initial(fp, signature);
    var s := Run(s0, steps);
    RunKeepsInv(s0, steps);
    forall c | c in s.confirmed ensures SawCrash(s0, steps, c) && Spawn(c, true) in steps {
      PastCheckSawCrash(fp, signature, steps, c);
    }
    forall c | c in s.callers && s.callers[c].respawned ensures s.callers[c].pc == Done && c in s.confirmed {
      assert CallerOk(s, c, s.callers[c]);
      var i :| 0 <= i < |s.receipts| && s.receipts[i] == Receipt(c, s.callers[c].fp);
      assert s.receipts[i].who in s.confirmed;
    }
  }

  /** A run whose runner never dies is never respawned. */
  lemma LiveRunIsLeftAlone(fp: Fp, steps: seq<Step>)
    requires forall i :: 0 <= i < |steps| ==> steps[i] != Runner(true)
    ensures var s := Run(Initial(fp, false), steps); s.confirmed == [] && s.receipts == []
  {
    var s0 := Initial(fp, false);
    var s := Run(s0, steps);
    RespawnsOnlyOverACrash(fp, false, steps);
    assert s.receipts != [] ==> s.receipts[0].who in s.confirmed;
    if s.confirmed != [] {
      var c := s.confirmed[0];
      assert SawCrash(s0, steps, c);
      var i :| 0 <= i <= |steps| && CrashSeen(Run(s0, steps[..i]), c);
      NoRunnerDies(s0, steps[..i]);
    }
  }

  // ---------------------------------------------------------------- one caller alone --

  lemma {:induction false} RunConcat(s: State, xs: seq<Step>, ys: seq<Step>)
    ensures Run(s, xs + ys) == Run(Run(s, xs), ys)
    decreases |xs|
  {
    if xs == [] {
      assert xs + ys == ys;
    } else {
      TailOfConcat(xs, ys);
      RunConcat(Do(s, xs[0]), xs[1..], ys);
    }
  }

  lemma {:induction false} RunTwo(s: State, x: Step, y: Step)
    ensures Run(s, [x, y]) == Do(Do(s, x), y)
  {
    assert [x, y][1..] == [y] && [y][1..] == [];
    assert Run(Do(s, x), [y]) == Run(Do(Do(s, x), y), []);
  }

  /** A caller's whole stay; a caller that has left takes no further step. */
  function Arriving(c: CallerId): seq<Step> { [Fingerprint(c), Enter(c)] + [CheckGuard(c), CheckSignature(c)] }

  function Spawning(c: CallerId, live: bool): seq<Step> { [Spawn(c, live), AppendReceipt(c)] + [WriteGuard(c)] }

  lemma {:induction false} RunOne(s: State, x: Step)
    ensures Run(s, [x]) == Do(s, x)
  {
    assert [x][1..] == [];
  }

  lemma SoloEnters(s: State, c: CallerId)
    requires c !in s.callers && s.lock.None?
    ensures Run(s, [Fingerprint(c), Enter(c)]) ==
            s.(callers := s.callers[c := Caller(Inside, s.fp, false)], lock := Some(c))
  {
    RunTwo(s, Fingerprint(c), Enter(c));
    PutAgain(s.callers, c, Caller(Fingerprinted, s.fp, false), Caller(Inside, s.fp, false));
  }

  lemma SoloChecks(s: State, c: CallerId)
    requires c in s.callers && s.callers[c].pc == Inside && s.lock == Some(c)
    ensures var go := s.guard != Some(s.callers[c].fp) && s.signature;
            Run(s, [CheckGuard(c), CheckSignature(c)]) ==
            s.(callers := s.callers[c := s.callers[c].(pc := if go then Crashed else Done)],
               lock := if go then Some(c) else None)
  {
    RunTwo(s, CheckGuard(c), CheckSignature(c));
    var go := s.guard != Some(s.callers[c].fp) && s.signature;
    PutAgain(s.callers, c, s.callers[c].(pc := Unguarded), s.callers[c].(pc := if go then Crashed else Done));
  }

  lemma SoloArrives(s: State, c: CallerId)
    requires c !in s.callers && s.lock.None?
    ensures var go := s.guard != Some(s.fp) && s.signature;
            Run(s, Arriving(c)) ==
            s.(callers := s.callers[c := Caller(if go then Crashed else Done, s.fp, false)],
               lock := if go then Some(c) else None)
  {
    RunConcat(s, [Fingerprint(c), Enter(c)], [CheckGuard(c), CheckSignature(c)]);
    SoloEnters(s, c);
    var s1 := Run(s, [Fingerprint(c), Enter(c)]);
    SoloChecks(s1, c);
    var go := s.guard != Some(s.fp) && s.signature;
    PutAgain(s.callers, c, s1.callers[c], Caller(if go then Crashed else Done, s.fp, false));
  }

  lemma SoloSpawns(s: State, c: CallerId)
    requires c in s.callers && s.callers[c].pc == Crashed && s.lock == Some(c)
    ensures var fp := s.callers[c].fp;
            Run(s, Spawning(c, true)) ==
            s.(callers := s.callers[c := Caller(Done, fp, true)], lock := None, guard := Some(fp),
               receipts := s.receipts + [Receipt(c, fp)], confirmed := s.confirmed + [c],
               again := if Respawned(s, fp) then s.again + 1 else s.again)
  {
    RunConcat(s, [Spawn(c, true), AppendReceipt(c)], [WriteGuard(c)]);
    RunTwo(s, Spawn(c, true), AppendReceipt(c));
    PutAgain(s.callers, c, s.callers[c].(pc := Spawned), s.callers[c].(pc := Receipted));
    var s2 := Run(s, [Spawn(c, true), AppendReceipt(c)]);
    RunOne(s2, WriteGuard(c));
    PutAgain(s.callers, c, s2.callers[c], Caller(Done, s.callers[c].fp, true));
  }

  /** A caller that has left, or whose spawn is not confirmed, changes nothing more but its own end. */
  lemma SoloLeaves(s: State, c: CallerId, live: bool)
    requires c in s.callers && (s.callers[c].pc == Done || (s.callers[c].pc == Crashed && !live))
    ensures Run(s, Spawning(c, live)) ==
            if s.callers[c].pc == Done then s
            else s.(callers := s.callers[c := s.callers[c].(pc := Done)], lock := None)
  {
    RunConcat(s, [Spawn(c, live), AppendReceipt(c)], [WriteGuard(c)]);
    RunTwo(s, Spawn(c, live), AppendReceipt(c));
    RunOne(Do(Do(s, Spawn(c, live)), AppendReceipt(c)), WriteGuard(c));
  }

  /** From any state with the lock free, a caller that runs alone respawns if and only if the guard
      does not name the run's fingerprint, the run has the crash signature and the spawn is confirmed
      live: then it leaves one receipt and the guard, and otherwise neither. */
  lemma SoloCallerRespawnsIff(s: State, c: CallerId, live: bool)
    requires c !in s.callers && s.lock.None?
    ensures var u := Run(s, Arriving(c) + Spawning(c, live));
            var go := s.guard != Some(s.fp) && s.signature && live;
            u == s.(callers := s.callers[c := Caller(Done, s.fp, go)],
                    guard := if go then Some(s.fp) else s.guard,
                    receipts := if go then s.receipts + [Receipt(c, s.fp)] else s.receipts,
                    confirmed := if go then s.confirmed + [c] else s.confirmed,
                    again := if go && Respawned(s, s.fp) then s.again + 1 else s.again)
  {
    RunConcat(s, Arriving(c), Spawning(c, live));
    SoloArrives(s, c);
    var s1 := Run(s, Arriving(c));
    if s1.callers[c].pc == Crashed && live { SoloSpawns(s1, c); } else { SoloLeaves(s1, c, live); }
    var go := s.guard != Some(s.fp) && s.signature && live;
    PutAgain(s.callers, c, s1.callers[c], Caller(Done, s.fp, go));
  }

  // ---------------------------------------------------------------- no condition can go --

  lemma {:induction false} RunSnoc(s: State, steps: seq<Step>, x: Step)
    ensures Run(s, steps + [x]) == Do(Run(s, steps), x)
    decreases |steps|
  {
    if steps == [] {
      assert steps + [x] == [x] && [x][1..] == [];
    } else {
      RunSnoc(Do(s, steps[0]), steps[1..], x);
      assert (steps + [x])[1..] == steps[1..] + [x];
    }
  }

  ghost predicate Reaches(s0: State, s: State) { exists steps :: Run(s0, steps) == s }

  lemma Next(s0: State, s: State, x: Step) returns (s': State)
    requires Reaches(s0, s)
    ensures s' == Do(s, x) && Reaches(s0, s')
  {
    s' := Do(s, x);
    var steps :| Run(s0, steps) == s;
    RunSnoc(s0, steps, x);
  }

  /** A caller alone enters past a guard that does not name its fingerprint. */
  lemma GetsIn(s0: State, s: State, c: CallerId) returns (s': State)
    requires Reaches(s0, s) && c in s.callers && s.callers[c].pc == Fingerprinted
    requires s.lock.None? && s.guard != Some(s.callers[c].fp)
    ensures Reaches(s0, s')
    ensures s' == s.(callers := s.callers[c := s.callers[c].(pc := Unguarded)], lock := Some(c),
                     late := if s.callers[c].fp == s.fp then s.late else s.late + 1)
  {
    s' := Next(s0, s, Enter(c));
    s' := Next(s0, s', CheckGuard(c));
    assert s'.callers == s.callers[c := s.callers[c].(pc := Unguarded)];
  }

  /** What a caller's stay leaves of the run's other fields. */
  predicate SameRun(s: State, u: State) {
    u.fp == s.fp && u.fps == s.fps && u.signature == s.signature && u.restored == s.restored && u.lock.None?
  }

  lemma UpToReceipt(s0: State, s: State, c: CallerId) returns (s': State)
    requires Reaches(s0, s) && c in s.callers && s.callers[c].pc == Unguarded && s.lock == Some(c) && s.signature
    ensures Reaches(s0, s') && s'.callers == s.callers[c := s.callers[c].(pc := Receipted)]
    ensures s'.receipts == s.receipts + [Receipt(c, s.callers[c].fp)] && s'.guard == s.guard && s'.lock == Some(c)
    ensures s'.late == s.late && s'.crashes == s.crashes && s'.restored == s.restored
    ensures s'.fp == s.fp && s'.fps == s.fps && s'.signature
  {
    s' := Next(s0, s, CheckSignature(c));
    s' := Next(s0, s', Spawn(c, true));
    s' := Next(s0, s', AppendReceipt(c));
    assert s'.callers == s.callers[c := s.callers[c].(pc := Receipted)];
  }

  /** A caller that holds an unguarded fingerprint respawns a crashed run. */
  lemma Respawns(s0: State, s: State, c: CallerId) returns (s': State)
    requires Reaches(s0, s) && c in s.callers && s.callers[c].pc == Fingerprinted
    requires s.lock.None? && s.signature && s.guard != Some(s.callers[c].fp)
    ensures Reaches(s0, s') && SameRun(s, s') && s'.guard == Some(s.callers[c].fp)
    ensures s'.callers == s.callers[c := Caller(Done, s.callers[c].fp, true)]
    ensures s'.receipts == s.receipts + [Receipt(c, s.callers[c].fp)]
    ensures s'.late == (if s.callers[c].fp == s.fp then s.late else s.late + 1) && s'.crashes == s.crashes
  {
    var s1 := GetsIn(s0, s, c);
    s1 := UpToReceipt(s0, s1, c);
    s' := Next(s0, s1, WriteGuard(c));
    assert s'.callers == s.callers[c := Caller(Done, s.callers[c].fp, true)];
  }

  /** A new caller computes the fingerprint and respawns the crashed run. */
  lemma Newcomer(s0: State, s: State, c: CallerId) returns (s': State)
    requires Reaches(s0, s) && c !in s.callers && s.lock.None? && s.signature && s.guard != Some(s.fp)
    ensures Reaches(s0, s') && SameRun(s, s') && s'.guard == Some(s.fp)
    ensures s'.callers == s.callers[c := Caller(Done, s.fp, true)]
    ensures s'.receipts == s.receipts + [Receipt(c, s.fp)] && s'.late == s.late && s'.crashes == s.crashes
  {
    var s1 := Next(s0, s, Fingerprint(c));
    s' := Respawns(s0, s1, c);
    assert s'.callers == s.callers[c := Caller(Done, s.fp, true)];
  }

  lemma Begins(fp: Fp) returns (s: State)
    ensures s == Initial(fp, true) && Reaches(s, s)
  {
    s := Initial(fp, true);
    assert Run(s, []) == s;
  }

  /** Caller 1 holds fingerprint 1, caller 0 respawned it, and the run was amended. */
  lemma HeldAndAmended() returns (s: State)
    ensures Reaches(Initial(1, true), s) && s.lock.None? && s.signature && s.fp == 2 && s.guard == Some(1)
    ensures s.callers == map[1 := Caller(Fingerprinted, 1, false), 0 := Caller(Done, 1, true)]
    ensures s.receipts == [Receipt(0, 1)] && s.crashes == 0 && s.restored == 0 && s.late == 0
  {
    var s0 := Begins(1);
    s := Next(s0, s0, Fingerprint(1));
    s := Newcomer(s0, s, 0);
    s := Next(s0, s, Amend(2));
  }

  /** Two callers hold fingerprint 1; one respawns, an amend follows and is respawned, and the
      other enters with the fingerprint gone by. */
  lemma StaleCallersRespawnAgain() returns (s: State)
    ensures Reaches(Initial(1, true), s) && s.crashes == 0 && s.restored == 0 && s.late == 1
    ensures s.receipts == [Receipt(0, 1), Receipt(2, 2), Receipt(1, 1)]
  {
    var s0 := Initial(1, true);
    s := HeldAndAmended();
    s := Newcomer(s0, s, 2);
    s := Respawns(s0, s, 1);
  }

  /** An amend away and another back: fingerprint 1 is respawned before and after. */
  lemma AmendedBackRespawnsAgain() returns (s: State)
    ensures Reaches(Initial(1, true), s) && s.crashes == 0 && s.late == 0 && s.restored == 1
    ensures s.receipts == [Receipt(0, 1), Receipt(1, 2), Receipt(2, 1)]
  {
    var s0 := Begins(1);
    s := Newcomer(s0, s0, 0);
    s := Next(s0, s, Amend(2));
    s := Newcomer(s0, s, 1);
    s := Next(s0, s, Amend(1));
    s := Newcomer(s0, s, 2);
  }

  /** A caller dies between its receipt and its guard write; the next one respawns again. */
  lemma DeadCallerRespawnsAgain() returns (s: State)
    ensures Reaches(Initial(1, true), s) && s.crashes == 1 && s.late == 0 && s.restored == 0
    ensures s.receipts == [Receipt(0, 1), Receipt(1, 1)]
  {
    var s0 := Begins(1);
    s := Next(s0, s0, Fingerprint(0));
    s := GetsIn(s0, s, 0);
    s := UpToReceipt(s0, s, 0);
    s := Next(s0, s, Crash(0));
    s := Newcomer(s0, s, 1);
  }
}
