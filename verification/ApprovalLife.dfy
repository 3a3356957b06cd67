/** The life of one hold in any run of the approval bridge: how its instance moves, when it is lost,
    that it is presented, and once, that it never counts again once it is over, and which rows of a
    log never become one. */
module ApprovalLife {
  import opened Wrappers
  import opened ApprovalBridge
  import opened ApprovalRuns

  // ---------------------------------------------------------------- one step --

  /** The instance after a step that edits tables, from its own point of view. */
  function Moved(s: State, step: Step, x: Token): Instance
    requires x in s.t.instances
  {
    var i := s.t.instances[x];
    match step
    case Skip(k) => if k == x && At(s, x) == Fresh then i.(phase := Skipped) else i
    case Issue(k) => if k == x && At(s, x) == Fresh && i.phase == Pending then i.(phase := Issued) else i
    case Present(k, accepted) =>
      if k == x && At(s, x) == Presenting && !accepted && !i.resolved then i.(phase := Failed) else i
    case PreApproval(k) => if k == x && i.phase == Issued then i.(phase := Noticed) else i
    case PostApproval(k, _) => if k == x && !i.resolved then i.(phase := Resolved, resolved := true) else i
    case Reconcile(k) => if k == x && !i.resolved then i.(phase := Resolved, resolved := true) else i
    case _ => i
  }

  /** The step ends its token's instance, which enters the queue. */
  predicate Ends(s: State, step: Step) {
    match step
    case Present(k, accepted) =>
      At(s, k) == Presenting && !accepted && k in s.t.instances && !s.t.instances[k].resolved
    case PostApproval(k, _) => k in s.t.instances && !s.t.instances[k].resolved
    case Reconcile(k) => k in s.t.instances && !s.t.instances[k].resolved
    case _ => false
  }

  /** Every instance moves as above; one is lost exactly when it is the head of a full queue into
      which a token enters; none is new. */
  ghost predicate MovesJust(s: State, step: Step, u: Tables)
    requires Edits(step) && |s.t.order| <= KEEP_RESOLVED
  {
    var full := Ends(s, step) && |s.t.order| == KEEP_RESOLVED;
    && (forall x :: x in u.instances <==> x in s.t.instances && !(full && x == s.t.order[0]))
    && (forall x :: x in u.instances ==> u.instances[x] == Moved(s, step, x))
    && u.order == (if full then s.t.order[1..] + [step.k]
                     else if Ends(s, step) then s.t.order + [step.k] else s.t.order)
  }

  /** A token enters a queue that holds at most what it may. */
  lemma EnqueueOne(t: Tables, k: Token)
    requires |t.order| <= KEEP_RESOLVED
    ensures Enqueue(t, k) ==
            if |t.order| < KEEP_RESOLVED then t.(order := t.order + [k])
            else t.(order := t.order[1..] + [k], instances := t.instances - {t.order[0]})
  {
    var more := t.(order := t.order + [k]);
    if |t.order| < KEEP_RESOLVED {
      NewestAll(more);
    } else {
      assert more.order[..1] == [t.order[0]] && more.order[1..] == t.order[1..] + [k];
      assert Tokens([t.order[0]]) == {t.order[0]};
    }
  }

  /** `u` is `t` with the instance of `k` ended as `i` and its token in the queue. */
  ghost predicate EndedAs(t: Tables, u: Tables, k: Token, i: Instance)
    requires |t.order| <= KEEP_RESOLVED
  {
    var full := |t.order| == KEEP_RESOLVED;
    && (forall x :: x in u.instances <==> x in t.instances && !(full && x == t.order[0]))
    && (forall x :: x in u.instances ==> u.instances[x] == if x == k then i else t.instances[x])
    && u.order == (if full then t.order[1..] else t.order) + [k]
  }

  lemma EnqueuedEnds(t: Tables, k: Token, i: Instance)
    requires k in t.instances && |t.order| <= KEEP_RESOLVED
    ensures EndedAs(t, Enqueue(Set(t, k, i), k), k, i)
  {
    EnqueueOne(Set(t, k, i), k);
  }

  lemma EndsAre(parse: Parser, s: State, step: Step)
    requires Edits(step) && Ends(s, step)
    ensures var u, e := Do(parse, s, step).t, Enqueue(Set(s.t, step.k, Moved(s, step, step.k)), step.k);
            u.instances == e.instances && u.order == e.order
  {
  }

  lemma EndedMoves(s: State, step: Step, u: Tables)
    requires Edits(step) && Ends(s, step) && |s.t.order| <= KEEP_RESOLVED
    requires EndedAs(s.t, u, step.k, Moved(s, step, step.k))
    ensures MovesJust(s, step, u)
  {
    forall x | x in s.t.instances && x != step.k ensures Moved(s, step, x) == s.t.instances[x] {
    }
  }

  lemma EndsMove(parse: Parser, s: State, step: Step)
    requires Edits(step) && Ends(s, step) && |s.t.order| <= KEEP_RESOLVED
    ensures MovesJust(s, step, Do(parse, s, step).t)
  {
    var i, u := Moved(s, step, step.k), Do(parse, s, step).t;
    EndsAre(parse, s, step);
    EnqueuedEnds(s.t, step.k, i);
    SameEnd(s.t, u, Enqueue(Set(s.t, step.k, i), step.k), step.k, i);
    EndedMoves(s, step, u);
  }

  lemma SameEnd(t: Tables, u: Tables, e: Tables, k: Token, i: Instance)
    requires |t.order| <= KEEP_RESOLVED && EndedAs(t, e, k, i)
    requires u.instances == e.instances && u.order == e.order
    ensures EndedAs(t, u, k, i)
  {
  }

  lemma OthersMove(parse: Parser, s: State, step: Step)
    requires Edits(step) && !Ends(s, step) && |s.t.order| <= KEEP_RESOLVED
    ensures MovesJust(s, step, Do(parse, s, step).t)
  {
  }

  /** Skipping, issuing, presenting, hooks and sweep move exactly the instance they name, and only
      from the phase they apply to; an instance is lost exactly at the head of a full queue. */
  lemma InstancesMoveJust(parse: Parser, s: State, step: Step)
    requires Edits(step) && |s.t.order| <= KEEP_RESOLVED
    ensures MovesJust(s, step, Do(parse, s, step).t)
  {
    if Ends(s, step) { EndsMove(parse, s, step); } else { OthersMove(parse, s, step); }
  }

  // ---------------------------------------------------------------- once over, over --

  /** The hold was answered, or is gone: it was minted, and its instance does not count. */
  predicate IsOver(t: Tables, k: Token) { k in t.mints && (k in t.instances ==> t.instances[k].resolved) }

  lemma EditKeepsOver(parse: Parser, s: State, step: Step, k: Token)
    requires Edits(step) && |s.t.order| <= KEEP_RESOLVED && IsOver(s.t, k)
    ensures IsOver(Do(parse, s, step).t, k)
  {
    InstancesMoveJust(parse, s, step);
    EditKeepsLogs(parse, s, step);
  }

  lemma TickKeepsOver(parse: Parser, s: State, run: RunId, k: Token)
    requires LogsOk(parse, s) && TablesOk(s.t) && run in s.logs && IsOver(s.t, k)
    ensures IsOver(Do(parse, s, Tick(run)).t, k)
  {
    var rows := FreshRows(s.t, parse, run, s.logs[run]);
    var u := Do(parse, s, Tick(run));
    TickMintsNew(parse, s, run);
    assert k !in rows;
    if k in u.t.instances {
      MintAllKeeps(s.t.(offsets := s.t.offsets[run := ReadUpTo(s.t, run, s.logs[run])]), rows, k);
    }
  }

  lemma {:induction false} RunKeepsOver(parse: Parser, s: State, steps: seq<Step>, k: Token)
    requires Inv(parse, s) && IsOver(s.t, k)
    ensures IsOver(Run(parse, s, steps).t, k)
    decreases |steps|
  {
    if steps != [] {
      var step := steps[0];
      if step.Tick? {
        if step.run in s.logs { TickKeepsOver(parse, s, step.run, k); }
      } else if Edits(step) {
        EditKeepsOver(parse, s, step, k);
      }
      StepKeepsInv(parse, s, step);
      RunKeepsOver(parse, Do(parse, s, step), steps[1..], k);
    }
  }

  /** The step answers the hold, or sweeps it because it is gone. */
  predicate Answers(step: Step, k: Token) { (step.PostApproval? || step.Reconcile?) && step.k == k }

  lemma MovedFrees(s: State, step: Step, u: Tables, k: Token)
    requires Answers(step, k) && |s.t.order| <= KEEP_RESOLVED && MovesJust(s, step, u)
    ensures Inflight(u) <= Inflight(s.t) - {k}
    ensures k in u.instances ==> u.instances[k].resolved
  {
    forall x | x in Inflight(u) ensures x in Inflight(s.t) && x != k {
      assert u.instances[x] == Moved(s, step, x);
    }
  }

  lemma AnswerFrees(parse: Parser, s: State, step: Step, k: Token)
    requires Answers(step, k) && |s.t.order| <= KEEP_RESOLVED && k in s.t.mints
    ensures var u := Do(parse, s, step); IsOver(u.t, k) && Inflight(u.t) <= Inflight(s.t) - {k}
  {
    InstancesMoveJust(parse, s, step);
    EditKeepsLogs(parse, s, step);
    MovedFrees(s, step, Do(parse, s, step).t, k);
  }

  /** A response or a sweep frees the hold's slot among those in flight, and whatever follows the
      hold never takes one again. */
  lemma AnsweredNeverCounts(parse: Parser, before: seq<Step>, step: Step, after: seq<Step>, k: Token)
    requires Answers(step, k) && k in Run(parse, Initial(), before).t.mints
    ensures var s := Do(parse, Run(parse, Initial(), before), step);
            && Inflight(s.t) <= Inflight(Run(parse, Initial(), before).t) - {k}
            && k !in Inflight(Run(parse, s, after).t)
  {
    var s0 := Run(parse, Initial(), before);
    RunKeepsInv(parse, Initial(), before);
    AnswerFrees(parse, s0, step, k);
    StepKeepsInv(parse, s0, step);
    RunKeepsOver(parse, Do(parse, s0, step), after, k);
  }

  // ---------------------------------------------------------------- presented once --

  /** How often the run presents the hold. */
  function Presented(parse: Parser, s: State, steps: seq<Step>, k: Token): nat
    decreases |steps|
  {
    if steps == [] then 0
    else
      (if steps[0].Present? && steps[0].k == k && At(s, k) == Presenting then 1 else 0)
      + Presented(parse, Do(parse, s, steps[0]), steps[1..], k)
  }

  /** A hold that has no token yet may be presented once; after that its emitter decides. */
  function MayPresent(s: State, k: Token): nat {
    if k !in s.t.mints || At(s, k) != Over then 1 else 0
  }

  lemma EditSpends(parse: Parser, s: State, step: Step, k: Token)
    requires Edits(step)
    ensures MayPresent(Do(parse, s, step), k) <= MayPresent(s, k)
    ensures step.Present? && step.k == k && At(s, k) == Presenting && k in s.t.mints ==>
              MayPresent(Do(parse, s, step), k) == 0
  {
    EditKeepsLogs(parse, s, step);
  }

  lemma TickSpends(parse: Parser, s: State, run: RunId, k: Token)
    requires LogsOk(parse, s) && TablesOk(s.t) && run in s.logs
    ensures MayPresent(Do(parse, s, Tick(run)), k) <= MayPresent(s, k)
  {
    var u, rows := Do(parse, s, Tick(run)), FreshRows(s.t, parse, run, s.logs[run]);
    TickMintsNew(parse, s, run);
    if k in s.t.mints && k in u.t.instances {
      MintAllKeeps(s.t.(offsets := s.t.offsets[run := ReadUpTo(s.t, run, s.logs[run])]), rows, k);
    }
  }

  lemma {:induction false} RunSpends(parse: Parser, s: State, steps: seq<Step>, k: Token)
    requires Inv(parse, s)
    ensures Presented(parse, s, steps, k) <= MayPresent(s, k)
    decreases |steps|
  {
    if steps != [] {
      var step := steps[0];
      if step.Tick? {
        if step.run in s.logs { TickSpends(parse, s, step.run, k); }
      } else if Edits(step) {
        EditSpends(parse, s, step, k);
      }
      StepKeepsInv(parse, s, step);
      RunSpends(parse, Do(parse, s, step), steps[1..], k);
    }
  }

  /** In every run a hold is presented at most once. */
  lemma PresentedOnce(parse: Parser, steps: seq<Step>, k: Token)
    ensures Presented(parse, Initial(), steps, k) <= 1
  {
    RunSpends(parse, Initial(), steps, k);
  }

  lemma TurnedAwaySpends(parse: Parser, s: State, step: Step, k: Token)
    requires Inv(parse, s) && TurnsAway(s, step, k)
    ensures MayPresent(Do(parse, s, step), k) == 0
  {
    EditKeepsLogs(parse, s, step);
  }

  /** The emitter skips its hold, or finds it no longer pending at its turn. */
  predicate TurnsAway(s: State, step: Step, k: Token) {
    && At(s, k) == Fresh
    && (step == Skip(k) || (step == Issue(k) && (k in s.t.instances ==> s.t.instances[k].phase != Pending)))
  }

  /** A hold whose emitter finds nothing to present, or finds it answered or gone at its turn, is never presented. */
  lemma {:induction false} TurnedAwayIsNeverPresented(
    parse: Parser, before: seq<Step>, step: Step, after: seq<Step>, k: Token)
    requires TurnsAway(Run(parse, Initial(), before), step, k)
    ensures Presented(parse, Do(parse, Run(parse, Initial(), before), step), after, k) == 0
  {
    var s := Run(parse, Initial(), before);
    RunKeepsInv(parse, Initial(), before);
    TurnedAwaySpends(parse, s, step, k);
    StepKeepsInv(parse, s, step);
    RunSpends(parse, Do(parse, s, step), after, k);
  }

  // ---------------------------------------------------------------- presented at all --

  lemma {:induction false} BreakIsNext(log: string, row: string, pos: nat)
    requires '\n' !in row && |log| <= pos <= |log| + |row|
    ensures NextBreak(log + row + ['\n'], pos) == |log| + |row|
    decreases |log| + |row| - pos
  {
    var all := log + row + ['\n'];
    if pos < |log| + |row| {
      assert all[pos] == row[pos - |log|];
      BreakIsNext(log, row, pos + 1);
    }
  }

  /** One line was appended to what was read: it is the one fresh row. */
  lemma {:induction false} OneFreshRow(
    t: Tables, parse: Parser, run: RunId, log: string, row: string, gate: Gate, ts: Ts)
    requires run in t.offsets && t.offsets[run] == |log| && '\n' !in row && parse(row) == Some((gate, ts))
    ensures FreshRows(t, parse, run, log + row + ['\n']) == [Token(run, gate, |log|, ts)]
  {
    var all := log + row + ['\n'];
    BreakIsNext(log, row, |log|);
    assert all[|log|..|log| + |row|] == row;
    assert Complete(all, |log|) == Complete(all, |all|) == |all|;
    assert RowTokens(parse, run, all, |all|, |all|) == [];
  }

  lemma MintAllOne(t: Tables, k: Token)
    ensures MintAll(t, [k]) == Minted(t, k)
  {
    assert [k][1..] == [];
    assert MintAll(Minted(t, k), []) == Minted(t, k);
  }

  lemma SameInflight(t: Tables, u: Tables)
    requires t.instances == u.instances
    ensures Inflight(t) == Inflight(u)
  {
  }

  /** The state after one hold row was appended to a log read to its end, and the run was read again. */
  function Appended(parse: Parser, s: State, run: RunId, row: string): State {
    Do(parse, Do(parse, s, Grow(run, row + ['\n'])), Tick(run))
  }

  lemma {:induction false} AppendedIsMinted(
    parse: Parser, s: State, run: RunId, row: string, gate: Gate, ts: Ts)
    requires run in s.t.offsets && s.t.offsets[run] == |LogOf(s, run)| && run in s.logs
    requires '\n' !in row && parse(row) == Some((gate, ts))
    ensures var log := LogOf(s, run) + row + ['\n'];
            Appended(parse, s, run, row).t ==
            Minted(s.t.(offsets := s.t.offsets[run := ReadUpTo(s.t, run, log)]), Token(run, gate, |LogOf(s, run)|, ts))
  {
    var log := s.logs[run];
    assert log + (row + ['\n']) == log + row + ['\n'];
    OneFreshRow(s.t, parse, run, log, row, gate, ts);
    var all := log + row + ['\n'];
    MintAllOne(s.t.(offsets := s.t.offsets[run := ReadUpTo(s.t, run, all)]), Token(run, gate, |log|, ts));
  }

  lemma MintedPending(t: Tables, k: Token)
    requires |Inflight(t)| < 8 && k !in t.instances
    ensures Minted(t, k) == Made(t, k, Pending) && NewTokens(t, Minted(t, k)) == {k}
  {
  }

  /** Then the hold is pending and its emitter is about to start. */
  lemma {:induction false} AppendedHoldIsPending(
    parse: Parser, s: State, run: RunId, row: string, gate: Gate, ts: Ts)
    requires run in s.t.offsets && s.t.offsets[run] == |LogOf(s, run)| && run in s.logs
    requires '\n' !in row && parse(row) == Some((gate, ts)) && |Inflight(s.t)| < 8
    requires Token(run, gate, |LogOf(s, run)|, ts) !in s.t.instances
    ensures var k := Token(run, gate, |LogOf(s, run)|, ts); var u := Appended(parse, s, run, row);
            && u.t.mints == s.t.mints + [k] && u.t.order == s.t.order
            && u.t.instances == s.t.instances[k := Instance(run, gate, Pending, false)]
            && At(u, k) == Fresh
  {
    var all := LogOf(s, run) + row + ['\n'];
    var k := Token(run, gate, |LogOf(s, run)|, ts);
    AppendedIsMinted(parse, s, run, row, gate, ts);
    var t := s.t.(offsets := s.t.offsets[run := ReadUpTo(s.t, run, all)]);
    SameInflight(s.t, t);
    MintedPending(t, k);
    assert NewTokens(s.t, Minted(t, k)) == {k};
  }

  /** A token whose offset nothing was read up to is new. */
  lemma UnreadIsNew(parse: Parser, s: State, k: Token)
    requires LogsOk(parse, s) && TablesOk(s.t) && k.run in s.t.offsets && s.t.offsets[k.run] <= k.off
    ensures k !in s.t.mints && k !in s.t.instances && k.run in s.logs
  {
  }

  /** Only minted tokens enter the queue. */
  ghost predicate QueueKnown(t: Tables) { forall x :: x in t.order ==> x in t.mints }

  lemma EditKeepsQueue(parse: Parser, s: State, step: Step)
    requires Inv(parse, s) && Edits(step) && QueueKnown(s.t)
    ensures QueueKnown(Do(parse, s, step).t)
  {
    InstancesMoveJust(parse, s, step);
    EditKeepsLogs(parse, s, step);
  }

  lemma MintedKeepsQueue(t: Tables, x: Token)
    requires QueueKnown(t)
    ensures QueueKnown(Minted(t, x))
  {
  }

  lemma {:induction false} MintAllKeepsQueue(t: Tables, rows: seq<Token>)
    requires QueueKnown(t)
    ensures QueueKnown(MintAll(t, rows))
    decreases |rows|
  {
    if rows != [] {
      MintedKeepsQueue(t, rows[0]);
      MintAllKeepsQueue(Minted(t, rows[0]), rows[1..]);
    }
  }

  lemma {:induction false} RunKeepsQueue(parse: Parser, s: State, steps: seq<Step>)
    requires Inv(parse, s) && QueueKnown(s.t)
    ensures QueueKnown(Run(parse, s, steps).t)
    decreases |steps|
  {
    if steps != [] {
      var step := steps[0];
      if step.Tick? {
        if step.run in s.logs {
          var t := s.t.(offsets := s.t.offsets[step.run := ReadUpTo(s.t, step.run, s.logs[step.run])]);
          MintAllKeepsQueue(t, FreshRows(s.t, parse, step.run, s.logs[step.run]));
        }
      } else if Edits(step) {
        EditKeepsQueue(parse, s, step);
      }
      StepKeepsInv(parse, s, step);
      RunKeepsQueue(parse, Do(parse, s, step), steps[1..]);
    }
  }

  /** The hold stands pending outside the queue, its emitter about to start. */
  predicate Waits(s: State, k: Token) {
    k in s.t.instances && s.t.instances[k].phase == Pending && !s.t.instances[k].resolved
    && k !in s.t.order && At(s, k) == Fresh
  }

  predicate Names(step: Step, k: Token) { Edits(step) && step.k == k }

  lemma EditLetsWait(parse: Parser, s: State, step: Step, k: Token)
    requires Edits(step) && step.k != k && |s.t.order| <= KEEP_RESOLVED && Waits(s, k)
    ensures Waits(Do(parse, s, step), k)
  {
    InstancesMoveJust(parse, s, step);
    var u := Do(parse, s, step);
    assert Moved(s, step, k) == s.t.instances[k];
    if |s.t.order| == KEEP_RESOLVED { assert s.t.order[0] in s.t.order; }
  }

  lemma MintedSpares(t: Tables, x: Token, k: Token)
    requires k in t.instances && k !in t.order
    ensures var u := Minted(t, x); k in u.instances && u.instances[k] == t.instances[k] && k !in u.order
  {
  }

  lemma {:induction false} MintAllSpares(t: Tables, rows: seq<Token>, k: Token)
    requires k in t.instances && k !in t.order
    ensures var u := MintAll(t, rows); k in u.instances && u.instances[k] == t.instances[k] && k !in u.order
    decreases |rows|
  {
    if rows != [] {
      MintedSpares(t, rows[0], k);
      MintAllSpares(Minted(t, rows[0]), rows[1..], k);
    }
  }

  lemma TickLetsWait(parse: Parser, s: State, run: RunId, k: Token)
    requires run in s.logs && Waits(s, k)
    ensures Waits(Do(parse, s, Tick(run)), k)
  {
    var t := s.t.(offsets := s.t.offsets[run := ReadUpTo(s.t, run, s.logs[run])]);
    MintAllSpares(t, FreshRows(s.t, parse, run, s.logs[run]), k);
  }

  lemma StepLetsWait(parse: Parser, s: State, step: Step, k: Token)
    requires |s.t.order| <= KEEP_RESOLVED && Waits(s, k) && !Names(step, k)
    ensures Waits(Do(parse, s, step), k)
  {
    if step.Tick? {
      if step.run in s.logs { TickLetsWait(parse, s, step.run, k); }
    } else if Edits(step) {
      EditLetsWait(parse, s, step, k);
    }
  }

  /** Nothing that does not name a waiting hold takes its turn from it. */
  lemma {:induction false} HoldWaits(parse: Parser, s: State, steps: seq<Step>, k: Token)
    requires Inv(parse, s) && Waits(s, k) && forall i :: 0 <= i < |steps| ==> !Names(steps[i], k)
    ensures Waits(Run(parse, s, steps), k)
    decreases |steps|
  {
    if steps != [] {
      StepLetsWait(parse, s, steps[0], k);
      StepKeepsInv(parse, s, steps[0]);
      HoldWaits(parse, Do(parse, s, steps[0]), steps[1..], k);
    }
  }

  lemma {:induction false} WaitingHoldIsPresented(parse: Parser, s: State, k: Token, accepted: bool)
    requires Waits(s, k)
    ensures Presented(parse, s, [Issue(k), Present(k, accepted)], k) == 1
    ensures var u := Do(parse, Do(parse, s, Issue(k)), Present(k, accepted));
            At(u, k) == Over && (accepted ==> k in u.t.instances && u.t.instances[k].phase == Issued)
  {
    var steps := [Issue(k), Present(k, accepted)];
    var s1 := Do(parse, s, Issue(k));
    assert steps[1..] == [Present(k, accepted)] && [Present(k, accepted)][1..] == [];
    assert At(s1, k) == Presenting;
    assert Presented(parse, Do(parse, s1, Present(k, accepted)), [], k) == 0;
    assert Presented(parse, s1, [Present(k, accepted)], k) == 1;
  }

  lemma AppendedKeepsInv(parse: Parser, s: State, run: RunId, row: string)
    requires Inv(parse, s)
    ensures Inv(parse, Appended(parse, s, run, row))
  {
    StepKeepsInv(parse, s, Grow(run, row + ['\n']));
    StepKeepsInv(parse, Do(parse, s, Grow(run, row + ['\n'])), Tick(run));
  }

  /** What was appended waits for its emitter. */
  lemma {:induction false} AppendedHoldWaits(parse: Parser, s: State, run: RunId, row: string, k: Token)
    requires Inv(parse, s) && QueueKnown(s.t) && run in s.t.offsets && s.t.offsets[run] == |LogOf(s, run)|
    requires '\n' !in row && parse(row) == Some((k.gate, k.ts)) && |Inflight(s.t)| < 8
    requires k.run == run && k.off == |LogOf(s, run)|
    ensures k !in s.t.mints && Appended(parse, s, run, row).t.mints == s.t.mints + [k]
    ensures Waits(Appended(parse, s, run, row), k)
  {
    UnreadIsNew(parse, s, k);
    AppendedHoldIsPending(parse, s, run, row, k.gate, k.ts);
  }

  /**
   A hold row appended to a log that was read to its end, with fewer than eight holds in flight, is
   minted by the next tick; and whatever happens then that does not name it, its emitter presents it.
  */
  lemma {:induction false} AppendedHoldIsPresented(
    parse: Parser, before: seq<Step>, run: RunId, row: string, k: Token, after: seq<Step>, accepted: bool)
    requires var s := Run(parse, Initial(), before);
             && run in s.t.offsets && s.t.offsets[run] == |LogOf(s, run)| && |Inflight(s.t)| < 8
             && k.run == run && k.off == |LogOf(s, run)|
    requires '\n' !in row && parse(row) == Some((k.gate, k.ts))
    requires forall i :: 0 <= i < |after| ==> !Names(after[i], k)
    ensures var s := Run(parse, Initial(), before); var u := Appended(parse, s, run, row);
            && k !in s.t.mints && u.t.mints == s.t.mints + [k]
            && Presented(parse, Run(parse, u, after), [Issue(k), Present(k, accepted)], k) == 1
  {
    var s := Run(parse, Initial(), before);
    RunKeepsInv(parse, Initial(), before);
    RunKeepsQueue(parse, Initial(), before);
    AppendedHoldWaits(parse, s, run, row, k);
    AppendedKeepsInv(parse, s, run, row);
    HoldWaits(parse, Appended(parse, s, run, row), after, k);
    WaitingHoldIsPresented(parse, Run(parse, Appended(parse, s, run, row), after), k, accepted);
  }

  // ---------------------------------------------------------------- never minted --

  /** A row that was passed over: not minted, and behind whatever is read next. */
  predicate PassedOver(s: State, k: Token) {
    && k !in s.t.mints && k.run in s.logs && k.off < |s.logs[k.run]|
    && (k.run in s.t.offsets ==> k.off < s.t.offsets[k.run])
  }

  lemma TickPassesOver(parse: Parser, s: State, run: RunId, k: Token)
    requires Inv(parse, s) && run in s.logs && PassedOver(s, k)
    ensures PassedOver(Do(parse, s, Tick(run)), k)
  {
    TickMintsNew(parse, s, run);
    TickedOffsets(s.t, parse, run, s.logs[run]);
  }

  lemma {:induction false} StaysPassedOver(parse: Parser, s: State, steps: seq<Step>, k: Token)
    requires Inv(parse, s) && PassedOver(s, k)
    ensures PassedOver(Run(parse, s, steps), k)
    decreases |steps|
  {
    if steps != [] {
      var step := steps[0];
      if step.Tick? {
        if step.run in s.logs { TickPassesOver(parse, s, step.run, k); }
      } else if Edits(step) {
        EditKeepsLogs(parse, s, step);
      }
      StepKeepsInv(parse, s, step);
      StaysPassedOver(parse, Do(parse, s, step), steps[1..], k);
    }
  }

  /** A run that was forgotten and is seen again is read from its end. */
  lemma {:induction false} ForgottenIsReseeded(parse: Parser, s: State, run: RunId)
    requires run in s.logs
    ensures var u := Do(parse, Do(parse, s, Forget(run)), Tick(run));
            && u.t == s.t.(offsets := s.t.offsets[run := |s.logs[run]|]) && u.seeds == s.seeds[run := |s.logs[run]|]
            && u.logs == s.logs
  {
    var forgot := Do(parse, s, Forget(run));
    TickedIdle(forgot.t, parse, run, s.logs[run]);
    assert forgot.t.offsets[run := |s.logs[run]|] == s.t.offsets[run := |s.logs[run]|];
  }

  lemma {:induction false} ForgetKeepsAll(parse: Parser, s: State, run: RunId)
    requires Inv(parse, s)
    ensures Inv(parse, Do(parse, Do(parse, s, Forget(run)), Tick(run)))
  {
    StepKeepsInv(parse, s, Forget(run));
    StepKeepsInv(parse, Do(parse, s, Forget(run)), Tick(run));
  }

  /** And no hold row that stands in its log by then and was not minted is ever minted. */
  lemma {:induction false} ForgottenRowsAreNeverMinted(
    parse: Parser, before: seq<Step>, run: RunId, k: Token, after: seq<Step>)
    requires var s := Run(parse, Initial(), before);
             run in s.logs && k.run == run && k.off < |s.logs[run]| && k !in s.t.mints
    ensures var u := Do(parse, Do(parse, Run(parse, Initial(), before), Forget(run)), Tick(run));
            k !in Run(parse, u, after).t.mints
  {
    var s := Run(parse, Initial(), before);
    RunKeepsInv(parse, Initial(), before);
    ForgetKeepsAll(parse, s, run);
    ForgottenIsReseeded(parse, s, run);
    StaysPassedOver(parse, Do(parse, Do(parse, s, Forget(run)), Tick(run)), after, k);
  }
}
