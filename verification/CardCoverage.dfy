/**
 What covers a card: the entry in the ledger, which the next hook owes, or a standing claim.
 Where the code's rules leave a card uncovered, the run and the exact condition are here too.
*/
module CardCoverage {
  import L = CardLedger
  import opened CardEnforcement
  import opened CardShipping

  /** Every claim belongs to a living text of its session and turn that carries the card. */
  ghost predicate ClaimOk(s: State, k: Key) {
    k in s.t.pending ==>
      var claim := s.t.pending[k];
      && claim.ref in s.texts && claim.ref in s.made && claim.turn <= Now(s, k.0)
      && s.texts[claim.ref].turn == claim.turn && k in Carried(s.texts[claim.ref])
  }

  ghost predicate ClaimsOk(s: State) {
    && (forall k :: ClaimOk(s, k))
    && (forall w :: w in s.workers ==> s.workers[w].turn <= Now(s, s.workers[w].session))
    && (forall id :: id in s.texts ==> id in s.made)
  }

  lemma StepClaim(s: State, step: Step, k: Key)
    requires ClaimsOk(s)
    ensures ClaimOk(Do(s, step), k)
  {
    assert ClaimOk(s, k);
    StepTime(s, step, k.0, 0);
    if step.Propose? && step.w in s.workers && k in KeysOf(s.workers[step.w].session, s.workers[step.w].take) {
      assert k.0 == s.workers[step.w].session;
    }
  }

  lemma StepKeepsClaims(s: State, step: Step)
    requires ClaimsOk(s)
    ensures ClaimsOk(Do(s, step))
  {
    var s' := Do(s, step);
    forall k ensures ClaimOk(s', k) { StepClaim(s, step, k); }
    forall w | w in s'.workers ensures s'.workers[w].turn <= Now(s', s'.workers[w].session) {
      StepWorkers(s, step, w);
      StepTime(s, step, s'.workers[w].session, 0);
    }
    StepMade(s, step);
  }

  lemma StepMade(s: State, step: Step)
    requires forall id :: id in s.texts ==> id in s.made
    ensures var s' := Do(s, step); forall id :: id in s'.texts ==> id in s'.made
  {
  }

  lemma {:induction false} RunKeepsClaims(s: State, steps: seq<Step>)
    requires ClaimsOk(s)
    ensures ClaimsOk(Execute(s, steps))
    decreases |steps|
  {
    if steps != [] {
      StepKeepsClaims(s, steps[0]);
      RunKeepsClaims(Do(s, steps[0]), steps[1..]);
    }
  }

  /** A card the session's hook of this turn may count on: owed, or on a living text of the turn. */
  ghost predicate OwedOrClaimed(s: State, k: Key) {
    || k.1 in Owed(s.t, k.0)
    || (k in s.t.pending
        && var ref := s.t.pending[k].ref;
           ref in s.texts && s.texts[ref].turn == Now(s, k.0) && k in Carried(s.texts[ref]))
  }

  ghost predicate Outstanding(s: State, k: Key) { k in s.t.ledger && k !in s.t.retired }

  /** A claim of an earlier turn stands on the card. */
  ghost predicate StaleClaim(s: State, k: Key) { k in s.t.pending && s.t.pending[k].turn != Now(s, k.0) }

  /** A proposal that claims the card for a turn its session has left: an abandoned worker's. */
  ghost predicate LateProposal(s: State, step: Step, k: Key) {
    && step.Propose? && step.w in s.workers && step.id !in s.made
    && var me := s.workers[step.w];
    && me.turn != Now(s, me.session) && k in KeysOf(me.session, me.take) && k !in s.t.pending
  }

  /** The session's hook of this turn has reconciled. */
  ghost function HookNow(s: State, sid: Session): State { Do(s, Reconcile(sid, Now(s, sid))) }

  /** Whatever else happens to an outstanding card, it is covered unless a stale claim stands on it. */
  lemma CoveredUnlessStale(s: State, k: Key)
    requires ClaimsOk(s) && Outstanding(s, k)
    ensures OwedOrClaimed(s, k) <==> !StaleClaim(s, k)
  {
    assert ClaimOk(s, k);
    OwedIsOwed(s.t, k.0, k.1);
  }

  /** In every run, at every instant and so at the hook's read of the owed cards: an entry in
      the ledger that no paste retired is owed or on a living text of this turn, if and only if
      no claim of an earlier turn stands on it; and a reconcile of this turn leaves none. */
  lemma NothingOwedIsLost(ledger: L.Plain, steps: seq<Step>, k: Key)
    ensures var s := Execute(Initial(ledger), steps);
            && (Outstanding(s, k) ==> (OwedOrClaimed(s, k) <==> !StaleClaim(s, k)))
            && !StaleClaim(HookNow(s, k.0), k)
            && (Outstanding(s, k) ==> OwedOrClaimed(HookNow(s, k.0), k))
  {
    var s := Execute(Initial(ledger), steps);
    RunKeepsClaims(Initial(ledger), steps);
    StepKeepsClaims(s, Reconcile(k.0, Now(s, k.0)));
    if Outstanding(s, k) {
      CoveredUnlessStale(s, k);
      CoveredUnlessStale(HookNow(s, k.0), k);
    }
  }

  lemma NewTurnFrees(s: State, k: Key)
    requires ClaimOk(s, k) && Settled(s, k.0)
    ensures var h := HookNow(Do(s, NextTurn(k.0)), k.0);
            k !in h.t.pending && h.t.ledger == s.t.ledger && h.t.retired == s.t.retired
  {
    var u := Do(s, NextTurn(k.0));
    assert u.t == s.t && Now(u, k.0) == Now(s, k.0) + 1;
  }

  /** A new turn's hook owes every outstanding card that the turn before left uncommitted. */
  lemma OwedAtTheNextHook(ledger: L.Plain, steps: seq<Step>, k: Key)
    ensures var s := Execute(Initial(ledger), steps);
            Outstanding(s, k) && Settled(s, k.0) ==> k.1 in Owed(HookNow(Do(s, NextTurn(k.0)), k.0).t, k.0)
  {
    var s := Execute(Initial(ledger), steps);
    RunKeepsClaims(Initial(ledger), steps);
    assert ClaimOk(s, k);
    if Outstanding(s, k) && Settled(s, k.0) {
      NewTurnFrees(s, k);
      OwedIsOwed(HookNow(Do(s, NextTurn(k.0)), k.0).t, k.0, k.1);
    }
  }

  /** Within a turn a step makes a claim stale exactly when it is a late proposal of the card. */
  lemma StepStales(s: State, step: Step, k: Key)
    requires ClaimsOk(s) && !StaleClaim(s, k) && Now(Do(s, step), k.0) == Now(s, k.0)
    ensures StaleClaim(Do(s, step), k) <==> LateProposal(s, step, k)
  {
    if step.Propose? && step.w in s.workers && k in KeysOf(s.workers[step.w].session, s.workers[step.w].take) {
      assert k.0 == s.workers[step.w].session;
    }
  }

  lemma {:induction false} TimeOnlyGrows(s: State, steps: seq<Step>, sid: Session)
    ensures Now(s, sid) <= Now(Execute(s, steps), sid)
    decreases |steps|
  {
    if steps != [] {
      StepTime(s, steps[0], sid, 0);
      TimeOnlyGrows(Do(s, steps[0]), steps[1..], sid);
    }
  }

  /** Some step of the run is a late proposal of the card. */
  ghost predicate ProposedLate(s: State, steps: seq<Step>, k: Key)
    decreases |steps|
  {
    steps != [] && (LateProposal(s, steps[0], k) || ProposedLate(Do(s, steps[0]), steps[1..], k))
  }

  /** At some instant of the run a stale claim stands on the card. */
  ghost predicate EverStale(s: State, steps: seq<Step>, k: Key)
    decreases |steps|
  {
    StaleClaim(s, k) || (steps != [] && EverStale(Do(s, steps[0]), steps[1..], k))
  }

  /** From the hook's reconcile to any later instant of the turn, a card is ever hidden from an
      owed read if and only if a worker of an earlier turn proposed it in between. */
  lemma {:induction false} HiddenExactlyByLateProposals(s: State, steps: seq<Step>, k: Key)
    requires ClaimsOk(s) && !StaleClaim(s, k) && Now(Execute(s, steps), k.0) == Now(s, k.0)
    ensures EverStale(s, steps, k) <==> ProposedLate(s, steps, k)
    decreases |steps|
  {
    if steps != [] {
      var s' := Do(s, steps[0]);
      StepTime(s, steps[0], k.0, 0);
      TimeOnlyGrows(s', steps[1..], k.0);
      StepStales(s, steps[0], k);
      StepKeepsClaims(s, steps[0]);
      if !StaleClaim(s', k) { HiddenExactlyByLateProposals(s', steps[1..], k); }
    }
  }

  /** In every run, for every turn: between the hook's reconcile and its read of the owed cards,
      a card gets hidden if and only if a worker of an earlier turn proposes it in between; when
      none does, the read finds every outstanding card owed or on a living text of this turn. */
  lemma OwedReadMissesOnlyLateProposals(ledger: L.Plain, steps: seq<Step>, between: seq<Step>, k: Key)
    ensures var h := HookNow(Execute(Initial(ledger), steps), k.0); var u := Execute(h, between);
            Now(u, k.0) == Now(h, k.0) ==>
              && (EverStale(h, between, k) <==> ProposedLate(h, between, k))
              && (Outstanding(u, k) && !ProposedLate(h, between, k) ==> OwedOrClaimed(u, k))
  {
    var s := Execute(Initial(ledger), steps);
    RunKeepsClaims(Initial(ledger), steps);
    var h := HookNow(s, k.0);
    StepKeepsClaims(s, Reconcile(k.0, Now(s, k.0)));
    var u := Execute(h, between);
    RunKeepsClaims(h, between);
    if Now(u, k.0) == Now(h, k.0) {
      HiddenExactlyByLateProposals(h, between, k);
      StaleAtTheEnd(h, between, k);
      if Outstanding(u, k) { CoveredUnlessStale(u, k); }
    }
  }

  lemma {:induction false} StaleAtTheEnd(s: State, steps: seq<Step>, k: Key)
    ensures StaleClaim(Execute(s, steps), k) ==> EverStale(s, steps, k)
    decreases |steps|
  {
    if steps != [] { StaleAtTheEnd(Do(s, steps[0]), steps[1..], k); }
  }

  /** A worker of the turn before proposes after the new turn's hook has reconciled: the card
      is outstanding, and the hook's read misses it. */
  lemma LateProposalHides(s: State, w: WorkerId, id: TextId, k: Key)
    requires LateProposal(s, Propose(w, id), k) && Outstanding(s, k) && |s.t.retired| <= TABLE_CAP && ClaimsOk(s)
    ensures var u := Do(s, Propose(w, id)); Outstanding(u, k) && StaleClaim(u, k) && !OwedOrClaimed(u, k)
  {
    var u := Do(s, Propose(w, id));
    StepKeepsClaims(s, Propose(w, id));
    assert k.0 == s.workers[w].session;
    CoveredUnlessStale(u, k);
  }

  /** Such a run: a worker reads turn 0's owed card and is abandoned, turn 1 begins and its hook
      reconciles, then the worker proposes. */
  lemma AbandonedWorkerHidesACard(entry: L.Entry)
    ensures var s := Execute(Initial(map[(1, 7) := entry]),
                                [ReadOwed(0, 1, 0), NextTurn(1), Reconcile(1, 1), Propose(0, 5)]);
            Outstanding(s, (1, 7)) && !OwedOrClaimed(s, (1, 7)) && Now(s, 1) == 1
  {
    var k: Key := (1, 7);
    var s0 := Initial(map[k := entry]);
    FourSteps(s0, ReadOwed(0, 1, 0), NextTurn(1), Reconcile(1, 1), Propose(0, 5));
    FirstRead(entry);
    TurnBegins(entry);
    HiddenThen(entry);
  }

  lemma FirstRead(entry: L.Entry)
    ensures var s0 := Initial(map[(1, 7) := entry]);
            Do(s0, ReadOwed(0, 1, 0)) == s0.(workers := map[0 := Worker(1, 0, [7])])
  {
    var k: Key := (1, 7);
    var s0 := Initial(map[k := entry]);
    OwedIsOwed(s0.t, 1, 7);
    OneOwed(s0.t, k);
  }

  /** The worker still holds turn 0's card, and turn 1's hook has reconciled. */
  function Abandoned(entry: L.Entry): State {
    Initial(map[(1, 7) := entry]).(workers := map[0 := Worker(1, 0, [7])], turns := map[1 := 1])
  }

  lemma TurnBegins(entry: L.Entry)
    ensures var s1 := Initial(map[(1, 7) := entry]).(workers := map[0 := Worker(1, 0, [7])]);
            Do(Do(s1, NextTurn(1)), Reconcile(1, 1)) == Abandoned(entry)
  {
    var s1 := Initial(map[(1, 7) := entry]).(workers := map[0 := Worker(1, 0, [7])]);
    var s2 := Do(s1, NextTurn(1));
    assert s2.chosen == {} && s2.turns == map[1 := 1];
    assert Do(s2, Reconcile(1, 1)).t.pending == map[];
  }

  lemma HiddenThen(entry: L.Entry)
    ensures var u := Do(Abandoned(entry), Propose(0, 5));
            Outstanding(u, (1, 7)) && !OwedOrClaimed(u, (1, 7)) && Now(u, 1) == 1
  {
    var s := Abandoned(entry);
    assert (1, 7) in KeysOf(1, [7]);
    LateProposalHides(s, 0, 5, (1, 7));
  }

  lemma OneOwed(t: Tables, k: Key)
    requires t.ledger.Keys == {k} && k.1 in Owed(t, k.0)
    ensures Owed(t, k.0) == [k.1]
  {
    var runs := RunsOf(t.ledger, k.0);
    assert runs.Keys == {k.1};
    L.NewestLists(runs);
    var q := L.Newest(runs);
    assert |runs.Keys| == 1;
    assert q == [k.1];
    WithoutHas(q, Blocked(t, k.0), k.1);
    assert q[1..] == [];
  }

  lemma FourSteps(s: State, a: Step, b: Step, c: Step, d: Step)
    ensures Execute(s, [a, b, c, d]) == Do(Do(Do(Do(s, a), b), c), d)
  {
    assert [a, b, c, d][1..] == [b, c, d] && [b, c, d][1..] == [c, d] && [c, d][1..] == [d] && [d][1..] == [];
    assert Execute(s, [a, b, c, d]) == Execute(Do(s, a), [b, c, d]);
    assert Execute(Do(s, a), [b, c, d]) == Execute(Do(Do(s, a), b), [c, d]);
    assert Execute(Do(Do(s, a), b), [c, d]) == Execute(Do(Do(Do(s, a), b), c), [d]);
  }

  // ---------------------------------------------------------------- entries --

  /** What puts an entry into the ledger, and what takes it out. */
  predicate Enters(step: Step, k: Key) { step.Launch? && step.k == k }

  ghost predicate Removes(s: State, step: Step, k: Key) {
    match step
    case Terminal(key) => key == k
    case Paste(key, landed) => key == k && landed
    case ConfirmDrop(key, landed) => key == k && landed && k in s.dropping
    case CopyDrop(key, landed) => key == k && landed && Count(s.ships, k) > 0
    case _ => false
  }

  predicate TouchesLedger(step: Step) {
    step.Launch? || step.Terminal? || step.Paste? || step.ConfirmDrop? || step.CopyDrop?
  }

  lemma OthersKeepLedger(s: State, step: Step)
    requires !TouchesLedger(step)
    ensures Do(s, step).t.ledger == s.t.ledger
  {
  }

  /** After the step the card has an entry exactly when the step is its launch, or it had one and
      the step does not remove it; the entry is the launch's, or as it was. */
  ghost predicate EntryAfter(s: State, step: Step, k: Key) {
    var u := Do(s, step).t.ledger;
    && (k in u <==> Enters(step, k) || (k in s.t.ledger && !Removes(s, step, k)))
    && (Enters(step, k) ==> u[k] == step.entry)
    && (k in u && !Enters(step, k) ==> u[k] == s.t.ledger[k])
  }

  lemma LaunchMoves(s: State, key: Key, entry: L.Entry, k: Key)
    ensures EntryAfter(s, Launch(key, entry), k)
  {
  }

  lemma TerminalMoves(s: State, key: Key, k: Key)
    ensures EntryAfter(s, Terminal(key), k)
  {
  }

  lemma PasteMoves(s: State, key: Key, landed: bool, k: Key)
    ensures EntryAfter(s, Paste(key, landed), k)
  {
  }

  lemma ConfirmMoves(s: State, key: Key, landed: bool, k: Key)
    ensures EntryAfter(s, ConfirmDrop(key, landed), k)
  {
  }

  lemma CopyMoves(s: State, key: Key, landed: bool, k: Key)
    ensures EntryAfter(s, CopyDrop(key, landed), k)
  {
  }

  lemma EntryMoves(s: State, step: Step, k: Key)
    ensures EntryAfter(s, step, k)
  {
    match step
    case Launch(key, entry) => LaunchMoves(s, key, entry, k);
    case Terminal(key) => TerminalMoves(s, key, k);
    case Paste(key, landed) => PasteMoves(s, key, landed, k);
    case ConfirmDrop(key, landed) => ConfirmMoves(s, key, landed, k);
    case CopyDrop(key, landed) => CopyMoves(s, key, landed, k);
    case _ => OthersKeepLedger(s, step);
  }

  predicate Launches(steps: seq<Step>, k: Key) { exists i :: 0 <= i < |steps| && Enters(steps[i], k) }

  lemma {:induction false} StaysOut(s: State, steps: seq<Step>, k: Key)
    requires k !in s.t.ledger && !Launches(steps, k)
    ensures k !in Execute(s, steps).t.ledger
    decreases |steps|
  {
    if steps != [] {
      EntryMoves(s, steps[0], k);
      assert forall i :: 0 <= i < |steps[1..]| ==> steps[1..][i] == steps[i + 1];
      StaysOut(Do(s, steps[0]), steps[1..], k);
    }
  }

  /** A pasted card whose drop landed is retired, unclaimed and out of the ledger, and whatever
      follows, restarts of the retired table included, it is never owed before it is launched again. */
  lemma PastedIsNotOwed(s: State, steps: seq<Step>, k: Key)
    requires !Launches(steps, k)
    ensures var p := Do(s, Paste(k, true));
            && k in p.t.retired && k !in p.t.pending && k !in p.t.ledger
            && k !in Execute(p, steps).t.ledger && k.1 !in Owed(Execute(p, steps).t, k.0)
  {
    var p := Do(s, Paste(k, true));
    EntryMoves(s, Paste(k, true), k);
    StaysOut(p, steps, k);
    OwedIsOwed(Execute(p, steps).t, k.0, k.1);
  }

  lemma StepKeepsCopied(s: State, step: Step, k: Key)
    requires k in s.copied && step != CopyRelease(k)
    ensures k in Do(s, step).copied
  {
  }

  lemma {:induction false} StaysCopied(s: State, steps: seq<Step>, k: Key)
    requires k in s.copied && forall i :: 0 <= i < |steps| ==> steps[i] != CopyRelease(k)
    ensures k in Execute(s, steps).copied
    decreases |steps|
  {
    if steps != [] {
      StepKeepsCopied(s, steps[0], k);
      StaysCopied(Do(s, steps[0]), steps[1..], k);
    }
  }

  lemma {:induction false} CopiedReleases(s: State, k: Key)
    requires k in s.copied
    ensures Do(s, CopyRelease(k)) == s.(t := s.t.(pending := s.t.pending - {k}), copied := s.copied - {k})
  {
  }

  lemma {:induction false} OthersDoNotRelease(s: State, k: Key)
    requires k !in s.copied
    ensures Do(s, CopyRelease(k)) == s
  {
  }

  /** A copy of a text that shipped the card releases whatever claim stands on the card, however long
      after its attempt at the ledger, and once for each attempt. */
  lemma {:induction false} CopyReleasesOnce(s: State, k: Key, landed: bool, between: seq<Step>)
    requires Count(s.ships, k) > 0 && forall i :: 0 <= i < |between| ==> between[i] != CopyRelease(k)
    ensures var u := Execute(Do(s, CopyDrop(k, landed)), between); var v := Do(u, CopyRelease(k));
            v.t == u.t.(pending := u.t.pending - {k}) && Do(v, CopyRelease(k)) == v
  {
    StaysCopied(Do(s, CopyDrop(k, landed)), between, k);
    var u := Execute(Do(s, CopyDrop(k, landed)), between);
    CopiedReleases(u, k);
    OthersDoNotRelease(Do(u, CopyRelease(k)), k);
  }

  // ---------------------------------------------------------------- claims --

  /** What ends a claim: its text's death, a reconcile of another turn, a paste of the card, or
      the second half of a confirmation whose ledger drop was attempted, be it that of the selected
      text or that of a copy of a text that shipped the card before. */
  ghost predicate TakesClaim(s: State, step: Step, k: Key)
    requires k in s.t.pending
  {
    match step
    case Die(id) => id == s.t.pending[k].ref && id in s.texts
    case Reconcile(sid, turn) => sid == k.0 && turn <= Now(s, sid) && turn != s.t.pending[k].turn
    case Paste(key, _) => key == k
    case ConfirmRelease(key) => key == k && k in s.releasing
    case CopyRelease(key) => key == k && k in s.copied
    case _ => false
  }

  /** The claim stands, unchanged, at every instant of the run. */
  ghost predicate StandsThrough(s: State, steps: seq<Step>, k: Key, claim: Claim)
    decreases |steps|
  {
    && k in s.t.pending && s.t.pending[k] == claim
    && (steps != [] ==> StandsThrough(Do(s, steps[0]), steps[1..], k, claim))
  }

  ghost predicate Untaken(s: State, steps: seq<Step>, k: Key)
    decreases |steps|
  {
    steps != [] ==> (k in s.t.pending ==> !TakesClaim(s, steps[0], k)) && Untaken(Do(s, steps[0]), steps[1..], k)
  }

  lemma ProposeKeepsClaim(s: State, w: WorkerId, id: TextId, k: Key)
    requires k in s.t.pending
    ensures var p := Do(s, Propose(w, id)).t.pending; k in p && p[k] == s.t.pending[k]
  {
  }

  /** The claim of `k` is gone exactly when the step takes it, and else as it was. */
  ghost predicate TakesOrKeeps(s: State, step: Step, k: Key)
    requires k in s.t.pending
  {
    var p := Do(s, step).t.pending;
    (k in p <==> !TakesClaim(s, step, k)) && (k in p ==> p[k] == s.t.pending[k])
  }

  /** Neither the ledger nor the retired cards move. */
  ghost predicate ClaimsOnly(s: State, u: State) { u.t.ledger == s.t.ledger && u.t.retired == s.t.retired }

  lemma ReconcileTakesStale(s: State, sid: Session, turn: Turn, k: Key)
    requires k in s.t.pending
    ensures TakesOrKeeps(s, Reconcile(sid, turn), k) && ClaimsOnly(s, Do(s, Reconcile(sid, turn)))
  {
  }

  lemma DeathTakesOwn(s: State, id: TextId, k: Key)
    requires k in s.t.pending
    ensures TakesOrKeeps(s, Die(id), k) && ClaimsOnly(s, Do(s, Die(id)))
  {
  }

  lemma PasteTakesItsCard(s: State, key: Key, landed: bool, k: Key)
    requires k in s.t.pending
    ensures TakesOrKeeps(s, Paste(key, landed), k)
  {
  }

  lemma ReleaseTakesItsCard(s: State, key: Key, k: Key)
    requires k in s.t.pending
    ensures TakesOrKeeps(s, ConfirmRelease(key), k) && ClaimsOnly(s, Do(s, ConfirmRelease(key)))
  {
  }

  lemma CopyTakesItsCard(s: State, key: Key, k: Key)
    requires k in s.t.pending
    ensures TakesOrKeeps(s, CopyRelease(key), k) && ClaimsOnly(s, Do(s, CopyRelease(key)))
  {
  }

  lemma OthersKeepPending(s: State, step: Step)
    requires !step.Propose? && !step.Reconcile? && !step.Die? && !step.Paste?
    requires !step.ConfirmRelease? && !step.CopyRelease?
    ensures Do(s, step).t.pending == s.t.pending
  {
  }

  lemma StepKeepsClaim(s: State, step: Step, k: Key)
    requires k in s.t.pending
    ensures TakesOrKeeps(s, step, k)
  {
    match step
    case Propose(w, id) => ProposeKeepsClaim(s, w, id, k);
    case Reconcile(sid, turn) => ReconcileTakesStale(s, sid, turn, k);
    case Die(id) => DeathTakesOwn(s, id, k);
    case Paste(key, landed) => PasteTakesItsCard(s, key, landed, k);
    case ConfirmRelease(key) => ReleaseTakesItsCard(s, key, k);
    case CopyRelease(key) => CopyTakesItsCard(s, key, k);
    case _ => OthersKeepPending(s, step);
  }

  /** No rival proposal, other text's death, launch, turn or foreign confirmation moves a claim:
      it stands through a run exactly when none of its five ends comes up while it stands. */
  lemma {:induction false} ClaimStandsUntilTaken(s: State, steps: seq<Step>, k: Key)
    requires k in s.t.pending
    ensures Untaken(s, steps, k) ==> StandsThrough(s, steps, k, s.t.pending[k])
    ensures StandsThrough(s, steps, k, s.t.pending[k]) ==> Untaken(s, steps, k)
    decreases |steps|
  {
    if steps != [] {
      StepKeepsClaim(s, steps[0], k);
      if !TakesClaim(s, steps[0], k) {
        ClaimStandsUntilTaken(Do(s, steps[0]), steps[1..], k);
      } else {
        assert !StandsThrough(Do(s, steps[0]), steps[1..], k, s.t.pending[k]);
      }
    }
  }

  /** What uncovers a selected card: a late reconcile of another turn, the death of the text that
      holds the claim, or a copy of an earlier text that releases it. */
  ghost predicate Uncovers(s: State, step: Step, k: Key)
    requires k in s.t.pending
  {
    (step.Reconcile? || step.Die? || step.CopyRelease?) && TakesClaim(s, step, k)
  }

  ghost predicate Confirming(s: State, k: Key) { k in s.dropping || k in s.releasing }

  /** A card under confirmation is at one of its two halves, in a session that has selected. */
  ghost predicate Half(s: State, k: Key) {
    Confirming(s, k) ==> k.0 in s.chosen && !(k in s.dropping && k in s.releasing)
  }

  ghost predicate Halves(s: State) { forall k :: Half(s, k) }

  lemma StepKeepsHalf(s: State, step: Step, k: Key)
    requires Half(s, k)
    ensures Half(Do(s, step), k)
  {
    match step
    case NextTurn(sid) => assert Settled(s, sid) && k.0 == sid ==> !(k in s.dropping + s.releasing);
    case Select(id) =>
    case ConfirmDrop(_, _) =>
    case _ =>
  }

  lemma StepKeepsHalves(s: State, step: Step)
    requires Halves(s)
    ensures Halves(Do(s, step))
  {
    forall k ensures Half(Do(s, step), k) {
      assert Half(s, k);
      StepKeepsHalf(s, step, k);
    }
  }

  lemma {:induction false} RunKeepsHalves(s: State, steps: seq<Step>)
    requires Halves(s)
    ensures Halves(Execute(s, steps))
    decreases |steps|
  {
    if steps != [] {
      StepKeepsHalves(s, steps[0]);
      RunKeepsHalves(Do(s, steps[0]), steps[1..]);
    }
  }

  /** No other step leaves a confirming card without its claim, unless a paste retired it. */
  lemma OthersCover(s: State, step: Step, k: Key)
    requires Half(s, k) && Confirming(s, k) && k in s.t.pending
    requires !step.Reconcile? && !step.Die? && !step.CopyRelease?
    ensures var u := Do(s, step); Confirming(u, k) ==> k in u.t.pending || k in u.t.retired
  {
    StepKeepsClaim(s, step, k);
    match step
    case Paste(_, _) =>
    case ConfirmRelease(_) =>
    case _ =>
  }

  lemma LateStepsUncover(s: State, step: Step, k: Key)
    requires k in s.t.pending && (step.Reconcile? || step.Die? || step.CopyRelease?)
    ensures TakesOrKeeps(s, step, k) && ClaimsOnly(s, Do(s, step))
  {
    match step
    case Reconcile(sid, turn) => ReconcileTakesStale(s, sid, turn, k);
    case Die(id) => DeathTakesOwn(s, id, k);
    case CopyRelease(key) => CopyTakesItsCard(s, key, k);
  }

  lemma StepCovers(s: State, step: Step, k: Key)
    requires Half(s, k) && Confirming(s, k) && k in s.t.pending
    ensures var u := Do(s, step);
            Confirming(u, k) ==> (k.1 in Owed(u.t, k.0) <==> Outstanding(s, k) && Uncovers(s, step, k))
  {
    var u := Do(s, step);
    OwedIsOwed(u.t, k.0, k.1);
    if step.Reconcile? || step.Die? || step.CopyRelease? {
      LateStepsUncover(s, step, k);
    } else {
      OthersCover(s, step, k);
    }
  }

  /** The marker comes before the claim goes.  In every run, as long as the confirmation of a
      claimed card is under way, a step makes the card owed again if and only if the card is
      outstanding and the step is a late reconcile, the death of the claim's text, or the release
      by a copy of a text that shipped the card before. */
  lemma ConfirmationStaysCovered(ledger: L.Plain, steps: seq<Step>, step: Step, k: Key)
    ensures var s := Execute(Initial(ledger), steps); var u := Do(s, step);
            Confirming(s, k) && k in s.t.pending && Confirming(u, k) ==>
              (k.1 in Owed(u.t, k.0) <==> Outstanding(s, k) && Uncovers(s, step, k))
  {
    var s := Execute(Initial(ledger), steps);
    RunKeepsHalves(Initial(ledger), steps);
    if Confirming(s, k) && k in s.t.pending {
      assert Half(s, k);
      StepCovers(s, step, k);
    }
  }

  /** A text of turn 1 is selected, its card's entry not dropped yet. */
  function Selected(entry: L.Entry): State {
    State(Tables(map[(1, 7) := entry], map[(1, 7) := Claim(1, 5)], {}, {(1, 1)}),
          map[5 := Text(1, 1, [7])], map[], map[1 := 1], {1}, {(1, 7)}, {}, {}, {5},
          map[(1, 7) := 1], map[(1, 7) := 1], map[])
  }

  /** Such a run: turn 1 begins, its hook reads and proposes, the reply is selected, and then a
      worker of turn 0 reconciles.  The selected card is owed again before its entry is gone. */
  lemma LateReconcileUncovers(entry: L.Entry)
    ensures Execute(Initial(map[(1, 7) := entry]), [NextTurn(1), ReadOwed(0, 1, 1), Propose(0, 5), Select(5)])
            == Selected(entry)
    ensures var u := Do(Selected(entry), Reconcile(1, 0)); (1, 7) in u.dropping && 7 in Owed(u.t, 1)
  {
    var s0 := Initial(map[(1, 7) := entry]);
    FourSteps(s0, NextTurn(1), ReadOwed(0, 1, 1), Propose(0, 5), Select(5));
    ReadsInTurnOne(entry);
    Proposes(entry);
    Selects(entry);
    StepCovers(Selected(entry), Reconcile(1, 0), (1, 7));
  }

  function HasRead(entry: L.Entry): State {
    Initial(map[(1, 7) := entry]).(workers := map[0 := Worker(1, 1, [7])], turns := map[1 := 1])
  }

  function InTurnOne(entry: L.Entry): State { Initial(map[(1, 7) := entry]).(turns := map[1 := 1]) }

  lemma ReadsInTurnOne(entry: L.Entry)
    ensures Do(Do(Initial(map[(1, 7) := entry]), NextTurn(1)), ReadOwed(0, 1, 1)) == HasRead(entry)
  {
    var s0 := Initial(map[(1, 7) := entry]);
    assert s0.chosen - {1} == {} && s0.turns[1 := 1] == map[1 := 1];
    var s := InTurnOne(entry);
    assert Do(s0, NextTurn(1)) == s;
    OwedIsOwed(s.t, 1, 7);
    OneOwed(s.t, (1, 7));
  }

  function HasProposed(entry: L.Entry): State {
    Selected(entry).(chosen := {}, dropping := {}, ships := map[])
  }

  lemma Proposes(entry: L.Entry)
    ensures Do(HasRead(entry), Propose(0, 5)) == HasProposed(entry)
  {
    var s := HasRead(entry);
    assert KeysOf(1, [7]) == {(1, 7)};
    assert Claimed(s.t.pending, 1, [7], Claim(1, 5)) == map[(1, 7) := Claim(1, 5)];
    assert s.t.proposed + {(1, 1)} == {(1, 1)} && |{(1, 1)}| == 1;
    assert s.workers - {0} == map[] && s.made + {5} == {5};
    OneAdd(entry);
    assert s.texts[5 := Text(1, 1, [7])] == map[5 := Text(1, 1, [7])];
  }

  lemma OneAdd(entry: L.Entry)
    ensures Initial(map[(1, 7) := entry]).adds == map[(1, 7) := 1]
  {
  }

  lemma Selects(entry: L.Entry)
    ensures Do(HasProposed(entry), Select(5)) == Selected(entry)
  {
    var s := HasProposed(entry);
    var carried := KeysOf(1, [7]);
    assert carried == {(1, 7)};
    assert BumpAll(s.ships, carried) == map[(1, 7) := 1];
    assert s.chosen + {1} == {1} && s.dropping + carried == {(1, 7)};
  }

  /** A run in which an add never ships: the card of `LateReconcileUncovers` is confirmed, a
      launch adds its entry again, and a copy of the shipped text drops that entry. */
  lemma CopyDropsARelaunch(entry: L.Entry)
    ensures var k: Key := (1, 7);
            var s := Execute(Selected(entry),
                             [ConfirmDrop(k, true), ConfirmRelease(k), Launch(k, entry), CopyDrop(k, true)]);
            && Count(s.adds, k) == 2 && Count(s.ships, k) == 1 && Count(s.fails, k) == 0
            && k !in s.t.ledger && k !in s.t.pending && !Confirming(s, k)
  {
    var k: Key := (1, 7);
    FourSteps(Selected(entry), ConfirmDrop(k, true), ConfirmRelease(k), Launch(k, entry), CopyDrop(k, true));
    var s1 := Do(Selected(entry), ConfirmDrop(k, true));
    assert k !in s1.t.ledger && k in s1.releasing && k !in s1.dropping;
    var s2 := Do(s1, ConfirmRelease(k));
    assert k !in s2.t.pending && k !in s2.t.ledger && Count(s2.adds, k) == 1;
    var s3 := Do(s2, Launch(k, entry));
    assert Count(s3.adds, k) == 2 && Count(s3.ships, k) == 1;
  }
}
