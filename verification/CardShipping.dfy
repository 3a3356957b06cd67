/**
 Whole runs of the card protocol.  Hook workers, possibly abandoned by the host and arbitrarily
 late, interleave with launches, pastes, dying texts, the two halves of a confirmation, and the
 confirmations that deep copies of shipped texts begin anew.

 The host is held to what it promises: it selects at most one text per session and turn, a text
 of the current turn, and a selection's confirmation is over before the session's next turn.
*/
module CardShipping {
  import L = CardLedger
  import opened CardEnforcement

  type WorkerId = nat

  /** A proposed reply that some reference still holds. */
  datatype Text = Text(session: Session, turn: Turn, carried: seq<Run>)
  /** A hook worker between its read of the owed cards and its proposal. */
  datatype Worker = Worker(session: Session, turn: Turn, take: seq<Run>)

  datatype State = State(
    t: Tables,
    texts: map<TextId, Text>,
    workers: map<WorkerId, Worker>,
    turns: map<Session, Turn>,     // the current turn; 0 before the first
    chosen: set<Session>,          // sessions whose current turn has its selected text
    dropping: set<Key>,            // selected cards whose ledger drop is still to come
    releasing: set<Key>,           // and those whose claim is still to be released
    copied: set<Key>,              // cards a copy has confirmed as far as its ledger drop
    // history
    made: set<TextId>,
    ships: map<Key, nat>,          // selections of a text carrying the card
    adds: map<Key, nat>,           // ledger adds of an absent entry
    fails: map<Key, nat>)          // confirmations whose ledger drop did not land

  datatype Step =
    | Launch(k: Key, entry: L.Entry)
    | Terminal(k: Key)
    | NextTurn(sid: Session)
    | Reconcile(sid: Session, turn: Turn)
    | Paste(k: Key, landed: bool)
    | ReadOwed(w: WorkerId, sid: Session, turn: Turn)
    | Propose(w: WorkerId, id: TextId)
    | Select(id: TextId)
    | ConfirmDrop(k: Key, landed: bool)
    | ConfirmRelease(k: Key)
    | CopyDrop(k: Key, landed: bool)      // a copy of a text that shipped the card is touched
    | CopyRelease(k: Key)
    | Die(id: TextId)

  function Count(m: map<Key, nat>, k: Key): nat { if k in m then m[k] else 0 }
  function Bump(m: map<Key, nat>, k: Key): map<Key, nat> { m[k := Count(m, k) + 1] }

  function BumpAll(m: map<Key, nat>, ks: set<Key>): (r: map<Key, nat>)
    ensures forall k :: Count(r, k) == Count(m, k) + if k in ks then 1 else 0
  {
    m + map k | k in ks :: Count(m, k) + 1
  }

  function Now(s: State, sid: Session): Turn { if sid in s.turns then s.turns[sid] else 0 }

  function Carried(text: Text): set<Key> { KeysOf(text.session, text.carried) }

  predicate Settled(s: State, sid: Session) {
    forall k :: k in s.dropping + s.releasing ==> k.0 != sid
  }

  /** A text (or a worker about to make one) of session `sid` and `turn` could be selected. */
  ghost predicate Selectable(s: State, sid: Session, turn: Turn) {
    turn == Now(s, sid) && sid !in s.chosen
  }

  ghost function Do(s: State, step: Step): State {
    match step
    case Launch(k, entry) =>
      s.(t := s.t.(ledger := s.t.ledger[k := entry]),
         adds := if k in s.t.ledger then s.adds else Bump(s.adds, k))
    case Terminal(k) =>
      s.(t := DropEntry(s.t, k, true))
    case NextTurn(sid) =>
      if !Settled(s, sid) then s else s.(turns := s.turns[sid := Now(s, sid) + 1], chosen := s.chosen - {sid})
    case Reconcile(sid, turn) =>
      if turn > Now(s, sid) then s else s.(t := Reconciled(s.t, sid, turn))
    case Paste(k, landed) =>
      s.(t := Pasted(s.t, k, landed))
    case ReadOwed(w, sid, turn) =>
      if turn > Now(s, sid) || (sid, turn) in s.t.proposed || Owed(s.t, sid) == [] then s else
        s.(workers := s.workers[w := Worker(sid, turn, FirstFew(Owed(s.t, sid)))])
    case Propose(w, id) =>
      if w !in s.workers || id in s.made then s else
        var me := s.workers[w];
        s.(t := Proposed(s.t, me.session, me.turn, me.take, id),
           texts := s.texts[id := Text(me.session, me.turn, me.take)],
           workers := s.workers - {w}, made := s.made + {id})
    case Select(id) =>
      if id !in s.texts || !Selectable(s, s.texts[id].session, s.texts[id].turn) then s else
        s.(chosen := s.chosen + {s.texts[id].session}, dropping := s.dropping + Carried(s.texts[id]),
           ships := BumpAll(s.ships, Carried(s.texts[id])))
    case ConfirmDrop(k, landed) =>
      if k !in s.dropping then s else
        s.(t := DropEntry(s.t, k, landed), dropping := s.dropping - {k}, releasing := s.releasing + {k},
           fails := if landed then s.fails else Bump(s.fails, k))
    case ConfirmRelease(k) =>
      if k !in s.releasing then s else s.(t := Release(s.t, k), releasing := s.releasing - {k})
    case CopyDrop(k, landed) =>
      if Count(s.ships, k) == 0 then s else s.(t := DropEntry(s.t, k, landed), copied := s.copied + {k})
    case CopyRelease(k) =>
      if k !in s.copied then s else s.(t := Release(s.t, k), copied := s.copied - {k})
    case Die(id) =>
      if id !in s.texts then s else s.(t := DropOwn(s.t, id), texts := s.texts - {id})
  }

  ghost function Execute(s: State, steps: seq<Step>): State
    decreases |steps|
  {
    if steps == [] then s else Execute(Do(s, steps[0]), steps[1..])
  }

  /** A gateway start: empty tables over whatever the ledger still holds, one add each. */
  function Initial(ledger: L.Plain): State {
    State(Tables(ledger, map[], {}, {}), map[], map[], map[], {}, {}, {}, {}, {}, map[],
          map k | k in ledger :: 1, map[])
  }

  // ---------------------------------------------------------------- the one-ship law --

  /** What a card may still ship, besides an entry that is in the ledger and not being dropped. */
  ghost predicate Funded(s: State, k: Key) {
    Count(s.ships, k) + (if k in s.t.ledger && k !in s.dropping then 1 else 0) <=
    Count(s.adds, k) + Count(s.fails, k)
  }

  ghost predicate Affordable(s: State, k: Key) {
    Count(s.ships, k) < Count(s.adds, k) + Count(s.fails, k)
  }

  ghost predicate TextOk(s: State, text: Text) {
    && text.turn <= Now(s, text.session)
    && (Selectable(s, text.session, text.turn) ==> forall k :: k in Carried(text) ==> Affordable(s, k))
  }

  ghost predicate WorkerOk(s: State, me: Worker) {
    && me.turn <= Now(s, me.session)
    && (Selectable(s, me.session, me.turn) ==> forall k :: k in KeysOf(me.session, me.take) ==> Affordable(s, k))
  }

  ghost predicate Inv(s: State) {
    && (forall k :: Funded(s, k))
    && (forall k :: k in s.dropping ==> k.0 in s.chosen)
    && (forall id :: id in s.texts ==> TextOk(s, s.texts[id]))
    && (forall w :: w in s.workers ==> WorkerOk(s, s.workers[w]))
    && (forall id :: id in s.texts ==> id in s.made)
  }

  lemma OwedIsOwed(t: Tables, sid: Session, r: Run)
    ensures r in Owed(t, sid) <==> (sid, r) in t.ledger && (sid, r) !in t.retired && (sid, r) !in t.pending
  {
    L.NewestLists(RunsOf(t.ledger, sid));
    WithoutHas(L.Newest(RunsOf(t.ledger, sid)), Blocked(t, sid), r);
    assert r in RunsOf(t.ledger, sid) <==> (sid, r) in t.ledger;
    assert r in Blocked(t, sid) <==> (sid, r) in t.retired + t.pending.Keys;
  }

  lemma {:induction false} WithoutHas(s: seq<Run>, gone: set<Run>, r: Run)
    ensures r in L.Without(s, gone) <==> r in s && r !in gone
  {
    if s != [] { WithoutHas(s[1..], gone, r); }
  }

  /** A selection ships only what its text could afford. */
  lemma SelectFunded(s: State, id: TextId, k: Key)
    requires Inv(s)
    ensures Funded(Do(s, Select(id)), k)
  {
    assert Funded(s, k);
    if id in s.texts { assert TextOk(s, s.texts[id]); }
  }

  lemma OthersFunded(s: State, step: Step, k: Key)
    requires Funded(s, k) && !step.Select?
    ensures Funded(Do(s, step), k)
  {
  }

  lemma StepFunded(s: State, step: Step, k: Key)
    requires Inv(s)
    ensures Funded(Do(s, step), k)
  {
    assert Funded(s, k);
    if step.Select? { SelectFunded(s, step.id, k); } else { OthersFunded(s, step, k); }
  }

  /** Affordability of a session's cards only ends with that session's own selection. */
  lemma StepAffordable(s: State, step: Step, k: Key, turn: Turn)
    requires Affordable(s, k) && Selectable(Do(s, step), k.0, turn)
    ensures Affordable(Do(s, step), k)
  {
    if step.Select? && step.id in s.texts {
      assert k in Carried(s.texts[step.id]) ==> k.0 == s.texts[step.id].session;
    }
  }

  lemma TakenIsAffordable(s: State, sid: Session, turn: Turn, r: Run)
    requires Inv(s) && Selectable(s, sid, turn) && r in FirstFew(Owed(s.t, sid))
    ensures Affordable(s, (sid, r))
  {
    OwedIsOwed(s.t, sid, r);
    assert Funded(s, (sid, r));
  }

  lemma StepTime(s: State, step: Step, sid: Session, turn: Turn)
    ensures Now(s, sid) <= Now(Do(s, step), sid)
    ensures turn <= Now(s, sid) && Selectable(Do(s, step), sid, turn) ==> Selectable(s, sid, turn)
  {
  }

  lemma StepWorkers(s: State, step: Step, w: WorkerId)
    requires w in Do(s, step).workers
    ensures var me := Do(s, step).workers[w];
            || (w in s.workers && me == s.workers[w])
            || (me.turn <= Now(s, me.session) && me.take == FirstFew(Owed(s.t, me.session)))
  {
  }

  lemma StepTexts(s: State, step: Step, id: TextId)
    requires id in Do(s, step).texts
    ensures var text := Do(s, step).texts[id];
            || (id in s.texts && text == s.texts[id])
            || (step.Propose? && step.w in s.workers
                && var me := s.workers[step.w]; text == Text(me.session, me.turn, me.take))
  {
  }

  lemma StepWorker(s: State, step: Step, w: WorkerId)
    requires Inv(s) && w in Do(s, step).workers
    ensures WorkerOk(Do(s, step), Do(s, step).workers[w])
  {
    var s' := Do(s, step);
    var me := s'.workers[w];
    StepWorkers(s, step, w);
    StepTime(s, step, me.session, me.turn);
    if w in s.workers { assert WorkerOk(s, s.workers[w]); }
    if Selectable(s', me.session, me.turn) {
      forall k | k in KeysOf(me.session, me.take) ensures Affordable(s', k) {
        if !(w in s.workers && me == s.workers[w]) { TakenIsAffordable(s, me.session, me.turn, k.1); }
        StepAffordable(s, step, k, me.turn);
      }
    }
  }

  lemma StepText(s: State, step: Step, id: TextId)
    requires Inv(s) && id in Do(s, step).texts
    ensures TextOk(Do(s, step), Do(s, step).texts[id])
  {
    var s' := Do(s, step);
    var text := s'.texts[id];
    StepTexts(s, step, id);
    StepTime(s, step, text.session, text.turn);
    if id in s.texts { assert TextOk(s, s.texts[id]); }
    if step.Propose? && step.w in s.workers { assert WorkerOk(s, s.workers[step.w]); }
    if Selectable(s', text.session, text.turn) {
      forall k | k in Carried(text) ensures Affordable(s', k) {
        StepAffordable(s, step, k, text.turn);
      }
    }
  }

  lemma StepKeepsFunded(s: State, step: Step)
    requires Inv(s)
    ensures forall k :: Funded(Do(s, step), k)
  {
    forall k ensures Funded(Do(s, step), k) { StepFunded(s, step, k); }
  }

  lemma StepKeepsTexts(s: State, step: Step)
    requires Inv(s)
    ensures var s' := Do(s, step); forall id :: id in s'.texts ==> TextOk(s', s'.texts[id])
  {
    var s' := Do(s, step);
    forall id | id in s'.texts ensures TextOk(s', s'.texts[id]) { StepText(s, step, id); }
  }

  lemma StepKeepsWorkers(s: State, step: Step)
    requires Inv(s)
    ensures var s' := Do(s, step); forall w :: w in s'.workers ==> WorkerOk(s', s'.workers[w])
  {
    var s' := Do(s, step);
    forall w | w in s'.workers ensures WorkerOk(s', s'.workers[w]) { StepWorker(s, step, w); }
  }

  lemma StepKeepsRest(s: State, step: Step)
    requires (forall k :: k in s.dropping ==> k.0 in s.chosen) && (forall id :: id in s.texts ==> id in s.made)
    ensures var s' := Do(s, step);
            (forall k :: k in s'.dropping ==> k.0 in s'.chosen) && (forall id :: id in s'.texts ==> id in s'.made)
  {
  }

  lemma StepKeepsInv(s: State, step: Step)
    requires Inv(s)
    ensures Inv(Do(s, step))
  {
    StepKeepsFunded(s, step);
    StepKeepsTexts(s, step);
    StepKeepsWorkers(s, step);
    StepKeepsRest(s, step);
  }

  lemma {:induction false} RunKeepsInv(s: State, steps: seq<Step>)
    requires Inv(s)
    ensures Inv(Execute(s, steps))
    decreases |steps|
  {
    if steps != [] {
      StepKeepsInv(s, steps[0]);
      RunKeepsInv(Do(s, steps[0]), steps[1..]);
    }
  }

  // ---------------------------------------------------------------- counted along the run --

  ghost predicate Selects(s: State, step: Step, k: Key) {
    && step.Select? && step.id in s.texts
    && var text := s.texts[step.id];
       text.session == k.0 && k.1 in text.carried && k.0 !in s.chosen && k.0 in Do(s, step).chosen
  }

  /** How often a text carrying the card is selected. */
  ghost function Selected(s: State, steps: seq<Step>, k: Key): nat
    decreases |steps|
  {
    if steps == [] then 0 else (if Selects(s, steps[0], k) then 1 else 0) + Selected(Do(s, steps[0]), steps[1..], k)
  }

  /** How often the card's entry comes into the ledger. */
  ghost function Entered(s: State, steps: seq<Step>, k: Key): nat
    decreases |steps|
  {
    if steps == [] then 0
    else
      var s' := Do(s, steps[0]);
      (if k !in s.t.ledger && k in s'.t.ledger then 1 else 0) + Entered(s', steps[1..], k)
  }

  /** How often a confirmation of the card fails to take its entry out. */
  ghost function Missed(s: State, steps: seq<Step>, k: Key): nat
    decreases |steps|
  {
    if steps == [] then 0
    else
      (if steps[0] == ConfirmDrop(k, false) && k in s.dropping then 1 else 0) + Missed(Do(s, steps[0]), steps[1..], k)
  }

  lemma BumpCounts(m: map<Key, nat>, key: Key, k: Key)
    ensures Count(Bump(m, key), k) == Count(m, k) + if key == k then 1 else 0
  {
  }

  lemma {:induction false} EntryIsCounted(s: State, key: Key, entry: L.Entry, k: Key)
    ensures var s' := Do(s, Launch(key, entry));
            Count(s'.adds, k) == Count(s.adds, k) + (if k !in s.t.ledger && k in s'.t.ledger then 1 else 0)
  {
    BumpCounts(s.adds, key, k);
  }

  lemma SelectionIsCounted(s: State, id: TextId, k: Key)
    ensures Count(Do(s, Select(id)).ships, k) == Count(s.ships, k) + (if Selects(s, Select(id), k) then 1 else 0)
  {
    if id in s.texts { KeysAre(s.texts[id].session, s.texts[id].carried, k); }
  }

  lemma {:induction false} MissIsCounted(s: State, key: Key, landed: bool, k: Key)
    ensures Count(Do(s, ConfirmDrop(key, landed)).fails, k) ==
            Count(s.fails, k) + (if !landed && key == k && k in s.dropping then 1 else 0)
  {
    BumpCounts(s.fails, key, k);
    assert Do(s, ConfirmDrop(key, landed)).fails in {s.fails, Bump(s.fails, key)};
  }

  lemma {:induction false} OthersKeepFails(s: State, step: Step)
    requires !step.ConfirmDrop?
    ensures Do(s, step).fails == s.fails
  {
  }

  lemma {:induction false} OthersKeepShips(s: State, step: Step)
    requires !step.Select?
    ensures Do(s, step).ships == s.ships
  {
  }

  lemma {:induction false} OthersKeepAdds(s: State, step: Step)
    requires !step.Launch?
    ensures Do(s, step).adds == s.adds
  {
  }

  lemma {:induction false} OthersAddNothing(s: State, step: Step, k: Key)
    requires !step.Launch? && k !in s.t.ledger
    ensures k !in Do(s, step).t.ledger
  {
  }

  lemma {:induction false} StepIsCounted(s: State, step: Step, k: Key)
    ensures var s' := Do(s, step);
            && Count(s'.ships, k) == Count(s.ships, k) + (if Selects(s, step, k) then 1 else 0)
            && Count(s'.adds, k) == Count(s.adds, k) + (if k !in s.t.ledger && k in s'.t.ledger then 1 else 0)
            && Count(s'.fails, k) ==
               Count(s.fails, k) + (if step == ConfirmDrop(k, false) && k in s.dropping then 1 else 0)
  {
    if step.Select? { SelectionIsCounted(s, step.id, k); } else { OthersKeepShips(s, step); }
    if step.ConfirmDrop? { MissIsCounted(s, step.k, step.landed, k); } else { OthersKeepFails(s, step); }
    if step.Launch? {
      EntryIsCounted(s, step.k, step.entry, k);
    } else {
      OthersKeepAdds(s, step);
      if k !in s.t.ledger { OthersAddNothing(s, step, k); }
    }
  }

  lemma {:induction false} RunIsCounted(s: State, steps: seq<Step>, k: Key)
    ensures var s' := Execute(s, steps);
            && Count(s'.ships, k) == Count(s.ships, k) + Selected(s, steps, k)
            && Count(s'.adds, k) == Count(s.adds, k) + Entered(s, steps, k)
            && Count(s'.fails, k) == Count(s.fails, k) + Missed(s, steps, k)
    decreases |steps|
  {
    if steps != [] {
      StepIsCounted(s, steps[0], k);
      RunIsCounted(Do(s, steps[0]), steps[1..], k);
    }
  }

  /** Over every run, a card is selected at most once for its entry being there at the start or coming
      into the ledger, and once more per confirmation whose drop did not land. */
  lemma OneShipPerAdd(ledger: L.Plain, steps: seq<Step>, k: Key)
    ensures var s := Initial(ledger);
            Selected(s, steps, k) <= (if k in ledger then 1 else 0) + Entered(s, steps, k) + Missed(s, steps, k)
  {
    var s := Initial(ledger);
    RunKeepsInv(s, steps);
    RunIsCounted(s, steps, k);
    assert Funded(Execute(s, steps), k);
  }

  /** A hook's read takes the newest owed cards, three at most, exactly when its turn has begun and
      not yet proposed and some card is owed; else it takes nothing, and it changes nothing but the worker. */
  lemma ReadTakes(s: State, w: WorkerId, sid: Session, turn: Turn)
    ensures var s' := Do(s, ReadOwed(w, sid, turn)); var owed := Owed(s.t, sid);
            if turn <= Now(s, sid) && (sid, turn) !in s.t.proposed && owed != []
            then && w in s'.workers && s'.workers[w].session == sid && s'.workers[w].turn == turn
                 && s'.workers[w].take != [] && s'.workers[w].take == owed[..|s'.workers[w].take|]
                 && (|s'.workers[w].take| == 3 || s'.workers[w].take == owed) && |s'.workers[w].take| <= 3
                 && s' == s.(workers := s.workers[w := s'.workers[w]])
            else s' == s
  {
    assert FirstFew(Owed(s.t, sid)) == Owed(s.t, sid)[..|FirstFew(Owed(s.t, sid))|];
  }
}
