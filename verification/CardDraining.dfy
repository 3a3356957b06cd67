/** A session whose proposals are all selected ships its queue in order, three cards a turn. */
module CardDraining {
  import L = CardLedger
  import opened CardEnforcement
  import opened CardShipping

  /** The session's outstanding cards, newest first. */
  ghost function Queue(t: Tables, sid: Session): seq<Run> {
    L.Without(L.Newest(RunsOf(t.ledger, sid)), RetiredOf(t, sid))
  }

  function RetiredOf(t: Tables, sid: Session): set<Run> { set k | k in t.retired && k.0 == sid :: k.1 }

  function Least(a: nat, b: nat): nat { if a < b then a else b }

  /** Every claim and mark of the session is of an earlier turn, and a clearing of the retired
      table would bring none of its pasted entries back: the table is not past its cap, or none
      of the session's retired cards is in the ledger any more. */
  ghost predicate Clean(t: Tables, sid: Session, turn: Turn) {
    && (forall k :: k in t.pending && k.0 == sid ==> t.pending[k].turn < turn)
    && (forall p :: p in t.proposed ==> p.0 != sid || p.1 < turn)
    && (|t.retired| <= TABLE_CAP || forall k :: k in t.retired && k.0 == sid ==> k !in t.ledger)
  }

  // ---------------------------------------------------------------- one turn on the tables --

  lemma {:induction false} WithoutTwice(s: seq<Run>, a: set<Run>, b: set<Run>)
    ensures L.Without(L.Without(s, a), b) == L.Without(s, a + b)
  {
    if s != [] {
      WithoutTwice(s[1..], a, b);
      if s[0] !in a { assert L.Without(s, a) == [s[0]] + L.Without(s[1..], a); }
    }
  }

  /** Leaving out the front of a list without repetitions leaves its rest. */
  lemma {:induction false} WithoutFront(s: seq<Run>, j: nat, gone: set<Run>)
    requires j <= |s|
    requires forall i :: 0 <= i < j ==> s[i] in gone
    requires forall i :: j <= i < |s| ==> s[i] !in gone
    ensures L.Without(s, gone) == s[j..]
    decreases |s|
  {
    if s != [] {
      if j > 0 {
        WithoutFront(s[1..], j - 1, gone);
      } else {
        WithoutFront(s[1..], 0, gone);
        assert s == [s[0]] + s[1..];
      }
    }
  }

  ghost predicate Distinct(s: seq<Run>) { forall i, j :: 0 <= i < j < |s| ==> s[i] != s[j] }

  lemma {:induction false} WithoutIsDistinct(s: seq<Run>, gone: set<Run>)
    requires Distinct(s)
    ensures Distinct(L.Without(s, gone))
  {
    if s != [] {
      WithoutIsDistinct(s[1..], gone);
      var rest := L.Without(s[1..], gone);
      forall i | 0 <= i < |rest| ensures rest[i] != s[0] {
        assert rest[i] in rest;
        WithoutHas(s[1..], gone, rest[i]);
        assert forall j :: 1 <= j < |s| ==> s[1..][j - 1] == s[j];
      }
    }
  }

  lemma QueueIsDistinct(t: Tables, sid: Session)
    ensures Distinct(Queue(t, sid))
  {
    L.NewestLists(RunsOf(t.ledger, sid));
    WithoutIsDistinct(L.Newest(RunsOf(t.ledger, sid)), RetiredOf(t, sid));
  }

  lemma OwedWhenClean(t: Tables, sid: Session, turn: Turn)
    requires Clean(t, sid, turn)
    ensures Owed(Reconciled(t, sid, turn), sid) == Queue(t, sid)
  {
    assert Blocked(Reconciled(t, sid, turn), sid) == RetiredOf(t, sid);
  }

  /** A clearing of the retired table leaves a clean session's queue as it is. */
  lemma ClearingKeepsQueue(t: Tables, sid: Session, turn: Turn)
    requires Clean(t, sid, turn)
    ensures Queue(t.(retired := Capped(t.retired)), sid) == Queue(t, sid)
  {
    if |t.retired| > TABLE_CAP {
      var all := L.Newest(RunsOf(t.ledger, sid));
      L.NewestLists(RunsOf(t.ledger, sid));
      forall i | 0 <= i < |all| ensures all[i] !in RetiredOf(t, sid) {
        assert all[i] in all;
        assert (sid, all[i]) in t.ledger;
      }
      WithoutFront(all, 0, RetiredOf(t, sid));
      WithoutFront(all, 0, {});
      assert RetiredOf(t.(retired := {}), sid) == {};
    }
  }

  /** Dropping the front of the queue leaves its rest. */
  lemma DroppingFront(t: Tables, sid: Session, take: seq<Run>)
    requires take <= Queue(t, sid)
    ensures Queue(t.(ledger := t.ledger - KeysOf(sid, take)), sid) == Queue(t, sid)[|take|..]
  {
    var gone := set r | r in take;
    var runs, retired := RunsOf(t.ledger, sid), RetiredOf(t, sid);
    var q := Queue(t, sid);
    assert RunsOf(t.ledger - KeysOf(sid, take), sid) == runs - gone;
    L.NewestWithout(runs, gone);
    WithoutTwice(L.Newest(runs), gone, retired);
    WithoutTwice(L.Newest(runs), retired, gone);
    assert gone + retired == retired + gone;
    QueueIsDistinct(t, sid);
    assert forall i :: 0 <= i < |take| ==> q[i] == take[i];
    assert forall i :: |take| <= i < |q| ==> q[i] !in gone;
    WithoutFront(q, |take|, gone);
  }

  /** One turn without a directive whose proposal, if any, is selected and confirmed. */
  ghost function FullTurn(t: Tables, sid: Session, turn: Turn, id: TextId): Tables {
    var (t1, take) := Hooked(t, sid, turn, [], [], id);
    Confirmed(t1, sid, take)
  }

  function Confirmed(t: Tables, sid: Session, take: seq<Run>): Tables {
    t.(ledger := t.ledger - KeysOf(sid, take), pending := t.pending - KeysOf(sid, take))
  }

  lemma CleanAfter(t: Tables, sid: Session, turn: Turn, take: seq<Run>, id: TextId)
    requires Clean(t, sid, turn)
    ensures Clean(Confirmed(Proposed(t, sid, turn, take, id), sid, take), sid, turn + 1)
  {
  }

  lemma {:induction false} FullTurnTakesThree(t: Tables, sid: Session, turn: Turn, id: TextId)
    requires Clean(t, sid, turn)
    ensures var t' := FullTurn(t, sid, turn, id);
            Clean(t', sid, turn + 1) && Queue(t', sid) == Left(Queue(t, sid), 1)
  {
    var t1 := Reconciled(t, sid, turn);
    HookedWhenClean(t, sid, turn, id);
    if Queue(t, sid) == [] {
      ConfirmedNothing(t1, sid);
    } else {
      ProposedTurn(t1, sid, turn, FirstFew(Queue(t, sid)), id);
    }
  }

  lemma ConfirmedNothing(t: Tables, sid: Session)
    ensures Confirmed(t, sid, []) == t
  {
    assert KeysOf(sid, []) == {};
    assert t.ledger - {} == t.ledger && t.pending - {} == t.pending;
  }

  /** What a clean session's hook does: it proposes the front of the queue, if there is any. */
  lemma HookedWhenClean(t: Tables, sid: Session, turn: Turn, id: TextId)
    requires Clean(t, sid, turn)
    ensures var t1 := Reconciled(t, sid, turn); var q := Queue(t, sid);
            && Clean(t1, sid, turn) && Queue(t1, sid) == q && Owed(t1, sid) == q
            && Hooked(t, sid, turn, [], [], id) ==
                 if q == [] then (t1, []) else (Proposed(t1, sid, turn, FirstFew(q), id), FirstFew(q))
  {
    OwedWhenClean(t, sid, turn);
  }

  lemma {:induction false} ProposedTurn(t: Tables, sid: Session, turn: Turn, take: seq<Run>, id: TextId)
    requires Clean(t, sid, turn) && take <= Queue(t, sid)
    ensures var t' := Confirmed(Proposed(t, sid, turn, take, id), sid, take);
            Clean(t', sid, turn + 1) && Queue(t', sid) == Queue(t, sid)[|take|..]
  {
    CleanAfter(t, sid, turn, take, id);
    ClearingKeepsQueue(t, sid, turn);
    DroppingFront(t.(retired := Capped(t.retired)), sid, take);
  }

  // ---------------------------------------------------------------- one turn as a run --

  /** The session's turn is under way, and nothing of it is selected or confirming yet. */
  predicate Ready(s: State, sid: Session, turn: Turn) {
    Now(s, sid) == turn && sid !in s.chosen && Settled(s, sid)
  }

  function Confirms(sid: Session, take: seq<Run>): seq<Step> {
    if take == [] then []
    else
      var k := (sid, take[|take| - 1]);
      Confirms(sid, take[..|take| - 1]) + [ConfirmDrop(k, true), ConfirmRelease(k)]
  }

  /** The steps of a turn whose proposal is selected and confirmed, up to the next turn. */
  ghost function TurnSteps(t: Tables, sid: Session, turn: Turn, w: WorkerId, id: TextId): seq<Step> {
    var take := Hooked(t, sid, turn, [], [], id).1;
    [Reconcile(sid, turn)]
    + (if take == [] then [] else [ReadOwed(w, sid, turn), Propose(w, id), Select(id)])
    + Confirms(sid, take) + [NextTurn(sid)]
  }

  lemma {:induction false} ExecuteConcat(s: State, a: seq<Step>, b: seq<Step>)
    ensures Execute(s, a + b) == Execute(Execute(s, a), b)
    decreases |a|
  {
    if a == [] {
      assert a + b == b;
    } else {
      assert (a + b)[1..] == a[1..] + b;
      ExecuteConcat(Do(s, a[0]), a[1..], b);
    }
  }

  lemma ConfirmOne(s: State, k: Key)
    ensures var u := Execute(s, [ConfirmDrop(k, true), ConfirmRelease(k)]);
            k in s.dropping ==>
              u == s.(t := s.t.(ledger := s.t.ledger - {k}, pending := s.t.pending - {k}),
                      dropping := s.dropping - {k}, releasing := s.releasing - {k})
  {
    ExecuteConcat(s, [ConfirmDrop(k, true)], [ConfirmRelease(k)]);
    if k in s.dropping { assert s.releasing + {k} - {k} == s.releasing - {k}; }
  }

  /** Confirming some selected cards, first the ledger drop and then the claim of each. */
  lemma {:induction false} ConfirmsAre(s: State, sid: Session, take: seq<Run>)
    requires Distinct(take) && forall r :: r in take ==> (sid, r) in s.dropping
    ensures Execute(s, Confirms(sid, take)) ==
            s.(t := Confirmed(s.t, sid, take),
               dropping := s.dropping - KeysOf(sid, take),
               releasing := s.releasing - KeysOf(sid, take))
    decreases |take|
  {
    if take == [] {
      ConfirmedNothing(s.t, sid);
      assert KeysOf(sid, take) == {};
    } else {
      var last := |take| - 1;
      var front, r := take[..last], take[last];
      var k := (sid, r);
      ConfirmsAre(s, sid, front);
      var mid := Execute(s, Confirms(sid, front));
      ExecuteConcat(s, Confirms(sid, front), [ConfirmDrop(k, true), ConfirmRelease(k)]);
      assert k in mid.dropping;
      ConfirmOne(mid, k);
      ConfirmedSnoc(s.t, sid, front, r);
      assert take == front + [r];
      KeysOfSnoc(sid, front, r);
      assert s.dropping - KeysOf(sid, front) - {k} == s.dropping - KeysOf(sid, take);
      assert s.releasing - KeysOf(sid, front) - {k} == s.releasing - KeysOf(sid, take);
    }
  }

  lemma ConfirmedSnoc(t: Tables, sid: Session, front: seq<Run>, r: Run)
    ensures var u := Confirmed(t, sid, front); var k := (sid, r);
            Confirmed(t, sid, front + [r]) == u.(ledger := u.ledger - {k}, pending := u.pending - {k})
  {
    KeysOfSnoc(sid, front, r);
    var k := (sid, r);
    assert t.ledger - KeysOf(sid, front) - {k} == t.ledger - KeysOf(sid, front + [r]);
    assert t.pending - KeysOf(sid, front) - {k} == t.pending - KeysOf(sid, front + [r]);
  }

  lemma ExecuteThree(s: State, a: Step, b: Step, c: Step)
    ensures Execute(s, [a, b, c]) == Do(Do(Do(s, a), b), c)
  {
    ExecuteConcat(s, [a], [b, c]);
    ExecuteConcat(Do(s, a), [b], [c]);
    assert [a] + [b, c] == [a, b, c] && [b] + [c] == [b, c];
  }

  function AfterRead(s: State, w: WorkerId, me: Worker): State { s.(workers := s.workers[w := me]) }

  function AfterPropose(s: State, w: WorkerId, me: Worker, id: TextId): State {
    s.(t := Proposed(s.t, me.session, me.turn, me.take, id), texts := s.texts[id := Text(me.session, me.turn, me.take)],
       workers := s.workers - {w}, made := s.made + {id})
  }

  function AfterSelect(s: State, text: Text): State {
    s.(chosen := s.chosen + {text.session}, dropping := s.dropping + Carried(text),
       ships := BumpAll(s.ships, Carried(text)))
  }

  lemma ReadsNext(s: State, sid: Session, turn: Turn, w: WorkerId)
    requires turn == Now(s, sid) && (sid, turn) !in s.t.proposed && Owed(s.t, sid) != []
    ensures Do(s, ReadOwed(w, sid, turn)) == AfterRead(s, w, Worker(sid, turn, FirstFew(Owed(s.t, sid))))
  {
  }

  lemma ProposesNext(s: State, w: WorkerId, id: TextId)
    requires id !in s.made && w in s.workers
    ensures Do(s, Propose(w, id)) == AfterPropose(s, w, s.workers[w], id)
  {
  }

  lemma SelectsNext(s: State, id: TextId)
    requires id in s.texts && s.texts[id].turn == Now(s, s.texts[id].session) && s.texts[id].session !in s.chosen
    ensures Do(s, Select(id)) == AfterSelect(s, s.texts[id])
  {
  }

  function Taken(s: State, w: WorkerId, me: Worker, id: TextId): State {
    AfterSelect(AfterPropose(AfterRead(s, w, me), w, me, id), Text(me.session, me.turn, me.take))
  }

  /** Read, propose and select: the session's first owed cards are taken. */
  lemma TakenTurn(s: State, sid: Session, turn: Turn, w: WorkerId, id: TextId)
    requires Ready(s, sid, turn) && id !in s.made
    requires (sid, turn) !in s.t.proposed && Owed(s.t, sid) != []
    ensures Do(Do(Do(s, ReadOwed(w, sid, turn)), Propose(w, id)), Select(id))
            == Taken(s, w, Worker(sid, turn, FirstFew(Owed(s.t, sid))), id)
  {
    var me := Worker(sid, turn, FirstFew(Owed(s.t, sid)));
    ReadsNext(s, sid, turn, w);
    ProposesNext(AfterRead(s, w, me), w, id);
    SelectsNext(AfterPropose(AfterRead(s, w, me), w, me, id), id);
  }

  /** Everything from a taken turn's confirmations to the next turn. */
  lemma {:induction false} ConfirmedTurn(s: State, sid: Session, take: seq<Run>)
    requires Distinct(take) && forall k :: k in s.dropping + s.releasing && k.0 == sid ==> k in KeysOf(sid, take)
    requires forall r :: r in take ==> (sid, r) in s.dropping
    ensures var u := Execute(s, Confirms(sid, take) + [NextTurn(sid)]);
            && u.t == Confirmed(s.t, sid, take) && Ready(u, sid, Now(s, sid) + 1) && u.made == s.made
  {
    ConfirmsAre(s, sid, take);
    ExecuteConcat(s, Confirms(sid, take), [NextTurn(sid)]);
    var mid := Execute(s, Confirms(sid, take));
    assert Settled(mid, sid);
  }

  lemma IdleTurn(s: State, sid: Session, turn: Turn)
    requires Ready(s, sid, turn)
    ensures var u := Execute(s, [Reconcile(sid, turn)] + [] + Confirms(sid, []) + [NextTurn(sid)]);
            && u.t == Reconciled(s.t, sid, turn) && Ready(u, sid, turn + 1) && u.made == s.made
  {
    var s1 := Do(s, Reconcile(sid, turn));
    assert [Reconcile(sid, turn)] + [] + Confirms(sid, []) + [NextTurn(sid)]
           == [Reconcile(sid, turn)] + [NextTurn(sid)];
    ExecuteConcat(s, [Reconcile(sid, turn)], [NextTurn(sid)]);
  }

  lemma BusySteps(s: State, sid: Session, turn: Turn, w: WorkerId, id: TextId, rest: seq<Step>, last: Step)
    ensures Execute(s, [Reconcile(sid, turn)] + [ReadOwed(w, sid, turn), Propose(w, id), Select(id)] + rest + [last])
            == Execute(Do(Do(Do(Do(s, Reconcile(sid, turn)), ReadOwed(w, sid, turn)), Propose(w, id)), Select(id)),
                       rest + [last])
  {
    var first, middle := [Reconcile(sid, turn)], [ReadOwed(w, sid, turn), Propose(w, id), Select(id)];
    assert first + middle + rest + [last] == first + (middle + (rest + [last]));
    ExecuteConcat(s, first, middle + (rest + [last]));
    ExecuteConcat(Do(s, Reconcile(sid, turn)), middle, rest + [last]);
    ExecuteThree(Do(s, Reconcile(sid, turn)), ReadOwed(w, sid, turn), Propose(w, id), Select(id));
  }

  lemma BusyTurn(s: State, sid: Session, turn: Turn, w: WorkerId, id: TextId)
    requires Ready(s, sid, turn) && id !in s.made
    requires var t1 := Reconciled(s.t, sid, turn); (sid, turn) !in t1.proposed && Owed(t1, sid) != []
    ensures var t1 := Reconciled(s.t, sid, turn); var take := FirstFew(Owed(t1, sid));
            var u := Execute(s,
                             [Reconcile(sid, turn)] + [ReadOwed(w, sid, turn), Propose(w, id), Select(id)]
                             + Confirms(sid, take) + [NextTurn(sid)]);
            && u.t == Confirmed(Proposed(t1, sid, turn, take, id), sid, take)
            && Ready(u, sid, turn + 1) && u.made == s.made + {id}
  {
    var s1 := s.(t := Reconciled(s.t, sid, turn));
    assert Do(s, Reconcile(sid, turn)) == s1;
    var take := FirstFew(Owed(s1.t, sid));
    BusySteps(s, sid, turn, w, id, Confirms(sid, take), NextTurn(sid));
    TakenTurn(s1, sid, turn, w, id);
    TakeIsDistinct(s1.t, sid);
    ConfirmsTaken(s1, w, Worker(sid, turn, take), id);
  }

  lemma ConfirmsTaken(s: State, w: WorkerId, me: Worker, id: TextId)
    requires Distinct(me.take) && Settled(s, me.session)
    ensures var sid := me.session;
            var u := Execute(Taken(s, w, me, id), Confirms(sid, me.take) + [NextTurn(sid)]);
            && u.t == Confirmed(Proposed(s.t, sid, me.turn, me.take, id), sid, me.take)
            && Ready(u, sid, Now(s, sid) + 1) && u.made == s.made + {id}
  {
    ConfirmedTurn(Taken(s, w, me, id), me.session, me.take);
  }

  /** A full turn on the tables is a run of the protocol: reconcile, read, propose, select,
      confirm each card, next turn. */
  lemma FullTurnIsARun(s: State, sid: Session, turn: Turn, w: WorkerId, id: TextId)
    requires Ready(s, sid, turn) && id !in s.made
    ensures var u := Execute(s, TurnSteps(s.t, sid, turn, w, id));
            && u.t == FullTurn(s.t, sid, turn, id) && Ready(u, sid, turn + 1) && u.made <= s.made + {id}
  {
    var t1 := Reconciled(s.t, sid, turn);
    if (sid, turn) in t1.proposed || Owed(t1, sid) == [] {
      IdleTurn(s, sid, turn);
      ConfirmedNothing(t1, sid);
    } else {
      BusyTurn(s, sid, turn, w, id);
    }
  }

  lemma TakeIsDistinct(t: Tables, sid: Session)
    ensures Distinct(FirstFew(Owed(t, sid)))
  {
    var all := L.Newest(RunsOf(t.ledger, sid));
    L.NewestLists(RunsOf(t.ledger, sid));
    assert Distinct(all);
    WithoutIsDistinct(all, Blocked(t, sid));
  }

  // ---------------------------------------------------------------- many turns --

  /** The steps of one full turn after another, one fresh text each. */
  ghost function DrainSteps(t: Tables, sid: Session, turn: Turn, w: WorkerId, ids: seq<TextId>): seq<Step>
    decreases |ids|
  {
    if ids == [] then []
    else TurnSteps(t, sid, turn, w, ids[0]) + DrainSteps(FullTurn(t, sid, turn, ids[0]), sid, turn + 1, w, ids[1..])
  }

  /** What is left of a queue after `k` full turns. */
  function Left(q: seq<Run>, k: nat): seq<Run> { q[Least(MAX_CARDS_PER_TURN * k, |q|)..] }

  lemma LeftTwice(q: seq<Run>, k: nat)
    ensures Left(Left(q, 1), k) == Left(q, k + 1)
  {
  }

  /** Texts no run has made yet, no two the same. */
  ghost predicate Fresh(s: State, ids: seq<TextId>) {
    (forall i :: 0 <= i < |ids| ==> ids[i] !in s.made) && forall i, j :: 0 <= i < j < |ids| ==> ids[i] != ids[j]
  }

  lemma StillFresh(s: State, u: State, ids: seq<TextId>)
    requires ids != [] && Fresh(s, ids) && u.made <= s.made + {ids[0]}
    ensures Fresh(u, ids[1..])
  {
    assert forall i :: 0 <= i < |ids| - 1 ==> ids[1..][i] == ids[i + 1];
  }

  /** The first turn of a drain, and what is left to do. */
  lemma OneTurnOfDrain(s: State, sid: Session, turn: Turn, w: WorkerId, ids: seq<TextId>) returns (u: State)
    requires Ready(s, sid, turn) && Clean(s.t, sid, turn) && Fresh(s, ids) && ids != []
    ensures Ready(u, sid, turn + 1) && Clean(u.t, sid, turn + 1) && Fresh(u, ids[1..])
    ensures Queue(u.t, sid) == Left(Queue(s.t, sid), 1)
    ensures QueueAfter(s, sid, turn, w, ids) == QueueAfter(u, sid, turn + 1, w, ids[1..])
  {
    var first := TurnSteps(s.t, sid, turn, w, ids[0]);
    u := Execute(s, first);
    FullTurnIsARun(s, sid, turn, w, ids[0]);
    FullTurnTakesThree(s.t, sid, turn, ids[0]);
    StillFresh(s, u, ids);
    ExecuteConcat(s, first, DrainSteps(FullTurn(s.t, sid, turn, ids[0]), sid, turn + 1, w, ids[1..]));
  }

  /** The queue once the full turns of `ids` are over. */
  ghost function QueueAfter(s: State, sid: Session, turn: Turn, w: WorkerId, ids: seq<TextId>): seq<Run> {
    Queue(Execute(s, DrainSteps(s.t, sid, turn, w, ids)).t, sid)
  }

  lemma NoTurns(s: State, sid: Session, turn: Turn, w: WorkerId)
    ensures QueueAfter(s, sid, turn, w, []) == Left(Queue(s.t, sid), 0)
  {
  }

  lemma LeftChain(q: seq<Run>, next: seq<Run>, last: seq<Run>, k: nat)
    requires next == Left(q, 1) && last == Left(next, k)
    ensures last == Left(q, k + 1)
  {
    LeftTwice(q, k);
  }

  /** `k` full turns ship the front of the queue, in order. */
  lemma {:induction false} QueueShipsInOrder(s: State, sid: Session, turn: Turn, w: WorkerId, ids: seq<TextId>, k: nat)
    requires Ready(s, sid, turn) && Clean(s.t, sid, turn) && Fresh(s, ids) && k == |ids|
    ensures QueueAfter(s, sid, turn, w, ids) == Left(Queue(s.t, sid), k)
    decreases k
  {
    if k == 0 {
      NoTurns(s, sid, turn, w);
    } else {
      var u := OneTurnOfDrain(s, sid, turn, w, ids);
      QueueShipsInOrder(u, sid, turn + 1, w, ids[1..], k - 1);
      LeftChain(Queue(s.t, sid), Queue(u.t, sid), QueueAfter(u, sid, turn + 1, w, ids[1..]), k - 1);
    }
  }

  /** From any state of the protocol whose session is clean: when every proposal is selected, the
      queue ships in order, three a turn, and is empty after ceil(n/3) turns and not before. */
  lemma {:induction false} QueueDrains(s: State, sid: Session, turn: Turn, w: WorkerId, ids: seq<TextId>)
    requires Ready(s, sid, turn) && Clean(s.t, sid, turn) && Fresh(s, ids)
    ensures var q := Queue(s.t, sid); var n := |q|;
            var left := Queue(Execute(s, DrainSteps(s.t, sid, turn, w, ids)).t, sid);
            && left == q[Least(MAX_CARDS_PER_TURN * |ids|, n)..]
            && (left == [] <==> |ids| >= (n + MAX_CARDS_PER_TURN - 1) / MAX_CARDS_PER_TURN)
  {
    QueueShipsInOrder(s, sid, turn, w, ids, |ids|);
  }
}
