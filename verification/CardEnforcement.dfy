/**
 The card one-ship protocol: the module tables of `card_enforcement.py` and the methods that
 change them.  The ledger is seen as the plain map CardLedger proves it to be; a drop that
 does not land leaves it as it was.  Durable-row witnesses are not modelled, so a claim of
 an earlier turn is always denied.
*/
module CardEnforcement {
  import L = CardLedger

  type Session = L.Session
  type Run = L.Run
  type Key = (Session, Run)
  type Turn = int
  type TextId = int

  const MAX_CARDS_PER_TURN := 3
  const TABLE_CAP := 4096

  /** One value of `_PENDING`: the turn that proposed, and the text the weak reference names. */
  datatype Claim = Claim(turn: Turn, ref: TextId)

  datatype Tables = Tables(
    ledger: L.Plain,
    pending: map<Key, Claim>,
    retired: set<Key>,
    proposed: set<(Session, Turn)>)

  // ---------------------------------------------------------------- the table edits --

  function RunsOf(p: L.Plain, sid: Session): map<Run, L.Entry> {
    map k | k in p && k.0 == sid :: k.1 := p[k]
  }

  function Blocked(t: Tables, sid: Session): set<Run> {
    set k | k in t.retired + t.pending.Keys && k.0 == sid :: k.1
  }

  /** `_owed`: the session's ledger entries, newest first, without retired and claimed ones. */
  ghost function Owed(t: Tables, sid: Session): seq<Run> {
    L.Without(L.Newest(RunsOf(t.ledger, sid)), Blocked(t, sid))
  }

  function FirstFew(s: seq<Run>): seq<Run> {
    if |s| <= MAX_CARDS_PER_TURN then s else s[..MAX_CARDS_PER_TURN]
  }

  function DropEntry(t: Tables, k: Key, landed: bool): Tables {
    if landed then t.(ledger := t.ledger - {k}) else t
  }

  function Release(t: Tables, k: Key): Tables {
    t.(pending := t.pending - {k})
  }

  function Pasted(t: Tables, k: Key, landed: bool): Tables {
    DropEntry(Release(t.(retired := t.retired + {k}), k), k, landed)
  }

  function PastedAll(t: Tables, sid: Session, ids: seq<Run>, landed: seq<bool>): Tables
    requires |ids| == |landed|
  {
    if ids == [] then t
    else Pasted(PastedAll(t, sid, ids[..|ids| - 1], landed[..|ids| - 1]), (sid, ids[|ids| - 1]), landed[|ids| - 1])
  }

  predicate Stale(t: Tables, k: Key, sid: Session, turn: Turn) {
    k in t.pending && k.0 == sid && t.pending[k].turn != turn
  }

  function Reconciled(t: Tables, sid: Session, turn: Turn): Tables {
    t.(pending := map k | k in t.pending && !Stale(t, k, sid, turn) :: t.pending[k])
  }

  /** The weak-reference callbacks of one dying text, for all keys it was registered under. */
  function DropOwn(t: Tables, id: TextId): Tables {
    t.(pending := map k | k in t.pending && t.pending[k].ref != id :: t.pending[k])
  }

  /** `_PENDING.setdefault` for each card taken. */
  function Claimed(pending: map<Key, Claim>, sid: Session, take: seq<Run>, claim: Claim): map<Key, Claim> {
    pending + map k | k in KeysOf(sid, take) && k !in pending :: claim
  }

  function KeysOf(sid: Session, runs: seq<Run>): set<Key> {
    set r | r in runs :: (sid, r)
  }

  lemma ClaimedSnoc(pending: map<Key, Claim>, sid: Session, take: seq<Run>, r: Run, claim: Claim)
    ensures var p := Claimed(pending, sid, take, claim);
            Claimed(pending, sid, take + [r], claim) == if (sid, r) in p then p else p[(sid, r) := claim]
  {
    KeysOfSnoc(sid, take, r);
    var p, q := Claimed(pending, sid, take, claim), Claimed(pending, sid, take + [r], claim);
    forall k ensures k in q <==> k in p || k == (sid, r) {
    }
    forall k | k in q ensures q[k] == if k in p then p[k] else claim {
    }
  }

  lemma KeysOfSnoc(sid: Session, runs: seq<Run>, r: Run)
    ensures KeysOf(sid, runs + [r]) == KeysOf(sid, runs) + {(sid, r)}
  {
    forall k: Key ensures k in KeysOf(sid, runs + [r]) <==> k in KeysOf(sid, runs) || k == (sid, r) {
      if k in KeysOf(sid, runs) { assert k.1 in runs; assert k.1 in runs + [r]; }
      if k == (sid, r) { assert r in runs + [r]; }
    }
  }

  function Capped<T>(s: set<T>): set<T> {
    if |s| > TABLE_CAP then {} else s
  }

  function Proposed(t: Tables, sid: Session, turn: Turn, take: seq<Run>, id: TextId): Tables {
    t.(pending := Claimed(t.pending, sid, take, Claim(turn, id)),
       proposed := Capped(t.proposed + {(sid, turn)}),
       retired := Capped(t.retired))
  }

  /** `_card_hook` past its guards: the tables it leaves, and the cards the returned text carries. */
  ghost function Hooked(
    t: Tables, sid: Session, turn: Turn, ids: seq<Run>, landed: seq<bool>, id: TextId): (Tables, seq<Run>)
    requires |ids| == |landed|
  {
    var t1 := Reconciled(t, sid, turn);
    if ids != [] then (PastedAll(t1, sid, ids, landed), [])
    else if (sid, turn) in t1.proposed || Owed(t1, sid) == [] then (t1, [])
    else (Proposed(t1, sid, turn, FirstFew(Owed(t1, sid)), id), FirstFew(Owed(t1, sid)))
  }

  // ---------------------------------------------------------------- what a hook call leaves --

  /** The hook of `turn` may owe the card: its entry stands, nobody pasted it, and no text of this
      turn claims it. */
  predicate Eligible(t: Tables, sid: Session, turn: Turn, r: Run) {
    && (sid, r) in t.ledger && (sid, r) !in t.retired
    && ((sid, r) in t.pending ==> t.pending[(sid, r)].turn != turn)
  }

  /** The claim stands after a reconcile of the session's turn. */
  predicate Stands(t: Tables, sid: Session, turn: Turn, k: Key) {
    k in t.pending && (k.0 == sid ==> t.pending[k].turn == turn)
  }

  /** The newest eligible cards, newest first, as many as there are up to three. */
  ghost predicate TakesNewest(t: Tables, sid: Session, turn: Turn, take: seq<Run>) {
    var runs := RunsOf(t.ledger, sid);
    && |take| <= MAX_CARDS_PER_TURN
    && (forall i :: 0 <= i < |take| ==> Eligible(t, sid, turn, take[i]))
    && (forall i, j :: 0 <= i < j < |take| ==> L.Before(runs, take[i], take[j]))
    && (forall x, i :: 0 <= i < |take| && Eligible(t, sid, turn, x) && x !in take ==> L.Before(runs, take[i], x))
    && (|take| < MAX_CARDS_PER_TURN ==> forall x :: Eligible(t, sid, turn, x) ==> x in take)
  }

  /** Nothing but stale claims of the session has gone. */
  ghost predicate ReconciledJust(t: Tables, t': Tables, sid: Session, turn: Turn) {
    && t'.ledger == t.ledger && t'.retired == t.retired && t'.proposed == t.proposed
    && (forall k :: k in t'.pending <==> Stands(t, sid, turn, k))
    && (forall k :: k in t'.pending ==> t'.pending[k] == t.pending[k])
  }

  /** The drop of one of the pasted cards landed. */
  predicate Dropped(sid: Session, ids: seq<Run>, landed: seq<bool>, k: Key)
    requires |ids| == |landed|
  {
    k.0 == sid && exists i :: 0 <= i < |ids| && ids[i] == k.1 && landed[i]
  }

  /** The pasted cards are retired, unclaimed, and out of the ledger where the drop landed; every
      other entry, retirement and standing claim is as it was. */
  ghost predicate PastedJust(t: Tables, t': Tables, sid: Session, turn: Turn, ids: seq<Run>, landed: seq<bool>)
    requires |ids| == |landed|
  {
    && t'.proposed == t.proposed
    && (forall k :: k in t'.retired <==> k in t.retired || (k.0 == sid && k.1 in ids))
    && (forall k :: k in t'.pending <==> Stands(t, sid, turn, k) && !(k.0 == sid && k.1 in ids))
    && (forall k :: k in t'.pending ==> t'.pending[k] == t.pending[k])
    && (forall k :: k in t'.ledger <==> k in t.ledger && !Dropped(sid, ids, landed, k))
    && (forall k :: k in t'.ledger ==> t'.ledger[k] == t.ledger[k])
  }

  /** The taken cards are claimed for this turn and text, the turn is marked, full tables re-arm. */
  ghost predicate ProposedJust(t: Tables, t': Tables, sid: Session, turn: Turn, take: seq<Run>, id: TextId) {
    && t'.ledger == t.ledger
    && (forall k :: k in t'.pending <==> Stands(t, sid, turn, k) || (k.0 == sid && k.1 in take))
    && (forall k :: k in t'.pending ==>
          t'.pending[k] == if Stands(t, sid, turn, k) then t.pending[k] else Claim(turn, id))
    && t'.proposed == (if |t.proposed + {(sid, turn)}| > 4096 then {} else t.proposed + {(sid, turn)})
    && t'.retired == (if |t.retired| > 4096 then {} else t.retired)
  }

  lemma {:induction false} PastedAllIs(t: Tables, sid: Session, ids: seq<Run>, landed: seq<bool>)
    requires |ids| == |landed|
    ensures var t' := PastedAll(t, sid, ids, landed);
            && t'.proposed == t.proposed
            && (forall k :: k in t'.retired <==> k in t.retired || (k.0 == sid && k.1 in ids))
            && (forall k :: k in t'.pending <==> k in t.pending && !(k.0 == sid && k.1 in ids))
            && (forall k :: k in t'.pending ==> t'.pending[k] == t.pending[k])
            && (forall k :: k in t'.ledger <==> k in t.ledger && !Dropped(sid, ids, landed, k))
            && (forall k :: k in t'.ledger ==> t'.ledger[k] == t.ledger[k])
    decreases |ids|
  {
    if ids != [] {
      var n := |ids| - 1;
      PastedAllIs(t, sid, ids[..n], landed[..n]);
      OneMoreId(sid, ids, landed);
    }
  }

  lemma {:induction false} OneMoreId(sid: Session, ids: seq<Run>, landed: seq<bool>)
    requires |ids| == |landed| > 0
    ensures var n := |ids| - 1;
            && (forall r :: r in ids <==> r in ids[..n] || r == ids[n])
            && (forall k :: Dropped(sid, ids, landed, k) <==>
                  Dropped(sid, ids[..n], landed[..n], k) || (k == (sid, ids[n]) && landed[n]))
  {
    var n := |ids| - 1;
    assert ids == ids[..n] + [ids[n]];
    forall k | Dropped(sid, ids[..n], landed[..n], k) ensures Dropped(sid, ids, landed, k) {
      var i :| 0 <= i < |ids[..n]| && ids[..n][i] == k.1 && landed[..n][i];
      assert ids[i] == k.1 && landed[i];
    }
    forall k | Dropped(sid, ids, landed, k) && !(k == (sid, ids[n]) && landed[n])
      ensures Dropped(sid, ids[..n], landed[..n], k)
    {
      var i :| 0 <= i < |ids| && ids[i] == k.1 && landed[i];
      assert ids[..n][i] == k.1 && landed[..n][i];
    }
  }

  lemma PasteHooks(t: Tables, sid: Session, turn: Turn, ids: seq<Run>, landed: seq<bool>, id: TextId)
    requires |ids| == |landed| && ids != []
    ensures var (t', take) := Hooked(t, sid, turn, ids, landed, id);
            take == [] && PastedJust(t, t', sid, turn, ids, landed)
  {
    PastedAllIs(Reconciled(t, sid, turn), sid, ids, landed);
  }

  /** The owed list of a reconciled session, from the tables before. */
  lemma OwedIsNewest(t: Tables, sid: Session, turn: Turn)
    ensures Owed(Reconciled(t, sid, turn), sid) ==
            L.Newest(RunsOf(t.ledger, sid) - Blocked(Reconciled(t, sid, turn), sid))
  {
    L.NewestWithout(RunsOf(t.ledger, sid), Blocked(Reconciled(t, sid, turn), sid));
  }

  lemma OwedIsEligible(t: Tables, sid: Session, turn: Turn, x: Run)
    ensures x in Owed(Reconciled(t, sid, turn), sid) <==> Eligible(t, sid, turn, x)
  {
    var t1, runs := Reconciled(t, sid, turn), RunsOf(t.ledger, sid);
    OwedIsNewest(t, sid, turn);
    L.NewestHas(runs - Blocked(t1, sid), x);
    assert x in runs <==> (sid, x) in t.ledger;
    assert x in Blocked(t1, sid) <==> (sid, x) in t1.retired + t1.pending.Keys;
  }

  lemma OwedInOrder(t: Tables, sid: Session, turn: Turn, i: nat, j: nat)
    requires i < j < |Owed(Reconciled(t, sid, turn), sid)|
    ensures var owed := Owed(Reconciled(t, sid, turn), sid); var runs := RunsOf(t.ledger, sid);
            owed[i] in runs && owed[j] in runs && L.Before(runs, owed[i], owed[j])
  {
    OwedIsNewest(t, sid, turn);
    L.NewestOrder(RunsOf(t.ledger, sid) - Blocked(Reconciled(t, sid, turn), sid), i, j);
  }

  lemma EligibleHasEntry(t: Tables, sid: Session, turn: Turn, x: Run)
    requires Eligible(t, sid, turn, x)
    ensures x in RunsOf(t.ledger, sid)
  {
    assert (sid, x) in t.ledger;
  }

  lemma FirstFewTaken(t: Tables, sid: Session, turn: Turn)
    ensures TakesNewest(t, sid, turn, FirstFew(Owed(Reconciled(t, sid, turn), sid)))
  {
    var owed := Owed(Reconciled(t, sid, turn), sid);
    var take, runs := FirstFew(owed), RunsOf(t.ledger, sid);
    forall x ensures x in owed <==> Eligible(t, sid, turn, x) { OwedIsEligible(t, sid, turn, x); }
    forall i | 0 <= i < |take| ensures Eligible(t, sid, turn, take[i]) {
      assert take[i] == owed[i] && owed[i] in owed;
    }
    forall i, j | 0 <= i < j < |take| ensures L.Before(runs, take[i], take[j]) { OwedInOrder(t, sid, turn, i, j); }
    forall x, i | 0 <= i < |take| && Eligible(t, sid, turn, x) && x !in take ensures L.Before(runs, take[i], x) {
      var j := PastTheTaken(owed, x);
      OwedInOrder(t, sid, turn, i, j);
    }
  }

  lemma {:induction false} PastTheTaken(owed: seq<Run>, x: Run) returns (j: nat)
    requires x in owed && x !in FirstFew(owed)
    ensures |FirstFew(owed)| <= j < |owed| && owed[j] == x
  {
    j :| 0 <= j < |owed| && owed[j] == x;
    assert forall i :: 0 <= i < |FirstFew(owed)| ==> owed[i] in FirstFew(owed);
  }

  lemma ProposedIs(t: Tables, sid: Session, turn: Turn, take: seq<Run>, id: TextId)
    ensures ProposedJust(t, Proposed(Reconciled(t, sid, turn), sid, turn, take, id), sid, turn, take, id)
  {
    forall k: Key ensures k in KeysOf(sid, take) <==> k.0 == sid && k.1 in take { KeysAre(sid, take, k); }
  }

  lemma KeysAre(sid: Session, runs: seq<Run>, k: Key)
    ensures k in KeysOf(sid, runs) <==> k.0 == sid && k.1 in runs
  {
    if k.0 == sid && k.1 in runs {
      var r := k.1;
      assert r in runs && k == (sid, r);
    }
  }

  lemma ReconciledIs(t: Tables, sid: Session, turn: Turn)
    ensures ReconciledJust(t, Reconciled(t, sid, turn), sid, turn)
  {
  }

  lemma OwesNothing(t: Tables, sid: Session, turn: Turn)
    ensures Owed(Reconciled(t, sid, turn), sid) == [] <==> forall x :: !Eligible(t, sid, turn, x)
  {
    var owed := Owed(Reconciled(t, sid, turn), sid);
    forall x ensures x in owed <==> Eligible(t, sid, turn, x) { OwedIsEligible(t, sid, turn, x); }
    if owed != [] { assert Eligible(t, sid, turn, owed[0]); }
  }

  lemma ProposalHooks(t: Tables, sid: Session, turn: Turn, id: TextId)
    ensures var (t', take) := Hooked(t, sid, turn, [], [], id);
            if (sid, turn) in t.proposed || forall x :: !Eligible(t, sid, turn, x)
            then take == [] && ReconciledJust(t, t', sid, turn)
            else take != [] && TakesNewest(t, sid, turn, take) && ProposedJust(t, t', sid, turn, take, id)
  {
    OwesNothing(t, sid, turn);
    FirstFewTaken(t, sid, turn);
    ReconciledIs(t, sid, turn);
    ProposedIs(t, sid, turn, FirstFew(Owed(Reconciled(t, sid, turn), sid)), id);
  }

  // ---------------------------------------------------------------- the module itself --

  class Enforcement {
    var ledger: L.Plain
    var pending: map<Key, Claim>
    var retired: set<Key>
    var proposed: set<(Session, Turn)>

    function Abs(): Tables reads this {
      Tables(ledger, pending, retired, proposed)
    }

    constructor (ledger: L.Plain)
      ensures Abs() == Tables(ledger, map[], {}, {})
    {
      this.ledger, pending, retired, proposed := ledger, map[], {}, {};
    }

    /** The ledger's `entries`, newest first, as CardLedger.Ledger.Entries returns them. */
    method Entries(sid: Session) returns (out: seq<Run>)
      ensures out == L.Newest(RunsOf(ledger, sid))
    {
      var rest := RunsOf(ledger, sid);
      out := [];
      while rest != map[]
        invariant L.Newest(RunsOf(ledger, sid)) == out + L.Newest(rest)
        decreases |rest|
      {
        L.HasFirst(rest);
        var r :| r in rest && forall x :: x in rest && x != r ==> L.Before(rest, r, x);
        L.FirstIsUnique(rest, r);
        out := out + [r];
        rest := rest - {r};
      }
    }

    method ReadOwed(sid: Session) returns (out: seq<Run>)
      ensures out == Owed(Abs(), sid)
    {
      var all := Entries(sid);
      out := [];
      var i := |all|;
      while i > 0
        invariant 0 <= i <= |all|
        invariant out == L.Without(all[i..], Blocked(Abs(), sid))
      {
        i := i - 1;
        assert all[i..][1..] == all[i + 1..];
        assert all[i] in Blocked(Abs(), sid) <==> (sid, all[i]) in retired + pending.Keys;
        if (sid, all[i]) !in retired && (sid, all[i]) !in pending {
          out := [all[i]] + out;
        }
      }
    }

    /** `_confirm`: the entry first, then the claim. */
    method Confirm(k: Key, landed: bool)
      modifies this
      ensures Abs() == Release(DropEntry(old(Abs()), k, landed), k)
    {
      if landed { ledger := ledger - {k}; }
      pending := pending - {k};
    }

    method Reconcile(sid: Session, turn: Turn)
      modifies this`pending
      ensures Abs() == Reconciled(old(Abs()), sid, turn)
    {
      var todo := set k | k in pending && k.0 == sid;
      while todo != {}
        invariant forall k :: k in todo ==> k in old(pending) && k.0 == sid
        invariant forall k :: k in pending <==> k in old(pending) && (k in todo || !Stale(old(Abs()), k, sid, turn))
        invariant forall k :: k in pending ==> pending[k] == old(pending)[k]
        decreases todo
      {
        var k :| k in todo;
        if pending[k].turn != turn { pending := pending - {k}; }
        todo := todo - {k};
      }
      assert pending == Reconciled(old(Abs()), sid, turn).pending;
    }

    method Die(id: TextId)
      modifies this`pending
      ensures Abs() == DropOwn(old(Abs()), id)
    {
      var todo := pending.Keys;
      while todo != {}
        invariant todo <= old(pending).Keys
        invariant forall k :: k in pending <==> k in old(pending) && (k in todo || old(pending)[k].ref != id)
        invariant forall k :: k in pending ==> pending[k] == old(pending)[k]
        decreases todo
      {
        var k :| k in todo;
        if pending[k].ref == id { pending := pending - {k}; }
        todo := todo - {k};
      }
      assert pending == DropOwn(old(Abs()), id).pending;
    }

    method ClaimAll(sid: Session, take: seq<Run>, claim: Claim)
      modifies this`pending
      ensures pending == Claimed(old(pending), sid, take, claim)
    {
      var i := 0;
      while i < |take|
        invariant 0 <= i <= |take|
        invariant pending == Claimed(old(pending), sid, take[..i], claim)
      {
        var k := (sid, take[i]);
        ClaimedSnoc(old(pending), sid, take[..i], take[i], claim);
        assert take[..i] + [take[i]] == take[..i + 1];
        if k !in pending { pending := pending[k := claim]; }
        i := i + 1;
      }
      assert take[..|take|] == take;
    }

    method Propose(sid: Session, turn: Turn, take: seq<Run>, id: TextId)
      modifies this`pending, this`proposed, this`retired
      ensures Abs() == Proposed(old(Abs()), sid, turn, take, id)
    {
      ClaimAll(sid, take, Claim(turn, id));
      proposed := proposed + {(sid, turn)};
      if |proposed| > TABLE_CAP { proposed := {}; }
      if |retired| > TABLE_CAP { retired := {}; }
    }

    /** The cards of directives the reply already shows: retired, unclaimed, dropped. */
    method Paste(sid: Session, ids: seq<Run>, landed: seq<bool>)
      requires |ids| == |landed|
      modifies this`retired, this`pending, this`ledger
      ensures Abs() == PastedAll(old(Abs()), sid, ids, landed)
    {
      var i := 0;
      while i < |ids|
        invariant 0 <= i <= |ids|
        invariant Abs() == PastedAll(old(Abs()), sid, ids[..i], landed[..i])
      {
        var k := (sid, ids[i]);
        retired := retired + {k};
        pending := pending - {k};
        if landed[i] { ledger := ledger - {k}; }
        assert ids[..i + 1][..i] == ids[..i] && landed[..i + 1][..i] == landed[..i];
        i := i + 1;
      }
      assert ids[..|ids|] == ids && landed[..|ids|] == landed;
    }

    /** `_card_hook`, bound, on a non-empty text of a known surface and session; `ids` are the
        bare directives in it and `landed` the fate of each ledger drop.  A reply that shows cards
        retires, unclaims and drops exactly those; else, once a turn, the three newest eligible cards
        are claimed for the text; and whatever happens the session's stale claims go. */
    method CardHook(sid: Session, turn: Turn, ids: seq<Run>, landed: seq<bool>, id: TextId) returns (take: seq<Run>)
      requires |ids| == |landed|
      modifies this
      ensures (Abs(), take) == Hooked(old(Abs()), sid, turn, ids, landed, id)
      ensures ids != [] ==> take == [] && PastedJust(old(Abs()), Abs(), sid, turn, ids, landed)
      ensures ids == [] ==>
                if (sid, turn) in old(proposed) || forall x :: !Eligible(old(Abs()), sid, turn, x)
                then take == [] && ReconciledJust(old(Abs()), Abs(), sid, turn)
                else && take != [] && TakesNewest(old(Abs()), sid, turn, take)
                     && ProposedJust(old(Abs()), Abs(), sid, turn, take, id)
    {
      if ids != [] {
        PasteHooks(Abs(), sid, turn, ids, landed, id);
      } else {
        assert landed == [];
        ProposalHooks(Abs(), sid, turn, id);
      }
      take := Hook(sid, turn, ids, landed, id);
    }

    method Hook(sid: Session, turn: Turn, ids: seq<Run>, landed: seq<bool>, id: TextId) returns (take: seq<Run>)
      requires |ids| == |landed|
      modifies this
      ensures (Abs(), take) == Hooked(old(Abs()), sid, turn, ids, landed, id)
    {
      Reconcile(sid, turn);
      if ids != [] {
        Paste(sid, ids, landed);
        return [];
      }
      if (sid, turn) in proposed { return []; }
      var owed := ReadOwed(sid);
      take := if |owed| <= MAX_CARDS_PER_TURN then owed else owed[..MAX_CARDS_PER_TURN];
      if take == [] { return []; }
      Propose(sid, turn, take, id);
    }
  }
}
