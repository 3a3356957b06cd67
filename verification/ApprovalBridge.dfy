/**
 The approval bridge's tables and everything that changes them: the tailer's tick over one
 run's event log, minting, the emitter's steps, the two response hooks and the reconcile sweep.
 Each method is one critical section of the module lock.

 A token is the tuple its hash is taken of, so distinct hold rows have distinct tokens.  Event
 logs are texts that only grow; `parse` is the JSON reading of one line.
*/
module ApprovalBridge {
  import opened Wrappers
  import opened Finite

  type RunId = int
  type Gate = int
  type Ts = int

  datatype Token = Token(run: RunId, gate: Gate, off: nat, ts: Ts)

  datatype Phase = Pending | Skipped | Issued | Noticed | Failed | Resolved
  datatype Instance = Instance(run: RunId, gate: Gate, phase: Phase, resolved: bool)

  /** One call of the door's release action. */
  datatype Release = Release(token: Token, run: RunId, gate: Gate, choice: string)

  datatype Tables = Tables(
    offsets: map<RunId, nat>,
    instances: map<Token, Instance>,
    order: seq<Token>,
    releases: seq<Release>,
    mints: seq<Token>)              // history: every instance ever made

  const MAX_INFLIGHT := 8
  const KEEP_RESOLVED := 256

  type Parser = string -> Option<(Gate, Ts)>

  predicate Approves(choice: string) { choice in {"once", "session", "always"} }

  // ---------------------------------------------------------------- the edits --

  /** How many tokens at the front of a queue do not fit any more. */
  function Overflow(order: seq<Token>): nat { if |order| > KEEP_RESOLVED then |order| - KEEP_RESOLVED else 0 }

  function Tokens(order: seq<Token>): set<Token> { set k | k in order }

  /** The newest tokens, and the instances but those of the others. */
  function Newest(t: Tables): Tables {
    var n := Overflow(t.order);
    t.(order := t.order[n..], instances := t.instances - Tokens(t.order[..n]))
  }

  lemma NewestOne(t: Tables)
    requires |t.order| > KEEP_RESOLVED
    ensures Newest(t) == Newest(t.(instances := t.instances - {t.order[0]}, order := t.order[1..]))
  {
    var n := Overflow(t.order);
    var front := t.order[1..][..n - 1];
    assert t.order[..n] == [t.order[0]] + front;
    assert Tokens(t.order[..n]) == {t.order[0]} + Tokens(front);
    assert t.instances - {t.order[0]} - Tokens(front) == t.instances - Tokens(t.order[..n]);
    assert t.order[1..][n - 1..] == t.order[n..];
  }

  lemma NewestAll(t: Tables)
    requires |t.order| <= KEEP_RESOLVED
    ensures Newest(t) == t
  {
    assert t.order[..0] == [] && t.order[0..] == t.order;
    assert t.instances - {} == t.instances;
  }

  /** A token enters the queue: the newest stay, the instances of those pushed out go. */
  function Enqueue(t: Tables, k: Token): Tables { Newest(t.(order := t.order + [k])) }

  predicate Counts(i: Instance) { !i.resolved && i.phase != Skipped }

  function Inflight(t: Tables): set<Token> {
    set k | k in t.instances && Counts(t.instances[k])
  }

  function Set(t: Tables, k: Token, i: Instance): Tables { t.(instances := t.instances[k := i]) }

  function Made(t: Tables, k: Token, phase: Phase): Tables {
    Set(t, k, Instance(k.run, k.gate, phase, false)).(mints := t.mints + [k])
  }

  /** `_bridge` */
  function Minted(t: Tables, k: Token): Tables {
    if k in t.instances then t
    else if |Inflight(t)| >= MAX_INFLIGHT then Enqueue(Made(t, k, Skipped), k)
    else Made(t, k, Pending)
  }

  /** Hold after hold. */
  function MintAll(t: Tables, ks: seq<Token>): Tables
    decreases |ks|
  {
    if ks == [] then t else MintAll(Minted(t, ks[0]), ks[1..])
  }

  /** `_on_pre_approval` */
  function Requested(t: Tables, k: Token): Tables {
    if k in t.instances && t.instances[k].phase == Issued
    then Set(t, k, t.instances[k].(phase := Noticed))
    else t
  }

  function Settled(t: Tables, k: Token): Tables
    requires k in t.instances
  {
    Enqueue(Set(t, k, t.instances[k].(resolved := true, phase := Resolved)), k)
  }

  /** `_on_post_approval`, with the release it may ask of the door. */
  function Responded(t: Tables, k: Token, choice: string): Tables {
    if k !in t.instances || t.instances[k].resolved then t
    else
      var t', i := Settled(t, k), t.instances[k];
      if Approves(choice) then t'.(releases := t'.releases + [Release(k, i.run, i.gate, choice)]) else t'
  }

  /** `_reconcile` of one instance whose hold is gone. */
  function Reconciled(t: Tables, k: Token): Tables {
    if k !in t.instances || t.instances[k].resolved then t else Settled(t, k)
  }

  /** The emitter: `_skip`, the turn to issued, and a refused presentation. */
  function SkippedOver(t: Tables, k: Token): Tables {
    if k in t.instances then Set(t, k, t.instances[k].(phase := Skipped)) else t
  }

  predicate MayIssue(t: Tables, k: Token) { k in t.instances && t.instances[k].phase == Pending }

  function IssuedNow(t: Tables, k: Token): Tables {
    if MayIssue(t, k) then Set(t, k, t.instances[k].(phase := Issued)) else t
  }

  function Refused(t: Tables, k: Token): Tables {
    if k in t.instances && !t.instances[k].resolved
    then Enqueue(Set(t, k, t.instances[k].(phase := Failed)), k)
    else t
  }

  // ---------------------------------------------------------------- reading a log --

  /** The next line break at or after `pos`, or the end. */
  function NextBreak(log: string, pos: nat): (e: nat)
    requires pos <= |log|
    ensures pos <= e <= |log| && (e < |log| ==> log[e] == '\n')
    ensures forall j :: pos <= j < e ==> log[j] != '\n'
    decreases |log| - pos
  {
    if pos == |log| || log[pos] == '\n' then pos
    else NextBreak(log, pos + 1)
  }

  /** One past the last line break at or after `pos`; `pos` if there is none. */
  function Complete(log: string, pos: nat): (stop: nat)
    requires pos <= |log|
    ensures pos <= stop <= |log| && (stop > pos ==> log[stop - 1] == '\n')
    decreases |log| - pos
  {
    var e := NextBreak(log, pos);
    if e == |log| then pos else Complete(log, e + 1)
  }

  /** The token of the line that starts at `pos`, if it is a hold row. */
  function LineTokens(parse: Parser, run: RunId, log: string, pos: nat): seq<Token>
    requires pos <= |log|
  {
    match parse(log[pos..NextBreak(log, pos)])
    case None => []
    case Some((gate, ts)) => [Token(run, gate, pos, ts)]
  }

  /** The tokens of the hold rows among the complete lines of `log[pos..stop]`, each under its
      line's own offset. */
  function RowTokens(parse: Parser, run: RunId, log: string, pos: nat, stop: nat): seq<Token>
    requires pos <= stop <= |log| && (stop > pos ==> log[stop - 1] == '\n')
    decreases stop - pos
  {
    if pos == stop then []
    else LineTokens(parse, run, log, pos) + RowTokens(parse, run, log, NextBreak(log, pos) + 1, stop)
  }

  /** The rows a tick has not read yet. */
  function FreshRows(t: Tables, parse: Parser, run: RunId, log: string): seq<Token> {
    if run !in t.offsets || |log| <= t.offsets[run] then []
    else RowTokens(parse, run, log, t.offsets[run], Complete(log, t.offsets[run]))
  }

  /** Where a tick stops reading: a first sight seeds at the end, so that history never re-fires,
      and a partial tail waits. */
  function ReadUpTo(t: Tables, run: RunId, log: string): nat {
    if run in t.offsets && t.offsets[run] <= |log| then Complete(log, t.offsets[run]) else |log|
  }

  /** `_tick`'s body for one run. */
  function Ticked(t: Tables, parse: Parser, run: RunId, log: string): Tables {
    MintAll(t.(offsets := t.offsets[run := ReadUpTo(t, run, log)]), FreshRows(t, parse, run, log))
  }

  // ---------------------------------------------------------------- what a tick reads --

  /** The token's row stands in the log: its offset is where a hold row of that content starts. */
  ghost predicate RowAt(parse: Parser, log: string, k: Token) {
    && k.off < |log| && NextBreak(log, k.off) < |log|
    && parse(log[k.off..NextBreak(log, k.off)]) == Some((k.gate, k.ts))
  }

  predicate LineStart(log: string, pos: nat, off: nat) {
    pos <= off <= |log| && (off == pos || log[off - 1] == '\n')
  }

  /** A complete hold row of the run that starts a line at or after the offset read up to. */
  ghost predicate Unread(t: Tables, parse: Parser, run: RunId, log: string, k: Token) {
    k.run == run && run in t.offsets && LineStart(log, t.offsets[run], k.off) && RowAt(parse, log, k)
  }

  /** A hold row of the run that starts a line between two offsets. */
  ghost predicate IsRow(parse: Parser, run: RunId, log: string, pos: nat, stop: nat, k: Token) {
    k.run == run && k.off < stop && LineStart(log, pos, k.off) && RowAt(parse, log, k)
  }

  /** The tokens of the first line, and those of the lines after it. */
  lemma FirstLine(parse: Parser, run: RunId, log: string, pos: nat, stop: nat)
    requires pos < stop <= |log| && log[stop - 1] == '\n'
    ensures var e := NextBreak(log, pos);
            && e < stop && (e + 1 < stop ==> log[stop - 1] == '\n')
            && RowTokens(parse, run, log, pos, stop) ==
                 LineTokens(parse, run, log, pos) + RowTokens(parse, run, log, e + 1, stop)
  {
  }

  lemma LineTokensAre(parse: Parser, run: RunId, log: string, pos: nat, k: Token)
    requires pos <= |log| && NextBreak(log, pos) < |log|
    ensures |LineTokens(parse, run, log, pos)| <= 1
    ensures k in LineTokens(parse, run, log, pos) <==> k.run == run && k.off == pos && RowAt(parse, log, k)
  {
  }

  /** A row starts the first line or stands in the lines after it. */
  lemma FirstRow(parse: Parser, run: RunId, log: string, pos: nat, stop: nat, k: Token)
    requires pos < stop <= |log| && NextBreak(log, pos) < stop
    ensures IsRow(parse, run, log, pos, stop, k) <==>
              || (k.run == run && k.off == pos && RowAt(parse, log, k))
              || IsRow(parse, run, log, NextBreak(log, pos) + 1, stop, k)
  {
    var e := NextBreak(log, pos);
    if k.off != pos { assert pos < k.off <= e ==> log[k.off - 1] != '\n'; }
  }

  /** The rows read are exactly the hold rows that start a complete line of what was appended. */
  lemma {:induction false} RowTokensAreRows(parse: Parser, run: RunId, log: string, pos: nat, stop: nat, k: Token)
    requires pos <= stop <= |log| && (stop > pos ==> log[stop - 1] == '\n')
    ensures k in RowTokens(parse, run, log, pos, stop) <==> IsRow(parse, run, log, pos, stop, k)
    decreases stop - pos
  {
    if pos < stop {
      FirstLine(parse, run, log, pos, stop);
      LineTokensAre(parse, run, log, pos, k);
      FirstRow(parse, run, log, pos, stop, k);
      RowTokensAreRows(parse, run, log, NextBreak(log, pos) + 1, stop, k);
    }
  }

  lemma {:induction false} CompleteIsLast(log: string, pos: nat, off: nat)
    requires pos <= off <= |log| && NextBreak(log, off) < |log|
    ensures off < Complete(log, pos)
    decreases |log| - pos
  {
    var e := NextBreak(log, pos);
    if off <= e { NextBreakInside(log, pos, off); } else { CompleteIsLast(log, e + 1, off); }
  }

  lemma {:induction false} NextBreakInside(log: string, pos: nat, off: nat)
    requires pos <= |log| && pos <= off <= NextBreak(log, pos)
    ensures NextBreak(log, off) == NextBreak(log, pos)
    decreases off - pos
  {
    if pos < off { NextBreakInside(log, pos + 1, off); }
  }

  /** A tick reads every hold row that starts a complete line at or after its offset, and nothing
      else: what it has not read stands in an unfinished line. */
  lemma TickReadsEveryRow(t: Tables, parse: Parser, run: RunId, log: string, k: Token)
    ensures k in FreshRows(t, parse, run, log) <==> Unread(t, parse, run, log, k)
  {
    if run in t.offsets && t.offsets[run] < |log| {
      var known := t.offsets[run];
      RowTokensAreRows(parse, run, log, known, Complete(log, known), k);
      if Unread(t, parse, run, log, k) { CompleteIsLast(log, known, k.off); }
    }
  }

  /** The rows stand in the order of the log, none twice. */
  ghost predicate Ascend(ks: seq<Token>) { forall i, j :: 0 <= i < j < |ks| ==> ks[i].off < ks[j].off }

  ghost predicate From(ks: seq<Token>, pos: nat) { forall i :: 0 <= i < |ks| ==> pos <= ks[i].off }

  lemma AscendCons(line: seq<Token>, rest: seq<Token>, pos: nat)
    requires |line| <= 1 && (line != [] ==> line[0].off == pos)
    requires Ascend(rest) && From(rest, pos + 1)
    ensures Ascend(line + rest) && From(line + rest, pos)
  {
  }

  lemma FromLater(ks: seq<Token>, pos: nat, later: nat)
    requires From(ks, later) && pos <= later
    ensures From(ks, pos)
  {
  }

  lemma {:induction false} RowTokensAscend(parse: Parser, run: RunId, log: string, pos: nat, stop: nat)
    requires pos <= stop <= |log| && (stop > pos ==> log[stop - 1] == '\n')
    ensures Ascend(RowTokens(parse, run, log, pos, stop)) && From(RowTokens(parse, run, log, pos, stop), pos)
    decreases stop - pos
  {
    if pos < stop {
      var e := NextBreak(log, pos);
      FirstLine(parse, run, log, pos, stop);
      RowTokensAscend(parse, run, log, e + 1, stop);
      var line, rest := LineTokens(parse, run, log, pos), RowTokens(parse, run, log, e + 1, stop);
      FromLater(rest, pos + 1, e + 1);
      AscendCons(line, rest, pos);
    }
  }

  // ---------------------------------------------------------------- what a tick mints --

  lemma MintedOne(t: Tables, k: Token)
    ensures var u := Minted(t, k);
            && u.offsets == t.offsets && u.releases == t.releases
            && u.mints == (if k in t.instances then t.mints else t.mints + [k])
            && (forall x :: x in u.instances && x != k ==> x in t.instances && u.instances[x] == t.instances[x])
  {
  }

  lemma {:induction false} MintAllRest(t: Tables, ks: seq<Token>)
    ensures MintAll(t, ks).offsets == t.offsets && MintAll(t, ks).releases == t.releases
    decreases |ks|
  {
    if ks != [] {
      MintedOne(t, ks[0]);
      MintAllRest(Minted(t, ks[0]), ks[1..]);
    }
  }

  lemma {:induction false} MintAllAdds(t: Tables, ks: seq<Token>)
    ensures t.mints <= MintAll(t, ks).mints
    ensures forall k :: k in MintAll(t, ks).mints ==> k in t.mints || k in ks
    decreases |ks|
  {
    if ks != [] {
      MintedOne(t, ks[0]);
      MintAllAdds(Minted(t, ks[0]), ks[1..]);
    }
  }

  lemma AscendTail(ks: seq<Token>)
    requires Ascend(ks) && ks != []
    ensures Ascend(ks[1..]) && ks[0] !in ks[1..]
    ensures forall k :: k in ks <==> k == ks[0] || k in ks[1..]
  {
    assert ks == [ks[0]] + ks[1..];
  }

  /** A token that does not stand is minted. */
  lemma {:induction false} MintAllReaches(t: Tables, ks: seq<Token>, k: Token)
    requires Ascend(ks) && k in ks && k !in t.instances
    ensures k in MintAll(t, ks).mints
    decreases |ks|
  {
    AscendTail(ks);
    MintedOne(t, ks[0]);
    if k == ks[0] {
      MintAllAdds(Minted(t, k), ks[1..]);
      assert k in Minted(t, k).mints;
    } else {
      MintAllReaches(Minted(t, ks[0]), ks[1..], k);
    }
  }

  /** Tokens none of which stands are minted once each, in order. */
  lemma {:induction false} MintAllMints(t: Tables, ks: seq<Token>)
    requires Ascend(ks) && forall k :: k in ks ==> k !in t.instances
    ensures MintAll(t, ks).mints == t.mints + ks
    decreases |ks|
  {
    if ks != [] {
      AscendTail(ks);
      MintedOne(t, ks[0]);
      MintAllMints(Minted(t, ks[0]), ks[1..]);
      assert t.mints + ks == t.mints + [ks[0]] + ks[1..];
    }
  }

  /** With room for `n` more, the next mints are pending one by one and skipped after that; none
      is pushed out while the queue has room. */
  lemma {:induction false} MintAllStand(t: Tables, ks: seq<Token>, n: nat)
    requires Ascend(ks) && (forall k :: k in ks ==> k !in t.instances)
    requires |t.order| + |ks| <= KEEP_RESOLVED && |Inflight(t)| + n == MAX_INFLIGHT
    ensures var u := MintAll(t, ks);
            && (forall x :: x in t.instances ==> x in u.instances && u.instances[x] == t.instances[x])
            && (forall i :: 0 <= i < |ks| ==>
                  && ks[i] in u.instances
                  && u.instances[ks[i]] ==
                       Instance(ks[i].run, ks[i].gate, if i < n then Pending else Skipped, false))
    decreases |ks|
  {
    if ks != [] {
      var k, rest := ks[0], ks[1..];
      var t1 := Minted(t, k);
      MintedStands(t, k);
      assert forall x :: x in rest ==> x in ks && x != k;
      MintAllStand(t1, rest, if n > 0 then n - 1 else 0);
      assert forall i :: 1 <= i < |ks| ==> ks[i] == rest[i - 1];
    }
  }

  lemma MintedStands(t: Tables, k: Token)
    requires k !in t.instances && |t.order| < KEEP_RESOLVED && |Inflight(t)| <= MAX_INFLIGHT
    ensures var u := Minted(t, k); var room := |Inflight(t)| < MAX_INFLIGHT;
            && u.instances == t.instances[k := Instance(k.run, k.gate, if room then Pending else Skipped, false)]
            && |Inflight(u)| == |Inflight(t)| + (if room then 1 else 0)
            && |u.order| <= |t.order| + 1
  {
    var u := Minted(t, k);
    if |Inflight(t)| < MAX_INFLIGHT {
      assert Inflight(u) == Inflight(t) + {k};
    } else {
      NewestAll(Made(t, k, Skipped).(order := t.order + [k]));
      assert Inflight(u) == Inflight(t);
    }
  }

  // ---------------------------------------------------------------- the module itself --

  lemma MintedBounded(t: Tables, k: Token)
    ensures |Inflight(t)| <= MAX_INFLIGHT ==> |Inflight(Minted(t, k))| <= MAX_INFLIGHT
  {
    var u := Minted(t, k);
    if k !in t.instances {
      if |Inflight(t)| >= MAX_INFLIGHT {
        assert Inflight(u) <= Inflight(t);
        SubsetSize(Inflight(u), Inflight(t));
      } else {
        assert Inflight(u) == Inflight(t) + {k};
      }
    }
  }

  lemma MintedNew(t: Tables, k: Token)
    requires k !in t.instances
    ensures var u := Minted(t, k);
            && (k in u.instances ==> !u.instances[k].resolved && u.instances[k].phase in {Pending, Skipped})
            && (|t.order| < KEEP_RESOLVED ==> k in u.instances)
  {
    if |t.order| < KEEP_RESOLVED { NewestAll(Made(t, k, Skipped).(order := t.order + [k])); }
  }

  function LineMinted(t: Tables, parse: Parser, run: RunId, log: string, pos: nat): Tables
    requires pos <= |log|
  {
    var line := LineTokens(parse, run, log, pos);
    if line == [] then t else Minted(t, line[0])
  }

  lemma MintAllFirst(t: Tables, line: seq<Token>, rest: seq<Token>)
    requires |line| <= 1
    ensures MintAll(t, line + rest) == MintAll(if line == [] then t else Minted(t, line[0]), rest)
  {
    if line == [] { assert line + rest == rest; } else { assert (line + rest)[1..] == rest; }
  }

  lemma MintFirstLine(t: Tables, parse: Parser, run: RunId, log: string, pos: nat, stop: nat)
    requires pos < stop <= |log| && log[stop - 1] == '\n'
    ensures MintAll(t, RowTokens(parse, run, log, pos, stop)) ==
            MintAll(LineMinted(t, parse, run, log, pos), RowTokens(parse, run, log, NextBreak(log, pos) + 1, stop))
  {
    FirstLine(parse, run, log, pos, stop);
    MintAllFirst(t, LineTokens(parse, run, log, pos), RowTokens(parse, run, log, NextBreak(log, pos) + 1, stop));
  }

  lemma FreshRowsAscend(t: Tables, parse: Parser, run: RunId, log: string)
    ensures Ascend(FreshRows(t, parse, run, log))
  {
    if run in t.offsets && t.offsets[run] < |log| {
      RowTokensAscend(parse, run, log, t.offsets[run], Complete(log, t.offsets[run]));
    }
  }

  /** `u` has minted exactly those unread rows that did not stand in `t`, after what `t` had minted. */
  ghost predicate MintsUnread(t: Tables, u: Tables, parse: Parser, run: RunId, log: string) {
    && t.mints <= u.mints
    && (forall k :: Unread(t, parse, run, log, k) && k !in t.instances ==> k in u.mints)
    && (forall k :: k in u.mints ==> k in t.mints || Unread(t, parse, run, log, k))
  }

  lemma TickMintsUnread(t: Tables, parse: Parser, run: RunId, log: string)
    ensures MintsUnread(t, Ticked(t, parse, run, log), parse, run, log)
  {
    var seeded := t.(offsets := t.offsets[run := ReadUpTo(t, run, log)]);
    var rows := FreshRows(t, parse, run, log);
    FreshRowsAscend(t, parse, run, log);
    MintAllAdds(seeded, rows);
    forall k ensures k in rows <==> Unread(t, parse, run, log, k) {
      TickReadsEveryRow(t, parse, run, log, k);
    }
    forall k | k in rows && k !in t.instances ensures k in MintAll(seeded, rows).mints {
      MintAllReaches(seeded, rows, k);
    }
  }

  /** Rows none of which stands: minted once each in the order of the log; and while the queue has
      room for all of them, they all stand afterwards, pending up to the bound on those in flight
      and skipped beyond it. */
  lemma TickMintsInOrder(t: Tables, parse: Parser, run: RunId, log: string)
    requires |Inflight(t)| <= MAX_INFLIGHT
    requires forall k :: Unread(t, parse, run, log, k) ==> k !in t.instances
    ensures var u, rows := Ticked(t, parse, run, log), FreshRows(t, parse, run, log);
            && Ascend(rows) && (forall k :: k in rows <==> Unread(t, parse, run, log, k))
            && u.mints == t.mints + rows
            && (|t.order| + |rows| <= KEEP_RESOLVED ==>
                  forall i :: 0 <= i < |rows| ==>
                    && rows[i] in u.instances
                    && u.instances[rows[i]].phase == (if |Inflight(t)| + i < MAX_INFLIGHT then Pending else Skipped))
  {
    var seeded := t.(offsets := t.offsets[run := ReadUpTo(t, run, log)]);
    var rows := FreshRows(t, parse, run, log);
    FreshRowsAscend(t, parse, run, log);
    forall k ensures k in rows <==> Unread(t, parse, run, log, k) {
      TickReadsEveryRow(t, parse, run, log, k);
    }
    MintAllMints(seeded, rows);
    assert Inflight(seeded) == Inflight(t);
    if |t.order| + |rows| <= KEEP_RESOLVED { MintAllStand(seeded, rows, MAX_INFLIGHT - |Inflight(t)|); }
  }

  /** There is something to read past the offset of a known run. */
  predicate Behind(t: Tables, run: RunId, log: string) { run in t.offsets && |log| > t.offsets[run] }

  lemma TickedIdle(t: Tables, parse: Parser, run: RunId, log: string)
    requires !Behind(t, run, log)
    ensures Ticked(t, parse, run, log) == t.(offsets := t.offsets[run := |log|])
  {
  }

  lemma TickedBehind(t: Tables, parse: Parser, run: RunId, log: string)
    requires Behind(t, run, log)
    ensures var known := t.offsets[run]; var stop := Complete(log, known);
            MintAll(t.(offsets := t.offsets[run := stop]), RowTokens(parse, run, log, known, stop)) ==
            Ticked(t, parse, run, log)
  {
  }

  lemma TickedOffsets(t: Tables, parse: Parser, run: RunId, log: string)
    ensures var u := Ticked(t, parse, run, log);
            u.offsets == t.offsets[run := ReadUpTo(t, run, log)] && u.releases == t.releases
  {
    MintAllRest(t.(offsets := t.offsets[run := ReadUpTo(t, run, log)]), FreshRows(t, parse, run, log));
  }

  lemma RespondedKeeps(t: Tables, k: Token, choice: string)
    ensures var u := Responded(t, k, choice);
            && (k in u.instances ==> u.instances[k].resolved)
            && (u.releases != t.releases <==> k in t.instances && !t.instances[k].resolved && Approves(choice))
            && (u.releases == t.releases ||
                (&& k in t.instances
                 && u.releases == t.releases + [Release(k, t.instances[k].run, t.instances[k].gate, choice)]))
  {
  }

  class Bridge {
    var offsets: map<RunId, nat>
    var instances: map<Token, Instance>
    var order: seq<Token>
    var releases: seq<Release>      // what the door was asked for
    ghost var mints: seq<Token>     // history: every instance ever made

    ghost function Abs(): Tables reads this { Tables(offsets, instances, order, releases, mints) }

    constructor ()
      ensures Abs() == Tables(map[], map[], [], [], [])
    {
      offsets, instances, order, releases, mints := map[], map[], [], [], [];
    }

    /** The append and the trim loop: the queue keeps its 256 newest tokens, and exactly the
        instances of those pushed out are gone. */
    method Push(k: Token)
      modifies this`instances, this`order
      ensures Abs() == Enqueue(old(Abs()), k)
    {
      order := order + [k];
      while |order| > KEEP_RESOLVED
        invariant Newest(Abs()) == Enqueue(old(Abs()), k)
        decreases |order|
      {
        NewestOne(Abs());
        instances := instances - {order[0]};
        order := order[1..];
      }
      NewestAll(Abs());
    }

    /** An unknown token is minted, and stands at once unless the queue is full; the bound on those
        in flight holds if it held; no other instance is new or changes. */
    method Mint(k: Token)
      modifies this`instances, this`order, this`mints
      ensures Abs() == Minted(old(Abs()), k)
      ensures |Inflight(old(Abs()))| <= MAX_INFLIGHT ==> |Inflight(Abs())| <= MAX_INFLIGHT
      ensures forall x :: x in instances && x != k ==> x in old(instances) && instances[x] == old(instances)[x]
      ensures k in old(instances) ==> instances == old(instances)
      ensures k in instances && k !in old(instances) ==>
                !instances[k].resolved && instances[k].phase in {Pending, Skipped}
      ensures mints == if k in old(instances) then old(mints) else old(mints) + [k]
      ensures |old(order)| < KEEP_RESOLVED ==> k in instances
    {
      MintedBounded(Abs(), k);
      MintedOne(Abs(), k);
      if k in instances { return; }
      MintedNew(Abs(), k);
      var inflight := set x | x in instances && Counts(instances[x]);
      assert inflight == Inflight(Abs());
      mints := mints + [k];
      if |inflight| >= MAX_INFLIGHT {
        instances := instances[k := Instance(k.run, k.gate, Skipped, false)];
        Push(k);
        return;
      }
      instances := instances[k := Instance(k.run, k.gate, Pending, false)];
    }

    method PreApproval(k: Token)
      modifies this`instances
      ensures Abs() == Requested(old(Abs()), k)
    {
      if k in instances && instances[k].phase == Issued {
        instances := instances[k := instances[k].(phase := Noticed)];
      }
    }

    /** The door is asked at most once, for a known unresolved token and an approve-shaped choice
        only, and afterwards the token is no longer unresolved. */
    method PostApproval(k: Token, choice: string)
      modifies this
      ensures Abs() == Responded(old(Abs()), k, choice)
      ensures releases == old(releases) ||
              (&& k in old(instances)
               && releases == old(releases)
                    + [Release(k, old(instances)[k].run, old(instances)[k].gate, choice)])
      ensures releases != old(releases) <==> k in old(instances) && !old(instances)[k].resolved && Approves(choice)
      ensures k in instances ==> instances[k].resolved
    {
      RespondedKeeps(Abs(), k, choice);
      if k !in instances || instances[k].resolved { return; }
      var inst := instances[k];
      instances := instances[k := inst.(resolved := true, phase := Resolved)];
      Push(k);
      if Approves(choice) { releases := releases + [Release(k, inst.run, inst.gate, choice)]; }
    }

    method Reconcile(k: Token)
      modifies this
      ensures Abs() == Reconciled(old(Abs()), k)
    {
      if k !in instances || instances[k].resolved { return; }
      instances := instances[k := instances[k].(resolved := true, phase := Resolved)];
      Push(k);
    }

    method Skip(k: Token)
      modifies this`instances
      ensures Abs() == SkippedOver(old(Abs()), k)
    {
      if k in instances { instances := instances[k := instances[k].(phase := Skipped)]; }
    }

    method Issue(k: Token) returns (go: bool)
      modifies this`instances
      ensures Abs() == IssuedNow(old(Abs()), k) && go == MayIssue(old(Abs()), k)
    {
      if k !in instances || instances[k].phase != Pending { return false; }
      instances := instances[k := instances[k].(phase := Issued)];
      return true;
    }

    method Refuse(k: Token)
      modifies this`instances, this`order
      ensures Abs() == Refused(old(Abs()), k)
    {
      if k in instances && !instances[k].resolved {
        instances := instances[k := instances[k].(phase := Failed)];
        Push(k);
      }
    }

    /** One run's turn in a sweep.  Every complete hold row at or after the offset is minted under
        its own offset unless it stands already, and nothing else is. */
    method Tick(parse: Parser, run: RunId, log: string)
      modifies this
      ensures Abs() == Ticked(old(Abs()), parse, run, log)
      ensures offsets == old(offsets)[run := ReadUpTo(old(Abs()), run, log)] && releases == old(releases)
      ensures MintsUnread(old(Abs()), Abs(), parse, run, log)
    {
      TickMintsUnread(Abs(), parse, run, log);
      TickedOffsets(Abs(), parse, run, log);
      Read(parse, run, log);
    }

    method Read(parse: Parser, run: RunId, log: string)
      modifies this
      ensures Abs() == Ticked(old(Abs()), parse, run, log)
    {
      if run !in offsets || |log| <= offsets[run] {
        TickedIdle(Abs(), parse, run, log);
        offsets := offsets[run := |log|];
      } else {
        TickedBehind(Abs(), parse, run, log);
        ReadOn(parse, run, log, offsets[run]);
      }
    }

    method ReadOn(parse: Parser, run: RunId, log: string, known: nat)
      requires run in offsets && offsets[run] == known < |log|
      modifies this
      ensures var stop := Complete(log, known);
              Abs() == MintAll(old(Abs()).(offsets := old(offsets)[run := stop]),
                               RowTokens(parse, run, log, known, stop))
    {
      var stop := Complete(log, known);
      if stop == known {
        assert offsets[run := known] == offsets;
      } else {
        offsets := offsets[run := stop];
        MintRows(parse, run, log, known, stop);
      }
    }

    /** The loop over the appended lines. */
    method MintRows(parse: Parser, run: RunId, log: string, known: nat, stop: nat)
      requires known < stop <= |log| && log[stop - 1] == '\n'
      modifies this`instances, this`order, this`mints
      ensures Abs() == MintAll(old(Abs()), RowTokens(parse, run, log, known, stop))
    {
      var pos := known;
      while pos < stop
        invariant known <= pos <= stop
        invariant MintAll(Abs(), RowTokens(parse, run, log, pos, stop)) ==
                  MintAll(old(Abs()), RowTokens(parse, run, log, known, stop))
        decreases stop - pos
      {
        MintFirstLine(Abs(), parse, run, log, pos, stop);
        pos := MintLine(parse, run, log, pos);
      }
    }

    method MintLine(parse: Parser, run: RunId, log: string, pos: nat) returns (after: nat)
      requires pos <= |log|
      modifies this`instances, this`order, this`mints
      ensures after == NextBreak(log, pos) + 1 && Abs() == LineMinted(old(Abs()), parse, run, log, pos)
    {
      var e := NextBreak(log, pos);
      match parse(log[pos..e]) {
        case None =>
        case Some((gate, ts)) => Mint(Token(run, gate, pos, ts));
      }
      after := e + 1;
    }
  }
}
