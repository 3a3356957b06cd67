/** Whole runs of the approval bridge: ticks, emitters, response hooks and sweeps in any order. */
module ApprovalRuns {
  import opened Wrappers
  import opened ApprovalBridge
  import opened Finite

  /** An emitter thread: before its turn to issued, between that and its presentation, over. */
  datatype Emitter = Fresh | Presenting | Over

  datatype State = State(
    t: Tables,
    logs: map<RunId, string>,
    emitters: map<Token, Emitter>,
    seeds: map<RunId, nat>)         // history: the offset of the last first sight

  datatype Step =
    | Grow(run: RunId, more: string)      // environment: a log is created or appended to
    | Tick(run: RunId)
    | Forget(run: RunId)                  // the sweep no longer sees the run directory
    | Skip(k: Token)
    | Issue(k: Token)
    | Present(k: Token, accepted: bool)
    | PreApproval(k: Token)
    | PostApproval(k: Token, choice: string)
    | Reconcile(k: Token)

  function LogOf(s: State, run: RunId): string { if run in s.logs then s.logs[run] else "" }

  function At(s: State, k: Token): Emitter { if k in s.emitters then s.emitters[k] else Over }

  /** Tokens of one tick that are new to the tables; those left pending get an emitter. */
  function NewTokens(t: Tables, t': Tables): set<Token> {
    set k | k in t'.instances && k !in t.instances
  }

  function Do(parse: Parser, s: State, step: Step): State {
    match step
    case Grow(run, more) => s.(logs := s.logs[run := LogOf(s, run) + more])
    case Tick(run) =>
      if run !in s.logs then s else
        var t' := Ticked(s.t, parse, run, s.logs[run]);
        s.(t := t', seeds := if run in s.t.offsets then s.seeds else s.seeds[run := |s.logs[run]|],
           emitters := s.emitters + map k | k in NewTokens(s.t, t') && t'.instances[k].phase == Pending :: Fresh)
    case Forget(run) => s.(t := s.t.(offsets := s.t.offsets - {run}))
    case Skip(k) =>
      if At(s, k) != Fresh then s else s.(t := SkippedOver(s.t, k), emitters := s.emitters[k := Over])
    case Issue(k) =>
      if At(s, k) != Fresh then s else
        s.(t := IssuedNow(s.t, k), emitters := s.emitters[k := if MayIssue(s.t, k) then Presenting else Over])
    case Present(k, accepted) =>
      if At(s, k) != Presenting then s else
        s.(t := if accepted then s.t else Refused(s.t, k), emitters := s.emitters[k := Over])
    case PreApproval(k) => s.(t := Requested(s.t, k))
    case PostApproval(k, choice) => s.(t := Responded(s.t, k, choice))
    case Reconcile(k) => s.(t := Reconciled(s.t, k))
  }

  function Run(parse: Parser, s: State, steps: seq<Step>): State
    decreases |steps|
  {
    if steps == [] then s else Run(parse, Do(parse, s, steps[0]), steps[1..])
  }

  function Initial(): State { State(Tables(map[], map[], [], [], []), map[], map[], map[]) }

  // ---------------------------------------------------------------- invariants --

  /** Minted tokens are rows of their logs, before the offset the next tick starts from. */
  ghost predicate LogsOk(parse: Parser, s: State) {
    && (forall run :: run in s.t.offsets ==> run in s.logs && s.t.offsets[run] <= |s.logs[run]|)
    && (forall k :: k in s.t.mints ==> k.run in s.logs && RowAt(parse, s.logs[k.run], k))
    && (forall k :: k in s.t.mints && k.run in s.t.offsets ==> k.off < s.t.offsets[k.run])
  }

  /** `off` is where reading began or the start of a line. */
  predicate ReadTo(log: string, seed: nat, off: nat) {
    seed <= off <= |log| && (seed < off ==> log[off - 1] == '\n')
  }

  ghost predicate SeedsOk(s: State) {
    forall run :: run in s.t.offsets ==>
      run in s.logs && run in s.seeds && ReadTo(s.logs[run], s.seeds[run], s.t.offsets[run])
  }

  /** Since the seed, minted are exactly the hold rows that start a line before the offset. */
  ghost predicate RowsMinted(parse: Parser, s: State)
    requires SeedsOk(s)
  {
    forall k: Token :: k.run in s.t.offsets && s.seeds[k.run] <= k.off ==>
      (k in s.t.mints <==> IsRow(parse, k.run, s.logs[k.run], s.seeds[k.run], s.t.offsets[k.run], k))
  }

  ghost predicate Distinct(ks: seq<Token>) { forall i, j :: 0 <= i < j < |ks| ==> ks[i] != ks[j] }

  /** Instances carry their token's hold; the tables know minted tokens only. */
  ghost predicate Known(t: Tables) {
    && (forall k :: k in t.instances ==>
          k in t.mints && t.instances[k].run == k.run && t.instances[k].gate == k.gate)
    && (forall i :: 0 <= i < |t.releases| ==> t.releases[i].token in t.mints)
  }

  ghost predicate ReleasesOk(t: Tables) {
    && (forall i :: 0 <= i < |t.releases| ==>
          var r := t.releases[i];
          && Approves(r.choice) && r.run == r.token.run && r.gate == r.token.gate
          && (r.token in t.instances ==> t.instances[r.token].resolved))
    && (forall i, j :: 0 <= i < j < |t.releases| ==> t.releases[i].token != t.releases[j].token)
  }

  ghost predicate Bounded(t: Tables) {
    |Inflight(t)| <= MAX_INFLIGHT && |t.order| <= KEEP_RESOLVED
  }

  ghost predicate TablesOk(t: Tables) {
    Known(t) && ReleasesOk(t) && Bounded(t)
  }

  /** Only the emitter itself skips a minted-pending instance, and it does so before it presents. */
  ghost predicate EmittersOk(s: State) {
    forall k :: k in s.emitters ==>
      && k in s.t.mints
      && (s.emitters[k] == Presenting && k in s.t.instances ==> s.t.instances[k].phase != Skipped)
  }

  ghost predicate Inv(parse: Parser, s: State) {
    && LogsOk(parse, s) && SeedsOk(s) && RowsMinted(parse, s) && Distinct(s.t.mints)
    && TablesOk(s.t) && EmittersOk(s)
  }

  // ---------------------------------------------------------------- the tables --

  /** `t'` has lost instances at most, and its FIFO fits. */
  ghost predicate Trimmed(t: Tables, t': Tables) {
    && (forall k :: k in t'.instances ==> k in t.instances && t'.instances[k] == t.instances[k])
    && t'.releases == t.releases && t'.offsets == t.offsets && t'.mints == t.mints
    && |t'.order| <= KEEP_RESOLVED
  }

  lemma TrimOk(t: Tables)
    ensures Trimmed(t, Newest(t))
  {
  }

  /** An edit of a known instance that starts to count nothing new, perhaps with a trim. */
  lemma EditOk(t: Tables, k: Token, i: Instance, t': Tables)
    requires TablesOk(t) && k in t.instances
    requires i.run == k.run && i.gate == k.gate && (t.instances[k].resolved ==> i.resolved)
    requires Counts(i) ==> Counts(t.instances[k])
    requires t' == Set(t, k, i) || t' == Enqueue(Set(t, k, i), k)
    ensures TablesOk(t')
  {
    TrimOk(Set(t, k, i).(order := t.order + [k]));
    assert Inflight(t') <= Inflight(t);
    SubsetSize(Inflight(t'), Inflight(t));
  }

  lemma {:induction false} HooksOk(t: Tables, k: Token)
    requires TablesOk(t)
    ensures TablesOk(Requested(t, k)) && TablesOk(Reconciled(t, k))
    ensures TablesOk(SkippedOver(t, k)) && TablesOk(IssuedNow(t, k))
  {
    if k in t.instances {
      var i := t.instances[k];
      EditOk(t, k, i.(phase := Skipped), SkippedOver(t, k));
      if i.phase == Issued { EditOk(t, k, i.(phase := Noticed), Requested(t, k)); }
      if i.phase == Pending { EditOk(t, k, i.(phase := Issued), IssuedNow(t, k)); }
      if !i.resolved { EditOk(t, k, i.(resolved := true, phase := Resolved), Settled(t, k)); }
    }
  }

  lemma RefusedOk(t: Tables, k: Token)
    requires TablesOk(t) && (k in t.instances ==> t.instances[k].phase != Skipped)
    ensures TablesOk(Refused(t, k))
  {
    if k in t.instances && !t.instances[k].resolved {
      EditOk(t, k, t.instances[k].(phase := Failed), Refused(t, k));
    }
  }

  /** A response resolves its token, so no token is released twice. */
  lemma RespondedOk(t: Tables, k: Token, choice: string)
    requires TablesOk(t)
    ensures TablesOk(Responded(t, k, choice))
  {
    if k in t.instances && !t.instances[k].resolved {
      var t1 := Settled(t, k);
      EditOk(t, k, t.instances[k].(resolved := true, phase := Resolved), t1);
      TrimOk(Set(t, k, t.instances[k].(resolved := true, phase := Resolved)).(order := t.order + [k]));
      assert k in t1.instances ==> t1.instances[k].resolved;
      var t' := Responded(t, k, choice);
      assert Inflight(t') == Inflight(t1);
      forall i, j | 0 <= i < j < |t'.releases| ensures t'.releases[i].token != t'.releases[j].token {
        assert i < |t.releases| && t'.releases[i] == t.releases[i];
      }
    }
  }

  lemma MintedOk(t: Tables, k: Token)
    requires TablesOk(t) && k !in t.mints
    ensures TablesOk(Minted(t, k)) && Minted(t, k).mints == t.mints + [k]
  {
    var made := Made(t, k, Skipped);
    TrimOk(made.(order := made.order + [k]));
    MintedOne(t, k);
    MintedBounded(t, k);
  }

  lemma {:induction false} MintAllOk(t: Tables, ks: seq<Token>)
    requires TablesOk(t) && Ascend(ks) && forall k :: k in ks ==> k !in t.mints
    ensures TablesOk(MintAll(t, ks))
    decreases |ks|
  {
    if ks != [] {
      AscendTail(ks);
      MintedOk(t, ks[0]);
      MintAllOk(Minted(t, ks[0]), ks[1..]);
    }
  }

  /** Instances not among the minted tokens are old ones, unchanged. */
  lemma {:induction false} MintAllKeeps(t: Tables, ks: seq<Token>, x: Token)
    requires x !in ks && x in MintAll(t, ks).instances
    ensures x in t.instances && MintAll(t, ks).instances[x] == t.instances[x]
    decreases |ks|
  {
    if ks != [] {
      MintedOne(t, ks[0]);
      MintAllKeeps(Minted(t, ks[0]), ks[1..], x);
    }
  }

  // ---------------------------------------------------------------- the logs --

  lemma {:induction false} NextBreakGrows(log: string, more: string, pos: nat)
    requires pos <= |log| && NextBreak(log, pos) < |log|
    ensures NextBreak(log + more, pos) == NextBreak(log, pos)
    decreases |log| - pos
  {
    if pos < |log| && log[pos] != '\n' { NextBreakGrows(log, more, pos + 1); }
  }

  lemma {:induction false} SliceStays(log: string, more: string, lo: nat, hi: nat)
    requires lo <= hi <= |log|
    ensures (log + more)[lo..hi] == log[lo..hi]
  {
  }

  /** A complete line stays what it is while its log grows. */
  lemma {:induction false} RowStays(parse: Parser, log: string, more: string, k: Token)
    requires k.off < |log| && NextBreak(log, k.off) < |log|
    ensures RowAt(parse, log + more, k) <==> RowAt(parse, log, k)
  {
    NextBreakGrows(log, more, k.off);
    SliceStays(log, more, k.off, NextBreak(log, k.off));
  }

  /** What was read keeps its rows while the log grows. */
  lemma IsRowStays(parse: Parser, run: RunId, log: string, more: string, seed: nat, off: nat, k: Token)
    requires ReadTo(log, seed, off)
    ensures IsRow(parse, run, log + more, seed, off, k) <==> IsRow(parse, run, log, seed, off, k)
  {
    if seed <= k.off < off {
      assert NextBreak(log, k.off) < off;
      RowStays(parse, log, more, k);
    }
  }

  /** The rows up to `stop` are those up to `known` and those from there. */
  lemma RowsSplit(parse: Parser, run: RunId, log: string, seed: nat, known: nat, stop: nat, k: Token)
    requires ReadTo(log, seed, known) && known <= stop
    ensures IsRow(parse, run, log, seed, stop, k) <==>
              IsRow(parse, run, log, seed, known, k) || IsRow(parse, run, log, known, stop, k)
  {
  }

  lemma UnreadIsRow(t: Tables, parse: Parser, run: RunId, log: string, k: Token)
    requires Behind(t, run, log)
    ensures Unread(t, parse, run, log, k) <==>
              IsRow(parse, run, log, t.offsets[run], Complete(log, t.offsets[run]), k)
  {
    if Unread(t, parse, run, log, k) { CompleteIsLast(log, t.offsets[run], k.off); }
  }

  // ---------------------------------------------------------------- steps --

  lemma OffsetsDoNotMatter(t: Tables, offsets: map<RunId, nat>)
    requires TablesOk(t)
    ensures TablesOk(t.(offsets := offsets))
  {
    assert Inflight(t.(offsets := offsets)) == Inflight(t);
  }

  /** No unread row was minted before, so a tick mints each once, in order. */
  lemma TickMintsNew(parse: Parser, s: State, run: RunId)
    requires LogsOk(parse, s) && TablesOk(s.t) && run in s.logs
    ensures var rows := FreshRows(s.t, parse, run, s.logs[run]);
            && Do(parse, s, Tick(run)).t.mints == s.t.mints + rows && Ascend(rows)
            && (forall k :: k in rows <==> Unread(s.t, parse, run, s.logs[run], k))
            && (forall k :: k in rows ==> k !in s.t.mints)
  {
    TickMintsInOrder(s.t, parse, run, s.logs[run]);
  }

  lemma TickKeepsTables(parse: Parser, s: State, run: RunId)
    requires LogsOk(parse, s) && TablesOk(s.t) && run in s.logs
    ensures TablesOk(Do(parse, s, Tick(run)).t)
  {
    var offsets := s.t.offsets[run := ReadUpTo(s.t, run, s.logs[run])];
    TickMintsNew(parse, s, run);
    OffsetsDoNotMatter(s.t, offsets);
    MintAllOk(s.t.(offsets := offsets), FreshRows(s.t, parse, run, s.logs[run]));
  }

  lemma DistinctConcat(ks: seq<Token>, rows: seq<Token>)
    requires Distinct(ks) && Ascend(rows) && forall k :: k in rows ==> k !in ks
    ensures Distinct(ks + rows)
  {
    forall i, j | 0 <= i < j < |ks + rows| ensures (ks + rows)[i] != (ks + rows)[j] {
      if i < |ks| <= j { assert rows[j - |ks|] in rows && ks[i] in ks; }
    }
  }

  lemma TickKeepsEmitters(parse: Parser, s: State, run: RunId)
    requires LogsOk(parse, s) && TablesOk(s.t) && EmittersOk(s) && run in s.logs
    ensures EmittersOk(Do(parse, s, Tick(run)))
  {
    var u, rows := Do(parse, s, Tick(run)), FreshRows(s.t, parse, run, s.logs[run]);
    TickMintsNew(parse, s, run);
    TickKeepsTables(parse, s, run);
    forall k | k in u.emitters
      ensures k in u.t.mints
              && (u.emitters[k] == Presenting && k in u.t.instances ==> u.t.instances[k].phase != Skipped)
    {
      if k in s.emitters && u.emitters[k] == Presenting && k in u.t.instances {
        MintAllKeeps(s.t.(offsets := s.t.offsets[run := ReadUpTo(s.t, run, s.logs[run])]), rows, k);
      }
    }
  }

  lemma TickKeepsLogs(parse: Parser, s: State, run: RunId)
    requires LogsOk(parse, s) && TablesOk(s.t) && run in s.logs
    ensures LogsOk(parse, Do(parse, s, Tick(run)))
  {
    var u, log := Do(parse, s, Tick(run)), s.logs[run];
    TickMintsNew(parse, s, run);
    TickedOffsets(s.t, parse, run, log);
    forall k | k in u.t.mints && k.run in u.t.offsets ensures k.off < u.t.offsets[k.run] {
      if k.run == run { TickReadsPast(parse, s, run, k); }
    }
  }

  lemma TickReadsPast(parse: Parser, s: State, run: RunId, k: Token)
    requires LogsOk(parse, s) && run in s.logs && k.run == run
    requires k in s.t.mints || Unread(s.t, parse, run, s.logs[run], k)
    ensures k.off < ReadUpTo(s.t, run, s.logs[run])
  {
    if Unread(s.t, parse, run, s.logs[run], k) { CompleteIsLast(s.logs[run], s.t.offsets[run], k.off); }
  }

  lemma ReadOnReads(log: string, seed: nat, known: nat)
    requires ReadTo(log, seed, known)
    ensures ReadTo(log, seed, Complete(log, known))
  {
  }

  lemma TickKeepsSeeds(parse: Parser, s: State, run: RunId)
    requires SeedsOk(s) && run in s.logs
    ensures SeedsOk(Do(parse, s, Tick(run)))
  {
    var log, u := s.logs[run], Do(parse, s, Tick(run));
    TickedOffsets(s.t, parse, run, log);
    if run in s.t.offsets { ReadOnReads(log, s.seeds[run], s.t.offsets[run]); }
    assert u.t.offsets == s.t.offsets[run := ReadUpTo(s.t, run, log)] && u.logs == s.logs;
  }

  /** After a tick the run's rows since its seed are minted up to the new offset. */
  lemma TickMintsOwn(parse: Parser, s: State, run: RunId, k: Token)
    requires LogsOk(parse, s) && TablesOk(s.t) && SeedsOk(s) && RowsMinted(parse, s)
    requires run in s.logs && k.run == run
    ensures var u := Do(parse, s, Tick(run));
            run in u.t.offsets && run in u.seeds && u.logs == s.logs &&
            (u.seeds[run] <= k.off ==>
              (k in u.t.mints <==> IsRow(parse, run, s.logs[run], u.seeds[run], u.t.offsets[run], k)))
  {
    var log := s.logs[run];
    TickMintsNew(parse, s, run);
    TickedOffsets(s.t, parse, run, log);
    if Behind(s.t, run, log) {
      UnreadIsRow(s.t, parse, run, log, k);
      RowsSplit(parse, run, log, s.seeds[run], s.t.offsets[run], Complete(log, s.t.offsets[run]), k);
    }
  }

  lemma TickKeepsRows(parse: Parser, s: State, run: RunId)
    requires LogsOk(parse, s) && TablesOk(s.t) && SeedsOk(s) && RowsMinted(parse, s) && run in s.logs
    requires SeedsOk(Do(parse, s, Tick(run)))
    ensures RowsMinted(parse, Do(parse, s, Tick(run)))
  {
    var u := Do(parse, s, Tick(run));
    TickMintsNew(parse, s, run);
    TickedOffsets(s.t, parse, run, s.logs[run]);
    forall k: Token | k.run in u.t.offsets && u.seeds[k.run] <= k.off
      ensures k in u.t.mints <==> IsRow(parse, k.run, u.logs[k.run], u.seeds[k.run], u.t.offsets[k.run], k)
    {
      if k.run == run { TickMintsOwn(parse, s, run, k); }
    }
  }

  lemma TickKeepsInv(parse: Parser, s: State, run: RunId)
    requires Inv(parse, s) && run in s.logs
    ensures Inv(parse, Do(parse, s, Tick(run)))
  {
    TickKeepsLogs(parse, s, run);
    TickKeepsSeeds(parse, s, run);
    TickKeepsRows(parse, s, run);
    TickMintsNew(parse, s, run);
    DistinctConcat(s.t.mints, FreshRows(s.t, parse, run, s.logs[run]));
    TickKeepsTables(parse, s, run);
    TickKeepsEmitters(parse, s, run);
  }

  lemma GrowKeepsLogs(parse: Parser, s: State, run: RunId, more: string)
    requires LogsOk(parse, s)
    ensures LogsOk(parse, Do(parse, s, Grow(run, more)))
  {
    forall k | k in s.t.mints && k.run == run ensures RowAt(parse, LogOf(s, run) + more, k) {
      RowStays(parse, LogOf(s, run), more, k);
    }
  }

  lemma {:induction false} GrowKeepsRows(parse: Parser, s: State, run: RunId, more: string)
    requires SeedsOk(s) && RowsMinted(parse, s)
    ensures SeedsOk(Do(parse, s, Grow(run, more))) && RowsMinted(parse, Do(parse, s, Grow(run, more)))
  {
    var u := Do(parse, s, Grow(run, more));
    forall k: Token | k.run in u.t.offsets && u.seeds[k.run] <= k.off
      ensures k in u.t.mints <==> IsRow(parse, k.run, u.logs[k.run], u.seeds[k.run], u.t.offsets[k.run], k)
    {
      if k.run == run { IsRowStays(parse, run, s.logs[run], more, s.seeds[run], s.t.offsets[run], k); }
    }
  }

  lemma OffsetsStay(t: Tables, k: Token, choice: string)
    ensures SameReading(t, Requested(t, k)) && SameReading(t, Reconciled(t, k))
    ensures SameReading(t, SkippedOver(t, k)) && SameReading(t, IssuedNow(t, k))
    ensures SameReading(t, Refused(t, k)) && SameReading(t, Responded(t, k, choice))
  {
  }

  /** Nothing was read and nothing minted. */
  predicate SameReading(t: Tables, u: Tables) { u.offsets == t.offsets && u.mints == t.mints }

  /** No hook, sweep or presentation turns an instance to skipped. */
  lemma NobodySkips(t: Tables, k: Token, choice: string, x: Token)
    requires x in t.instances ==> t.instances[x].phase != Skipped
    ensures var u := Requested(t, k); x in u.instances ==> u.instances[x].phase != Skipped
    ensures var u := Reconciled(t, k); x in u.instances ==> u.instances[x].phase != Skipped
    ensures var u := IssuedNow(t, k); x in u.instances ==> u.instances[x].phase != Skipped
    ensures var u := Refused(t, k); x in u.instances ==> u.instances[x].phase != Skipped
    ensures var u := Responded(t, k, choice); x in u.instances ==> u.instances[x].phase != Skipped
    ensures var u := SkippedOver(t, k); x != k && x in u.instances ==> u.instances[x].phase != Skipped
  {
    if k in t.instances {
      TrimOk(Set(t, k, t.instances[k].(resolved := true, phase := Resolved)).(order := t.order + [k]));
      TrimOk(Set(t, k, t.instances[k].(phase := Failed)).(order := t.order + [k]));
    }
  }

  predicate Edits(step: Step) { !step.Grow? && !step.Tick? && !step.Forget? }

  /** A step that edits one token's row leaves the logs and what was read of them alone. */
  lemma EditKeepsLogs(parse: Parser, s: State, step: Step)
    requires Edits(step)
    ensures var u := Do(parse, s, step); SameReading(s.t, u.t) && u.logs == s.logs && u.seeds == s.seeds
  {
    OffsetsStay(s.t, step.k, if step.PostApproval? then step.choice else "");
  }

  lemma EditKeepsTables(parse: Parser, s: State, step: Step)
    requires TablesOk(s.t) && EmittersOk(s) && Edits(step)
    ensures TablesOk(Do(parse, s, step).t)
  {
    var k := step.k;
    match step
    case Present(_, _) => if At(s, k) == Presenting { RefusedOk(s.t, k); }
    case PostApproval(_, choice) => RespondedOk(s.t, k, choice);
    case _ => HooksOk(s.t, k);
  }

  lemma EditKeepsEmitters(parse: Parser, s: State, step: Step)
    requires EmittersOk(s) && Edits(step)
    ensures EmittersOk(Do(parse, s, step))
  {
    var u := Do(parse, s, step);
    var k, choice := step.k, if step.PostApproval? then step.choice else "";
    EditKeepsLogs(parse, s, step);
    forall x | x in u.emitters
      ensures x in u.t.mints
              && (u.emitters[x] == Presenting && x in u.t.instances ==> u.t.instances[x].phase != Skipped)
    {
      assert x in s.emitters;
      if s.emitters[x] == Presenting { NobodySkips(s.t, k, choice, x); }
    }
  }

  lemma EditKeepsInv(parse: Parser, s: State, step: Step)
    requires Inv(parse, s) && Edits(step)
    ensures Inv(parse, Do(parse, s, step))
  {
    EditKeepsLogs(parse, s, step);
    EditKeepsTables(parse, s, step);
    EditKeepsEmitters(parse, s, step);
  }

  lemma ForgetKeepsInv(parse: Parser, s: State, run: RunId)
    requires Inv(parse, s)
    ensures Inv(parse, Do(parse, s, Forget(run)))
  {
    assert Inflight(Do(parse, s, Forget(run)).t) == Inflight(s.t);
  }

  lemma StepKeepsInv(parse: Parser, s: State, step: Step)
    requires Inv(parse, s)
    ensures Inv(parse, Do(parse, s, step))
  {
    match step
    case Grow(run, more) =>
      GrowKeepsLogs(parse, s, run, more);
      GrowKeepsRows(parse, s, run, more);
    case Tick(run) => if run in s.logs { TickKeepsInv(parse, s, run); }
    case Forget(run) => ForgetKeepsInv(parse, s, run);
    case _ => EditKeepsInv(parse, s, step);
  }

  lemma {:induction false} RunKeepsInv(parse: Parser, s: State, steps: seq<Step>)
    requires Inv(parse, s)
    ensures Inv(parse, Run(parse, s, steps))
    decreases |steps|
  {
    if steps != [] {
      StepKeepsInv(parse, s, steps[0]);
      RunKeepsInv(parse, Do(parse, s, steps[0]), steps[1..]);
    }
  }

  // ---------------------------------------------------------------- main results --

  /**
   Between the offset a run was first seen with and the one it is read up to, every complete hold
   row has been minted and nothing else has, whatever came in between; and no row is minted twice.
  */
  lemma EveryRowIsMintedOnce(parse: Parser, steps: seq<Step>, k: Token)
    ensures var s := Run(parse, Initial(), steps);
            && Distinct(s.t.mints)
            && (k.run in s.t.offsets ==>
                  && k.run in s.logs && k.run in s.seeds && s.seeds[k.run] <= s.t.offsets[k.run] <= |s.logs[k.run]|
                  && (s.seeds[k.run] <= k.off ==>
                        (k in s.t.mints <==>
                           && k.off < s.t.offsets[k.run]
                           && LineStart(s.logs[k.run], s.seeds[k.run], k.off)
                           && RowAt(parse, s.logs[k.run], k))))
  {
    RunKeepsInv(parse, Initial(), steps);
  }

  /** Right after a tick of a run no complete row since its first sight is left unminted. */
  lemma TickLeavesNoRow(parse: Parser, steps: seq<Step>, k: Token)
    requires k.run in Run(parse, Initial(), steps).logs
    ensures var s := Do(parse, Run(parse, Initial(), steps), Tick(k.run));
            && k.run in s.seeds && k.run in s.logs
            && (LineStart(s.logs[k.run], s.seeds[k.run], k.off) && RowAt(parse, s.logs[k.run], k) ==> k in s.t.mints)
  {
    var s := Run(parse, Initial(), steps);
    RunKeepsInv(parse, Initial(), steps);
    TickMintsOwn(parse, s, k.run, k);
    TickedOffsets(s.t, parse, k.run, s.logs[k.run]);
    var u := Do(parse, s, Tick(k.run));
    if LineStart(u.logs[k.run], u.seeds[k.run], k.off) && RowAt(parse, u.logs[k.run], k) {
      if k.run in s.t.offsets && s.t.offsets[k.run] <= k.off {
        CompleteIsLast(s.logs[k.run], s.t.offsets[k.run], k.off);
      }
    }
  }

  /**
   However ticks, emitters, response hooks and sweeps interleave: every release asked of the
   door is for a hold row that a tick minted and that stands in that run's log, names the run and
   gate of that row, answers an approve-shaped choice, and no token is released twice.
  */
  lemma OneReleasePerHold(parse: Parser, steps: seq<Step>)
    ensures var s := Run(parse, Initial(), steps); var rs := s.t.releases;
            && (forall i :: 0 <= i < |rs| ==>
                  && Approves(rs[i].choice) && rs[i].token in s.t.mints
                  && rs[i].run == rs[i].token.run && rs[i].gate == rs[i].token.gate
                  && rs[i].run in s.logs && RowAt(parse, s.logs[rs[i].run], rs[i].token))
            && (forall i, j :: 0 <= i < j < |rs| ==> rs[i].token != rs[j].token)
  {
    RunKeepsInv(parse, Initial(), steps);
  }

  /** In every run the bounds hold, although a token may enter the FIFO twice and be trimmed early. */
  lemma BoundsHold(parse: Parser, steps: seq<Step>)
    ensures var t := Run(parse, Initial(), steps).t;
            |Inflight(t)| <= MAX_INFLIGHT && |t.order| <= KEEP_RESOLVED
  {
    RunKeepsInv(parse, Initial(), steps);
  }

  /** A second response to a token changes nothing, whatever either choice is. */
  lemma SecondResponseIsInert(t: Tables, k: Token, choice: string, again: string)
    ensures Responded(Responded(t, k, choice), k, again) == Responded(t, k, choice)
  {
    RespondedKeeps(t, k, choice);
  }
}
