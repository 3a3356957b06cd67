/**
 The graph-revision compare-and-set of `_graph_revision`, `_revision_cas`, `_graph_lock`
 and the read/check/write skeleton of `act_amend`.

 Any number of clients run against one run directory, which holds the amend log and the
 graph.  Every read or write of a file is a step of its own; only the door lock keeps
 critical sections apart.  Reads outside the lock (both halves of the status token, the
 patch read, the old-graph read, the preview read) may fall anywhere, in particular
 between the log append and the graph replace of another client.  A client may crash at
 any step; the kernel then drops its lock.
*/
module GraphRevision {
  import opened Wrappers
  import opened Collections

  type ClientId = nat

  /** One line of the amend log. */
  datatype Row<G> = Row(who: ClientId, before: G, after: G)

  /** The revision token: line count of the log and hash of the graph bytes. */
  datatype Token<H> = Token(count: nat, sha: H)

  /** The door lock; `Writing` is a critical section whose row is already in the log. */
  datatype Lock<G> = Free | Held(holder: ClientId) | Writing(holder: ClientId, next: G)

  datatype Pc =
    | Start          // nothing read yet
    | HalfToken      // graph bytes of the token read, log not counted yet
    | Ready          // token settled (read, invented, or none)
    | Based          // patch base read
    | EarlyHeld      // holds the lock for the first check
    | Admitted       // first check passed, lock released
    | OldRead        // old graph read, for the freeze
    | Previewed      // graph read once more, for the preview diff
    | FinalHeld      // holds the lock for the second check
    | Cleared        // second check passed, lock still held
    | Logged         // row appended, graph not replaced yet
    | Done
    | Refused
    | Dead

  /** The local variables of one amend.  The last block is history, read by no step. */
  datatype Client<G, H> = Client(
    pc: Pc,
    token: Option<Token<H>>,
    patchBase: G,
    oldGraph: G,
    previewBase: G,
    tokenBytes: G,             // the graph bytes the token's hash was taken of
    // history
    tokenWasRead: bool,
    rowsAtBytes: nat,          // log length when the token's graph bytes were read
    pendingAtBytes: Option<G>, // graph some writer was about to install at that moment
    pendingAtPatch: Option<G>, // the same, at the patch read
    replaced: G,               // the graph this amend replaced
    written: G)                // the graph it put there

  datatype State<G, H> = State(
    rows: seq<Row<G>>,
    graph: G,
    lock: Lock<G>,
    clients: map<ClientId, Client<G, H>>,
    deadRows: set<int>,        // history: rows whose writer died before its replace
    lost: nat)                 // history: how many of them were to change the graph

  datatype Step<G, H> =
    | ReadTokenBytes(c: ClientId)
    | CountTokenRows(c: ClientId)
    | InventToken(c: ClientId, token: Option<Token<H>>)
    | ReadPatchBase(c: ClientId)
    | LockEarly(c: ClientId)
    | CheckEarly(c: ClientId)
    | ReadOld(c: ClientId)
    | ReadPreview(c: ClientId)
    | LockFinal(c: ClientId)
    | CheckFinal(c: ClientId)
    | AppendRow(c: ClientId, next: G)
    | ReplaceGraph(c: ClientId)
    | Crash(c: ClientId)

  function NewClient<G, H>(g: G): Client<G, H> {
    Client(Start, None, g, g, g, g, false, 0, None, None, g, g)
  }

  function Initial<G, H>(g: G): State<G, H> {
    State([], g, Free, map[], {}, 0)
  }

  function Get<G, H>(s: State<G, H>, c: ClientId): Client<G, H> {
    if c in s.clients then s.clients[c] else NewClient(s.graph)
  }

  function Put<G, H>(s: State<G, H>, c: ClientId, cl: Client<G, H>): State<G, H> {
    s.(clients := s.clients[c := cl])
  }

  function Pending<G, H>(s: State<G, H>): Option<G> {
    if s.lock.Writing? then Some(s.lock.next) else None
  }

  /** `_graph_revision`, read while nobody else moves the two files. */
  function Head<G, H>(h: G -> H, s: State<G, H>): Token<H> {
    Token(|s.rows|, h(s.graph))
  }

  /** `_revision_cas`: a missing token passes, a token equal to the head passes. */
  predicate Passes<G, H(==)>(h: G -> H, s: State<G, H>, token: Option<Token<H>>) {
    token.None? || token.value == Head(h, s)
  }

  /** One step; a step whose turn it is not leaves the state alone. */
  function Do<G(==), H(==)>(h: G -> H, s: State<G, H>, step: Step<G, H>): State<G, H> {
    var c := step.c;
    var cl := Get(s, c);
    match step
    case ReadTokenBytes(_) =>
      if cl.pc != Start then s else
        Put(s, c, cl.(pc := HalfToken, tokenBytes := s.graph, rowsAtBytes := |s.rows|, pendingAtBytes := Pending(s)))
    case CountTokenRows(_) =>
      if cl.pc != HalfToken then s else
        Put(s, c, cl.(pc := Ready, token := Some(Token(|s.rows|, h(cl.tokenBytes))), tokenWasRead := true))
    case InventToken(_, token) =>
      if cl.pc != Start then s else Put(s, c, cl.(pc := Ready, token := token))
    case ReadPatchBase(_) =>
      if cl.pc != Ready then s else
        Put(s, c, cl.(pc := Based, patchBase := s.graph, pendingAtPatch := Pending(s)))
    case LockEarly(_) =>
      if cl.pc != Based || !s.lock.Free? then s else
        Put(s, c, cl.(pc := EarlyHeld)).(lock := Held(c))
    case CheckEarly(_) =>
      if cl.pc != EarlyHeld then s else
        Put(s, c, cl.(pc := if Passes(h, s, cl.token) then Admitted else Refused)).(lock := Free)
    case ReadOld(_) =>
      if cl.pc != Admitted then s else Put(s, c, cl.(pc := OldRead, oldGraph := s.graph))
    case ReadPreview(_) =>
      if cl.pc != OldRead then s else Put(s, c, cl.(pc := Previewed, previewBase := s.graph))
    case LockFinal(_) =>
      if cl.pc != Previewed || !s.lock.Free? then s else
        Put(s, c, cl.(pc := FinalHeld)).(lock := Held(c))
    case CheckFinal(_) =>
      if cl.pc != FinalHeld then s
      else if Passes(h, s, cl.token) then Put(s, c, cl.(pc := Cleared))
      else Put(s, c, cl.(pc := Refused)).(lock := Free)
    case AppendRow(_, next) =>
      if cl.pc != Cleared then s else
        Put(s, c, cl.(pc := Logged, written := next))
          .(rows := s.rows + [Row(c, s.graph, next)], lock := Writing(c, next))
    case ReplaceGraph(_) =>
      if cl.pc != Logged then s else
        Put(s, c, cl.(pc := Done, replaced := s.graph)).(graph := cl.written, lock := Free)
    case Crash(_) =>
      if cl.pc in {Done, Refused, Dead} then s else
        Put(s, c, cl.(pc := Dead)).(
          lock := if !s.lock.Free? && s.lock.holder == c then Free else s.lock,
          deadRows := if s.lock.Writing? && s.lock.holder == c then s.deadRows + {|s.rows| - 1} else s.deadRows,
          lost := s.lost + if s.lock.Writing? && s.lock.holder == c && s.lock.next != s.graph then 1 else 0)
  }

  function Run<G(==), H(==)>(h: G -> H, s: State<G, H>, steps: seq<Step<G, H>>): State<G, H>
    decreases |steps|
  {
    if steps == [] then s else Run(h, Do(h, s, steps[0]), steps[1..])
  }

  ghost predicate Injective<G(!new), H(!new)>(h: G -> H) {
    forall a, b :: h(a) == h(b) ==> a == b
  }

  // ---------------------------------------------------------------- invariants --

  /** Since a read of `seen` with `pending` in flight, at log length `count`, no row was added. */
  ghost predicate Undisturbed<G, H>(s: State<G, H>, seen: G, pending: Option<G>) {
    match pending
    case None => Pending(s).None? && s.graph == seen
    case Some(g) =>
      || (Pending(s) == Some(g) && s.graph == seen)
      || (Pending(s).None? && s.graph == if |s.rows| - 1 in s.deadRows then seen else g)
  }

  predicate Past(pc: Pc, bar: Pc) { Rank(pc) >= Rank(bar) }

  function Rank(pc: Pc): nat {
    match pc
    case Start => 0 case HalfToken => 1 case Ready => 2 case Based => 3 case EarlyHeld => 4
    case Admitted => 5 case OldRead => 6 case Previewed => 7 case FinalHeld => 8
    case Cleared => 9 case Logged => 10 case Done => 11 case Refused => 0 case Dead => 0
  }

  /** While no row is added since the token's graph bytes were read, what they say of the graph. */
  ghost predicate BytesOk<G, H>(s: State<G, H>, cl: Client<G, H>) {
    Past(cl.pc, HalfToken) && (cl.tokenWasRead || cl.pc == HalfToken) ==>
      && cl.rowsAtBytes <= |s.rows|
      && (|s.rows| == cl.rowsAtBytes ==> Undisturbed(s, cl.tokenBytes, cl.pendingAtBytes))
  }

  /** A token that was read counts no more rows than there are now. */
  ghost predicate TokenOk<G, H>(h: G -> H, s: State<G, H>, cl: Client<G, H>) {
    cl.tokenWasRead && cl.pc !in {Refused, Dead} ==>
      && Past(cl.pc, Ready)
      && cl.token.Some? && cl.token.value.sha == h(cl.tokenBytes)
      && cl.rowsAtBytes <= cl.token.value.count <= |s.rows|
  }

  ghost predicate PatchOk<G, H>(s: State<G, H>, cl: Client<G, H>) {
    cl.tokenWasRead && cl.token.Some? && Past(cl.pc, Based) ==>
      && (|s.rows| == cl.token.value.count ==> Undisturbed(s, cl.patchBase, cl.pendingAtPatch))
      && (|s.rows| == cl.token.value.count == cl.rowsAtBytes && cl.pendingAtPatch.Some? ==>
            cl.patchBase == cl.tokenBytes)
  }

  ghost predicate ReadsOk<G, H>(h: G -> H, s: State<G, H>, cl: Client<G, H>) {
    cl.token.Some? && Past(cl.pc, Admitted) ==>
      && cl.token.value.count <= |s.rows|
      && (|s.rows| == cl.token.value.count ==>
            && Pending(s).None? && h(s.graph) == cl.token.value.sha
            && (Past(cl.pc, OldRead) ==> cl.oldGraph == s.graph)
            && (Past(cl.pc, Previewed) ==> cl.previewBase == s.graph))
  }

  ghost predicate LockOk<G, H>(h: G -> H, s: State<G, H>, c: ClientId, cl: Client<G, H>) {
    && (cl.pc in {EarlyHeld, FinalHeld, Cleared} <==> s.lock == Held(c))
    && (cl.pc == Logged <==> s.lock.Writing? && s.lock.holder == c)
    && (cl.pc == Logged ==> s.lock.next == cl.written)
    && (cl.pc == Cleared && cl.token.Some? ==> cl.token.value == Head(h, s))
  }

  /** What the code promises of a finished amend that carried a token. */
  ghost predicate SawWhatItReplaced<G, H>(cl: Client<G, H>) {
    cl.oldGraph == cl.replaced && cl.previewBase == cl.replaced
  }

  ghost predicate WholeToken<G, H>(cl: Client<G, H>) {
    cl.tokenWasRead && cl.token.Some? && cl.token.value.count == cl.rowsAtBytes
  }

  /** Facts of an amend from its append on: nothing that happens later can change them. */
  ghost predicate SpentOk<G, H>(s: State<G, H>, c: ClientId, cl: Client<G, H>) {
    var base := if cl.pc == Done then cl.replaced else s.graph;
    cl.token.Some? && cl.pc in {Logged, Done} ==>
      && cl.token.value.count < |s.rows|
      && s.rows[cl.token.value.count] == Row(c, base, cl.written)
      && cl.oldGraph == base && cl.previewBase == base
      && (cl.tokenWasRead ==>
            && (cl.pendingAtPatch.None? ==> cl.patchBase == base)
            && (cl.pendingAtPatch.Some? ==>
                  base == if cl.token.value.count - 1 in s.deadRows then cl.patchBase else cl.pendingAtPatch.value)
            && (WholeToken(cl) ==> cl.patchBase == base))
  }

  ghost predicate ClientOk<G, H>(h: G -> H, s: State<G, H>, c: ClientId, cl: Client<G, H>) {
    && LockOk(h, s, c, cl)
    && SpentOk(s, c, cl)
    && (cl.pc !in {Logged, Done} ==> BytesOk(s, cl) && TokenOk(h, s, cl) && PatchOk(s, cl) && ReadsOk(h, s, cl))
  }

  /** Dead rows are rows of the log, and the writer of the last one is no dead one while it writes. */
  predicate DeadOk<G, H>(s: State<G, H>) {
    && (forall i :: i in s.deadRows ==> 0 <= i < |s.rows|)
    && (s.lock.Writing? ==> s.rows != [] && |s.rows| - 1 !in s.deadRows)
  }

  ghost predicate Inv<G, H>(h: G -> H, s: State<G, H>) {
    && DeadOk(s)
    && (!s.lock.Free? ==> s.lock.holder in s.clients)
    && forall c :: c in s.clients ==> ClientOk(h, s, c, s.clients[c])
  }

  lemma OthersKeepLock<G(!new), H(!new)>(h: G -> H, s: State<G, H>, step: Step<G, H>, c: ClientId)
    requires ActorOk(h, s, step) && c in s.clients && c != step.c && LockOk(h, s, c, s.clients[c])
    ensures LockOk(h, Do(h, s, step), c, s.clients[c])
  {
  }

  lemma OthersKeepSpent<G(!new), H(!new)>(h: G -> H, s: State<G, H>, step: Step<G, H>, c: ClientId)
    requires DeadOk(s) && ActorOk(h, s, step) && c in s.clients && c != step.c
    requires LockOk(h, s, c, s.clients[c]) && SpentOk(s, c, s.clients[c])
    ensures SpentOk(Do(h, s, step), c, s.clients[c])
  {
  }

  /** What a client before its append has read stays in line with the log. */
  lemma OthersKeepToken<G(!new), H(!new)>(h: G -> H, s: State<G, H>, step: Step<G, H>, cl: Client<G, H>)
    requires DeadOk(s) && ActorOk(h, s, step) && BytesOk(s, cl) && TokenOk(h, s, cl)
    ensures BytesOk(Do(h, s, step), cl) && TokenOk(h, Do(h, s, step), cl)
  {
  }

  lemma OthersKeepReads<G(!new), H(!new)>(h: G -> H, s: State<G, H>, step: Step<G, H>, cl: Client<G, H>)
    requires DeadOk(s) && ActorOk(h, s, step) && TokenOk(h, s, cl) && PatchOk(s, cl) && ReadsOk(h, s, cl)
    ensures cl.pc !in {Logged, Done} ==> PatchOk(Do(h, s, step), cl) && ReadsOk(h, Do(h, s, step), cl)
  {
  }

  lemma StepKeepsOthers<G(!new), H(!new)>(h: G -> H, s: State<G, H>, step: Step<G, H>, c: ClientId)
    requires DeadOk(s) && ActorOk(h, s, step) && c in s.clients && c != step.c && ClientOk(h, s, c, s.clients[c])
    ensures ClientOk(h, Do(h, s, step), c, s.clients[c])
  {
    OthersKeepLock(h, s, step, c);
    OthersKeepSpent(h, s, step, c);
    if s.clients[c].pc !in {Logged, Done} {
      OthersKeepToken(h, s, step, s.clients[c]);
      OthersKeepReads(h, s, step, s.clients[c]);
    }
  }

  /** Steps up to the first check, and all later ones and crashes. */
  predicate BeforeOldRead<G, H>(step: Step<G, H>) {
    || step.ReadTokenBytes? || step.CountTokenRows? || step.InventToken? || step.ReadPatchBase?
    || step.LockEarly? || step.CheckEarly?
  }

  ghost predicate ActorOk<G(!new), H(!new)>(h: G -> H, s: State<G, H>, step: Step<G, H>) {
    step.c in s.clients ==> ClientOk(h, s, step.c, s.clients[step.c])
  }

  lemma EarlyKeepsLock<G(!new), H(!new)>(h: G -> H, s: State<G, H>, step: Step<G, H>)
    requires Injective(h) && DeadOk(s) && ActorOk(h, s, step) && BeforeOldRead(step)
             && (!s.lock.Free? ==> s.lock.holder in s.clients)
    ensures var s' := Do(h, s, step); step.c in s'.clients ==> LockOk(h, s', step.c, Get(s', step.c))
  {
  }

  lemma LateKeepsLock<G(!new), H(!new)>(h: G -> H, s: State<G, H>, step: Step<G, H>)
    requires Injective(h) && DeadOk(s) && ActorOk(h, s, step) && !BeforeOldRead(step)
             && (!s.lock.Free? ==> s.lock.holder in s.clients)
    ensures var s' := Do(h, s, step); step.c in s'.clients ==> LockOk(h, s', step.c, Get(s', step.c))
  {
  }

  lemma ActorKeepsLock<G(!new), H(!new)>(h: G -> H, s: State<G, H>, step: Step<G, H>)
    requires Injective(h) && DeadOk(s) && ActorOk(h, s, step) && (!s.lock.Free? ==> s.lock.holder in s.clients)
    ensures var s' := Do(h, s, step); step.c in s'.clients ==> LockOk(h, s', step.c, Get(s', step.c))
  {
    if BeforeOldRead(step) { EarlyKeepsLock(h, s, step); } else { LateKeepsLock(h, s, step); }
  }

  lemma EarlyKeepsSpent<G(!new), H(!new)>(h: G -> H, s: State<G, H>, step: Step<G, H>)
    requires Injective(h) && DeadOk(s) && ActorOk(h, s, step) && BeforeOldRead(step)
    ensures var s' := Do(h, s, step); step.c in s'.clients ==> SpentOk(s', step.c, Get(s', step.c))
  {
  }

  lemma AppendKeepsSpent<G(!new), H(!new)>(h: G -> H, s: State<G, H>, step: Step<G, H>)
    requires Injective(h) && DeadOk(s) && ActorOk(h, s, step) && step.AppendRow?
    ensures var s' := Do(h, s, step); step.c in s'.clients ==> SpentOk(s', step.c, Get(s', step.c))
  {
  }

  lemma LateKeepsSpent<G(!new), H(!new)>(h: G -> H, s: State<G, H>, step: Step<G, H>)
    requires DeadOk(s) && ActorOk(h, s, step) && !BeforeOldRead(step) && !step.AppendRow?
    ensures var s' := Do(h, s, step); step.c in s'.clients ==> SpentOk(s', step.c, Get(s', step.c))
  {
  }

  lemma ActorKeepsSpent<G(!new), H(!new)>(h: G -> H, s: State<G, H>, step: Step<G, H>)
    requires Injective(h) && DeadOk(s) && ActorOk(h, s, step)
    ensures var s' := Do(h, s, step); step.c in s'.clients ==> SpentOk(s', step.c, Get(s', step.c))
  {
    if BeforeOldRead(step) {
      EarlyKeepsSpent(h, s, step);
    } else if step.AppendRow? {
      AppendKeepsSpent(h, s, step);
    } else {
      LateKeepsSpent(h, s, step);
    }
  }

  lemma EarlyKeepsBytes<G(!new), H(!new)>(h: G -> H, s: State<G, H>, step: Step<G, H>)
    requires Injective(h) && DeadOk(s) && ActorOk(h, s, step) && BeforeOldRead(step)
    ensures var s' := Do(h, s, step);
            step.c in s'.clients && s'.clients[step.c].pc !in {Logged, Done} ==> BytesOk(s', Get(s', step.c))
  {
  }

  lemma LateKeepsBytes<G(!new), H(!new)>(h: G -> H, s: State<G, H>, step: Step<G, H>)
    requires DeadOk(s) && !BeforeOldRead(step) && (step.c in s.clients ==> BytesOk(s, s.clients[step.c]))
    requires step.c in s.clients ==> LockOk(h, s, step.c, s.clients[step.c])
    ensures var s' := Do(h, s, step);
            step.c in s'.clients && s'.clients[step.c].pc !in {Logged, Done} ==> BytesOk(s', Get(s', step.c))
  {
  }

  lemma ActorKeepsBytes<G(!new), H(!new)>(h: G -> H, s: State<G, H>, step: Step<G, H>)
    requires Injective(h) && DeadOk(s) && ActorOk(h, s, step)
    ensures var s' := Do(h, s, step);
            step.c in s'.clients && s'.clients[step.c].pc !in {Logged, Done} ==> BytesOk(s', Get(s', step.c))
  {
    if BeforeOldRead(step) {
      EarlyKeepsBytes(h, s, step);
    } else if step.c !in s.clients || s.clients[step.c].pc !in {Logged, Done} {
      LateKeepsBytes(h, s, step);
    }
  }

  lemma EarlyKeepsToken<G(!new), H(!new)>(h: G -> H, s: State<G, H>, step: Step<G, H>)
    requires Injective(h) && DeadOk(s) && ActorOk(h, s, step) && BeforeOldRead(step)
    ensures var s' := Do(h, s, step);
            step.c in s'.clients && s'.clients[step.c].pc !in {Logged, Done} ==> TokenOk(h, s', Get(s', step.c))
  {
  }

  lemma LateKeepsToken<G(!new), H(!new)>(h: G -> H, s: State<G, H>, step: Step<G, H>)
    requires Injective(h) && DeadOk(s) && ActorOk(h, s, step) && !BeforeOldRead(step)
    ensures var s' := Do(h, s, step);
            step.c in s'.clients && s'.clients[step.c].pc !in {Logged, Done} ==> TokenOk(h, s', Get(s', step.c))
  {
  }

  lemma ActorKeepsToken<G(!new), H(!new)>(h: G -> H, s: State<G, H>, step: Step<G, H>)
    requires Injective(h) && DeadOk(s) && ActorOk(h, s, step)
    ensures var s' := Do(h, s, step);
            step.c in s'.clients && s'.clients[step.c].pc !in {Logged, Done} ==> TokenOk(h, s', Get(s', step.c))
  {
    if BeforeOldRead(step) { EarlyKeepsToken(h, s, step); } else { LateKeepsToken(h, s, step); }
  }

  lemma EarlyKeepsPatch<G(!new), H(!new)>(h: G -> H, s: State<G, H>, step: Step<G, H>)
    requires Injective(h) && DeadOk(s) && ActorOk(h, s, step) && BeforeOldRead(step)
    ensures var s' := Do(h, s, step);
            step.c in s'.clients && s'.clients[step.c].pc !in {Logged, Done} ==> PatchOk(s', Get(s', step.c))
  {
  }

  lemma LateKeepsPatch<G(!new), H(!new)>(h: G -> H, s: State<G, H>, step: Step<G, H>)
    requires DeadOk(s) && !BeforeOldRead(step) && (step.c in s.clients ==> PatchOk(s, s.clients[step.c]))
    requires step.c in s.clients ==> LockOk(h, s, step.c, s.clients[step.c])
    ensures var s' := Do(h, s, step);
            step.c in s'.clients && s'.clients[step.c].pc !in {Logged, Done} ==> PatchOk(s', Get(s', step.c))
  {
  }

  lemma ActorKeepsPatch<G(!new), H(!new)>(h: G -> H, s: State<G, H>, step: Step<G, H>)
    requires Injective(h) && DeadOk(s) && ActorOk(h, s, step)
    ensures var s' := Do(h, s, step);
            step.c in s'.clients && s'.clients[step.c].pc !in {Logged, Done} ==> PatchOk(s', Get(s', step.c))
  {
    if BeforeOldRead(step) {
      EarlyKeepsPatch(h, s, step);
    } else if step.c !in s.clients || s.clients[step.c].pc !in {Logged, Done} {
      LateKeepsPatch(h, s, step);
    }
  }

  lemma EarlyKeepsReads<G(!new), H(!new)>(h: G -> H, s: State<G, H>, step: Step<G, H>)
    requires Injective(h) && DeadOk(s) && ActorOk(h, s, step) && BeforeOldRead(step)
    ensures var s' := Do(h, s, step);
            step.c in s'.clients && s'.clients[step.c].pc !in {Logged, Done} ==> ReadsOk(h, s', Get(s', step.c))
  {
  }

  lemma LateKeepsReads<G(!new), H(!new)>(h: G -> H, s: State<G, H>, step: Step<G, H>)
    requires Injective(h) && DeadOk(s) && ActorOk(h, s, step) && !BeforeOldRead(step)
    ensures var s' := Do(h, s, step);
            step.c in s'.clients && s'.clients[step.c].pc !in {Logged, Done} ==> ReadsOk(h, s', Get(s', step.c))
  {
  }

  lemma ActorKeepsReads<G(!new), H(!new)>(h: G -> H, s: State<G, H>, step: Step<G, H>)
    requires Injective(h) && DeadOk(s) && ActorOk(h, s, step)
    ensures var s' := Do(h, s, step);
            step.c in s'.clients && s'.clients[step.c].pc !in {Logged, Done} ==> ReadsOk(h, s', Get(s', step.c))
  {
    if BeforeOldRead(step) { EarlyKeepsReads(h, s, step); } else { LateKeepsReads(h, s, step); }
  }

  lemma ActorKeepsClient<G(!new), H(!new)>(h: G -> H, s: State<G, H>, step: Step<G, H>)
    requires Injective(h) && DeadOk(s) && ActorOk(h, s, step) && (!s.lock.Free? ==> s.lock.holder in s.clients)
    ensures var s' := Do(h, s, step); step.c in s'.clients ==> ClientOk(h, s', step.c, Get(s', step.c))
  {
    ActorKeepsLock(h, s, step);
    ActorKeepsSpent(h, s, step);
    ActorKeepsBytes(h, s, step);
    ActorKeepsToken(h, s, step);
    ActorKeepsPatch(h, s, step);
    ActorKeepsReads(h, s, step);
  }

  lemma ClientsAfter<G(!new), H(!new)>(h: G -> H, s: State<G, H>, step: Step<G, H>, c: ClientId)
    requires c in Do(h, s, step).clients && c != step.c
    ensures c in s.clients && Do(h, s, step).clients[c] == s.clients[c]
  {
  }

  lemma HolderAfter<G(!new), H(!new)>(h: G -> H, s: State<G, H>, step: Step<G, H>)
    requires DeadOk(s) && (!s.lock.Free? ==> s.lock.holder in s.clients)
    requires ActorOk(h, s, step)
    ensures var s' := Do(h, s, step); DeadOk(s') && (!s'.lock.Free? ==> s'.lock.holder in s'.clients)
  {
  }

  lemma StepKeepsInv<G(!new), H(!new)>(h: G -> H, s: State<G, H>, step: Step<G, H>)
    requires Injective(h) && Inv(h, s)
    ensures Inv(h, Do(h, s, step))
  {
    var s' := Do(h, s, step);
    assert ActorOk(h, s, step);
    HolderAfter(h, s, step);
    ActorKeepsClient(h, s, step);
    forall c | c in s'.clients ensures ClientOk(h, s', c, s'.clients[c]) {
      if c != step.c {
        ClientsAfter(h, s, step, c);
        assert ClientOk(h, s, c, s.clients[c]);
        StepKeepsOthers(h, s, step, c);
      }
    }
  }

  lemma {:induction false} RunKeepsInv<G(!new), H(!new)>(h: G -> H, s: State<G, H>, steps: seq<Step<G, H>>)
    requires Injective(h) && Inv(h, s)
    ensures Inv(h, Run(h, s, steps))
    decreases |steps|
  {
    if steps != [] {
      StepKeepsInv(h, s, steps[0]);
      RunKeepsInv(h, Do(h, s, steps[0]), steps[1..]);
    }
  }

  // ---------------------------------------------------------------- main results --

  lemma SpentInRun<G(!new), H(!new)>(h: G -> H, g: G, steps: seq<Step<G, H>>, c: ClientId)
    requires Injective(h)
    ensures var s := Run(h, Initial(g), steps); c in s.clients ==> SpentOk(s, c, s.clients[c])
  {
    RunKeepsInv(h, Initial(g), steps);
    var s := Run(h, Initial(g), steps);
    if c in s.clients { assert ClientOk(h, s, c, s.clients[c]); }
  }

  /** A finished amend with a token (read, torn or invented) froze and diffed against exactly
      the graph it replaced, and its row stands at the position its token counted. */
  lemma TokenedAmendReplacedWhatItRead<G(!new), H(!new)>(h: G -> H, g: G, steps: seq<Step<G, H>>, c: ClientId)
    requires Injective(h)
    ensures var s := Run(h, Initial(g), steps);
            c in s.clients && s.clients[c].pc == Done && s.clients[c].token.Some? ==>
              var cl := s.clients[c];
              && SawWhatItReplaced(cl)
              && cl.token.value.count < |s.rows|
              && s.rows[cl.token.value.count] == Row(c, cl.replaced, cl.written)
  {
    SpentInRun(h, g, steps, c);
  }

  /** Two amends never both commit on one token. */
  lemma TokenIsSpentOnce<G(!new), H(!new)>(h: G -> H, g: G, steps: seq<Step<G, H>>, c: ClientId, d: ClientId)
    requires Injective(h)
    ensures var s := Run(h, Initial(g), steps);
            (&& c in s.clients && d in s.clients
             && s.clients[c].pc == Done && s.clients[d].pc == Done
             && s.clients[c].token.Some? && s.clients[c].token == s.clients[d].token) ==> c == d
  {
    TokenedAmendReplacedWhatItRead(h, g, steps, c);
    TokenedAmendReplacedWhatItRead(h, g, steps, d);
  }

  /** What a finished amend with a read token knows of its patch base. */
  lemma PatchBaseOfSpent<G(!new), H(!new)>(s: State<G, H>, c: ClientId, cl: Client<G, H>)
    requires SpentOk(s, c, cl) && cl.pc == Done && cl.tokenWasRead && cl.token.Some?
    ensures WholeToken(cl) ==> cl.patchBase == cl.replaced
    ensures cl.patchBase == cl.replaced <==>
              || cl.pendingAtPatch.None? || cl.pendingAtPatch.value == cl.patchBase
              || cl.token.value.count - 1 in s.deadRows
  {
  }

  /** The patch read precedes the first check.  It saw the replaced graph whenever the token
      was read whole.  In every run it saw the replaced graph if and only if no writer stood
      between append and replace at the patch read, or that writer was putting back the graph
      the patch read, or it died: its row is the last one the token counts. */
  lemma PatchBaseOfReadToken<G(!new), H(!new)>(h: G -> H, g: G, steps: seq<Step<G, H>>, c: ClientId)
    requires Injective(h)
    ensures var s := Run(h, Initial(g), steps);
            c in s.clients && s.clients[c].pc == Done && s.clients[c].tokenWasRead && s.clients[c].token.Some? ==>
              var cl := s.clients[c];
              && (WholeToken(cl) ==> cl.patchBase == cl.replaced)
              && (cl.patchBase == cl.replaced <==>
                    || cl.pendingAtPatch.None? || cl.pendingAtPatch.value == cl.patchBase
                    || cl.token.value.count - 1 in s.deadRows)
  {
    var s := Run(h, Initial(g), steps);
    SpentInRun(h, g, steps, c);
    if c in s.clients && s.clients[c].pc == Done && s.clients[c].tokenWasRead && s.clients[c].token.Some? {
      PatchBaseOfSpent(s, c, s.clients[c]);
    }
  }

  // ---------------------------------------------------------------- who is let through --

  /** A client at one of its two checks, and what letting it through or refusing it leaves. */
  predicate AtCheck(pc: Pc) { pc == EarlyHeld || pc == FinalHeld }

  function Check<G, H>(c: ClientId, pc: Pc): Step<G, H> { if pc == EarlyHeld then CheckEarly(c) else CheckFinal(c) }

  /** Past the first check the client has given the lock back, past the second it keeps it. */
  ghost predicate LetThrough<G, H>(s: State<G, H>, s': State<G, H>, c: ClientId)
    requires c in s.clients
  {
    && s'.clients == s.clients[c := s.clients[c].(pc := if s.clients[c].pc == EarlyHeld then Admitted else Cleared)]
    && s'.lock == (if s.clients[c].pc == EarlyHeld then Free else s.lock)
    && s'.rows == s.rows && s'.graph == s.graph
  }

  ghost predicate TurnedAway<G, H>(s: State<G, H>, s': State<G, H>, c: ClientId)
    requires c in s.clients
  {
    && s'.clients == s.clients[c := s.clients[c].(pc := Refused)] && s'.lock == Free
    && s'.rows == s.rows && s'.graph == s.graph
  }

  lemma CheckDecides<G(!new), H(!new)>(h: G -> H, s: State<G, H>, c: ClientId)
    requires c in s.clients && AtCheck(s.clients[c].pc)
    ensures var cl := s.clients[c]; var s' := Do(h, s, Check(c, cl.pc));
            if cl.token.None? || (cl.token.value.count == |s.rows| && cl.token.value.sha == h(s.graph))
            then LetThrough(s, s', c) else TurnedAway(s, s', c)
  {
  }

  /**
   Over every run, at either check: a client without a token is let through.  One with a token that
   was read is let through if and only if the log has as many rows as the token counts and
   graph.json holds the bytes it was taken of.  When it was read whole and with no writer in
   flight, that is if and only if no row was added since, the empty log included.  A refused
   client has written nothing and holds no lock.
  */
  lemma GoodTokensAreAdmitted<G(!new), H(!new)>(h: G -> H, g: G, steps: seq<Step<G, H>>, c: ClientId)
    requires Injective(h)
    ensures var s := Run(h, Initial(g), steps);
            c in s.clients && AtCheck(s.clients[c].pc) ==>
              var cl := s.clients[c]; var s' := Do(h, s, Check(c, cl.pc));
              && (cl.token.None? ==> LetThrough(s, s', c))
              && (cl.tokenWasRead ==>
                    && cl.token.Some?
                    && (if |s.rows| == cl.token.value.count && s.graph == cl.tokenBytes
                        then LetThrough(s, s', c) else TurnedAway(s, s', c))
                    && (WholeToken(cl) && cl.pendingAtBytes.None? ==>
                          if |s.rows| == cl.rowsAtBytes then LetThrough(s, s', c) else TurnedAway(s, s', c)))
  {
    RunKeepsInv(h, Initial(g), steps);
    var s := Run(h, Initial(g), steps);
    if c in s.clients && AtCheck(s.clients[c].pc) {
      assert ClientOk(h, s, c, s.clients[c]);
      CheckDecides(h, s, c);
      ReadTokenSays(h, s, s.clients[c]);
    }
  }

  /** What a token that was read says of the files now. */
  lemma ReadTokenSays<G(!new), H(!new)>(h: G -> H, s: State<G, H>, cl: Client<G, H>)
    requires Injective(h) && BytesOk(s, cl) && TokenOk(h, s, cl) && AtCheck(cl.pc)
    ensures cl.tokenWasRead ==> cl.token.Some? && (cl.token.value.sha == h(s.graph) <==> cl.tokenBytes == s.graph)
    ensures WholeToken(cl) && cl.pendingAtBytes.None? && |s.rows| == cl.rowsAtBytes ==> cl.tokenBytes == s.graph
  {
  }

  /** A client that reads its token and then runs alone: up to the first check and what it reads
      after it, and from there to its replace. */
  function SoloFirst<G, H>(c: ClientId): seq<Step<G, H>> {
    [ReadTokenBytes(c), CountTokenRows(c), ReadPatchBase(c)] + [LockEarly(c), CheckEarly(c), ReadOld(c)]
  }

  function SoloSecond<G, H>(c: ClientId, next: G): seq<Step<G, H>> {
    [ReadPreview(c), LockFinal(c), CheckFinal(c)] + [AppendRow(c, next), ReplaceGraph(c)]
  }

  lemma {:induction false} RunConcat<G(!new), H(!new)>(
    h: G -> H, s: State<G, H>, xs: seq<Step<G, H>>, ys: seq<Step<G, H>>)
    ensures Run(h, s, xs + ys) == Run(h, Run(h, s, xs), ys)
    decreases |xs|
  {
    if xs == [] {
      assert xs + ys == ys;
    } else {
      TailOfConcat(xs, ys);
      RunConcat(h, Do(h, s, xs[0]), xs[1..], ys);
    }
  }

  lemma {:induction false} RunTwo<G(!new), H(!new)>(h: G -> H, s: State<G, H>, x: Step<G, H>, y: Step<G, H>)
    ensures Run(h, s, [x, y]) == Do(h, Do(h, s, x), y)
  {
    assert [x, y][1..] == [y] && [y][1..] == [];
    assert Run(h, Do(h, s, x), [y]) == Run(h, Do(h, Do(h, s, x), y), []);
  }

  lemma {:induction false} RunThree<G(!new), H(!new)>(
    h: G -> H, s: State<G, H>, x: Step<G, H>, y: Step<G, H>, z: Step<G, H>)
    ensures Run(h, s, [x, y, z]) == Do(h, Do(h, Do(h, s, x), y), z)
  {
    assert [x, y, z][1..] == [y, z];
    RunTwo(h, Do(h, s, x), y, z);
  }

  lemma SoloReads<G(!new), H(!new)>(h: G -> H, s: State<G, H>, c: ClientId)
    requires c !in s.clients && s.lock.Free?
    ensures var s' := Run(h, s, [ReadTokenBytes(c), CountTokenRows(c), ReadPatchBase(c)]);
            && c in s'.clients && s' == s.(clients := s.clients[c := s'.clients[c]])
            && s'.clients[c].pc == Based && s'.clients[c].token == Some(Head(h, s))
  {
    RunThree(h, s, ReadTokenBytes(c), CountTokenRows(c), ReadPatchBase(c));
    var s' := Run(h, s, [ReadTokenBytes(c), CountTokenRows(c), ReadPatchBase(c)]);
    assert s'.clients == s.clients[c := s'.clients[c]];
  }

  lemma SoloFirstCheck<G(!new), H(!new)>(h: G -> H, s: State<G, H>, c: ClientId)
    requires c in s.clients && s.lock.Free? && s.clients[c].pc == Based && s.clients[c].token == Some(Head(h, s))
    ensures var s' := Run(h, s, [LockEarly(c), CheckEarly(c), ReadOld(c)]);
            && c in s'.clients && s' == s.(clients := s.clients[c := s'.clients[c]])
            && s'.clients[c].pc == OldRead && s'.clients[c].token == s.clients[c].token
  {
    RunThree(h, s, LockEarly(c), CheckEarly(c), ReadOld(c));
    var s' := Run(h, s, [LockEarly(c), CheckEarly(c), ReadOld(c)]);
    assert s'.clients == s.clients[c := s'.clients[c]];
  }

  lemma SoloSecondCheck<G(!new), H(!new)>(h: G -> H, s: State<G, H>, c: ClientId)
    requires c in s.clients && s.lock.Free? && s.clients[c].pc == OldRead && s.clients[c].token == Some(Head(h, s))
    ensures var s' := Run(h, s, [ReadPreview(c), LockFinal(c), CheckFinal(c)]);
            && c in s'.clients && s' == s.(clients := s.clients[c := s'.clients[c]], lock := Held(c))
            && s'.clients[c].pc == Cleared
  {
    RunThree(h, s, ReadPreview(c), LockFinal(c), CheckFinal(c));
    var s' := Run(h, s, [ReadPreview(c), LockFinal(c), CheckFinal(c)]);
    assert s'.clients == s.clients[c := s'.clients[c]];
  }

  lemma SoloWrites<G(!new), H(!new)>(h: G -> H, s: State<G, H>, c: ClientId, next: G)
    requires c in s.clients && s.lock == Held(c) && s.clients[c].pc == Cleared
    ensures var s' := Run(h, s, [AppendRow(c, next), ReplaceGraph(c)]);
            && c in s'.clients && s'.clients[c].pc == Done
            && s' == s.(clients := s.clients[c := s'.clients[c]], lock := Free, graph := next,
                        rows := s.rows + [Row(c, s.graph, next)])
  {
    RunTwo(h, s, AppendRow(c, next), ReplaceGraph(c));
    var s' := Do(h, Do(h, s, AppendRow(c, next)), ReplaceGraph(c));
    assert s'.clients == s.clients[c := s'.clients[c]];
  }

  lemma SoloFirstHalf<G(!new), H(!new)>(h: G -> H, s: State<G, H>, c: ClientId)
    requires c !in s.clients && s.lock.Free?
    ensures var s' := Run(h, s, SoloFirst(c));
            && c in s'.clients && s' == s.(clients := s.clients[c := s'.clients[c]])
            && s'.clients[c].pc == OldRead && s'.clients[c].token == Some(Head(h, s))
  {
    var s1 := Run(h, s, [ReadTokenBytes(c), CountTokenRows(c), ReadPatchBase(c)]);
    RunConcat(h, s, [ReadTokenBytes(c), CountTokenRows(c), ReadPatchBase(c)],
              [LockEarly(c), CheckEarly(c), ReadOld(c)]);
    SoloReads(h, s, c);
    SoloFirstCheck(h, s1, c);
    var s' := Run(h, s1, [LockEarly(c), CheckEarly(c), ReadOld(c)]);
    PutAgain(s.clients, c, s1.clients[c], s'.clients[c]);
  }

  lemma SoloSecondHalf<G(!new), H(!new)>(h: G -> H, s: State<G, H>, c: ClientId, next: G)
    requires c in s.clients && s.lock.Free? && s.clients[c].pc == OldRead && s.clients[c].token == Some(Head(h, s))
    ensures var s' := Run(h, s, SoloSecond(c, next));
            && c in s'.clients && s'.clients[c].pc == Done
            && s' == s.(clients := s.clients[c := s'.clients[c]], graph := next,
                        rows := s.rows + [Row(c, s.graph, next)])
  {
    var s1 := Run(h, s, [ReadPreview(c), LockFinal(c), CheckFinal(c)]);
    RunConcat(h, s, [ReadPreview(c), LockFinal(c), CheckFinal(c)], [AppendRow(c, next), ReplaceGraph(c)]);
    SoloSecondCheck(h, s, c);
    SoloWrites(h, s1, c, next);
    var s' := Run(h, s1, [AppendRow(c, next), ReplaceGraph(c)]);
    PutAgain(s.clients, c, s1.clients[c], s'.clients[c]);
  }

  /** From any state with the lock free, such a client commits: graph.json is its graph, the log has
      its row at the end, the lock is free, and no other client is touched. */
  lemma {:induction false} SoloAmendCommits<G(!new), H(!new)>(h: G -> H, s: State<G, H>, c: ClientId, next: G)
    requires c !in s.clients && s.lock.Free?
    ensures var s' := Run(h, s, SoloFirst(c) + SoloSecond(c, next));
            && c in s'.clients && s'.clients[c].pc == Done
            && s' == s.(clients := s.clients[c := s'.clients[c]], graph := next,
                        rows := s.rows + [Row(c, s.graph, next)])
  {
    var s1 := Run(h, s, SoloFirst(c));
    RunConcat(h, s, SoloFirst(c), SoloSecond(c, next));
    SoloFirstHalf(h, s, c);
    SoloSecondHalf(h, s1, c, next);
    var s' := Run(h, s1, SoloSecond(c, next));
    PutAgain(s.clients, c, s1.clients[c], s'.clients[c]);
  }

  /** A client that submits any token it likes and runs alone up to its first check. */
  function Submits<G, H>(c: ClientId, token: Option<Token<H>>): seq<Step<G, H>> {
    [InventToken(c, token), ReadPatchBase(c)] + [LockEarly(c), CheckEarly(c)]
  }

  lemma SoloBase<G(!new), H(!new)>(h: G -> H, s: State<G, H>, c: ClientId, token: Option<Token<H>>)
    requires c !in s.clients
    ensures var s' := Run(h, s, [InventToken(c, token), ReadPatchBase(c)]);
            && c in s'.clients && s' == s.(clients := s.clients[c := s'.clients[c]])
            && s'.clients[c].pc == Based && s'.clients[c].token == token && s'.clients[c].patchBase == s.graph
  {
    RunTwo(h, s, InventToken(c, token), ReadPatchBase(c));
    var s' := Run(h, s, [InventToken(c, token), ReadPatchBase(c)]);
    assert s'.clients == s.clients[c := s'.clients[c]];
  }

  /** From any state with the lock free it gets past the check if and only if it submitted none or
      the pair of the log's row count and the hash of graph.json; nothing but the client changes. */
  lemma AnySubmissionIsChecked<G(!new), H(!new)>(
    h: G -> H, s: State<G, H>, c: ClientId, token: Option<Token<H>>)
    requires c !in s.clients && s.lock.Free?
    ensures var s' := Run(h, s, Submits(c, token));
            && c in s'.clients && s' == s.(clients := s.clients[c := s'.clients[c]])
            && s'.clients[c].pc ==
                 (if token.None? || token == Some(Token(|s.rows|, h(s.graph))) then Admitted else Refused)
            && s'.clients[c].patchBase == s.graph
  {
    RunConcat(h, s, [InventToken(c, token), ReadPatchBase(c)], [LockEarly(c), CheckEarly(c)]);
    SoloBase(h, s, c, token);
    var s1 := Run(h, s, [InventToken(c, token), ReadPatchBase(c)]);
    RunTwo(h, s1, LockEarly(c), CheckEarly(c));
    var s' := Run(h, s1, [LockEarly(c), CheckEarly(c)]);
    assert s'.clients == s1.clients[c := s'.clients[c]];
    PutAgain(s.clients, c, s1.clients[c], s'.clients[c]);
  }

  /** A client that has finished, was refused or died takes no further step. */
  lemma {:induction false} FinishedStays<G(!new), H(!new)>(
    h: G -> H, s: State<G, H>, steps: seq<Step<G, H>>, c: ClientId)
    requires c in s.clients && s.clients[c].pc in {Done, Refused, Dead}
    ensures var s' := Run(h, s, steps); c in s'.clients && s'.clients[c] == s.clients[c]
    decreases |steps|
  {
    if steps != [] {
      StepKeepsFinished(h, s, steps[0], c);
      FinishedStays(h, Do(h, s, steps[0]), steps[1..], c);
    }
  }

  lemma StepKeepsFinished<G(!new), H(!new)>(h: G -> H, s: State<G, H>, step: Step<G, H>, c: ClientId)
    requires c in s.clients && s.clients[c].pc in {Done, Refused, Dead}
    ensures var s' := Do(h, s, step); c in s'.clients && s'.clients[c] == s.clients[c]
  {
  }

  // ---------------------------------------------------------------- the log as a chain --

  ghost predicate Chained<G>(g: G, rows: seq<Row<G>>) {
    && (rows != [] ==> rows[0].before == g)
    && forall i :: 0 < i < |rows| ==> rows[i].before == rows[i - 1].after
  }

  function LastWritten<G>(g: G, rows: seq<Row<G>>): G {
    if rows == [] then g else rows[|rows| - 1].after
  }

  /** The log starts at the first graph, every row takes up the previous one, and the last
      row names graph.json (or the graph about to replace it). */
  ghost predicate ChainOk<G, H>(g: G, s: State<G, H>) {
    && Chained(g, s.rows)
    && (s.lock.Writing? ==>
          s.rows != [] && s.rows[|s.rows| - 1].after == s.lock.next && s.rows[|s.rows| - 1].before == s.graph)
    && (!s.lock.Writing? ==> LastWritten(g, s.rows) == s.graph)
  }

  /** The row of a writer between append and replace takes up graph.json. */
  ghost predicate TipOk<G, H>(s: State<G, H>) {
    s.lock.Writing? ==>
      s.rows != [] && s.rows[|s.rows| - 1].after == s.lock.next && s.rows[|s.rows| - 1].before == s.graph
  }

  lemma StepKeepsTip<G(!new), H(!new)>(h: G -> H, s: State<G, H>, step: Step<G, H>)
    requires Inv(h, s) && TipOk(s)
    ensures TipOk(Do(h, s, step))
  {
    if step.c in s.clients { assert ClientOk(h, s, step.c, s.clients[step.c]); }
  }

  lemma ChainedSnoc<G>(g: G, rows: seq<Row<G>>, row: Row<G>)
    ensures Chained(g, rows + [row]) <==> Chained(g, rows) && row.before == LastWritten(g, rows)
  {
    var more := rows + [row];
    if Chained(g, more) {
      forall i | 0 < i < |rows| ensures rows[i].before == rows[i - 1].after {
        assert more[i] == rows[i] && more[i - 1] == rows[i - 1];
      }
      assert rows != [] ==> more[0] == rows[0] && more[|rows|].before == more[|rows| - 1].after;
    }
  }

  lemma AppendChains<G(!new), H(!new)>(h: G -> H, g: G, s: State<G, H>, step: Step<G, H>)
    requires LockedRight(h, s, step) && TipOk(s) && step.AppendRow?
    ensures var s' := Do(h, s, step); ChainOk(g, s') <==> ChainOk(g, s) && s'.lost == s.lost
  {
    var s' := Do(h, s, step);
    if s'.rows != s.rows { ChainedSnoc(g, s.rows, s'.rows[|s.rows|]); }
  }

  lemma OthersChain<G(!new), H(!new)>(h: G -> H, g: G, s: State<G, H>, step: Step<G, H>)
    requires LockedRight(h, s, step) && TipOk(s) && !step.AppendRow?
    ensures var s' := Do(h, s, step); ChainOk(g, s') <==> ChainOk(g, s) && s'.lost == s.lost
  {
    assert Do(h, s, step).rows == s.rows;
  }

  ghost predicate LockedRight<G(!new), H(!new)>(h: G -> H, s: State<G, H>, step: Step<G, H>) {
    step.c in s.clients ==> LockOk(h, s, step.c, s.clients[step.c])
  }

  /** A step breaks the chain exactly when it loses an update: a crash between append and replace
      of a row that was to change the graph.  A broken chain stays broken. */
  lemma StepChains<G(!new), H(!new)>(h: G -> H, g: G, s: State<G, H>, step: Step<G, H>)
    requires Inv(h, s) && TipOk(s)
    ensures var s' := Do(h, s, step); ChainOk(g, s') <==> ChainOk(g, s) && s'.lost == s.lost
  {
    if step.c in s.clients { assert ClientOk(h, s, step.c, s.clients[step.c]); }
    if step.AppendRow? { AppendChains(h, g, s, step); } else { OthersChain(h, g, s, step); }
  }

  lemma LostOnlyGrows<G(!new), H(!new)>(h: G -> H, s: State<G, H>, step: Step<G, H>)
    ensures s.lost <= Do(h, s, step).lost
  {
  }

  lemma {:induction false} RunChains<G(!new), H(!new)>(h: G -> H, g: G, s: State<G, H>, steps: seq<Step<G, H>>)
    requires Injective(h) && Inv(h, s) && TipOk(s)
    ensures var s' := Run(h, s, steps);
            s.lost <= s'.lost && (ChainOk(g, s') <==> ChainOk(g, s) && s'.lost == s.lost)
    decreases |steps|
  {
    if steps != [] {
      LostOnlyGrows(h, s, steps[0]);
      StepChains(h, g, s, steps[0]);
      StepKeepsTip(h, s, steps[0]);
      StepKeepsInv(h, s, steps[0]);
      RunChains(h, g, Do(h, s, steps[0]), steps[1..]);
    }
  }

  /** Tokened and tokenless commits together form one chain from the first graph to graph.json, no
      amend lost, if and only if no writer died between append and replace of a row that was to
      change the graph. */
  lemma NoLostUpdate<G(!new), H(!new)>(h: G -> H, g: G, steps: seq<Step<G, H>>)
    requires Injective(h)
    ensures var s := Run(h, Initial(g), steps); ChainOk(g, s) <==> s.lost == 0
  {
    RunChains(h, g, Initial(g), steps);
  }

  /** Rows are only ever added, so a revision that was the head is never the head again
      after a later commit, even if the graph bytes return. */
  lemma {:induction false} RevisionNeverReturns<G(!new), H(!new)>(h: G -> H, s: State<G, H>, steps: seq<Step<G, H>>)
    ensures var s' := Run(h, s, steps);
            && s.rows <= s'.rows
            && (s.rows != s'.rows ==> Head(h, s) != Head(h, s'))
    decreases |steps|
  {
    if steps != [] { RevisionNeverReturns(h, Do(h, s, steps[0]), steps[1..]); }
  }

  // ---------------------------------------------------------------- the limits, by example --

  ghost predicate Reaches<G(!new), H(!new)>(h: G -> H, g: G, s: State<G, H>) {
    exists steps :: Run(h, Initial(g), steps) == s
  }

  lemma {:induction false} RunSnoc<G(!new), H(!new)>(h: G -> H, s: State<G, H>, steps: seq<Step<G, H>>, x: Step<G, H>)
    ensures Run(h, s, steps + [x]) == Do(h, Run(h, s, steps), x)
    decreases |steps|
  {
    if steps == [] {
      assert steps + [x] == [x] && [x][1..] == [];
    } else {
      RunSnoc(h, Do(h, s, steps[0]), steps[1..], x);
      assert (steps + [x])[1..] == steps[1..] + [x];
    }
  }

  lemma Next(s: State<int, int>, g: int, x: Step<int, int>) returns (s': State<int, int>)
    requires Reaches(Same, g, s)
    ensures s' == Do(Same, s, x) && Reaches(Same, g, s')
  {
    s' := Do(Same, s, x);
    var steps :| Run(Same, Initial(g), steps) == s;
    RunSnoc(Same, Initial(g), steps, x);
  }

  function Same(g: int): int { g }

  lemma Begins(g: int) returns (s: State<int, int>)
    ensures s == Initial(g) && Reaches(Same, g, s)
  {
    s := Initial(g);
    assert Run(Same, Initial(g), []) == s;
  }

  lemma TakesLock(s: State<int, int>, g: int, c: ClientId) returns (s': State<int, int>)
    requires Reaches(Same, g, s) && c in s.clients && s.clients[c].pc in {Based, Previewed} && s.lock == Free
    ensures Reaches(Same, g, s')
    ensures var pc := if s.clients[c].pc == Based then EarlyHeld else FinalHeld;
            s' == Put(s, c, s.clients[c].(pc := pc)).(lock := Held(c))
  {
    s' := Next(s, g, if s.clients[c].pc == Based then LockEarly(c) else LockFinal(c));
  }

  /** A tokenless amend, or one whose token is the head, from its base read up to its first check. */
  lemma PassEarly(s: State<int, int>, g: int, c: ClientId) returns (s': State<int, int>)
    requires Reaches(Same, g, s) && c in s.clients && s.clients[c].pc == Based && s.lock == Free
    requires Passes(Same, s, s.clients[c].token)
    ensures Reaches(Same, g, s') && s' == Put(s, c, s.clients[c].(pc := Admitted))
  {
    s' := TakesLock(s, g, c);
    s' := Next(s', g, CheckEarly(c));
    assert s'.clients == s.clients[c := s.clients[c].(pc := Admitted)];
  }

  /** The unlocked reads after the first check. */
  lemma ReadBoth(s: State<int, int>, g: int, c: ClientId) returns (s': State<int, int>)
    requires Reaches(Same, g, s) && c in s.clients && s.clients[c].pc == Admitted
    ensures Reaches(Same, g, s')
    ensures s' == Put(s, c, s.clients[c].(pc := Previewed, oldGraph := s.graph, previewBase := s.graph))
  {
    s' := Next(s, g, ReadOld(c));
    s' := Next(s', g, ReadPreview(c));
    assert s'.clients == s.clients[c := s.clients[c].(pc := Previewed, oldGraph := s.graph, previewBase := s.graph)];
  }

  lemma Recheck(s: State<int, int>, g: int, c: ClientId) returns (s': State<int, int>)
    requires Reaches(Same, g, s) && c in s.clients && s.clients[c].pc == Previewed && s.lock == Free
    requires Passes(Same, s, s.clients[c].token)
    ensures Reaches(Same, g, s')
    ensures s' == Put(s, c, s.clients[c].(pc := Cleared)).(lock := Held(c))
  {
    s' := TakesLock(s, g, c);
    s' := Next(s', g, CheckFinal(c));
    assert s'.clients == s.clients[c := s.clients[c].(pc := Cleared)];
  }

  lemma PassFinal(s: State<int, int>, g: int, c: ClientId, next: int) returns (s': State<int, int>)
    requires Reaches(Same, g, s) && c in s.clients && s.clients[c].pc == Previewed && s.lock == Free
    requires Passes(Same, s, s.clients[c].token)
    ensures Reaches(Same, g, s')
    ensures s' == Put(s, c, s.clients[c].(pc := Logged, written := next))
                  .(rows := s.rows + [Row(c, s.graph, next)], lock := Writing(c, next))
  {
    s' := Recheck(s, g, c);
    s' := Next(s', g, AppendRow(c, next));
    assert s'.clients == s.clients[c := s.clients[c].(pc := Logged, written := next)];
  }

  /** One amend from its base read to its preview read. */
  lemma UpToPreview(s: State<int, int>, g: int, c: ClientId) returns (s': State<int, int>)
    requires Reaches(Same, g, s) && c in s.clients && s.clients[c].pc == Based && s.lock == Free
    requires Passes(Same, s, s.clients[c].token)
    ensures Reaches(Same, g, s')
    ensures s' == Put(s, c, s.clients[c].(pc := Previewed, oldGraph := s.graph, previewBase := s.graph))
  {
    s' := PassEarly(s, g, c);
    s' := ReadBoth(s', g, c);
    assert s'.clients == s.clients[c := s'.clients[c]];
  }

  /** One amend from its base read to its append. */
  lemma UpToAppend(s: State<int, int>, g: int, c: ClientId, next: int) returns (s': State<int, int>)
    requires Reaches(Same, g, s) && c in s.clients && s.clients[c].pc == Based && s.lock == Free
    requires Passes(Same, s, s.clients[c].token)
    ensures Reaches(Same, g, s')
    ensures s' == Put(s, c, s.clients[c].(pc := Logged, oldGraph := s.graph, previewBase := s.graph, written := next))
                  .(rows := s.rows + [Row(c, s.graph, next)], lock := Writing(c, next))
  {
    s' := UpToPreview(s, g, c);
    s' := PassFinal(s', g, c, next);
    assert s'.clients == s.clients[c := s'.clients[c]];
  }

  /** A tokenless newcomer, from nothing to its append. */
  lemma NewcomerAppends(s: State<int, int>, g: int, c: ClientId, next: int) returns (s': State<int, int>)
    requires Reaches(Same, g, s) && c !in s.clients && s.lock == Free
    ensures Reaches(Same, g, s')
    ensures c in s'.clients && s'.clients[c].pc == Logged && s'.clients[c].written == next
    ensures s' == Put(s, c, s'.clients[c]).(rows := s.rows + [Row(c, s.graph, next)], lock := Writing(c, next))
  {
    s' := Next(s, g, InventToken(c, None));
    s' := Next(s', g, ReadPatchBase(c));
    s' := UpToAppend(s', g, c, next);
    assert s'.clients == s.clients[c := s'.clients[c]];
  }

  lemma CountsAndReads(s0: State<int, int>, c: ClientId) returns (s: State<int, int>)
    requires Reaches(Same, 10, s0) && c in s0.clients && s0.clients[c].pc == HalfToken
    ensures Reaches(Same, 10, s)
    ensures var cl := s0.clients[c];
            s == Put(s0, c, cl.(pc := Based, token := Some(Token(|s0.rows|, cl.tokenBytes)), tokenWasRead := true,
                                patchBase := s0.graph, pendingAtPatch := Pending(s0)))
  {
    s := Next(s0, 10, CountTokenRows(c));
    s := Next(s, 10, ReadPatchBase(c));
    assert s.clients == s0.clients[c := s.clients[c]];
  }

  /** The token's second half and the patch read fall into the second writer's section. */
  lemma TornReads(s0: State<int, int>) returns (s: State<int, int>)
    requires Reaches(Same, 10, s0)
    requires s0.graph == 20 && |s0.rows| == 2 && s0.lock == Writing(2, 10)
    requires 0 in s0.clients && s0.clients[0].pc == HalfToken && s0.clients[0].tokenBytes == 10
    requires 2 in s0.clients && s0.clients[2].pc == Logged && s0.clients[2].written == 10
    ensures Reaches(Same, 10, s) && s.deadRows == s0.deadRows && s.lock == Free && s.graph == 10 && |s.rows| == 2
    ensures 0 in s.clients && s.clients[0].pc == Based && s.clients[0].patchBase == 20
    ensures s.clients[0].tokenWasRead && s.clients[0].token == Some(Token(2, 10))
  {
    s := CountsAndReads(s0, 0);
    s := Next(s, 10, ReplaceGraph(2));
  }

  lemma FinishTorn(s0: State<int, int>) returns (s: State<int, int>)
    requires Reaches(Same, 10, s0) && s0.deadRows == {}
    requires s0.graph == 20 && |s0.rows| == 2 && s0.lock == Writing(2, 10)
    requires 0 in s0.clients && s0.clients[0].pc == HalfToken && s0.clients[0].tokenBytes == 10
    requires 2 in s0.clients && s0.clients[2].pc == Logged && s0.clients[2].written == 10
    ensures Reaches(Same, 10, s) && s.deadRows == {}
    ensures 0 in s.clients && s.clients[0].pc == Done && s.clients[0].tokenWasRead && s.clients[0].token.Some?
    ensures s.clients[0].patchBase == 20 && s.clients[0].replaced == 10
  {
    s := TornReads(s0);
    s := UpToAppend(s, 10, 0, 30);
    assert s.graph == 10 && s.clients[0].patchBase == 20 && s.clients[0].tokenWasRead;
    s := Next(s, 10, ReplaceGraph(0));
  }

  /** Client 0 has read the token's graph bytes, and client 1 has committed graph 20 since. */
  lemma TornBegins() returns (s: State<int, int>)
    ensures Reaches(Same, 10, s) && s.deadRows == {} && s.graph == 20 && |s.rows| == 1 && s.lock == Free
    ensures 0 in s.clients && s.clients[0].pc == HalfToken && s.clients[0].tokenBytes == 10 && 2 !in s.clients
  {
    s := Begins(10);
    s := Next(s, 10, ReadTokenBytes(0));
    s := NewcomerAppends(s, 10, 1, 20);
    s := Next(s, 10, ReplaceGraph(1));
  }

  /** A token read around two commits that put graph 10 back can be a head revision whose
      graph the patch read, made while the second of them is still in flight, did not see. */
  lemma TornTokenCanPatchAnotherGraph() returns (s: State<int, int>)
    ensures Reaches(Same, 10, s) && s.deadRows == {}
    ensures 0 in s.clients && s.clients[0].pc == Done && s.clients[0].tokenWasRead && s.clients[0].token.Some?
    ensures s.clients[0].patchBase == 20 && s.clients[0].replaced == 10
  {
    s := TornBegins();
    s := NewcomerAppends(s, 10, 2, 10);
    s := FinishTorn(s);
  }

  /** A writer that dies between append and replace leaves a row no later row takes up. */
  lemma CrashedWriterBreaksTheChain() returns (s: State<int, int>)
    ensures Reaches(Same, 10, s) && s.lock == Free && s.deadRows == {0} && s.lost == 1
    ensures !ChainOk(10, s)
  {
    s := Begins(10);
    s := NewcomerAppends(s, 10, 1, 20);
    s := Next(s, 10, Crash(1));
  }
}
