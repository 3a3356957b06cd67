/**
 The index file and its signature cache: one door's calls on a file that other processes write,
 too.  Every call holds the file lock for one append or one compaction at a time, so others may
 write between the read of a call and its rows.
*/
module GateIndexFile {
  import opened Wrappers
  import opened Collections
  import opened GateIndex

  function KeysOf(d: seq<Row>): set<Key> {
    set r | r in d :: r.key
  }

  /** `list(_fold(rows))` restricted to one run, or to one gate of it. */
  function Matching(d: seq<Row>, run: int, gate: Option<int>): seq<Row> {
    if d == [] then []
    else if d[0].key.0 == run && (gate.None? || d[0].key.1 == gate.value) then [d[0]] + Matching(d[1..], run, gate)
    else Matching(d[1..], run, gate)
  }

  /** The open rows that stay. */
  function Others(d: seq<Row>, run: int, gate: Option<int>): seq<Row> {
    if d == [] then []
    else if d[0].key.0 == run && (gate.None? || d[0].key.1 == gate.value) then Others(d[1..], run, gate)
    else [d[0]] + Others(d[1..], run, gate)
  }

  function CloseRow(row: Row, width: Key -> nat): Row { Close(row.key, width(row.key)) }

  function CloseRows(d: seq<Row>, width: Key -> nat): seq<Row> {
    if d == [] then [] else [CloseRow(d[0], width)] + CloseRows(d[1..], width)
  }

  lemma {:induction false} DelAbsent(d: seq<Row>, k: Key)
    requires forall r :: r in d ==> r.key != k
    ensures Del(d, k) == d
  {
    if d != [] { DelAbsent(d[1..], k); }
  }

  lemma {:induction false} CloseSkips(x: Row, d: seq<Row>, rows: seq<Row>)
    requires forall r :: r in rows ==> r.Close? && r.key != x.key
    ensures FoldFrom([x] + d, rows) == [x] + FoldFrom(d, rows)
    decreases |rows|
  {
    if rows != [] {
      assert ([x] + d)[1..] == d;
      CloseSkips(x, Del(d, rows[0].key), rows[1..]);
    }
  }

  lemma {:induction false} CloseRowsAre(d: seq<Row>, run: int, gate: Option<int>, width: Key -> nat)
    ensures forall r :: r in CloseRows(Matching(d, run, gate), width) ==>
              r.Close? && exists o :: o in d && o.key == r.key
    ensures forall r :: r in CloseRows(Matching(d, run, gate), width) ==>
              r.key.0 == run && (gate.None? || r.key.1 == gate.value)
  {
    if d != [] {
      CloseRowsAre(d[1..], run, gate, width);
      assert d[0] in d;
    }
  }

  /** Close rows for a run's gates (or one of them) take out exactly those, order and rows of
      the others unchanged. */
  lemma {:induction false} ClosingLeavesOthers(d: seq<Row>, run: int, gate: Option<int>, width: Key -> nat)
    requires IsDict(d)
    ensures FoldFrom(d, CloseRows(Matching(d, run, gate), width)) == Others(d, run, gate)
  {
    if d != [] {
      var x, rest := d[0], d[1..];
      assert d == [x] + rest;
      ClosingLeavesOthers(rest, run, gate, width);
      CloseRowsAre(rest, run, gate, width);
      if x.key.0 == run && (gate.None? || x.key.1 == gate.value) {
        DelAbsent(rest, x.key);
      } else {
        CloseSkips(x, rest, CloseRows(Matching(rest, run, gate), width));
      }
    }
  }

  // ---------------------------------------------------------------- rows of others in between --

  /** What other processes write before the n-th row of a call. */
  type Foreign = nat -> seq<Event>

  /** All that is written up to the n-th close row. */
  function CloseEvents(todo: seq<Row>, width: Key -> nat, foreign: Foreign, n: nat): seq<Event>
    requires n <= |todo|
  {
    if n == 0 then []
    else CloseEvents(todo, width, foreign, n - 1) + foreign(n - 1) + [Append(CloseRow(todo[n - 1], width))]
  }

  /** The rows of others before the rows `lo` to `hi` of the call. */
  function ForeignRows(foreign: Foreign, lo: nat, hi: nat): seq<Row>
    requires lo <= hi
    decreases hi
  {
    if lo == hi then [] else ForeignRows(foreign, lo, hi - 1) + History(foreign(hi - 1))
  }

  lemma {:induction false} AfterConcat(ls: seq<Line>, a: seq<Event>, b: seq<Event>)
    ensures After(ls, a + b) == After(After(ls, a), b) && History(a + b) == History(a) + History(b)
    decreases |b|
  {
    if b == [] {
      assert a + b == a && History(a) + [] == History(a);
    } else {
      var front, e := b[..|b| - 1], b[|b| - 1];
      assert (a + b)[..|a + b| - 1] == a + front && (a + b)[|a + b| - 1] == e;
      AfterConcat(ls, a, front);
      LastEvent(ls, a + b);
      LastEvent(After(ls, a), b);
      assert History(a) + History(front) + History([e]) == History(a) + (History(front) + History([e]));
    }
  }

  /** One turn of the closing loop. */
  lemma CloseTurn(ls: seq<Line>, todo: seq<Row>, width: Key -> nat, foreign: Foreign, n: nat)
    requires n < |todo|
    ensures var row := CloseRow(todo[n], width);
            var evs, more := CloseEvents(todo, width, foreign, n), CloseEvents(todo, width, foreign, n + 1);
            && After(ls, more) == Appended(After(After(ls, evs), foreign(n)), row)
            && History(more) == History(evs) + History(foreign(n)) + [row]
  {
    var row := CloseRow(todo[n], width);
    var evs := CloseEvents(todo, width, foreign, n);
    AfterConcat(ls, evs, foreign(n));
    AfterConcat(ls, evs + foreign(n), [Append(row)]);
    assert [Append(row)][..0] == [];
    assert History([Append(row)]) == [row];
  }

  predicate Names(todo: seq<Row>, k: Key) { exists i :: 0 <= i < |todo| && todo[i].key == k }

  predicate DistinctKeys(todo: seq<Row>) { forall i, j :: 0 <= i < j < |todo| ==> todo[i].key != todo[j].key }

  /** A gate that is not closed is as the others' rows leave it. */
  lemma {:induction false} CloseSparesOthers(
    todo: seq<Row>, width: Key -> nat, foreign: Foreign, n: nat, o: Option<Row>, k: Key)
    requires n <= |todo| && !Names(todo, k)
    ensures LastSays(o, History(CloseEvents(todo, width, foreign, n)), k) == LastSays(o, ForeignRows(foreign, 0, n), k)
  {
    if n > 0 {
      CloseSparesOthers(todo, width, foreign, n - 1, o, k);
      CloseSays(todo, width, foreign, n - 1, o, k);
      LastSaysConcat(o, ForeignRows(foreign, 0, n - 1), History(foreign(n - 1)), k);
    }
  }

  /** What the log says of a gate one turn of the loop later. */
  lemma CloseSays(todo: seq<Row>, width: Key -> nat, foreign: Foreign, n: nat, o: Option<Row>, k: Key)
    requires n < |todo|
    ensures LastSays(o, History(CloseEvents(todo, width, foreign, n + 1)), k) ==
            if todo[n].key == k then None
            else LastSays(LastSays(o, History(CloseEvents(todo, width, foreign, n)), k), History(foreign(n)), k)
  {
    CloseTurn([], todo, width, foreign, n);
    var was, more := History(CloseEvents(todo, width, foreign, n)), History(foreign(n));
    LastSaysConcat(o, was, more, k);
    var row := CloseRow(todo[n], width);
    assert (was + more + [row])[..|was + more|] == was + more;
  }

  /** A closed gate is closed unless another process opens it after its close row. */
  lemma {:induction false} CloseCloses(
    todo: seq<Row>, width: Key -> nat, foreign: Foreign, n: nat, o: Option<Row>, i: nat)
    requires i < n <= |todo| && DistinctKeys(todo)
    ensures LastSays(o, History(CloseEvents(todo, width, foreign, n)), todo[i].key) ==
            LastSays(None, ForeignRows(foreign, i + 1, n), todo[i].key)
  {
    CloseSays(todo, width, foreign, n - 1, o, todo[i].key);
    if i < n - 1 {
      CloseCloses(todo, width, foreign, n - 1, o, i);
      LastSaysConcat(None, ForeignRows(foreign, i + 1, n - 1), History(foreign(n - 1)), todo[i].key);
    }
  }

  /** `d'` shows each of the gates closed, unless a row of others after its close row opened it
      again, and any other gate as the others' rows leave what `d` shows. */
  ghost predicate ClosesJust(d: seq<Row>, d': seq<Row>, todo: seq<Row>, foreign: Foreign) {
    && (forall i :: 0 <= i < |todo| ==>
          Find(d', todo[i].key) == LastSays(None, ForeignRows(foreign, i + 1, |todo|), todo[i].key))
    && (forall k :: !Names(todo, k) ==> Find(d', k) == LastSays(Find(d, k), ForeignRows(foreign, 0, |todo|), k))
  }

  /** What a reader of a log within the bound sees after some events, from what it saw before. */
  lemma SeenAfter(ls: seq<Line>, evs: seq<Event>)
    requires StaysWithin(ls, evs)
    ensures Seen(After(ls, evs)) == FoldFrom(Seen(ls), History(evs))
  {
    IndexIsExactWithinBound(ls, evs);
    StartsWithin(ls, evs);
    FoldConcat([], Rows(ls), History(evs));
  }

  lemma {:induction false} StartsWithin(ls: seq<Line>, evs: seq<Event>)
    requires StaysWithin(ls, evs)
    ensures Total(ls) <= SCAN_MAX_BYTES
    decreases |evs|
  {
    if evs != [] { StartsWithin(ls, evs[..|evs| - 1]); }
  }

  /** Closing with others writing in between. */
  lemma ClosingClosesJust(ls: seq<Line>, todo: seq<Row>, width: Key -> nat, foreign: Foreign)
    requires DistinctKeys(todo) && StaysWithin(ls, CloseEvents(todo, width, foreign, |todo|))
    ensures var evs := CloseEvents(todo, width, foreign, |todo|);
            ClosesJust(Seen(ls), Seen(After(ls, evs)), todo, foreign)
  {
    var d, evs := Seen(ls), CloseEvents(todo, width, foreign, |todo|);
    SeenAfter(ls, evs);
    forall k ensures Find(Seen(After(ls, evs)), k) == LastSays(Find(d, k), History(evs), k) {
      LastRowDecides(d, History(evs), k);
    }
    forall i | 0 <= i < |todo| {
      CloseCloses(todo, width, foreign, |todo|, Find(d, todo[i].key), i);
    }
    forall k | !Names(todo, k) {
      CloseSparesOthers(todo, width, foreign, |todo|, Find(d, k), k);
    }
  }

  predicate Alone(foreign: Foreign, n: nat) { forall i :: 0 <= i < n ==> foreign(i) == [] }

  lemma {:induction false} CloseRowsLast(d: seq<Row>, width: Key -> nat)
    requires d != []
    ensures CloseRows(d, width) == CloseRows(d[..|d| - 1], width) + [CloseRow(d[|d| - 1], width)]
  {
    if |d| > 1 {
      CloseRowsLast(d[1..], width);
      assert d[1..][..|d| - 2] == d[..|d| - 1][1..];
    } else {
      assert d[1..] == [] && d[..|d| - 1] == [];
    }
  }

  /** What the call itself writes, its own row after those before it. */
  lemma AloneTurn(todo: seq<Row>, width: Key -> nat, foreign: Foreign, n: nat)
    requires 0 < n <= |todo| && Alone(foreign, n)
    requires History(CloseEvents(todo, width, foreign, n - 1)) == CloseRows(todo[..n - 1], width)
    ensures History(CloseEvents(todo, width, foreign, n)) ==
            CloseRows(todo[..n - 1], width) + [CloseRow(todo[n - 1], width)]
  {
    CloseTurn([], todo, width, foreign, n - 1);
    assert CloseRows(todo[..n - 1], width) + [] == CloseRows(todo[..n - 1], width);
  }

  lemma {:induction false} AloneRows(todo: seq<Row>, width: Key -> nat, foreign: Foreign, n: nat)
    requires n <= |todo| && Alone(foreign, n)
    ensures History(CloseEvents(todo, width, foreign, n)) == CloseRows(todo[..n], width)
  {
    if n == 0 {
      assert todo[..0] == [];
    } else {
      AloneRows(todo, width, foreign, n - 1);
      AloneTurn(todo, width, foreign, n);
      TakeLast(todo, n);
      CloseRowsLast(todo[..n], width);
    }
  }

  /** With nobody else writing, the rows of the other gates stand in their order. */
  lemma ClosingAlone(ls: seq<Line>, run: int, gate: Option<int>, width: Key -> nat, foreign: Foreign)
    requires var todo := Matching(Seen(ls), run, gate);
             Alone(foreign, |todo|) && StaysWithin(ls, CloseEvents(todo, width, foreign, |todo|))
    ensures var todo := Matching(Seen(ls), run, gate);
            Seen(After(ls, CloseEvents(todo, width, foreign, |todo|))) == Others(Seen(ls), run, gate)
  {
    var todo := Matching(Seen(ls), run, gate);
    SeenAfter(ls, CloseEvents(todo, width, foreign, |todo|));
    AloneRows(todo, width, foreign, |todo|);
    assert todo[..|todo|] == todo;
    FoldKeeps([], Rows(Tail(ls)));
    ClosingLeavesOthers(Seen(ls), run, gate, width);
  }

  lemma {:induction false} MatchingMembers(d: seq<Row>, run: int, gate: Option<int>)
    requires IsDict(d)
    ensures DistinctKeys(Matching(d, run, gate))
    ensures forall r :: r in Matching(d, run, gate) ==> r in d
  {
    if d != [] {
      var rest := Matching(d[1..], run, gate);
      MatchingMembers(d[1..], run, gate);
      forall i | 0 <= i < |rest| ensures rest[i].key != d[0].key { assert rest[i] in d[1..]; }
    }
  }

  lemma NoteCloseLaw(ls: seq<Line>, run: int, gate: Option<int>, width: Key -> nat, foreign: Foreign)
    ensures var todo := Matching(Seen(ls), run, gate); var evs := CloseEvents(todo, width, foreign, |todo|);
            StaysWithin(ls, evs) ==>
              && ClosesJust(Seen(ls), Seen(After(ls, evs)), todo, foreign)
              && (Alone(foreign, |todo|) ==> Seen(After(ls, evs)) == Others(Seen(ls), run, gate))
  {
    var todo := Matching(Seen(ls), run, gate);
    FoldKeeps([], Rows(Tail(ls)));
    MatchingMembers(Seen(ls), run, gate);
    if StaysWithin(ls, CloseEvents(todo, width, foreign, |todo|)) {
      ClosingClosesJust(ls, todo, width, foreign);
      if Alone(foreign, |todo|) { ClosingAlone(ls, run, gate, width, foreign); }
    }
  }

  /** `d'` shows the opened gate with its row, and any other as the others' rows leave what `d` shows. */
  ghost predicate OpensJust(d: seq<Row>, d': seq<Row>, row: Row, foreign: seq<Event>) {
    && Find(d', row.key) == Some(row)
    && (forall k :: k != row.key ==> Find(d', k) == LastSays(Find(d, k), History(foreign), k))
  }

  lemma OpeningOpensJust(ls: seq<Line>, row: Row, foreign: seq<Event>)
    requires row.Open? && StaysWithin(ls, foreign + [Event.Append(row)])
    ensures OpensJust(Seen(ls), Seen(Appended(After(ls, foreign), row)), row, foreign)
  {
    var evs := foreign + [Event.Append(row)];
    assert [Event.Append(row)][..0] == [];
    AfterConcat(ls, foreign, [Event.Append(row)]);
    SeenAfter(ls, evs);
    assert History([Event.Append(row)]) == [row];
    assert (History(foreign) + [row])[..|History(foreign)|] == History(foreign);
    forall k ensures Find(Seen(After(ls, evs)), k) == LastSays(Find(Seen(ls), k), History(evs), k) {
      LastRowDecides(Seen(ls), History(evs), k);
    }
  }

  // ---------------------------------------------------------------- the module itself --

  class Index {
    var file: Option<seq<Line>>               // None while there is no file
    var version: nat                          // the (size, mtime) signature: every write moves it
    var cache: Option<(nat, set<Key>)>        // `_SEEN`: signature and open keys

    constructor ()
      ensures Valid() && file.None?
    {
      file, version, cache := None, 0, None;
    }

    function Lines(): seq<Line> reads this { if file.Some? then file.value else [] }

    /** A cache that carries the file's signature carries its open keys. */
    ghost predicate Valid() reads this {
      && (cache.Some? ==> cache.value.0 <= version)
      && (cache.Some? && cache.value.0 == version && file.Some? ==> cache.value.1 == KeysOf(Seen(Lines())))
    }

    /** Other processes write the file, each under the file lock. */
    method OthersWrite(evs: seq<Event>)
      requires Valid()
      modifies this`file, this`version
      ensures Valid() && Lines() == After(old(Lines()), evs)
      ensures evs == [] ==> file == old(file) && version == old(version)
      ensures evs != [] ==> file.Some? && version > old(version)
    {
      if evs != [] { file, version := Some(After(Lines(), evs)), version + 1; }
    }

    method ReadKeys() returns (d: seq<Row>)
      ensures d == Seen(Lines())
    {
      d := Fold(Rows(Tail(Lines())));
    }

    method IsOpen(k: Key) returns (open: bool)
      requires Valid()
      modifies this`cache
      ensures Valid() && open == (k in KeysOf(Seen(Lines())))
    {
      if file.Some? && cache.Some? && cache.value.0 == version { return k in cache.value.1; }
      var d := ReadKeys();
      cache := if file.Some? then Some((version, KeysOf(d))) else None;
      open := k in KeysOf(d);
    }

    /** `_remember`; between its read and its stat another process may leave any other file, by an
        append, a compaction or both. */
    method Remember(foreign: Option<seq<Line>>)
      requires Valid() && file.Some?
      modifies this
      ensures Lines() == GetOr(foreign, old(Lines())) && file.Some?
      ensures foreign.None? ==> file == old(file)
      ensures Valid() <==> KeysOf(Seen(old(Lines()))) == KeysOf(Seen(Lines()))
    {
      var d := ReadKeys();
      if foreign.Some? {
        version := version + 1;
        file := foreign;
      }
      cache := Some((version, KeysOf(d)));
    }

    method Append(row: Row)
      requires Valid()
      modifies this`file, this`version
      ensures Valid() && file == Some(Appended(old(Lines()), row)) && version > old(version)
    {
      var ls := Lines() + [Good(row)];
      file, version := Some(ls), version + 1;
      if |Tail(ls)| > COMPACT_ROWS {
        var d := ReadKeys();
        file, version := Some(Rewritten(d)), version + 1;
      }
    }

    /** `compact`: rewrites to the rows a reader sees, and forgets the cache. */
    method Compact() returns (kept: nat)
      requires Valid()
      modifies this
      ensures Valid() && Seen(Lines()) == old(Seen(Lines())) && Held(Lines()) == old(Seen(Lines()))
      ensures kept == |Held(Lines())|
    {
      TailFits(Lines());
      if file.None? { return 0; }
      var d := ReadKeys();
      file, version, cache := Some(Rewritten(d)), version + 1, None;
      RowsFit(Tail(old(Lines())));
      kept := |d|;
      FoldKeeps([], Rows(Tail(old(Lines()))));
      RewrittenRows(d);
      assert [] + d == d;
      FoldOfDict([], d);
    }

    /** A gate a reader of the index already sees open is not appended again.  A new row opens its
        gate whatever others wrote since the look, and leaves every other gate as they left it. */
    method NoteOpen(k: Key, session: int, width: nat, foreign: seq<Event>) returns (appended: bool)
      requires Valid()
      modifies this
      ensures Valid() && appended == (k !in KeysOf(old(Seen(Lines()))))
      ensures !appended ==> file == old(file)
      ensures appended ==> Lines() == Appended(After(old(Lines()), foreign), Open(k, session, width))
      ensures appended && StaysWithin(old(Lines()), foreign + [Event.Append(Open(k, session, width))]) ==>
                OpensJust(old(Seen(Lines())), Seen(Lines()), Open(k, session, width), foreign)
    {
      var open := IsOpen(k);
      if open { return false; }
      if StaysWithin(Lines(), foreign + [Event.Append(Open(k, session, width))]) {
        OpeningOpensJust(Lines(), Open(k, session, width), foreign);
      }
      OthersWrite(foreign);
      Append(Open(k, session, width));
      Remember(None);
      return true;
    }

    /** The loop of `note_close`: one close row after another, others writing before each. */
    method CloseEach(todo: seq<Row>, width: Key -> nat, foreign: Foreign)
      requires Valid()
      modifies this`file, this`version
      ensures Valid() && (if todo == [] then file == old(file) else file.Some?)
      ensures Lines() == After(old(Lines()), CloseEvents(todo, width, foreign, |todo|))
    {
      ghost var was := Lines();
      for n := 0 to |todo|
        invariant Valid() && (if n == 0 then file == old(file) else file.Some?)
        invariant Lines() == After(was, CloseEvents(todo, width, foreign, n))
      {
        CloseTurn(was, todo, width, foreign, n);
        OthersWrite(foreign(n));
        Append(CloseRow(todo[n], width));
      }
    }

    /** Closes the gates of a run (or one of them) that were seen open.  As long as the log stays
        within the scan bound: each of them is closed unless another process opened it again after
        its close row, every other gate is as the others' rows leave it, and with nobody else
        writing the remaining rows stand as they were, although compactions may run in between. */
    method NoteClose(run: int, gate: Option<int>, width: Key -> nat, foreign: Foreign) returns (n: nat)
      requires Valid()
      modifies this
      ensures Valid() && n == |Matching(old(Seen(Lines())), run, gate)|
      ensures var todo := Matching(old(Seen(Lines())), run, gate); var evs := CloseEvents(todo, width, foreign, n);
              && Lines() == After(old(Lines()), evs)
              && (StaysWithin(old(Lines()), evs) ==>
                    && ClosesJust(old(Seen(Lines())), Seen(Lines()), todo, foreign)
                    && (Alone(foreign, n) ==> Seen(Lines()) == Others(old(Seen(Lines())), run, gate)))
    {
      var d := ReadKeys();
      var todo := Matching(d, run, gate);
      NoteCloseLaw(Lines(), run, gate, width, foreign);
      CloseEach(todo, width, foreign);
      n := |todo|;
      if n > 0 { Remember(None); }
    }
  }
}
