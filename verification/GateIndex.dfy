/**
 The append-only index of open human gates: fold, tail-bounded read, compaction, and what whole
 histories of it show.  A log is a sequence of lines with their byte lengths; `_fold`'s dict is a
 sequence of its open rows in insertion order.
*/
module GateIndex {
  import opened Wrappers
  import opened Collections

  type Key = (int, int)   // (run_id, gate_id)

  /** A parsed row; `width` is the length of its JSON text, which a rewrite reproduces. */
  datatype Row = Open(key: Key, session: int, width: nat) | Close(key: Key, width: nat)
  datatype Line = Good(row: Row) | Junk(width: nat)

  const COMPACT_ROWS := 500
  const SCAN_MAX_BYTES := 0x10_0000

  // ---------------------------------------------------------------- the dict --

  /** `open_[key] = row`: a known key keeps its place. */
  function Put(d: seq<Row>, row: Row): seq<Row> {
    if d == [] then [row]
    else if d[0].key == row.key then [row] + d[1..]
    else [d[0]] + Put(d[1..], row)
  }

  /** `open_.pop(key, None)` */
  function Del(d: seq<Row>, k: Key): seq<Row> {
    if d == [] then [] else if d[0].key == k then Del(d[1..], k) else [d[0]] + Del(d[1..], k)
  }

  function Apply(d: seq<Row>, row: Row): seq<Row> {
    if row.Open? then Put(d, row) else Del(d, row.key)
  }

  function FoldFrom(d: seq<Row>, rows: seq<Row>): seq<Row>
    decreases |rows|
  {
    if rows == [] then d else FoldFrom(Apply(d, rows[0]), rows[1..])
  }

  function Find(d: seq<Row>, k: Key): Option<Row> {
    if d == [] then None else if d[0].key == k then Some(d[0]) else Find(d[1..], k)
  }

  /** `_fold` */
  method Fold(rows: seq<Row>) returns (d: seq<Row>)
    ensures d == FoldFrom([], rows)
  {
    d := [];
    for i := 0 to |rows|
      invariant FoldFrom([], rows) == FoldFrom(d, rows[i..])
    {
      assert rows[i..][1..] == rows[i + 1..];
      if rows[i].Open? { d := Put(d, rows[i]); } else { d := Del(d, rows[i].key); }
    }
  }

  /** What `_fold` yields: open rows only, each key once. */
  ghost predicate IsDict(d: seq<Row>) {
    && (forall i :: 0 <= i < |d| ==> d[i].Open?)
    && (forall i, j :: 0 <= i < j < |d| ==> d[i].key != d[j].key)
  }

  lemma {:induction false} FindIsMember(d: seq<Row>, k: Key)
    ensures Find(d, k).Some? <==> exists i :: 0 <= i < |d| && d[i].key == k
    ensures Find(d, k).Some? ==> Find(d, k).value in d && Find(d, k).value.key == k
  {
    if d != [] {
      FindIsMember(d[1..], k);
      if Find(d, k).Some? && d[0].key != k {
        var i :| 0 <= i < |d[1..]| && d[1..][i].key == k;
        assert d[i + 1].key == k;
      }
    }
  }

  lemma {:induction false} FindAfter(d: seq<Row>, row: Row, k: Key)
    ensures Find(Put(d, row), k) == if k == row.key then Some(row) else Find(d, k)
    ensures Find(Del(d, row.key), k) == if k == row.key then None else Find(d, k)
  {
    if d != [] { FindAfter(d[1..], row, k); }
  }

  lemma {:induction false} PutMembers(d: seq<Row>, row: Row)
    ensures forall r :: r in Put(d, row) ==> r == row || r in d
  {
    if d != [] && d[0].key != row.key { PutMembers(d[1..], row); }
  }

  lemma {:induction false} PutSize(d: seq<Row>, row: Row)
    ensures Find(d, row.key).None? ==> Put(d, row) == d + [row]
    ensures Bytes(Put(d, row)) <= Bytes(d) + row.width + 1
  {
    if d != [] && d[0].key != row.key { PutSize(d[1..], row); }
  }

  lemma DictCons(x: Row, d: seq<Row>)
    requires IsDict(d) && x.Open? && forall r :: r in d ==> r.key != x.key
    ensures IsDict([x] + d)
  {
    forall i, j | 0 <= i < j < |[x] + d| ensures ([x] + d)[i].key != ([x] + d)[j].key {
      assert d[j - 1] in d;
    }
  }

  lemma {:induction false} PutIsDict(d: seq<Row>, row: Row)
    requires IsDict(d) && row.Open?
    ensures IsDict(Put(d, row))
  {
    if d != [] && d[0].key != row.key {
      PutIsDict(d[1..], row);
      PutMembers(d[1..], row);
      DictCons(d[0], Put(d[1..], row));
    }
  }

  lemma {:induction false} DelKeys(d: seq<Row>, k: Key)
    requires IsDict(d)
    ensures IsDict(Del(d, k))
    ensures forall r :: r in Del(d, k) <==> r in d && r.key != k
    ensures Bytes(Del(d, k)) <= Bytes(d)
  {
    if d != [] { DelKeys(d[1..], k); }
  }

  function Bytes(rows: seq<Row>): nat {
    if rows == [] then 0 else rows[0].width + 1 + Bytes(rows[1..])
  }

  lemma {:induction false} FoldKeeps(d: seq<Row>, rows: seq<Row>)
    requires IsDict(d)
    ensures IsDict(FoldFrom(d, rows)) && Bytes(FoldFrom(d, rows)) <= Bytes(d) + Bytes(rows)
    decreases |rows|
  {
    if rows != [] {
      if rows[0].Open? { PutIsDict(d, rows[0]); PutSize(d, rows[0]); } else { DelKeys(d, rows[0].key); }
      FoldKeeps(Apply(d, rows[0]), rows[1..]);
    }
  }

  lemma {:induction false} FoldConcat(d: seq<Row>, a: seq<Row>, b: seq<Row>)
    ensures FoldFrom(d, a + b) == FoldFrom(FoldFrom(d, a), b)
    decreases |a|
  {
    if a == [] {
      assert a + b == b;
    } else {
      TailOfConcat(a, b);
      FoldConcat(Apply(d, a[0]), a[1..], b);
    }
  }

  lemma {:induction false} FoldOfDict(d: seq<Row>, e: seq<Row>)
    requires IsDict(d + e)
    ensures FoldFrom(d, e) == d + e
    decreases |e|
  {
    if e == [] {
      assert d + e == d;
    } else {
      assert forall i :: 0 <= i < |d| ==> (d + e)[i] == d[i];
      assert (d + e)[|d|] == e[0];
      FindIsMember(d, e[0].key);
      assert IsDict(d);
      PutIsDict(d, e[0]);
      PutSize(d, e[0]);
      assert d + [e[0]] + e[1..] == d + e;
      FoldOfDict(d + [e[0]], e[1..]);
    }
  }

  /** Compaction is invisible to the future: the rewritten log and the old one fold to the same
      rows in the same order, whatever is appended to both. */
  lemma CompactionIsInvisible(rows: seq<Row>, more: seq<Row>)
    ensures FoldFrom([], FoldFrom([], rows) + more) == FoldFrom([], rows + more)
  {
    var d := FoldFrom([], rows);
    FoldKeeps([], rows);
    assert [] + d == d;
    FoldOfDict([], d);
    FoldConcat([], d, more);
    FoldConcat([], rows, more);
  }

  // ---------------------------------------------------------------- reading the file --

  function Size(l: Line): nat { (if l.Good? then l.row.width else l.width) + 1 }

  function Total(ls: seq<Line>): nat {
    if ls == [] then 0 else Size(ls[0]) + Total(ls[1..])
  }

  function Rows(ls: seq<Line>): seq<Row> {
    if ls == [] then [] else if ls[0].Good? then [ls[0].row] + Rows(ls[1..]) else Rows(ls[1..])
  }

  function Rewritten(d: seq<Row>): seq<Line> {
    if d == [] then [] else [Good(d[0])] + Rewritten(d[1..])
  }

  /** The seek lands inside (or at the start of) a line, and `readline` drops that line. */
  function Cut(ls: seq<Line>): seq<Line> {
    if Total(ls) < SCAN_MAX_BYTES then ls else Cut(ls[1..])
  }

  /** The lines `_read_rows` sees. */
  function Tail(ls: seq<Line>): seq<Line> {
    if Total(ls) <= SCAN_MAX_BYTES then ls else Cut(ls)
  }

  /** The open rows a reader of the file sees. */
  function Seen(ls: seq<Line>): seq<Row> { FoldFrom([], Rows(Tail(ls))) }

  /** `_append`, with the compaction it may set off. */
  function Appended(ls: seq<Line>, row: Row): seq<Line> {
    var ls' := ls + [Good(row)];
    if |Tail(ls')| > COMPACT_ROWS then Rewritten(Seen(ls')) else ls'
  }

  lemma {:induction false} RowsConcat(a: seq<Line>, b: seq<Line>)
    ensures Rows(a + b) == Rows(a) + Rows(b) && Total(a + b) == Total(a) + Total(b)
  {
    if a == [] {
      assert a + b == b;
    } else {
      TailOfConcat(a, b);
      RowsConcat(a[1..], b);
    }
  }

  lemma {:induction false} RewrittenRows(d: seq<Row>)
    ensures Rows(Rewritten(d)) == d && Total(Rewritten(d)) == Bytes(d)
  {
    if d != [] { RewrittenRows(d[1..]); }
  }

  lemma {:induction false} RowsFit(ls: seq<Line>)
    ensures Bytes(Rows(ls)) <= Total(ls)
  {
    if ls != [] { RowsFit(ls[1..]); }
  }

  /** The whole log's open rows, which a reader within the scan bound sees. */
  function Held(ls: seq<Line>): seq<Row> { FoldFrom([], Rows(ls)) }

  /** Within the scan bound an append, compacting or not, adds exactly its row to the fold and
      never grows the file by more than the row. */
  lemma AppendWithinBound(ls: seq<Line>, row: Row)
    requires Total(ls) + row.width + 1 <= SCAN_MAX_BYTES
    ensures var ls' := Appended(ls, row);
            && Held(ls') == Apply(Held(ls), row) && Seen(ls') == Held(ls')
            && Total(ls') <= Total(ls) + row.width + 1
  {
    var plain := ls + [Good(row)];
    RowsConcat(ls, [Good(row)]);
    assert Rows([Good(row)]) == [row];
    FoldConcat([], Rows(ls), [row]);
    assert FoldFrom(Held(ls), [row]) == Apply(Held(ls), row);
    FoldKeeps([], Rows(plain));
    RowsFit(plain);
    RewrittenRows(Held(plain));
    CompactionIsInvisible(Rows(plain), []);
    assert Held(plain) + [] == Held(plain) && Rows(plain) + [] == Rows(plain);
  }

  // ---------------------------------------------------------------- nothing is invented --

  /** Every open gate of `d` is open in `e`, with the same row. */
  ghost predicate Within(d: seq<Row>, e: seq<Row>) {
    forall k :: Find(d, k).Some? ==> Find(e, k) == Find(d, k)
  }

  lemma {:induction false} FoldIsMonotone(d: seq<Row>, e: seq<Row>, rows: seq<Row>)
    requires Within(d, e)
    ensures Within(FoldFrom(d, rows), FoldFrom(e, rows))
    decreases |rows|
  {
    if rows != [] {
      forall k ensures Find(Apply(d, rows[0]), k).Some? ==> Find(Apply(e, rows[0]), k) == Find(Apply(d, rows[0]), k) {
        FindAfter(d, rows[0], k);
        FindAfter(e, rows[0], k);
      }
      FoldIsMonotone(Apply(d, rows[0]), Apply(e, rows[0]), rows[1..]);
    }
  }

  lemma {:induction false} CutIsSuffix(ls: seq<Line>) returns (dropped: seq<Line>)
    ensures ls == dropped + Cut(ls)
  {
    if Total(ls) < SCAN_MAX_BYTES {
      dropped := [];
    } else {
      var rest := CutIsSuffix(ls[1..]);
      dropped := [ls[0]] + rest;
    }
  }

  /** A tail-bounded read may miss an open gate but never invents one. */
  lemma TailReadInventsNothing(ls: seq<Line>)
    ensures Within(Seen(ls), Held(ls))
  {
    if Total(ls) > SCAN_MAX_BYTES {
      var dropped := CutIsSuffix(ls);
      RowsConcat(dropped, Cut(ls));
      FoldConcat([], Rows(dropped), Rows(Cut(ls)));
      FoldIsMonotone([], FoldFrom([], Rows(dropped)), Rows(Cut(ls)));
    }
  }

  lemma TailFits(ls: seq<Line>)
    ensures Total(Tail(ls)) <= SCAN_MAX_BYTES
  {
    CutFits(ls);
  }

  lemma {:induction false} CutFits(ls: seq<Line>)
    ensures Total(Cut(ls)) < SCAN_MAX_BYTES
  {
    if Total(ls) >= SCAN_MAX_BYTES { CutFits(ls[1..]); }
  }

  /** What happens to the log: a row is appended, a line no reader parses, a forced compaction. */
  datatype Event = Append(row: Row) | Scrap(width: nat) | Compaction

  function After(ls: seq<Line>, evs: seq<Event>): seq<Line> {
    if evs == [] then ls
    else
      var before := After(ls, evs[..|evs| - 1]);
      match evs[|evs| - 1]
      case Append(row) => Appended(before, row)
      case Scrap(width) => before + [Junk(width)]
      case Compaction => Rewritten(Seen(before))
  }

  /** The complete history of rows. */
  function History(evs: seq<Event>): seq<Row> {
    if evs == [] then []
    else
      match evs[|evs| - 1]
      case Append(row) => History(evs[..|evs| - 1]) + [row]
      case _ => History(evs[..|evs| - 1])
  }

  /** A compaction leaves what its own tail-bounded read showed. */
  lemma CompactedShows(ls: seq<Line>)
    ensures Held(Rewritten(Seen(ls))) == Seen(ls)
  {
    FoldKeeps([], Rows(Tail(ls)));
    RewrittenRows(Seen(ls));
    CompactionIsInvisible(Rows(Tail(ls)), []);
    assert Seen(ls) + [] == Seen(ls) && Rows(Tail(ls)) + [] == Rows(Tail(ls));
  }

  lemma PlainAppendInventsNothing(ls: seq<Line>, front: seq<Row>, row: Row)
    requires Within(Held(ls), FoldFrom([], front))
    ensures Within(Held(ls + [Good(row)]), FoldFrom([], front + [row]))
  {
    RowsConcat(ls, [Good(row)]);
    assert Rows([Good(row)]) == [row];
    FoldConcat([], Rows(ls), [row]);
    FoldConcat([], front, [row]);
    FoldIsMonotone(Held(ls), FoldFrom([], front), [row]);
  }

  lemma AppendInventsNothing(ls: seq<Line>, front: seq<Row>, row: Row)
    requires Within(Held(ls), FoldFrom([], front))
    ensures Within(Held(Appended(ls, row)), FoldFrom([], front + [row]))
  {
    var plain := ls + [Good(row)];
    PlainAppendInventsNothing(ls, front, row);
    TailReadInventsNothing(plain);
    CompactedShows(plain);
  }

  lemma ScrapChangesNothing(ls: seq<Line>, width: nat)
    ensures Held(ls + [Junk(width)]) == Held(ls) && Total(ls + [Junk(width)]) == Total(ls) + width + 1
  {
    RowsConcat(ls, [Junk(width)]);
    assert Rows([Junk(width)]) == [] && Rows(ls) + [] == Rows(ls);
  }

  /** From any log, whatever rows any writers append, whatever junk gets in between and however
      often tail-bounded compactions, forced or not, lose some: the index never shows a gate open
      that the complete history does not. */
  lemma {:induction false} IndexInventsNothing(ls: seq<Line>, evs: seq<Event>)
    ensures Within(Held(After(ls, evs)), FoldFrom([], Rows(ls) + History(evs)))
    ensures Within(Seen(After(ls, evs)), FoldFrom([], Rows(ls) + History(evs)))
    decreases |evs|
  {
    if evs == [] {
      assert Rows(ls) + [] == Rows(ls);
    } else {
      var front := evs[..|evs| - 1];
      var before := After(ls, front);
      IndexInventsNothing(ls, front);
      match evs[|evs| - 1] {
        case Append(row) =>
          AppendInventsNothing(before, Rows(ls) + History(front), row);
          assert Rows(ls) + History(front) + [row] == Rows(ls) + History(evs);
        case Scrap(width) => ScrapChangesNothing(before, width);
        case Compaction => CompactedShows(before);
      }
    }
    TailReadInventsNothing(After(ls, evs));
  }

  /** The bytes an event adds to the file before any compaction. */
  function EventSize(e: Event): nat {
    match e
    case Append(row) => row.width + 1
    case Scrap(width) => width + 1
    case Compaction => 0
  }

  /** The file fits the scan bound to begin with, and together with each line that comes in. */
  predicate StaysWithin(ls: seq<Line>, evs: seq<Event>) {
    if evs == [] then Total(ls) <= SCAN_MAX_BYTES
    else
      && StaysWithin(ls, evs[..|evs| - 1])
      && Total(After(ls, evs[..|evs| - 1])) + EventSize(evs[|evs| - 1]) <= SCAN_MAX_BYTES
  }

  lemma CompactWithinBound(ls: seq<Line>)
    requires Total(ls) <= SCAN_MAX_BYTES
    ensures Held(Rewritten(Seen(ls))) == Held(ls) && Total(Rewritten(Seen(ls))) <= Total(ls)
  {
    CompactedShows(ls);
    FoldKeeps([], Rows(ls));
    RowsFit(ls);
    RewrittenRows(Held(ls));
  }

  /** One event on a file that fits with it. */
  lemma EventWithinBound(ls: seq<Line>, e: Event)
    requires Total(ls) + EventSize(e) <= SCAN_MAX_BYTES
    ensures var ls' := After(ls, [e]);
            && Held(ls') == FoldFrom(Held(ls), History([e]))
            && Total(ls') <= Total(ls) + EventSize(e)
  {
    assert [e][..0] == [];
    match e
    case Append(row) =>
      AppendWithinBound(ls, row);
      assert History([e]) == [row] && FoldFrom(Held(ls), [row]) == Apply(Held(ls), row);
    case Scrap(width) => ScrapChangesNothing(ls, width);
    case Compaction => CompactWithinBound(ls);
  }

  /** A line that comes in makes the file larger by just its size; a compaction asks for no room. */
  lemma EventGrowsTheFile(ls: seq<Line>, e: Event)
    ensures e.Append? ==> Total(ls + [Good(e.row)]) == Total(ls) + EventSize(e)
    ensures e.Scrap? ==> Total(After(ls, [e])) == Total(ls) + EventSize(e)
    ensures e.Compaction? && Total(ls) <= SCAN_MAX_BYTES ==> Total(ls) + EventSize(e) <= SCAN_MAX_BYTES
  {
    assert [e][..0] == [];
    if e.Append? { RowsConcat(ls, [Good(e.row)]); }
    if e.Scrap? { ScrapChangesNothing(ls, e.width); }
  }

  lemma LastEvent(ls: seq<Line>, evs: seq<Event>)
    requires evs != []
    ensures var front, e := evs[..|evs| - 1], evs[|evs| - 1];
            After(ls, evs) == After(After(ls, front), [e]) && History(evs) == History(front) + History([e])
  {
    var front, e := evs[..|evs| - 1], evs[|evs| - 1];
    assert [e][..0] == [];
    assert History(front) + [] == History(front);
  }

  /** As long as the file fits the scan bound, line by line, the index shows exactly the open gates
      of the complete history, in the order of their opening, however long that history is. */
  lemma {:induction false} IndexIsExactWithinBound(ls: seq<Line>, evs: seq<Event>)
    requires StaysWithin(ls, evs)
    ensures var all := FoldFrom([], Rows(ls) + History(evs));
            Seen(After(ls, evs)) == all && Held(After(ls, evs)) == all
    ensures Total(After(ls, evs)) <= SCAN_MAX_BYTES
    decreases |evs|
  {
    if evs == [] {
      assert Rows(ls) + [] == Rows(ls);
    } else {
      var front, e := evs[..|evs| - 1], evs[|evs| - 1];
      IndexIsExactWithinBound(ls, front);
      EventWithinBound(After(ls, front), e);
      LastEvent(ls, evs);
      FoldConcat([], Rows(ls) + History(front), History([e]));
      assert Rows(ls) + History(front) + History([e]) == Rows(ls) + History(evs);
    }
  }

  function EventBytes(evs: seq<Event>): nat {
    if evs == [] then 0 else EventBytes(evs[..|evs| - 1]) + EventSize(evs[|evs| - 1])
  }

  /** It does when everything that comes in fits the bound together. */
  lemma {:induction false} FitsTogether(ls: seq<Line>, evs: seq<Event>)
    requires Total(ls) + EventBytes(evs) <= SCAN_MAX_BYTES
    ensures StaysWithin(ls, evs) && Total(After(ls, evs)) <= Total(ls) + EventBytes(evs)
    decreases |evs|
  {
    if evs != [] {
      FitsTogether(ls, evs[..|evs| - 1]);
      EventWithinBound(After(ls, evs[..|evs| - 1]), evs[|evs| - 1]);
      LastEvent(ls, evs);
    }
  }

  // ---------------------------------------------------------------- compaction keeps it small --

  /** So many bytes, with the line break, a row may have for 501 of them to fit the scan bound. */
  const ROW_BYTES := 2092

  /** The index's own calls alone write the file, with rows of that size, and never more than 500
      gates are open after one. */
  predicate Modest(evs: seq<Event>) {
    evs != [] ==>
      && Modest(evs[..|evs| - 1])
      && !evs[|evs| - 1].Scrap? && EventSize(evs[|evs| - 1]) <= ROW_BYTES
      && |FoldFrom([], History(evs))| <= COMPACT_ROWS
  }

  predicate SmallRows(rows: seq<Row>) { forall r :: r in rows ==> r.width + 1 <= ROW_BYTES }

  predicate SmallLines(ls: seq<Line>) { forall l :: l in ls ==> Size(l) <= ROW_BYTES }

  lemma {:induction false} DelMembers(d: seq<Row>, k: Key)
    ensures forall r :: r in Del(d, k) ==> r in d
  {
    if d != [] { DelMembers(d[1..], k); }
  }

  lemma {:induction false} FoldSmall(d: seq<Row>, rows: seq<Row>)
    requires SmallRows(d) && SmallRows(rows)
    ensures SmallRows(FoldFrom(d, rows))
    decreases |rows|
  {
    if rows != [] {
      if rows[0].Open? { PutMembers(d, rows[0]); } else { DelMembers(d, rows[0].key); }
      FoldSmall(Apply(d, rows[0]), rows[1..]);
    }
  }

  lemma {:induction false} SmallTotal(ls: seq<Line>)
    requires SmallLines(ls)
    ensures Total(ls) <= |ls| * ROW_BYTES && SmallRows(Rows(ls))
  {
    if ls != [] { SmallTotal(ls[1..]); }
  }

  lemma {:induction false} RewrittenSmall(d: seq<Row>)
    requires SmallRows(d)
    ensures SmallLines(Rewritten(d)) && |Rewritten(d)| == |d|
  {
    if d != [] { RewrittenSmall(d[1..]); }
  }

  /** A compaction of a small file leaves one line for each open gate. */
  lemma CompactSmall(ls: seq<Line>)
    requires SmallLines(ls) && |ls| <= COMPACT_ROWS + 1
    ensures Total(ls) <= SCAN_MAX_BYTES
    ensures SmallLines(Rewritten(Seen(ls))) && |Rewritten(Seen(ls))| == |Held(ls)|
  {
    SmallTotal(ls);
    FoldSmall([], Rows(ls));
    RewrittenSmall(Held(ls));
  }

  /** One such call on a small file: it fits the bound together with its row, and is small after. */
  lemma {:induction false} EventSmall(ls: seq<Line>, e: Event)
    requires SmallLines(ls) && |ls| <= COMPACT_ROWS
    requires !e.Scrap? && EventSize(e) <= ROW_BYTES
    requires |Held(After(ls, [e]))| <= COMPACT_ROWS
    ensures Total(ls) + EventSize(e) <= SCAN_MAX_BYTES
    ensures SmallLines(After(ls, [e])) && |After(ls, [e])| <= COMPACT_ROWS
  {
    assert [e][..0] == [];
    SmallTotal(ls);
    match e
    case Append(row) =>
      var plain := ls + [Good(row)];
      CompactSmall(plain);
      if |plain| > COMPACT_ROWS { CompactedShows(plain); }
    case Compaction =>
      CompactSmall(ls);
      CompactedShows(ls);
  }

  /** Compaction keeps the file far below the scan bound: from an empty log, with rows of at most
      2092 bytes and at most 500 gates open at a time, the log never exceeds 500 lines and shows
      for ever exactly the open gates of everything ever written. */
  lemma {:induction false} CompactionKeepsItSmall(evs: seq<Event>)
    requires Modest(evs)
    ensures StaysWithin([], evs) && |After([], evs)| <= COMPACT_ROWS && SmallLines(After([], evs))
    ensures Seen(After([], evs)) == FoldFrom([], History(evs)) == Held(After([], evs))
    decreases |evs|
  {
    if evs != [] {
      var front, e := evs[..|evs| - 1], evs[|evs| - 1];
      CompactionKeepsItSmall(front);
      var ls := After([], front);
      LastEvent([], evs);
      SmallTotal(ls);
      EventWithinBound(ls, e);
      FoldConcat([], History(front), History([e]));
      EventSmall(ls, e);
    }
    IndexIsExactWithinBound([], evs);
    assert Rows([]) + History(evs) == History(evs);
  }

  // ---------------------------------------------------------------- what a log says of one gate --

  /** What the rows say of a gate that was in state `o`: the last row naming it decides. */
  function LastSays(o: Option<Row>, rows: seq<Row>, k: Key): Option<Row> {
    if rows == [] then o
    else
      var r := rows[|rows| - 1];
      if r.key != k then LastSays(o, rows[..|rows| - 1], k) else if r.Open? then Some(r) else None
  }

  lemma FoldOne(d: seq<Row>, row: Row)
    ensures FoldFrom(d, [row]) == Apply(d, row)
  {
    assert [row][1..] == [];
  }

  /** A gate is open exactly when the last row naming it opens it, with that row. */
  lemma {:induction false} LastRowDecides(d: seq<Row>, rows: seq<Row>, k: Key)
    ensures Find(FoldFrom(d, rows), k) == LastSays(Find(d, k), rows, k)
    decreases |rows|
  {
    if rows != [] {
      var front, r := rows[..|rows| - 1], rows[|rows| - 1];
      LastRowDecides(d, front, k);
      assert rows == front + [r];
      FoldConcat(d, front, [r]);
      FoldOne(FoldFrom(d, front), r);
      FindAfter(FoldFrom(d, front), r, k);
    }
  }

  lemma {:induction false} LastSaysConcat(o: Option<Row>, a: seq<Row>, b: seq<Row>, k: Key)
    ensures LastSays(o, a + b, k) == LastSays(LastSays(o, a, k), b, k)
    decreases |b|
  {
    if b == [] {
      assert a + b == a;
    } else {
      assert (a + b)[..|a + b| - 1] == a + b[..|b| - 1];
      LastSaysConcat(o, a, b[..|b| - 1], k);
    }
  }
}
