/** Text as the card hook walks it, with `\n` as the only line break. */
module TextLines {
  /** `text.split("\n")` */
  function Split(s: string): (pieces: seq<string>)
    ensures pieces != []
  {
    if s == "" then [""]
    else if s[0] == '\n' then [""] + Split(s[1..])
    else [[s[0]] + Split(s[1..])[0]] + Split(s[1..])[1..]
  }

  /** `text.splitlines()`: a break at the very end opens no further line. */
  function Lines(s: string): seq<string> {
    var p := Split(s);
    if p[|p| - 1] == "" then p[..|p| - 1] else p
  }

  function Join(ls: seq<string>): string {
    if ls == [] then "" else if |ls| == 1 then ls[0] else ls[0] + "\n" + Join(ls[1..])
  }

  predicate Blank(c: char) { c in {' ', '\t', '\n', '\r'} }

  function Lstrip(s: string): string {
    if s != "" && Blank(s[0]) then Lstrip(s[1..]) else s
  }

  function Rstrip(s: string): string {
    if s != "" && Blank(s[|s| - 1]) then Rstrip(s[..|s| - 1]) else s
  }

  lemma SplitCons(c: char, s: string)
    ensures var p := Split(s);
            Split([c] + s) == if c == '\n' then [""] + p else [[c] + p[0]] + p[1..]
  {
    assert ([c] + s)[1..] == s;
  }

  lemma {:induction false} Uncons(a: string, m: string, b: string)
    requires a != ""
    ensures a == [a[0]] + a[1..] && a + m + b == [a[0]] + (a[1..] + m + b)
  {
  }

  lemma {:induction false} SplitAtBreak(a: string, b: string)
    ensures Split(a + ['\n'] + b) == Split(a) + Split(b)
  {
    if a == "" {
      SplitCons('\n', b);
      assert a + ['\n'] + b == ['\n'] + b;
    } else {
      var c, rest := a[0], a[1..];
      SplitAtBreak(rest, b);
      SplitCons(c, rest + ['\n'] + b);
      SplitCons(c, rest);
      Uncons(a, ['\n'], b);
      Regroup([c], Split(rest), Split(b));
    }
  }

  /** A break at the very end opens no line; the pieces of any other text are its lines. */
  lemma {:induction false} LinesAre(s: string)
    ensures Lines(s + ['\n']) == Split(s)
    ensures Lines("") == []
    ensures s != "" && s[|s| - 1] != '\n' ==> Lines(s) == Split(s)
  {
    SplitAtBreak(s, "");
    assert s + ['\n'] + "" == s + ['\n'];
    if s != "" && s[|s| - 1] != '\n' {
      SplitSnoc(s[..|s| - 1], s[|s| - 1]);
      assert s[..|s| - 1] + [s[|s| - 1]] == s;
    }
  }

  lemma Regroup(front: string, ps: seq<string>, qs: seq<string>)
    requires ps != []
    ensures [front + (ps + qs)[0]] + (ps + qs)[1..] == ([front + ps[0]] + ps[1..]) + qs
    ensures [""] + (ps + qs) == ([""] + ps) + qs
  {
  }

  /** A character that is no break lengthens the last piece. */
  lemma {:induction false} SplitSnoc(a: string, c: char)
    requires c != '\n'
    ensures Split(a + [c]) == Longer(Split(a), c)
  {
    if a == "" {
      SplitCons(c, "");
      assert a + [c] == [c] + "";
    } else {
      var d, rest := a[0], a[1..];
      SplitSnoc(rest, c);
      SplitCons(d, rest);
      SplitCons(d, rest + [c]);
      assert a == [d] + rest && a + [c] == [d] + (rest + [c]);
      LongerCons(d, Split(rest), c);
    }
  }

  lemma LongerCons(d: char, ps: seq<string>, c: char)
    requires ps != []
    ensures Longer([""] + ps, c) == [""] + Longer(ps, c)
    ensures Longer([[d] + ps[0]] + ps[1..], c) == [[d] + Longer(ps, c)[0]] + Longer(ps, c)[1..]
  {
    assert [d] + (ps[0] + [c]) == [d] + ps[0] + [c];
  }

  function Longer(p: seq<string>, c: char): seq<string>
    requires p != []
  {
    p[..|p| - 1] + [p[|p| - 1] + [c]]
  }

  lemma {:induction false} LstripSnoc(s: string, c: char)
    requires Blank(c)
    ensures Lstrip(s + [c]) == if Lstrip(s) == "" then "" else Lstrip(s) + [c]
  {
    if s == "" {
      assert s + [c] == [c] && [c][1..] == "";
    } else if Blank(s[0]) {
      LstripSnoc(s[1..], c);
      assert (s + [c])[1..] == s[1..] + [c];
    }
  }

  /** A prefix without `c` is not found across `c`. */
  lemma PrefixStops(m: string, a: string, c: char, b: string)
    requires c !in m
    ensures m <= a + [c] + b <==> m <= a
  {
    if |m| > |a| {
      assert (a + [c] + b)[|a|] == c;
      assert m[|a|] != c;
    }
  }
}
