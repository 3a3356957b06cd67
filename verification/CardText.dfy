/**
 What the card hook reads in a reply and what it appends to it: the walk that blanks code out
 before directives are looked for, the walk that finds an open fence, and the augmented text.
*/
module CardText {
  import opened Wrappers
  import opened TextLines

  const DIRECTIVE := "::workflow{id=\""
  const CLOSING := "\"}"

  predicate Ident(c: char) {
    'A' <= c <= 'Z' || 'a' <= c <= 'z' || '0' <= c <= '9' || c in {'.', '_', '-'}
  }

  predicate RunId(rid: string) {
    rid != "" && forall i :: 0 <= i < |rid| ==> Ident(rid[i])
  }

  /** The door's one card grammar. */
  function Card(rid: string): string { DIRECTIVE + rid + CLOSING }

  // ---------------------------------------------------------------- recognition --

  function IdentLen(s: string): (n: nat)
    ensures n <= |s|
  {
    if s != "" && Ident(s[0]) then 1 + IdentLen(s[1..]) else 0
  }

  /** Length of the id of a directive that starts here; 0 if none does. */
  function IdHere(s: string): (n: nat)
    ensures n > 0 ==> |DIRECTIVE| + n + |CLOSING| <= |s|
  {
    if DIRECTIVE <= s then
      var n := IdentLen(s[|DIRECTIVE|..]);
      if CLOSING <= s[|DIRECTIVE| + n..] then n else 0
    else 0
  }

  /** `_DIRECTIVE.findall` */
  function FindIds(s: string): seq<string> {
    if s == "" then []
    else if IdHere(s) > 0 then
      [s[|DIRECTIVE|..|DIRECTIVE| + IdHere(s)]] + FindIds(s[|DIRECTIVE| + IdHere(s) + |CLOSING|..])
    else FindIds(s[1..])
  }

  function IndexOf(s: string, c: char): (i: nat)
    ensures i <= |s|
  {
    if s == "" || s[0] == c then 0 else 1 + IndexOf(s[1..], c)
  }

  /** `_INLINE_CODE.sub("", line)`: backtick pairs and what they enclose go; a lone one stays. */
  function WithoutInline(line: string): string
    decreases |line|
  {
    if line == "" then ""
    else if line[0] != '`' then [line[0]] + WithoutInline(line[1..])
    else
      var j := IndexOf(line[1..], '`');
      if j == |line| - 1 then line else WithoutInline(line[j + 2..])
  }

  // ---------------------------------------------------------------- the fence walk --

  predicate Mark(s: string) { "```" <= s || "~~~" <= s }

  /** The fence after a line. */
  function FenceAfter(fence: Option<string>, line: string): Option<string> {
    var stripped := Lstrip(line);
    if fence.None? then (if Mark(stripped) then Some(stripped[..3]) else None)
    else if fence.value <= stripped then None else fence
  }

  /** What `_strip_code` keeps of a line. */
  function Shown(fence: Option<string>, line: string): string {
    if fence.None? && !Mark(Lstrip(line)) then WithoutInline(line) else ""
  }

  function FenceOver(fence: Option<string>, ls: seq<string>): Option<string>
    decreases |ls|
  {
    if ls == [] then fence else FenceOver(FenceAfter(fence, ls[0]), ls[1..])
  }

  function ShownAll(fence: Option<string>, ls: seq<string>): (out: seq<string>)
    ensures |out| == |ls|
    decreases |ls|
  {
    if ls == [] then [] else [Shown(fence, ls[0])] + ShownAll(FenceAfter(fence, ls[0]), ls[1..])
  }

  function BareIds(text: string): seq<string> {
    FindIds(Join(ShownAll(None, Lines(text))))
  }

  /** `_strip_code` */
  method StripCode(text: string) returns (code: string)
    ensures code == Join(ShownAll(None, Lines(text)))
  {
    var ls := Lines(text);
    var out, fence := [], None;
    for i := 0 to |ls|
      invariant ShownAll(None, ls) == out + ShownAll(fence, ls[i..])
    {
      assert ls[i..][1..] == ls[i + 1..];
      ghost var before := out;
      ghost var rest := ShownAll(FenceAfter(fence, ls[i]), ls[i + 1..]);
      assert ShownAll(None, ls) == before + ([Shown(fence, ls[i])] + rest) == (before + [Shown(fence, ls[i])]) + rest;
      var stripped := Lstrip(ls[i]);
      if fence.None? {
        if Mark(stripped) {
          fence := Some(stripped[..3]);
          out := out + [""];
        } else {
          out := out + [WithoutInline(ls[i])];
        }
      } else {
        out := out + [""];
        if fence.value <= stripped { fence := None; }
      }
    }
    assert ls[|ls|..] == [] && out + [] == out;
    code := Join(out);
  }

  /** `_bare_directive_ids` */
  method BareDirectiveIds(text: string) returns (ids: seq<string>)
    ensures ids == BareIds(text)
  {
    var code := StripCode(text);
    ids := FindIds(code);
  }

  /** `_open_fence` */
  method OpenFence(text: string) returns (mark: Option<string>)
    ensures mark == FenceOver(None, Lines(text))
  {
    var ls := Lines(text);
    mark := None;
    for i := 0 to |ls|
      invariant FenceOver(None, ls) == FenceOver(mark, ls[i..])
    {
      assert ls[i..][1..] == ls[i + 1..];
      var stripped := Lstrip(ls[i]);
      if mark.None? {
        if Mark(stripped) { mark := Some(stripped[..3]); }
      } else if mark.value <= stripped {
        mark := None;
      }
    }
  }

  function Cards(take: seq<string>): string {
    if take == [] then "" else if |take| == 1 then Card(take[0]) else Card(take[0]) + "\n\n" + Cards(take[1..])
  }

  /** The text `_propose` builds. */
  method Augment(text: string, take: seq<string>) returns (out: string)
    ensures out == Augmented(text, take)
  {
    out := Rstrip(text) + "\n\n" + Cards(take);
    var mark := OpenFence(text);
    if mark.Some? {
      out := Rstrip(text) + "\n\n" + mark.value + "\n\n" + Cards(take);
    }
  }

  function Augmented(text: string, take: seq<string>): string {
    var mark := FenceOver(None, Lines(text));
    Rstrip(text) + "\n\n" + (if mark.Some? then mark.value + "\n\n" else "") + Cards(take)
  }

  // ---------------------------------------------------------------- directives stop at blanks --

  lemma {:induction false} IdentLenStops(a: string, c: char, b: string)
    requires !Ident(c)
    ensures IdentLen(a + [c] + b) == IdentLen(a)
  {
    if a == "" {
      assert (a + [c] + b)[0] == c;
    } else {
      IdentLenStops(a[1..], c, b);
      assert (a + [c] + b)[1..] == a[1..] + [c] + b;
    }
  }

  lemma IdHereStops(a: string, c: char, b: string)
    requires Blank(c)
    ensures IdHere(a + [c] + b) == IdHere(a)
  {
    var s := a + [c] + b;
    PrefixStops(DIRECTIVE, a, c, b);
    if DIRECTIVE <= a {
      var tail := a[|DIRECTIVE|..];
      assert s[|DIRECTIVE|..] == tail + [c] + b;
      IdentLenStops(tail, c, b);
      var n := IdentLen(tail);
      assert s[|DIRECTIVE| + n..] == a[|DIRECTIVE| + n..] + [c] + b;
      PrefixStops(CLOSING, a[|DIRECTIVE| + n..], c, b);
    }
  }

  /** No directive reaches across a blank. */
  lemma {:induction false} FindIdsStops(a: string, c: char, b: string)
    requires Blank(c)
    ensures FindIds(a + [c] + b) == FindIds(a) + FindIds(b)
    decreases |a|
  {
    var s := a + [c] + b;
    IdHereStops(a, c, b);
    if a == "" {
      assert s[1..] == b;
      FindIdsMiss(s);
    } else if IdHere(a) > 0 {
      var n := |DIRECTIVE| + IdHere(a) + |CLOSING|;
      FindIdsStops(a[n..], c, b);
      assert s[n..] == a[n..] + [c] + b;
      HitBeforeBreak(a, s, a[n..] + [c] + b, FindIds(b));
    } else {
      assert s[1..] == a[1..] + [c] + b;
      FindIdsStops(a[1..], c, b);
      FindIdsMiss(s);
      FindIdsMiss(a);
    }
  }

  /** A text `s` that goes on after `a`: the first directive of `a` is its first as well. */
  lemma {:induction false} HitBeforeBreak(a: string, s: string, rest: string, more: seq<string>)
    requires IdHere(a) > 0 && IdHere(s) == IdHere(a) && a <= s
    requires s[|DIRECTIVE| + IdHere(a) + |CLOSING|..] == rest
    requires FindIds(rest) == FindIds(a[|DIRECTIVE| + IdHere(a) + |CLOSING|..]) + more
    ensures FindIds(s) == FindIds(a) + more
  {
    var m := |DIRECTIVE| + IdHere(a);
    FindIdsHit(a);
    FindIdsHit(s);
    assert s[|DIRECTIVE|..m] == a[|DIRECTIVE|..m];
    WalksTogether([a[|DIRECTIVE|..m]], FindIds(a[m + |CLOSING|..]), more);
  }

  lemma {:induction false} FindIdsHit(s: string)
    requires IdHere(s) > 0
    ensures FindIds(s) == [s[|DIRECTIVE|..|DIRECTIVE| + IdHere(s)]] + FindIds(s[|DIRECTIVE| + IdHere(s) + |CLOSING|..])
  {
  }

  lemma {:induction false} FindIdsMiss(s: string)
    requires IdHere(s) == 0 && s != ""
    ensures FindIds(s) == FindIds(s[1..])
  {
  }

  // ---------------------------------------------------------------- what is recognised --

  /** The characters of an id, by their codes. */
  lemma {:induction false} IdCharacterCodes(c: char)
    ensures var k := c as int;
            Ident(c) <==> k in {45, 46, 95} || 48 <= k < 58 || 65 <= k < 91 || 97 <= k < 123
  {
    assert '-' as int == 45 && '.' as int == 46 && '_' as int == 95;
    if c as int == 45 { assert c == '-'; }
    if c as int == 46 { assert c == '.'; }
    if c as int == 95 { assert c == '_'; }
  }

  lemma {:induction false} IdentLenIs(s: string)
    ensures forall i :: 0 <= i < IdentLen(s) ==> Ident(s[i])
    ensures IdentLen(s) < |s| ==> !Ident(s[IdentLen(s)])
  {
    if s != "" && Ident(s[0]) { IdentLenIs(s[1..]); }
  }

  /** A text starts with a directive of the id. */
  ghost predicate Directive(s: string, rid: string) {
    rid != "" && (forall c :: c in rid ==> Ident(c)) && Card(rid) <= s
  }

  /** A text that starts with a directive starts with one id's only. */
  lemma {:induction false} HereIsTheDirective(s: string, rid: string)
    ensures Directive(s, rid) <==> IdHere(s) > 0 && rid == s[|DIRECTIVE|..|DIRECTIVE| + IdHere(s)]
  {
    if Directive(s, rid) { DirectiveIsHere(s, rid); }
    if IdHere(s) > 0 && rid == s[|DIRECTIVE|..|DIRECTIVE| + IdHere(s)] {
      var d, n := |DIRECTIVE|, IdHere(s);
      IdentLenIs(s[d..]);
      assert forall i :: 0 <= i < n ==> rid[i] == s[d..][i];
      assert s == s[..d] + rid + s[d + n..];
    }
  }

  lemma {:induction false} DirectiveIsHere(s: string, rid: string)
    requires Directive(s, rid)
    ensures IdHere(s) == |rid| && rid == s[|DIRECTIVE|..|DIRECTIVE| + IdHere(s)]
  {
    var rest := s[|Card(rid)|..];
    assert s == DIRECTIVE + (rid + (CLOSING + rest));
    assert s[|DIRECTIVE|..] == rid + (CLOSING + rest);
    IdentLenOf(rid, CLOSING + rest);
    assert s[|DIRECTIVE| + |rid|..] == CLOSING + rest;
  }

  lemma {:induction false} NoColonsInside(s: string, k: nat)
    requires IdHere(s) > 0 && 0 < k < |DIRECTIVE| + IdHere(s) + |CLOSING|
    ensures s[k] == ':' ==> s[k + 1] != ':'
  {
    var d, n := |DIRECTIVE|, IdHere(s);
    var own := s[d..d + n];
    HereIsTheDirective(s, own);
    if k < d {
      assert s[k] == DIRECTIVE[k];
      if k == 1 { assert s[2] == DIRECTIVE[2]; }
    } else if k < d + n {
      assert s[k] == own[k - d] && own[k - d] in own;
    } else {
      assert s[k] == CLOSING[k - d - n];
    }
  }

  /** No directive starts inside another. */
  lemma {:induction false} NoneInside(s: string, k: nat, rid: string)
    requires IdHere(s) > 0 && 0 < k < |DIRECTIVE| + IdHere(s) + |CLOSING|
    ensures !Directive(s[k..], rid)
  {
    if DIRECTIVE <= s[k..] { assert s[k] == s[k..][0] == ':' && s[k + 1] == s[k..][1] == ':'; }
    NoColonsInside(s, k);
  }

  /** Some directive of the id starts in the text. */
  ghost predicate Holds(s: string, rid: string) { exists k :: 0 <= k <= |s| && Directive(s[k..], rid) }

  lemma {:induction false} HoldsFrom(s: string, n: nat, rid: string)
    requires n <= |s| && forall k :: 0 <= k < n ==> !Directive(s[k..], rid)
    ensures Holds(s, rid) <==> Holds(s[n..], rid)
  {
    var t := s[n..];
    if k :| 0 <= k <= |s| && Directive(s[k..], rid) { assert t[k - n..] == s[k..]; }
    if k :| 0 <= k <= |t| && Directive(t[k..], rid) { assert t[k..] == s[n + k..]; }
  }

  /** Recognition misses no directive of the text and finds nothing else. */
  lemma {:induction false} FindsExactlyTheDirectives(s: string, rid: string)
    ensures rid in FindIds(s) <==> Holds(s, rid)
    decreases |s|
  {
    HereIsTheDirective(s, rid);
    assert s[0..] == s;
    if s == "" {
    } else if IdHere(s) > 0 {
      var n := |DIRECTIVE| + IdHere(s) + |CLOSING|;
      FindsExactlyTheDirectives(s[n..], rid);
      FoundHere(s, n, rid);
    } else {
      FindsExactlyTheDirectives(s[1..], rid);
      HoldsFrom(s, 1, rid);
    }
  }

  lemma {:induction false} FoundHere(s: string, n: nat, rid: string)
    requires IdHere(s) > 0 && n == |DIRECTIVE| + IdHere(s) + |CLOSING|
    requires rid in FindIds(s[n..]) <==> Holds(s[n..], rid)
    ensures rid in FindIds(s) <==> Holds(s, rid)
  {
    var own := s[|DIRECTIVE|..|DIRECTIVE| + IdHere(s)];
    HereIsTheDirective(s, rid);
    FindIdsHit(s);
    assert s[0..] == s;
    if rid == own {
      assert Directive(s[0..], rid);
    } else {
      forall k | 0 <= k < n ensures !Directive(s[k..], rid) {
        if k > 0 { NoneInside(s, k, rid); }
      }
      HoldsFrom(s, n, rid);
    }
  }

  // ---------------------------------------------------------------- inline code --

  lemma {:induction false} IndexOfFirst(a: string, c: char, b: string)
    requires c !in a
    ensures IndexOf(a + [c] + b, c) == |a| && IndexOf(a, c) == |a|
  {
    if a == "" {
      assert (a + [c] + b)[0] == c;
    } else {
      IndexOfFirst(a[1..], c, b);
      assert (a + [c] + b)[1..] == a[1..] + [c] + b;
    }
  }

  lemma {:induction false} PlainStays(a: string, rest: string)
    requires '`' !in a
    ensures WithoutInline(a + rest) == a + WithoutInline(rest)
  {
    if a == "" {
      assert a + rest == rest;
    } else {
      PlainStays(a[1..], rest);
      assert (a + rest)[1..] == a[1..] + rest;
      assert [a[0]] + (a[1..] + WithoutInline(rest)) == a + WithoutInline(rest);
    }
  }

  /** The first pair of backticks goes with what it encloses, and the rest is read on from there. */
  lemma {:induction false} InlineGoes(a: string, b: string, c: string)
    requires '`' !in a && '`' !in b
    ensures WithoutInline(a + ("`" + b + "`" + c)) == a + WithoutInline(c)
  {
    var rest := "`" + b + "`" + c;
    PlainStays(a, rest);
    assert rest[1..] == b + ['`'] + c;
    IndexOfFirst(b, '`', c);
    assert rest[|b| + 2..] == c;
  }

  /** A text with no pair of backticks stays as it is. */
  lemma {:induction false} LoneTickStays(a: string, b: string)
    requires '`' !in a && '`' !in b
    ensures WithoutInline(a) == a && WithoutInline(a + ("`" + b)) == a + ("`" + b)
  {
    PlainStays(a, "");
    assert a + "" == a;
    PlainStays(a, "`" + b);
    assert ("`" + b)[1..] == b;
    IndexOfFirst(b, '`', "");
  }

  // ---------------------------------------------------------------- line by line --

  /** The live directives of lines read from a given fence state. */
  function LineIds(fence: Option<string>, ls: seq<string>): seq<string>
    decreases |ls|
  {
    if ls == [] then [] else FindIds(Shown(fence, ls[0])) + LineIds(FenceAfter(fence, ls[0]), ls[1..])
  }

  lemma {:induction false} IdsLineByLine(fence: Option<string>, ls: seq<string>)
    ensures FindIds(Join(ShownAll(fence, ls))) == LineIds(fence, ls)
    decreases |ls|
  {
    if ls != [] {
      var rest := ls[1..];
      IdsLineByLine(FenceAfter(fence, ls[0]), rest);
      var out := ShownAll(FenceAfter(fence, ls[0]), rest);
      assert ShownAll(fence, ls)[1..] == out;
      if |ls| > 1 {
        FindIdsStops(Shown(fence, ls[0]), '\n', Join(out));
      }
    }
  }

  lemma OneMoreLine(fence: Option<string>, l: string, ls: seq<string>)
    ensures LineIds(fence, [l] + ls) == FindIds(Shown(fence, l)) + LineIds(FenceAfter(fence, l), ls)
    ensures FenceOver(fence, [l] + ls) == FenceOver(FenceAfter(fence, l), ls)
  {
    assert ([l] + ls)[1..] == ls;
  }

  lemma {:induction false} WalkConcat(fence: Option<string>, a: seq<string>, b: seq<string>)
    ensures LineIds(fence, a + b) == LineIds(fence, a) + LineIds(FenceOver(fence, a), b)
    ensures FenceOver(fence, a + b) == FenceOver(FenceOver(fence, a), b)
    decreases |a|
  {
    if a == [] {
      assert a + b == b;
    } else {
      var l, rest := a[0], a[1..];
      assert a == [l] + rest && a + b == [l] + (rest + b);
      var next := FenceAfter(fence, l);
      WalkConcat(next, rest, b);
      OneMoreLine(fence, l, rest);
      OneMoreLine(fence, l, rest + b);
      WalksTogether(FindIds(Shown(fence, l)), LineIds(next, rest), LineIds(FenceOver(next, rest), b));
    }
  }

  lemma WalksTogether(a: seq<string>, b: seq<string>, c: seq<string>)
    ensures a + (b + c) == a + b + c
  {
  }

  predicate Fence(fence: Option<string>) {
    fence.None? || fence.value == "```" || fence.value == "~~~"
  }

  lemma {:induction false} WalkKeepsFence(fence: Option<string>, ls: seq<string>)
    requires Fence(fence)
    ensures Fence(FenceOver(fence, ls))
    decreases |ls|
  {
    if ls != [] {
      var s := Lstrip(ls[0]);
      assert "```" <= s ==> s[..3] == "```";
      assert "~~~" <= s ==> s[..3] == "~~~";
      WalkKeepsFence(FenceAfter(fence, ls[0]), ls[1..]);
    }
  }

  lemma BlankLine(fence: Option<string>)
    requires Fence(fence)
    ensures FenceOver(fence, [""]) == fence && LineIds(fence, [""]) == []
  {
    assert [""][1..] == [];
  }

  lemma {:induction false} LinesOrSplit(text: string)
    ensures LineIds(None, Lines(text)) == LineIds(None, Split(text))
    ensures FenceOver(None, Lines(text)) == FenceOver(None, Split(text))
  {
    var p := Split(text);
    if p[|p| - 1] == "" {
      var front := p[..|p| - 1];
      assert p == front + [""];
      WalkConcat(None, front, [""]);
      WalkKeepsFence(None, front);
      BlankLine(FenceOver(None, front));
    }
  }

  // ---------------------------------------------------------------- fences --

  lemma OpeningLine(mark: string, line: string)
    requires mark in {"```", "~~~"} && mark <= Lstrip(line)
    ensures LineIds(None, [line]) == [] && FenceOver(None, [line]) == Some(mark)
  {
    assert Lstrip(line)[..3] == mark;
    OneLine(None, line);
  }

  lemma {:induction false} InsideFence(mark: string, body: seq<string>)
    requires forall i :: 0 <= i < |body| ==> !(mark <= Lstrip(body[i]))
    ensures LineIds(Some(mark), body) == [] && FenceOver(Some(mark), body) == Some(mark)
    decreases |body|
  {
    if body != [] { InsideFence(mark, body[1..]); }
  }

  /**
   From a line that begins with a fence mark to the next line that begins with the same mark, or to
   the end when there is none, no directive is live.
  */
  lemma {:induction false} FenceHides(mark: string, opening: string, body: seq<string>, closing: string)
    requires mark in {"```", "~~~"} && mark <= Lstrip(opening) && mark <= Lstrip(closing)
    requires forall i :: 0 <= i < |body| ==> !(mark <= Lstrip(body[i]))
    ensures LineIds(None, [opening] + body) == [] && FenceOver(None, [opening] + body) == Some(mark)
    ensures LineIds(None, [opening] + body + [closing]) == [] && FenceOver(None, [opening] + body + [closing]) == None
  {
    OpeningLine(mark, opening);
    InsideFence(mark, body);
    WalkConcat(None, [opening], body);
    WalkConcat(None, [opening] + body, [closing]);
    OneLine(Some(mark), closing);
  }

  /** Outside every fence, a line that begins with no mark is read but for its inline code. */
  lemma PlainLineShows(line: string)
    requires !("```" <= Lstrip(line)) && !("~~~" <= Lstrip(line))
    ensures LineIds(None, [line]) == FindIds(WithoutInline(line)) && FenceOver(None, [line]) == None
  {
    OneLine(None, line);
  }

  // ---------------------------------------------------------------- stripping the end --

  lemma {:induction false} WithoutInlineSnoc(line: string, c: char)
    requires c != '`'
    ensures WithoutInline(line + [c]) == WithoutInline(line) + [c]
    decreases |line|
  {
    var l := line + [c];
    if line == "" {
      assert l == [c] && l[1..] == "";
    } else if line[0] != '`' {
      WithoutInlineSnoc(line[1..], c);
      assert l[1..] == line[1..] + [c];
    } else {
      assert l[1..] == line[1..] + [c];
      IndexOfSnoc(line[1..], '`', c);
      var j := IndexOf(line[1..], '`');
      if j < |line| - 1 {
        WithoutInlineSnoc(line[j + 2..], c);
        assert l[j + 2..] == line[j + 2..] + [c];
      }
    }
  }

  lemma {:induction false} IndexOfSnoc(s: string, q: char, c: char)
    requires c != q
    ensures IndexOf(s + [c], q) == if IndexOf(s, q) == |s| then |s| + 1 else IndexOf(s, q)
  {
    if s == "" {
      assert (s + [c])[1..] == "";
    } else {
      IndexOfSnoc(s[1..], q, c);
      assert (s + [c])[1..] == s[1..] + [c];
    }
  }

  lemma BlankAfterMark(fence: Option<string>, line: string, c: char)
    requires Fence(fence) && Blank(c)
    ensures Mark(Lstrip(line + [c])) <==> Mark(Lstrip(line))
    ensures FenceAfter(fence, line + [c]) == FenceAfter(fence, line)
  {
    var s := Lstrip(line);
    LstripSnoc(line, c);
    PrefixStops("```", s, c, "");
    PrefixStops("~~~", s, c, "");
    assert s + [c] + "" == s + [c];
    if Mark(s) { assert (s + [c])[..3] == s[..3]; }
  }

  /** A blank at the end of a line changes neither the fence nor the directives. */
  lemma BlankAtEndOfLine(fence: Option<string>, line: string, c: char)
    requires Fence(fence) && Blank(c)
    ensures FenceAfter(fence, line + [c]) == FenceAfter(fence, line)
    ensures FindIds(Shown(fence, line + [c])) == FindIds(Shown(fence, line))
  {
    BlankAfterMark(fence, line, c);
    WithoutInlineSnoc(line, c);
    FindIdsStops(WithoutInline(line), c, "");
    assert WithoutInline(line) + [c] + "" == WithoutInline(line) + [c];
  }

  lemma BlankAtEnd(text: string, c: char)
    requires Blank(c)
    ensures LineIds(None, Split(text + [c])) == LineIds(None, Split(text))
    ensures FenceOver(None, Split(text + [c])) == FenceOver(None, Split(text))
  {
    var p := Split(text);
    var front, last := p[..|p| - 1], p[|p| - 1];
    assert p == front + [last];
    WalkKeepsFence(None, front);
    WalkKeepsFence(None, p);
    var fence := FenceOver(None, front);
    WalkConcat(None, front, [last]);
    if c == '\n' {
      SplitAtBreak(text, "");
      assert text + ['\n'] + "" == text + [c];
      WalkConcat(None, p, [""]);
      BlankLine(FenceOver(None, p));
    } else {
      SplitSnoc(text, c);
      WalkConcat(None, front, [last + [c]]);
      BlankAtEndOfLine(fence, last, c);
      OneLine(fence, last);
      OneLine(fence, last + [c]);
    }
  }

  lemma OneLine(fence: Option<string>, line: string)
    ensures LineIds(fence, [line]) == FindIds(Shown(fence, line))
    ensures FenceOver(fence, [line]) == FenceAfter(fence, line)
  {
    assert [line][1..] == [];
  }

  lemma StripOne(text: string)
    requires text != "" && Blank(text[|text| - 1])
    ensures Rstrip(text) == Rstrip(text[..|text| - 1])
  {
  }

  /** What a fence walk over a text's lines yields. */
  ghost predicate SameWalk(a: string, b: string) {
    LineIds(None, Split(a)) == LineIds(None, Split(b)) && FenceOver(None, Split(a)) == FenceOver(None, Split(b))
  }

  lemma BlankWalks(front: string, c: char, text: string)
    requires Blank(c) && text == front + [c]
    ensures SameWalk(front, text)
  {
    BlankAtEnd(front, c);
  }

  lemma {:induction false} StrippedWalk(text: string, n: nat)
    requires n == |text|
    ensures SameWalk(Rstrip(text), text)
    decreases n
  {
    if n > 0 && Blank(text[n - 1]) {
      var front := text[..n - 1];
      StrippedWalk(front, n - 1);
      StripOne(text);
      assert text == front + [text[n - 1]];
      BlankWalks(front, text[n - 1], text);
    } else {
      assert Rstrip(text) == text;
    }
  }

  /** Trailing blanks change neither the directives nor the open fence. */
  lemma {:induction false} StrippedEnd(text: string)
    ensures LineIds(None, Split(Rstrip(text))) == LineIds(None, Split(text))
    ensures FenceOver(None, Split(Rstrip(text))) == FenceOver(None, Split(text))
  {
    StrippedWalk(text, |text|);
  }

  // ---------------------------------------------------------------- the cards --

  lemma {:induction false} SplitOneLine(s: string)
    requires '\n' !in s
    ensures Split(s) == [s]
  {
    if s != "" { SplitOneLine(s[1..]); assert [s[0]] + s[1..] == s; }
  }

  lemma {:induction false} IdentLenOf(rid: string, rest: string)
    requires forall i :: 0 <= i < |rid| ==> Ident(rid[i])
    requires rest != "" && !Ident(rest[0])
    ensures IdentLen(rid + rest) == |rid|
  {
    if rid == "" {
      assert rid + rest == rest;
    } else {
      IdentLenOf(rid[1..], rest);
      assert (rid + rest)[1..] == rid[1..] + rest;
    }
  }

  lemma CardIsRecognised(rid: string)
    requires RunId(rid)
    ensures FindIds(Card(rid)) == [rid]
    ensures '\n' !in Card(rid) && '`' !in Card(rid)
  {
    var card := Card(rid);
    DirectiveIsHere(card, rid);
    assert card[|DIRECTIVE| + |rid| + |CLOSING|..] == "";
    FindIdsHit(card);
    forall i | 0 <= i < |card| ensures card[i] != '\n' && card[i] != '`' {
      if i < |DIRECTIVE| { assert card[i] == DIRECTIVE[i]; }
      else if i < |DIRECTIVE| + |rid| { assert card[i] == rid[i - |DIRECTIVE|]; }
      else { assert card[i] == CLOSING[i - |DIRECTIVE| - |rid|]; }
    }
  }

  lemma CardLine(rid: string)
    requires RunId(rid)
    ensures Split(Card(rid)) == [Card(rid)]
    ensures LineIds(None, [Card(rid)]) == [rid] && FenceOver(None, [Card(rid)]) == None
  {
    var card := Card(rid);
    CardIsRecognised(rid);
    SplitOneLine(card);
    LoneTickStays(card, "");
    assert card[0] == ':';
    OneLine(None, card);
  }

  lemma {:induction false} CardsAreRecognised(take: seq<string>)
    requires forall i :: 0 <= i < |take| ==> RunId(take[i])
    ensures LineIds(None, Split(Cards(take))) == take && FenceOver(None, Split(Cards(take))) == None
  {
    if take == [] {
      BlankLine(None);
    } else {
      CardLine(take[0]);
      if |take| > 1 {
        var rest := Cards(take[1..]);
        CardsAreRecognised(take[1..]);
        AfterGap(Card(take[0]), rest);
        assert take == [take[0]] + take[1..];
      }
    }
  }

  lemma SplitAtGap(a: string, b: string)
    ensures Split(a + "\n\n" + b) == Split(a) + ([""] + Split(b))
  {
    SplitAtBreak(a, "\n" + b);
    SplitAtBreak("", b);
    assert a + ['\n'] + ("\n" + b) == a + "\n\n" + b;
    assert "" + ['\n'] + b == "\n" + b;
  }

  lemma GapFirst(fence: Option<string>, b: seq<string>)
    requires Fence(fence)
    ensures LineIds(fence, [""] + b) == LineIds(fence, b) && FenceOver(fence, [""] + b) == FenceOver(fence, b)
  {
    WalkConcat(fence, [""], b);
    BlankLine(fence);
  }

  lemma {:induction false} WalkOverGap(a: seq<string>, b: seq<string>)
    ensures var fence := FenceOver(None, a);
            && LineIds(None, a + ([""] + b)) == LineIds(None, a) + LineIds(fence, b)
            && FenceOver(None, a + ([""] + b)) == FenceOver(fence, b)
  {
    var c := [""] + b;
    WalkKeepsFence(None, a);
    GapFirst(FenceOver(None, a), b);
    WalkConcat(None, a, c);
  }

  /** A blank line between two texts: the walk of the second goes on from the end of the first. */
  lemma {:induction false} AfterGap(a: string, b: string)
    ensures var fence := FenceOver(None, Split(a));
            && LineIds(None, Split(a + "\n\n" + b)) == LineIds(None, Split(a)) + LineIds(fence, Split(b))
            && FenceOver(None, Split(a + "\n\n" + b)) == FenceOver(fence, Split(b))
  {
    SplitAtGap(a, b);
    WalkOverGap(Split(a), Split(b));
  }

  lemma ClosingLine(mark: string, b: string)
    requires Fence(Some(mark))
    ensures LineIds(Some(mark), Split(mark + "\n\n" + b)) == LineIds(None, Split(b))
    ensures FenceOver(Some(mark), Split(mark + "\n\n" + b)) == FenceOver(None, Split(b))
  {
    SplitAtGap(mark, b);
    SplitOneLine(mark);
    WalkConcat(Some(mark), [mark], [""] + Split(b));
    OneLine(Some(mark), mark);
    assert Lstrip(mark) == mark;
    GapFirst(None, Split(b));
  }

  lemma Regrouped(a: string, b: string, c: string)
    ensures a + b + c == a + (b + c)
  {
  }

  lemma {:induction false} AppendedToFence(a: string, mark: string, b: string)
    requires FenceOver(None, Split(a)) == Some(mark)
    ensures var out := a + "\n\n" + (mark + "\n\n" + b);
            && LineIds(None, Split(out)) == LineIds(None, Split(a)) + LineIds(None, Split(b))
            && FenceOver(None, Split(out)) == FenceOver(None, Split(b))
  {
    WalkKeepsFence(None, Split(a));
    AfterGap(a, mark + "\n\n" + b);
    ClosingLine(mark, b);
  }

  /** Appending after a text that ends in state `mark`, with the fence closed first if open. */
  lemma Appended(a: string, mark: Option<string>, b: string)
    requires mark == FenceOver(None, Split(a))
    ensures var out := a + "\n\n" + (if mark.Some? then mark.value + "\n\n" else "") + b;
            && LineIds(None, Split(out)) == LineIds(None, Split(a)) + LineIds(None, Split(b))
            && FenceOver(None, Split(out)) == FenceOver(None, Split(b))
  {
    if mark.None? {
      AfterGap(a, b);
      assert a + "\n\n" + "" == a + "\n\n";
    } else {
      Regrouped(a + "\n\n", mark.value + "\n\n", b);
      AppendedToFence(a, mark.value, b);
    }
  }

  /** On every reply, the directives live in the augmented text are those of the reply followed
      by exactly the cards taken, in order, and the text ends outside every fence. */
  lemma AugmentedTextShipsExactlyTheCards(text: string, take: seq<string>)
    requires forall i :: 0 <= i < |take| ==> RunId(take[i])
    ensures BareIds(Augmented(text, take)) == BareIds(text) + take
    ensures FenceOver(None, Lines(Augmented(text, take))) == None
  {
    IdsLineByLine(None, Lines(text));
    IdsLineByLine(None, Lines(Augmented(text, take)));
    LinesOrSplit(text);
    LinesOrSplit(Augmented(text, take));
    StrippedEnd(text);
    CardsAreRecognised(take);
    Appended(Rstrip(text), FenceOver(None, Lines(text)), Cards(take));
  }
}
