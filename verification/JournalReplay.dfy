/**
 Replaying a lane's journaled writes: `apply_patch`, `_rel` and `replay`.  The whitespace-
 flexible matcher is an argument that lists its hits, and so is the text a file is seeded from.
*/
module JournalReplay {
  import opened Wrappers
  import opened Collections

  // ---------------------------------------------------------------- one patch --

  /** The anchor stands at `j`. */
  predicate StandsAt(text: string, anchor: string, j: nat) { j + |anchor| <= |text| && text[j..j + |anchor|] == anchor }

  /** Position of the first occurrence at or after `k`, or |text| + 1. */
  function IndexFrom(text: string, anchor: string, k: nat): (i: nat)
    ensures i == |text| + 1 || (k <= i && StandsAt(text, anchor, i))
    ensures forall j :: k <= j < i ==> !StandsAt(text, anchor, j)
    decreases |text| - k
  {
    if k + |anchor| > |text| then |text| + 1
    else if StandsAt(text, anchor, k) then k
    else IndexFrom(text, anchor, k + 1)
  }

  /** Position of the first occurrence, or |text| + 1. */
  function IndexOf(text: string, anchor: string): (i: nat) { IndexFrom(text, anchor, 0) }

  /** `text.split(anchor)`, so that `count` is one less than the pieces and `replace` joins them. */
  function Pieces(text: string, anchor: string): (p: seq<string>)
    requires anchor != ""
    ensures p != []
    decreases |text|
  {
    var i := IndexOf(text, anchor);
    if i > |text| then [text] else [text[..i]] + Pieces(text[i + |anchor|..], anchor)
  }

  function Glue(p: seq<string>, with: string): string
    requires p != []
  {
    if |p| == 1 then p[0] else p[0] + with + Glue(p[1..], with)
  }

  /** Half-open spans, in order and apart, as `finditer` yields them. */
  type Span = (nat, nat)

  predicate Spans(text: string, hits: seq<Span>) {
    && (forall i :: 0 <= i < |hits| ==> hits[i].0 <= hits[i].1 <= |text|)
    && (forall i, j :: 0 <= i < j < |hits| ==> hits[i].1 <= hits[j].0)
  }

  function Substituted(text: string, hits: seq<Span>, with: string): string
    requires Spans(text, hits)
    decreases |hits|
  {
    if hits == [] then text
    else
      var last := hits[|hits| - 1];
      Substituted(text[..last.0], hits[..|hits| - 1], with) + with + text[last.1..]
  }

  datatype How = Exact | Fuzzy | Ambiguous(n: nat) | NoMatch

  /** `apply_patch`; `hits` is what the whitespace-flexible pattern matches. */
  function ApplyPatch(text: string, anchor: Option<string>, with: string, all: bool, hits: seq<Span>): (string, How)
    requires Spans(text, hits)
  {
    if anchor.None? then (text, NoMatch)
    else if anchor.value == "" then (text + with, Exact)
    else
      var p := Pieces(text, anchor.value);
      if |p| > 1 then
        if all then (Glue(p, with), Exact)
        else if |p| > 2 then (text, Ambiguous(|p| - 1))
        else (p[0] + with + p[1], Exact)
      else if hits != [] then
        if all then (Substituted(text, hits, with), Fuzzy)
        else if |hits| > 1 then (text, Ambiguous(|hits|))
        else (text[..hits[0].0] + with + text[hits[0].1..], Fuzzy)
      else (text, NoMatch)
  }

  /** The pieces are the text cut at its anchors: none holds an anchor, and gluing them with the
      anchor gives the text back. */
  lemma {:induction false} PiecesAreTheText(text: string, anchor: string)
    requires anchor != ""
    ensures Glue(Pieces(text, anchor), anchor) == text
    ensures forall k, j :: 0 <= k < |Pieces(text, anchor)| && 0 <= j <= |Pieces(text, anchor)[k]| ==>
              !StandsAt(Pieces(text, anchor)[k], anchor, j)
    decreases |text|
  {
    var i := IndexOf(text, anchor);
    if i <= |text| {
      var rest := text[i + |anchor|..];
      PiecesAreTheText(rest, anchor);
      assert text == text[..i] + anchor + rest;
      forall j | 0 <= j <= i ensures !StandsAt(text[..i], anchor, j) {
        assert !StandsAt(text, anchor, j) || j == i;
        if j + |anchor| <= i { assert text[..i][j..j + |anchor|] == text[j..j + |anchor|]; }
      }
    }
  }

  /** A refused patch leaves the text alone; an accepted single exact one replaces the first
      occurrence of its anchor, to the right of which no further one starts. */
  lemma {:induction false} PatchIsExact(text: string, anchor: Option<string>, with: string, all: bool, hits: seq<Span>)
    requires Spans(text, hits)
    ensures var (out, how) := ApplyPatch(text, anchor, with, all, hits);
            && (how.NoMatch? || how.Ambiguous? ==> out == text)
            && (how.Ambiguous? ==> how.n > 1 && !all)
            && (how.Exact? && !all && anchor.value != "" ==>
                  var i := IndexOf(text, anchor.value);
                  && i <= |text| && out == text[..i] + with + text[i + |anchor.value|..]
                  && IndexOf(text[i + |anchor.value|..], anchor.value) > |text| - i - |anchor.value|)
            && (how.Exact? && anchor.value != "" && with == anchor.value ==> out == text)
            && (how.NoMatch? && anchor.Some? ==> hits == [] && IndexOf(text, anchor.value) > |text|)
  {
    if anchor.Some? && anchor.value != "" {
      PiecesAreTheText(text, anchor.value);
      if |Pieces(text, anchor.value)| == 2 { TwoPieces(text, anchor.value); }
    }
  }

  lemma TwoPieces(text: string, anchor: string)
    requires anchor != "" && |Pieces(text, anchor)| == 2
    ensures var i := IndexOf(text, anchor);
            && i <= |text| && Pieces(text, anchor) == [text[..i], text[i + |anchor|..]]
            && IndexOf(text[i + |anchor|..], anchor) > |text| - i - |anchor|
            && text == text[..i] + anchor + text[i + |anchor|..]
  {
  }

  // ---------------------------------------------------------------- which patch does what --

  /** An anchor stands wherever the text is cut around it, at the very end as well. */
  lemma {:induction false} StandsWhereCut(pre: string, anchor: string, post: string)
    ensures StandsAt(pre + anchor + post, anchor, |pre|)
  {
    assert (pre + anchor + post)[|pre|..|pre| + |anchor|] == anchor;
  }

  predicate Occurs(text: string, anchor: string) { exists j :: 0 <= j <= |text| && StandsAt(text, anchor, j) }

  /** Two occurrences that do not overlap. */
  predicate OccursTwice(text: string, anchor: string) {
    exists i, j :: 0 <= i <= j <= |text| && i + |anchor| <= j && StandsAt(text, anchor, i) && StandsAt(text, anchor, j)
  }

  lemma {:induction false} StandsLater(text: string, anchor: string, cut: nat, j: nat)
    requires cut <= j <= |text|
    ensures StandsAt(text[cut..], anchor, j - cut) <==> StandsAt(text, anchor, j)
  {
    if j + |anchor| <= |text| { assert text[cut..][j - cut..j - cut + |anchor|] == text[j..j + |anchor|]; }
  }

  lemma {:induction false} IndexFinds(text: string, anchor: string)
    ensures Occurs(text, anchor) <==> IndexOf(text, anchor) <= |text|
  {
    if IndexOf(text, anchor) <= |text| { assert StandsAt(text, anchor, IndexOf(text, anchor)); }
  }

  /** As many cuts as the text has occurrences that do not overlap: none, one, or more. */
  lemma {:induction false} PiecesCount(text: string, anchor: string)
    requires anchor != ""
    ensures |Pieces(text, anchor)| > 1 <==> Occurs(text, anchor)
    ensures |Pieces(text, anchor)| > 2 <==> OccursTwice(text, anchor)
  {
    var i := IndexOf(text, anchor);
    IndexFinds(text, anchor);
    if i <= |text| {
      var cut := i + |anchor|;
      IndexFinds(text[cut..], anchor);
      if Occurs(text[cut..], anchor) {
        var j :| 0 <= j <= |text[cut..]| && StandsAt(text[cut..], anchor, j);
        StandsLater(text, anchor, cut, cut + j);
        assert StandsAt(text, anchor, i) && StandsAt(text, anchor, cut + j);
      }
      if OccursTwice(text, anchor) {
        var a, b :|
          0 <= a <= b <= |text| && a + |anchor| <= b && StandsAt(text, anchor, a) && StandsAt(text, anchor, b);
        assert i <= a;
        StandsLater(text, anchor, cut, b);
      }
    }
  }

  /** What lies before the k-th hit, or after the last. */
  function Gap(text: string, hits: seq<Span>, k: nat): string
    requires Spans(text, hits) && k <= |hits|
  {
    text[(if k == 0 then 0 else hits[k - 1].1)..(if k == |hits| then |text| else hits[k].0)]
  }

  function Gaps(text: string, hits: seq<Span>): (gaps: seq<string>)
    requires Spans(text, hits)
  {
    seq(|hits| + 1, k requires 0 <= k <= |hits| => Gap(text, hits, k))
  }

  lemma {:induction false} GlueSnoc(p: seq<string>, last: string, with: string)
    requires p != []
    ensures Glue(p + [last], with) == Glue(p, with) + with + last
    decreases |p|
  {
    assert (p + [last])[1..] == p[1..] + [last];
    if |p| == 1 {
      assert p[1..] + [last] == [last];
    } else {
      GlueSnoc(p[1..], last, with);
      assert p[0] + with + (Glue(p[1..], with) + with + last) == p[0] + with + Glue(p[1..], with) + with + last;
    }
  }

  lemma {:induction false} FrontFits(text: string, hits: seq<Span>)
    requires Spans(text, hits) && hits != []
    ensures Spans(text[..hits[|hits| - 1].0], hits[..|hits| - 1])
  {
  }

  lemma {:induction false} GapOfFront(text: string, hits: seq<Span>, k: nat)
    requires Spans(text, hits) && k < |hits|
    requires Spans(text[..hits[|hits| - 1].0], hits[..|hits| - 1])
    ensures Gap(text[..hits[|hits| - 1].0], hits[..|hits| - 1], k) == Gap(text, hits, k)
  {
    var lo, hi, cut := if k == 0 then 0 else hits[k - 1].1, hits[k].0, hits[|hits| - 1].0;
    assert lo <= hi <= cut <= |text|;
    assert text[..cut][lo..hi] == text[lo..hi];
  }

  lemma {:induction false} GapsSnoc(text: string, hits: seq<Span>)
    requires Spans(text, hits) && hits != []
    requires Spans(text[..hits[|hits| - 1].0], hits[..|hits| - 1])
    ensures var last := hits[|hits| - 1];
            Gaps(text, hits) == Gaps(text[..last.0], hits[..|hits| - 1]) + [text[last.1..]]
  {
    var last := hits[|hits| - 1];
    var all, front := Gaps(text, hits), Gaps(text[..last.0], hits[..|hits| - 1]);
    forall k | 0 <= k < |all| ensures all[k] == (front + [text[last.1..]])[k] {
      if k < |hits| { GapOfFront(text, hits, k); }
    }
  }

  /** Replacing every hit keeps exactly what lies between them. */
  lemma {:induction false} SubstitutedKeepsGaps(text: string, hits: seq<Span>, with: string)
    requires Spans(text, hits)
    ensures Substituted(text, hits, with) == Glue(Gaps(text, hits), with)
    decreases |hits|
  {
    if hits == [] {
      assert Gap(text, hits, 0) == text;
    } else {
      var last, front := hits[|hits| - 1], hits[..|hits| - 1];
      FrontFits(text, hits);
      GapsSnoc(text, hits);
      SubstitutedKeepsGaps(text[..last.0], front, with);
      GlueSnoc(Gaps(text[..last.0], front), text[last.1..], with);
    }
  }

  /** What the whitespace-flexible matcher's hits do, where the anchor itself does not occur. */
  ghost predicate FuzzyDoes(text: string, with: string, all: bool, hits: seq<Span>, out: string, how: How)
    requires Spans(text, hits)
  {
    if hits == [] then out == text && how == NoMatch
    else if all then out == Glue(Gaps(text, hits), with) && how == Fuzzy
    else if |hits| > 1 then out == text && how == Ambiguous(|hits|)
    else out == text[..hits[0].0] + with + text[hits[0].1..] && how == Fuzzy
  }

  /**
   The decision in full: no anchor is refused, an empty one appends; an anchor that occurs is
   replaced everywhere on request, else refused when it occurs twice, else replaced where it
   stands; only an anchor that does not occur at all is left to the flexible matcher.
  */
  lemma {:induction false} PatchDecides(text: string, anchor: Option<string>, with: string, all: bool, hits: seq<Span>)
    requires Spans(text, hits)
    ensures var (out, how) := ApplyPatch(text, anchor, with, all, hits);
            if anchor.None? then out == text && how == NoMatch
            else if anchor.value == "" then out == text + with && how == Exact
            else if !Occurs(text, anchor.value) then FuzzyDoes(text, with, all, hits, out, how)
            else if all then out == Glue(Pieces(text, anchor.value), with) && how == Exact
            else if OccursTwice(text, anchor.value)
            then out == text && how == Ambiguous(|Pieces(text, anchor.value)| - 1)
            else && how == Exact && IndexOf(text, anchor.value) <= |text|
                 && var i := IndexOf(text, anchor.value);
                    out == text[..i] + with + text[i + |anchor.value|..]
  {
    if anchor.Some? && anchor.value != "" {
      PiecesCount(text, anchor.value);
      if |Pieces(text, anchor.value)| == 2 { TwoPieces(text, anchor.value); }
      SubstitutedKeepsGaps(text, hits, with);
    }
  }

  // ---------------------------------------------------------------- paths --

  /** The anchor POSIX reads off a path: two slashes stay two, any other number of them is one. */
  function Anchor(path: string): string {
    if "//" <= path && !("///" <= path) then "//"
    else if "/" <= path then "/"
    else ""
  }

  /** The components between slashes, without empty ones and single dots; `head` is the part read so far. */
  function Components(path: string, head: string): seq<string> {
    if path == "" then Component(head)
    else if path[0] == '/' then Component(head) + Components(path[1..], "")
    else Components(path[1..], head + [path[0]])
  }

  function Component(head: string): seq<string> { if head == "" || head == "." then [] else [head] }

  /** `Path(p).parts` */
  function Parts(path: string): seq<string> {
    (if Anchor(path) == "" then [] else [Anchor(path)]) + Components(path, "")
  }

  predicate Drive(part: string) {
    |part| >= 2 && ('A' <= part[0] <= 'Z' || 'a' <= part[0] <= 'z') && part[1] == ':'
    && part[2..] in {"", "\\", "\n", "\\\n"}
  }

  predicate Unsafe(part: string) { part in {"/", "..", ""} }

  function Kept(parts: seq<string>): seq<string> {
    if parts == [] then [] else if Unsafe(parts[0]) then Kept(parts[1..]) else [parts[0]] + Kept(parts[1..])
  }

  /** `_rel` */
  function Rel(path: string): seq<string> {
    var k := Kept(Parts(path));
    var k' := if k != [] && Drive(k[0]) then k[1..] else k;
    if k' == [] then ["_unnamed"] else k'
  }

  predicate Rooted(part: string) { part != "" && part[0] == '/' }

  predicate Absolute(parts: seq<string>) { parts != [] && Rooted(parts[0]) }

  /** `out_dir / rel`: an absolute right side discards the left one. */
  function Destination(out: seq<string>, rel: seq<string>): seq<string> {
    if Absolute(rel) then rel else out + rel
  }

  /** The path begins with exactly two slashes. */
  predicate TwoSlashes(path: string) { "//" <= path && !("///" <= path) }

  /** A name `/`-free and neither empty nor a dot: what a path is made of past its anchor. */
  predicate Plain(part: string) { part != "" && part != "." && forall i :: 0 <= i < |part| ==> part[i] != '/' }

  lemma {:induction false} ComponentsArePlain(path: string, head: string)
    requires forall i :: 0 <= i < |head| ==> head[i] != '/'
    ensures forall k :: 0 <= k < |Components(path, head)| ==> Plain(Components(path, head)[k])
    decreases |path|
  {
    if path != "" {
      if path[0] == '/' { ComponentsArePlain(path[1..], ""); } else { ComponentsArePlain(path[1..], head + [path[0]]); }
    }
  }

  lemma {:induction false} KeptOfPlain(parts: seq<string>)
    requires forall k :: 0 <= k < |parts| ==> Plain(parts[k])
    ensures forall k :: 0 <= k < |Kept(parts)| ==> Plain(Kept(parts)[k]) && Kept(parts)[k] != ".."
  {
    if parts != [] { KeptOfPlain(parts[1..]); }
  }

  /** Of the anchors only two slashes get past the filter. */
  lemma KeptParts(path: string)
    ensures var kept := Kept(Components(path, ""));
            Kept(Parts(path)) == if TwoSlashes(path) then ["//"] + kept else kept
  {
    var rest := Components(path, "");
    if Anchor(path) == "" {
      assert Parts(path) == rest;
    } else {
      assert Parts(path)[0] == Anchor(path) && Parts(path)[1..] == rest;
    }
  }

  predicate Climbs(part: string) { !Plain(part) || part == ".." }

  lemma RelOf(path: string, kept: seq<string>)
    requires kept == Kept(Components(path, ""))
    ensures TwoSlashes(path) ==> Rel(path) == ["//"] + kept
    ensures !TwoSlashes(path) ==>
              Rel(path) == ["_unnamed"] || Rel(path) == kept || (kept != [] && Rel(path) == kept[1..])
    ensures Rel(path) != []
  {
    KeptParts(path);
  }

  lemma PlainIsNotRooted(part: string)
    requires Plain(part)
    ensures !Rooted(part)
  {
  }

  ghost predicate NoneClimbs(parts: seq<string>, start: nat) {
    forall k :: start <= k < |parts| ==> !Climbs(parts[k])
  }

  lemma {:induction false} ClimbsNowhere(kept: seq<string>)
    requires NoneClimbs(kept, 0)
    ensures NoneClimbs(["//"] + kept, 1)
    ensures kept != [] ==> NoneClimbs(kept[1..], 0)
  {
  }

  lemma UnnamedIsPlain()
    ensures NoneClimbs(["_unnamed"], 0)
  {
  }

  lemma {:induction false} NothingClimbs(path: string)
    ensures NoneClimbs(Kept(Components(path, "")), 0)
  {
    ComponentsArePlain(path, "");
    KeptOfPlain(Components(path, ""));
  }

  lemma {:induction false} AbsoluteOrNot(rel: seq<string>)
    requires rel != []
    ensures NoneClimbs(rel, 0) ==> !Absolute(rel)
    ensures rel[0] == "//" ==> Absolute(rel)
  {
    if !Climbs(rel[0]) { PlainIsNotRooted(rel[0]); }
  }

  /** No component climbs, and the path is absolute if and only if it began with exactly two
      slashes: only that anchor gets past the filter. */
  lemma {:induction false} RestoredPathIsRelativeIff(path: string)
    ensures var rel := Rel(path);
            && rel != [] && (Absolute(rel) <==> TwoSlashes(path))
            && NoneClimbs(rel, if TwoSlashes(path) then 1 else 0)
  {
    var kept, rel := Kept(Components(path, "")), Rel(path);
    NothingClimbs(path);
    RelOf(path, kept);
    ClimbsNowhere(kept);
    UnnamedIsPlain();
    AbsoluteOrNot(rel);
  }

  // ---------------------------------------------------------------- what a path becomes --

  predicate Letter(c: char) { 'A' <= c <= 'Z' || 'a' <= c <= 'z' }

  /** The names of a path in order, between the slashes, without empty ones and dots of either kind. */
  function Names(path: string): seq<string>
    decreases |path|
  {
    var n := SlashAt(path, 0);
    var name := path[..n];
    (if name in {"", ".", ".."} then [] else [name]) + if n == |path| then [] else Names(path[n + 1..])
  }

  /** The next slash at or after `k`, or the end. */
  function SlashAt(path: string, k: nat): (n: nat)
    requires k <= |path|
    ensures k <= n <= |path| && (n < |path| ==> path[n] == '/')
    ensures forall i :: k <= i < n ==> path[i] != '/'
    decreases |path| - k
  {
    if k == |path| || path[k] == '/' then k else SlashAt(path, k + 1)
  }

  lemma {:induction false} KeptConcat(a: seq<string>, b: seq<string>)
    ensures Kept(a + b) == Kept(a) + Kept(b)
    decreases |a|
  {
    if a == [] {
      assert a + b == b;
    } else {
      TailOfConcat(a, b);
      KeptConcat(a[1..], b);
    }
  }

  lemma {:induction false} KeptOne(name: string)
    requires NoSlash(name)
    ensures Kept(Component(name)) == if name in {"", ".", ".."} then [] else [name]
  {
    if Component(name) == [name] { assert [name][1..] == []; }
  }

  lemma {:induction false} NamesAreKept(path: string)
    ensures Kept(Components(path, "")) == Names(path)
    decreases |path|
  {
    var n := SlashAt(path, 0);
    var name := path[..n];
    assert NoSlash(name);
    KeptOne(name);
    if n == |path| {
      LastComponent(path, "");
      assert path[..n] == path && "" + path == path;
    } else {
      var rest := path[n + 1..];
      assert path == name + "/" + rest;
      CutAtSlash(name, rest, "");
      assert "" + name == name;
      KeptConcat(Component(name), Components(rest, ""));
      NamesAreKept(rest);
    }
  }

  /** The path begins with a drive: a letter and a colon are its first name, perhaps with a backslash. */
  predicate OnDrive(names: seq<string>) {
    names != [] && names[0] != "" && Letter(names[0][0]) && names[0][1..] in {":", ":\\", ":\n", ":\\\n"}
  }

  lemma {:induction false} DriveIs(part: string)
    ensures Drive(part) <==> part != "" && Letter(part[0]) && part[1..] in {":", ":\\", ":\n", ":\\\n"}
  {
    if |part| >= 2 {
      var tail, rest := part[1..], part[2..];
      assert tail[0] == part[1] && tail[1..] == rest && tail == [part[1]] + rest;
      if part[1] == ':' && rest == "" { assert tail == ":"; }
      if part[1] == ':' && rest == "\\" { assert tail == ":\\"; }
      if part[1] == ':' && rest == "\n" { assert tail == ":\n"; }
      if part[1] == ':' && rest == "\\\n" { assert tail == ":\\\n"; }
      if tail == ":" { assert rest == ""; }
      if tail == ":\\" { assert rest == "\\"; }
      if tail == ":\n" { assert rest == "\n"; }
      if tail == ":\\\n" { assert rest == "\\\n"; }
    }
  }

  /** The restored path is the path's names in order: after two slashes alone those stand before them,
      else a drive is left out, and what has no name left is `_unnamed`. */
  lemma {:induction false} RestoredPathIs(path: string)
    ensures Rel(path) ==
            var names := Names(path);
            if TwoSlashes(path) then ["//"] + names
            else if OnDrive(names) then (if |names| == 1 then ["_unnamed"] else names[1..])
            else if names == [] then ["_unnamed"] else names
  {
    NamesAreKept(path);
    KeptParts(path);
    var names := Names(path);
    if TwoSlashes(path) {
      assert ([ "//" ] + names)[0] == "//";
    } else if names != [] {
      DriveIs(names[0]);
    }
  }

  /** A restored file lies below the output directory if and only if its path did not begin with
      exactly two slashes; otherwise the directory is ignored. */
  lemma RestoredBelowIff(path: string, out: seq<string>)
    requires out != [] && out[0] != "//"
    ensures var dest := Destination(out, Rel(path));
            && (out <= dest <==> !TwoSlashes(path))
            && (TwoSlashes(path) ==> dest == Rel(path))
  {
    RestoredPathIsRelativeIff(path);
    var dest := Destination(out, Rel(path));
    if TwoSlashes(path) {
      RelOf(path, Kept(Components(path, "")));
      assert dest[0] != out[0];
    } else {
      assert dest == out + Rel(path);
    }
  }

  /** Such a path: restored, it is itself. */
  lemma TwoSlashesEscape(out: seq<string>)
    ensures Rel("//etc/passwd") == ["//", "etc", "passwd"]
    ensures Destination(out, Rel("//etc/passwd")) == ["//", "etc", "passwd"]
  {
    EtcPasswd();
    KeptParts("//etc/passwd");
    assert ["etc", "passwd"][1..] == ["passwd"] && ["passwd"][1..] == [];
    assert Kept(["passwd"]) == ["passwd"];
    assert Kept(["etc", "passwd"]) == ["etc", "passwd"];
  }

  predicate NoSlash(name: string) { forall i :: 0 <= i < |name| ==> name[i] != '/' }

  lemma EtcPasswd()
    ensures Components("//etc/passwd", "") == ["etc", "passwd"]
  {
    assert "//etc/passwd" == "" + "/" + ("" + "/" + ("etc" + "/" + "passwd"));
    TwoParts("etc", "passwd");
  }

  lemma TwoParts(a: string, b: string)
    requires NoSlash(a) && NoSlash(b) && a != "" && a != "." && b != "" && b != "."
    ensures Components("" + "/" + ("" + "/" + (a + "/" + b)), "") == [a, b]
  {
    CutAtSlash("", "" + "/" + (a + "/" + b), "");
    CutAtSlash("", a + "/" + b, "");
    CutAtSlash(a, b, "");
    LastComponent(b, "");
    assert "" + a == a && "" + b == b && "" + "" == "";
  }

  lemma {:induction false} Shifts(name: string, rest: string, head: string)
    requires name != ""
    ensures (name + "/" + rest)[0] == name[0] && (name + "/" + rest)[1..] == name[1..] + "/" + rest
    ensures head + [name[0]] + name[1..] == head + name
  {
  }

  lemma {:induction false} CutAtSlash(name: string, rest: string, head: string)
    requires NoSlash(name)
    ensures Components(name + "/" + rest, head) == Component(head + name) + Components(rest, "")
    decreases |name|
  {
    if name == "" {
      assert ("" + "/" + rest)[1..] == rest && head + "" == head;
    } else {
      CutAtSlash(name[1..], rest, head + [name[0]]);
      Shifts(name, rest, head);
    }
  }

  lemma {:induction false} LastComponent(name: string, head: string)
    requires NoSlash(name)
    ensures Components(name, head) == Component(head + name)
    decreases |name|
  {
    if name == "" {
      assert head + name == head;
    } else {
      LastComponent(name[1..], head + [name[0]]);
      assert head + [name[0]] + name[1..] == head + name;
    }
  }

  // ---------------------------------------------------------------- the journal --

  datatype Tool = WriteFile(content: string) | Patch(anchor: Option<string>, with: string, all: bool)

  /** A journaled call; `path` is empty when the arguments name none. */
  datatype Call = Call(index: nat, unparsed: bool, refused: bool, path: string, tool: Tool, confirmed: bool)

  type Files = map<seq<string>, string>

  /** Where a file's first patch finds its text, and what the flexible matcher hits. */
  datatype Env = Env(seed: (seq<string>, string) -> string, hits: (string, string) -> seq<Span>)

  ghost predicate Matcher(env: Env) {
    forall text, anchor :: Spans(text, env.hits(text, anchor))
  }

  datatype Bucket = Unmatched | Skipped | Written | Applied

  /** Calls that never reach a file. */
  predicate Dead(c: Call) { c.unparsed || c.refused || c.path == "" }

  function Target(c: Call): seq<string> { if c.path == "" then [] else Rel(c.path) }

  /** The text a patch starts from. */
  function Base(env: Env, files: Files, c: Call): string
    requires c.path != ""
  {
    if Target(c) in files then files[Target(c)] else env.seed(Target(c), c.path)
  }

  function HitsOf(env: Env, text: string, tool: Tool): (hits: seq<Span>)
    requires Matcher(env) && tool.Patch?
  {
    if tool.anchor.Some? then env.hits(text, tool.anchor.value) else []
  }

  function Patched(env: Env, files: Files, c: Call): (string, How)
    requires Matcher(env) && c.path != "" && c.tool.Patch?
  {
    var text := Base(env, files, c);
    ApplyPatch(text, c.tool.anchor, c.tool.with, c.tool.all, HitsOf(env, text, c.tool))
  }

  function PatchBucket(how: How): Bucket {
    match how
    case NoMatch => Unmatched
    case Ambiguous(_) => Skipped
    case _ => Applied
  }

  function BucketOf(env: Env, files: Files, c: Call): Bucket
    requires Matcher(env)
  {
    if c.unparsed then Unmatched
    else if c.refused then Skipped
    else if c.path == "" then Unmatched
    else if c.tool.WriteFile? then Written
    else PatchBucket(Patched(env, files, c).1)
  }

  function After(env: Env, files: Files, c: Call): Files
    requires Matcher(env)
  {
    if Dead(c) then files
    else if c.tool.WriteFile? then files[Target(c) := c.tool.content]
    else files[Target(c) := Patched(env, files, c).0]
  }

  function FilesOf(env: Env, calls: seq<Call>): Files
    requires Matcher(env)
  {
    if calls == [] then map[] else After(env, FilesOf(env, calls[..|calls| - 1]), calls[|calls| - 1])
  }

  /** The indices of the calls that land in one bucket, in journal order. */
  function Landed(env: Env, calls: seq<Call>, b: Bucket): seq<nat>
    requires Matcher(env)
  {
    if calls == [] then []
    else
      var front, c := calls[..|calls| - 1], calls[|calls| - 1];
      if BucketOf(env, FilesOf(env, front), c) == b then Landed(env, front, b) + [c.index] else Landed(env, front, b)
  }

  lemma OneMoreCall(env: Env, calls: seq<Call>, i: nat)
    requires Matcher(env) && i < |calls|
    ensures FilesOf(env, calls[..i + 1]) == After(env, FilesOf(env, calls[..i]), calls[i])
    ensures forall b :: Landed(env, calls[..i + 1], b) ==
              Landed(env, calls[..i], b) +
                if BucketOf(env, FilesOf(env, calls[..i]), calls[i]) == b then [calls[i].index] else []
  {
    assert calls[..i + 1][..i] == calls[..i];
  }

  lemma RefusalKeepsText(text: string, tool: Tool, hits: seq<Span>)
    requires Spans(text, hits) && tool.Patch?
    ensures var (out, how) := ApplyPatch(text, tool.anchor, tool.with, tool.all, hits);
            how.NoMatch? || how.Ambiguous? ==> out == text
  {
  }

  /** The loop's body: one call against the files restored so far, and where it lands. */
  method ReplayOne(env: Env, files: Files, c: Call) returns (files': Files, b: Bucket)
    requires Matcher(env)
    ensures files' == After(env, files, c) && b == BucketOf(env, files, c)
  {
    files' := files;
    if c.unparsed { return files', Unmatched; }
    if c.refused { return files', Skipped; }
    if c.path == "" { return files', Unmatched; }
    var rel := Rel(c.path);
    if c.tool.WriteFile? { return files'[rel := c.tool.content], Written; }
    if rel !in files' { files' := files'[rel := env.seed(rel, c.path)]; }
    files', b := PatchOne(env, files', rel, c.tool);
  }

  /** A patch call on a file that is there: an ambiguous or unmatched one leaves the file alone. */
  method PatchOne(env: Env, files: Files, rel: seq<string>, tool: Tool) returns (files': Files, b: Bucket)
    requires Matcher(env) && rel in files && tool.Patch?
    ensures var (text, how) := ApplyPatch(files[rel], tool.anchor, tool.with, tool.all, HitsOf(env, files[rel], tool));
            files' == files[rel := text] && b == PatchBucket(how)
  {
    var hits := HitsOf(env, files[rel], tool);
    var (text, how) := ApplyPatch(files[rel], tool.anchor, tool.with, tool.all, hits);
    RefusalKeepsText(files[rel], tool, hits);
    assert files[rel := files[rel]] == files;
    match how
    case NoMatch => return files, Unmatched;
    case Ambiguous(_) => return files, Skipped;
    case _ => return files[rel := text], Applied;
  }

  /** `replay`, up to the flush of `files`. */
  method Replay(env: Env, calls: seq<Call>)
    returns (files: Files, unmatched: seq<nat>, skipped: seq<nat>, written: seq<nat>, applied: seq<nat>)
    requires Matcher(env)
    ensures files == FilesOf(env, calls)
    ensures unmatched == Landed(env, calls, Unmatched) && skipped == Landed(env, calls, Skipped)
    ensures written == Landed(env, calls, Written) && applied == Landed(env, calls, Applied)
  {
    files, unmatched, skipped, written, applied := map[], [], [], [], [];
    for i := 0 to |calls|
      invariant files == FilesOf(env, calls[..i])
      invariant unmatched == Landed(env, calls[..i], Unmatched) && skipped == Landed(env, calls[..i], Skipped)
      invariant written == Landed(env, calls[..i], Written) && applied == Landed(env, calls[..i], Applied)
    {
      var c := calls[i];
      OneMoreCall(env, calls, i);
      var b;
      files, b := ReplayOne(env, files, c);
      match b {
        case Unmatched => unmatched := unmatched + [c.index];
        case Skipped => skipped := skipped + [c.index];
        case Written => written := written + [c.index];
        case Applied => applied := applied + [c.index];
      }
    }
    assert calls[..|calls|] == calls;
  }

  // ---------------------------------------------------------------- main results --

  function Indices(calls: seq<Call>): seq<nat> {
    if calls == [] then [] else Indices(calls[..|calls| - 1]) + [calls[|calls| - 1].index]
  }

  /** Every call lands in exactly one of the four lists. */
  lemma {:induction false} ReplayPartitionsTheJournal(env: Env, calls: seq<Call>)
    requires Matcher(env)
    ensures multiset(Landed(env, calls, Unmatched)) + multiset(Landed(env, calls, Skipped))
            + multiset(Landed(env, calls, Written)) + multiset(Landed(env, calls, Applied)) == multiset(Indices(calls))
  {
    if calls != [] { ReplayPartitionsTheJournal(env, calls[..|calls| - 1]); }
  }

  /** What the report says of one call: a payload that does not parse or names no path, and a patch
      whose anchor is nowhere, is unmatched; a refused call and an ambiguous patch is skipped; a live
      write is written; a patch that matched is applied. */
  lemma CallIsReportedAs(env: Env, files: Files, c: Call)
    requires Matcher(env)
    ensures var b := BucketOf(env, files, c);
            var patch := !c.unparsed && !c.refused && c.path != "" && c.tool.Patch?;
            && (b == Unmatched <==>
                  || c.unparsed || (!c.refused && c.path == "")
                  || (patch && Patched(env, files, c).1 == NoMatch))
            && (b == Skipped <==> !c.unparsed && (c.refused || (patch && Patched(env, files, c).1.Ambiguous?)))
            && (b == Written <==> !c.unparsed && !c.refused && c.path != "" && c.tool.WriteFile?)
            && (b == Applied <==> patch && Patched(env, files, c).1 in {Exact, Fuzzy})
  {
  }

  /** The i-th call has the index and landed there, on the files the calls before it left. */
  ghost predicate LandsAt(env: Env, calls: seq<Call>, i: nat, b: Bucket, k: nat)
    requires Matcher(env) && i < |calls|
  {
    calls[i].index == k && BucketOf(env, FilesOf(env, calls[..i]), calls[i]) == b
  }

  lemma {:induction false} LandsEarlier(env: Env, calls: seq<Call>, i: nat, b: Bucket, k: nat)
    requires Matcher(env) && i + 1 < |calls|
    ensures LandsAt(env, calls[..|calls| - 1], i, b, k) <==> LandsAt(env, calls, i, b, k)
  {
    assert calls[..|calls| - 1][..i] == calls[..i];
  }

  /** Some call of that index landed there. */
  ghost predicate Lands(env: Env, calls: seq<Call>, b: Bucket, k: nat)
    requires Matcher(env)
  {
    exists i :: 0 <= i < |calls| && LandsAt(env, calls, i, b, k)
  }

  lemma {:induction false} LandsSnoc(env: Env, calls: seq<Call>, b: Bucket, k: nat)
    requires Matcher(env) && calls != []
    ensures Lands(env, calls, b, k) <==>
              Lands(env, calls[..|calls| - 1], b, k) || LandsAt(env, calls, |calls| - 1, b, k)
  {
    var front := calls[..|calls| - 1];
    if Lands(env, front, b, k) {
      var i :| 0 <= i < |front| && LandsAt(env, front, i, b, k);
      LandsEarlier(env, calls, i, b, k);
    }
    if Lands(env, calls, b, k) {
      var i :| 0 <= i < |calls| && LandsAt(env, calls, i, b, k);
      if i < |front| { LandsEarlier(env, calls, i, b, k); }
    }
  }

  /** An index stands in a list exactly when a call of that index landed there. */
  lemma {:induction false} ListsTellWhatHappened(env: Env, calls: seq<Call>, b: Bucket, k: nat)
    requires Matcher(env)
    ensures k in Landed(env, calls, b) <==> Lands(env, calls, b, k)
  {
    if calls != [] {
      ListsTellWhatHappened(env, calls[..|calls| - 1], b, k);
      LandsSnoc(env, calls, b, k);
      LandedSnoc(env, calls, b, k);
    }
  }

  lemma {:induction false} LandedSnoc(env: Env, calls: seq<Call>, b: Bucket, k: nat)
    requires Matcher(env) && calls != []
    ensures k in Landed(env, calls, b) <==>
              k in Landed(env, calls[..|calls| - 1], b) || LandsAt(env, calls, |calls| - 1, b, k)
  {
  }

  /** The journal without some of its calls. */
  function Only(calls: seq<Call>, keep: Call -> bool): seq<Call> {
    if calls == [] then []
    else if keep(calls[|calls| - 1]) then Only(calls[..|calls| - 1], keep) + [calls[|calls| - 1]]
    else Only(calls[..|calls| - 1], keep)
  }

  predicate Alive(c: Call) { !Dead(c) }

  /** A refused, unparsed or pathless call is no write: without all of them the same files
      come out and the same writes and patches are reported. */
  lemma {:induction false} RefusedCallsAreNoWrites(env: Env, calls: seq<Call>)
    requires Matcher(env)
    ensures var live := Only(calls, Alive);
            && FilesOf(env, live) == FilesOf(env, calls)
            && Landed(env, live, Written) == Landed(env, calls, Written)
            && Landed(env, live, Applied) == Landed(env, calls, Applied)
  {
    if calls != [] {
      var front, c := calls[..|calls| - 1], calls[|calls| - 1];
      RefusedCallsAreNoWrites(env, front);
      var live := Only(front, Alive);
      assert (live + [c])[..|live|] == live;
    }
  }

  function At(files: Files, rel: seq<string>): Option<string> {
    if rel in files then Some(files[rel]) else None
  }

  /** A call reads and writes one file only. */
  lemma CallIsLocal(env: Env, a: Files, b: Files, c: Call, rel: seq<string>)
    requires Matcher(env)
    ensures Target(c) != rel ==> At(After(env, a, c), rel) == At(a, rel)
    ensures Target(c) == rel && At(a, rel) == At(b, rel) ==> At(After(env, a, c), rel) == At(After(env, b, c), rel)
  {
    if c.path != "" && Target(c) == rel && At(a, rel) == At(b, rel) {
      assert Base(env, a, c) == Base(env, b, c);
    }
  }

  /** Each restored file is the fold of only the calls that name it. */
  lemma {:induction false} FilesAreIndependent(env: Env, calls: seq<Call>, rel: seq<string>)
    requires Matcher(env)
    ensures At(FilesOf(env, calls), rel) == At(FilesOf(env, Only(calls, c => Target(c) == rel)), rel)
  {
    if calls != [] {
      var front, c := calls[..|calls| - 1], calls[|calls| - 1];
      FilesAreIndependent(env, front, rel);
      var own := Only(front, c => Target(c) == rel);
      assert (own + [c])[..|own|] == own;
      CallIsLocal(env, FilesOf(env, front), FilesOf(env, own), c, rel);
    }
  }

  /** A file is restored exactly when some call that was not refused names it. */
  lemma {:induction false} FileIsRestoredIffNamed(env: Env, calls: seq<Call>, rel: seq<string>)
    requires Matcher(env)
    ensures rel in FilesOf(env, calls) <==> exists i :: 0 <= i < |calls| && !Dead(calls[i]) && Target(calls[i]) == rel
  {
    if calls != [] {
      var front := calls[..|calls| - 1];
      FileIsRestoredIffNamed(env, front, rel);
      assert forall i :: 0 <= i < |front| ==> calls[i] == front[i];
    }
  }

  lemma {:induction false} LaterCallsPass(env: Env, calls: seq<Call>, i: nat)
    requires Matcher(env) && i < |calls|
    requires forall j :: i < j < |calls| ==> Dead(calls[j]) || Target(calls[j]) != Target(calls[i])
    ensures At(FilesOf(env, calls), Target(calls[i])) == At(FilesOf(env, calls[..i + 1]), Target(calls[i]))
  {
    if i == |calls| - 1 {
      assert calls[..i + 1] == calls;
    } else {
      var front, c := calls[..|calls| - 1], calls[|calls| - 1];
      LaterCallsPass(env, front, i);
      assert front[..i + 1] == calls[..i + 1];
      CallIsLocal(env, FilesOf(env, front), FilesOf(env, front), c, Target(calls[i]));
    }
  }

  /** The last live call that names a file decides what it ends up with: a write its content, whatever
      stood there, and a patch what it makes of the text the earlier calls left, or of the seed. */
  lemma {:induction false} LastCallDecides(env: Env, calls: seq<Call>, i: nat)
    requires Matcher(env) && i < |calls| && !Dead(calls[i])
    requires forall j :: i < j < |calls| ==> Dead(calls[j]) || Target(calls[j]) != Target(calls[i])
    ensures var c, before := calls[i], At(FilesOf(env, calls[..i]), Target(calls[i]));
            At(FilesOf(env, calls), Target(c)) ==
            match c.tool
            case WriteFile(content) => Some(content)
            case Patch(anchor, with, all) =>
              var text := GetOr(before, env.seed(Target(c), c.path));
              Some(ApplyPatch(text, anchor, with, all, if anchor.Some? then env.hits(text, anchor.value) else []).0)
  {
    LaterCallsPass(env, calls, i);
    OneMoreCall(env, calls, i);
  }

  /** A patch that is not applied changes no file that was there; it adds its file exactly when
      the file was not there yet, with the text it was seeded from. */
  lemma {:induction false} UnappliedPatchOnlySeeds(env: Env, files: Files, c: Call)
    requires Matcher(env) && !Dead(c) && c.tool.Patch? && BucketOf(env, files, c) != Applied
    ensures After(env, files, c) ==
            if Target(c) in files then files else files[Target(c) := env.seed(Target(c), c.path)]
  {
    var text := Base(env, files, c);
    PatchIsExact(text, c.tool.anchor, c.tool.with, c.tool.all,
                 if c.tool.anchor.Some? then env.hits(text, c.tool.anchor.value) else []);
  }
}
