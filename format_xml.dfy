/**
 * `formatXml` of the control panel (winappdriver-web/static/js/main.js):
 * the page-source tree loses every attribute outside an allow-list, is
 * serialised, and the serialised text is cut into one tag per line and
 * indented by a running depth counter.
 *
 * Parsing and serialising are the browser's; the parsed document element
 * and the serialiser are inputs here, and a parse or walk that throws is
 * the absent document.
 */
module FormatXml {
  import opened Common
  import opened JsString

  // ----- The attribute filter -----

  datatype Attr = Attr(name: string, value: string)

  /** A DOM node: an element with its attributes and children, or any node without attributes (text, comment, CDATA). */
  datatype Node =
    | Element(tag: string, attrs: seq<Attr>, children: seq<Node>)
    | Leaf(data: string)

  const AllowedAttrs: seq<string> := ["ClassName", "RuntimeId", "Name"]

  predicate Allowed(a: Attr)
  {
    a.name in AllowedAttrs
  }

  /**
   * The attributes left on one element after its allow-list pass: every
   * allowed attribute as often as it occurs (`KeepAllowedCounts`), no
   * other, in their original order (`KeepAllowedAppend`).
   */
  function KeepAllowed(attrs: seq<Attr>): (kept: seq<Attr>)
    ensures forall a :: a in kept <==> a in attrs && Allowed(a)
    ensures |kept| <= |attrs|
    ensures (forall a :: a in attrs ==> Allowed(a)) ==> kept == attrs
    ensures |attrs| == 1 ==> kept == if Allowed(attrs[0]) then attrs else []
  {
    if |attrs| == 0 then []
    else
      var init := attrs[..|attrs| - 1];
      assert attrs == init + [attrs[|attrs| - 1]];
      KeepAllowed(init) + (if Allowed(attrs[|attrs| - 1]) then [attrs[|attrs| - 1]] else [])
  }

  /** Every allowed attribute is kept as often as it occurs, and no other. */
  lemma {:induction false} KeepAllowedCounts(attrs: seq<Attr>)
    ensures forall a :: multiset(KeepAllowed(attrs))[a] == if Allowed(a) then multiset(attrs)[a] else 0
    decreases |attrs|
  {
    if |attrs| > 0 {
      var init, x := attrs[..|attrs| - 1], attrs[|attrs| - 1];
      assert attrs == init + [x];
      KeepAllowedCounts(init);
      assert multiset(attrs) == multiset(init) + multiset{x};
      assert KeepAllowed(attrs) == KeepAllowed(init) + (if Allowed(x) then [x] else []);
    }
  }

  /** Filtering a concatenation filters each part and keeps them in order. */
  lemma {:induction false} KeepAllowedAppend(a: seq<Attr>, b: seq<Attr>)
    ensures KeepAllowed(a + b) == KeepAllowed(a) + KeepAllowed(b)
    decreases |b|
  {
    if |b| == 0 {
      assert a + b == a;
    } else {
      var init, x := b[..|b| - 1], b[|b| - 1];
      var last := if Allowed(x) then [x] else [];
      assert (a + b)[..|a + b| - 1] == a + init;
      assert (a + b)[|a + b| - 1] == x;
      assert KeepAllowed(a + b) == KeepAllowed(a + init) + last;
      assert KeepAllowed(b) == KeepAllowed(init) + last;
      KeepAllowedAppend(a, init);
      assert KeepAllowed(a) + KeepAllowed(init) + last == KeepAllowed(a) + (KeepAllowed(init) + last);
    }
  }

  /** The tree after `walk`: every element at every depth keeps only its allowed attributes. */
  function Pruned(n: Node): (r: Node)
    ensures r.Leaf? <==> n.Leaf?
    ensures n.Leaf? ==> r == n
    ensures n.Element? ==> r.tag == n.tag && |r.children| == |n.children| && forall a :: a in r.attrs ==> Allowed(a)
  {
    match n
    case Leaf(_) => n
    case Element(tag, attrs, children) =>
      Element(tag, KeepAllowed(attrs), seq(|children|, i requires 0 <= i < |children| => Pruned(children[i])))
  }

  /** No element anywhere in the tree carries an attribute outside the allow-list. */
  predicate OnlyAllowed(n: Node)
  {
    match n
    case Leaf(_) => true
    case Element(_, attrs, children) =>
      (forall a :: a in attrs ==> Allowed(a)) && (forall i :: 0 <= i < |children| ==> OnlyAllowed(children[i]))
  }

  /** The tree with every attribute dropped: what `walk` must not change. */
  function Outline(n: Node): Node
  {
    match n
    case Leaf(_) => n
    case Element(tag, _, children) =>
      Element(tag, [], seq(|children|, i requires 0 <= i < |children| => Outline(children[i])))
  }

  /**
   * `walk`: one pass over an element's attributes dropping those outside
   * the allow-list, then the same for every child.
   */
  method Walk(n: Node) returns (r: Node)
    ensures r == Pruned(n)
    decreases n, 1
  {
    match n
    case Leaf(_) =>
      r := n;
    case Element(tag, attrs, children) =>
      var kept := KeepAttributes(attrs);
      var walked := WalkChildren(n);
      r := Element(tag, kept, walked);
  }

  /** The recursive `walk` of every child, in order. */
  method WalkChildren(parent: Node) returns (walked: seq<Node>)
    requires parent.Element?
    ensures walked == Pruned(parent).children
    decreases parent, 0
  {
    var children := parent.children;
    walked := [];
    for i := 0 to |children|
      invariant |walked| == i
      invariant forall j :: 0 <= j < i ==> walked[j] == Pruned(children[j])
    {
      var child := Walk(children[i]);
      walked := walked + [child];
    }
  }

  /** The loop over one element's attributes, keeping those on the allow-list in order. */
  method KeepAttributes(attrs: seq<Attr>) returns (kept: seq<Attr>)
    ensures kept == KeepAllowed(attrs)
  {
    kept := [];
    for i := 0 to |attrs|
      invariant kept == KeepAllowed(attrs[..i])
    {
      assert attrs[..i + 1][..i] == attrs[..i];
      if attrs[i].name in AllowedAttrs {
        kept := kept + [attrs[i]];
      }
    }
    assert attrs[..|attrs|] == attrs;
  }

  /** After `walk`, no element at any depth keeps an attribute outside the allow-list. */
  lemma {:induction false} PrunedOnlyAllowed(n: Node)
    ensures OnlyAllowed(Pruned(n))
  {
    match n
    case Leaf(_) =>
    case Element(tag, attrs, children) =>
      forall i | 0 <= i < |children|
        ensures OnlyAllowed(Pruned(n).children[i])
      {
        PrunedOnlyAllowed(children[i]);
      }
  }

  /** A tree already restricted to the allow-list is left as it is. */
  lemma {:induction false} PrunedKeepsAllowedTree(n: Node)
    requires OnlyAllowed(n)
    ensures Pruned(n) == n
  {
    match n
    case Leaf(_) =>
    case Element(tag, attrs, children) =>
      forall i | 0 <= i < |children|
        ensures Pruned(children[i]) == children[i]
      {
        PrunedKeepsAllowedTree(children[i]);
      }
      assert Pruned(n).children == children;
  }

  /** Walking twice is walking once. */
  lemma PrunedIdempotent(n: Node)
    ensures Pruned(Pruned(n)) == Pruned(n)
  {
    PrunedOnlyAllowed(n);
    PrunedKeepsAllowedTree(Pruned(n));
  }

  /** `walk` removes attributes and nothing else: tags, text and the children's order are untouched. */
  lemma {:induction false} PrunedKeepsOutline(n: Node)
    ensures Outline(Pruned(n)) == Outline(n)
  {
    match n
    case Leaf(_) =>
    case Element(tag, attrs, children) =>
      forall i | 0 <= i < |children|
        ensures Outline(Pruned(children[i])) == Outline(children[i])
      {
        PrunedKeepsOutline(children[i]);
      }
      assert Outline(Pruned(n)).children == Outline(n).children;
  }

  // ----- `.replace(/>\s*</g, '><')` -----

  /** `s` starts with a match of `>\s*<`: a `>`, a run of whitespace, then `<`. */
  predicate GapMatch(s: string)
  {
    |s| >= 2 && s[0] == '>' && 1 + SpaceRun(s[1..]) < |s| && s[1 + SpaceRun(s[1..])] == '<'
  }

  /** The global replacement of `>\s*<` by `><`, scanning left to right. */
  function Collapse(s: string): (r: string)
    ensures |r| <= |s|
    ensures |r| > 0 <==> |s| > 0
    ensures |s| > 0 ==> r[0] == s[0]
    decreases |s|
  {
    if |s| == 0 then ""
    else if GapMatch(s) then "><" + Collapse(s[2 + SpaceRun(s[1..])..])
    else [s[0]] + Collapse(s[1..])
  }

  /** No `>` in `s` is followed by whitespace and then `<`. */
  predicate Tight(s: string)
    decreases |s|
  {
    |s| == 0 || ((GapMatch(s) ==> s[1] == '<') && Tight(s[1..]))
  }

  /** The characters of `s` that are not whitespace, in order. */
  function Solid(s: string): (r: string)
    ensures |r| <= |s|
  {
    if |s| == 0 then "" else (if IsSpace(s[0]) then "" else [s[0]]) + Solid(s[1..])
  }

  /** Collapsing keeps a leading whitespace run and the character after it. */
  lemma {:induction false} CollapseKeepsLead(t: string)
    ensures SpaceRun(Collapse(t)) == SpaceRun(t)
    ensures SpaceRun(t) < |t| <==> SpaceRun(t) < |Collapse(t)|
    ensures SpaceRun(t) < |t| ==> Collapse(t)[SpaceRun(t)] == t[SpaceRun(t)]
    decreases |t|
  {
    if |t| > 0 && IsSpace(t[0]) {
      CollapseKeepsLead(t[1..]);
      assert Collapse(t) == [t[0]] + Collapse(t[1..]);
      assert Collapse(t)[1..] == Collapse(t[1..]);
    }
  }

  /** After collapsing, no `>` is followed by whitespace and then `<`. */
  lemma {:induction false} CollapseIsTight(s: string)
    ensures Tight(Collapse(s))
    decreases |s|
  {
    if |s| == 0 {
    } else if GapMatch(s) {
      var rest := s[2 + SpaceRun(s[1..])..];
      CollapseIsTight(rest);
      var r := Collapse(s);
      assert r[1..][1..] == Collapse(rest);
    } else {
      CollapseIsTight(s[1..]);
      var r := Collapse(s);
      assert r[1..] == Collapse(s[1..]);
      CollapseKeepsLead(s[1..]);
      assert !GapMatch(r);
    }
  }

  /** A string without such gaps is left as it is. */
  lemma {:induction false} CollapseKeepsTight(s: string)
    requires Tight(s)
    ensures Collapse(s) == s
    decreases |s|
  {
    if |s| == 0 {
    } else if GapMatch(s) {
      assert SpaceRun(s[1..]) == 0;
      assert s[1..][1..] == s[2..];
      CollapseKeepsTight(s[2..]);
      assert s == "><" + s[2..];
    } else {
      CollapseKeepsTight(s[1..]);
      assert s == [s[0]] + s[1..];
    }
  }

  /** Collapsing twice is collapsing once. */
  lemma CollapseIdempotent(s: string)
    ensures Collapse(Collapse(s)) == Collapse(s)
  {
    CollapseIsTight(s);
    CollapseKeepsTight(Collapse(s));
  }

  lemma {:induction false} SolidSkipsSpaces(t: string, k: nat)
    requires k <= |t| && forall j :: 0 <= j < k ==> IsSpace(t[j])
    ensures Solid(t) == Solid(t[k..])
    decreases k
  {
    if k > 0 {
      SolidSkipsSpaces(t[1..], k - 1);
      assert t[1..][k - 1..] == t[k..];
    }
  }

  lemma SolidCons(c: char, t: string)
    ensures Solid([c] + t) == (if IsSpace(c) then "" else [c]) + Solid(t)
  {
    assert ([c] + t)[1..] == t;
  }

  /** What remains of a `>\s*<` match once whitespace is dropped. */
  lemma SolidOfGap(s: string)
    requires GapMatch(s)
    ensures Solid(s) == "><" + Solid(s[2 + SpaceRun(s[1..])..])
  {
    var k := SpaceRun(s[1..]);
    var rest := s[2 + k..];
    SolidCons(s[0], s[1..]);
    assert s == [s[0]] + s[1..];
    SolidSkipsSpaces(s[1..], k);
    assert s[1..][k..] == [s[1 + k]] + rest;
    SolidCons('<', rest);
  }

  lemma SolidOfReplacement(t: string)
    ensures Solid("><" + t) == "><" + Solid(t)
  {
    SolidCons('>', "<" + t);
    assert "><" + t == ['>'] + ("<" + t);
    SolidCons('<', t);
  }

  lemma GapStepSolid(s: string)
    requires GapMatch(s)
    requires Solid(Collapse(s[2 + SpaceRun(s[1..])..])) == Solid(s[2 + SpaceRun(s[1..])..])
    ensures Solid(Collapse(s)) == Solid(s)
  {
    SolidOfGap(s);
    SolidOfReplacement(Collapse(s[2 + SpaceRun(s[1..])..]));
  }

  lemma CollapsePlain(s: string)
    requires |s| > 0 && !GapMatch(s)
    ensures Collapse(s) == [s[0]] + Collapse(s[1..])
  {
  }

  lemma SolidConsSame(c: char, t: string, u: string)
    requires Solid(u) == Solid(t)
    ensures Solid([c] + u) == Solid([c] + t)
  {
    SolidCons(c, t);
    SolidCons(c, u);
  }

  /** Collapsing removes whitespace only: every other character survives, in order. */
  lemma {:induction false} CollapseRemovesOnlySpace(s: string)
    ensures Solid(Collapse(s)) == Solid(s)
    decreases |s|
  {
    if |s| == 0 {
    } else if GapMatch(s) {
      CollapseRemovesOnlySpace(s[2 + SpaceRun(s[1..])..]);
      GapStepSolid(s);
    } else {
      CollapseRemovesOnlySpace(s[1..]);
      CollapsePlain(s);
      SolidConsSame(s[0], s[1..], Collapse(s[1..]));
      assert s == [s[0]] + s[1..];
    }
  }

  // ----- `.split(/>(?=<)/)` -----

  /** No `>` in `p` is immediately followed by `<`. */
  predicate NoBoundary(p: string)
  {
    forall j :: 0 <= j < |p| - 1 ==> !(p[j] == '>' && p[j + 1] == '<')
  }

  /**
   * Splitting at every `>` that is followed by `<`, dropping that `>`: the
   * first piece is a prefix of `s`, every later piece starts with `<`, and
   * no piece still holds such a `>`.
   */
  function Split(s: string): (pieces: seq<string>)
    ensures |pieces| >= 1
    ensures StartsWith(s, pieces[0])
    ensures forall k :: 1 <= k < |pieces| ==> StartsWith(pieces[k], "<")
    ensures forall k :: 0 <= k < |pieces| ==> NoBoundary(pieces[k])
    decreases |s|
  {
    if |s| < 2 then [s]
    else if s[0] == '>' && s[1] == '<' then [""] + Split(s[1..])
    else
      var rest := Split(s[1..]);
      var first := [s[0]] + rest[0];
      assert |rest[0]| > 0 ==> rest[0][0] == s[1];
      assert forall j :: 1 <= j < |first| ==> first[j] == rest[0][j - 1];
      [first] + rest[1..]
  }

  /** `pieces.join(sep)`. */
  function Join(pieces: seq<string>, sep: string): string
    requires |pieces| >= 1
    decreases |pieces|
  {
    if |pieces| == 1 then pieces[0] else pieces[0] + sep + Join(pieces[1..], sep)
  }

  /** Joining the pieces with `>` gives back the text that was split. */
  lemma {:induction false} SplitJoin(s: string)
    ensures Join(Split(s), ">") == s
    decreases |s|
  {
    if |s| < 2 {
    } else if s[0] == '>' && s[1] == '<' {
      SplitJoin(s[1..]);
      assert ([""] + Split(s[1..]))[1..] == Split(s[1..]);
    } else {
      SplitJoin(s[1..]);
      var rest := Split(s[1..]);
      var pieces := Split(s);
      if |rest| > 1 {
        assert pieces[1..] == rest[1..];
      }
    }
  }

  // ----- One line per tag -----

  /** A line gets a `<` in front unless it has one, and a `>` after unless it has one. */
  function NormalizeLine(piece: string): (line: string)
    ensures |line| >= 2 && line[0] == '<' && line[|line| - 1] == '>'
    ensures StartsWith(piece, "<") && EndsWith(piece, ">") ==> line == piece
    ensures |piece| <= |line| <= |piece| + 2
  {
    var front := if StartsWith(piece, "<") then piece else "<" + piece;
    assert |front| >= 1 && front[0] == '<';
    if EndsWith(front, ">") then front else front + ">"
  }

  function NormalizeAll(pieces: seq<string>): (lines: seq<string>)
    ensures |lines| == |pieces|
    ensures forall i :: 0 <= i < |lines| ==> lines[i] == NormalizeLine(pieces[i])
  {
    seq(|pieces|, i requires 0 <= i < |pieces| => NormalizeLine(pieces[i]))
  }

  /** The lines of a serialised document: collapse, split, normalise. */
  function Lines(serialized: string): (lines: seq<string>)
    ensures |lines| >= 1
    ensures forall i :: 0 <= i < |lines| ==> |lines[i]| >= 2 && lines[i][0] == '<' && lines[i][|lines[i]| - 1] == '>'
  {
    NormalizeAll(Split(Collapse(serialized)))
  }

  /** `line.match(/^<\//)`: a closing tag. */
  predicate IsClosing(line: string)
    ensures IsClosing(line) <==> StartsWith(line, "</")
  {
    |line| >= 2 && line[0] == '<' && line[1] == '/'
  }

  /** `line.match(/^<[^/!][^>]*[^/]>$/)`: an opening tag that is not self-closing. */
  predicate IsOpening(line: string)
    ensures IsOpening(line) ==> StartsWith(line, "<") && EndsWith(line, ">") && |line| >= 4
    ensures IsOpening(line) ==> !IsClosing(line) && !StartsWith(line, "<!") && !EndsWith(line, "/>")
  {
    |line| >= 4 && line[0] == '<' && line[1] != '/' && line[1] != '!'
    && (forall k :: 2 <= k < |line| - 2 ==> line[k] != '>')
    && line[|line| - 2] != '/' && line[|line| - 1] == '>'
  }

  /** The depth counter after the given lines: a closing tag lowers it, an opening tag raises it. */
  function LevelAfter(lines: seq<string>): (level: int)
    decreases |lines|
  {
    if |lines| == 0 then 0
    else
      var last := lines[|lines| - 1];
      LevelAfter(lines[..|lines| - 1]) - (if IsClosing(last) then 1 else 0) + (if IsOpening(last) then 1 else 0)
  }

  /** The depth line `i` is printed at: the counter after any decrement for this line, floored at zero. */
  function Depth(lines: seq<string>, i: nat): (d: nat)
    requires i < |lines|
  {
    var d := LevelAfter(lines[..i]) - (if IsClosing(lines[i]) then 1 else 0);
    if d < 0 then 0 else d
  }

  /** Each line moves the counter by at most one. */
  lemma {:induction false} LevelBounded(lines: seq<string>)
    ensures -|lines| <= LevelAfter(lines) <= |lines|
    decreases |lines|
  {
    if |lines| > 0 {
      LevelBounded(lines[..|lines| - 1]);
    }
  }

  /** No line is indented deeper than the number of lines before it. */
  lemma DepthBounded(lines: seq<string>, i: nat)
    requires i < |lines|
    ensures Depth(lines, i) <= i
  {
    LevelBounded(lines[..i]);
  }

  function Spaces(n: nat): (s: string)
    ensures |s| == n && forall k :: 0 <= k < n ==> s[k] == ' '
  {
    seq(n, _ => ' ')
  }

  /** Every line behind two spaces per level of its depth. */
  function Indented(lines: seq<string>): (out: seq<string>)
    ensures |out| == |lines|
  {
    seq(|lines|, i requires 0 <= i < |lines| => Spaces(2 * Depth(lines, i)) + lines[i])
  }

  /** The lines, each followed by a newline. */
  function Terminated(ls: seq<string>): string
    decreases |ls|
  {
    if |ls| == 0 then "" else Terminated(ls[..|ls| - 1]) + ls[|ls| - 1] + "\n"
  }

  /** One pass of the indentation loop, from the state after `i` lines to the state after `i + 1`. */
  lemma LoopStep(lines: seq<string>, i: nat, before: int)
    requires i < |lines| && before == LevelAfter(lines[..i])
    ensures var during := before - (if IsClosing(lines[i]) then 1 else 0);
            && LevelAfter(lines[..i + 1]) == during + (if IsOpening(lines[i]) then 1 else 0)
            && Terminated(Indented(lines)[..i + 1])
               == Terminated(Indented(lines)[..i]) + Spaces(2 * (if during < 0 then 0 else during)) + lines[i] + "\n"
  {
    assert lines[..i + 1][..i] == lines[..i];
    assert Indented(lines)[..i + 1][..i] == Indented(lines)[..i];
  }

  lemma TakeAll(ls: seq<string>)
    ensures ls[..|ls|] == ls
  {
  }

  /** The two `if`s at the head of the loop body. */
  method CompleteLine(piece: string) returns (line: string)
    ensures line == NormalizeLine(piece)
  {
    line := piece;
    if !StartsWith(line, "<") {
      line := "<" + line;
    }
    if !EndsWith(line, ">") {
      line := line + ">";
    }
  }

  /** The counter updates around one line: the decrement before printing, the increment after. */
  method Levels(line: string, indent: int) returns (pad: nat, next: int)
    ensures var during := indent - (if IsClosing(line) then 1 else 0);
            pad == (if during < 0 then 0 else during)
            && next == during + (if IsOpening(line) then 1 else 0)
  {
    next := indent;
    if IsClosing(line) {
      next := next - 1;
    }
    pad := if next < 0 then 0 else next;
    if IsOpening(line) {
      next := next + 1;
    }
  }

  /** The loop invariant survives one pass. */
  lemma IndentStep(lines: seq<string>, i: nat, indent: int, result: string, pad: nat, next: int)
    requires i < |lines| && indent == LevelAfter(lines[..i]) && result == Terminated(Indented(lines)[..i])
    requires var during := indent - (if IsClosing(lines[i]) then 1 else 0);
             pad == (if during < 0 then 0 else during)
             && next == during + (if IsOpening(lines[i]) then 1 else 0)
    ensures next == LevelAfter(lines[..i + 1])
    ensures result + Spaces(2 * pad) + lines[i] + "\n" == Terminated(Indented(lines)[..i + 1])
  {
    LoopStep(lines, i, indent);
  }

  /** The indentation loop over the split pieces. */
  method IndentLines(pieces: seq<string>) returns (result: string)
    ensures result == Terminated(Indented(NormalizeAll(pieces)))
  {
    ghost var lines := NormalizeAll(pieces);
    var indent := 0;
    result := "";
    for i := 0 to |pieces|
      invariant indent == LevelAfter(lines[..i])
      invariant result == Terminated(Indented(lines)[..i])
    {
      var line := CompleteLine(pieces[i]);
      assert line == lines[i];
      var pad, next := Levels(line, indent);
      IndentStep(lines, i, indent, result, pad, next);
      result := result + Spaces(2 * pad) + line + "\n";
      indent := next;
    }
    TakeAll(Indented(lines));
  }

  /** Each printed line is its tag behind exactly twice its depth in spaces, never fewer than zero. */
  lemma IndentedLine(lines: seq<string>, i: nat)
    requires i < |lines| && StartsWith(lines[i], "<")
    ensures TrimStart(Indented(lines)[i]) == lines[i]
    ensures |Indented(lines)[i]| == 2 * Depth(lines, i) + |lines[i]|
  {
    var out := Indented(lines)[i];
    var n := 2 * Depth(lines, i);
    assert out[n..] == lines[i];
    SpaceRunOfIndent(out, n);
  }

  lemma {:induction false} SpaceRunOfIndent(t: string, n: nat)
    requires n < |t| && (forall k :: 0 <= k < n ==> t[k] == ' ') && t[n] == '<'
    ensures SpaceRun(t) == n
    decreases n
  {
    if n > 0 {
      SpaceRunOfIndent(t[1..], n - 1);
    }
  }

  /** How one line moves the counter: down by one for a closing tag, up by one for an opening tag, otherwise not. */
  lemma LevelStep(lines: seq<string>, i: nat)
    requires i < |lines|
    ensures LevelAfter(lines[..i + 1]) == LevelAfter(lines[..i]) + (if IsOpening(lines[i]) then 1 else 0) - (if IsClosing(lines[i]) then 1 else 0)
    ensures !(IsOpening(lines[i]) && IsClosing(lines[i]))
    ensures EndsWith(lines[i], "/>") || StartsWith(lines[i], "<!") ==> !IsOpening(lines[i])
    ensures StartsWith(lines[i], "<!") ==> LevelAfter(lines[..i + 1]) == LevelAfter(lines[..i])
  {
    assert lines[..i + 1][..i] == lines[..i];
    if EndsWith(lines[i], "/>") {
      assert lines[i][|lines[i]| - 2] == '/';
    }
    if StartsWith(lines[i], "<!") {
      assert lines[i][1] == '!';
    }
  }

  /** A one-letter opening tag such as `<a>` does not raise the counter; `<ab>` does. */
  lemma ShortOpeningTag()
    ensures !IsOpening("<a>")
    ensures IsOpening("<ab>")
  {
  }

  lemma {:induction false} JoinSnoc(ls: seq<string>, sep: string)
    requires |ls| >= 2
    ensures Join(ls, sep) == Join(ls[..|ls| - 1], sep) + sep + ls[|ls| - 1]
    decreases |ls|
  {
    if |ls| > 2 {
      JoinSnoc(ls[1..], sep);
      assert ls[1..][..|ls| - 2] == ls[..|ls| - 1][1..];
    }
  }

  lemma {:induction false} TerminatedJoin(ls: seq<string>)
    requires |ls| >= 1
    ensures Terminated(ls) == Join(ls, "\n") + "\n"
    decreases |ls|
  {
    if |ls| > 1 {
      TerminatedJoin(ls[..|ls| - 1]);
      JoinSnoc(ls, "\n");
    }
  }

  /**
   * Trimming the loop's output removes exactly its final newline: the first
   * line starts at depth zero with `<` and the last line ends with `>`.
   */
  lemma {:induction false} TrimTerminated(lines: seq<string>)
    requires |lines| >= 1
    requires forall i :: 0 <= i < |lines| ==> |lines[i]| >= 2 && lines[i][0] == '<' && lines[i][|lines[i]| - 1] == '>'
    ensures Trim(Terminated(Indented(lines))) == Join(Indented(lines), "\n")
  {
    var out := Indented(lines);
    TerminatedJoin(out);
    var joined := Join(out, "\n");
    assert Depth(lines, 0) == 0 by {
      assert lines[..0] == [];
    }
    assert out[0] == lines[0];
    assert joined[0] == '<' by {
      JoinStartsWith(out, "\n");
    }
    var last := out[|out| - 1];
    assert last[|last| - 1] == '>';
    assert joined[|joined| - 1] == '>' by {
      if |out| >= 2 {
        JoinSnoc(out, "\n");
      }
    }
    TrimNewline(joined);
  }

  /** Trimming a text that starts with `<` and ends with `>` plus a newline drops only the newline. */
  lemma TrimNewline(text: string)
    requires |text| > 0 && text[0] == '<' && text[|text| - 1] == '>'
    ensures Trim(text + "\n") == text
  {
    var t := text + "\n";
    assert !IsSpace(t[0]);
    assert TrimStart(t) == t[0..];
    assert t[0..] == t;
    assert t[..|t| - 1] == text;
    assert TrimEnd(t) == TrimEnd(text);
  }

  lemma JoinStartsWith(ls: seq<string>, sep: string)
    requires |ls| >= 1 && |ls[0]| > 0
    ensures |Join(ls, sep)| > 0 && Join(ls, sep)[0] == ls[0][0]
  {
  }

  /**
   * `formatXml`: with a parsed document element, the filtered tree's
   * serialisation laid out one tag per line; if parsing or the walk
   * throws, the input unchanged.
   */
  method Format(xml: string, document: Option<Node>, serialize: Node -> string) returns (r: string)
    ensures document.None? ==> r == xml
    ensures document.Some? ==> r == Join(Indented(Lines(serialize(Pruned(document.value)))), "\n")
  {
    if document.None? {
      return xml;
    }
    var walked := Walk(document.value);
    var formatted := serialize(walked);
    var result := IndentLines(Split(Collapse(formatted)));
    assert result == Terminated(Indented(Lines(formatted)));
    r := Trim(result);
    TrimTerminated(Lines(formatted));
  }
}
