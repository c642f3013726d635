/**
 * The few JavaScript string primitives the browser-side code relies on:
 * the whitespace class shared by the regular-expression escape `\s` and
 * `String.prototype.trim`, `trim` itself, and `padStart`.
 */
module JsString {
  import opened Common

  /** JavaScript's WhiteSpace and LineTerminator characters (section 22.2.2.9 and 12.2/12.3 of ECMA-262). */
  predicate IsSpace(c: char)
  {
    c == '\t' || c == '\n' || c == '\U{000B}' || c == '\U{000C}' || c == '\r' || c == ' '
    || c == '\U{00A0}' || c == '\U{1680}' || ('\U{2000}' <= c <= '\U{200A}')
    || c == '\U{2028}' || c == '\U{2029}' || c == '\U{202F}' || c == '\U{205F}'
    || c == '\U{3000}' || c == '\U{FEFF}'
  }

  /** The length of the run of whitespace that `t` starts with. */
  function SpaceRun(t: string): (n: nat)
    ensures n <= |t|
    ensures forall k :: 0 <= k < n ==> IsSpace(t[k])
    ensures n < |t| ==> !IsSpace(t[n])
  {
    if |t| == 0 || !IsSpace(t[0]) then 0 else 1 + SpaceRun(t[1..])
  }

  /** `s.trimStart()`: `s` without its leading whitespace. */
  function TrimStart(s: string): (r: string)
    ensures EndsWith(s, r)
    ensures forall k :: 0 <= k < |s| - |r| ==> IsSpace(s[k])
    ensures |r| > 0 ==> !IsSpace(r[0])
  {
    s[SpaceRun(s)..]
  }

  /** `s.trimEnd()`: `s` without its trailing whitespace. */
  function TrimEnd(s: string): (r: string)
    ensures StartsWith(s, r)
    ensures forall k :: |r| <= k < |s| ==> IsSpace(s[k])
    ensures |r| > 0 ==> !IsSpace(r[|r| - 1])
  {
    if |s| > 0 && IsSpace(s[|s| - 1]) then TrimEnd(s[..|s| - 1]) else s
  }

  /** The two halves of `trim`: the whitespace run in front, then the untrimmed tail behind the result. */
  lemma TrimSlice(s: string)
    ensures SpaceRun(s) + |TrimEnd(TrimStart(s))| <= |s|
    ensures TrimEnd(TrimStart(s)) == s[SpaceRun(s)..SpaceRun(s) + |TrimEnd(TrimStart(s))|]
    ensures forall k :: SpaceRun(s) + |TrimEnd(TrimStart(s))| <= k < |s| ==> IsSpace(s[k])
  {
    var n, t := SpaceRun(s), TrimStart(s);
    var r := TrimEnd(t);
    assert r == t[..|r|];
    forall k | n + |r| <= k < |s| ensures IsSpace(s[k]) {
      assert s[k] == t[k - n];
    }
  }

  /** `s.trim()`: a slice of `s` with no whitespace at either end, empty exactly when `s` is all whitespace. */
  function Trim(s: string): (r: string)
    ensures |r| <= |s|
    ensures |r| > 0 ==> !IsSpace(r[0]) && !IsSpace(r[|r| - 1])
    ensures r == "" <==> forall k :: 0 <= k < |s| ==> IsSpace(s[k])
    ensures SpaceRun(s) + |r| <= |s| && r == s[SpaceRun(s)..SpaceRun(s) + |r|]
    ensures forall k :: SpaceRun(s) + |r| <= k < |s| ==> IsSpace(s[k])
  {
    TrimSlice(s);
    var t := TrimStart(s);
    assert TrimEnd(t) == "" ==> t == "";
    assert |TrimEnd(t)| > 0 ==> TrimEnd(t)[0] == t[0];
    TrimEnd(t)
  }

  /** A trimmed string is left alone by a second `trim`, and has no whitespace at either end. */
  lemma TrimIdempotent(s: string)
    ensures Trim(Trim(s)) == Trim(s)
    ensures |Trim(s)| > 0 ==> !IsSpace(Trim(s)[0]) && !IsSpace(Trim(s)[|Trim(s)| - 1])
  {
    var r := Trim(s);
    var t := TrimStart(s);
    assert StartsWith(t, r);
    if |r| > 0 {
      assert r[0] == t[0];
    }
    assert TrimStart(r) == r;
  }

  /** `s.padStart(width, fill)` with a one-character fill: `fill` repeated in front of `s` up to `width` characters. */
  function PadStart(s: string, width: nat, fill: char): (r: string)
    ensures |s| >= width ==> r == s
    ensures |s| < width ==> |r| == width
    ensures |r| >= width
    ensures EndsWith(r, s)
    ensures forall k :: 0 <= k < |r| - |s| ==> r[k] == fill
  {
    if |s| >= width then s else seq(width - |s|, _ => fill) + s
  }
}
