/** The JavaScript string built-ins the components rely on: `trim`,
    `toLowerCase` and `toUpperCase` (on the Latin-1 letters, with `ÿ`, `µ`
    and `ß` upper-cased outside Latin-1), `includes`, `startsWith` and
    `substring`, over strings of code points. */
module JsText {

  /** White space and line terminators as `String.prototype.trim` strips
      them: TAB, VT, FF, SP, NBSP, ZWNBSP, the Zs category, LF, CR, LS, PS. */
  predicate IsJsWhitespace(c: char) {
    c == '\t' || c == '\U{B}' || c == '\U{C}' || c == ' ' || c == '\U{A0}' ||
    c == '\U{FEFF}' || c == '\U{1680}' || ('\U{2000}' <= c <= '\U{200A}') ||
    c == '\U{202F}' || c == '\U{205F}' || c == '\U{3000}' ||
    c == '\n' || c == '\r' || c == '\U{2028}' || c == '\U{2029}'
  }

  predicate AllWhitespace(s: string) {
    forall i :: 0 <= i < |s| ==> IsJsWhitespace(s[i])
  }

  /** `s.trimStart()`: drops the leading white space. */
  function TrimStart(s: string): (r: string)
    ensures |r| <= |s| && r == s[|s| - |r|..]
    ensures AllWhitespace(s[..|s| - |r|])
    ensures r == [] || !IsJsWhitespace(r[0])
  {
    if s != [] && IsJsWhitespace(s[0]) then
      var r := TrimStart(s[1..]);
      LeadingWhitespaceStep(s, |r|);
      r
    else s
  }

  /** White space in front of a white-space prefix of the rest, with `k`
      characters left after both: the characters before those `k` are all
      white space, and the `k` are the rest's last `k`. */
  lemma LeadingWhitespaceStep(s: string, k: nat)
    requires s != [] && IsJsWhitespace(s[0]) && k <= |s| - 1
    requires AllWhitespace(s[1..][..|s| - 1 - k])
    ensures s[|s| - k..] == s[1..][|s| - 1 - k..]
    ensures AllWhitespace(s[..|s| - k])
  {
    assert s[..|s| - k] == [s[0]] + s[1..][..|s| - 1 - k];
  }

  /** `s.trimEnd()`: drops the trailing white space. */
  function TrimEnd(s: string): (r: string)
    ensures |r| <= |s| && r == s[..|r|]
    ensures AllWhitespace(s[|r|..])
    ensures r == [] || !IsJsWhitespace(r[|r| - 1])
  {
    if s != [] && IsJsWhitespace(s[|s| - 1]) then
      var r := TrimEnd(s[..|s| - 1]);
      TrailingWhitespaceStep(s, |r|);
      r
    else s
  }

  /** The mirror of `LeadingWhitespaceStep` at the end of the text. */
  lemma TrailingWhitespaceStep(s: string, k: nat)
    requires s != [] && IsJsWhitespace(s[|s| - 1]) && k <= |s| - 1
    requires AllWhitespace(s[..|s| - 1][k..])
    ensures s[..k] == s[..|s| - 1][..k]
    ensures AllWhitespace(s[k..])
  {
    assert s[k..] == s[..|s| - 1][k..] + [s[|s| - 1]];
  }

  /** `s.trim()`. */
  function Trim(s: string): string {
    TrimEnd(TrimStart(s))
  }

  /** What `trim` keeps is a contiguous part of `s` with white space all
      around it, beginning and ending with a non-space character. */
  lemma TrimIsInnerSlice(s: string)
    ensures exists i, j ::
      (0 <= i <= j <= |s| && Trim(s) == s[i..j] && AllWhitespace(s[..i]) && AllWhitespace(s[j..]))
    ensures Trim(s) == [] || (!IsJsWhitespace(Trim(s)[0]) && !IsJsWhitespace(Trim(s)[|Trim(s)| - 1]))
  {
    var t := TrimStart(s);
    var u := TrimEnd(t);
    var i := |s| - |t|;
    var j := i + |u|;
    assert Trim(s) == u == t[..|u|];
    SuffixSlices(s, i, |u|);
    assert AllWhitespace(s[..i]) && AllWhitespace(s[j..]);
  }

  /** Cutting a suffix of `s` at `k` cuts `s` at `i + k`. */
  lemma SuffixSlices(s: string, i: nat, k: nat)
    requires i + k <= |s|
    ensures s[i..][..k] == s[i..i + k] && s[i..][k..] == s[i + k..]
  {
  }

  /** `trim` gives the empty string exactly on all-white-space input. */
  lemma TrimEmptyIff(s: string)
    ensures Trim(s) == [] <==> AllWhitespace(s)
  {
    var t := TrimStart(s);
    if !AllWhitespace(s) {
      var k :| 0 <= k < |s| && !IsJsWhitespace(s[k]);
      assert k >= |s| - |t|;
    }
  }

  /** The capitals of Latin-1: A to Z, and the accented letters U+00C0 to
      U+00DE except the multiplication sign U+00D7. */
  predicate IsLatinCapital(c: char) {
    'A' <= c <= 'Z' || ('\U{C0}' <= c <= '\U{DE}' && c != '\U{D7}')
  }

  /** Text that neither starts nor ends with white space is kept whole. */
  lemma TrimKeepsUnpadded(s: string)
    requires s == [] || (!IsJsWhitespace(s[0]) && !IsJsWhitespace(s[|s| - 1]))
    ensures Trim(s) == s
  {
    assert TrimStart(s) == s;
    assert TrimEnd(s) == s;
  }

  /** `c.toLowerCase()` on the Latin-1 capitals, each 32 code points below
      its small letter; every other character is kept. */
  function LowerChar(c: char): (r: char)
    ensures IsLatinCapital(c) ==> r as int == c as int + 32
    ensures !IsLatinCapital(c) ==> r == c
  {
    if IsLatinCapital(c) then (c as int + 32) as char else c
  }

  /** The Latin-1 small letters with a Latin-1 capital, 32 code points
      below: `a` to `z` and `à` to `þ` except `÷`. */
  predicate IsLatinSmall(c: char) {
    'a' <= c <= 'z' || ('\U{E0}' <= c <= '\U{FE}' && c != '\U{F7}')
  }

  /** `c.toUpperCase()` for every character but `ß`: a Latin-1 small letter
      moves down 32 code points to its capital, `ÿ` becomes `Ÿ` and `µ` the Greek capital mu;
      every other character is kept. */
  function UpperChar(c: char): (r: char)
    ensures IsLatinSmall(c) ==> r as int == c as int - 32 && IsLatinCapital(r)
    ensures c == '\U{FF}' ==> r == '\U{178}'
    ensures c == '\U{B5}' ==> r == '\U{39C}'
    ensures !IsLatinSmall(c) && c != '\U{FF}' && c != '\U{B5}' ==> r == c
  {
    if IsLatinSmall(c) then (c as int - 32) as char
    else if c == '\U{FF}' then '\U{178}'
    else if c == '\U{B5}' then '\U{39C}'
    else c
  }

  /** `c.toUpperCase()` as text: `ß` becomes the two letters "SS". */
  function UpperText(c: char): (r: string)
    ensures c == '\U{DF}' ==> r == "SS"
    ensures c != '\U{DF}' ==> r == [UpperChar(c)]
  {
    if c == '\U{DF}' then "SS" else [UpperChar(c)]
  }

  function ToLower(s: string): (r: string)
    ensures |r| == |s| && forall i :: 0 <= i < |s| ==> r[i] == LowerChar(s[i])
  {
    if s == [] then [] else [LowerChar(s[0])] + ToLower(s[1..])
  }

  /** `s.toUpperCase()` on Latin-1 text: never shorter, and without `ß`
      the same length, raised character by character. */
  function ToUpper(s: string): (r: string)
    ensures |r| >= |s|
    ensures '\U{DF}' !in s ==> |r| == |s| && forall i :: 0 <= i < |s| ==> r[i] == UpperChar(s[i])
  {
    if s == [] then [] else UpperText(s[0]) + ToUpper(s[1..])
  }

  /** Lower-casing undoes upper-casing on text of Latin-1 small letters. */
  lemma {:induction false} LowerUndoesUpper(s: string)
    requires forall i :: 0 <= i < |s| ==> IsLatinSmall(s[i])
    ensures ToLower(ToUpper(s)) == s
  {
    assert '\U{DF}' !in s by {
      forall i | 0 <= i < |s|
        ensures s[i] != '\U{DF}'
      {
        assert IsLatinSmall(s[i]);
      }
    }
    var up := ToUpper(s);
    forall i | 0 <= i < |s|
      ensures ToLower(up)[i] == s[i]
    {
      assert up[i] == UpperChar(s[i]);
      assert IsLatinCapital(up[i]);
    }
  }

  /** `s.startsWith(p)`. */
  predicate StartsWith(s: string, p: string) {
    |p| <= |s| && s[..|p|] == p
  }

  /** `s.includes(sub)`: some position of `s` begins a copy of `sub`. */
  predicate OccursAt(s: string, sub: string, i: int) {
    0 <= i && i + |sub| <= |s| && s[i..i + |sub|] == sub
  }

  function Includes(s: string, sub: string): (r: bool)
    ensures r <==> exists i :: OccursAt(s, sub, i)
  {
    if StartsWith(s, sub) then
      assert OccursAt(s, sub, 0);
      true
    else if s == [] then
      false
    else
      var r := Includes(s[1..], sub);
      assert forall i :: OccursAt(s[1..], sub, i) ==> OccursAt(s, sub, i + 1);
      assert forall i :: OccursAt(s, sub, i) && i > 0 ==> OccursAt(s[1..], sub, i - 1);
      r
  }

  function Clamp(x: int, len: nat): (r: nat)
    ensures r <= len
  {
    if x < 0 then 0 else if x > len then len else x
  }

  /** `s.substring(a, b)`: both ends clamped into `[0, |s|]`, swapped when
      out of order. */
  function Substring(s: string, a: int, b: int): (r: string)
    ensures |r| <= |s|
    ensures 0 <= a <= b <= |s| ==> r == s[a..b]
  {
    var x, y := Clamp(a, |s|), Clamp(b, |s|);
    if x <= y then s[x..y] else s[y..x]
  }
}
