/** String primitives the storefront relies on, as JavaScript defines them:
    `toLowerCase` (ASCII letters only), the whitespace class behind `trim()`
    and `\S`, `includes` and `startsWith`. */
module Text {

  /** `toLowerCase` on one character, restricted to ASCII: A-Z become a-z,
      every other character is left as it is. */
  function Lower(c: char): (r: char)
    ensures !('A' <= r <= 'Z')
    ensures 'a' <= c <= 'z' || !('A' <= c <= 'Z') ==> r == c
  {
    if 'A' <= c <= 'Z' then (c as int + 32) as char else c
  }

  /** `s.toLowerCase()` with ASCII case folding. */
  function LowerStr(s: string): (r: string)
    ensures |r| == |s|
    ensures forall i :: 0 <= i < |s| ==> r[i] == Lower(s[i])
  {
    if s == [] then [] else [Lower(s[0])] + LowerStr(s[1..])
  }

  /** Lower-casing a string that holds no upper-case ASCII letter changes nothing. */
  lemma LowerStrFixed(s: string)
    requires forall i :: 0 <= i < |s| ==> !('A' <= s[i] <= 'Z')
    ensures LowerStr(s) == s
  {
  }

  lemma LowerStrAppend(a: string, b: string)
    ensures LowerStr(a + b) == LowerStr(a) + LowerStr(b)
  {
  }

  /** The characters JavaScript's `trim()` removes and `\S` refuses:
      the WhiteSpace and LineTerminator productions of ECMAScript. */
  predicate IsSpace(c: char) {
    || c == '\t' || c == '\n' || c == '\U{000B}' || c == '\U{000C}' || c == '\r'
    || c == ' ' || c == '\U{00A0}' || c == '\U{1680}'
    || ('\U{2000}' <= c <= '\U{200A}')
    || c == '\U{2028}' || c == '\U{2029}' || c == '\U{202F}' || c == '\U{205F}'
    || c == '\U{3000}' || c == '\U{FEFF}'
  }

  predicate AllSpace(s: string) {
    forall i :: 0 <= i < |s| ==> IsSpace(s[i])
  }

  /** The number of whitespace characters `s` starts with. */
  function LeadingSpaces(s: string): (n: nat)
    ensures n <= |s| && AllSpace(s[..n])
    ensures n < |s| ==> !IsSpace(s[n])
  {
    if s != [] && IsSpace(s[0]) then
      var m := LeadingSpaces(s[1..]);
      assert s[..m + 1] == [s[0]] + s[1..][..m];
      m + 1
    else
      0
  }

  /** The number of whitespace characters `s` ends with. */
  function TrailingSpaces(s: string): (n: nat)
    ensures n <= |s|
    ensures forall i :: |s| - n <= i < |s| ==> IsSpace(s[i])
    ensures n < |s| ==> !IsSpace(s[|s| - n - 1])
  {
    if s != [] && IsSpace(s[|s| - 1]) then
      var m := TrailingSpaces(s[..|s| - 1]);
      m + 1
    else
      0
  }

  /** `s.trimStart()`. */
  function TrimStart(s: string): (r: string)
    ensures |r| <= |s| && r == s[|s| - |r|..]
    ensures r == [] || !IsSpace(r[0])
    ensures AllSpace(s[..|s| - |r|])
  {
    s[LeadingSpaces(s)..]
  }

  /** `s.trimEnd()`. */
  function TrimEnd(s: string): (r: string)
    ensures |r| <= |s| && r == s[..|r|]
    ensures r == [] || !IsSpace(r[|r| - 1])
    ensures AllSpace(s[|r|..])
  {
    var r := s[..|s| - TrailingSpaces(s)];
    assert forall i :: 0 <= i < |s| - |r| ==> s[|r|..][i] == s[|r| + i];
    r
  }

  /** `needle` occurs in `hay` starting at position `i`. */
  predicate OccursAt(hay: string, needle: string, i: int) {
    0 <= i && i + |needle| <= |hay| && hay[i..i + |needle|] == needle
  }

  /** `s.trim()`: drop leading and trailing whitespace. */
  function Trim(s: string): (r: string)
    ensures exists i :: OccursAt(s, r, i)
    ensures r == [] || (!IsSpace(r[0]) && !IsSpace(r[|r| - 1]))
    ensures r == [] <==> AllSpace(s)
  {
    var t := TrimStart(s);
    var r := TrimEnd(t);
    assert OccursAt(s, r, |s| - |t|);
    var k := |s| - |t|;
    assert r == [] ==> AllSpace(s) by {
      if r == [] {
        assert t[|r|..] == t;
        assert t == [];
        assert s[..k] == s;
      }
    }
    assert r != [] ==> t[0] == s[k];
    r
  }

  /** The test `if (s.trim())`: a string is blank when trimming leaves nothing. */
  predicate IsBlank(s: string) {
    Trim(s) == []
  }

  /** The empty string is blank. */
  lemma EmptyIsBlank()
    ensures IsBlank("")
  {
    assert AllSpace("");
  }

  /** `s.startsWith(p)`. */
  predicate StartsWith(s: string, p: string) {
    |p| <= |s| && s[..|p|] == p
  }

  /** `hay.includes(needle)`, as a left-to-right scan. */
  function Includes(hay: string, needle: string): (b: bool)
    ensures b <==> exists i :: OccursAt(hay, needle, i)
    decreases |hay|
  {
    if StartsWith(hay, needle) then
      assert OccursAt(hay, needle, 0);
      true
    else if hay == [] then
      false
    else
      var rest := Includes(hay[1..], needle);
      if rest then
        var i :| OccursAt(hay[1..], needle, i);
        assert OccursAt(hay, needle, i + 1) by {
          assert hay[i + 1..i + 1 + |needle|] == hay[1..][i..i + |needle|];
        }
        true
      else
        assert OccursAt(hay, needle, 0) ==> StartsWith(hay, needle);
        forall i | OccursAt(hay, needle, i)
          ensures OccursAt(hay[1..], needle, i - 1)
        {
          assert hay[1..][i - 1..i - 1 + |needle|] == hay[i..i + |needle|];
        }
        false
  }

  /** The empty string occurs in every string, as with JavaScript's `includes('')`. */
  lemma IncludesEmpty(hay: string)
    ensures Includes(hay, "")
  {
    assert OccursAt(hay, "", 0);
  }

  /** A string occurs in itself. */
  lemma IncludesSelf(s: string)
    ensures Includes(s, s)
  {
    assert OccursAt(s, s, 0);
  }

  /** `hay.toLowerCase().includes(query.toLowerCase())`. */
  predicate ContainsIgnoringCase(hay: string, query: string) {
    Includes(LowerStr(hay), LowerStr(query))
  }

  /** Every string contains the empty query. */
  lemma ContainsEmptyQuery(hay: string)
    ensures ContainsIgnoringCase(hay, "")
  {
    IncludesEmpty(LowerStr(hay));
  }
}
