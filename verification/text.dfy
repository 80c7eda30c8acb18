/** String operations the engine relies on: ECMAScript `String.prototype.trim`,
    the catalog's `truncateText`, and `String.prototype.includes`. Strings are
    sequences of code points. */
module Text {
  import opened Wrappers
  import opened JsValue

  /** The characters `trim` strips: ECMAScript WhiteSpace (tab, vertical tab,
      form feed, ZWNBSP and every space separator of Unicode category Zs)
      and LineTerminator (LF, CR, LS, PS). */
  predicate IsSpace(c: char) {
    var n := c as int;
    || n == 0x09 || n == 0x0A || n == 0x0B || n == 0x0C || n == 0x0D
    || n == 0x20 || n == 0xA0 || n == 0x1680 || (0x2000 <= n <= 0x200A)
    || n == 0x2028 || n == 0x2029 || n == 0x202F || n == 0x205F
    || n == 0x3000 || n == 0xFEFF
  }

  predicate AllSpace(s: string) {
    forall i :: 0 <= i < |s| ==> IsSpace(s[i])
  }

  /** Removes leading white space: what is left is a suffix of `s` that does
      not start with white space, and what was removed is all white space. */
  function TrimStart(s: string): (r: string)
    ensures |r| <= |s| && r == s[|s| - |r|..]
    ensures AllSpace(s[..|s| - |r|])
    ensures r == [] || !IsSpace(r[0])
    decreases |s|
  {
    if |s| > 0 && IsSpace(s[0]) then TrimStart(s[1..]) else s
  }

  /** Removes trailing white space: what is left is a prefix of `s` that does
      not end with white space, and what was removed is all white space. */
  function TrimEnd(s: string): (r: string)
    ensures |r| <= |s| && r == s[..|r|]
    ensures AllSpace(s[|r|..])
    ensures r == [] || !IsSpace(r[|r| - 1])
    decreases |s|
  {
    if |s| > 0 && IsSpace(s[|s| - 1]) then TrimEnd(s[..|s| - 1]) else s
  }

  /** `s.trim()`: the result is a slice of `s` bordered by non-space
      characters, everything cut away on both sides is white space, and the
      result is empty exactly when `s` is all white space. */
  function Trim(s: string): (r: string)
    ensures r == "" <==> AllSpace(s)
    ensures r != "" ==> !IsSpace(r[0]) && !IsSpace(r[|r| - 1])
    ensures exists i :: 0 <= i <= |s| - |r| && IsTrimmedSlice(s, r, i)
  {
    var t := TrimStart(s);
    var r := TrimEnd(t);
    var i := |s| - |t|;
    assert s[i..i + |r|] == r;
    assert s[i + |r|..] == t[|r|..];
    assert IsTrimmedSlice(s, r, i);
    assert r == "" ==> s == s[..i] + t;
    r
  }

  /** `r` sits at offset `i` of `s` and only white space surrounds it. */
  ghost predicate IsTrimmedSlice(s: string, r: string, i: int)
    requires 0 <= i <= |s| - |r|
  {
    s[i..i + |r|] == r && AllSpace(s[..i]) && AllSpace(s[i + |r|..])
  }

  /** Trimming twice is trimming once. */
  lemma TrimIdempotent(s: string)
    ensures Trim(Trim(s)) == Trim(s)
  {
    var r := Trim(s);
    assert TrimStart(r) == r;
    assert TrimEnd(r) == r;
  }

  /** A text that neither starts nor ends with white space trims to itself. */
  lemma TrimOfWord(s: string)
    requires |s| > 0 && !IsSpace(s[0]) && !IsSpace(s[|s| - 1])
    ensures Trim(s) == s
  {
  }

  /** The ellipsis appended to truncated text. */
  const Ellipsis: string := "..."

  /** The catalog's truncation: text longer than `maxLength` is cut to its
      first `maxLength` characters and given the ellipsis; shorter text is
      kept whole. */
  function Truncate(text: string, maxLength: nat): (r: string)
    ensures |text| <= maxLength ==> r == text
    ensures |text| > maxLength ==>
      |r| == maxLength + |Ellipsis| && r[..maxLength] == text[..maxLength] && r[maxLength..] == Ellipsis
    ensures |r| <= maxLength + |Ellipsis|
  {
    if |text| > maxLength then text[..maxLength] + Ellipsis else text
  }

  /** `truncateText(text, maxLength)` on an arbitrary value: anything falsy or
      not a string becomes the empty string. */
  function TruncateValue(text: Option<Json>, maxLength: nat): (r: string)
    ensures !TruthyOpt(text) || !text.value.JStr? ==> r == ""
    ensures TruthyOpt(text) && text.value.JStr? ==> r == Truncate(text.value.s, maxLength)
  {
    if !TruthyOpt(text) || !text.value.JStr? then "" else Truncate(text.value.s, maxLength)
  }

  /** `needle` occurs in `hay` starting at offset `i`. */
  predicate OccursAt(hay: string, needle: string, i: nat)
  {
    i + |needle| <= |hay| && hay[i..i + |needle|] == needle
  }

  /** `hay.includes(needle)`, decided by trying each start position in turn;
      it holds exactly when `needle` occurs at some offset of `hay`. */
  function Contains(hay: string, needle: string): (r: bool)
    ensures r <==> exists i :: OccursAt(hay, needle, i)
    decreases |hay|
  {
    if needle <= hay then
      assert OccursAt(hay, needle, 0);
      true
    else if |hay| == 0 then
      false
    else
      var r := Contains(hay[1..], needle);
      ContainsStep(hay, needle);
      r
  }

  /** An occurrence in `hay` away from offset 0 is an occurrence in its tail. */
  lemma ContainsStep(hay: string, needle: string)
    requires |hay| > 0 && !(needle <= hay)
    ensures (exists i :: OccursAt(hay, needle, i)) <==> (exists i :: OccursAt(hay[1..], needle, i))
  {
    forall i: nat | OccursAt(hay[1..], needle, i) ensures OccursAt(hay, needle, i + 1) {
      assert hay[i + 1..i + 1 + |needle|] == hay[1..][i..i + |needle|];
    }
    forall i: nat | OccursAt(hay, needle, i) ensures i > 0 && OccursAt(hay[1..], needle, i - 1) {
      assert hay[i..i + |needle|] == hay[1..][i - 1..i - 1 + |needle|];
    }
  }
}
