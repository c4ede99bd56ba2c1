/** String helpers with JavaScript's meaning: white space, `trim`, ASCII lower-casing, truthiness. */
module Text {
  import opened Wrappers

  /** The characters JavaScript's `\s` class and `String.prototype.trim` treat as white space. */
  predicate IsSpace(c: char) {
    var n := c as int;
    n == 0x20 || 0x09 <= n <= 0x0D || n == 0xA0 || n == 0x1680 || 0x2000 <= n <= 0x200A
    || n == 0x2028 || n == 0x2029 || n == 0x202F || n == 0x205F || n == 0x3000 || n == 0xFEFF
  }

  predicate NoSpace(s: string) {
    forall k :: 0 <= k < |s| ==> !IsSpace(s[k])
  }

  /** A string option is truthy in JavaScript when it is present and not empty. */
  predicate Truthy(o: Option<string>) {
    o.Some? && o.value != ""
  }

  function TrimStart(s: string): (r: string)
    ensures |r| <= |s| && r == s[|s| - |r|..]
    ensures r != [] ==> !IsSpace(r[0])
    ensures forall k :: 0 <= k < |s| - |r| ==> IsSpace(s[k])
  {
    if s != [] && IsSpace(s[0]) then TrimStart(s[1..]) else s
  }

  function TrimEnd(s: string): (r: string)
    ensures |r| <= |s| && r == s[..|r|]
    ensures r != [] ==> !IsSpace(r[|r| - 1])
    ensures forall k :: |r| <= k < |s| ==> IsSpace(s[k])
  {
    if s != [] && IsSpace(s[|s| - 1]) then TrimEnd(s[..|s| - 1]) else s
  }

  predicate AllSpace(s: string) {
    forall k :: 0 <= k < |s| ==> IsSpace(s[k])
  }

  /** `r` is `s` with `i` characters of white space cut from the front and only white space cut
      from the back. */
  predicate CutFromEnds(s: string, r: string, i: int) {
    0 <= i <= |s| - |r| && r == s[i..i + |r|] && AllSpace(s[..i]) && AllSpace(s[i + |r|..])
  }

  /** `String.prototype.trim`: drops the white space at both ends and keeps the middle. */
  function Trim(s: string): (r: string)
    ensures |r| <= |s|
    ensures r != [] ==> !IsSpace(r[0]) && !IsSpace(r[|r| - 1])
    ensures (forall k :: 0 <= k < |s| ==> IsSpace(s[k])) ==> r == []
    ensures exists i :: CutFromEnds(s, r, i)
  {
    var front := TrimStart(s);
    var r := TrimEnd(front);
    TrimCutsEnds(s, front, r);
    r
  }

  lemma {:induction false} TrimCutsEnds(s: string, front: string, r: string)
    requires front == TrimStart(s) && r == TrimEnd(front)
    ensures CutFromEnds(s, r, |s| - |front|)
  {
    var i := |s| - |front|;
    assert r == s[i..i + |r|];
    assert s[i + |r|..] == front[|r|..];
  }

  /** A string with no white space at either end is its own trim. */
  lemma {:induction false} TrimFixed(s: string)
    requires s != [] ==> !IsSpace(s[0]) && !IsSpace(s[|s| - 1])
    ensures Trim(s) == s
  {
    assert TrimStart(s) == s;
    assert TrimEnd(s) == s;
  }

  lemma TrimIdempotent(s: string)
    ensures Trim(Trim(s)) == Trim(s)
  {
    TrimFixed(Trim(s));
  }

  function LowerChar(c: char): char {
    if 'A' <= c <= 'Z' then (c as int + 32) as char else c
  }

  /** Lower-casing, for the ASCII letters. */
  function LowerAscii(s: string): (r: string)
    ensures |r| == |s|
    ensures forall k :: 0 <= k < |s| ==> r[k] == LowerChar(s[k])
  {
    seq(|s|, k requires 0 <= k < |s| => LowerChar(s[k]))
  }

  predicate IsHexDigit(c: char) {
    '0' <= c <= '9' || 'a' <= c <= 'f' || 'A' <= c <= 'F'
  }

  /** The pattern `^[0-9a-fA-F]{24}$` of a Mongo object id written as text. */
  predicate IsObjectIdText(s: string) {
    |s| == 24 && forall k :: 0 <= k < |s| ==> IsHexDigit(s[k])
  }
}
