/** String operations the validators rely on: Python's `str.strip()` with no
    arguments, and the substring test `phrase in title`. */
module Text {

  /** Python's `str.isspace()` for a single character: the characters the
      Unicode database classes as whitespace, written out as code points. */
  predicate IsSpace(c: char) {
    var n := c as int;
    (0x09 <= n <= 0x0D) || (0x1C <= n <= 0x20) || n == 0x85 || n == 0xA0
    || n == 0x1680 || (0x2000 <= n <= 0x200A) || n == 0x2028 || n == 0x2029
    || n == 0x202F || n == 0x205F || n == 0x3000
  }

  /** A string is blank when every character in it is whitespace (the empty
      string included). */
  ghost predicate IsBlank(s: string) {
    forall i :: 0 <= i < |s| ==> IsSpace(s[i])
  }

  /** `s.lstrip()`: drops the leading whitespace, keeps the rest. */
  function TrimStart(s: string): (r: string)
    ensures |r| <= |s| && r == s[|s| - |r|..]
    ensures forall i :: 0 <= i < |s| - |r| ==> IsSpace(s[i])
    ensures r == [] || !IsSpace(r[0])
  {
    if s == [] || !IsSpace(s[0]) then s else TrimStart(s[1..])
  }

  /** `s.rstrip()`: drops the trailing whitespace, keeps the rest. */
  function TrimEnd(s: string): (r: string)
    ensures |r| <= |s| && r == s[..|r|]
    ensures forall i :: |r| <= i < |s| ==> IsSpace(s[i])
    ensures r == [] || !IsSpace(r[|r| - 1])
  {
    if s == [] || !IsSpace(s[|s| - 1]) then s else TrimEnd(s[..|s| - 1])
  }

  /** `s.strip()`: whitespace removed at both ends. The result is empty
      exactly when the input is blank; otherwise it starts and ends with a
      character that is not whitespace. */
  function Strip(s: string): (r: string)
    ensures |r| <= |s|
    ensures r == [] <==> IsBlank(s)
    ensures r != [] ==> !IsSpace(r[0]) && !IsSpace(r[|r| - 1])
  {
    var t := TrimStart(s);
    var r := TrimEnd(t);
    r
  }

  /** `p` occurs in `s` starting at index `i`. */
  ghost predicate OccursAt(p: string, s: string, i: int) {
    0 <= i && i + |p| <= |s| && s[i..i + |p|] == p
  }

  /** The reference meaning of Python's `p in s` on strings: `p` is a
      contiguous, case-sensitive substring of `s`. */
  ghost predicate Occurs(p: string, s: string) {
    exists i :: OccursAt(p, s, i)
  }

  /** Substring search, trying each start position from the left. */
  function Contains(s: string, p: string): (r: bool)
    ensures r <==> Occurs(p, s)
    decreases |s|
  {
    if |p| > |s| then
      assert forall i :: !OccursAt(p, s, i);
      false
    else if p == s[..|p|] then
      assert OccursAt(p, s, 0);
      true
    else
      var r := Contains(s[1..], p);
      assert r ==> Occurs(p, s) by {
        if r {
          var i :| OccursAt(p, s[1..], i);
          assert s[1..][i..i + |p|] == s[i + 1..i + 1 + |p|];
          assert OccursAt(p, s, i + 1);
        }
      }
      assert Occurs(p, s) ==> r by {
        if Occurs(p, s) {
          var i :| OccursAt(p, s, i);
          assert i != 0;
          assert s[1..][i - 1..i - 1 + |p|] == s[i..i + |p|];
          assert OccursAt(p, s[1..], i - 1);
        }
      }
      r
  }
}
