/** The string primitives the front end relies on: `String.prototype.trim`, an ASCII model of
    `toLowerCase`, and `String.prototype.includes`. Strings are sequences of characters; the
    model ignores UTF-16 code units and Unicode case mapping. */
module Text {

  type String = seq<char>

  /** The characters `trim` strips: ECMAScript white space and line terminators. */
  predicate IsSpace(c: char) {
    c == ' ' || c == '\t' || c == '\n' || c == '\r' || c == '\U{000B}' || c == '\U{000C}'
    || c == '\U{00A0}' || c == '\U{FEFF}' || c == '\U{1680}'
    || ('\U{2000}' <= c <= '\U{200A}')
    || c == '\U{2028}' || c == '\U{2029}' || c == '\U{202F}' || c == '\U{205F}' || c == '\U{3000}'
  }

  /** Every character is white space: the string is falsy once trimmed. */
  predicate IsBlank(s: String) {
    forall i :: 0 <= i < |s| ==> IsSpace(s[i])
  }

  /** Length of the longest all-white-space prefix. */
  function LeadingSpaces(s: String): (n: nat)
    ensures n <= |s|
    ensures IsBlank(s[..n])
    ensures n < |s| ==> !IsSpace(s[n])
  {
    if |s| == 0 || !IsSpace(s[0]) then 0
    else
      var m := LeadingSpaces(s[1..]);
      assert s[..m + 1] == [s[0]] + s[1..][..m];
      m + 1
  }

  /** Length of the longest all-white-space suffix. */
  function TrailingSpaces(s: String): (n: nat)
    ensures n <= |s|
    ensures IsBlank(s[|s| - n..])
    ensures n < |s| ==> !IsSpace(s[|s| - 1 - n])
  {
    if |s| == 0 || !IsSpace(s[|s| - 1]) then 0
    else
      var init := s[..|s| - 1];
      var m := TrailingSpaces(init);
      assert s[|s| - (m + 1)..] == init[|init| - m..] + [s[|s| - 1]];
      m + 1
  }

  /** Concatenating two blank strings gives a blank string. */
  lemma BlankAppend(a: String, b: String)
    requires IsBlank(a) && IsBlank(b)
    ensures IsBlank(a + b)
  {
    forall i | 0 <= i < |a + b| ensures IsSpace((a + b)[i]) {
      if i < |a| {
        assert (a + b)[i] == a[i];
      } else {
        assert (a + b)[i] == b[i - |a|];
      }
    }
  }

  /** `s.trim()`: `s` with its white-space prefix and suffix removed. The result is empty exactly
      for blank strings, and otherwise starts and ends with a non-space character. */
  function Trim(s: String): (r: String)
    ensures exists pre, post :: s == pre + r + post && IsBlank(pre) && IsBlank(post)
    ensures r == [] <==> IsBlank(s)
    ensures r != [] ==> !IsSpace(r[0]) && !IsSpace(r[|r| - 1])
  {
    var lead := LeadingSpaces(s);
    var tail := s[lead..];
    var trail := TrailingSpaces(tail);
    var end := |s| - trail;
    assert tail[|tail| - trail..] == s[end..];
    assert trail < |tail| ==> tail[|tail| - 1 - trail] == s[end - 1];
    TrimSplit(s, lead, end);
    TrimBlank(s, lead, end);
    TrimEnds(s, lead, end);
    s[lead..end]
  }

  /** Cutting a blank prefix and a blank suffix: `s` is rebuilt from the three pieces. */
  lemma TrimSplit(s: String, lead: nat, end: nat)
    requires lead <= end <= |s| && IsBlank(s[..lead]) && IsBlank(s[end..])
    ensures exists pre, post :: s == pre + s[lead..end] + post && IsBlank(pre) && IsBlank(post)
  {
    assert s == s[..lead] + s[lead..end] + s[end..];
  }

  /** When the cut stops at the first non-space character, the kept part is empty exactly for
      blank strings. */
  lemma TrimBlank(s: String, lead: nat, end: nat)
    requires lead <= end <= |s| && IsBlank(s[..lead]) && IsBlank(s[end..])
    requires lead < |s| ==> !IsSpace(s[lead])
    ensures s[lead..end] == [] <==> IsBlank(s)
  {
    if lead == end {
      assert s == s[..lead] + s[end..];
      BlankAppend(s[..lead], s[end..]);
    }
    if lead < |s| {
      assert !IsSpace(s[lead]);
    }
  }

  /** When both cuts stop at non-space characters, the kept part starts and ends with one. */
  lemma TrimEnds(s: String, lead: nat, end: nat)
    requires lead <= end <= |s|
    requires lead < |s| ==> !IsSpace(s[lead])
    requires lead < end ==> !IsSpace(s[end - 1])
    ensures var r := s[lead..end]; r != [] ==> !IsSpace(r[0]) && !IsSpace(r[|r| - 1])
  {
  }

  /** ASCII model of `toLowerCase` on one character. */
  function LowerChar(c: char): (d: char)
    ensures !('A' <= d <= 'Z')
    ensures 'A' <= c <= 'Z' ==> d as int == c as int + 32
    ensures !('A' <= c <= 'Z') ==> d == c
  {
    if 'A' <= c <= 'Z' then (c as int + 32) as char else c
  }

  /** ASCII model of `s.toLowerCase()`: a character-by-character map. */
  function Lower(s: String): (r: String)
    ensures |r| == |s|
    ensures forall i :: 0 <= i < |s| ==> r[i] == LowerChar(s[i])
  {
    seq(|s|, i requires 0 <= i < |s| => LowerChar(s[i]))
  }

  /** `s` begins with `prefix`. */
  predicate StartsWith(s: String, prefix: String) {
    |prefix| <= |s| && s[..|prefix|] == prefix
  }

  /** `sub` occurs in `s` starting at position `i`. */
  predicate OccursAt(s: String, sub: String, i: int) {
    0 <= i <= |s| - |sub| && s[i..i + |sub|] == sub
  }

  /** `s.includes(sub)`, computed as the scan `includes` performs: try each start position from
      the left. It holds exactly when `sub` occurs at some position of `s`. */
  function Includes(s: String, sub: String): (b: bool)
    ensures b <==> exists i :: OccursAt(s, sub, i)
    decreases |s|
  {
    if StartsWith(s, sub) then
      assert OccursAt(s, sub, 0);
      true
    else if |s| == 0 then
      assert forall i :: OccursAt(s, sub, i) ==> i == 0;
      false
    else
      var b := Includes(s[1..], sub);
      assert b ==> exists i :: OccursAt(s, sub, i) by {
        if b {
          var j :| OccursAt(s[1..], sub, j);
          assert s[1..][j..j + |sub|] == s[j + 1..j + 1 + |sub|];
          assert OccursAt(s, sub, j + 1);
        }
      }
      assert (exists i :: OccursAt(s, sub, i)) ==> b by {
        if i :| OccursAt(s, sub, i) {
          assert i != 0;
          assert s[1..][i - 1..i - 1 + |sub|] == s[i..i + |sub|];
          assert OccursAt(s[1..], sub, i - 1);
        }
      }
      b
  }

  /** Every string includes the empty string. */
  lemma IncludesEmpty(s: String)
    ensures Includes(s, [])
  {
    assert OccursAt(s, [], 0);
  }
}
