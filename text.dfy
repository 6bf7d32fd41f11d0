/** JavaScript's `String.prototype.trim`, which the add forms use to reject
    blank required fields. */
module Text {

  /** The characters ECMAScript counts as WhiteSpace or LineTerminator. */
  predicate IsWhitespace(c: char) {
    || c == '\t' || c == '\n' || c == '\U{B}' || c == '\U{C}' || c == '\r' || c == ' '
    || c == '\U{A0}' || c == '\U{1680}' || ('\U{2000}' <= c <= '\U{200A}')
    || c == '\U{2028}' || c == '\U{2029}' || c == '\U{202F}' || c == '\U{205F}'
    || c == '\U{3000}' || c == '\U{FEFF}'
  }

  /** A string made of whitespace only (the empty string included). */
  ghost predicate Blank(s: string) {
    forall i :: 0 <= i < |s| ==> IsWhitespace(s[i])
  }

  /** `r` is `s` with a blank prefix and a blank suffix cut off. */
  ghost predicate Sliced(s: string, r: string) {
    exists i, j :: 0 <= i <= j <= |s| && r == s[i..j] && Blank(s[..i]) && Blank(s[j..])
  }

  lemma SlicedWhole(s: string)
    ensures Sliced(s, s)
  {
    assert s == s[0..|s|] && s[..0] == [] && s[|s|..] == [];
    SlicedAt(s, s, 0, |s|);
  }

  /** Two blank strings make a blank string. */
  lemma BlankConcat(a: string, b: string)
    requires Blank(a) && Blank(b)
    ensures Blank(a + b)
  {
    forall k | 0 <= k < |a + b| ensures IsWhitespace((a + b)[k]) {
      if k < |a| {
        assert (a + b)[k] == a[k];
      } else {
        assert (a + b)[k] == b[k - |a|];
      }
    }
  }

  /** A string starting with whitespace is blank exactly when its tail is. */
  lemma BlankTail(s: string)
    requires s != [] && IsWhitespace(s[0])
    ensures Blank(s) <==> Blank(s[1..])
  {
    assert Blank([s[0]]);
    assert s == [s[0]] + s[1..];
    if Blank(s[1..]) {
      BlankConcat([s[0]], s[1..]);
    }
  }

  /** The cut points of a slice. */
  lemma SlicedCuts(s: string, r: string) returns (i: nat, j: nat)
    requires Sliced(s, r)
    ensures i <= j <= |s| && r == s[i..j] && Blank(s[..i]) && Blank(s[j..])
  {
    i, j :| 0 <= i <= j <= |s| && r == s[i..j] && Blank(s[..i]) && Blank(s[j..]);
  }

  lemma SlicedAt(s: string, r: string, i: nat, j: nat)
    requires i <= j <= |s| && r == s[i..j] && Blank(s[..i]) && Blank(s[j..])
    ensures Sliced(s, r)
  {}

  /** A whitespace character in front of a slice joins its blank prefix. */
  lemma SlicedDropFirst(s: string, r: string)
    requires s != [] && IsWhitespace(s[0]) && Sliced(s[1..], r)
    ensures Sliced(s, r)
  {
    var t := s[1..];
    var i, j := SlicedCuts(t, r);
    assert t[..i] == s[1..i + 1];
    assert t[i..j] == s[i + 1..j + 1];
    assert t[j..] == s[j + 1..];
    assert Blank([s[0]]);
    BlankConcat([s[0]], s[1..i + 1]);
    assert s[..i + 1] == [s[0]] + s[1..i + 1];
    SlicedAt(s, r, i + 1, j + 1);
  }

  /** A whitespace character behind a slice joins its blank suffix. */
  lemma SlicedDropLast(s: string, r: string)
    requires s != [] && IsWhitespace(s[|s| - 1]) && Sliced(s[..|s| - 1], r)
    ensures Sliced(s, r)
  {
    var t := s[..|s| - 1];
    var i, j := SlicedCuts(t, r);
    assert t[..i] == s[..i];
    assert t[i..j] == s[i..j];
    assert t[j..] == s[j..|s| - 1];
    assert Blank([s[|s| - 1]]);
    BlankConcat(s[j..|s| - 1], [s[|s| - 1]]);
    assert s[j..] == s[j..|s| - 1] + [s[|s| - 1]];
    SlicedAt(s, r, i, j);
  }

  /** `s.trim()`: `s` without its leading and trailing whitespace, cut between
      a blank prefix and a blank suffix and with no whitespace at either end.
      It is empty exactly when `s` is blank, so `if (s.trim())` accepts
      exactly the strings holding some non-whitespace character. */
  function Trim(s: string): (r: string)
    ensures Sliced(s, r)
    ensures r == [] <==> Blank(s)
    ensures r == [] || (!IsWhitespace(r[0]) && !IsWhitespace(r[|r| - 1]))
  {
    if s == [] then
      SlicedWhole(s);
      []
    else if IsWhitespace(s[0]) then
      var r := Trim(s[1..]);
      BlankTail(s);
      SlicedDropFirst(s, r);
      r
    else if IsWhitespace(s[|s| - 1]) then
      assert s[..|s| - 1][0] == s[0];
      var r := Trim(s[..|s| - 1]);
      SlicedDropLast(s, r);
      r
    else
      SlicedWhole(s);
      s
  }
}
