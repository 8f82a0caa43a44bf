/** The few Python `str` operations the core relies on. */
module PyStr {

  /** Characters Python's `str.strip()` removes: those `str.isspace()` accepts. */
  predicate IsSpace(c: char) {
    || c == ' ' || ('\t' <= c <= '\r')                 // \t \n \x0b \x0c \r
    || ((0x1c as char) <= c <= (0x1f as char))         // file, group, record, unit separators
    || c == (0x85 as char) || c == (0xa0 as char)
    || c == (0x1680 as char)
    || ((0x2000 as char) <= c <= (0x200a as char))
    || c == (0x2028 as char) || c == (0x2029 as char)
    || c == (0x202f as char) || c == (0x205f as char)
    || c == (0x3000 as char)
  }

  /** `s.lstrip()`. */
  function StripLeft(s: string): string {
    if s == [] || !IsSpace(s[0]) then s else StripLeft(s[1..])
  }

  /** `s.rstrip()`. */
  function StripRight(s: string): string {
    if s == [] || !IsSpace(s[|s| - 1]) then s else StripRight(s[..|s| - 1])
  }

  /** `lstrip` keeps a suffix that starts with a non-space character. */
  lemma {:induction false} StripLeftIsSuffix(s: string)
    ensures var r := StripLeft(s);
      |r| <= |s| && r == s[|s| - |r|..] && (r == [] || !IsSpace(r[0]))
  {
    if s != [] && IsSpace(s[0]) {
      StripLeftIsSuffix(s[1..]);
    }
  }

  /** `rstrip` keeps a prefix that ends with a non-space character. */
  lemma {:induction false} StripRightIsPrefix(s: string)
    ensures var r := StripRight(s);
      |r| <= |s| && r == s[..|r|] && (r == [] || !IsSpace(r[|r| - 1]))
  {
    if s != [] && IsSpace(s[|s| - 1]) {
      StripRightIsPrefix(s[..|s| - 1]);
    }
  }

  /** Everything `lstrip` drops is a space. */
  lemma {:induction false} StripLeftDropsSpaces(s: string)
    ensures forall i :: 0 <= i < |s| - |StripLeft(s)| ==> IsSpace(s[i])
  {
    if s != [] && IsSpace(s[0]) {
      StripLeftDropsSpaces(s[1..]);
      forall i | 1 <= i < |s| - |StripLeft(s)| ensures IsSpace(s[i]) {
        assert s[i] == s[1..][i - 1];
      }
    }
  }

  /** Everything `rstrip` drops is a space. */
  lemma {:induction false} StripRightDropsSpaces(s: string)
    ensures forall i :: |StripRight(s)| <= i < |s| ==> IsSpace(s[i])
  {
    if s != [] && IsSpace(s[|s| - 1]) {
      StripRightDropsSpaces(s[..|s| - 1]);
      forall i | |StripRight(s)| <= i < |s| - 1 ensures IsSpace(s[i]) {
        assert s[i] == s[..|s| - 1][i];
      }
    }
  }

  /** `s.strip()`: the longest infix that starts and ends with a non-space character. */
  function Strip(s: string): string {
    StripRight(StripLeft(s))
  }

  /** Every character of `s` before `i` and from `j` on is a space. */
  predicate SpacesOutside(s: string, i: int, j: int) {
    && (forall k :: 0 <= k < i && k < |s| ==> IsSpace(s[k]))
    && (forall k :: 0 <= j <= k < |s| ==> IsSpace(s[k]))
  }

  /** What `strip()` returns: a slice of `s` that drops only spaces and keeps no space at either end. */
  lemma StripIsTrimmedSlice(s: string)
    ensures var r := Strip(s);
      && (exists i, j :: 0 <= i <= j <= |s| && r == s[i..j] && SpacesOutside(s, i, j))
      && (r == [] || (!IsSpace(r[0]) && !IsSpace(r[|r| - 1])))
  {
    var i, j := StripBounds(s);
    var l := StripLeft(s);
    var r := StripRight(l);
    StripLeftIsSuffix(s);
    StripRightIsPrefix(l);
    if r != [] {
      assert r[0] == l[0];
    }
  }

  /** Where the slice `strip()` keeps starts and ends. */
  lemma StripBounds(s: string) returns (i: int, j: int)
    ensures 0 <= i <= j <= |s| && Strip(s) == s[i..j] && SpacesOutside(s, i, j)
  {
    var l := StripLeft(s);
    var r := StripRight(l);
    StripLeftIsSuffix(s);
    StripRightIsPrefix(l);
    i := |s| - |l|;
    j := i + |r|;
    SliceOfSuffix(s, l, r, i);
    assert SpacesOutside(s, i, j) by {
      StripLeftDropsSpaces(s);
      StripRightDropsSpaces(l);
      SpacesAfter(s, l, i, j);
    }
  }

  lemma SliceOfSuffix(s: string, l: string, r: string, i: int)
    requires 0 <= i <= |s| && l == s[i..] && |r| <= |l| && r == l[..|r|]
    ensures r == s[i..i + |r|]
  {
  }

  /** The spaces at the end of a suffix of `s` are the spaces at the end of `s`. */
  lemma SpacesAfter(s: string, l: string, i: int, j: int)
    requires 0 <= i <= j <= |s| && l == s[i..]
    requires forall k :: j - i <= k < |l| ==> IsSpace(l[k])
    ensures forall k :: j <= k < |s| ==> IsSpace(s[k])
  {
    forall k | j <= k < |s| ensures IsSpace(s[k]) {
      assert s[k] == l[k - i];
    }
  }

  /** `s.endswith(suffix)`. */
  predicate EndsWith(s: string, suffix: string) {
    |suffix| <= |s| && s[|s| - |suffix|..] == suffix
  }
}
