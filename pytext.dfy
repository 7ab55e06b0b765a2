/** The few Python `str` built-ins that the chat core relies on: the whitespace
    class shared by `str.isspace`, `str.strip` and the regular-expression `\s`,
    lower-casing, the substring test `k in s`, stripping and `sep.join(parts)`. */
module PyText {

  /** Python's whitespace class for `str`: exactly the code points for which
      `str.isspace()` holds. The regular-expression class `\s` on a `str`
      pattern and the argument-less `str.strip()` use the same set. */
  predicate IsSpace(c: char) {
    || ('\t' <= c <= '\r')                     // U+0009 .. U+000D
    || ('\U{1C}' <= c <= '\U{1F}')              // file/group/record/unit separators
    || c == ' '
    || c == '\U{85}' || c == '\U{A0}' || c == '\U{1680}'
    || ('\U{2000}' <= c <= '\U{200A}')
    || c == '\U{2028}' || c == '\U{2029}' || c == '\U{202F}' || c == '\U{205F}'
    || c == '\U{3000}'
  }

  /** No character of `s` is whitespace. */
  predicate NoSpace(s: string) {
    forall i :: 0 <= i < |s| ==> !IsSpace(s[i])
  }

  /** Every character of `s` is whitespace. */
  predicate AllSpace(s: string) {
    forall i :: 0 <= i < |s| ==> IsSpace(s[i])
  }

  function LowerChar(c: char): (d: char)
    ensures 'A' <= c <= 'Z' ==> d as int == c as int + 32
    ensures !('A' <= c <= 'Z') ==> d == c
  {
    if 'A' <= c <= 'Z' then (c as int + 32) as char else c
  }

  /** `s.lower()`, restricted to the ASCII case mapping. */
  function Lower(s: string): (r: string)
    ensures |r| == |s|
    ensures forall i :: 0 <= i < |s| ==> r[i] == LowerChar(s[i])
  {
    if s == [] then [] else [LowerChar(s[0])] + Lower(s[1..])
  }

  /** Python's `k in s` for strings: `k` occurs in `s` as a contiguous block. */
  predicate Contains(s: string, k: string)
    ensures k == [] ==> Contains(s, k)
    ensures Contains(s, k) ==> |k| <= |s|
  {
    assert k == [] ==> k <= s[0..];
    exists i :: 0 <= i <= |s| && k <= s[i..]
  }

  /** `s.lstrip()`: drop the leading whitespace run. */
  function StripLeft(s: string): (r: string)
    ensures |r| <= |s|
    ensures s != [] && IsSpace(s[0]) ==> |r| < |s|
    ensures r == [] || !IsSpace(r[0])
  {
    if s != [] && IsSpace(s[0]) then StripLeft(s[1..]) else s
  }

  /** `s.rstrip()`: drop the trailing whitespace run. */
  function StripRight(s: string): (r: string)
    ensures |r| <= |s|
    ensures r == [] || !IsSpace(r[|r| - 1])
  {
    if s != [] && IsSpace(s[|s| - 1]) then StripRight(s[..|s| - 1]) else s
  }

  /** What `lstrip` removes is whitespace, and what it keeps is a suffix. */
  lemma {:induction false} StripLeftSuffix(s: string)
    ensures StripLeft(s) == s[|s| - |StripLeft(s)|..]
    ensures AllSpace(s[..|s| - |StripLeft(s)|])
    decreases |s|
  {
    if s != [] && IsSpace(s[0]) {
      var r := StripLeft(s[1..]);
      var k := |s| - |r|;
      StripLeftSuffix(s[1..]);
      assert s[1..][|s| - 1 - |r|..] == s[k..];
      forall i | 0 <= i < k ensures IsSpace(s[..k][i]) {
        if i > 0 { assert s[..k][i] == s[1..][..k - 1][i - 1]; } else { assert s[..k][i] == s[0]; }
      }
    }
  }

  /** What `rstrip` removes is whitespace, and what it keeps is a prefix. */
  lemma {:induction false} StripRightPrefix(s: string)
    ensures StripRight(s) == s[..|StripRight(s)|]
    ensures AllSpace(s[|StripRight(s)|..])
    decreases |s|
  {
    if s != [] && IsSpace(s[|s| - 1]) {
      var r := StripRight(s[..|s| - 1]);
      var k := |r|;
      StripRightPrefix(s[..|s| - 1]);
      assert s[..|s| - 1][..k] == s[..k];
      forall i | 0 <= i < |s| - k ensures IsSpace(s[k..][i]) {
        if i < |s| - 1 - k {
          assert s[k..][i] == s[..|s| - 1][k..][i];
        } else {
          assert s[k..][i] == s[|s| - 1];
        }
      }
    }
  }

  /** A whitespace-only string strips to nothing. */
  lemma {:induction false} StripLeftAllSpace(s: string)
    requires AllSpace(s)
    ensures StripLeft(s) == []
    decreases |s|
  {
    if s != [] {
      assert AllSpace(s[1..]) by {
        forall i | 0 <= i < |s| - 1 ensures IsSpace(s[1..][i]) { assert s[1..][i] == s[i + 1]; }
      }
      StripLeftAllSpace(s[1..]);
    }
  }

  /** `s.strip()`: the slice of `s` left once both whitespace runs at the ends are gone. */
  function Strip(s: string): (r: string)
    ensures |r| <= |s|
    ensures r == [] || (!IsSpace(r[0]) && !IsSpace(r[|r| - 1]))
  {
    StripRightPrefix(StripLeft(s));
    StripRight(StripLeft(s))
  }

  /** `sep.join(parts)`. */
  function Join(sep: string, parts: seq<string>): (r: string)
    ensures parts == [] ==> r == []
    ensures parts != [] ==> parts[0] <= r
    ensures |parts| > 1 ==> parts[0] + sep <= r
    decreases |parts|
  {
    if parts == [] then []
    else if |parts| == 1 then parts[0]
    else parts[0] + sep + Join(sep, parts[1..])
  }

  // ---------------------------------------------------------------------------
  // Facts about the built-ins

  /** `strip` keeps a contiguous slice `s[a..b]` and removes only whitespace around it. */
  lemma StripIsTrim(s: string) returns (a: nat, b: nat)
    ensures a <= b <= |s| && Strip(s) == s[a..b]
    ensures AllSpace(s[..a]) && AllSpace(s[b..])
    ensures Strip(s) == [] || (!IsSpace(Strip(s)[0]) && !IsSpace(Strip(s)[|Strip(s)| - 1]))
  {
    var l := StripLeft(s);
    var m := StripRight(l);
    StripLeftSuffix(s);
    StripRightPrefix(l);
    a := |s| - |l|;
    b := a + |m|;
    assert s[a..b] == l[..|m|];
    assert s[b..] == l[|m|..];
  }

  /** Lower-casing commutes with slicing. */
  lemma LowerSlice(s: string, a: nat, b: nat)
    requires a <= b <= |s|
    ensures Lower(s[a..b]) == Lower(s)[a..b]
  {
    var x, y := Lower(s[a..b]), Lower(s)[a..b];
    forall i | 0 <= i < |x| ensures x[i] == y[i] {
      assert s[a..b][i] == s[a + i];
    }
  }

  /** Lower-casing both sides keeps an occurrence: `k in s` implies `k.lower() in s.lower()`. */
  lemma ContainsLower(s: string, k: string)
    requires Contains(s, k)
    ensures Contains(Lower(s), Lower(k))
  {
    var i :| 0 <= i <= |s| && k <= s[i..];
    var ls, lk := Lower(s), Lower(k);
    forall m | 0 <= m < |k| ensures lk[m] == ls[i..][m] {
      assert k[m] == s[i..][m] == s[i + m];
    }
    assert lk == ls[i..][..|k|];
  }

  /** An occurrence in a slice is an occurrence in the whole string. */
  lemma ContainsSlice(s: string, a: nat, b: nat, k: string)
    requires a <= b <= |s|
    requires Contains(s[a..b], k)
    ensures Contains(s, k)
  {
    var i :| 0 <= i <= |s[a..b]| && k <= s[a..b][i..];
    assert k <= s[a + i..];
  }

  /** A needle without whitespace cannot overlap whitespace cut away around a slice. */
  lemma ContainsTrimmed(s: string, a: nat, b: nat, k: string)
    requires a <= b <= |s|
    requires AllSpace(s[..a]) && AllSpace(s[b..])
    requires k != [] && NoSpace(k)
    requires Contains(s, k)
    ensures Contains(s[a..b], k)
  {
    var i :| 0 <= i <= |s| && k <= s[i..];
    var j := i + |k| - 1;
    assert s[i] == k[0] && s[j] == k[|k| - 1];
    assert !IsSpace(s[i]) && !IsSpace(s[j]);
    forall m | 0 <= m < a ensures IsSpace(s[m]) { assert s[..a][m] == s[m]; }
    forall m | b <= m < |s| ensures IsSpace(s[m]) { assert s[b..][m - b] == s[m]; }
    assert a <= i && j < b;
    assert k <= s[a..b][i - a..];
  }

  /** A needle without whitespace occurs in `s` exactly when it occurs in a
      slice of `s` that only has whitespace cut away around it. */
  lemma ContainsTrim(s: string, a: nat, b: nat, k: string)
    requires a <= b <= |s|
    requires AllSpace(s[..a]) && AllSpace(s[b..])
    requires k != [] && NoSpace(k)
    ensures Contains(s[a..b], k) <==> Contains(s, k)
  {
    if Contains(s[a..b], k) { ContainsSlice(s, a, b, k); }
    if Contains(s, k) { ContainsTrimmed(s, a, b, k); }
  }

  /** `"hr" in reply.strip().lower()` does not depend on the strip, for any needle
      free of whitespace. */
  lemma StripLowerContains(s: string, k: string)
    requires k != [] && NoSpace(k)
    ensures Contains(Lower(Strip(s)), k) <==> Contains(Lower(s), k)
  {
    var a, b := StripIsTrim(s);
    LowerSlice(s, a, b);
    LowerKeepsSpaceEnds(s, a, b);
    ContainsTrim(Lower(s), a, b, k);
  }

  /** Lower-casing keeps whitespace ends whitespace. */
  lemma LowerKeepsSpaceEnds(s: string, a: nat, b: nat)
    requires a <= b <= |s|
    requires AllSpace(s[..a]) && AllSpace(s[b..])
    ensures AllSpace(Lower(s)[..a]) && AllSpace(Lower(s)[b..])
  {
    var ls := Lower(s);
    forall i | 0 <= i < a ensures IsSpace(ls[..a][i]) {
      assert s[..a][i] == s[i];
    }
    forall i | 0 <= i < |s| - b ensures IsSpace(ls[b..][i]) {
      assert s[b..][i] == s[b + i];
    }
  }

  /** Removing a trailing whitespace block: `(x + y).rstrip() == x` when `x` does
      not itself end in whitespace. */
  lemma {:induction false} StripRightSpaceTail(x: string, y: string)
    requires x == [] || !IsSpace(x[|x| - 1])
    requires AllSpace(y)
    ensures StripRight(x + y) == x
    decreases |y|
  {
    if y == [] {
      assert x + y == x;
    } else {
      assert (x + y)[..|x + y| - 1] == x + y[..|y| - 1];
      StripRightSpaceTail(x, y[..|y| - 1]);
    }
  }

  /** `(x + y).rstrip() == x + y.rstrip()` as soon as `y` holds a non-space character. */
  lemma {:induction false} StripRightAppend(x: string, y: string, j: nat)
    requires j < |y| && !IsSpace(y[j])
    ensures StripRight(x + y) == x + StripRight(y)
    decreases |y|
  {
    if IsSpace(y[|y| - 1]) {
      assert (x + y)[..|x + y| - 1] == x + y[..|y| - 1];
      StripRightAppend(x, y[..|y| - 1], j);
    } else {
      assert (x + y)[|x + y| - 1] == y[|y| - 1];
    }
  }

  /** Stripping twice is stripping once. */
  lemma StripLeftIdempotent(s: string)
    ensures StripLeft(StripLeft(s)) == StripLeft(s)
  {
  }

  /** Joining one more part: `sep.join(ps + [p]) == sep.join(ps) + sep + p` for non-empty `ps`. */
  lemma {:induction false} JoinSnoc(sep: string, ps: seq<string>, p: string)
    requires ps != []
    ensures Join(sep, ps + [p]) == Join(sep, ps) + sep + p
    decreases |ps|
  {
    if |ps| == 1 {
      assert ps + [p] == [ps[0], p];
    } else {
      assert (ps + [p])[1..] == ps[1..] + [p];
      JoinSnoc(sep, ps[1..], p);
    }
  }
}
