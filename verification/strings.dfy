/**
 * Whitespace handling shared by the backend (Python's `\s` and `str.strip()`) and the
 * panel (JavaScript's `String.prototype.trim`). Which characters count as whitespace
 * differs between the two languages, so every function here takes the whitespace
 * class `sp` as a parameter.
 */
module Strings {

  /** Number of leading whitespace characters of `s`. */
  function SpaceRun(sp: char -> bool, s: string): (n: nat)
    ensures n <= |s|
    ensures forall i :: 0 <= i < n ==> sp(s[i])
    ensures n < |s| ==> !sp(s[n])
  {
    if s == [] || !sp(s[0]) then 0 else 1 + SpaceRun(sp, s[1..])
  }

  /** Number of leading non-whitespace characters of `s` (what `\S+` can match). */
  function WordRun(sp: char -> bool, s: string): (n: nat)
    ensures n <= |s|
    ensures forall i :: 0 <= i < n ==> !sp(s[i])
    ensures n < |s| ==> sp(s[n])
  {
    if s == [] || sp(s[0]) then 0 else 1 + WordRun(sp, s[1..])
  }

  /** The leading word of `s` is the longest all-non-whitespace prefix: any such prefix
      that ends at whitespace or at the end of `s` has WordRun's length. */
  lemma WordRunUnique(sp: char -> bool, s: string, n: nat)
    requires n <= |s|
    requires forall i :: 0 <= i < n ==> !sp(s[i])
    requires n < |s| ==> sp(s[n])
    ensures WordRun(sp, s) == n
  {
  }

  /** A word ends at the first whitespace character. */
  lemma WordRunBeforeSpace(sp: char -> bool, a: string, c: char, b: string)
    requires sp(c)
    ensures WordRun(sp, a + [c] + b) == WordRun(sp, a)
  {
    var s := a + [c] + b;
    assert forall i :: 0 <= i < |a| ==> s[i] == a[i];
    assert s[|a|] == c;
    WordRunUnique(sp, s, WordRun(sp, a));
  }

  /** `s` with its trailing whitespace removed. */
  function TrimEnd(sp: char -> bool, s: string): (r: string)
    ensures |r| <= |s| && r == s[..|r|]
    ensures r == [] || !sp(r[|r| - 1])
    ensures forall i :: |r| <= i < |s| ==> sp(s[i])
  {
    if s != [] && sp(s[|s| - 1]) then TrimEnd(sp, s[..|s| - 1]) else s
  }

  /** Python's `str.strip()` and JavaScript's `trim()`: `s` without its leading and
      trailing whitespace. The result is the slice of `s` that starts after the leading
      whitespace, and everything outside that slice is whitespace. */
  function Strip(sp: char -> bool, s: string): (r: string)
    ensures SpaceRun(sp, s) + |r| <= |s|
    ensures r == s[SpaceRun(sp, s)..SpaceRun(sp, s) + |r|]
    ensures r == [] || (!sp(r[0]) && !sp(r[|r| - 1]))
    ensures forall i :: 0 <= i < SpaceRun(sp, s) ==> sp(s[i])
    ensures forall i :: SpaceRun(sp, s) + |r| <= i < |s| ==> sp(s[i])
    ensures r == [] <==> forall i :: 0 <= i < |s| ==> sp(s[i])
  {
    TrimEnd(sp, s[SpaceRun(sp, s)..])
  }

  /** Trailing whitespace is cut from the end only: a head ending in a non-whitespace
      character is kept whole. */
  lemma {:induction false} TrimEndAppend(sp: char -> bool, u: string, v: string)
    requires u == [] || !sp(u[|u| - 1])
    ensures TrimEnd(sp, u + v) == u + TrimEnd(sp, v)
    decreases |v|
  {
    if v == [] {
      assert u + v == u;
    } else if sp(v[|v| - 1]) {
      assert (u + v)[..|u + v| - 1] == u + v[..|v| - 1];
      TrimEndAppend(sp, u, v[..|v| - 1]);
    }
  }

  /** A leading whitespace character does not change what stripping leaves. */
  lemma StripSpaceLead(sp: char -> bool, c: char, s: string)
    requires sp(c)
    ensures Strip(sp, [c] + s) == Strip(sp, s)
  {
    assert ([c] + s)[1..] == s;
    assert ([c] + s)[1 + SpaceRun(sp, s)..] == s[SpaceRun(sp, s)..];
  }

  /** Text that starts with a non-whitespace character only loses its trailing whitespace. */
  lemma StripNonSpaceLead(sp: char -> bool, s: string)
    requires s != [] && !sp(s[0])
    ensures Strip(sp, s) == TrimEnd(sp, s)
  {
    assert s[0..] == s;
  }

  /** Stripping text that has no whitespace at either end changes nothing. */
  lemma StripTrimmed(sp: char -> bool, s: string)
    requires s == [] || (!sp(s[0]) && !sp(s[|s| - 1]))
    ensures Strip(sp, s) == s
  {
    assert SpaceRun(sp, s) == 0;
    assert s[0..] == s;
  }

  /** The non-whitespace characters of `s`, in order. */
  function NonSpace(sp: char -> bool, s: string): (r: string)
    ensures |r| <= |s|
    ensures forall i :: 0 <= i < |r| ==> !sp(r[i])
  {
    if s == [] then []
    else if sp(s[0]) then NonSpace(sp, s[1..])
    else [s[0]] + NonSpace(sp, s[1..])
  }

  lemma {:induction false} NonSpaceAppend(sp: char -> bool, a: string, b: string)
    ensures NonSpace(sp, a + b) == NonSpace(sp, a) + NonSpace(sp, b)
  {
    if a == [] {
      assert a + b == b;
    } else {
      assert (a + b)[0] == a[0];
      assert (a + b)[1..] == a[1..] + b;
      NonSpaceAppend(sp, a[1..], b);
    }
  }

  lemma {:induction false} NonSpaceOfSpaces(sp: char -> bool, s: string)
    requires forall i :: 0 <= i < |s| ==> sp(s[i])
    ensures NonSpace(sp, s) == []
  {
    if s != [] {
      NonSpaceOfSpaces(sp, s[1..]);
    }
  }

  /** Stripping removes whitespace only. */
  lemma StripKeepsNonSpace(sp: char -> bool, s: string)
    ensures NonSpace(sp, Strip(sp, s)) == NonSpace(sp, s)
  {
    var r := Strip(sp, s);
    var a := SpaceRun(sp, s);
    var b := a + |r|;
    assert s == s[..a] + r + s[b..];
    NonSpaceAppend(sp, s[..a] + r, s[b..]);
    NonSpaceAppend(sp, s[..a], r);
    NonSpaceOfSpaces(sp, s[..a]);
    NonSpaceOfSpaces(sp, s[b..]);
  }

  /** `a` can be obtained from `b` by deleting characters. */
  predicate IsSubsequence(a: string, b: string)
    decreases |b|
  {
    a == [] || (b != [] && ((a[0] == b[0] && IsSubsequence(a[1..], b[1..])) || IsSubsequence(a, b[1..])))
  }

  lemma {:induction false} SubsequenceReflexive(a: string)
    ensures IsSubsequence(a, a)
  {
    if a != [] {
      SubsequenceReflexive(a[1..]);
    }
  }

  lemma {:induction false} SubsequenceAppendLeft(a: string, b: string, c: string)
    requires IsSubsequence(a, b)
    ensures IsSubsequence(a, c + b)
    decreases |c|
  {
    if c != [] {
      assert (c + b)[1..] == c[1..] + b;
      SubsequenceAppendLeft(a, b, c[1..]);
    } else {
      assert c + b == b;
    }
  }

  lemma SubsequenceCons(x: char, a: string, b: string)
    requires IsSubsequence(a, b)
    ensures IsSubsequence([x] + a, [x] + b)
  {
    assert ([x] + a)[1..] == a;
    assert ([x] + b)[1..] == b;
  }
}
