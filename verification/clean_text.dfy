/**
 * The backend's `clean_text`: delete every run matched by the regular expression
 * `http\S+|www\S+|https\S+` (Python's `re.sub`, scanning left to right for
 * non-overlapping matches), then replace each whitespace run by one space
 * (`re.sub(r'\s+', ' ', ...)`) and strip both ends.
 *
 * Python's `\s` and `str.strip()` use the same Unicode whitespace set. The model does
 * not spell it out: it is the parameter `sp`, and the lemmas only rely on the facts
 * collected in PythonSpaceClass.
 */
module CleanText {
  import opened Strings

  /** What the proofs need to know about Python's whitespace class: the space is in
      it, and the letters of the URL prefixes are not. */
  predicate PythonSpaceClass(sp: char -> bool)
  {
    sp(' ') && !sp('h') && !sp('t') && !sp('p') && !sp('s') && !sp('w')
  }

  /** The first alternative `http\S+` can match at the head of `s`. */
  predicate HttpAt(sp: char -> bool, s: string)
  {
    |s| > 4 && s[0] == 'h' && s[1] == 't' && s[2] == 't' && s[3] == 'p' && !sp(s[4])
  }

  /** The second alternative `www\S+` can match at the head of `s`. */
  predicate WwwAt(sp: char -> bool, s: string)
  {
    |s| > 3 && s[0] == 'w' && s[1] == 'w' && s[2] == 'w' && !sp(s[3])
  }

  /** The third alternative `https\S+` can match at the head of `s`. */
  predicate HttpsAt(sp: char -> bool, s: string)
  {
    |s| > 5 && s[0] == 'h' && s[1] == 't' && s[2] == 't' && s[3] == 'p' && s[4] == 's' && !sp(s[5])
  }

  /** Some alternative of the URL pattern matches at the head of `s`. */
  predicate UrlAt(sp: char -> bool, s: string)
  {
    HttpAt(sp, s) || WwwAt(sp, s) || HttpsAt(sp, s)
  }

  /** Length of the URL match at the head of `s`, 0 when there is none. The
      alternatives are tried in the pattern's order and `\S+` is greedy, so a match
      always runs up to the next whitespace character or the end of the text. */
  function UrlMatch(sp: char -> bool, s: string): (n: nat)
    ensures n <= |s|
    ensures n > 0 <==> UrlAt(sp, s)
    ensures n > 0 ==> n > 3 && (n == |s| || sp(s[n]))
  {
    if HttpAt(sp, s) then 4 + WordRun(sp, s[4..])
    else if WwwAt(sp, s) then 3 + WordRun(sp, s[3..])
    else if HttpsAt(sp, s) then 5 + WordRun(sp, s[5..])
    else 0
  }

  /** The `https\S+` alternative never decides a match: `http\S+` already matches
      wherever it could. */
  lemma HttpsBranchIsDead(sp: char -> bool, s: string)
    requires PythonSpaceClass(sp)
    ensures HttpsAt(sp, s) ==> HttpAt(sp, s)
  {
  }

  /** A URL match removes the whole whitespace-free run it starts. */
  lemma UrlMatchIsWholeWord(sp: char -> bool, s: string)
    requires PythonSpaceClass(sp)
    ensures UrlAt(sp, s) ==> UrlMatch(sp, s) == WordRun(sp, s)
  {
    if UrlAt(sp, s) {
      var n := UrlMatch(sp, s);
      assert !sp(s[0]) && !sp(s[1]) && !sp(s[2]);
      WordRunUnique(sp, s, n);
    }
  }

  /** First pass of `clean_text`: `re.sub(r'http\S+|www\S+|https\S+', '', s)`. */
  function StripUrls(sp: char -> bool, s: string): (r: string)
    ensures |r| <= |s|
    decreases |s|
  {
    if s == [] then []
    else if UrlAt(sp, s) then StripUrls(sp, s[UrlMatch(sp, s)..])
    else [s[0]] + StripUrls(sp, s[1..])
  }

  /** A URL match never reaches past whitespace: whether one starts at the head of
      `a + [c] + b` depends on `a` alone. */
  lemma UrlAtBeforeSpace(sp: char -> bool, a: string, c: char, b: string)
    requires PythonSpaceClass(sp) && sp(c) && a != []
    ensures UrlAt(sp, a + [c] + b) <==> UrlAt(sp, a)
  {
    var s := a + [c] + b;
    assert forall k :: 0 <= k < |a| ==> s[k] == a[k];
    assert s[|a|] == c;
  }

  /** The URL pass works word by word: text on either side of a whitespace character
      is cleaned independently, and the whitespace character itself is kept. */
  lemma {:induction false} StripUrlsSplit(sp: char -> bool, a: string, c: char, b: string)
    requires PythonSpaceClass(sp) && sp(c)
    ensures StripUrls(sp, a + [c] + b) == StripUrls(sp, a) + [c] + StripUrls(sp, b)
    decreases |a|
  {
    var s := a + [c] + b;
    if a == [] {
      assert s == [c] + b;
      assert s[1..] == b;
    } else {
      UrlAtBeforeSpace(sp, a, c, b);
      if UrlAt(sp, a) {
        UrlMatchIsWholeWord(sp, s);
        UrlMatchIsWholeWord(sp, a);
        WordRunBeforeSpace(sp, a, c, b);
        var m := UrlMatch(sp, a);
        assert s[m..] == a[m..] + [c] + b;
        StripUrlsSplit(sp, a[m..], c, b);
      } else {
        assert s[1..] == a[1..] + [c] + b;
        StripUrlsSplit(sp, a[1..], c, b);
        assert [a[0]] + (StripUrls(sp, a[1..]) + [c] + StripUrls(sp, b))
            == ([a[0]] + StripUrls(sp, a[1..])) + [c] + StripUrls(sp, b);
      }
    }
  }

  /** A whitespace character never starts a URL match, so the URL pass keeps it. */
  lemma StripUrlsSpaceLead(sp: char -> bool, c: char, b: string)
    requires PythonSpaceClass(sp) && sp(c)
    ensures StripUrls(sp, [c] + b) == [c] + StripUrls(sp, b)
  {
    assert ([c] + b)[1..] == b;
  }

  /** The first position of `w` where a URL match starts, `|w|` when there is none. */
  function FirstUrl(sp: char -> bool, w: string): (i: nat)
    ensures i <= |w|
    ensures forall j :: 0 <= j < i ==> !UrlAt(sp, w[j..])
    ensures i < |w| ==> UrlAt(sp, w[i..])
    decreases |w|
  {
    if w == [] || UrlAt(sp, w) then 0
    else
      assert w[0..] == w;
      assert forall j :: 1 <= j <= |w| ==> w[1..][j - 1..] == w[j..];
      1 + FirstUrl(sp, w[1..])
  }

  /** Inside one whitespace-free word the URL pass keeps exactly the part before the
      first URL start: the match runs to the end of the word. */
  lemma {:induction false} StripUrlsWord(sp: char -> bool, w: string)
    requires PythonSpaceClass(sp)
    requires forall i :: 0 <= i < |w| ==> !sp(w[i])
    ensures StripUrls(sp, w) == w[..FirstUrl(sp, w)]
    decreases |w|
  {
    if w == [] {
    } else if UrlAt(sp, w) {
      UrlMatchIsWholeWord(sp, w);
      WordRunUnique(sp, w, |w|);
      assert w[|w|..] == [];
    } else {
      StripUrlsWord(sp, w[1..]);
      assert w[..1 + FirstUrl(sp, w[1..])] == [w[0]] + w[1..][..FirstUrl(sp, w[1..])];
    }
  }

  /** Every whitespace character of `s` is a plain space, and no two whitespace
      characters are adjacent. */
  predicate SingleSpaced(sp: char -> bool, s: string)
  {
    (forall i :: 0 <= i < |s| && sp(s[i]) ==> s[i] == ' ') &&
    (forall i :: 0 <= i < |s| - 1 ==> !sp(s[i]) || !sp(s[i + 1]))
  }

  /** Second pass of `clean_text`: `re.sub(r'\s+', ' ', s)`. */
  function CollapseSpaces(sp: char -> bool, s: string): (r: string)
    ensures |r| <= |s|
    ensures s != [] && !sp(s[0]) ==> r != [] && r[0] == s[0]
    ensures SingleSpaced(sp, r)
    decreases |s|
  {
    if s == [] then []
    else if sp(s[0]) then [' '] + CollapseSpaces(sp, s[SpaceRun(sp, s)..])
    else [s[0]] + CollapseSpaces(sp, s[1..])
  }

  /** The backend's `clean_text`. Its result is never longer than its input, has no
      whitespace at either end, and is single-spaced. */
  function Clean(sp: char -> bool, text: string): (r: string)
    ensures |r| <= |text|
    ensures r == [] || (!sp(r[0]) && !sp(r[|r| - 1]))
    ensures SingleSpaced(sp, r)
  {
    var collapsed := CollapseSpaces(sp, StripUrls(sp, text));
    var r := Strip(sp, collapsed);
    SingleSpacedSlice(sp, collapsed, SpaceRun(sp, collapsed), SpaceRun(sp, collapsed) + |r|);
    r
  }

  /** A slice of single-spaced text is single-spaced. */
  lemma SingleSpacedSlice(sp: char -> bool, s: string, a: nat, b: nat)
    requires a <= b <= |s| && SingleSpaced(sp, s)
    ensures SingleSpaced(sp, s[a..b])
  {
    assert forall i :: 0 <= i < b - a ==> s[a..b][i] == s[a + i];
  }

  /** No URL pattern matches anywhere in `s`. */
  predicate NoUrl(sp: char -> bool, s: string)
  {
    forall i :: 0 <= i < |s| ==> !UrlAt(sp, s[i..])
  }

  lemma NoUrlDrop(sp: char -> bool, s: string, k: nat)
    requires k <= |s| && NoUrl(sp, s)
    ensures NoUrl(sp, s[k..])
  {
    forall i | 0 <= i < |s| - k ensures !UrlAt(sp, s[k..][i..]) {
      assert s[k..][i..] == s[k + i..];
    }
  }

  lemma NoUrlCons(sp: char -> bool, c: char, t: string)
    requires !UrlAt(sp, [c] + t) && NoUrl(sp, t)
    ensures NoUrl(sp, [c] + t)
  {
    var s := [c] + t;
    forall i | 0 <= i < |s| ensures !UrlAt(sp, s[i..]) {
      if i > 0 {
        assert s[i..] == t[i - 1..];
      }
    }
  }

  /** A match of the URL pattern only looks at a prefix: it survives extending the text. */
  lemma UrlAtExtend(sp: char -> bool, p: string, q: string)
    requires |p| <= |q| && p == q[..|p|]
    ensures UrlAt(sp, p) ==> UrlAt(sp, q)
  {
    assert forall k :: 0 <= k < |p| ==> p[k] == q[k];
  }

  lemma NoUrlSlice(sp: char -> bool, s: string, a: nat, b: nat)
    requires a <= b <= |s| && NoUrl(sp, s)
    ensures NoUrl(sp, s[a..b])
  {
    forall i | 0 <= i < b - a ensures !UrlAt(sp, s[a..b][i..]) {
      var p, q := s[a..b][i..], s[a + i..];
      assert p == q[..|p|];
      UrlAtExtend(sp, p, q);
    }
  }

  /** The leading word of `t` is a prefix of `u`. */
  predicate LeadingWordIn(sp: char -> bool, t: string, u: string)
  {
    WordRun(sp, t) <= |u| && t[..WordRun(sp, t)] == u[..WordRun(sp, t)]
  }

  /** Putting the same non-whitespace character in front of both keeps the relation. */
  lemma LeadingWordInCons(sp: char -> bool, c: char, t: string, u: string)
    requires !sp(c) && LeadingWordIn(sp, t, u)
    ensures LeadingWordIn(sp, [c] + t, [c] + u)
  {
    var w := WordRun(sp, t);
    assert ([c] + t)[1..] == t;
    assert WordRun(sp, [c] + t) == 1 + w;
    assert ([c] + t)[..1 + w] == [c] + t[..w];
    assert ([c] + u)[..1 + w] == [c] + u[..w];
  }

  /** Whether a URL starts at the head of `[c] + t` depends only on `c` and the
      leading word of `t`. */
  lemma UrlAtSameLeadingWord(sp: char -> bool, c: char, t: string, u: string)
    requires PythonSpaceClass(sp) && LeadingWordIn(sp, t, u)
    ensures UrlAt(sp, [c] + t) ==> UrlAt(sp, [c] + u)
  {
    var w := WordRun(sp, t);
    if UrlAt(sp, [c] + t) {
      assert t[0] == ([c] + t)[1] && t[1] == ([c] + t)[2] && t[2] == ([c] + t)[3];
      assert !sp(t[0]) && !sp(t[1]) && !sp(t[2]);
      assert w >= 3;
      if HttpAt(sp, [c] + t) {
        assert t[3] == ([c] + t)[4];
        assert w >= 4;
      }
      if HttpsAt(sp, [c] + t) {
        assert t[3] == ([c] + t)[4] && t[4] == ([c] + t)[5];
        assert w >= 5;
      }
      assert forall k :: 0 <= k < w ==> t[k] == u[k] by {
        forall k | 0 <= k < w ensures t[k] == u[k] {
          assert t[..w][k] == u[..w][k];
        }
      }
    }
  }

  /** What follows a removed URL is empty or starts with whitespace. */
  lemma StripUrlsAfterUrl(sp: char -> bool, s: string)
    requires PythonSpaceClass(sp) && UrlAt(sp, s)
    ensures WordRun(sp, StripUrls(sp, s)) == 0
  {
    var rest := s[UrlMatch(sp, s)..];
    if rest != [] {
      assert sp(rest[0]);
      assert !UrlAt(sp, rest);
      assert StripUrls(sp, s) == [rest[0]] + StripUrls(sp, rest[1..]);
    }
  }

  /** The leading word of `StripUrls(sp, s)` is a prefix of `s`: removing a URL in the
      first word of `s` cuts that word off at the whitespace that follows it. */
  lemma {:induction false} StripUrlsLeadingWord(sp: char -> bool, s: string)
    requires PythonSpaceClass(sp)
    ensures LeadingWordIn(sp, StripUrls(sp, s), s)
    decreases |s|
  {
    if s == [] {
    } else if UrlAt(sp, s) {
      StripUrlsAfterUrl(sp, s);
    } else if !sp(s[0]) {
      StripUrlsLeadingWord(sp, s[1..]);
      LeadingWordInCons(sp, s[0], StripUrls(sp, s[1..]), s[1..]);
      assert [s[0]] + s[1..] == s;
    }
  }

  /** After the first pass no URL pattern matches anywhere, even across a join that
      a removal created. */
  lemma {:induction false} StripUrlsLeavesNoUrl(sp: char -> bool, s: string)
    requires PythonSpaceClass(sp)
    ensures NoUrl(sp, StripUrls(sp, s))
    decreases |s|
  {
    if s == [] {
    } else if UrlAt(sp, s) {
      StripUrlsLeavesNoUrl(sp, s[UrlMatch(sp, s)..]);
    } else {
      var t := StripUrls(sp, s[1..]);
      StripUrlsLeavesNoUrl(sp, s[1..]);
      StripUrlsLeadingWord(sp, s[1..]);
      assert [s[0]] + s[1..] == s;
      UrlAtSameLeadingWord(sp, s[0], t, s[1..]);
      NoUrlCons(sp, s[0], t);
    }
  }

  /** Collapsing whitespace keeps the leading word of its input. */
  lemma {:induction false} CollapseLeadingWord(sp: char -> bool, s: string)
    requires sp(' ')
    ensures LeadingWordIn(sp, CollapseSpaces(sp, s), s)
    decreases |s|
  {
    if s != [] && !sp(s[0]) {
      CollapseLeadingWord(sp, s[1..]);
      LeadingWordInCons(sp, s[0], CollapseSpaces(sp, s[1..]), s[1..]);
      assert [s[0]] + s[1..] == s;
    }
  }

  /** Collapsing whitespace creates no URL match. */
  lemma {:induction false} CollapseKeepsNoUrl(sp: char -> bool, s: string)
    requires PythonSpaceClass(sp) && NoUrl(sp, s)
    ensures NoUrl(sp, CollapseSpaces(sp, s))
    decreases |s|
  {
    if s == [] {
    } else if sp(s[0]) {
      var k := SpaceRun(sp, s);
      NoUrlDrop(sp, s, k);
      CollapseKeepsNoUrl(sp, s[k..]);
      NoUrlCons(sp, ' ', CollapseSpaces(sp, s[k..]));
    } else {
      var t := CollapseSpaces(sp, s[1..]);
      NoUrlDrop(sp, s, 1);
      CollapseKeepsNoUrl(sp, s[1..]);
      CollapseLeadingWord(sp, s[1..]);
      assert [s[0]] + s[1..] == s;
      assert s[0..] == s;
      UrlAtSameLeadingWord(sp, s[0], t, s[1..]);
      NoUrlCons(sp, s[0], t);
    }
  }

  /** No `http` or `www` followed by a non-whitespace character survives `clean_text`. */
  lemma CleanRemovesUrls(sp: char -> bool, text: string)
    requires PythonSpaceClass(sp)
    ensures NoUrl(sp, Clean(sp, text))
  {
    var stripped := StripUrls(sp, text);
    StripUrlsLeavesNoUrl(sp, text);
    var collapsed := CollapseSpaces(sp, stripped);
    CollapseKeepsNoUrl(sp, stripped);
    var r := Strip(sp, collapsed);
    var a := SpaceRun(sp, collapsed);
    NoUrlSlice(sp, collapsed, a, a + |r|);
    assert Clean(sp, text) == r;
  }

  /** Removing URLs deletes characters but never reorders them. */
  lemma {:induction false} StripUrlsKeepsOrder(sp: char -> bool, s: string)
    ensures IsSubsequence(NonSpace(sp, StripUrls(sp, s)), NonSpace(sp, s))
    decreases |s|
  {
    if s == [] {
    } else if UrlAt(sp, s) {
      var m := UrlMatch(sp, s);
      StripUrlsKeepsOrder(sp, s[m..]);
      assert s == s[..m] + s[m..];
      NonSpaceAppend(sp, s[..m], s[m..]);
      SubsequenceAppendLeft(NonSpace(sp, StripUrls(sp, s[m..])), NonSpace(sp, s[m..]), NonSpace(sp, s[..m]));
    } else {
      StripUrlsKeepsOrder(sp, s[1..]);
      var t := StripUrls(sp, s[1..]);
      assert ([s[0]] + t)[0] == s[0];
      assert ([s[0]] + t)[1..] == t;
      if !sp(s[0]) {
        SubsequenceCons(s[0], NonSpace(sp, t), NonSpace(sp, s[1..]));
      }
    }
  }

  /** Collapsing whitespace keeps every non-whitespace character, in order. */
  lemma {:induction false} CollapseKeepsNonSpace(sp: char -> bool, s: string)
    requires sp(' ')
    ensures NonSpace(sp, CollapseSpaces(sp, s)) == NonSpace(sp, s)
    decreases |s|
  {
    if s == [] {
    } else if sp(s[0]) {
      var k := SpaceRun(sp, s);
      CollapseKeepsNonSpace(sp, s[k..]);
      var t := CollapseSpaces(sp, s[k..]);
      assert ([' '] + t)[1..] == t;
      assert s == s[..k] + s[k..];
      NonSpaceAppend(sp, s[..k], s[k..]);
      NonSpaceOfSpaces(sp, s[..k]);
    } else {
      CollapseKeepsNonSpace(sp, s[1..]);
      var t := CollapseSpaces(sp, s[1..]);
      assert ([s[0]] + t)[1..] == t;
    }
  }

  /** The non-whitespace characters of the cleaned text are a subsequence of those of
      the input. */
  lemma CleanKeepsOrder(sp: char -> bool, text: string)
    requires sp(' ')
    ensures IsSubsequence(NonSpace(sp, Clean(sp, text)), NonSpace(sp, text))
  {
    var stripped := StripUrls(sp, text);
    StripUrlsKeepsOrder(sp, text);
    CollapseKeepsNonSpace(sp, stripped);
    StripKeepsNonSpace(sp, CollapseSpaces(sp, stripped));
  }

  lemma {:induction false} StripUrlsIdentity(sp: char -> bool, s: string)
    requires NoUrl(sp, s)
    ensures StripUrls(sp, s) == s
    decreases |s|
  {
    if s != [] {
      assert s[0..] == s;
      NoUrlDrop(sp, s, 1);
      StripUrlsIdentity(sp, s[1..]);
    }
  }

  lemma {:induction false} CollapseIdentity(sp: char -> bool, s: string)
    requires sp(' ') && SingleSpaced(sp, s)
    ensures CollapseSpaces(sp, s) == s
    decreases |s|
  {
    if s != [] {
      assert SingleSpaced(sp, s[1..]);
      CollapseIdentity(sp, s[1..]);
      if sp(s[0]) {
        assert SpaceRun(sp, s) == 1;
      }
    }
  }

  /** `clean_text` is idempotent: its output has no URL left, is single-spaced and is
      stripped, so a second pass finds nothing to change. */
  lemma CleanIdempotent(sp: char -> bool, text: string)
    requires PythonSpaceClass(sp)
    ensures Clean(sp, Clean(sp, text)) == Clean(sp, text)
  {
    var r := Clean(sp, text);
    CleanRemovesUrls(sp, text);
    StripUrlsIdentity(sp, r);
    CollapseIdentity(sp, r);
    StripTrimmed(sp, r);
  }

  /** A URL that starts in the middle of a word is removed through the end of that word. */
  lemma CleanMidWordUrl(sp: char -> bool)
    requires PythonSpaceClass(sp) && !sp('x') && !sp('y')
    ensures Clean(sp, "xhttpy") == "x"
  {
  }

  /** Text followed by whitespace is cleaned independently of what follows it. */
  lemma StripUrlsBeforeSpace(sp: char -> bool, w: string, b: string)
    requires PythonSpaceClass(sp)
    requires b == [] || sp(b[0])
    ensures StripUrls(sp, w + b) == StripUrls(sp, w) + StripUrls(sp, b)
  {
    if b != [] {
      assert StripUrls(sp, w + b) == StripUrls(sp, w) + [b[0]] + StripUrls(sp, b[1..]) by {
        assert w + b == w + [b[0]] + b[1..];
        StripUrlsSplit(sp, w, b[0], b[1..]);
      }
      assert b == [b[0]] + b[1..];
      StripUrlsSpaceLead(sp, b[0], b[1..]);
    } else {
      assert w + b == w;
    }
  }

  /** Text that ends in whitespace is cleaned independently of what follows it. */
  lemma StripUrlsAfterSpace(sp: char -> bool, a: string, r: string)
    requires PythonSpaceClass(sp)
    requires a == [] || sp(a[|a| - 1])
    ensures StripUrls(sp, a + r) == StripUrls(sp, a) + StripUrls(sp, r)
  {
    if a == [] {
      assert a + r == r;
    } else {
      var front, c := a[..|a| - 1], a[|a| - 1];
      assert StripUrls(sp, a + r) == StripUrls(sp, front) + [c] + StripUrls(sp, r) by {
        assert a + r == front + [c] + r;
        StripUrlsSplit(sp, front, c, r);
      }
      assert StripUrls(sp, a) == StripUrls(sp, front) + [c] by {
        assert a == front + [c] + [];
        StripUrlsSplit(sp, front, c, []);
      }
    }
  }

  /** A word with whitespace (or the end of the text) on both sides is cleaned on its own. */
  lemma StripUrlsAroundWord(sp: char -> bool, a: string, w: string, b: string)
    requires PythonSpaceClass(sp)
    requires a == [] || sp(a[|a| - 1])
    requires b == [] || sp(b[0])
    ensures StripUrls(sp, a + w + b) == StripUrls(sp, a) + StripUrls(sp, w) + StripUrls(sp, b)
  {
    StripUrlsBeforeSpace(sp, w, b);
    StripUrlsAfterSpace(sp, a, w + b);
    assert a + w + b == a + (w + b);
  }

  /** A bare `http`, with whitespace or the end of the text on both sides, is not a
      URL: the URL pass keeps it and cleans the text around it independently. */
  lemma StripUrlsBareHttp(sp: char -> bool, a: string, b: string)
    requires PythonSpaceClass(sp)
    requires a == [] || sp(a[|a| - 1])
    requires b == [] || sp(b[0])
    ensures StripUrls(sp, a + "http" + b) == StripUrls(sp, a) + "http" + StripUrls(sp, b)
  {
    var word := "http";
    assert StripUrls(sp, word) == word by {
      assert !UrlAt(sp, word[1..]) && !UrlAt(sp, word[2..]) && !UrlAt(sp, word[3..]);
      StripUrlsWord(sp, word);
    }
    StripUrlsAroundWord(sp, a, word, b);
  }

  /** `' '.join(words)`. */
  function Join(words: seq<string>): (r: string)
    ensures r == [] <==> words == [] || (|words| == 1 && words[0] == [])
  {
    if words == [] then []
    else if |words| == 1 then words[0]
    else words[0] + " " + Join(words[1..])
  }

  /** The words of `s` (its maximal whitespace-free runs) in order, each cut at the
      first position where a URL match starts, with the words that this leaves empty
      dropped. */
  function CleanWords(sp: char -> bool, s: string): (words: seq<string>)
    ensures forall i :: 0 <= i < |words| ==> words[i] != []
    ensures forall i, k :: 0 <= i < |words| && 0 <= k < |words[i]| ==> !sp(words[i][k])
    decreases |s|
  {
    if s == [] then []
    else if sp(s[0]) then CleanWords(sp, s[1..])
    else
      var w := s[..WordRun(sp, s)];
      var cut := w[..FirstUrl(sp, w)];
      (if cut == [] then [] else [cut]) + CleanWords(sp, s[WordRun(sp, s)..])
  }

  /** `s` with its whitespace runs collapsed and its ends stripped: the last two steps
      of `clean_text`. */
  function Squeeze(sp: char -> bool, s: string): string
  {
    Strip(sp, CollapseSpaces(sp, s))
  }

  lemma SqueezeSpaceLead(sp: char -> bool, c: char, s: string)
    requires sp(' ') && sp(c)
    ensures Squeeze(sp, [c] + s) == Squeeze(sp, s)
  {
    var k := SpaceRun(sp, s);
    assert ([c] + s)[1..] == s;
    assert ([c] + s)[1 + k..] == s[k..];
    StripSpaceLead(sp, ' ', CollapseSpaces(sp, s[k..]));
    if k == 0 {
      assert s[0..] == s;
    }
  }

  lemma {:induction false} CollapseWordPrefix(sp: char -> bool, w: string, rest: string)
    requires forall i :: 0 <= i < |w| ==> !sp(w[i])
    ensures CollapseSpaces(sp, w + rest) == w + CollapseSpaces(sp, rest)
    decreases |w|
  {
    if w == [] {
      assert w + rest == rest;
    } else {
      assert (w + rest)[0] == w[0];
      assert (w + rest)[1..] == w[1..] + rest;
      CollapseWordPrefix(sp, w[1..], rest);
      assert [w[0]] + (w[1..] + CollapseSpaces(sp, rest)) == w + CollapseSpaces(sp, rest);
    }
  }

  /** Trimming the end of a single space followed by text that starts with a
      non-whitespace character, or is empty. */
  lemma TrimEndSpaceLead(sp: char -> bool, x: string)
    requires sp(' ') && (x == [] || !sp(x[0]))
    ensures TrimEnd(sp, [' '] + x) == if TrimEnd(sp, x) == [] then [] else [' '] + TrimEnd(sp, x)
  {
    if x == [] {
      assert TrimEnd(sp, [' '] + x) == TrimEnd(sp, []);
    } else {
      var t := TrimEnd(sp, x[1..]);
      assert x == [x[0]] + x[1..];
      TrimEndAppend(sp, [x[0]], x[1..]);
      assert TrimEnd(sp, x) == [x[0]] + t;
      assert [' '] + x == [' ', x[0]] + x[1..];
      TrimEndAppend(sp, [' ', x[0]], x[1..]);
    }
  }

  /** A leading word survives squeezing, followed by one space when anything else does. */
  lemma SqueezeWordLead(sp: char -> bool, w: string, rest: string)
    requires sp(' ') && w != []
    requires forall i :: 0 <= i < |w| ==> !sp(w[i])
    requires rest == [] || sp(rest[0])
    ensures Squeeze(sp, w + rest) ==
            w + (if Squeeze(sp, rest) == [] then [] else " " + Squeeze(sp, rest))
  {
    var collapsed := CollapseSpaces(sp, rest);
    CollapseWordPrefix(sp, w, rest);
    StripNonSpaceLead(sp, w + collapsed);
    TrimEndAppend(sp, w, collapsed);
    if rest != [] {
      var k := SpaceRun(sp, rest);
      var x := CollapseSpaces(sp, rest[k..]);
      assert collapsed == [' '] + x;
      StripSpaceLead(sp, ' ', x);
      TrimEndSpaceLead(sp, x);
      if x != [] {
        StripNonSpaceLead(sp, x);
      }
    }
  }

  /** `' '.join` puts one space between the first word and the join of the rest. */
  lemma JoinHead(words: seq<string>)
    requires words != [] && (|words| > 1 ==> words[1] != [])
    ensures Join(words) == words[0] + (if Join(words[1..]) == [] then [] else " " + Join(words[1..]))
  {
    if |words| > 1 {
      assert words[1..][0] == words[1];
    }
  }

  /** The URL pass on a text that starts with a word: the word's part before its first
      URL start, then the cleaned rest, which is empty or starts with whitespace. */
  lemma StripUrlsLeadingWordCut(sp: char -> bool, s: string)
    requires PythonSpaceClass(sp) && s != [] && !sp(s[0])
    ensures var w := s[..WordRun(sp, s)];
            var rest := StripUrls(sp, s[WordRun(sp, s)..]);
            StripUrls(sp, s) == w[..FirstUrl(sp, w)] + rest && (rest == [] || sp(rest[0]))
  {
    var n := WordRun(sp, s);
    var w, tail := s[..n], s[n..];
    StripUrlsWord(sp, w);
    assert s == w + tail;
    StripUrlsBeforeSpace(sp, w, tail);
    if tail != [] {
      assert tail == [tail[0]] + tail[1..];
      StripUrlsSpaceLead(sp, tail[0], tail[1..]);
    }
  }

  /** What `clean_text` computes, stated word by word: the words of the text, in order,
      each cut at its first URL start, the empty ones dropped, joined by single spaces. */
  lemma {:induction false} CleanJoinsCleanWords(sp: char -> bool, text: string)
    requires PythonSpaceClass(sp)
    ensures Clean(sp, text) == Join(CleanWords(sp, text))
    decreases |text|
  {
    assert Clean(sp, text) == Squeeze(sp, StripUrls(sp, text));
    if text == [] {
    } else if sp(text[0]) {
      assert StripUrls(sp, text) == [text[0]] + StripUrls(sp, text[1..]);
      SqueezeSpaceLead(sp, text[0], StripUrls(sp, text[1..]));
      CleanJoinsCleanWords(sp, text[1..]);
    } else {
      var n := WordRun(sp, text);
      var w := text[..n];
      var cut := w[..FirstUrl(sp, w)];
      var rest := StripUrls(sp, text[n..]);
      StripUrlsLeadingWordCut(sp, text);
      CleanJoinsCleanWords(sp, text[n..]);
      assert Squeeze(sp, rest) == Join(CleanWords(sp, text[n..]));
      if cut == [] {
        assert cut + rest == rest;
        assert CleanWords(sp, text) == CleanWords(sp, text[n..]);
      } else {
        assert forall i :: 0 <= i < |cut| ==> !sp(cut[i]) by {
          assert forall i :: 0 <= i < |cut| ==> cut[i] == text[i];
        }
        SqueezeWordLead(sp, cut, rest);
        var words := CleanWords(sp, text);
        assert words == [cut] + CleanWords(sp, text[n..]);
        assert words[0] == cut && words[1..] == CleanWords(sp, text[n..]);
        JoinHead(words);
      }
    }
  }
}
