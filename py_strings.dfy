/** The Python `str` operations the parsers are built from (`find`, `split`, `join`,
    `replace`, `strip`, `lower`, whitespace `split()`, `str(int)`), each with the
    semantics CPython gives it for the arguments the parsers pass. */
module PyStrings {

  type String = seq<char>

  /** `c.isspace()`: the characters Python treats as whitespace; `\s` in `re` matches the same set */
  predicate IsSpace(c: char) {
    || c == ' '
    || ('\t' <= c <= '\r')
    || ('\U{1c}' <= c <= '\U{1f}')
    || c == '\U{85}' || c == '\U{a0}' || c == '\U{1680}'
    || ('\U{2000}' <= c <= '\U{200a}')
    || c == '\U{2028}' || c == '\U{2029}' || c == '\U{202f}' || c == '\U{205f}' || c == '\U{3000}'
  }

  /** `p` occurs in `s` starting at index `i` */
  predicate OccursAt(s: String, p: String, i: int) {
    0 <= i && i + |p| <= |s| && s[i..i + |p|] == p
  }

  /** `p in s` for strings */
  predicate Contains(s: String, p: String) {
    exists i :: 0 <= i <= |s| && OccursAt(s, p, i)
  }

  /** `s.find(p)`: the lowest index at which `p` occurs, or -1 */
  function Find(s: String, p: String): (r: int)
    ensures -1 <= r <= |s|
    ensures r < 0 ==> forall j :: 0 <= j ==> !OccursAt(s, p, j)
    ensures r >= 0 ==> OccursAt(s, p, r) && forall j :: 0 <= j < r ==> !OccursAt(s, p, j)
  {
    FindFrom(s, p, 0)
  }

  /** The scan behind `s.find(p)`: the lowest index from `k` on at which `p` occurs, or -1 */
  function FindFrom(s: String, p: String, k: nat): (r: int)
    requires k <= |s|
    ensures r == -1 || k <= r <= |s|
    ensures r < 0 ==> forall j :: k <= j ==> !OccursAt(s, p, j)
    ensures r >= 0 ==> OccursAt(s, p, r) && forall j :: k <= j < r ==> !OccursAt(s, p, j)
    decreases |s| - k
  {
    if OccursAt(s, p, k) then k
    else if k == |s| then -1
    else FindFrom(s, p, k + 1)
  }

  /** `s.startswith(p)` is an occurrence of `p` at index 0 */
  lemma PrefixOccurs(s: String, p: String)
    ensures p <= s <==> OccursAt(s, p, 0)
  {
    if |p| <= |s| {
      assert s[0..|p|] == s[..|p|];
    }
  }

  /** `s.find(p) == 0` exactly when `s.startswith(p)` */
  lemma FindZero(s: String, p: String)
    ensures Find(s, p) == 0 <==> p <= s
  {
    PrefixOccurs(s, p);
  }

  /** An occurrence in `s[1..]` is an occurrence in `s` one place further on */
  lemma ShiftOccurrence(s: String, p: String)
    requires |s| > 0
    ensures forall j {:trigger OccursAt(s[1..], p, j)} :: 0 <= j ==> (OccursAt(s[1..], p, j) <==> OccursAt(s, p, j + 1))
    ensures forall i {:trigger OccursAt(s, p, i)} :: 1 <= i ==> (OccursAt(s, p, i) <==> OccursAt(s[1..], p, i - 1))
  {
    forall j | 0 <= j ensures OccursAt(s[1..], p, j) <==> OccursAt(s, p, j + 1) {
      if j + 1 + |p| <= |s| {
        assert s[1..][j..j + |p|] == s[j + 1..j + 1 + |p|];
      }
    }
  }

  /** A one-character pattern occurs exactly where that character stands */
  lemma CharOccurs(s: String, c: char, i: int)
    ensures OccursAt(s, [c], i) <==> 0 <= i < |s| && s[i] == c
  {
    if 0 <= i < |s| {
      assert s[i..i + 1] == [s[i]];
    }
  }

  /** `[c] in s` as a string is `c in s` as a character */
  lemma ContainsChar(s: String, c: char)
    ensures Contains(s, [c]) <==> c in s
  {
    if c in s {
      var i :| 0 <= i < |s| && s[i] == c;
      CharOccurs(s, c, i);
    }
    if Contains(s, [c]) {
      var i :| OccursAt(s, [c], i);
      CharOccurs(s, c, i);
    }
  }

  /** `s.find(c) >= 0` exactly when `c` occurs in `s` */
  lemma FindChar(s: String, c: char)
    ensures Find(s, [c]) >= 0 <==> c in s
  {
    ContainsChar(s, c);
    if c in s {
      var i :| 0 <= i <= |s| && OccursAt(s, [c], i);
    }
  }

  /** A pattern holding a character that `s` lacks does not occur in `s` */
  lemma LackingCharNotContained(s: String, p: String, k: int)
    requires 0 <= k < |p| && p[k] !in s
    ensures !Contains(s, p)
  {
  }

  /** An occurrence in `x` is an occurrence in `x + y` at the same index */
  lemma OccursInExtension(x: String, y: String, p: String, i: int)
    requires OccursAt(x, p, i)
    ensures OccursAt(x + y, p, i)
  {
    assert (x + y)[i..i + |p|] == x[i..i + |p|];
  }

  /** An occurrence in `x + y` that ends inside `x` is an occurrence in `x` */
  lemma OccursInPrefix(x: String, y: String, p: String, j: int)
    requires OccursAt(x + y, p, j) && j + |p| <= |x|
    ensures OccursAt(x, p, j)
  {
    assert x[j..j + |p|] == (x + y)[j..j + |p|];
  }

  /** An occurrence in `x + y` that straddles the seam puts `y[0]` inside the pattern */
  lemma StraddleChar(x: String, y: String, p: String, j: int)
    requires OccursAt(x + y, p, j) && 0 <= j < |x| < j + |p| && |y| > 0
    ensures p[1..][|x| - j - 1] == y[0]
  {
    assert (x + y)[j..j + |p|][|x| - j] == (x + y)[|x|];
  }

  /** An occurrence in a prefix of `s` is an occurrence in `s` */
  lemma OccursInWhole(s: String, n: int, p: String, j: int)
    requires 0 <= n <= |s| && OccursAt(s[..n], p, j)
    ensures OccursAt(s, p, j)
  {
    assert s[..n][j..j + |p|] == s[j..j + |p|];
  }

  /** When `y` starts with `p[0]` and `p[0]` does not recur in `p`, an occurrence of `p` in
      `x + y` cannot start inside `x` unless it lies wholly inside `x` */
  lemma NoStraddle(x: String, y: String, p: String, j: int)
    requires |p| > 0 && |y| > 0 && y[0] == p[0] && p[0] !in p[1..]
    requires !Contains(x, p)
    requires OccursAt(x + y, p, j)
    ensures j >= |x|
  {
    if j < |x| {
      if j + |p| <= |x| {
        OccursInPrefix(x, y, p, j);
        assert false;
      } else {
        StraddleChar(x, y, p, j);
        assert false;
      }
    }
  }

  /** `sep.join(parts)` */
  function Join(parts: seq<String>, sep: String): String
  {
    if |parts| == 0 then []
    else if |parts| == 1 then parts[0]
    else parts[0] + sep + Join(parts[1..], sep)
  }

  /** `s.split(sep)` for a non-empty separator: the text between successive leftmost,
      non-overlapping occurrences of `sep` */
  function Split(s: String, sep: String): (r: seq<String>)
    requires |sep| > 0
    ensures |r| >= 1
    decreases |s|
  {
    var i := Find(s, sep);
    if i < 0 then [s] else [s[..i]] + Split(s[i + |sep|..], sep)
  }

  /** A split yields the whole text as its one piece exactly when the separator does not occur */
  lemma SplitWhole(s: String, sep: String)
    requires |sep| > 0
    ensures !Contains(s, sep) <==> |Split(s, sep)| == 1
    ensures !Contains(s, sep) ==> Split(s, sep) == [s]
  {
    var i := Find(s, sep);
    if i >= 0 {
      assert OccursAt(s, sep, i);
      assert |Split(s[i + |sep|..], sep)| >= 1;
    }
  }

  /** A text is its part before `i`, the `n` characters from `i`, and the rest */
  lemma ThreeParts(s: String, i: int, n: int)
    requires 0 <= i && 0 <= n && i + n <= |s|
    ensures s == s[..i] + s[i..i + n] + s[i + n..]
  {
  }

  /** When the separator occurs, the split is the text before its first occurrence followed
      by the split of what comes after that occurrence */
  lemma SplitUnfold(s: String, sep: String)
    requires |sep| > 0 && Find(s, sep) >= 0
    ensures var i := Find(s, sep);
            i + |sep| <= |s| && s[i..i + |sep|] == sep &&
            Split(s, sep) == [s[..i]] + Split(s[i + |sep|..], sep)
  {
    assert OccursAt(s, sep, Find(s, sep));
  }

  /** Joining the pieces of a split with the same separator gives back the text */
  lemma {:induction false} SplitJoin(s: String, sep: String)
    requires |sep| > 0
    ensures Join(Split(s, sep), sep) == s
    decreases |s|
  {
    var i := Find(s, sep);
    if i >= 0 {
      SplitUnfold(s, sep);
      var rest := s[i + |sep|..];
      SplitJoin(rest, sep);
      JoinCons(s[..i], Split(rest, sep), sep);
      ThreeParts(s, i, |sep|);
    }
  }

  /** No piece of a split contains the separator */
  lemma {:induction false} SplitPiecesFree(s: String, sep: String)
    requires |sep| > 0
    ensures forall k :: 0 <= k < |Split(s, sep)| ==> !Contains(Split(s, sep)[k], sep)
    decreases |s|
  {
    var i := Find(s, sep);
    if i >= 0 {
      var rest := s[i + |sep|..];
      SplitPiecesFree(rest, sep);
      if Contains(s[..i], sep) {
        var j :| OccursAt(s[..i], sep, j);
        OccursInWhole(s, i, sep, j);
        assert false;
      }
    }
  }

  /** The first `c` in `x + [c] + y` is the first `c` of `x`, or the one added */
  lemma FindCharConcat(x: String, c: char, y: String)
    ensures Find(x + [c] + y, [c]) == (if c in x then Find(x, [c]) else |x|)
    ensures c in x ==> 0 <= Find(x, [c]) < |x|
  {
    var s := x + [c] + y;
    CharOccurs(s, c, |x|);
    var i := Find(s, [c]);
    var ix := if c in x then Find(x, [c]) else |x|;
    if c in x {
      var k :| 0 <= k < |x| && x[k] == c;
      CharOccurs(x, c, k);
      CharOccurs(x, c, ix);
      CharOccurs(s, c, ix);
    }
    forall j | 0 <= j < ix ensures !OccursAt(s, [c], j) {
      CharOccurs(x, c, j);
      CharOccurs(s, c, j);
    }
  }

  /** Cutting `x + [c] + y` before index `i` of `x`, or just after it */
  lemma CutBefore(x: String, c: char, y: String, i: int)
    requires 0 <= i < |x|
    ensures (x + [c] + y)[..i] == x[..i]
    ensures (x + [c] + y)[i + 1..] == x[i + 1..] + [c] + y
  {
  }

  /** Cutting `x + [c] + y` at the added `c` */
  lemma CutAt(x: String, c: char, y: String)
    ensures (x + [c] + y)[..|x|] == x
    ensures (x + [c] + y)[|x| + 1..] == y
  {
  }

  /** Concatenation of sequences is associative */
  lemma Assoc<T>(a: seq<T>, b: seq<T>, e: seq<T>)
    ensures (a + b) + e == a + (b + e)
  {
  }

  /** Splitting on one character distributes over text joined by that character */
  lemma {:induction false} SplitCharConcat(x: String, c: char, y: String)
    ensures Split(x + [c] + y, [c]) == Split(x, [c]) + Split(y, [c])
    decreases |x|
  {
    FindCharConcat(x, c, y);
    if c in x {
      var i := Find(x, [c]);
      var head := x[..i];
      SplitCharConcat(x[i + 1..], c, y);
      SplitCharConcatStep(x, c, y);
      Assoc([head], Split(x[i + 1..], [c]), Split(y, [c]));
    } else {
      ContainsChar(x, c);
      SplitWhole(x, [c]);
      SplitUnfold(x + [c] + y, [c]);
      CutAt(x, c, y);
    }
  }

  /** When `x` holds `c`, the first piece comes from `x` and the split goes on after it */
  lemma SplitCharConcatStep(x: String, c: char, y: String)
    requires c in x
    ensures var i := Find(x, [c]);
            0 <= i < |x| &&
            Split(x + [c] + y, [c]) == [x[..i]] + Split(x[i + 1..] + [c] + y, [c]) &&
            Split(x, [c]) == [x[..i]] + Split(x[i + 1..], [c])
  {
    FindCharConcat(x, c, y);
    SplitUnfold(x + [c] + y, [c]);
    SplitUnfold(x, [c]);
    CutBefore(x, c, y, Find(x, [c]));
  }

  /** `s.replace(pat, rep)`: every leftmost, non-overlapping occurrence of `pat`, scanning
      left to right, is replaced by `rep` */
  function Replace(s: String, pat: String, rep: String): String
    requires |pat| > 0
    decreases |s|
  {
    if |s| < |pat| then s
    else if pat <= s then rep + Replace(s[|pat|..], pat, rep)
    else [s[0]] + Replace(s[1..], pat, rep)
  }

  /** Replacing a pattern that does not occur changes nothing */
  lemma {:induction false} ReplaceAbsent(s: String, pat: String, rep: String)
    requires |pat| > 0 && !Contains(s, pat)
    ensures Replace(s, pat, rep) == s
    decreases |s|
  {
    if |s| >= |pat| {
      assert !OccursAt(s, pat, 0);
      ShiftOccurrence(s, pat);
      ReplaceAbsent(s[1..], pat, rep);
    }
  }

  /** Joining with one more part adds one separator and the new part at the front */
  lemma JoinCons(x: String, xs: seq<String>, sep: String)
    requires |xs| > 0
    ensures Join([x] + xs, sep) == x + sep + Join(xs, sep)
  {
    assert ([x] + xs)[1..] == xs;
  }

  /** `s.replace(pat, rep)` is `rep.join(s.split(pat))`: the scanning replacement and the
      split agree on which occurrences they take */
  lemma {:induction false} ReplaceIsJoinOfSplit(s: String, pat: String, rep: String)
    requires |pat| > 0
    ensures Replace(s, pat, rep) == Join(Split(s, pat), rep)
    decreases |s|
  {
    var i := Find(s, pat);
    if i < 0 {
      ReplaceAbsent(s, pat, rep);
      SplitWhole(s, pat);
    } else {
      var x, rest := s[..i], s[i + |pat|..];
      SplitUnfold(s, pat);
      ReplaceSkip(s, i, pat, rep);
      assert s[i..] == pat + rest;
      ReplaceLeadingPattern(pat, rest, rep);
      ReplaceIsJoinOfSplit(rest, pat, rep);
      JoinCons(x, Split(rest, pat), rep);
      Assoc(x, rep, Replace(rest, pat, rep));
    }
  }

  /** A text that starts with the pattern: the leading occurrence is replaced */
  lemma ReplaceLeadingPattern(pat: String, rest: String, rep: String)
    requires |pat| > 0
    ensures Replace(pat + rest, pat, rep) == rep + Replace(rest, pat, rep)
  {
    assert (pat + rest)[|pat|..] == rest;
  }

  /** Scanning past the first `i` characters, at none of which the pattern starts, copies them */
  lemma {:induction false} ReplaceSkip(s: String, i: int, pat: String, rep: String)
    requires |pat| > 0 && 0 <= i <= |s|
    requires forall j :: 0 <= j < i ==> !OccursAt(s, pat, j)
    ensures Replace(s, pat, rep) == s[..i] + Replace(s[i..], pat, rep)
    decreases i
  {
    if i == 0 {
      assert s[i..] == s;
    } else if |s| < |pat| {
      assert Replace(s[i..], pat, rep) == s[i..];
      assert s == s[..i] + s[i..];
    } else {
      assert !OccursAt(s, pat, 0);
      PrefixOccurs(s, pat);
      ShiftOccurrence(s, pat);
      ReplaceSkip(s[1..], i - 1, pat, rep);
      DropFirst(s, i);
      Assoc([s[0]], s[1..][..i - 1], Replace(s[i..], pat, rep));
    }
  }

  /** Dropping the first character shifts every index down by one */
  lemma DropFirst(s: String, i: int)
    requires 1 <= i <= |s|
    ensures s[1..][i - 1..] == s[i..]
    ensures s[..i] == [s[0]] + s[1..][..i - 1]
  {
  }

  /** Replacing a one-character pattern distributes over concatenation */
  lemma {:induction false} ReplaceCharConcat(x: String, y: String, c: char, rep: String)
    ensures Replace(x + y, [c], rep) == Replace(x, [c], rep) + Replace(y, [c], rep)
    decreases |x|
  {
    if |x| > 0 {
      assert (x + y)[1..] == x[1..] + y;
      assert [c] <= x + y <==> [c] <= x;
      ReplaceCharConcat(x[1..], y, c, rep);
      if [c] <= x {
        assert (x + y)[1..] == (x + y)[|[c]|..];
      }
    } else {
      assert x + y == y;
    }
  }

  /** Removing every `c` from `s` leaves the other characters in order */
  lemma {:induction false} RemoveChar(s: String, c: char)
    ensures c !in Replace(s, [c], [])
    ensures forall d :: d != c ==> (d in Replace(s, [c], []) <==> d in s)
    decreases |s|
  {
    if |s| > 0 {
      RemoveChar(s[1..], c);
      assert s == [s[0]] + s[1..];
    }
  }

  /** A text ending in the pattern, with no other occurrence: `(x + pat).replace(pat, rep)` is `x + rep` */
  lemma ReplaceAppended(x: String, pat: String, rep: String)
    requires |pat| > 0 && pat[0] !in pat[1..] && !Contains(x, pat)
    ensures Replace(x + pat, pat, rep) == x + rep
  {
    var s := x + pat;
    assert OccursAt(s, pat, |x|);
    var i := Find(s, pat);
    NoStraddle(x, pat, pat, i);
    assert i == |x|;
    assert s[..i] == x;
    assert s[i + |pat|..] == [];
    assert Split(s, pat) == [x] + Split([], pat);
    ReplaceIsJoinOfSplit(s, pat, rep);
    JoinCons(x, [[]], rep);
  }

  /** A text ending in a proper prefix of the pattern, with no occurrence before it: nothing to replace */
  lemma AppendedPrefixAbsent(x: String, y: String, pat: String)
    requires |pat| > 0 && |y| > 0 && |y| < |pat| && y[0] == pat[0] && pat[0] !in pat[1..]
    requires !Contains(x, pat)
    ensures !Contains(x + y, pat)
  {
    if Contains(x + y, pat) {
      var j :| OccursAt(x + y, pat, j);
      NoStraddle(x, y, pat, j);
      assert false;
    }
  }

  /** A text without the separator character splits into itself */
  lemma NoCharSplit(s: String, c: char)
    requires c !in s
    ensures Split(s, [c]) == [s]
  {
    ContainsChar(s, c);
    SplitWhole(s, [c]);
  }

  /** Replacing a character the text lacks leaves it unchanged */
  lemma NoCharReplace(s: String, c: char, rep: String)
    requires c !in s
    ensures Replace(s, [c], rep) == s
  {
    ContainsChar(s, c);
    ReplaceAbsent(s, [c], rep);
  }

  /** A text that starts with the pattern and has no other occurrence: only the leading one is replaced */
  lemma ReplaceLeading(pat: String, rest: String, rep: String)
    requires |pat| > 0 && !Contains(rest, pat)
    ensures Replace(pat + rest, pat, rep) == rep + rest
  {
    var s := pat + rest;
    assert pat <= s;
    assert s[|pat|..] == rest;
    ReplaceAbsent(rest, pat, rep);
  }

  /** When the separator's first character does not occur in `x`, the first occurrence in
      `x + sep + y` is the one right after `x` */
  lemma FindAfter(x: String, sep: String, y: String)
    requires |sep| > 0 && sep[0] !in x
    ensures Find(x + sep + y, sep) == |x|
  {
    var s := x + sep + y;
    assert s[|x|..|x| + |sep|] == sep;
    assert OccursAt(s, sep, |x|);
    forall j | 0 <= j < |x|
      ensures !OccursAt(s, sep, j)
    {
      if j + |sep| <= |s| {
        assert s[j..j + |sep|][0] == s[j] == x[j];
      }
    }
  }

  /** `(x + sep + y).split(sep)` starts with `x` when `x` lacks the separator's first character */
  lemma SplitAfterFirst(x: String, sep: String, y: String)
    requires |sep| > 0 && sep[0] !in x
    ensures Split(x + sep + y, sep) == [x] + Split(y, sep)
  {
    var s := x + sep + y;
    FindAfter(x, sep, y);
    assert s[..|x|] == x;
    assert s[|x| + |sep|..] == y;
  }

  /** `(x + sep + y).split(sep)` is `[x, y]` when neither side holds the separator and
      `x` lacks its first character */
  lemma SplitInTwo(x: String, sep: String, y: String)
    requires |sep| > 0 && sep[0] !in x && !Contains(y, sep)
    ensures Split(x + sep + y, sep) == [x, y]
  {
    SplitAfterFirst(x, sep, y);
    SplitWhole(y, sep);
  }

  /** `s.lstrip()` */
  function LStrip(s: String): (r: String)
    ensures |r| <= |s| && r == s[|s| - |r|..]
    ensures forall k :: 0 <= k < |s| - |r| ==> IsSpace(s[k])
    ensures |r| > 0 ==> !IsSpace(r[0])
    decreases |s|
  {
    if |s| > 0 && IsSpace(s[0]) then LStrip(s[1..]) else s
  }

  /** `s.rstrip()` */
  function RStrip(s: String): (r: String)
    ensures |r| <= |s| && r == s[..|r|]
    ensures forall k :: |r| <= k < |s| ==> IsSpace(s[k])
    ensures |r| > 0 ==> !IsSpace(r[|r| - 1])
    decreases |s|
  {
    if |s| > 0 && IsSpace(s[|s| - 1]) then RStrip(s[..|s| - 1]) else s
  }

  /** `s.strip()`: the text without leading and trailing whitespace */
  function Strip(s: String): (r: String)
    ensures |r| == 0 || (!IsSpace(r[0]) && !IsSpace(r[|r| - 1]))
    ensures |s| == 0 || (!IsSpace(s[0]) && !IsSpace(s[|s| - 1])) ==> r == s
  {
    RStrip(LStrip(s))
  }

  /** A text with non-space ends is left alone by `strip()` */
  lemma StripUnchanged(s: String)
    requires |s| > 0 && !IsSpace(s[0]) && !IsSpace(s[|s| - 1])
    ensures Strip(s) == s
  {
  }

  /** Stripping keeps every character that is not whitespace */
  lemma StripKeepsNonSpace(s: String, c: char)
    requires !IsSpace(c)
    ensures c in Strip(s) <==> c in s
  {
    LStripKeepsNonSpace(s, c);
    RStripKeepsNonSpace(LStrip(s), c);
  }

  /** `lstrip()` keeps every character that is not whitespace */
  lemma LStripKeepsNonSpace(s: String, c: char)
    requires !IsSpace(c)
    ensures c in LStrip(s) <==> c in s
  {
    var l := LStrip(s);
    var d := |s| - |l|;
    assert l == s[d..];
    if c in s {
      var k :| 0 <= k < |s| && s[k] == c;
      assert d <= k;
      assert l[k - d] == s[k];
    }
    if c in l {
      var k :| 0 <= k < |l| && l[k] == c;
      assert s[k + d] == l[k];
    }
  }

  /** `rstrip()` keeps every character that is not whitespace */
  lemma RStripKeepsNonSpace(s: String, c: char)
    requires !IsSpace(c)
    ensures c in RStrip(s) <==> c in s
  {
    var r := RStrip(s);
    if c in s {
      var k :| 0 <= k < |s| && s[k] == c;
      assert r[k] == c;
    }
  }

  /** Stripping twice is stripping once */
  lemma StripIdempotent(s: String)
    ensures Strip(Strip(s)) == Strip(s)
  {
  }

  /** `c.lower()` on ASCII letters */
  function LowerChar(c: char): char
  {
    if 'A' <= c <= 'Z' then (c as int + 32) as char else c
  }

  /** `s.lower()`, for the ASCII letters */
  function Lower(s: String): (r: String)
    ensures |r| == |s|
    ensures forall k :: 0 <= k < |s| ==> r[k] == LowerChar(s[k])
  {
    seq(|s|, k requires 0 <= k < |s| => LowerChar(s[k]))
  }

  /** Text with no upper-case ASCII letter is its own lower case */
  lemma LowerOfLower(s: String)
    requires forall k :: 0 <= k < |s| ==> !('A' <= s[k] <= 'Z')
    ensures Lower(s) == s
  {
  }

  /** A token of `split()`: non-empty, no whitespace */
  predicate IsWord(w: String) {
    |w| > 0 && forall k :: 0 <= k < |w| ==> !IsSpace(w[k])
  }

  /** The index of the first whitespace character of `s`, or `|s|` */
  function WordEnd(s: String): (n: nat)
    ensures n <= |s|
    ensures forall k :: 0 <= k < n ==> !IsSpace(s[k])
    ensures n < |s| ==> IsSpace(s[n])
  {
    if |s| == 0 || IsSpace(s[0]) then 0 else 1 + WordEnd(s[1..])
  }

  /** `s.split()` with no argument: the maximal runs of non-whitespace, in order */
  function Words(s: String): seq<String>
    decreases |s|
  {
    if |s| == 0 then []
    else if IsSpace(s[0]) then Words(s[1..])
    else
      var n := WordEnd(s);
      [s[..n]] + Words(s[n..])
  }

  /** A word followed by whitespace (or nothing) ends where the word ends */
  lemma {:induction false} WordEndOfWord(w: String, t: String)
    requires IsWord(w) && (|t| == 0 || IsSpace(t[0]))
    ensures WordEnd(w + t) == |w|
    decreases |w|
  {
    assert (w + t)[1..] == w[1..] + t;
    if |w| > 1 {
      WordEndOfWord(w[1..], t);
    } else {
      assert w[1..] + t == t;
    }
  }

  /** Leading whitespace does not change the words */
  lemma WordsSkipSpace(x: String)
    ensures Words(" " + x) == Words(x)
  {
    assert (" " + x)[1..] == x;
  }

  /** A word followed by whitespace (or nothing) is the first of the words */
  lemma WordsCons(w: String, t: String)
    requires IsWord(w) && (|t| == 0 || IsSpace(t[0]))
    ensures Words(w + t) == [w] + Words(t)
  {
    WordEndOfWord(w, t);
    assert (w + t)[..|w|] == w;
    assert (w + t)[|w|..] == t;
  }

  /** `" ".join(words).split()` gives back the words: the tokenizer's round trip */
  lemma {:induction false} WordsOfJoin(ws: seq<String>)
    requires forall k :: 0 <= k < |ws| ==> IsWord(ws[k])
    ensures Words(Join(ws, " ")) == ws
    decreases |ws|
  {
    if |ws| == 1 {
      WordsOfOneWord(ws[0]);
    } else if |ws| > 1 {
      WordsOfJoin(ws[1..]);
      WordsOfJoinStep(ws[0], Join(ws[1..], " "));
      assert ws == [ws[0]] + ws[1..];
    }
  }

  /** A single word splits to itself */
  lemma WordsOfOneWord(w: String)
    requires IsWord(w)
    ensures Words(w) == [w]
  {
    WordsCons(w, []);
    assert w + [] == w;
  }

  /** One step of `WordsOfJoin`: a word, a space, then the rest */
  lemma WordsOfJoinStep(w: String, rest: String)
    requires IsWord(w)
    ensures Words(w + " " + rest) == [w] + Words(rest)
  {
    var spaced := " " + rest;
    assert w + " " + rest == w + spaced;
    WordsCons(w, spaced);
    WordsSkipSpace(rest);
  }

  /** The character of a decimal digit */
  function Digit(d: nat): (c: char)
    requires d < 10
    ensures '0' <= c <= '9'
  {
    (48 + d) as char
  }

  predicate IsDigits(s: String) {
    forall k :: 0 <= k < |s| ==> '0' <= s[k] <= '9'
  }

  /** `str(n)` for a natural number: decimal, no leading zero */
  function NatToString(n: nat): (r: String)
    ensures |r| > 0 && IsDigits(r)
    ensures r[0] == '0' ==> r == "0"
    decreases n
  {
    if n < 10 then [Digit(n)] else NatToString(n / 10) + [Digit(n % 10)]
  }

  /** The number a string of decimal digits denotes */
  function DecimalValue(s: String): nat
    requires IsDigits(s)
  {
    if |s| == 0 then 0 else 10 * DecimalValue(s[..|s| - 1]) + (s[|s| - 1] as int - 48)
  }

  /** Reading back the decimal text of `n` gives `n` */
  lemma {:induction false} NatToStringRoundTrip(n: nat)
    ensures DecimalValue(NatToString(n)) == n
    decreases n
  {
    if n >= 10 {
      NatToStringRoundTrip(n / 10);
      var s := NatToString(n);
      assert s[..|s| - 1] == NatToString(n / 10);
    }
  }
}
