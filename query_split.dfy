/** The split inside `transform_query`: `re.split(r"(?<=\})\s{0,}\,\s{0,}(?=\{)", query)`,
    stated as a left-to-right scan. A split point is a comma with optional whitespace on
    both sides, a `}` right before it and a `{` right after it; the comma and its
    whitespace are dropped. */
module QuerySplit {
  import opened PyStrings

  /** The length of the run of whitespace (`\s`) at the start of `s` */
  function WsRun(s: String): (n: nat)
    ensures n <= |s|
    ensures forall k :: 0 <= k < n ==> IsSpace(s[k])
    ensures n < |s| ==> !IsSpace(s[n])
    decreases |s|
  {
    if |s| == 0 || !IsSpace(s[0]) then 0 else 1 + WsRun(s[1..])
  }

  /** A removed separator: whitespace, one comma, whitespace */
  predicate IsSeparator(t: String) {
    var a := WsRun(t);
    a < |t| && t[a] == ',' && forall k :: a < k < |t| ==> IsSpace(t[k])
  }

  /** The length of the separator the pattern matches at the start of `s` (the lookbehind
      aside), or 0 when it matches none: `\s*`, `,`, `\s*`, then a `{` must follow */
  function SepLen(s: String): (n: nat)
    ensures n <= |s|
    ensures n > 0 ==> n < |s| && s[n] == '{' && IsSeparator(s[..n])
  {
    var a := WsRun(s);
    if a < |s| && s[a] == ',' then
      var c := a + 1 + WsRun(s[a + 1..]);
      if c < |s| && s[c] == '{' then
        assert WsRun(s[..c]) == a by { WsRunPrefix(s, c); }
        c
      else 0
    else 0
  }

  /** `WsRun` only looks as far as the first non-space character */
  lemma {:induction false} WsRunPrefix(s: String, c: nat)
    requires WsRun(s) < c <= |s|
    ensures WsRun(s[..c]) == WsRun(s)
    decreases |s|
  {
    if |s| > 0 && IsSpace(s[0]) {
      assert s[..c][1..] == s[1..][..c - 1];
      WsRunPrefix(s[1..], c - 1);
    }
  }

  /** `WsRun` of a text with a non-space in it does not see what is appended */
  lemma {:induction false} WsRunExtend(u: String, w: String)
    requires WsRun(u) < |u|
    ensures WsRun(u + w) == WsRun(u)
    decreases |u|
  {
    if IsSpace(u[0]) {
      assert (u + w)[1..] == u[1..] + w;
      WsRunExtend(u[1..], w);
    }
  }

  /** The pieces `re.split` returns when scanning `s`; `afterBrace` says whether the
      character before `s` is `}`, which the lookbehind needs */
  function Pieces(s: String, afterBrace: bool): (r: seq<String>)
    ensures |r| >= 1
    decreases |s|
  {
    if |s| == 0 then [[]]
    else if afterBrace && SepLen(s) > 0 then [[]] + Pieces(s[SepLen(s)..], false)
    else
      var rest := Pieces(s[1..], s[0] == '}');
      [[s[0]] + rest[0]] + rest[1..]
  }

  /** The separators the scan removes, in order */
  function Seps(s: String, afterBrace: bool): (r: seq<String>)
    ensures |r| + 1 == |Pieces(s, afterBrace)|
    decreases |s|
  {
    if |s| == 0 then []
    else if afterBrace && SepLen(s) > 0 then [s[..SepLen(s)]] + Seps(s[SepLen(s)..], false)
    else Seps(s[1..], s[0] == '}')
  }

  /** `split_query`: the pieces of the whole query */
  function SplitQuery(query: String): seq<String>
  {
    Pieces(query, false)
  }

  /** The scan finds no separator anywhere in `s` */
  predicate NoSplit(s: String, afterBrace: bool)
    decreases |s|
  {
    |s| == 0 || (!(afterBrace && SepLen(s) > 0) && NoSplit(s[1..], s[0] == '}'))
  }

  /** Pieces and separators woven back together */
  function Weave(ps: seq<String>, ss: seq<String>): String
    requires |ps| == |ss| + 1
    decreases |ss|
  {
    if |ss| == 0 then ps[0] else ps[0] + ss[0] + Weave(ps[1..], ss[1..])
  }

  lemma WeavePrepend(c: char, ps: seq<String>, ss: seq<String>)
    requires |ps| == |ss| + 1
    ensures Weave([[c] + ps[0]] + ps[1..], ss) == [c] + Weave(ps, ss)
  {
    var qs := [[c] + ps[0]] + ps[1..];
    assert qs[1..] == ps[1..];
  }

  lemma WeaveAfterSeparator(sep: String, ps: seq<String>, ss: seq<String>)
    requires |ps| == |ss| + 1
    ensures Weave([[]] + ps, [sep] + ss) == sep + Weave(ps, ss)
  {
    var qs := [[]] + ps;
    assert qs[1..] == ps;
    assert ([sep] + ss)[1..] == ss;
    assert [] + sep == sep;
  }

  lemma ReassembleAfterSeparator(s: String)
    requires SepLen(s) > 0
    requires Weave(Pieces(s[SepLen(s)..], false), Seps(s[SepLen(s)..], false)) == s[SepLen(s)..]
    ensures Weave(Pieces(s, true), Seps(s, true)) == s
  {
    var n := SepLen(s);
    WeaveAfterSeparator(s[..n], Pieces(s[n..], false), Seps(s[n..], false));
    assert s == s[..n] + s[n..];
  }

  lemma ReassembleAfterChar(s: String, afterBrace: bool)
    requires |s| > 0 && !(afterBrace && SepLen(s) > 0)
    requires Weave(Pieces(s[1..], s[0] == '}'), Seps(s[1..], s[0] == '}')) == s[1..]
    ensures Weave(Pieces(s, afterBrace), Seps(s, afterBrace)) == s
  {
    WeavePrepend(s[0], Pieces(s[1..], s[0] == '}'), Seps(s[1..], s[0] == '}'));
    assert s == [s[0]] + s[1..];
  }

  /** Weaving the removed separators back between the pieces gives the query back */
  lemma {:induction false} Reassemble(s: String, afterBrace: bool)
    ensures Weave(Pieces(s, afterBrace), Seps(s, afterBrace)) == s
    decreases |s|
  {
    if |s| == 0 {
    } else if afterBrace && SepLen(s) > 0 {
      Reassemble(s[SepLen(s)..], false);
      ReassembleAfterSeparator(s);
    } else {
      Reassemble(s[1..], s[0] == '}');
      ReassembleAfterChar(s, afterBrace);
    }
  }

  /** `p` ends with a closing brace */
  predicate EndsWithBrace(p: String) {
    |p| > 0 && p[|p| - 1] == '}'
  }

  /** Every piece but the last ends with `}`, except an empty first piece when the scan
      starts right after a `}` */
  predicate InnerPiecesEndWithBrace(ps: seq<String>, afterBrace: bool) {
    forall k :: 0 <= k < |ps| - 1 ==> EndsWithBrace(ps[k]) || (k == 0 && afterBrace && ps[k] == [])
  }

  lemma EndWithBraceAfterSeparator(rest: seq<String>)
    requires |rest| >= 1 && InnerPiecesEndWithBrace(rest, false)
    ensures InnerPiecesEndWithBrace([[]] + rest, true)
  {
    var ps := [[]] + rest;
    assert forall k :: 1 <= k < |ps| ==> ps[k] == rest[k - 1];
  }

  lemma EndWithBraceAfterChar(c: char, rest: seq<String>, afterBrace: bool)
    requires |rest| >= 1 && InnerPiecesEndWithBrace(rest, c == '}')
    ensures InnerPiecesEndWithBrace([[c] + rest[0]] + rest[1..], afterBrace)
  {
    var ps := [[c] + rest[0]] + rest[1..];
    assert forall k :: 1 <= k < |ps| ==> ps[k] == rest[k];
    if |rest| > 1 {
      assert EndsWithBrace(rest[0]) || (c == '}' && rest[0] == []);
      assert ps[0][|ps[0]| - 1] == if rest[0] == [] then c else rest[0][|rest[0]| - 1];
    }
  }

  /** Every piece but the last ends with `}` (the one exception: an empty first piece when
      the scan starts right after a `}` and a separator follows at once) */
  lemma {:induction false} PiecesEndWithBrace(s: String, afterBrace: bool)
    ensures InnerPiecesEndWithBrace(Pieces(s, afterBrace), afterBrace)
    decreases |s|
  {
    if |s| == 0 {
    } else if afterBrace && SepLen(s) > 0 {
      PiecesEndWithBrace(s[SepLen(s)..], false);
      EndWithBraceAfterSeparator(Pieces(s[SepLen(s)..], false));
    } else {
      PiecesEndWithBrace(s[1..], s[0] == '}');
      EndWithBraceAfterChar(s[0], Pieces(s[1..], s[0] == '}'), afterBrace);
    }
  }

  /** A piece the scan starts on `{` begins with `{` */
  lemma FirstPieceStart(s: String)
    requires |s| > 0 && s[0] == '{'
    ensures |Pieces(s, false)[0]| > 0 && Pieces(s, false)[0][0] == '{'
  {
  }

  /** Every piece but the first starts with `{` */
  lemma {:induction false} PiecesStartWithBrace(s: String, afterBrace: bool)
    ensures forall k :: 1 <= k < |Pieces(s, afterBrace)| ==>
              |Pieces(s, afterBrace)[k]| > 0 && Pieces(s, afterBrace)[k][0] == '{'
    decreases |s|
  {
    var ps := Pieces(s, afterBrace);
    if |s| == 0 {
    } else if afterBrace && SepLen(s) > 0 {
      var rest := Pieces(s[SepLen(s)..], false);
      PiecesStartWithBrace(s[SepLen(s)..], false);
      FirstPieceStart(s[SepLen(s)..]);
      assert forall k :: 1 <= k < |ps| ==> ps[k] == rest[k - 1];
    } else {
      var rest := Pieces(s[1..], s[0] == '}');
      PiecesStartWithBrace(s[1..], s[0] == '}');
      assert forall k :: 1 <= k < |ps| ==> ps[k] == rest[k];
    }
  }

  /** Every removed separator is whitespace, one comma, whitespace */
  lemma {:induction false} SepsAreSeparators(s: String, afterBrace: bool)
    ensures forall k :: 0 <= k < |Seps(s, afterBrace)| ==> IsSeparator(Seps(s, afterBrace)[k])
    decreases |s|
  {
    if |s| == 0 {
    } else if afterBrace && SepLen(s) > 0 {
      SepsAreSeparators(s[SepLen(s)..], false);
    } else {
      SepsAreSeparators(s[1..], s[0] == '}');
    }
  }

  /** One piece exactly when the scan finds no separator, and then the piece is the query */
  lemma {:induction false} OnePieceIffNoSplit(s: String, afterBrace: bool)
    ensures |Pieces(s, afterBrace)| == 1 <==> NoSplit(s, afterBrace)
    ensures NoSplit(s, afterBrace) ==> Pieces(s, afterBrace) == [s]
    decreases |s|
  {
    if |s| == 0 {
    } else if afterBrace && SepLen(s) > 0 {
    } else {
      OnePieceIffNoSplit(s[1..], s[0] == '}');
      assert s == [s[0]] + s[1..];
    }
  }

  /** A separator before `{` is matched whole */
  lemma SeparatorMatches(t: String, y: String)
    requires IsSeparator(t) && |y| > 0 && y[0] == '{'
    ensures SepLen(t + y) == |t|
  {
    var s := t + y;
    var a := WsRun(t);
    WsRunExtend(t, y);
    assert s[a] == ',';
    var rest := s[a + 1..];
    assert rest == t[a + 1..] + y;
    assert WsRun(rest) == |t| - a - 1 by { WsRunOfSpaces(t[a + 1..], y); }
    assert s[|t|] == '{';
    SepLenAfterComma(s, a, |t|);
  }

  /** A run of spaces followed by a non-space has exactly that run */
  lemma {:induction false} WsRunOfSpaces(u: String, y: String)
    requires forall k :: 0 <= k < |u| ==> IsSpace(u[k])
    requires |y| > 0 && !IsSpace(y[0])
    ensures WsRun(u + y) == |u|
    decreases |u|
  {
    if |u| > 0 {
      assert (u + y)[1..] == u[1..] + y;
      WsRunOfSpaces(u[1..], y);
    }
  }

  /** After the comma, the whitespace run of a text ending in `}` stops inside it */
  lemma AfterCommaExtend(u: String, w: String, a: nat)
    requires a < |u| - 1 && u[|u| - 1] == '}'
    ensures (u + w)[a + 1..] == u[a + 1..] + w
    ensures WsRun(u[a + 1..] + w) == WsRun(u[a + 1..]) < |u| - a - 1
  {
    var ru := u[a + 1..];
    assert ru[|ru| - 1] == '}';
    assert WsRun(ru) < |ru|;
    WsRunExtend(ru, w);
  }

  /** The match at the start of a text ending in `}` lies inside it */
  lemma SepLenExtend(u: String, w: String)
    requires |u| > 0 && u[|u| - 1] == '}'
    ensures SepLen(u + w) == SepLen(u)
  {
    var s := u + w;
    var a := WsRun(u);
    assert a < |u| by { assert !IsSpace(u[|u| - 1]); }
    WsRunExtend(u, w);
    assert s[a] == u[a];
    if a < |u| - 1 && u[a] == ',' {
      AfterCommaExtend(u, w, a);
      var c := a + 1 + WsRun(u[a + 1..]);
      assert c < |u| && s[c] == u[c];
      SepLenAfterComma(s, a, c);
      SepLenAfterComma(u, a, c);
    } else {
      SepLenNoComma(s);
      SepLenNoComma(u);
    }
  }

  /** Without a comma after the leading whitespace the pattern matches nothing */
  lemma SepLenNoComma(s: String)
    requires WsRun(s) == |s| || s[WsRun(s)] != ','
    ensures SepLen(s) == 0
  {
  }

  /** With a comma at `a`, the match ends at `c`, past the whitespace after the comma,
      exactly when a `{` is there */
  lemma SepLenAfterComma(s: String, a: nat, c: nat)
    requires a == WsRun(s) && a < |s| && s[a] == ','
    requires c == a + 1 + WsRun(s[a + 1..])
    ensures SepLen(s) == if c < |s| && s[c] == '{' then c else 0
  {
  }

  /** The separator right after a lone `}` is taken */
  lemma SplitAfterBrace(t: String, y: String)
    requires IsSeparator(t) && |y| > 0 && y[0] == '{'
    ensures Pieces(t + y, true) == [[]] + Pieces(y, false)
    ensures Seps(t + y, true) == [t] + Seps(y, false)
  {
    SeparatorMatches(t, y);
    assert (t + y)[|t|..] == y;
    assert (t + y)[..|t|] == t;
  }

  /** The first separator splits the query there, whatever the nesting of brackets around
      it: `x` up to its closing `}` is a piece, and the scan starts afresh on `{` */
  lemma SplitAtFirstSeparator(x: String, t: String, y: String, afterBrace: bool)
    requires |x| > 0 && x[|x| - 1] == '}' && NoSplit(x, afterBrace)
    requires IsSeparator(t) && |y| > 0 && y[0] == '{'
    ensures Pieces(x + t + y, afterBrace) == [x] + Pieces(y, false)
    ensures Seps(x + t + y, afterBrace) == [t] + Seps(y, false)
  {
    assert x + t + y == x + (t + y);
    GlueNoSplitPrefix(x, t + y, afterBrace);
    SplitAfterBrace(t, y);
    assert x + [] == x;
  }

  /** A prefix the scan finds no separator in, ending with `}`, is glued to the first
      piece of what follows, which the scan then reads right after a `}` */
  lemma {:induction false} GlueNoSplitPrefix(x: String, w: String, afterBrace: bool)
    requires |x| > 0 && x[|x| - 1] == '}' && NoSplit(x, afterBrace)
    ensures Pieces(x + w, afterBrace) == [x + Pieces(w, true)[0]] + Pieces(w, true)[1..]
    ensures Seps(x + w, afterBrace) == Seps(w, true)
    decreases |x|
  {
    var s := x + w;
    var r := Pieces(w, true);
    SepLenExtend(x, w);
    ConsSlices(x, w);
    if |x| == 1 {
      PiecesCharStep(s, afterBrace, r);
      ConsSlices(x, r[0]);
    } else {
      GlueNoSplitPrefix(x[1..], w, x[0] == '}');
      PiecesCharStep(s, afterBrace, [x[1..] + r[0]] + r[1..]);
      ConsSlices(x, r[0]);
    }
  }

  /** Taking the first character off `x + z` */
  lemma ConsSlices<T>(x: seq<T>, z: seq<T>)
    requires |x| > 0
    ensures (x + z)[0] == x[0] && (x + z)[1..] == x[1..] + z
    ensures [x[0]] + (x[1..] + z) == x + z
  {
  }

  /** One scan step over a character that starts no separator */
  lemma PiecesCharStep(s: String, afterBrace: bool, rest: seq<String>)
    requires |s| > 0 && !(afterBrace && SepLen(s) > 0)
    requires Pieces(s[1..], s[0] == '}') == rest
    ensures Pieces(s, afterBrace) == [[s[0]] + rest[0]] + rest[1..]
    ensures Seps(s, afterBrace) == Seps(s[1..], s[0] == '}')
  {
  }
}
