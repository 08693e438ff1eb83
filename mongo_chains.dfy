/** What `parse_mongo_query` recovers from each accessor chain it documents, and where its
    text handling departs from what it evidently means to do. */
module MongoChains {
  import opened Wrappers
  import opened PyStrings
  import opened MongoQuery

  /** Characters a database or collection name must avoid to be read back unchanged */
  const Reserved: String := ".[]'\"()"

  /** A name as it may appear inside a chain */
  predicate IsName(x: String) {
    forall k :: 0 <= k < |x| ==> x[k] !in Reserved && !IsSpace(x[k])
  }

  /** The quoting a bracketed name may carry: none, single or double quotes */
  predicate IsQuote(q: String) {
    q == [] || q == "'" || q == "\""
  }

  /** The accessor chains `parse_mongo_query` tells apart, with their names */
  datatype ChainForm =
    | ClientIndexIndex(dbQuote: String, db: String, colQuote: String, col: String)
    | AliasIndex(quote: String, col: String)
    | ClientAlias
    | ClientAliasIndex(quote: String, col: String)
    | ClientIndexDot(quote: String, db: String, col: String)
    | AliasDot(col: String)
    | ClientAliasDot(col: String)
    | ClientDotDot(db: String, col: String)

  predicate WellFormedForm(f: ChainForm) {
    match f
    case ClientIndexIndex(q1, d, q2, x) => IsQuote(q1) && IsName(d) && IsQuote(q2) && IsName(x)
    case AliasIndex(q, x) => IsQuote(q) && IsName(x)
    case ClientAlias => true
    case ClientAliasIndex(q, x) => IsQuote(q) && IsName(x)
    case ClientIndexDot(q, d, x) => IsQuote(q) && IsName(d) && IsName(x)
    case AliasDot(x) => IsName(x)
    case ClientAliasDot(x) => IsName(x)
    case ClientDotDot(y, x) => IsName(y) && y != "db" && IsName(x)
  }

  /** The chain as a user writes it before `.find(...)` */
  function Render(f: ChainForm): String
  {
    match f
    case ClientIndexIndex(q1, d, q2, x) => "c[" + q1 + d + q1 + "][" + q2 + x + q2 + "]"
    case AliasIndex(q, x) => "db[" + q + x + q + "]"
    case ClientAlias => "c.db"
    case ClientAliasIndex(q, x) => "c.db[" + q + x + q + "]"
    case ClientIndexDot(q, d, x) => "c[" + q + d + q + "]." + x
    case AliasDot(x) => "db." + x
    case ClientAliasDot(x) => "c.db." + x
    case ClientDotDot(y, x) => "c." + y + "." + x
  }

  /** The database and collection each chain names (None: the session's current one) */
  function Expected(f: ChainForm): (Option<String>, Option<String>)
  {
    match f
    case ClientIndexIndex(_, d, _, x) => (Some(d), Some(x))
    case AliasIndex(_, x) => (None, Some(x))
    case ClientAlias => (None, None)
    case ClientAliasIndex(_, x) => (None, Some(x))
    case ClientIndexDot(_, d, x) => (Some(d), Some(x))
    case AliasDot(x) => (None, Some(x))
    case ClientAliasDot(x) => (None, Some(x))
    case ClientDotDot(y, x) => (Some(y), Some(x))
  }

  lemma NameLacks(x: String, c: char)
    requires IsName(x) && c in Reserved
    ensures c !in x
  {
  }

  /** A name is left alone by `strip()` */
  lemma NameStrip(x: String)
    requires IsName(x)
    ensures Strip(x) == x
  {
  }

  /** A quoted name holds no reserved character other than the quotes */
  lemma QuotedLacks(q: String, x: String, c: char)
    requires IsQuote(q) && IsName(x) && c in Reserved && c != '\'' && c != '"'
    ensures c !in q + x + q
  {
    NameLacks(x, c);
  }

  /** Quotes around a name are removed, and nothing else */
  lemma {:induction false} QuotedName(q: String, x: String)
    requires IsQuote(q) && IsName(x)
    ensures StripQuotes(q + x + q) == x
  {
    NameLacks(x, '\'');
    NameLacks(x, '"');
    NoCharReplace(x, '"', []);
    if q == [] {
      NoCharReplace(x, '\'', []);
      assert q + x + q == x;
    } else if q == "'" {
      QuoteCharRemoved('\'', x);
    } else {
      NoCharReplace(q + x + q, '\'', []);
      QuoteCharRemoved('"', x);
    }
  }

  /** A character around a text that lacks it is removed from both ends */
  lemma QuoteCharRemoved(c: char, x: String)
    requires c !in x
    ensures Replace([c] + x + [c], [c], []) == x
  {
    NoCharReplace(x, c, []);
    ReplaceCharConcat([c] + x, [c], c, []);
    ReplaceCharConcat([c], x, c, []);
    assert Replace([c], [c], []) == [];
  }

  /** Text followed by `]` loses just the bracket */
  lemma DropBracket(inner: String)
    requires ']' !in inner
    ensures Replace(inner + "]", "]", []) == inner
  {
    NoCharReplace(inner, ']', []);
    ReplaceCharConcat(inner, "]", ']', []);
    assert Replace("]", "]", []) == [];
  }

  /** `<lead><inner>]`, a lead ending in `[`, with the lead and then `]` replaced by nothing */
  lemma DropLeadAndBracket(lead: String, inner: String)
    requires |lead| > 0 && lead[|lead| - 1] == '[' && '[' !in inner && ']' !in inner
    ensures Replace(Replace(lead + (inner + "]"), lead, []), "]", []) == inner
  {
    var rest := inner + "]";
    LackingCharNotContained(rest, lead, |lead| - 1);
    ReplaceLeading(lead, rest, []);
    assert [] + rest == rest;
    DropBracket(inner);
  }

  /** A quoted name followed by `]` loses the bracket and the quotes */
  lemma BracketedName(q: String, x: String)
    requires IsQuote(q) && IsName(x)
    ensures StripQuotes(Replace(q + x + q + "]", "]", [])) == x
  {
    QuotedLacks(q, x, ']');
    DropBracket(q + x + q);
    QuotedName(q, x);
  }

  /** `<lead><quoted name>]` with the lead, then `]`, then the quotes removed */
  lemma LeadBracketedName(lead: String, q: String, x: String)
    requires IsQuote(q) && IsName(x) && |lead| > 0 && lead[|lead| - 1] == '['
    ensures StripQuotes(Replace(Replace(lead + (q + x + q + "]"), lead, []), "]", [])) == x
  {
    QuotedLacks(q, x, '[');
    QuotedLacks(q, x, ']');
    DropLeadAndBracket(lead, q + x + q);
    QuotedName(q, x);
  }

  lemma StripClient()
    ensures Strip(ClientStr) == ClientStr
  {
  }

  lemma StripAlias()
    ensures Strip(DbStr) == DbStr
  {
  }

  lemma AliasNotClient()
    ensures Find(DbStr, ClientStr) != 0
  {
    assert DbStr[0] != ClientStr[0];
  }

  /** Two dot-free texts joined by a dot split back into the two */
  lemma SplitDot(x: String, y: String)
    requires '.' !in x && '.' !in y
    ensures Split(x + "." + y, ".") == [x, y]
  {
    SplitCharConcat(x, '.', y);
    NoCharSplit(x, '.');
    NoCharSplit(y, '.');
  }

  /** Three dot-free texts joined by dots split back into the three */
  lemma SplitDotDot(x: String, y: String, z: String)
    requires '.' !in x && '.' !in y && '.' !in z
    ensures Split(x + "." + (y + "." + z), ".") == [x, y, z]
  {
    SplitCharConcat(x, '.', y + "." + z);
    NoCharSplit(x, '.');
    SplitDot(y, z);
  }

  /** `c[<q1><db><q1>][<q2><col><q2>]` splits at `][` into its two brackets */
  lemma SplitBrackets(q1: String, d: String, q2: String, x: String)
    requires IsQuote(q1) && IsName(d) && IsQuote(q2) && IsName(x)
    ensures Split(Render(ClientIndexIndex(q1, d, q2, x)), "][") == ["c[" + (q1 + d + q1), q2 + x + q2 + "]"]
  {
    var a := "c[" + (q1 + d + q1);
    var b := q2 + x + q2 + "]";
    assert Render(ClientIndexIndex(q1, d, q2, x)) == a + "][" + b;
    QuotedLacks(q1, d, ']');
    QuotedLacks(q2, x, '[');
    assert ']' !in a;
    assert '[' !in b;
    LackingCharNotContained(b, "][", 1);
    SplitInTwo(a, "][", b);
  }

  lemma OneClientIndexIndex(q1: String, d: String, q2: String, x: String)
    requires IsQuote(q1) && IsName(d) && IsQuote(q2) && IsName(x)
    ensures OneSegment(Render(ClientIndexIndex(q1, d, q2, x))) == (Some(d), Some(x))
  {
    var s := Render(ClientIndexIndex(q1, d, q2, x));
    var inner := q1 + d + q1;
    assert ClientStr <= s;
    SplitBrackets(q1, d, q2, x);
    QuotedLacks(q1, d, '[');
    LackingCharNotContained(inner, "c[", 1);
    ReplaceLeading("c[", inner, []);
    assert [] + inner == inner;
    QuotedName(q1, d);
    BracketedName(q2, x);
  }

  lemma ResolveClientIndexIndex(q1: String, d: String, q2: String, x: String)
    requires IsQuote(q1) && IsName(d) && IsQuote(q2) && IsName(x)
    ensures ResolveChain(Split(Render(ClientIndexIndex(q1, d, q2, x)), ".")) == (Some(d), Some(x))
  {
    NameLacks(d, '.'); NameLacks(x, '.');
    NoCharSplit(Render(ClientIndexIndex(q1, d, q2, x)), '.');
    OneClientIndexIndex(q1, d, q2, x);
  }

  lemma OneAliasIndex(q: String, x: String)
    requires IsQuote(q) && IsName(x)
    ensures OneSegment(Render(AliasIndex(q, x))) == (None, Some(x))
  {
    var s := "db[" + (q + x + q + "]");
    assert Render(AliasIndex(q, x)) == s;
    assert s[0] == 'd' && s[|s| - 1] == ']';
    assert !(ClientStr <= s);
    FindZero(s, ClientStr);
    assert DbStr <= s;
    FindZero(s, DbStr);
    assert Strip(s) == s by { assert !IsSpace(s[0]) && !IsSpace(s[|s| - 1]); }
    FindChar(s, '[');
    LeadBracketedName("db[", q, x);
  }

  lemma ResolveAliasIndex(q: String, x: String)
    requires IsQuote(q) && IsName(x)
    ensures ResolveChain(Split(Render(AliasIndex(q, x)), ".")) == (None, Some(x))
  {
    NameLacks(x, '.');
    NoCharSplit(Render(AliasIndex(q, x)), '.');
    OneAliasIndex(q, x);
  }

  lemma ResolveClientAlias()
    ensures ResolveChain(Split(Render(ClientAlias), ".")) == (None, None)
  {
    assert Render(ClientAlias) == ClientStr + "." + DbStr;
    SplitDot(ClientStr, DbStr);
    TwoClientAlias();
  }

  lemma TwoClientAlias()
    ensures TwoSegments(ClientStr, DbStr) == (None, None)
  {
    StripClient();
    StripAlias();
  }

  lemma TwoClientAliasIndex(q: String, x: String)
    requires IsQuote(q) && IsName(x)
    ensures TwoSegments(ClientStr, "db[" + (q + x + q + "]")) == (None, Some(x))
  {
    var s1 := "db[" + (q + x + q + "]");
    StripClient();
    assert Strip(s1) == s1 && |s1| > 2;
    assert DbStr <= s1;
    FindChar(s1, '[');
    LeadBracketedName("db[", q, x);
  }

  lemma ResolveClientAliasIndex(q: String, x: String)
    requires IsQuote(q) && IsName(x)
    ensures ResolveChain(Split(Render(ClientAliasIndex(q, x)), ".")) == (None, Some(x))
  {
    var s1 := "db[" + (q + x + q + "]");
    assert Render(ClientAliasIndex(q, x)) == ClientStr + "." + s1;
    NameLacks(x, '.');
    SplitDot(ClientStr, s1);
    TwoClientAliasIndex(q, x);
  }

  lemma TwoClientIndexDot(q: String, d: String, x: String)
    requires IsQuote(q) && IsName(d) && IsName(x)
    ensures TwoSegments("c[" + (q + d + q + "]"), x) == (Some(d), Some(x))
  {
    var s0 := "c[" + (q + d + q + "]");
    assert s0[0] == 'c' && s0[|s0| - 1] == ']' && |s0| > 1;
    StripUnchanged(s0);
    assert ClientStr <= s0;
    FindZero(s0, ClientStr);
    FindChar(s0, '[');
    TwoSegmentsClientIndex(s0, x);
    LeadBracketedName("c[", q, d);
    NameStrip(x);
  }

  /** `c[<db>].<col>`: a first segment that starts with `c` and has a `[` but is not
      the client alone names the database in its brackets */
  lemma TwoSegmentsClientIndex(s0: String, s1: String)
    requires Strip(s0) != ClientStr && Find(s0, ClientStr) == 0 && Find(s0, "[") >= 0
    ensures TwoSegments(s0, s1) ==
            (Some(StripQuotes(Replace(Replace(s0, "c[", []), "]", []))), Some(Strip(s1)))
  {
  }

  lemma ResolveClientIndexDot(q: String, d: String, x: String)
    requires IsQuote(q) && IsName(d) && IsName(x)
    ensures ResolveChain(Split(Render(ClientIndexDot(q, d, x)), ".")) == (Some(d), Some(x))
  {
    var s0 := "c[" + (q + d + q + "]");
    assert Render(ClientIndexDot(q, d, x)) == s0 + "." + x;
    NameLacks(d, '.'); NameLacks(x, '.');
    SplitDot(s0, x);
    TwoClientIndexDot(q, d, x);
  }

  lemma TwoAliasDot(x: String)
    requires IsName(x)
    ensures TwoSegments(DbStr, x) == (None, Some(x))
  {
    StripAlias();
    AliasNotClient();
    NameStrip(x);
  }

  lemma ResolveAliasDot(x: String)
    requires IsName(x)
    ensures ResolveChain(Split(Render(AliasDot(x)), ".")) == (None, Some(x))
  {
    assert Render(AliasDot(x)) == DbStr + "." + x;
    NameLacks(x, '.');
    SplitDot(DbStr, x);
    TwoAliasDot(x);
  }

  lemma ThreeClientAliasDot(x: String)
    requires IsName(x)
    ensures ThreeSegments(ClientStr, DbStr, x) == (None, Some(x))
  {
    StripClient();
    StripAlias();
    NameStrip(x);
  }

  lemma ResolveClientAliasDot(x: String)
    requires IsName(x)
    ensures ResolveChain(Split(Render(ClientAliasDot(x)), ".")) == (None, Some(x))
  {
    assert Render(ClientAliasDot(x)) == ClientStr + "." + (DbStr + "." + x);
    NameLacks(x, '.');
    SplitDotDot(ClientStr, DbStr, x);
    ThreeClientAliasDot(x);
  }

  lemma ThreeClientDotDot(y: String, x: String)
    requires IsName(y) && y != "db" && IsName(x)
    ensures ThreeSegments(ClientStr, y, x) == (Some(y), Some(x))
  {
    StripClient();
    NameStrip(y);
    NameStrip(x);
  }

  lemma ResolveClientDotDot(y: String, x: String)
    requires IsName(y) && y != "db" && IsName(x)
    ensures ResolveChain(Split(Render(ClientDotDot(y, x)), ".")) == (Some(y), Some(x))
  {
    SegmentsClientDotDot(y, x);
    ThreeClientDotDot(y, x);
  }

  lemma SegmentsClientDotDot(y: String, x: String)
    requires IsName(y) && IsName(x)
    ensures Split(Render(ClientDotDot(y, x)), ".") == [ClientStr, y, x]
  {
    assert Render(ClientDotDot(y, x)) == ClientStr + "." + (y + "." + x);
    NameLacks(y, '.'); NameLacks(x, '.');
    SplitDotDot(ClientStr, y, x);
  }

  /** Every documented chain resolves to the database and collection it names */
  lemma ResolveTable(f: ChainForm)
    requires WellFormedForm(f)
    ensures ResolveChain(Split(Render(f), ".")) == Expected(f)
  {
    match f
    case ClientIndexIndex(q1, d, q2, x) => ResolveClientIndexIndex(q1, d, q2, x);
    case AliasIndex(q, x) => ResolveAliasIndex(q, x);
    case ClientAlias => ResolveClientAlias();
    case ClientAliasIndex(q, x) => ResolveClientAliasIndex(q, x);
    case ClientIndexDot(q, d, x) => ResolveClientIndexDot(q, d, x);
    case AliasDot(x) => ResolveAliasDot(x);
    case ClientAliasDot(x) => ResolveClientAliasDot(x);
    case ClientDotDot(y, x) => ResolveClientDotDot(y, x);
  }

  /** The query text of a call: a chain, a dot, the method, and the body in parentheses */
  function Call(chain: String, m: String, body: String): String
  {
    chain + "." + m + "(" + body + ")"
  }

  /** A chain a call may start with: no parenthesis, and no leading whitespace */
  predicate IsChain(chain: String) {
    '(' !in chain && |chain| > 0 && !IsSpace(chain[0])
  }

  /** The two method names hold no `(` or `.`, end in a non-space, and are their own
      stripped lower case */
  lemma FindMethodFixed(m: String)
    requires IsFindMethod(m)
    ensures '(' !in m && '.' !in m && |m| > 0 && !IsSpace(m[|m| - 1])
    ensures Strip(Lower(m)) == m
  {
    if m == "find" {
      FindFixed();
    } else {
      FindOneFixed();
    }
  }

  lemma FindFixed()
    ensures '(' !in "find" && '.' !in "find" && !IsSpace('d')
    ensures Strip(Lower("find")) == "find"
  {
    LowerOfLower("find");
    StripUnchanged("find");
  }

  lemma FindOneFixed()
    ensures '(' !in "find_one" && '.' !in "find_one" && !IsSpace('e')
    ensures Strip(Lower("find_one")) == "find_one"
  {
    LowerOfLower("find_one");
    StripUnchanged("find_one");
  }

  /** A call is left alone by `strip()` */
  lemma CallStrip(chain: String, m: String, body: String)
    requires IsChain(chain)
    ensures Strip(Call(chain, m, body)) == Call(chain, m, body)
  {
    var q := Call(chain, m, body);
    assert q[0] == chain[0] && q[|q| - 1] == ')';
  }

  /** The paren split of a call: the chain and method, then the body's own pieces */
  lemma CallParenSplit(chain: String, m: String, body: String)
    requires IsChain(chain) && IsFindMethod(m)
    ensures ParenSplit(Call(chain, m, body)) == [chain + "." + m] + Split(body + ")", "(")
  {
    FindMethodFixed(m);
    CallStrip(chain, m, body);
    assert Call(chain, m, body) == (chain + "." + m) + "(" + (body + ")");
    SplitAfterFirst(chain + "." + m, "(", body + ")");
  }

  /** The method segment of a call is its method */
  lemma CallMethodName(chain: String, m: String, body: String)
    requires IsChain(chain) && IsFindMethod(m)
    ensures MethodName(Call(chain, m, body)) == m
  {
    CallParenSplit(chain, m, body);
    FindMethodFixed(m);
    SplitCharConcat(chain, '.', m);
    NoCharSplit(m, '.');
  }

  /** A call whose body has no `(`: the body is read back whole */
  lemma CallBody(chain: String, m: String, body: String)
    requires IsChain(chain) && IsFindMethod(m) && '(' !in body
    ensures Body(Call(chain, m, body)) == body
  {
    CallParenSplit(chain, m, body);
    NoCharSplit(body + ")", '(');
    assert DropLast(body + ")") == body;
  }

  /** An occurrence of a longer pattern is one of its prefix */
  lemma ContainsPrefixOf(s: String, p: String, t: String)
    ensures Contains(s, p + t) ==> Contains(s, p)
  {
    if Contains(s, p + t) {
      var i :| 0 <= i <= |s| && OccursAt(s, p + t, i);
      assert s[i..i + |p|] == (p + t)[..|p|];
      assert OccursAt(s, p, i);
    }
  }

  /** Removing `.find_one` and then `.find` from `<chain>.<method>` leaves the chain, when
      the chain itself holds no `.find` */
  lemma DropMethodSuffix(chain: String, m: String)
    requires IsFindMethod(m) && !Contains(chain, ".find")
    ensures Replace(Replace(chain + "." + m, ".find_one", []), ".find", []) == chain
  {
    if m == "find_one" {
      ContainsPrefixOf(chain, ".find", "_one");
      assert ".find" + "_one" == ".find_one";
      assert chain + "." + m == chain + ".find_one";
      ReplaceAppended(chain, ".find_one", []);
      assert chain + [] == chain;
      ReplaceAbsent(chain, ".find", []);
    } else {
      assert chain + "." + m == chain + ".find";
      ContainsPrefixOf(chain, ".find", "_one");
      assert ".find" + "_one" == ".find_one";
      AppendedPrefixAbsent(chain, ".find", ".find_one");
      ReplaceAbsent(chain + ".find", ".find_one", []);
      ReplaceAppended(chain, ".find", []);
      assert chain + [] == chain;
    }
  }

  /** The chain segments of a call are its chain split at dots, when the chain holds no `.find` */
  lemma CallChainSegments(chain: String, m: String, body: String)
    requires IsChain(chain) && IsFindMethod(m) && !Contains(chain, ".find")
    ensures ChainSegments(Call(chain, m, body)) == Split(chain, ".")
  {
    CallParenSplit(chain, m, body);
    FindMethodFixed(m);
    var head := chain + "." + m;
    assert Strip(head) == head by { assert head[0] == chain[0] && head[|head| - 1] == m[|m| - 1]; }
    DropMethodSuffix(chain, m);
  }

  /** A well-formed call parses into its body, its method and the chain's segments */
  lemma WellFormedCall(chain: String, m: String, body: String)
    requires IsChain(chain) && IsFindMethod(m) && '(' !in body && !Contains(chain, ".find")
    ensures Body(Call(chain, m, body)) == body
    ensures MethodName(Call(chain, m, body)) == m
    ensures ChainSegments(Call(chain, m, body)) == Split(chain, ".")
  {
    CallBody(chain, m, body);
    CallMethodName(chain, m, body);
    CallChainSegments(chain, m, body);
  }

  lemma RenderIsChain(f: ChainForm)
    requires WellFormedForm(f)
    ensures IsChain(Render(f))
  {
    match f
    case ClientIndexIndex(q1, d, q2, x) => QuotedLacks(q1, d, '('); QuotedLacks(q2, x, '(');
    case AliasIndex(q, x) => QuotedLacks(q, x, '(');
    case ClientAlias =>
    case ClientAliasIndex(q, x) => QuotedLacks(q, x, '(');
    case ClientIndexDot(q, d, x) => QuotedLacks(q, d, '('); NameLacks(x, '(');
    case AliasDot(x) => NameLacks(x, '(');
    case ClientAliasDot(x) => NameLacks(x, '(');
    case ClientDotDot(y, x) => NameLacks(y, '('); NameLacks(x, '(');
  }

  /** A documented chain called with `find` or `find_one` on a body that evaluates parses
      into the record naming that chain's database and collection */
  lemma ParseTable<V>(f: ChainForm, m: String, body: String, eval: String -> Option<V>)
    requires WellFormedForm(f) && IsFindMethod(m) && '(' !in body && eval(body).Some?
    requires !Contains(Render(f), ".find")
    ensures ParsedQuery(Call(Render(f), m, body), eval)
              == Some(QueryRecord(body, eval(body).value, m, Expected(f).0, Expected(f).1))
  {
    var q := Call(Render(f), m, body);
    RenderIsChain(f);
    WellFormedCall(Render(f), m, body);
    ResolveTable(f);
    assert q[|Render(f)| + 1 + |m|] == '(';
  }

  /** Dropping only the method segment recovers the chain's segments for every chain,
      `.find`-prefixed names included */
  lemma SuffixOnlyCall(chain: String, m: String, body: String)
    requires IsChain(chain) && IsFindMethod(m)
    ensures ChainSegmentsSuffixOnly(Call(chain, m, body)) == Split(chain, ".")
  {
    CallParenSplit(chain, m, body);
    FindMethodFixed(m);
    var head := chain + "." + m;
    StripUnchanged(head);
    SplitCharConcat(chain, '.', m);
    NoCharSplit(m, '.');
  }

  /** With the method segment dropped, every documented chain resolves as documented */
  lemma SuffixOnlyTable(f: ChainForm, m: String, body: String)
    requires WellFormedForm(f) && IsFindMethod(m)
    ensures ResolveChain(ChainSegmentsSuffixOnly(Call(Render(f), m, body))) == Expected(f)
  {
    RenderIsChain(f);
    SuffixOnlyCall(Render(f), m, body);
    ResolveTable(f);
  }

  /** `db.find<t>.find(...)`: removing `.find` everywhere collapses the chain to `db<t>` */
  lemma FindPrefixedChainCollapses(t: String, body: String)
    requires IsName(t) && '_' !in t
    ensures ChainSegments(Call("db.find" + t, "find", body)) == ["db" + t]
  {
    var chain := "db.find" + t;
    NameLacks(t, '('); NameLacks(t, '.');
    assert IsChain(chain);
    CallParenSplit(chain, "find", body);
    FindPrefixedHead(t);
    CollapseFind(t);
    NoCharSplit("db" + t, '.');
  }

  /** The head `db.find<t>.find` is stripped already and has no `.find_one` */
  lemma FindPrefixedHead(t: String)
    requires IsName(t) && '_' !in t
    ensures Strip("db.find" + t + "." + "find") == "db.find" + t + "." + "find"
    ensures Replace("db.find" + t + "." + "find", ".find_one", []) == "db.find" + t + "." + "find"
  {
    var head := "db.find" + t + "." + "find";
    assert head[0] == 'd' && head[|head| - 1] == 'd';
    StripUnchanged(head);
    FindPrefixedHeadLacks(t);
    LackingCharNotContained(head, ".find_one", 5);
    ReplaceAbsent(head, ".find_one", []);
  }

  lemma FindPrefixedHeadLacks(t: String)
    requires '_' !in t
    ensures '_' !in "db.find" + t + "." + "find"
  {
    assert '_' !in "db.find" && '_' !in "." + "find";
    assert "db.find" + t + "." + "find" == "db.find" + t + ("." + "find");
  }

  lemma CollapseFind(t: String)
    requires '.' !in t
    ensures Replace("db.find" + t + "." + "find", ".find", []) == "db" + t
  {
    var head := "db.find" + t + "." + "find";
    SplitCollapse(t);
    ReplaceIsJoinOfSplit(head, ".find", []);
    JoinCollapse(t);
  }

  lemma SplitCollapse(t: String)
    requires '.' !in t
    ensures Split("db.find" + t + "." + "find", ".find") == ["db", t, ""]
  {
    DbFindRegroup(t);
    SplitAfterFirst("db", ".find", t + ".find" + "");
    SplitAfterFirst(t, ".find", "");
    assert Find("", ".find") < 0;
  }

  lemma DbFindRegroup(t: String)
    ensures "db.find" + t + "." + "find" == "db" + ".find" + (t + ".find" + "")
  {
  }

  lemma FindName(t: String)
    requires IsName(t)
    ensures IsName("find" + t)
  {
    var n := "find" + t;
    forall k | 0 <= k < |n|
      ensures n[k] !in Reserved && !IsSpace(n[k])
    {
      if k >= 4 {
        assert n[k] == t[k - 4];
      }
    }
  }

  lemma DbFindRender(t: String)
    ensures Render(AliasDot("find" + t)) == "db.find" + t
  {
  }

  lemma JoinCollapse(t: String)
    ensures Join(["db", t, ""], []) == "db" + t
  {
    JoinCons("db", [t, ""], []);
    JoinCons(t, [""], []);
  }

  /** `db<t>` names no collection */
  lemma CollapsedChainUnresolved(t: String)
    requires IsName(t)
    ensures OneSegment("db" + t) == (None, None)
  {
    var s := "db" + t;
    assert s[0] != ClientStr[0];
    assert DbStr <= s;
    NameStrip(t);
    assert Strip(s) == s by {
      if |t| > 0 { StripUnchanged(s); }
    }
    NameLacks(t, '[');
    FindChar(s, '[');
  }

  /** `db.find<t>.find({})` names collection `find<t>`, yet `parse_mongo_query` finds no
      collection in it; dropping only the method segment finds it */
  lemma FindPrefixedCollectionLost(t: String, body: String)
    requires IsName(t) && '_' !in t
    ensures ResolveChain(ChainSegments(Call("db.find" + t, "find", body))) == (None, None)
    ensures ResolveChain(ChainSegmentsSuffixOnly(Call("db.find" + t, "find", body)))
              == (None, Some("find" + t))
  {
    FindPrefixedChainCollapses(t, body);
    CollapsedChainUnresolved(t);
    FindName(t);
    DbFindRender(t);
    SuffixOnlyTable(AliasDot("find" + t), "find", body);
  }

  /** The text after the first `(` without the final `)` is the whole body, parentheses
      in it included */
  lemma BodyIntendedOfCall(chain: String, m: String, body: String)
    requires IsChain(chain) && IsFindMethod(m)
    ensures BodyIntended(Call(chain, m, body)) == body
  {
    var head := chain + "." + m;
    var q := Call(chain, m, body);
    FindMethodFixed(m);
    CallStrip(chain, m, body);
    assert q == head + "(" + (body + ")");
    FindAfter(head, "(", body + ")");
    assert q[|head| + 1..] == body + ")";
  }

  /** A body holding a `(` is cut at it, and loses the character before it */
  lemma BodyCutAtInnerParen(chain: String, m: String, a: String, b: String)
    requires IsChain(chain) && IsFindMethod(m) && '(' !in a
    ensures Body(Call(chain, m, a + "(" + b)) == DropLast(a)
    ensures BodyIntended(Call(chain, m, a + "(" + b)) == a + "(" + b
  {
    CallParenSplit(chain, m, a + "(" + b);
    assert a + "(" + b + ")" == a + "(" + (b + ")");
    SplitAfterFirst(a, "(", b + ")");
    BodyIntendedOfCall(chain, m, a + "(" + b);
  }

  /** `db.users.find({'_id': ObjectId('x')})`: the body read is `{'_id': ObjectI` */
  lemma ObjectIdBodyCut()
    ensures Body(Call("db.users", "find", "{'_id': ObjectId" + "(" + "'x')}")) == "{'_id': ObjectI"
  {
    BodyCutAtInnerParen("db.users", "find", "{'_id': ObjectId", "'x')}");
  }

  /** The first token of a word followed by a space and more text is the word */
  lemma FirstTokenOf(w: String, rest: String)
    requires |w| > 0 && ' ' !in w && !IsSpace(w[0]) && |rest| > 0 && !IsSpace(rest[|rest| - 1])
    ensures FirstToken(w + " " + rest) == w
  {
    StripUnchanged(w + " " + rest);
    SplitAfterFirst(w, " ", rest);
  }

  /** A query such as `show dbs` is no admin command and does not parse, so `validateQuery`
      reaches the subscript of None and raises `TypeError` once a last query is recorded */
  lemma NonAdminWithoutParen<V>(w: String, rest: String, eval: String -> Option<V>)
    requires |w| > 0 && ' ' !in w && !IsSpace(w[0]) && |rest| > 0 && !IsSpace(rest[|rest| - 1])
    requires w !in AdminCommands && '(' !in w + " " + rest
    ensures FirstToken(w + " " + rest) !in AdminCommands
    ensures ParsedQuery(Strip(w + " " + rest), eval) == None
  {
    FirstTokenOf(w, rest);
    StripKeepsNonSpace(w + " " + rest, '(');
  }
}
