/** The legacy accessor-chain parser of the `%%mongo` magic: `parse_mongo_query` turns
    `c['mydb']['col'].find({...})`-shaped text into a query record (query type,
    database if given, collection if given, raw body text), and `validateQuery`
    decides whether such text may be run. */
module MongoQuery {
  import opened Wrappers
  import opened PyStrings

  /** The dict `q_builder` that `parse_mongo_query` returns */
  datatype QueryRecord<V> = QueryRecord(
    qStr: String,               // the raw body text
    qDict: V,                   // what evaluating the body gave
    qType: String,              // the method: "find" or "find_one"
    dbProvided: Option<String>,
    colProvided: Option<String>)

  /** The client and database-alias names the chain may start with */
  const ClientStr: String := "c"
  const DbStr: String := "db"

  /** `s[0:-1]` */
  function DropLast(s: String): (r: String)
    ensures |s| > 0 ==> r + [s[|s| - 1]] == s
    ensures |s| == 0 ==> r == []
  {
    if |s| == 0 then [] else s[..|s| - 1]
  }

  /** `p_split`: the stripped query split at every `(` */
  function ParenSplit(q: String): seq<String>
  {
    Split(Strip(q), "(")
  }

  /** `q_str`: the second piece of `p_split` without its last character */
  function Body(q: String): String
  {
    var p := ParenSplit(q);
    if |p| >= 2 then DropLast(p[1]) else []
  }

  /** `f_str`: the last `.`-segment of the text before the first `(`, lower-cased and stripped */
  function MethodName(q: String): String
  {
    MethodOf(ParenSplit(q)[0])
  }

  /** `f_str` from `full_str`, the text before the first `(` */
  function MethodOf(fullStr: String): String
  {
    var full := Split(fullStr, ".");
    Strip(Lower(full[|full| - 1]))
  }

  predicate IsFindMethod(m: String) {
    m == "find" || m == "find_one"
  }

  /** `col_split`: the text before the first `(`, stripped, with every `.find_one` and then
      every `.find` removed, split at every `.` */
  function ChainSegments(q: String): seq<String>
  {
    Segments(ParenSplit(q)[0])
  }

  /** `col_split` from `full_str`, the text before the first `(` */
  function Segments(head: String): seq<String>
  {
    Split(Replace(Replace(Strip(head), ".find_one", []), ".find", []), ".")
  }

  /** Every `'` and then every `"` removed */
  function StripQuotes(s: String): String
  {
    Replace(Replace(s, "'", []), "\"", [])
  }

  /** The database and collection a chain of `.`-segments names, as `parse_mongo_query`
      tells the shapes apart; `(None, None)` when it recognises none */
  function ResolveChain(segs: seq<String>): (r: (Option<String>, Option<String>))
    ensures r.0.Some? ==> r.1.Some?
    ensures |segs| == 0 || |segs| >= 4 ==> r == (None, None)
    ensures |segs| == 1 && !(ClientStr <= segs[0]) && !(DbStr <= segs[0]) ==> r == (None, None)
  {
    if |segs| == 1 then OneSegment(segs[0])
    else if |segs| == 2 then TwoSegments(segs[0], segs[1])
    else if |segs| == 3 then ThreeSegments(segs[0], segs[1], segs[2])
    else (None, None)
  }

  /** No dot: `c[<db>][<col>]` or `db[<col>]` */
  function OneSegment(s0: String): (Option<String>, Option<String>)
  {
    if Find(s0, ClientStr) == 0 then
      var sq := Split(s0, "][");
      if |sq| == 2 then
        (Some(StripQuotes(Replace(sq[0], "c[", []))), Some(StripQuotes(Replace(sq[1], "]", []))))
      else (None, None)
    else if Find(s0, DbStr) == 0 then
      if Find(Strip(s0), "[") >= 0 then
        (None, Some(StripQuotes(Replace(Replace(Strip(s0), "db[", []), "]", []))))
      else (None, None)
    else (None, None)
  }

  /** One dot: `c.db`, `c.db[<col>]`, `c[<db>].<col>` or `db.<col>` */
  function TwoSegments(s0: String, s1: String): (Option<String>, Option<String>)
  {
    if Strip(s0) == ClientStr && Strip(s1) == DbStr then (None, None)
    else if Strip(s0) == ClientStr && Strip(s1) != DbStr then
      if Find(s1, DbStr) == 0 && Find(s1, "[") >= 0 then
        (None, Some(StripQuotes(Replace(Replace(s1, "db[", []), "]", []))))
      else (None, None)
    else if Find(s0, ClientStr) == 0 then
      if Find(s0, "[") >= 0 then
        (Some(StripQuotes(Replace(Replace(s0, "c[", []), "]", []))), Some(Strip(s1)))
      else (None, None)
    else if Strip(s0) == DbStr then (None, Some(Strip(s1)))
    else (None, None)
  }

  /** Two dots: `c.db.<col>` or `c.<db>.<col>` */
  function ThreeSegments(s0: String, s1: String, s2: String): (Option<String>, Option<String>)
  {
    if Strip(s0) == ClientStr && Strip(s1) == DbStr then (None, Some(Strip(s2)))
    else if Strip(s0) == ClientStr then (Some(Strip(s1)), Some(Strip(s2)))
    else (None, None)
  }

  /** `col_split` and the shape cascade of `parse_mongo_query` over it, filling
      `db_provided` and `col_provided` from `full_str` */
  method ResolveSegments(fullStr: String) returns (dbProvided: Option<String>, colProvided: Option<String>)
    ensures (dbProvided, colProvided) == ResolveChain(Segments(fullStr))
  {
    var colStr := Replace(Replace(Strip(fullStr), ".find_one", []), ".find", []);
    var colSplit := Split(colStr, ".");
    dbProvided := None;
    colProvided := None;
    if |colSplit| == 1 {
      if Find(colSplit[0], ClientStr) == 0 {
        var sqSplit := Split(colSplit[0], "][");
        if |sqSplit| == 2 {
          dbProvided := Some(StripQuotes(Replace(sqSplit[0], "c[", [])));
          colProvided := Some(StripQuotes(Replace(sqSplit[1], "]", [])));
        }
      } else if Find(colSplit[0], DbStr) == 0 {
        if Find(Strip(colSplit[0]), "[") >= 0 {
          colProvided := Some(StripQuotes(Replace(Replace(Strip(colSplit[0]), "db[", []), "]", [])));
        }
      }
    } else if |colSplit| == 2 {
      if Strip(colSplit[0]) == ClientStr && Strip(colSplit[1]) == DbStr {
      } else if Strip(colSplit[0]) == ClientStr && Strip(colSplit[1]) != DbStr {
        if Find(colSplit[1], DbStr) == 0 {
          if Find(colSplit[1], "[") >= 0 {
            colProvided := Some(StripQuotes(Replace(Replace(colSplit[1], "db[", []), "]", [])));
          }
        }
      } else if Find(colSplit[0], ClientStr) == 0 {
        if Find(colSplit[0], "[") >= 0 {
          dbProvided := Some(StripQuotes(Replace(Replace(colSplit[0], "c[", []), "]", [])));
          colProvided := Some(Strip(colSplit[1]));
        }
      } else if Strip(colSplit[0]) == DbStr {
        colProvided := Some(Strip(colSplit[1]));
      }
    } else if |colSplit| == 3 {
      if Strip(colSplit[0]) == ClientStr && Strip(colSplit[1]) == DbStr {
        colProvided := Some(Strip(colSplit[2]));
      }
      if Strip(colSplit[0]) == ClientStr && Strip(colSplit[1]) != DbStr {
        dbProvided := Some(Strip(colSplit[1]));
        colProvided := Some(Strip(colSplit[2]));
      }
    }
  }

  /** The stripped query has a `(` exactly when the query has one, and then the paren
      split has at least two pieces */
  lemma ParenFound(query: String)
    ensures Find(Strip(query), "(") >= 0 <==> '(' in query
    ensures '(' in query ==> |ParenSplit(query)| >= 2
  {
    StripKeepsNonSpace(query, '(');
    FindChar(Strip(query), '(');
    ContainsChar(Strip(query), '(');
    SplitWhole(Strip(query), "(");
  }

  /** What `parse_mongo_query` returns: None when there is no `(`, when the body does not
      evaluate, or when the method is not `find`/`find_one`; otherwise the record of the
      body, its value, the method, and the database and collection the chain names */
  function ParsedQuery<V>(query: String, eval: String -> Option<V>): (r: Option<QueryRecord<V>>)
    ensures '(' !in query ==> r == None
    ensures r.Some? ==> IsFindMethod(r.value.qType) && eval(r.value.qStr) == Some(r.value.qDict)
    ensures r.Some? && r.value.dbProvided.Some? ==> r.value.colProvided.Some?
    ensures r.Some? ==> r.value.qStr == Body(query) && r.value.qType == MethodName(query)
  {
    if '(' in query && eval(Body(query)).Some? then
      CallRecord(ParenSplit(query)[0], Body(query), eval(Body(query)).value)
    else None
  }

  /** The rest of `parse_mongo_query` once the body `qStr` has evaluated to `qDict`:
      nothing unless the method named in `fullStr` is `find`/`find_one`, else the record */
  function CallRecord<V>(fullStr: String, qStr: String, qDict: V): (r: Option<QueryRecord<V>>)
    ensures r.Some? <==> IsFindMethod(MethodOf(fullStr))
    ensures r.Some? ==> r.value.qStr == qStr && r.value.qDict == qDict && r.value.qType == MethodOf(fullStr)
    ensures r.Some? ==> (r.value.dbProvided, r.value.colProvided) == ResolveChain(Segments(fullStr))
  {
    var m := MethodOf(fullStr);
    if IsFindMethod(m) then
      var (db, col) := ResolveChain(Segments(fullStr));
      Some(QueryRecord(qStr, qDict, m, db, col))
    else None
  }

  /** `parse_mongo_query`, step by step */
  method ParseMongoQuery<V>(query: String, eval: String -> Option<V>) returns (r: Option<QueryRecord<V>>)
    ensures r == ParsedQuery(query, eval)
  {
    var q := Strip(query);
    ParenFound(query);
    if Find(q, "(") < 0 {
      return None;
    }
    var pSplit := Split(q, "(");
    assert pSplit == ParenSplit(query);
    var qStr := DropLast(pSplit[1]);
    assert qStr == Body(query);
    var qDict := eval(qStr);
    if qDict.None? {
      return None;
    }
    r := ParseCall(pSplit[0], qStr, qDict.value);
  }

  /** The method check and the chain resolution of `parse_mongo_query`, on `full_str` */
  method ParseCall<V>(fullStr: String, qStr: String, qDict: V) returns (r: Option<QueryRecord<V>>)
    ensures r == CallRecord(fullStr, qStr, qDict)
  {
    var fStr := MethodOf(fullStr);
    if !IsFindMethod(fStr) {
      return None;
    }
    var dbProvided, colProvided := ResolveSegments(fullStr);
    r := Some(QueryRecord(qStr, qDict, fStr, dbProvided, colProvided));
  }

  /** Errors `validateQuery` can raise */
  datatype PyError = KeyError | TypeError

  /** What a call returns, or the error it raises */
  datatype Outcome = Returned(run: bool) | Raised(error: PyError)

  /** The pseudo-commands `validateQuery` lets through without parsing */
  const AdminCommands: seq<String> := ["use", "curdb", "listdbs"]

  /** `query.strip().split(" ")[0]` */
  function FirstToken(query: String): String
  {
    Split(Strip(query), " ")[0]
  }

  /** `validateQuery`. `lastQuery` is `self.instances[instance]['last_query']`, None when that
      lookup raises `KeyError`; the comparison with it only sets a flag nothing reads. */
  method ValidateQuery<V>(query: String, lastQuery: Option<String>, eval: String -> Option<V>)
    returns (r: Outcome)
    ensures FirstToken(query) in AdminCommands ==> r == Returned(true)
    ensures FirstToken(query) !in AdminCommands && lastQuery.None? ==> r == Raised(KeyError)
    ensures FirstToken(query) !in AdminCommands && lastQuery.Some? && ParsedQuery(Strip(query), eval).None? ==>
              r == Raised(TypeError)
    ensures FirstToken(query) !in AdminCommands && lastQuery.Some? && ParsedQuery(Strip(query), eval).Some? ==>
              r == Returned(ParsedQuery(Strip(query), eval).value.colProvided.Some?)
  {
    var bRun := true;
    var q := Strip(query);
    var spaceSplit := Split(q, " ");
    if spaceSplit[0] in AdminCommands {
      return Returned(true);
    }
    var qDict := ParseMongoQuery(q, eval);
    if lastQuery.None? {
      return Raised(KeyError);
    }
    if qDict.None? {
      bRun := false;
      // `q_dict['col_provided']` subscripts None
      return Raised(TypeError);
    }
    if qDict.value.colProvided.None? {
      bRun := false;
    }
    r := Returned(bRun);
  }

  /** `validateQuery` as evidently intended: a query that does not parse is refused
      (`False`) instead of raising `TypeError` */
  method ValidateQueryIntended<V>(query: String, lastQuery: Option<String>, eval: String -> Option<V>)
    returns (r: Outcome)
    ensures r != Raised(TypeError)
    ensures r.Raised? <==> FirstToken(query) !in AdminCommands && lastQuery.None?
    ensures r == Returned(true) <==>
              FirstToken(query) in AdminCommands
              || (lastQuery.Some? && ParsedQuery(Strip(query), eval).Some?
                  && ParsedQuery(Strip(query), eval).value.colProvided.Some?)
  {
    var q := Strip(query);
    var spaceSplit := Split(q, " ");
    if spaceSplit[0] in AdminCommands {
      return Returned(true);
    }
    var qDict := ParseMongoQuery(q, eval);
    if lastQuery.None? {
      return Raised(KeyError);
    }
    if qDict.None? || qDict.value.colProvided.None? {
      return Returned(false);
    }
    r := Returned(true);
  }

  /** The chain segments with only the trailing method segment dropped: what removing
      `.find_one` and `.find` is evidently meant to do */
  function ChainSegmentsSuffixOnly(q: String): seq<String>
  {
    var segs := Split(Strip(ParenSplit(q)[0]), ".");
    segs[..|segs| - 1]
  }

  /** The text after the first `(` without the final character: the body
      `parse_mongo_query` evidently means to take */
  function BodyIntended(q: String): String
  {
    var s := Strip(q);
    var i := Find(s, "(");
    if i < 0 then [] else DropLast(s[i + 1..])
  }
}
