/** `UserInputParser`: turns the text of a `%mongo` line magic or a `%%mongo` cell magic
    into a record `{type, error, message, input}`. A line magic is one command line; a
    cell magic is a command line followed by one line of query documents, which
    `transform_query` splits and evaluates. */
module UserInput {
  import opened Wrappers
  import opened PyStrings
  import opened QuerySplit
  import opened ArgGrammar

  /** `list(map(lambda q: ast.literal_eval(...), pieces))`: every piece evaluated, or the
      first error raised (its `str(e)`). The `json.dumps`/`json.loads` round trip on a
      `str` gives the same text back, so each piece is evaluated as it is. */
  function EvalAll<V>(pieces: seq<String>, literalEval: String -> Result<V, String>): (r: Result<seq<V>, String>)
    ensures r.Ok? <==> forall k :: 0 <= k < |pieces| ==> literalEval(pieces[k]).Ok?
    ensures r.Ok? ==> |r.value| == |pieces| &&
                      forall k :: 0 <= k < |pieces| ==> literalEval(pieces[k]) == Ok(r.value[k])
    ensures r.Err? ==> exists k :: 0 <= k < |pieces| && literalEval(pieces[k]) == Err(r.error) &&
                                   forall j :: 0 <= j < k ==> literalEval(pieces[j]).Ok?
  {
    if |pieces| == 0 then Ok([])
    else match literalEval(pieces[0])
      case Err(e) => Err(e)
      case Ok(v) =>
        match EvalAll(pieces[1..], literalEval)
        case Err(e) =>
          assert forall k :: 1 <= k < |pieces| ==> pieces[1..][k - 1] == pieces[k];
          Err(e)
        case Ok(vs) => Ok([v] + vs)
  }

  /** `transform_query`: the query documents of a cell, split at `}, {` and evaluated */
  function TransformQuery<V>(query: String, literalEval: String -> Result<V, String>): Result<seq<V>, String>
  {
    EvalAll(SplitQuery(query), literalEval)
  }

  /** `n` spaces: the indentation a string literal continued on the next line keeps */
  function Spaces(n: nat): (r: String)
    ensures |r| == n && forall k :: 0 <= k < n ==> r[k] == ' '
  {
    seq(n, _ => ' ')
  }

  /** The messages `parse_input` stores */
  datatype Message =
    | LineTooLong          // a line magic spanning several lines
    | LineInvalid          // argparse rejected a line magic
    | CellInvalid          // argparse rejected the first line of a cell magic
    | OneLine              // a cell magic without a query line
    | LineCount(n: nat)    // a cell magic with `n` lines, `n` not 1 or 2
    | Exception(e: String) // evaluating a query document raised `e`

  /** Each message character for character: a raw string keeps the backslash and the
      newline before the continued line; a plain string drops both */
  function Text(m: Message): String
  {
    match m
    case LineTooLong =>
      "The line magic is more than one line and shouldn't be. \\\n" + Spaces(24) +
      "Try `%splunk --help` or `%splunk -h` for proper formatting"
    case LineInvalid =>
      "Invalid input received, see the output above. \\\n" + Spaces(20) + "Try `%mongo --help` or `%mongo -h`"
    case CellInvalid =>
      "Invalid input received, see the output above. \\\n" + Spaces(20) + "Try `%%mongo --help` or `%%mongo -h`"
    case OneLine =>
      "Expected to get 2 lines in your cell magic, but got 1." + Spaces(25) +
      "Did you forget to include a query?\nTry `--help` or `-h`"
    case LineCount(n) =>
      "Expected to get 2 lines in your cell magic," + Spaces(25) + "but got " + NatToString(n) +
      ". Try `--help` or `-h`"
    case Exception(e) =>
      "Exception while parsing user input: " + e
  }

  /** The line count a cell-magic message reports can be read back from it */
  lemma LineCountTextInjective(n1: nat, n2: nat)
    requires Text(LineCount(n1)) == Text(LineCount(n2))
    ensures n1 == n2
  {
    var a := "Expected to get 2 lines in your cell magic," + Spaces(25) + "but got ";
    CancelFrame(a, NatToString(n1), NatToString(n2), ". Try `--help` or `-h`");
    NatToStringRoundTrip(n1);
    NatToStringRoundTrip(n2);
  }

  /** The exception text a message reports can be read back from it */
  lemma ExceptionTextInjective(e1: String, e2: String)
    requires Text(Exception(e1)) == Text(Exception(e2))
    ensures e1 == e2
  {
    assert Text(Exception(e1)) == "Exception while parsing user input: " + e1 + [];
    assert Text(Exception(e2)) == "Exception while parsing user input: " + e2 + [];
    CancelFrame("Exception while parsing user input: ", e1, e2, []);
  }

  /** A common frame around two texts cancels */
  lemma CancelFrame(a: String, x: String, y: String, c: String)
    requires a + x + c == a + y + c
    ensures x == y
  {
    assert x == (a + x + c)[|a|..|a| + |x|];
    assert |x| == |y|;
    assert y == (a + y + c)[|a|..|a| + |y|];
  }

  /** `input.strip().split("\n")` */
  function Lines(input: String): seq<String>
  {
    Split(Strip(input), "\n")
  }

  /** A value of the `input` dictionary: an argparse value or the evaluated query */
  datatype Field<V> = Arg(value: Option<String>) | Query(docs: seq<V>)

  /** The dictionary `parse_input` returns */
  datatype ParsedInput<V> = ParsedInput(kind: String, error: bool, message: Option<Message>,
                                        input: map<String, Field<V>>)

  /** `vars(namespace)` */
  function ArgsInput<V>(ns: Namespace): (m: map<String, Field<V>>)
    ensures m.Keys == ns.Keys && forall k :: k in ns ==> m[k] == Arg(ns[k])
  {
    map k | k in ns :: Arg(ns[k])
  }

  // Two map identities the methods below rely on: `{}.update(m)` is `m`, and
  // `m.update({k: v})` is `m` with `k` set to `v`

  lemma EmptyUpdate<K, W>(m: map<K, W>)
    ensures map[] + m == m
  {
  }

  lemma SingleUpdate<K, W>(m: map<K, W>, k: K, v: W)
    ensures m + map[k := v] == m[k := v]
  {
  }

  /** `parse_input` on a line magic */
  function LineInputOf<V>(input: String): (r: ParsedInput<V>)
    ensures r.kind == "line" && (r.error <==> r.message.Some?)
    ensures !r.error ==> |Lines(input)| == 1
  {
    if |Lines(input)| > 1 then ParsedInput("line", true, Some(LineTooLong), map[])
    else match ParseArgs(LineGrammar, Words(input))
      case Ok(ns) => ParsedInput("line", false, None, ArgsInput(ns))
      case Err(_) => ParsedInput("line", true, Some(LineInvalid), map[])
  }

  /** `parse_input` on a cell magic with exactly two lines */
  function TwoLineCellOf<V>(command: String, query: String, literalEval: String -> Result<V, String>)
    : (r: ParsedInput<V>)
    ensures r.kind == "cell" && (r.error <==> r.message.Some?)
    ensures !r.error ==> "query" in r.input
  {
    TwoLineOutcome(ParseArgs(CellGrammar, Words(command)), TransformQuery(query, literalEval))
  }

  /** The record for a two-line cell, from what argparse made of the command line and what
      `transform_query` made of the query line; the query counts only once the command parsed */
  function TwoLineOutcome<V>(parsed: Result<Namespace, ArgError>, documents: Result<seq<V>, String>)
    : ParsedInput<V>
  {
    match parsed
    case Err(_) => ParsedInput("cell", true, Some(CellInvalid), map[])
    case Ok(ns) =>
      match documents
      case Err(e) => ParsedInput("cell", true, Some(Exception(e)), map[])
      case Ok(q) => ParsedInput("cell", false, None, ArgsInput(ns)["query" := Query(q)])
  }

  /** `parse_input` on a cell magic */
  function CellInputOf<V>(input: String, literalEval: String -> Result<V, String>): (r: ParsedInput<V>)
    ensures r.kind == "cell" && (r.error <==> r.message.Some?)
    ensures !r.error ==> "query" in r.input && |Lines(input)| == 2
    ensures |Lines(input)| == 1 ==> r.error
    ensures |Lines(input)| > 2 ==> r == ParsedInput("cell", true, Some(LineCount(|Lines(input)|)), map[])
  {
    var lines := Lines(input);
    if |lines| == 1 then
      match ParseArgs(CellGrammar, Words(lines[0]))
      case Ok(ns) => ParsedInput("cell", true, Some(OneLine), ArgsInput(ns))
      case Err(_) => ParsedInput("cell", true, Some(CellInvalid), map[])
    else if |lines| == 2 then TwoLineCellOf(lines[0], lines[1], literalEval)
    else ParsedInput("cell", true, Some(LineCount(|lines|)), map[])
  }

  /** What `parse_input(input, type)` returns: `kind` is echoed; an error comes with a
      message and only then; a successful cell carries its query */
  function ParsedInputOf<V>(input: String, kind: String, literalEval: String -> Result<V, String>)
    : (r: ParsedInput<V>)
    ensures r.kind == kind
    ensures r.error <==> r.message.Some?
    ensures kind != "line" && kind != "cell" ==> r == ParsedInput(kind, false, None, map[])
    ensures kind == "cell" && !r.error ==> "query" in r.input && |Lines(input)| == 2
    ensures kind == "line" && !r.error ==> |Lines(input)| == 1
  {
    if kind == "line" then LineInputOf(input)
    else if kind == "cell" then CellInputOf(input, literalEval)
    else ParsedInput(kind, false, None, map[])
  }

  /** The object the magics share; `__init__` builds the two parsers */
  class UserInputParser {
    const lineParser: Grammar
    const cellParser: Grammar

    /** The parsers are the ones `__init__` declares */
    predicate Valid() {
      lineParser == LineGrammar && cellParser == CellGrammar
    }

    constructor()
      ensures Valid()
    {
      lineParser := LineGrammar;
      cellParser := CellGrammar;
    }

    /** `parse_input`: fills in the record step by step, catching the parser's exit and
        the query's evaluation error */
    method ParseInput<V>(input: String, kind: String, literalEval: String -> Result<V, String>)
      returns (r: ParsedInput<V>)
      requires Valid()
      ensures r == ParsedInputOf(input, kind, literalEval)
    {
      r := ParsedInput(kind, false, None, map[]);
      if kind == "line" {
        r := ParseLine(r, input);
      }
      if kind == "cell" {
        r := ParseCell(r, input, literalEval);
      }
    }

    /** The line-magic branch of `parse_input`, on the fresh record */
    method ParseLine<V>(r0: ParsedInput<V>, input: String) returns (r: ParsedInput<V>)
      requires Valid() && r0 == ParsedInput("line", false, None, map[])
      ensures r == LineInputOf(input)
    {
      r := r0;
      if |Lines(input)| > 1 {
        r := r.(error := true);
        r := r.(message := Some(LineTooLong));
      } else {
        var parsed := ParseArgs(lineParser, Words(input));
        match parsed {
          case Ok(ns) =>
            EmptyUpdate(ArgsInput<V>(ns));
            r := r.(input := r.input + ArgsInput(ns));
          case Err(_) =>
            r := r.(error := true);
            r := r.(message := Some(LineInvalid));
        }
      }
    }

    /** The two-line branch of the cell magic: the command line, then the query */
    method ParseTwoLineCell<V>(r0: ParsedInput<V>, command: String, query: String,
                               literalEval: String -> Result<V, String>) returns (r: ParsedInput<V>)
      requires Valid() && r0 == ParsedInput("cell", false, None, map[])
      ensures r == TwoLineCellOf(command, query, literalEval)
    {
      r := r0;
      var parsed := ParseArgs(cellParser, Words(command));
      match parsed {
        case Err(_) =>
          r := r.(error := true);
          r := r.(message := Some(CellInvalid));
        case Ok(ns) =>
          var splitQuery := TransformQuery(query, literalEval);
          match splitQuery {
            case Err(e) =>
              r := r.(error := true);
              r := r.(message := Some(Exception(e)));
            case Ok(q) =>
              EmptyUpdate(ArgsInput<V>(ns));
              SingleUpdate(ArgsInput<V>(ns), "query", Query(q));
              r := r.(input := r.input + ArgsInput(ns));
              r := r.(input := r.input + map["query" := Query(q)]);
          }
      }
    }

    /** The cell-magic branch of `parse_input`, on the fresh record */
    method ParseCell<V>(r0: ParsedInput<V>, input: String, literalEval: String -> Result<V, String>)
      returns (r: ParsedInput<V>)
      requires Valid() && r0 == ParsedInput("cell", false, None, map[])
      ensures r == CellInputOf(input, literalEval)
    {
      r := r0;
      var splitUserInput := Lines(input);
      if |splitUserInput| == 1 {
        var parsed := ParseArgs(cellParser, Words(splitUserInput[0]));
        match parsed {
          case Ok(ns) =>
            EmptyUpdate(ArgsInput<V>(ns));
            r := r.(input := r.input + ArgsInput(ns));
            r := r.(error := true);
            r := r.(message := Some(OneLine));
          case Err(_) =>
            r := r.(error := true);
            r := r.(message := Some(CellInvalid));
        }
      } else if |splitUserInput| == 2 {
        r := ParseTwoLineCell(r, splitUserInput[0], splitUserInput[1], literalEval);
      } else {
        r := r.(error := true);
        r := r.(message := Some(LineCount(|splitUserInput|)));
      }
    }
  }

  /** No character that `split()` treats as whitespace is a lower-case letter, `_` or `-` */
  lemma NameCharsNotSpace(s: String)
    requires forall k :: 0 <= k < |s| ==> 'a' <= s[k] <= 'z' || s[k] == '_' || s[k] == '-'
    ensures |s| > 0 ==> IsWord(s)
  {
  }

  /** Every sub-command name and option string is a single token */
  lemma GrammarWords()
    ensures forall cmd :: cmd in LineGrammar ==> IsWord(cmd)
    ensures forall cmd :: cmd in CellGrammar ==> IsWord(cmd)
    ensures IsWord(Instance.short) && IsWord(Database.short) && IsWord(Collection.short)
  {
    NameCharsNotSpace("show_dbs");
    NameCharsNotSpace("show_collections");
    NameCharsNotSpace("find_one");
    NameCharsNotSpace("find");
    NameCharsNotSpace("count_documents");
    NameCharsNotSpace(Instance.short);
    NameCharsNotSpace(Database.short);
    NameCharsNotSpace(Collection.short);
  }

  /** The rendered options are tokens when the values are */
  lemma {:induction false} RenderedWords(fs: seq<Flag>, vals: map<String, String>)
    requires forall f :: f in fs ==> f.dest in vals && IsWord(f.short) && IsWord(vals[f.dest])
    ensures forall k :: 0 <= k < |RenderFlags(fs, vals)| ==> IsWord(RenderFlags(fs, vals)[k])
    decreases |fs|
  {
    if |fs| > 0 {
      RenderedWords(fs[1..], vals);
    }
  }

  /** A command line rendered from a grammar with one-token values is made of tokens */
  lemma CommandWords(g: Grammar, cmd: String, vals: map<String, String>)
    requires g == LineGrammar || g == CellGrammar
    requires cmd in g && vals.Keys == Dests(g[cmd])
    requires forall d :: d in vals ==> IsWord(vals[d])
    ensures forall k :: 0 <= k < |RenderCommand(g, cmd, vals)| ==> IsWord(RenderCommand(g, cmd, vals)[k])
  {
    GrammarWords();
    assert forall f :: f in g[cmd] ==> f == Instance || f == Database || f == Collection;
    RenderedWords(g[cmd], vals);
  }

  /** A character that no part holds, nor the separator, is not in the joined text */
  lemma {:induction false} JoinLacks(ws: seq<String>, sep: String, c: char)
    requires c !in sep && forall k :: 0 <= k < |ws| ==> c !in ws[k]
    ensures c !in Join(ws, sep)
    decreases |ws|
  {
    if |ws| > 1 {
      JoinLacks(ws[1..], sep, c);
    }
  }

  /** A joined text starts with the first part */
  lemma JoinFirst(ws: seq<String>, sep: String)
    requires |ws| > 0 && |ws[0]| > 0
    ensures |Join(ws, sep)| > 0 && Join(ws, sep)[0] == ws[0][0]
  {
  }

  /** A character of a stripped text is a character of the text */
  lemma StripSubset(s: String, c: char)
    requires c in Strip(s)
    ensures c in s
  {
    var l := LStrip(s);
    var r := RStrip(l);
    var d := |s| - |l|;
    assert l == s[d..] && r == l[..|r|];
    var k :| 0 <= k < |r| && r[k] == c;
    assert r[k] == l[k];
    assert l[k] == s[k + d];
  }

  /** A command line joined from tokens has no newline */
  lemma CommandLineOneLine(toks: seq<String>)
    requires forall k :: 0 <= k < |toks| ==> IsWord(toks[k])
    ensures '\n' !in Join(toks, " ")
  {
    forall k | 0 <= k < |toks|
      ensures '\n' !in toks[k]
    {
      assert IsSpace('\n');
    }
    JoinLacks(toks, " ", '\n');
  }

  /** A line magic whose stripped text spans several lines is refused, whatever it says */
  lemma MultiLineMagicRejected<V>(input: String, literalEval: String -> Result<V, String>)
    requires '\n' in Strip(input)
    ensures ParsedInputOf(input, "line", literalEval) == ParsedInput("line", true, Some(LineTooLong), map[])
  {
    ContainsChar(Strip(input), '\n');
    SplitWhole(Strip(input), "\n");
  }

  /** A command line rendered with one-token values parses back to its command */
  lemma RenderedCommandParses(g: Grammar, cmd: String, vals: map<String, String>)
    requires g == LineGrammar || g == CellGrammar
    requires cmd in g && vals.Keys == Dests(g[cmd])
    requires forall d :: d in vals ==> IsWord(vals[d]) && !IsOptionLike(vals[d])
    ensures forall k :: 0 <= k < |RenderCommand(g, cmd, vals)| ==> IsWord(RenderCommand(g, cmd, vals)[k])
    ensures ParseArgs(g, Words(Join(RenderCommand(g, cmd, vals), " "))) == Ok(NamespaceOf(cmd, vals))
  {
    var toks := RenderCommand(g, cmd, vals);
    CommandWords(g, cmd, vals);
    WordsOfJoin(toks);
    GrammarsWellFormed();
    ParseRenderedCommand(g, cmd, vals);
  }

  /** A command line is one line */
  lemma CommandLineLines(toks: seq<String>)
    requires forall k :: 0 <= k < |toks| ==> IsWord(toks[k])
    ensures |Lines(Join(toks, " "))| == 1
  {
    var input := Join(toks, " ");
    CommandLineOneLine(toks);
    if '\n' in Strip(input) {
      StripSubset(input, '\n');
    }
    NoCharSplit(Strip(input), '\n');
  }

  /** Round trip of the line magic: a sub-command of `%mongo` with a one-token value for
      each of its options, written out as a command line, parses to exactly that command
      and those values */
  lemma LineMagicRoundTrip<V>(cmd: String, vals: map<String, String>, literalEval: String -> Result<V, String>)
    requires cmd in LineGrammar && vals.Keys == Dests(LineGrammar[cmd])
    requires forall d :: d in vals ==> IsWord(vals[d]) && !IsOptionLike(vals[d])
    ensures ParsedInputOf(Join(RenderCommand(LineGrammar, cmd, vals), " "), "line", literalEval) ==
            ParsedInput("line", false, None, ArgsInput(NamespaceOf(cmd, vals)))
  {
    RenderedCommandParses(LineGrammar, cmd, vals);
    CommandLineLines(RenderCommand(LineGrammar, cmd, vals));
  }

  /** A command line, a newline and a one-line query are the two lines of the cell */
  lemma CellLines(toks: seq<String>, query: String)
    requires |toks| > 0 && forall k :: 0 <= k < |toks| ==> IsWord(toks[k])
    requires |query| > 0 && '\n' !in query && !IsSpace(query[|query| - 1])
    ensures Lines(Join(toks, " ") + "\n" + query) == [Join(toks, " "), query]
  {
    var line := Join(toks, " ");
    var input := line + "\n" + query;
    CommandLineOneLine(toks);
    JoinFirst(toks, " ");
    assert input[0] == line[0];
    StripUnchanged(input);
    ContainsChar(query, '\n');
    SplitInTwo(line, "\n", query);
  }

  /** A cell of exactly two lines is handled by the two-line branch */
  lemma TwoLinesTaken<V>(input: String, command: String, query: String, literalEval: String -> Result<V, String>)
    requires Lines(input) == [command, query]
    ensures CellInputOf(input, literalEval) == TwoLineCellOf(command, query, literalEval)
  {
  }

  /** A command line that parses, followed by a query that evaluates, succeeds */
  lemma TwoLineCellSucceeds<V>(command: String, ns: Namespace, query: String,
                               literalEval: String -> Result<V, String>)
    requires ParseArgs(CellGrammar, Words(command)) == Ok(ns)
    requires TransformQuery(query, literalEval).Ok?
    ensures TwoLineCellOf(command, query, literalEval) ==
            ParsedInput("cell", false, None, ArgsInput(ns)["query" := Query(TransformQuery(query, literalEval).value)])
  {
  }

  /** Round trip of the cell magic: a sub-command of `%%mongo` written out as a command
      line, then a newline and a one-line query whose pieces all evaluate, gives that
      command, those values and the evaluated query documents */
  lemma CellMagicRoundTrip<V>(cmd: String, vals: map<String, String>, query: String,
                              literalEval: String -> Result<V, String>)
    requires cmd in CellGrammar && vals.Keys == Dests(CellGrammar[cmd])
    requires forall d :: d in vals ==> IsWord(vals[d]) && !IsOptionLike(vals[d])
    requires |query| > 0 && '\n' !in query && !IsSpace(query[|query| - 1])
    requires TransformQuery(query, literalEval).Ok?
    ensures ParsedInputOf(Join(RenderCommand(CellGrammar, cmd, vals), " ") + "\n" + query, "cell", literalEval) ==
            ParsedInput("cell", false, None,
                        ArgsInput(NamespaceOf(cmd, vals))["query" := Query(TransformQuery(query, literalEval).value)])
  {
    var toks := RenderCommand(CellGrammar, cmd, vals);
    var line := Join(toks, " ");
    RenderedCommandParses(CellGrammar, cmd, vals);
    CellLines(toks, query);
    var input := line + "\n" + query;
    TwoLinesTaken(input, line, query, literalEval);
    TwoLineCellSucceeds(line, NamespaceOf(cmd, vals), query, literalEval);
    assert ParsedInputOf(input, "cell", literalEval) == CellInputOf(input, literalEval);
  }

  /** An empty cell parses as no command at all, and is refused for its missing query */
  lemma EmptyCellRefused<V>(literalEval: String -> Result<V, String>)
    ensures ParsedInputOf("", "cell", literalEval) ==
            ParsedInput("cell", true, Some(OneLine), map["command" := Arg(None)])
  {
    assert Strip("") == "";
    SplitWhole("", "\n");
    assert Words("") == [];
  }

  /** A line magic that argparse refuses gets the `%mongo` message and no input */
  lemma LineMagicInvalid<V>(input: String, literalEval: String -> Result<V, String>)
    requires |Lines(input)| == 1 && ParseArgs(LineGrammar, Words(input)).Err?
    ensures ParsedInputOf(input, "line", literalEval) == ParsedInput("line", true, Some(LineInvalid), map[])
  {
  }

  /** No option of a cell command is stored under `query` */
  lemma CellDestsLackQuery()
    ensures forall cmd :: cmd in CellGrammar ==> "query" !in Dests(CellGrammar[cmd])
  {
    assert |"query"| != |Instance.dest| && |"query"| != |Database.dest| && |"query"| != |Collection.dest|;
  }

  /** A one-line cell whose command parses is refused for its missing query, and keeps
      the parsed options, and nothing under `query`, in `input` */
  lemma OneLineCellKeepsOptions<V>(input: String, ns: Namespace, literalEval: String -> Result<V, String>)
    requires |Lines(input)| == 1 && ParseArgs(CellGrammar, Words(Lines(input)[0])) == Ok(ns)
    ensures ParsedInputOf(input, "cell", literalEval) == ParsedInput("cell", true, Some(OneLine), ArgsInput(ns))
    ensures "query" !in ParsedInputOf(input, "cell", literalEval).input
  {
    var toks := Words(Lines(input)[0]);
    if |toks| > 0 {
      CellDestsLackQuery();
    }
  }

  /** A one-line cell that argparse refuses gets the `%%mongo` message and no input */
  lemma OneLineCellInvalid<V>(input: String, literalEval: String -> Result<V, String>)
    requires |Lines(input)| == 1 && ParseArgs(CellGrammar, Words(Lines(input)[0])).Err?
    ensures ParsedInputOf(input, "cell", literalEval) == ParsedInput("cell", true, Some(CellInvalid), map[])
  {
  }

  /** A two-line cell whose command line argparse refuses gets the `%%mongo` message and
      no input, whatever its query line */
  lemma TwoLineCommandInvalid<V>(input: String, literalEval: String -> Result<V, String>)
    requires |Lines(input)| == 2 && ParseArgs(CellGrammar, Words(Lines(input)[0])).Err?
    ensures ParsedInputOf(input, "cell", literalEval) == ParsedInput("cell", true, Some(CellInvalid), map[])
  {
  }

  /** A two-line cell whose query raises while it is evaluated reports the first error
      raised, and no input */
  lemma TwoLineQueryRaises<V>(input: String, literalEval: String -> Result<V, String>)
    requires |Lines(input)| == 2 && ParseArgs(CellGrammar, Words(Lines(input)[0])).Ok?
    requires TransformQuery(Lines(input)[1], literalEval).Err?
    ensures ParsedInputOf(input, "cell", literalEval) ==
            ParsedInput("cell", true, Some(Exception(TransformQuery(Lines(input)[1], literalEval).error)), map[])
    ensures exists k :: 0 <= k < |SplitQuery(Lines(input)[1])| &&
              literalEval(SplitQuery(Lines(input)[1])[k]) == Err(TransformQuery(Lines(input)[1], literalEval).error)
  {
  }
}
