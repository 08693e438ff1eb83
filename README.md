# jupyter_mongo text handling, in Dafny

This project models the three parts of the `jupyter_mongo` notebook integration that turn
text into a command, or a result into text:

- **The accessor-chain parser** (`Mongo.parse_mongo_query`) and its gatekeeper
  (`Mongo.validateQuery`). The parser reads text such as `c['db']['col'].find({...})`,
  `db.col.find_one(...)` or `c.mydb.col.find(...)`. It produces a record holding the method
  (`find` or `find_one`), the database and collection if the chain names them, and the raw
  body text. It works by `strip`, `split`, `find` and replace-all on strings, followed by a
  fixed case table over the `.`-segments of the chain. It is modelled as methods
  (`MongoQuery.ParseMongoQuery`, `ParseCall`, `ResolveSegments`) that follow the source step
  by step. Each is proved equal to a pure specification (`ParsedQuery`, `CallRecord`,
  `ResolveChain`). Those specifications are then proved, shape by shape, to recover the
  database and collection of every chain the source documents (`MongoChains`). The
  gatekeeper `ValidateQuery` is a method whose contract gives its outcome case by case, in
  terms of `ParsedQuery`.
- **The magic-input parser** (`UserInputParser`).
  - `transform_query` splits a query line at every `}` `,` `{` boundary, with optional
    whitespace around the comma, and evaluates each piece. The regular expression is modelled
    as a left-to-right scan (`QuerySplit`).
  - `parse_input` builds the `{type, error, message, input}` record field by field. It is
    modelled as a class whose methods update that record, each proved equal to a pure
    specification (`UserInput`).
  - The two argparse parsers built by `__init__` are modelled as a grammar of sub-commands
    with required one-value options, together with a model of `parse_args` on such a grammar
    (`ArgGrammar`).
- **The response formatter** (`ResponseParser`): Markdown listings of databases and
  collections, and the rows `find_one`, `find` and `count_documents` hand to the table
  (`ResponseFormat`).

Python's string operations are modelled as the code uses them (`PyStrings`): `str.find`,
`split`, `join`, `replace`, `strip` with Python's whitespace set, `split()` with no argument,
`lower` (for ASCII letters only) and `str(n)`. Their defining properties are proved: split
and join are inverses, replace is a join of a split, and the whitespace tokenizer inverts `" ".join`.

Files: `wrappers.dfy` (Option and Result), `py_strings.dfy`, `mongo_query.dfy`,
`mongo_chains.dfy`, `query_split.dfy`, `arg_grammar.dfy`, `user_input.dfy`,
`response_format.dfy`.

## Model

| member | source | states |
|---|---|---|
| PyStrings.Find | mongo_core/mongo_full.py:176 | `s.find(p)` is -1 exactly when `p` occurs nowhere, and otherwise the lowest index where it occurs |
| PyStrings.FindZero | mongo_core/mongo_full.py:218 | `s.find(p) == 0` holds exactly when `s` starts with `p` |
| PyStrings.FindChar | mongo_core/mongo_full.py:226 | `s.find(c) >= 0` holds exactly when the character `c` occurs in `s` |
| PyStrings.SplitWhole | mongo_core/mongo_full.py:191 | a split yields one piece exactly when the separator does not occur, and that piece is the whole text |
| PyStrings.SplitJoin | mongo_core/mongo_full.py:180 | joining the pieces of `s.split(sep)` with `sep` gives `s` back |
| PyStrings.SplitPiecesFree | mongo_core/mongo_full.py:207 | no piece of a split contains the separator |
| PyStrings.SplitCharConcat | mongo_core/mongo_full.py:207 | splitting on one character distributes over text joined by that character |
| PyStrings.ReplaceIsJoinOfSplit | mongo_core/mongo_full.py:205 | `s.replace(pat, rep)`, a left-to-right scan, equals `rep.join(s.split(pat))` |
| PyStrings.ReplaceAbsent | mongo_core/mongo_full.py:205 | replacing a pattern that does not occur changes nothing |
| PyStrings.RemoveChar | mongo_core/mongo_full.py:223 | removing every quote character leaves no quote and keeps every other character |
| PyStrings.ReplaceCharConcat | mongo_core/mongo_full.py:223-224 | replacing a one-character pattern distributes over concatenation |
| PyStrings.LStrip | mongo_core/mongo_full.py:165 | the result is a suffix of the text; everything dropped is whitespace; the result starts with a non-space |
| PyStrings.RStrip | mongo_core/mongo_full.py:165 | the result is a prefix of the text; everything dropped is whitespace; the result ends with a non-space |
| PyStrings.Strip | mongo_core/mongo_full.py:165 | the result has no whitespace at either end, and text without such whitespace is left alone |
| PyStrings.StripIdempotent | mongo_core/mongo_full.py:165 | stripping twice is stripping once |
| PyStrings.StripKeepsNonSpace | mongo_core/mongo_full.py:165 | stripping keeps exactly the non-space characters the text has |
| PyStrings.Lower | mongo_core/mongo_full.py:195 | `lower()` keeps the length and lowers each character in place |
| PyStrings.LowerOfLower | mongo_core/mongo_full.py:195 | text without capitals is its own lower case |
| PyStrings.WordEnd | mongo_utils/user_input_parser.py:120 | the first token of `split()` ends at the first whitespace |
| PyStrings.WordsOfJoin | mongo_utils/user_input_parser.py:120 | `" ".join(ws).split()` gives back `ws` when every element is a whitespace-free token |
| PyStrings.NatToString | mongo_utils/user_input_parser.py:155-156 | `str(n)` is non-empty, all digits and has no leading zero |
| PyStrings.NatToStringRoundTrip | mongo_utils/user_input_parser.py:155-156 | reading back the decimal text of `n` gives `n` |
| MongoQuery.DropLast | mongo_core/mongo_full.py:181 | `s[0:-1]` with the dropped last character restores `s`; empty text stays empty |
| MongoQuery.ParenFound | mongo_core/mongo_full.py:165-180 | the stripped query has a `(` exactly when the query has one, and then the split at `(` has at least two pieces |
| MongoQuery.ResolveChain | mongo_core/mongo_full.py:217-262 | a database is named only together with a collection; zero, or four or more, segments name neither; one segment starting with neither `c` nor `db` names neither |
| MongoQuery.ResolveSegments | mongo_core/mongo_full.py:205-262 | the branch cascade that reassigns `db_provided` and `col_provided` computes the chain resolution of the `.find`-stripped segments |
| MongoQuery.ParsedQuery | mongo_core/mongo_full.py:160-263 | no `(` gives None; a result holds `find` or `find_one`, the body (second `(`-piece less its last character), the value the body evaluated to, and a database only with a collection |
| MongoQuery.CallRecord | mongo_core/mongo_full.py:190-263 | a record exists exactly when the last `.`-segment, lowered and stripped, is `find` or `find_one`; it then carries that method and the chain resolution |
| MongoQuery.ParseMongoQuery | mongo_core/mongo_full.py:160-263 | the step-by-step parse returns exactly `ParsedQuery` |
| MongoQuery.ParseCall | mongo_core/mongo_full.py:190-263 | the method check and chain resolution return exactly `CallRecord` |
| MongoQuery.ValidateQuery | mongo_core/mongo_full.py:267-291 | `use`, `curdb` and `listdbs` pass unparsed; a missing instance raises `KeyError`; an unparsed query raises `TypeError` at the subscript of None; otherwise it runs exactly when a collection was found |
| MongoQuery.ValidateQueryIntended | mongo_core/mongo_full.py:283-291 | never raises `TypeError`; raises only for a missing instance; returns True exactly for admin commands or a parse that names a collection |
| MongoChains.QuotedName | mongo_core/mongo_full.py:223-224 | removing every `'` and then every `"` from a quoted name gives the name |
| MongoChains.OneClientIndexIndex | mongo_core/mongo_full.py:218-224 | `c[<db>][<col>]` resolves to that database and collection, quotes or not |
| MongoChains.ResolveClientIndexIndex | mongo_core/mongo_full.py:217-224 | the dot-split of `c[<db>][<col>]` resolves to that database and collection |
| MongoChains.OneAliasIndex | mongo_core/mongo_full.py:225-227 | `db[<col>]` resolves to that collection and no database |
| MongoChains.ResolveAliasIndex | mongo_core/mongo_full.py:217-227 | the dot-split of `db[<col>]` resolves to that collection and no database |
| MongoChains.ResolveClientAlias | mongo_core/mongo_full.py:234-236 | `c.db` names neither database nor collection |
| MongoChains.ResolveClientAliasIndex | mongo_core/mongo_full.py:237-240 | `c.db[<col>]` names that collection and no database |
| MongoChains.ResolveClientIndexDot | mongo_core/mongo_full.py:241-244 | `c[<db>].<col>` names that database and collection |
| MongoChains.ResolveAliasDot | mongo_core/mongo_full.py:245-246 | `db.<col>` names that collection and no database |
| MongoChains.ResolveClientAliasDot | mongo_core/mongo_full.py:251-253 | `c.db.<col>` names that collection and no database |
| MongoChains.ResolveClientDotDot | mongo_core/mongo_full.py:254-256 | `c.<db>.<col>` with `<db>` other than `db` names that database and collection |
| MongoChains.ResolveTable | mongo_core/mongo_full.py:217-262 | every documented chain shape resolves to the database and collection it names |
| MongoChains.CallMethodName | mongo_core/mongo_full.py:190-201 | the method read from `<chain>.<m>(<body>)` is `m` |
| MongoChains.CallBody | mongo_core/mongo_full.py:180-181 | a body without `(` is read back whole |
| MongoChains.CallChainSegments | mongo_core/mongo_full.py:205-207 | for a chain without `.find`, the segments read are the chain's own dot-split |
| MongoChains.WellFormedCall | mongo_core/mongo_full.py:180-207 | a well-formed call parses into its body, its method and its chain's segments |
| MongoChains.ParseTable | mongo_core/mongo_full.py:160-263 | a documented chain called with `find` or `find_one` on a body that evaluates parses into the record naming that chain's database and collection |
| MongoChains.FindPrefixedChainCollapses | mongo_core/mongo_full.py:205-207 | replace-all of `.find` collapses `db.find<t>.find(...)` to the single segment `db<t>` |
| MongoChains.FindPrefixedCollectionLost | mongo_core/mongo_full.py:205-207 | `db.find<t>.find(...)` names collection `find<t>`, yet the parse finds no collection; dropping only the method segment finds it |
| MongoChains.SuffixOnlyCall | mongo_core/mongo_full.py:205-207 | dropping only the trailing method segment recovers the chain's segments, `.find`-prefixed names included |
| MongoChains.SuffixOnlyTable | mongo_core/mongo_full.py:205-262 | with only the method segment dropped, every documented chain resolves as documented |
| MongoChains.BodyCutAtInnerParen | mongo_core/mongo_full.py:180-181 | a body holding `(` is cut at it and loses the character before it, while the intended body is the whole text |
| MongoChains.ObjectIdBodyCut | mongo_core/mongo_full.py:180-181 | `db.users.find({'_id': ObjectId('x')})` yields the body `{'_id': ObjectI` |
| MongoChains.BodyIntendedOfCall | mongo_core/mongo_full.py:180-181 | the text after the first `(`, less the closing `)`, is the whole body, parentheses included |
| MongoChains.FirstTokenOf | mongo_core/mongo_full.py:272-274 | the first space-separated token of `<w> <rest>` is `w` |
| MongoChains.NonAdminWithoutParen | mongo_core/mongo_full.py:274-287 | a query such as `show dbs` is no admin command and parses to None, so `validateQuery` reaches the subscript of None |
| QuerySplit.WsRun | mongo_utils/user_input_parser.py:85 | `\s{0,}` takes the whole leading run of whitespace and stops at the first non-space |
| QuerySplit.SepLen | mongo_utils/user_input_parser.py:85 | a match at the start is whitespace, one comma and whitespace, and is followed by `{` |
| QuerySplit.SeparatorMatches | mongo_utils/user_input_parser.py:85 | a separator followed by `{` is matched whole |
| QuerySplit.SepLenExtend | mongo_utils/user_input_parser.py:85 | a match that starts in a text ending in `}` lies inside that text |
| QuerySplit.Pieces | mongo_utils/user_input_parser.py:85 | the split yields at least one piece |
| QuerySplit.Seps | mongo_utils/user_input_parser.py:85 | there is one removed separator fewer than there are pieces |
| QuerySplit.Reassemble | mongo_utils/user_input_parser.py:85 | weaving the removed separators back between the pieces gives the query back |
| QuerySplit.SepsAreSeparators | mongo_utils/user_input_parser.py:85 | every removed separator is whitespace, one comma, whitespace |
| QuerySplit.PiecesEndWithBrace | mongo_utils/user_input_parser.py:85 | every piece but the last ends with `}`, except an empty first piece right after a `}` |
| QuerySplit.PiecesStartWithBrace | mongo_utils/user_input_parser.py:85 | every piece but the first starts with `{` |
| QuerySplit.OnePieceIffNoSplit | mongo_utils/user_input_parser.py:85 | one piece exactly when no separator is found, and then the piece is the whole query |
| QuerySplit.SplitAfterBrace | mongo_utils/user_input_parser.py:85 | a separator right after a `}` is taken, and the scan restarts on `{` |
| QuerySplit.GlueNoSplitPrefix | mongo_utils/user_input_parser.py:85 | a prefix without a split point that ends in `}` joins the first piece of what follows |
| QuerySplit.SplitAtFirstSeparator | mongo_utils/user_input_parser.py:85 | the first separator splits the query there, whatever the nesting of brackets around it |
| ArgGrammar.NotNegativeNumber | mongo_utils/user_input_parser.py:24 | a token whose second character is neither a digit nor `.` is not read as a negative number |
| ArgGrammar.Lookup | mongo_utils/user_input_parser.py:24-56 | a token finds the declared option whose short or long string it equals, or none when it equals none |
| ArgGrammar.ParseFlags | mongo_utils/user_input_parser.py:120 | a successful parse keeps the keys seen before and adds only declared destinations |
| ArgGrammar.MissingDests | mongo_utils/user_input_parser.py:24-56 | the list of missing required destinations is empty exactly when every option got a value |
| ArgGrammar.NamespaceOf | mongo_utils/user_input_parser.py:121 | the namespace holds `command` and exactly the parsed values |
| ArgGrammar.ParseArgs | mongo_utils/user_input_parser.py:120 | no tokens give `command=None`; an unknown sub-command is an error; success names the command, a value for every required option, and no other key |
| ArgGrammar.AllFlagsWellFormed | mongo_utils/user_input_parser.py:36-41 | `-i/--instance`, `-d/--database` and `-c/--collection` are distinct option strings and destinations, each read as an option |
| ArgGrammar.ThreeFlagsWellFormed | mongo_utils/user_input_parser.py:36-56 | three options that share no string or destination and are read as options are well formed together |
| ArgGrammar.GrammarsWellFormed | mongo_utils/user_input_parser.py:20-56 | every sub-command of both parsers has well-formed options |
| ArgGrammar.LookupOwn | mongo_utils/user_input_parser.py:24-56 | among well-formed options, the short and the long option string each find their own option |
| ArgGrammar.ParseRenderedFlags | mongo_utils/user_input_parser.py:120 | parsing rendered option tokens sets exactly those options' values |
| ArgGrammar.OverlayAll | mongo_utils/user_input_parser.py:121 | setting every option of a command from `vals` gives `vals` back |
| ArgGrammar.ParseRenderedCommand | mongo_utils/user_input_parser.py:120 | a command rendered with a value for each option parses back to exactly that namespace |
| ArgGrammar.AbsentFlagUnset | mongo_utils/user_input_parser.py:120 | an option whose strings never occur gets no value |
| ArgGrammar.MissingFlagRejected | mongo_utils/user_input_parser.py:24-56 | every option is required: a command line that never names one is refused |
| ArgGrammar.AssignContents | mongo_utils/user_input_parser.py:120 | after options given in turn, each destination holds the value of the last option given for it, or else its earlier value; no other key appears |
| ArgGrammar.ParseGivenPrefix | mongo_utils/user_input_parser.py:120 | options given in any order, by short or long string, are read one after the other, and parsing goes on with what follows them |
| ArgGrammar.ParseGiven | mongo_utils/user_input_parser.py:120 | options given in any order parse, each destination holding the last value given for it |
| ArgGrammar.UnknownOptionRejected | mongo_utils/user_input_parser.py:120 | a token naming no option, after any options given, is refused as unrecognized |
| ArgGrammar.MissingValueRejected | mongo_utils/user_input_parser.py:120 | an option at the end of the line, or followed by an option string, is refused for lacking its one argument |
| ArgGrammar.ParseGivenCommand | mongo_utils/user_input_parser.py:24-56 | a command with options given in any order parses exactly when every required option is given, and then holds the last value given for each |
| UserInput.EvalAll | mongo_utils/user_input_parser.py:86 | success exactly when every piece evaluates, then the values in order; otherwise the first piece's error |
| UserInput.Spaces | mongo_utils/user_input_parser.py:116-117 | the continuation indentation is `n` spaces |
| UserInput.LineCountTextInjective | mongo_utils/user_input_parser.py:155-156 | the line count a cell-magic message reports can be read back from it |
| UserInput.ExceptionTextInjective | mongo_utils/user_input_parser.py:165 | the exception text a message reports can be read back from it |
| UserInput.ArgsInput | mongo_utils/user_input_parser.py:121 | `vars(namespace)` has the namespace's keys with the same values |
| UserInput.LineInputOf | mongo_utils/user_input_parser.py:112-126 | the record is of type `line`, it has a message exactly when it is an error, and success implies one line |
| UserInput.TwoLineCellOf | mongo_utils/user_input_parser.py:142-165 | the record is of type `cell`, it has a message exactly when it is an error, and success carries `query` |
| UserInput.CellInputOf | mongo_utils/user_input_parser.py:129-166 | success implies two lines and a `query`; one line is always an error; more lines give the count message and an empty `input` |
| UserInput.ParsedInputOf | mongo_utils/user_input_parser.py:93-167 | `type` is echoed; error exactly when a message is set; other types leave the initial record |
| UserInput.UserInputParser.constructor | mongo_utils/user_input_parser.py:11-56 | the object holds the line and cell grammars `__init__` declares |
| UserInput.UserInputParser.ParseInput | mongo_utils/user_input_parser.py:93-167 | the record built field by field is exactly `ParsedInputOf` |
| UserInput.UserInputParser.ParseLine | mongo_utils/user_input_parser.py:112-126 | the line branch builds exactly `LineInputOf` |
| UserInput.UserInputParser.ParseTwoLineCell | mongo_utils/user_input_parser.py:142-165 | the two-line branch builds exactly `TwoLineCellOf` |
| UserInput.UserInputParser.ParseCell | mongo_utils/user_input_parser.py:129-166 | the cell branch builds exactly `CellInputOf` |
| UserInput.GrammarWords | mongo_utils/user_input_parser.py:20-56 | every sub-command name and option string is a single token |
| UserInput.CommandWords | mongo_utils/user_input_parser.py:120 | a command line rendered with one-token values is made of tokens |
| UserInput.StripSubset | mongo_utils/user_input_parser.py:114 | a character of the stripped input is a character of the input |
| UserInput.CommandLineOneLine | mongo_utils/user_input_parser.py:114 | a command line joined from tokens has no newline |
| UserInput.MultiLineMagicRejected | mongo_utils/user_input_parser.py:114-117 | a line magic whose stripped text spans several lines is refused with the line message, whatever it says |
| UserInput.RenderedCommandParses | mongo_utils/user_input_parser.py:120 | the tokens of a rendered command line parse back to its namespace |
| UserInput.CommandLineLines | mongo_utils/user_input_parser.py:114 | a command line is one line |
| UserInput.LineMagicRoundTrip | mongo_utils/user_input_parser.py:112-121 | a `%mongo` sub-command written out with its options parses back into an error-free record holding them |
| UserInput.CellLines | mongo_utils/user_input_parser.py:132 | a command line, a newline and a one-line query are the two lines of the cell |
| UserInput.TwoLinesTaken | mongo_utils/user_input_parser.py:142 | a cell of exactly two lines takes the two-line branch |
| UserInput.TwoLineCellSucceeds | mongo_utils/user_input_parser.py:142-151 | a command line that parses, followed by a query that evaluates, gives the options plus `query` |
| UserInput.CellMagicRoundTrip | mongo_utils/user_input_parser.py:129-151 | a `%%mongo` sub-command written out with its options and a query line parses back into the options and the evaluated documents |
| UserInput.EmptyCellRefused | mongo_utils/user_input_parser.py:132-140 | an empty cell parses as no command, and is refused for its missing query with `command=None` kept in `input` |
| UserInput.LineMagicInvalid | mongo_utils/user_input_parser.py:119-126 | a one-line magic that argparse refuses is an error with the `%mongo` message and an empty `input` |
| UserInput.CellDestsLackQuery | mongo_utils/user_input_parser.py:34-56 | no option of a cell command is stored under `query` |
| UserInput.OneLineCellKeepsOptions | mongo_utils/user_input_parser.py:135-140 | a one-line cell whose command parses is an error with the missing-query message, and `input` holds the parsed options and no `query` |
| UserInput.OneLineCellInvalid | mongo_utils/user_input_parser.py:135-161 | a one-line cell that argparse refuses is an error with the `%%mongo` message and an empty `input` |
| UserInput.TwoLineCommandInvalid | mongo_utils/user_input_parser.py:142-161 | a two-line cell whose command line argparse refuses is an error with the `%%mongo` message and an empty `input`, whatever its query |
| UserInput.TwoLineQueryRaises | mongo_utils/user_input_parser.py:142-165 | a two-line cell whose query raises is an error carrying the text of the first exception a piece raised, with an empty `input` |
| ResponseFormat.BulletRows | mongo_utils/api_response_parser.py:34 | one line `* name` per name, in order |
| ResponseFormat.BulletLines | mongo_utils/api_response_parser.py:34 | the bullet text read line by line is `* name` per name, then whatever follows |
| ResponseFormat.ListingLines | mongo_utils/api_response_parser.py:36-38 | a listing read line by line is the title, `***`, one bullet per name, and a blank line |
| ResponseFormat.ShowDbsLines | mongo_utils/api_response_parser.py:32-40 | `show_dbs` is the title naming the instance, `***`, `* name` per database in order, and a blank line: `n + 4` lines |
| ResponseFormat.ShowCollectionsLines | mongo_utils/api_response_parser.py:52-61 | `show_collections` is the title naming database and instance, `***`, `* name` per collection in order, and a blank line |
| ResponseFormat.EmptyListing | mongo_utils/api_response_parser.py:34-38 | an empty listing is the header followed by a blank line |
| ResponseFormat.FindOneWraps | mongo_utils/api_response_parser.py:63-74 | `find_one` is a table of one row holding the document unchanged |
| ResponseFormat.FindPassesThrough | mongo_utils/api_response_parser.py:76-86 | `find` passes the documents through unchanged and in order |
| ResponseFormat.CountWraps | mongo_utils/api_response_parser.py:88-101 | `count_documents` is a table of one row `{"count": n}` |
| ResponseFormat.Handler | mongo_utils/api_response_parser.py:19-20 | no command is an error, as is a name that is no formatter; Markdown comes only from the two listings |
| ResponseFormat.HandlerDispatches | mongo_utils/api_response_parser.py:19-20 | `_handler` returns exactly what the formatter named by `command` returns |

## Left out

- `Mongo.customAuth`, `Mongo.customQuery`, the auth helpers, `mongo_utils/mongo_api.py`, the IPython magic registration and the help texts are connection and notebook code. They are not part of this model.
- Printing: the messages `parse_mongo_query` and `validateQuery` print, the `debug` output, and argparse's usage and help text on stderr are left out. Only the returned values are modelled.
- `eval(q_str)` and `ast.literal_eval` evaluate Python literal syntax. They are parameters: `eval` returns a value or None (the bare `except`), and `literalEval` returns a value or the text of the exception it raised. No literal grammar is modelled.
- `json.loads(json.dumps(q))` on a `str` gives the same text back, so each piece is handed to `literalEval` unchanged.
- `self.instances[instance]['last_query']` is the parameter `lastQuery`; None stands for the `KeyError` of a missing instance. The comparison with it only sets `bReRun`, which nothing reads, so it is left out.
- PyStrings.Lower: lower-cases ASCII letters only. Python's full Unicode case mapping is left out; it makes no difference to whether the method is `find` or `find_one`, since no non-ASCII character lowers to exactly one of the characters of those two names. (Some do lower to ASCII: U+212A KELVIN SIGN lowers to `k`, and U+0130 lowers to `i` followed by U+0307.)
- ArgGrammar.ParseArgs: models only the declared sub-commands and required one-value options. Prefix abbreviations, `-iVALUE`, `--instance=VALUE`, `--`, `-h`/`--help` and the order in which argparse reports several errors are left out. A negative number is recognised with ASCII digits only; argparse's pattern also accepts other Unicode decimal digits, so a value such as `-٣` is read as a missing argument here. Every failure is one `SystemExit`, and the model keeps only its cause.
- `display_help` (it refers to a `self.parser` that does not exist) and the `dir(MongoAPI)` introspection behind `valid_commands` are left out.
- ResponseFormat.Handler: a response of another shape than the named formatter takes is the error `ShapeMismatch`. Python would go on and iterate or wrap whatever it was given.
- `parse_input` messages are the datatype `Message`, rendered character for character by `Text`. The lemmas show that the count and the exception text can be read back from their messages. That messages of different kinds differ is not proved.
- The unused `dot_split` and `q_builder` initialisation in `parse_mongo_query` are left out, since they do not affect the result.
- Integers are unbounded, as Python's are, so the `count` of `count_documents` and the line count need no width.

## Findings

| source | as written | input that shows it | evidently intended | confidence | as-written member | corrected member |
|---|---|---|---|---|---|---|
| mongo_core/mongo_full.py:205-207 | `.replace(".find", "")` removes every `.find`, including one that starts a collection name, so the chain collapses | `db.findings.find({})` | remove only the trailing method segment, so `findings` is the collection | high; not executed | MongoChains.FindPrefixedCollectionLost | MongoChains.SuffixOnlyTable |
| mongo_core/mongo_full.py:180-181 | the body is the text between the first and second `(`, less its last character, so a body holding `(` is cut short | `db.users.find({'_id': ObjectId('x')})` gives the body `{'_id': ObjectI` | the body is everything after the first `(`, less the closing `)` | high; not executed | MongoChains.ObjectIdBodyCut | MongoChains.BodyIntendedOfCall |
| mongo_core/mongo_full.py:283-287 | after finding that `q_dict` is None, the code goes on to subscript `q_dict['col_provided']`, which raises `TypeError` | `show dbs` for an instance with a recorded last query | refuse the query by returning False | high; not executed | MongoChains.NonAdminWithoutParen | MongoQuery.ValidateQueryIntended |
