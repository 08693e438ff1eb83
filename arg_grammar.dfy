/** The two argparse parsers `UserInputParser.__init__` builds: `%mongo` (line magic) with
    the sub-commands `show_dbs` and `show_collections`, and `%%mongo` (cell magic) with
    `find_one`, `find` and `count_documents`. Each sub-command takes only required
    options with one value each. `ParseArgs` models `parse_args` on such a grammar: it
    returns the namespace or the error that makes argparse exit. */
module ArgGrammar {
  import opened Wrappers
  import opened PyStrings

  /** One `add_argument(short, long, required=True)` */
  datatype Flag = Flag(short: String, long: String, dest: String)

  const Instance := Flag("-i", "--instance", "instance")
  const Database := Flag("-d", "--database", "database")
  const Collection := Flag("-c", "--collection", "collection")

  /** A parser with sub-commands: each command and its required options */
  type Grammar = map<String, seq<Flag>>

  /** `line_parser` */
  const LineGrammar: Grammar :=
    map["show_dbs" := [Instance], "show_collections" := [Instance, Database]]

  /** `cell_parser` */
  const CellGrammar: Grammar :=
    map["find_one" := [Instance, Database, Collection],
        "find" := [Instance, Database, Collection],
        "count_documents" := [Instance, Database, Collection]]

  /** The causes for which argparse prints a usage message and exits */
  datatype ArgError =
    | InvalidChoice(token: String)
    | ExpectedOneArgument(option: String)
    | Unrecognized(token: String)
    | MissingRequired(dests: seq<String>)

  /** `Namespace(command=..., instance=..., ...)` */
  type Namespace = map<String, Option<String>>

  /** `-\d+` or `-\d*\.\d+`: argparse reads such a token as a value, not an option */
  predicate IsNegativeNumber(t: String) {
    |t| >= 2 && t[0] == '-' &&
    (IsDigits(t[1..]) ||
     exists k :: 1 <= k < |t| - 1 && t[k] == '.' && IsDigits(t[1..k]) && IsDigits(t[k + 1..]))
  }

  /** A token whose second character is neither a digit nor `.` is no negative number */
  lemma NotNegativeNumber(t: String)
    requires |t| >= 2 && !('0' <= t[1] <= '9') && t[1] != '.'
    ensures !IsNegativeNumber(t)
  {
    assert t[1..][0] == t[1];
    forall k | 1 < k < |t| - 1
      ensures !IsDigits(t[1..k])
    {
      assert t[1..k][0] == t[1];
    }
  }

  /** A token argparse classifies as an option string: it starts with `-`, is not `-`
      alone, not a negative number and has no space in it */
  predicate IsOptionLike(t: String) {
    |t| > 1 && t[0] == '-' && !IsNegativeNumber(t) && ' ' !in t
  }

  /** The destinations of a command's options */
  function Dests(flags: seq<Flag>): set<String>
  {
    set f | f in flags :: f.dest
  }

  /** The option a token names exactly, if any */
  function Lookup(flags: seq<Flag>, t: String): (r: Option<Flag>)
    ensures r.Some? ==> r.value in flags && (t == r.value.short || t == r.value.long)
    ensures r.None? ==> forall f :: f in flags ==> t != f.short && t != f.long
  {
    if |flags| == 0 then None
    else if t == flags[0].short || t == flags[0].long then Some(flags[0])
    else Lookup(flags[1..], t)
  }

  /** The options after the command: each option takes the next token as its value (a
      later occurrence overrides an earlier one); any other token is an error */
  function ParseFlags(flags: seq<Flag>, toks: seq<String>, acc: map<String, String>)
    : (r: Result<map<String, String>, ArgError>)
    ensures r.Ok? ==> acc.Keys <= r.value.Keys
    ensures r.Ok? ==> r.value.Keys <= acc.Keys + Dests(flags)
    decreases |toks|
  {
    if |toks| == 0 then Ok(acc)
    else match Lookup(flags, toks[0])
      case Some(f) =>
        if |toks| < 2 || IsOptionLike(toks[1]) then Err(ExpectedOneArgument(toks[0]))
        else ParseFlags(flags, toks[2..], acc[f.dest := toks[1]])
      case None => Err(Unrecognized(toks[0]))
  }

  /** The destinations of required options that were not given, in declaration order */
  function MissingDests(flags: seq<Flag>, vals: map<String, String>): (r: seq<String>)
    ensures |r| == 0 <==> forall f :: f in flags ==> f.dest in vals
    ensures forall d :: d in r ==> d !in vals
  {
    if |flags| == 0 then []
    else (if flags[0].dest in vals then [] else [flags[0].dest]) + MissingDests(flags[1..], vals)
  }

  /** The namespace of a successful parse */
  function NamespaceOf(cmd: String, vals: map<String, String>): (ns: Namespace)
    ensures ns.Keys == vals.Keys + {"command"} && ns["command"] == Some(cmd)
    ensures forall d :: d in vals && d != "command" ==> ns[d] == Some(vals[d])
  {
    (map d | d in vals :: Some(vals[d]))["command" := Some(cmd)]
  }

  /** `parser.parse_args(toks)` for a parser with sub-commands. Sub-commands are not
      required, so no tokens at all give `Namespace(command=None)` */
  function ParseArgs(g: Grammar, toks: seq<String>): (r: Result<Namespace, ArgError>)
    ensures |toks| == 0 ==> r == Ok(map["command" := None])
    ensures |toks| > 0 && toks[0] !in g ==> r.Err?
    ensures r.Ok? && |toks| > 0 ==>
              toks[0] in g && "command" in r.value && r.value["command"] == Some(toks[0]) &&
              forall f :: f in g[toks[0]] ==> f.dest in r.value && r.value[f.dest].Some?
    ensures r.Ok? && |toks| > 0 ==> r.value.Keys == Dests(g[toks[0]]) + {"command"}
  {
    if |toks| == 0 then Ok(map["command" := None])
    else if toks[0] !in g then
      if IsOptionLike(toks[0]) then Err(Unrecognized(toks[0])) else Err(InvalidChoice(toks[0]))
    else match ParseFlags(g[toks[0]], toks[1..], map[])
      case Err(e) => Err(e)
      case Ok(vals) =>
        var missing := MissingDests(g[toks[0]], vals);
        if |missing| > 0 then Err(MissingRequired(missing))
        else Ok(NamespaceOf(toks[0], vals))
  }

  /** The options of a command: distinct option strings and destinations, each an option
      string argparse recognises as such */
  predicate WellFormedFlags(flags: seq<Flag>) {
    (forall i, j :: 0 <= i < j < |flags| ==>
      flags[i].dest != flags[j].dest &&
      flags[i].short != flags[j].short && flags[i].short != flags[j].long &&
      flags[i].long != flags[j].short && flags[i].long != flags[j].long) &&
    (forall i :: 0 <= i < |flags| ==> IsOptionLike(flags[i].short) && IsOptionLike(flags[i].long))
  }

  predicate WellFormedGrammar(g: Grammar) {
    forall cmd :: cmd in g ==> WellFormedFlags(g[cmd])
  }

  /** Both option strings of a flag are recognised as option strings */
  predicate OptionStrings(f: Flag) {
    IsOptionLike(f.short) && IsOptionLike(f.long)
  }

  lemma InstanceOptionStrings()
    ensures OptionStrings(Instance)
  {
    NotNegativeNumber(Instance.short);
    NotNegativeNumber(Instance.long);
  }

  lemma DatabaseOptionStrings()
    ensures OptionStrings(Database)
  {
    NotNegativeNumber(Database.short);
    NotNegativeNumber(Database.long);
  }

  lemma CollectionOptionStrings()
    ensures OptionStrings(Collection)
  {
    NotNegativeNumber(Collection.short);
    NotNegativeNumber(Collection.long);
  }

  lemma AllFlagsWellFormed()
    ensures WellFormedFlags([Instance, Database, Collection])
  {
    InstanceOptionStrings();
    DatabaseOptionStrings();
    CollectionOptionStrings();
    assert Apart(Instance, Database) && Apart(Instance, Collection) && Apart(Database, Collection);
    ThreeFlagsWellFormed(Instance, Database, Collection);
  }

  /** Two options share neither an option string nor a destination */
  predicate Apart(f: Flag, g: Flag) {
    f.dest != g.dest && f.short != g.short && f.short != g.long &&
    f.long != g.short && f.long != g.long
  }

  lemma ThreeFlagsWellFormed(a: Flag, b: Flag, c: Flag)
    requires OptionStrings(a) && OptionStrings(b) && OptionStrings(c)
    requires Apart(a, b) && Apart(a, c) && Apart(b, c)
    ensures WellFormedFlags([a, b, c])
  {
  }

  /** Leading options of well-formed options are well formed */
  lemma WellFormedPrefix(flags: seq<Flag>, k: nat)
    requires WellFormedFlags(flags) && k <= |flags|
    ensures WellFormedFlags(flags[..k])
  {
  }

  /** Both parsers the magics use are well formed */
  lemma GrammarsWellFormed()
    ensures WellFormedGrammar(LineGrammar) && WellFormedGrammar(CellGrammar)
  {
    var all := [Instance, Database, Collection];
    AllFlagsWellFormed();
    WellFormedPrefix(all, 1);
    WellFormedPrefix(all, 2);
    assert all[..1] == [Instance];
    assert all[..2] == [Instance, Database];
  }

  /** The tokens that give every option of `fs` its value from `vals`, short forms */
  function RenderFlags(fs: seq<Flag>, vals: map<String, String>): seq<String>
    requires forall f :: f in fs ==> f.dest in vals
  {
    if |fs| == 0 then [] else [fs[0].short, vals[fs[0].dest]] + RenderFlags(fs[1..], vals)
  }

  /** `acc` with the options of `fs` set from `vals`, in order */
  function Overlay(acc: map<String, String>, fs: seq<Flag>, vals: map<String, String>): map<String, String>
    requires forall f :: f in fs ==> f.dest in vals
    decreases |fs|
  {
    if |fs| == 0 then acc else Overlay(acc[fs[0].dest := vals[fs[0].dest]], fs[1..], vals)
  }

  lemma {:induction false} OverlayContents(acc: map<String, String>, fs: seq<Flag>, vals: map<String, String>)
    requires forall f :: f in fs ==> f.dest in vals
    ensures forall d :: d in Overlay(acc, fs, vals) <==> d in acc || exists f :: f in fs && f.dest == d
    ensures forall f :: f in fs ==> Overlay(acc, fs, vals)[f.dest] == vals[f.dest]
    ensures forall d :: d in acc && (forall f :: f in fs ==> f.dest != d) ==> Overlay(acc, fs, vals)[d] == acc[d]
    decreases |fs|
  {
    if |fs| > 0 {
      OverlayContents(acc[fs[0].dest := vals[fs[0].dest]], fs[1..], vals);
      assert forall f :: f in fs ==> f == fs[0] || f in fs[1..];
    }
  }

  /** Parsing the rendered options of a suffix `fs` of the command's options sets exactly
      those options */
  lemma {:induction false} ParseRenderedFlags(flags: seq<Flag>, k: nat, vals: map<String, String>,
                                              acc: map<String, String>)
    requires WellFormedFlags(flags) && k <= |flags|
    requires forall f :: f in flags ==> f.dest in vals && !IsOptionLike(vals[f.dest])
    ensures ParseFlags(flags, RenderFlags(flags[k..], vals), acc) == Ok(Overlay(acc, flags[k..], vals))
    decreases |flags| - k
  {
    if k < |flags| {
      var f := flags[k];
      var toks := RenderFlags(flags[k..], vals);
      assert flags[k..][1..] == flags[k + 1..];
      assert toks == [f.short, vals[f.dest]] + RenderFlags(flags[k + 1..], vals);
      LookupOwn(flags, k);
      assert toks[2..] == RenderFlags(flags[k + 1..], vals);
      ParseRenderedFlags(flags, k + 1, vals, acc[f.dest := vals[f.dest]]);
    }
  }

  /** Either option string of well-formed options finds its own option */
  lemma {:induction false} LookupOwn(flags: seq<Flag>, k: nat)
    requires WellFormedFlags(flags) && k < |flags|
    ensures Lookup(flags, flags[k].short) == Some(flags[k])
    ensures Lookup(flags, flags[k].long) == Some(flags[k])
    decreases k
  {
    if k > 0 {
      assert WellFormedFlags(flags[1..]);
      assert flags[1..][k - 1] == flags[k];
      LookupOwn(flags[1..], k - 1);
    }
  }

  /** The command line that requests `cmd` with option values `vals` */
  function RenderCommand(g: Grammar, cmd: String, vals: map<String, String>): seq<String>
    requires cmd in g && forall f :: f in g[cmd] ==> f.dest in vals
  {
    [cmd] + RenderFlags(g[cmd], vals)
  }

  /** Setting every option of a command from `vals` gives `vals` back */
  lemma OverlayAll(flags: seq<Flag>, vals: map<String, String>)
    requires vals.Keys == Dests(flags)
    ensures Overlay(map[], flags, vals) == vals
  {
    OverlayContents(map[], flags, vals);
    var o := Overlay(map[], flags, vals);
    assert o.Keys == vals.Keys;
    forall d | d in o
      ensures o[d] == vals[d]
    {
      var f :| f in flags && f.dest == d;
    }
  }

  /** Round trip: rendering a command with a value for each of its options (values that do
      not look like options) and parsing it back gives exactly that command and those
      values */
  lemma ParseRenderedCommand(g: Grammar, cmd: String, vals: map<String, String>)
    requires WellFormedGrammar(g) && cmd in g
    requires vals.Keys == Dests(g[cmd])
    requires forall d :: d in vals ==> !IsOptionLike(vals[d])
    ensures ParseArgs(g, RenderCommand(g, cmd, vals)) == Ok(NamespaceOf(cmd, vals))
  {
    var flags := g[cmd];
    var toks := RenderCommand(g, cmd, vals);
    assert flags[0..] == flags;
    assert toks[1..] == RenderFlags(flags, vals);
    ParseRenderedFlags(flags, 0, vals, map[]);
    OverlayAll(flags, vals);
    assert ParseFlags(flags, toks[1..], map[]) == Ok(vals);
    assert MissingDests(flags, vals) == [];
  }

  /** An option whose option strings never occur gets no value */
  lemma {:induction false} AbsentFlagUnset(flags: seq<Flag>, toks: seq<String>, acc: map<String, String>, d: String)
    requires d !in acc
    requires forall j, f :: 0 <= j < |toks| && f in flags && f.dest == d ==> toks[j] != f.short && toks[j] != f.long
    ensures ParseFlags(flags, toks, acc).Ok? ==> d !in ParseFlags(flags, toks, acc).value
    decreases |toks|
  {
    if |toks| > 0 {
      match Lookup(flags, toks[0])
      case Some(f) =>
        if |toks| >= 2 && !IsOptionLike(toks[1]) {
          assert f.dest != d by { assert toks[0] == f.short || toks[0] == f.long; }
          AbsentFlagUnset(flags, toks[2..], acc[f.dest := toks[1]], d);
        }
      case None =>
    }
  }

  /** Every option is required: a command line that never names one of them is refused */
  lemma MissingFlagRejected(g: Grammar, cmd: String, rest: seq<String>, f: Flag)
    requires cmd in g && f in g[cmd]
    requires forall j :: 0 <= j < |rest| ==> rest[j] != f.short && rest[j] != f.long
    requires forall h :: h in g[cmd] && h.dest == f.dest ==> h == f
    ensures ParseArgs(g, [cmd] + rest).Err?
  {
    var toks := [cmd] + rest;
    assert toks[1..] == rest;
    AbsentFlagUnset(g[cmd], rest, map[], f.dest);
  }

  /** One option as a user writes it: the option, by its short or its long string, and
      its value */
  datatype Given = Given(flag: Flag, long: bool, value: String)

  /** The option string a given option is written with */
  function Spelling(f: Flag, long: bool): String
  {
    if long then f.long else f.short
  }

  /** The tokens of options given in this order */
  function RenderGiven(gs: seq<Given>): seq<String>
  {
    if |gs| == 0 then [] else [Spelling(gs[0].flag, gs[0].long), gs[0].value] + RenderGiven(gs[1..])
  }

  /** `acc` with the value of each given option stored in turn */
  function Assign(acc: map<String, String>, gs: seq<Given>): map<String, String>
    decreases |gs|
  {
    if |gs| == 0 then acc else Assign(acc[gs[0].flag.dest := gs[0].value], gs[1..])
  }

  /** The destinations that hold a value after the given options: those that held one,
      and those of the options given */
  lemma {:induction false} AssignKeys(acc: map<String, String>, gs: seq<Given>, d: String)
    ensures d in Assign(acc, gs) <==> d in acc || exists i :: 0 <= i < |gs| && gs[i].flag.dest == d
    decreases |gs|
  {
    if |gs| > 0 {
      var tail := gs[1..];
      AssignKeys(acc[gs[0].flag.dest := gs[0].value], tail, d);
      assert forall i :: 1 <= i < |gs| ==> tail[i - 1] == gs[i];
      if exists i :: 0 <= i < |gs| && gs[i].flag.dest == d {
        var i :| 0 <= i < |gs| && gs[i].flag.dest == d;
        if i > 0 {
          assert tail[i - 1].flag.dest == d;
        }
      }
    }
  }

  /** A destination no given option names keeps its value */
  lemma {:induction false} AssignUntouched(acc: map<String, String>, gs: seq<Given>, d: String)
    requires d in acc && forall i :: 0 <= i < |gs| ==> gs[i].flag.dest != d
    ensures d in Assign(acc, gs) && Assign(acc, gs)[d] == acc[d]
    decreases |gs|
  {
    if |gs| > 0 {
      var tail := gs[1..];
      assert forall i :: 0 <= i < |tail| ==> tail[i] == gs[i + 1];
      AssignUntouched(acc[gs[0].flag.dest := gs[0].value], tail, d);
    }
  }

  /** The last option given for a destination sets its value */
  lemma {:induction false} AssignLast(acc: map<String, String>, gs: seq<Given>, i: nat)
    requires i < |gs| && forall j :: i < j < |gs| ==> gs[j].flag.dest != gs[i].flag.dest
    ensures gs[i].flag.dest in Assign(acc, gs) && Assign(acc, gs)[gs[i].flag.dest] == gs[i].value
    decreases |gs|
  {
    var next := acc[gs[0].flag.dest := gs[0].value];
    var tail := gs[1..];
    assert forall j :: 0 <= j < |tail| ==> tail[j] == gs[j + 1];
    if i == 0 {
      AssignUntouched(next, tail, gs[0].flag.dest);
    } else {
      AssignLast(next, tail, i - 1);
    }
  }

  /** What each destination holds after the given options: the value of the last option
      given for it, or else the value it had */
  lemma AssignContents(acc: map<String, String>, gs: seq<Given>)
    ensures forall d :: d in Assign(acc, gs) <==> d in acc || exists i :: 0 <= i < |gs| && gs[i].flag.dest == d
    ensures forall i :: 0 <= i < |gs| && (forall j :: i < j < |gs| ==> gs[j].flag.dest != gs[i].flag.dest) ==>
              Assign(acc, gs)[gs[i].flag.dest] == gs[i].value
    ensures forall d :: d in acc && (forall i :: 0 <= i < |gs| ==> gs[i].flag.dest != d) ==> Assign(acc, gs)[d] == acc[d]
  {
    forall d
      ensures d in Assign(acc, gs) <==> d in acc || exists i :: 0 <= i < |gs| && gs[i].flag.dest == d
    {
      AssignKeys(acc, gs, d);
    }
    forall i | 0 <= i < |gs| && (forall j :: i < j < |gs| ==> gs[j].flag.dest != gs[i].flag.dest)
      ensures Assign(acc, gs)[gs[i].flag.dest] == gs[i].value
    {
      AssignLast(acc, gs, i);
    }
    forall d | d in acc && (forall i :: 0 <= i < |gs| ==> gs[i].flag.dest != d)
      ensures Assign(acc, gs)[d] == acc[d]
    {
      AssignUntouched(acc, gs, d);
    }
  }

  /** The options given for a command */
  predicate GivenFor(flags: seq<Flag>, gs: seq<Given>) {
    forall i :: 0 <= i < |gs| ==> gs[i].flag in flags && !IsOptionLike(gs[i].value)
  }

  /** An option string that finds its option, and a value that is no option string, are
      read as one option */
  lemma ParseFlagsStep(flags: seq<Flag>, f: Flag, o: String, v: String, rest: seq<String>,
                       acc: map<String, String>)
    requires Lookup(flags, o) == Some(f) && !IsOptionLike(v)
    ensures ParseFlags(flags, [o, v] + rest, acc) == ParseFlags(flags, rest, acc[f.dest := v])
  {
    var toks := [o, v] + rest;
    assert toks[0] == o && toks[1] == v && toks[2..] == rest;
  }

  /** The first option given, then the rest */
  lemma RenderGivenCons(gs: seq<Given>, rest: seq<String>)
    requires |gs| > 0
    ensures RenderGiven(gs) + rest == [Spelling(gs[0].flag, gs[0].long), gs[0].value] + (RenderGiven(gs[1..]) + rest)
  {
  }

  /** Options given in any order, by short or long string, are read one after the other */
  lemma {:induction false} ParseGivenPrefix(flags: seq<Flag>, gs: seq<Given>, rest: seq<String>,
                                            acc: map<String, String>)
    requires WellFormedFlags(flags) && GivenFor(flags, gs)
    ensures ParseFlags(flags, RenderGiven(gs) + rest, acc) == ParseFlags(flags, rest, Assign(acc, gs))
    decreases |gs|
  {
    if |gs| == 0 {
      assert RenderGiven(gs) + rest == rest;
    } else {
      var g := gs[0];
      var k :| 0 <= k < |flags| && flags[k] == g.flag;
      LookupOwn(flags, k);
      RenderGivenCons(gs, rest);
      ParseFlagsStep(flags, g.flag, Spelling(g.flag, g.long), g.value, RenderGiven(gs[1..]) + rest, acc);
      assert GivenFor(flags, gs[1..]) by {
        assert forall i :: 1 <= i < |gs| ==> gs[1..][i - 1] == gs[i];
      }
      ParseGivenPrefix(flags, gs[1..], rest, acc[g.flag.dest := g.value]);
    }
  }

  /** Options given in any order parse, and each destination holds the last value given */
  lemma ParseGiven(flags: seq<Flag>, gs: seq<Given>, acc: map<String, String>)
    requires WellFormedFlags(flags) && GivenFor(flags, gs)
    ensures ParseFlags(flags, RenderGiven(gs), acc) == Ok(Assign(acc, gs))
  {
    ParseGivenPrefix(flags, gs, [], acc);
    assert RenderGiven(gs) + [] == RenderGiven(gs);
  }

  /** A token that names no option, after any options given, is refused */
  lemma UnknownOptionRejected(flags: seq<Flag>, gs: seq<Given>, t: String, rest: seq<String>,
                              acc: map<String, String>)
    requires WellFormedFlags(flags) && GivenFor(flags, gs)
    requires forall f :: f in flags ==> t != f.short && t != f.long
    ensures ParseFlags(flags, RenderGiven(gs) + [t] + rest, acc) == Err(Unrecognized(t))
  {
    assert RenderGiven(gs) + [t] + rest == RenderGiven(gs) + ([t] + rest);
    ParseGivenPrefix(flags, gs, [t] + rest, acc);
  }

  /** An option at the end of the line, or followed by an option string, lacks its value */
  lemma MissingValueRejected(flags: seq<Flag>, gs: seq<Given>, f: Flag, long: bool, rest: seq<String>,
                             acc: map<String, String>)
    requires WellFormedFlags(flags) && GivenFor(flags, gs) && f in flags
    requires |rest| == 0 || IsOptionLike(rest[0])
    ensures ParseFlags(flags, RenderGiven(gs) + [Spelling(f, long)] + rest, acc) ==
            Err(ExpectedOneArgument(Spelling(f, long)))
  {
    var o := Spelling(f, long);
    assert RenderGiven(gs) + [o] + rest == RenderGiven(gs) + ([o] + rest);
    ParseGivenPrefix(flags, gs, [o] + rest, acc);
    var k :| 0 <= k < |flags| && flags[k] == f;
    LookupOwn(flags, k);
    assert ([o] + rest)[1..] == rest;
  }

  /** `parse_args` on a command and options given in any order: it succeeds exactly when
      every option of the command is given, and then each holds the last value given */
  lemma ParseGivenCommand(g: Grammar, cmd: String, gs: seq<Given>)
    requires WellFormedGrammar(g) && cmd in g && GivenFor(g[cmd], gs)
    ensures ParseArgs(g, [cmd] + RenderGiven(gs)).Ok? <==>
            forall f :: f in g[cmd] ==> exists i :: 0 <= i < |gs| && gs[i].flag.dest == f.dest
    ensures ParseArgs(g, [cmd] + RenderGiven(gs)).Ok? ==>
            ParseArgs(g, [cmd] + RenderGiven(gs)).value == NamespaceOf(cmd, Assign(map[], gs))
  {
    var toks := [cmd] + RenderGiven(gs);
    assert toks[1..] == RenderGiven(gs);
    ParseGiven(g[cmd], gs, map[]);
    var vals := Assign(map[], gs);
    forall f | f in g[cmd]
      ensures f.dest in vals <==> exists i :: 0 <= i < |gs| && gs[i].flag.dest == f.dest
    {
      AssignKeys(map[], gs, f.dest);
    }
  }
}
