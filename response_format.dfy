/** `ResponseParser`: turns what a Mongo command returned into what the notebook shows.
    Listings of databases and collections become Markdown; documents and counts become
    rows of a table. `_handler` picks the formatter named by the `command` keyword. */
module ResponseFormat {
  import opened Wrappers
  import opened PyStrings

  /** What a command returned: names, one document, several documents or a number */
  datatype Response<D> =
    | NameList(names: seq<String>)
    | OneDocument(doc: D)
    | Documents(docs: seq<D>)
    | Total(n: int)

  /** A row of the table the notebook builds: a document, or the mapping `{"count": n}` */
  datatype Row<D> = Document(doc: D) | CountRow(count: int)

  /** A formatter's result: Markdown text, or rows */
  datatype Formatted<D> = Markdown(text: String) | Rows(rows: seq<Row<D>>)

  /** Why `_handler` fails: `getattr(self, None)` when no command is given, an attribute
      that is not one of the formatters, or a response of another shape than the
      formatter takes */
  datatype HandlerError = NoCommand | NotAFormatter(command: String) | ShapeMismatch(command: String)

  /** `f"{x}"` for a keyword value that may be missing: `None` prints as `None` */
  function Display(x: Option<String>): String
  {
    match x
    case None => "None"
    case Some(s) => s
  }

  /** `kwargs.get(key)` */
  function Get(kwargs: map<String, Option<String>>, key: String): Option<String>
  {
    if key in kwargs then kwargs[key] else None
  }

  /** `"".join(f"* {name}\n" for name in names)` */
  function Bullets(names: seq<String>): String
  {
    if |names| == 0 then [] else "* " + names[0] + "\n" + Bullets(names[1..])
  }

  /** The line `* name` for each name, in order */
  function BulletRows(names: seq<String>): (r: seq<String>)
    ensures |r| == |names| && forall k :: 0 <= k < |names| ==> r[k] == "* " + names[k]
  {
    if |names| == 0 then [] else ["* " + names[0]] + BulletRows(names[1..])
  }

  /** The rule under a listing's title */
  const Rule: String := "***"

  /** A listing: the title, the rule, the bullets and a blank line */
  function Listing(title: String, names: seq<String>): String
  {
    title + "\n" + Rule + "\n" + Bullets(names) + "\n"
  }

  /** `#### Databases in `instance`` */
  function DbsTitle(instance: Option<String>): String
  {
    "#### Databases in `" + Display(instance) + "`"
  }

  /** `#### Collections in `database` in `instance` instance` */
  function CollectionsTitle(instance: Option<String>, database: Option<String>): String
  {
    "#### Collections in `" + Display(database) + "` in `" + Display(instance) + "` instance"
  }

  /** `show_dbs` */
  function ShowDbs(instance: Option<String>, names: seq<String>): String
  {
    Listing(DbsTitle(instance), names)
  }

  /** `show_collections` */
  function ShowCollections(instance: Option<String>, database: Option<String>, names: seq<String>): String
  {
    Listing(CollectionsTitle(instance, database), names)
  }

  /** `find_one`: the document in a list of one */
  function FindOne<D>(doc: D): seq<Row<D>>
  {
    [Document(doc)]
  }

  /** `find`: the documents as they are */
  function Find<D>(docs: seq<D>): seq<Row<D>>
  {
    seq(|docs|, k requires 0 <= k < |docs| => Document(docs[k]))
  }

  /** `count_documents`: `[{"count": n}]` */
  function CountDocuments<D>(n: int): seq<Row<D>>
  {
    [CountRow(n)]
  }

  /** The documents the rows hold, in order (count rows hold none) */
  function DocumentsOf<D>(rows: seq<Row<D>>): seq<D>
  {
    if |rows| == 0 then []
    else (match rows[0] case Document(d) => [d] case CountRow(_) => []) + DocumentsOf(rows[1..])
  }

  /** The counts the rows hold, in order */
  function CountsOf<D>(rows: seq<Row<D>>): seq<int>
  {
    if |rows| == 0 then []
    else (match rows[0] case Document(_) => [] case CountRow(n) => [n]) + CountsOf(rows[1..])
  }

  /** The five formatters `_handler` can reach by name */
  const Formatters: set<String> := {"show_dbs", "show_collections", "find_one", "find", "count_documents"}

  /** `_handler(response, **kwargs)`: `getattr(self, kwargs.get("command"))(response, **kwargs)` */
  function Handler<D>(response: Response<D>, kwargs: map<String, Option<String>>): (r: Result<Formatted<D>, HandlerError>)
    ensures Get(kwargs, "command").None? ==> r == Err(NoCommand)
    ensures r.Ok? ==> Get(kwargs, "command").Some? && Get(kwargs, "command").value in Formatters
    ensures Get(kwargs, "command").Some? && Get(kwargs, "command").value !in Formatters ==>
              r == Err(NotAFormatter(Get(kwargs, "command").value))
    ensures r.Ok? && r.value.Markdown? ==> Get(kwargs, "command").value in {"show_dbs", "show_collections"}
  {
    match Get(kwargs, "command")
    case None => Err(NoCommand)
    case Some(cmd) =>
      if cmd == "show_dbs" then
        (if response.NameList? then Ok(Markdown(ShowDbs(Get(kwargs, "instance"), response.names)))
         else Err(ShapeMismatch(cmd)))
      else if cmd == "show_collections" then
        (if response.NameList?
         then Ok(Markdown(ShowCollections(Get(kwargs, "instance"), Get(kwargs, "database"), response.names)))
         else Err(ShapeMismatch(cmd)))
      else if cmd == "find_one" then
        (if response.OneDocument? then Ok(Rows(FindOne(response.doc))) else Err(ShapeMismatch(cmd)))
      else if cmd == "find" then
        (if response.Documents? then Ok(Rows(Find(response.docs))) else Err(ShapeMismatch(cmd)))
      else if cmd == "count_documents" then
        (if response.Total? then Ok(Rows(CountDocuments(response.n))) else Err(ShapeMismatch(cmd)))
      else Err(NotAFormatter(cmd))
  }

  /** The bullet text read line by line: `* name` for each name, then whatever follows */
  lemma {:induction false} BulletLines(names: seq<String>, tail: String)
    requires forall k :: 0 <= k < |names| ==> '\n' !in names[k]
    ensures Split(Bullets(names) + tail, "\n") == BulletRows(names) + Split(tail, "\n")
    decreases |names|
  {
    if |names| == 0 {
      assert Bullets(names) + tail == tail;
    } else {
      var line := "* " + names[0];
      var rest := Bullets(names[1..]);
      assert '\n' !in line by {
        assert forall k :: 0 <= k < |line| ==> line[k] == if k < 2 then "* "[k] else names[0][k - 2];
      }
      assert Bullets(names) + tail == line + "\n" + (rest + tail);
      SplitAfterFirst(line, "\n", rest + tail);
      BulletLines(names[1..], tail);
    }
  }

  /** `"\n".split("\n")` */
  lemma SplitNewline()
    ensures Split("\n", "\n") == ["", ""]
  {
    SplitAfterFirst("", "\n", "");
    assert "" + "\n" + "" == "\n";
    SplitWhole("", "\n");
  }

  /** The fixed parts of the listings are single lines */
  lemma FixedPartsOneLine()
    ensures '\n' !in Rule
    ensures '\n' !in "#### Databases in `" && '\n' !in "`"
    ensures '\n' !in "#### Collections in `" && '\n' !in "` in `" && '\n' !in "` instance"
  {
  }

  lemma ConsCons<T>(a: T, b: T, r: seq<T>, e: seq<T>)
    ensures [a] + ([b] + (r + e)) == [a, b] + r + e
  {
  }

  /** Two single lines, then the bullets, then any text, read line by line */
  lemma HeadedBulletLines(title: String, rule: String, names: seq<String>, end: String)
    requires '\n' !in title && '\n' !in rule
    requires forall k :: 0 <= k < |names| ==> '\n' !in names[k]
    ensures Split(title + "\n" + rule + "\n" + Bullets(names) + end, "\n") ==
            [title, rule] + BulletRows(names) + Split(end, "\n")
  {
    var tail := Bullets(names) + end;
    var whole := title + "\n" + (rule + "\n" + tail);
    assert title + "\n" + rule + "\n" + Bullets(names) + end == whole;
    var e := Split(end, "\n");
    var rows := BulletRows(names);
    BulletLines(names, end);
    var s2 := Split(tail, "\n");
    assert s2 == rows + e;
    SplitAfterFirst(rule, "\n", tail);
    var s1 := Split(rule + "\n" + tail, "\n");
    assert s1 == [rule] + s2;
    SplitAfterFirst(title, "\n", rule + "\n" + tail);
    assert Split(whole, "\n") == [title] + s1;
    ConsCons(title, rule, rows, e);
  }

  /** A listing read line by line: the title, the rule, `* name` per name, a blank line */
  lemma ListingLines(title: String, names: seq<String>)
    requires '\n' !in title
    requires forall k :: 0 <= k < |names| ==> '\n' !in names[k]
    ensures Split(Listing(title, names), "\n") == [title, Rule] + BulletRows(names) + ["", ""]
  {
    FixedPartsOneLine();
    HeadedBulletLines(title, Rule, names, "\n");
    SplitNewline();
  }

  /** Text without newlines stays without newlines when joined */
  lemma NoNewlineConcat(a: String, b: String)
    requires '\n' !in a && '\n' !in b
    ensures '\n' !in a + b
  {
  }

  /** `show_dbs` read line by line: the title naming the instance, the rule `***`, one
      line `* name` per database in the order given, and a blank line */
  lemma ShowDbsLines(instance: Option<String>, names: seq<String>)
    requires '\n' !in Display(instance)
    requires forall k :: 0 <= k < |names| ==> '\n' !in names[k]
    ensures Split(ShowDbs(instance, names), "\n") == [DbsTitle(instance), Rule] + BulletRows(names) + ["", ""]
    ensures |Split(ShowDbs(instance, names), "\n")| == |names| + 4
  {
    FixedPartsOneLine();
    NoNewlineConcat("#### Databases in `", Display(instance));
    NoNewlineConcat("#### Databases in `" + Display(instance), "`");
    ListingLines(DbsTitle(instance), names);
  }

  /** `show_collections` read line by line, as `show_dbs` with a title naming the database
      and the instance */
  lemma ShowCollectionsLines(instance: Option<String>, database: Option<String>, names: seq<String>)
    requires '\n' !in Display(instance) && '\n' !in Display(database)
    requires forall k :: 0 <= k < |names| ==> '\n' !in names[k]
    ensures Split(ShowCollections(instance, database, names), "\n") ==
            [CollectionsTitle(instance, database), Rule] + BulletRows(names) + ["", ""]
    ensures |Split(ShowCollections(instance, database, names), "\n")| == |names| + 4
  {
    var a := "#### Collections in `" + Display(database);
    var b := a + "` in `";
    var c := b + Display(instance);
    FixedPartsOneLine();
    NoNewlineConcat("#### Collections in `", Display(database));
    NoNewlineConcat(a, "` in `");
    NoNewlineConcat(b, Display(instance));
    NoNewlineConcat(c, "` instance");
    ListingLines(CollectionsTitle(instance, database), names);
  }

  /** An empty listing is the title, the rule and a blank line */
  lemma EmptyListing(title: String)
    ensures Listing(title, []) == title + "\n" + Rule + "\n" + "\n"
  {
    assert Bullets([]) == [];
  }

  /** `find` passes the documents through: reading them back gives the response */
  lemma {:induction false} FindPassesThrough<D>(docs: seq<D>)
    ensures DocumentsOf(Find(docs)) == docs && CountsOf(Find(docs)) == []
    decreases |docs|
  {
    if |docs| > 0 {
      var rows := Find(docs);
      assert rows[1..] == Find(docs[1..]);
      FindPassesThrough(docs[1..]);
      assert docs == [docs[0]] + docs[1..];
    }
  }

  /** `find_one` wraps the document: a table of one row holding it */
  lemma FindOneWraps<D>(doc: D)
    ensures |FindOne(doc)| == 1 && DocumentsOf(FindOne(doc)) == [doc] && CountsOf(FindOne(doc)) == []
  {
    assert FindOne(doc)[1..] == [];
  }

  /** `count_documents` wraps the number: a table of one row `{"count": n}` */
  lemma CountWraps<D>(n: int)
    ensures |CountDocuments<D>(n)| == 1 && CountsOf(CountDocuments<D>(n)) == [n] &&
            DocumentsOf(CountDocuments<D>(n)) == []
  {
    assert CountDocuments<D>(n)[1..] == [];
  }

  /** `_handler` returns exactly what the formatter the command names returns */
  lemma HandlerDispatches<D>(response: Response<D>, kwargs: map<String, Option<String>>, cmd: String)
    requires Get(kwargs, "command") == Some(cmd)
    ensures cmd == "show_dbs" && response.NameList? ==>
              Handler(response, kwargs) == Ok(Markdown(ShowDbs(Get(kwargs, "instance"), response.names)))
    ensures cmd == "show_collections" && response.NameList? ==>
              Handler(response, kwargs) ==
              Ok(Markdown(ShowCollections(Get(kwargs, "instance"), Get(kwargs, "database"), response.names)))
    ensures cmd == "find_one" && response.OneDocument? ==> Handler(response, kwargs) == Ok(Rows(FindOne(response.doc)))
    ensures cmd == "find" && response.Documents? ==> Handler(response, kwargs) == Ok(Rows(Find(response.docs)))
    ensures cmd == "count_documents" && response.Total? ==>
              Handler(response, kwargs) == Ok(Rows(CountDocuments(response.n)))
  {
  }
}
