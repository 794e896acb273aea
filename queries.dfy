/** `QueryEngine`: the lexical classifier, the choice of canned SQL shape for
    structured questions, and `process_query` with its result cache and
    history. The database is the engine's `db`: a connection that may be
    refused, and a function running a chosen statement. The elapsed time is
    the parameter `elapsed`. */
module Queries {
  import opened Wrappers
  import opened Text
  import opened Dicts
  import opened Schemas
  import Documents

  datatype QueryType = Structured | Document | Hybrid

  /** The terms that make a question about documents. */
  const DocumentTerms: seq<string> := ["resume", "cv", "document", "skill", "skills", "mention", "review"]
  /** Together with a document term, these make a question hybrid. */
  const HybridTerms: seq<string> := ["how many", "count", "average", "where", "list", "show", "top"]
  /** Without a document term, these make a question structured. */
  const StructuredTerms: seq<string> := ["how many", "count", "average", "sum", "max", "min", "group", "top", "where", "list"]

  /** `_classify(q)`: first matching rule on the lower-cased question. */
  function Classify(q: string): (r: QueryType)
    ensures r == Document <==> ContainsAny(Lower(q), DocumentTerms) && !ContainsAny(Lower(q), HybridTerms)
    ensures r == Structured <==> !ContainsAny(Lower(q), DocumentTerms) && ContainsAny(Lower(q), StructuredTerms)
    ensures r == Hybrid <==>
      (ContainsAny(Lower(q), DocumentTerms) && ContainsAny(Lower(q), HybridTerms)) ||
      (!ContainsAny(Lower(q), DocumentTerms) && !ContainsAny(Lower(q), StructuredTerms))
  {
    var s := Lower(q);
    if ContainsAny(s, DocumentTerms) then
      if ContainsAny(s, HybridTerms) then Hybrid else Document
    else if ContainsAny(s, StructuredTerms) then Structured
    else Hybrid
  }

  /** No term occurs in the empty string: it is hybrid. */
  lemma EmptyIsHybrid()
    ensures Classify("") == Hybrid
  {
    assert Lower("") == "";
    forall k | 0 <= k < |DocumentTerms|
      ensures !Contains("", DocumentTerms[k])
    {
      NotContainsByChar("", DocumentTerms[k], DocumentTerms[k][0]);
    }
    forall k | 0 <= k < |StructuredTerms|
      ensures !Contains("", StructuredTerms[k])
    {
      NotContainsByChar("", StructuredTerms[k], StructuredTerms[k][0]);
    }
  }

  /** Matching ignores case. */
  lemma ClassifyIgnoresCase(q: string)
    ensures Classify(Lower(q)) == Classify(q)
  {
    LowerIdempotent(q);
  }

  /** A question with a structured term and no document term is structured. */
  lemma OnlyStructured(q: string, k: nat)
    requires k < |StructuredTerms| && Contains(Lower(q), StructuredTerms[k])
    requires !ContainsAny(Lower(q), DocumentTerms)
    ensures Classify(q) == Structured
  {
  }

  /** A question with a document term and a hybrid term is hybrid. */
  lemma MentionsBoth(q: string, d: nat, h: nat)
    requires d < |DocumentTerms| && h < |HybridTerms|
    requires Contains(Lower(q), DocumentTerms[d]) && Contains(Lower(q), HybridTerms[h])
    ensures Classify(q) == Hybrid
  {
  }

  /** Without the letters u, c, d, k and i no document term can occur. */
  lemma NoDocumentTerm(s: string)
    requires 'u' !in s && 'c' !in s && 'd' !in s && 'k' !in s && 'i' !in s
    ensures !ContainsAny(s, DocumentTerms)
  {
    NotContainsByChar(s, "resume", 'u');
    NotContainsByChar(s, "cv", 'c');
    NotContainsByChar(s, "document", 'd');
    NotContainsByChar(s, "skill", 'k');
    NotContainsByChar(s, "skills", 'k');
    NotContainsByChar(s, "mention", 'i');
    NotContainsByChar(s, "review", 'i');
  }

  /** A lower-case word inside a question is found in the lower-cased question. */
  lemma Mentions(q: string, before: string, w: string, after: string)
    requires q == before + w + after
    requires forall k :: 0 <= k < |w| ==> !('A' <= w[k] <= 'Z')
    ensures Contains(Lower(q), w)
  {
    OccursInMiddle(before, w, after);
    OccursLower(q, w, |before|);
  }

  /** None of the letters u, c, d, k, i, in either case. */
  predicate NoDocumentLetters(x: string) {
    forall k :: 0 <= k < |x| ==> LowerChar(x[k]) !in "ucdki"
  }

  /** "how many" followed by text without the letters of a document term is
      structured; "how many employees are there" is one such question. */
  lemma HowManyIsStructured(x: string)
    requires NoDocumentLetters(x)
    ensures Classify("how many" + x) == Structured
  {
    var q := "how many" + x;
    var s := Lower(q);
    forall i | 0 <= i < |s|
      ensures s[i] != 'u' && s[i] != 'c' && s[i] != 'd' && s[i] != 'k' && s[i] != 'i'
    {
      if i < 8 {
        assert q[i] == "how many"[i];
      } else {
        assert q[i] == x[i - 8];
      }
    }
    NoDocumentTerm(s);
    Mentions(q, "", "how many", x);
    OnlyStructured(q, 0);
  }

  /** "show" then later "resume" is hybrid, although such a request reads as a
      document search: "show me resumes mentioning Python" is one. */
  lemma ShowResumeIsHybrid(x: string, y: string)
    ensures Classify("show" + x + "resume" + y) == Hybrid
  {
    var q := "show" + x + "resume" + y;
    Mentions(q, "", "show", x + "resume" + y);
    Mentions(q, "show" + x, "resume", y);
    MentionsBoth(q, 0, 5);
  }

  /** "list" then later "skill" is hybrid: "list employees with Java skills". */
  lemma ListSkillIsHybrid(x: string, y: string)
    ensures Classify("list" + x + "skill" + y) == Hybrid
  {
    var q := "list" + x + "skill" + y;
    Mentions(q, "", "list", x + "skill" + y);
    Mentions(q, "list" + x, "skill", y);
    MentionsBoth(q, 3, 4);
  }

  /** The canned statement `_execute_structured` runs. */
  datatype Shape =
    | CountRows(table: string)                                  // SELECT COUNT(*) as cnt FROM table
    | AverageBy(table: string, deptCol: string, salaryCol: string) // SELECT dept, AVG(salary) ... GROUP BY dept
    | Sample(table: string)                                     // SELECT * FROM table LIMIT 10

  const CountTerms: seq<string> := ["how many", "count"]
  const PayTerms: seq<string> := ["salary", "compens", "pay"]
  const SalaryMarks: seq<string> := ["sal", "compens", "pay"]
  const DeptMarks: seq<string> := ["dept", "division", "department"]

  /** The first inferred table whose role is employees. */
  function FirstEmployees(inferred: Dict<Role>): (r: Option<string>)
    ensures r.Some? ==>
      exists i :: 0 <= i < |inferred| && inferred[i] == (r.value, Employees) &&
        forall h :: 0 <= h < i ==> inferred[h].1 != Employees
    ensures r.None? ==> forall i :: 0 <= i < |inferred| ==> inferred[i].1 != Employees
  {
    if inferred == [] then None
    else if inferred[0].1 == Employees then Some(inferred[0].0)
    else
      var r := FirstEmployees(inferred[1..]);
      if r.Some? then
        var i :| 0 <= i < |inferred[1..]| && inferred[1..][i] == (r.value, Employees) &&
          forall h :: 0 <= h < i ==> inferred[1..][h].1 != Employees;
        assert inferred[i + 1] == (r.value, Employees);
        r
      else r
  }

  /** `schema.get('inferred', {})` */
  function InferredOf(schema: Catalog): Dict<Role> {
    if schema.inferred.Some? then schema.inferred.value else []
  }

  /** The table of a count or a sample: the first employees table unless its
      name is empty, else the first catalog table; an empty catalog is the
      `IndexError` of `list(...)[0]`. */
  function TableFor(schema: Catalog): Result<string> {
    var e := FirstEmployees(InferredOf(schema));
    if e.Some? && e.value != "" then Ok(e.value)
    else if schema.tables != [] then Ok(schema.tables[0].0)
    else Err("list index out of range")
  }

  /** The column name matches one of `marks`, ignoring case. */
  predicate Marked(column: string, marks: seq<string>) {
    ContainsAny(Lower(column), marks)
  }

  /** The first `(table, column)` pair whose column is marked. */
  function FirstMarked(all: seq<(string, string)>, marks: seq<string>): (r: Option<(string, string)>)
    ensures r.Some? ==>
      exists i :: 0 <= i < |all| && all[i] == r.value && Marked(r.value.1, marks) &&
        forall h :: 0 <= h < i ==> !Marked(all[h].1, marks)
    ensures r.None? ==> forall i :: 0 <= i < |all| ==> !Marked(all[i].1, marks)
  {
    if all == [] then None
    else
      var init, last := all[..|all| - 1], all[|all| - 1];
      var prev := FirstMarked(init, marks);
      if prev.Some? then
        var i :| 0 <= i < |init| && init[i] == prev.value && Marked(prev.value.1, marks) &&
          forall h :: 0 <= h < i ==> !Marked(init[h].1, marks);
        assert all[i] == init[i];
        prev
      else if Marked(last.1, marks) then Some(last)
      else None
  }

  /** Which statement `_execute_structured` runs for `q`, or the error it
      raises before reaching the database. */
  function ShapeFor(q: string, schema: Catalog): Result<Shape> {
    var s := Lower(q);
    if ContainsAny(s, CountTerms) then
      var t := TableFor(schema);
      if t.Ok? then Ok(CountRows(t.value)) else Err(t.message)
    else
      var all := AllColumns(schema.tables);
      var salary := FirstMarked(all, SalaryMarks);
      var dept := FirstMarked(all, DeptMarks);
      if Contains(s, "average") && ContainsAny(s, PayTerms) && salary.Some? && dept.Some? && salary.value.0 != "" then
        Ok(AverageBy(salary.value.0, dept.value.1, salary.value.1))
      else
        var t := TableFor(schema);
        if t.Ok? then Ok(Sample(t.value)) else Err(t.message)
  }

  /** Every statement names a table of the catalog, and an average reads the
      first salary-like column from its own table and groups by the first
      department-like column of the catalog, which may belong to another
      table. Only an empty catalog fails. */
  lemma ShapeTables(q: string, schema: Catalog)
    requires forall k :: 0 <= k < |InferredOf(schema)| ==> InferredOf(schema)[k].0 in Keys(schema.tables)
    ensures var r := ShapeFor(q, schema);
      && (r.Ok? ==> r.value.table in Keys(schema.tables))
      && (r.Ok? && r.value.AverageBy? ==>
            (r.value.table, r.value.salaryCol) in AllColumns(schema.tables) && Marked(r.value.salaryCol, SalaryMarks) &&
            FirstMarked(AllColumns(schema.tables), DeptMarks).Some? &&
            r.value.deptCol == FirstMarked(AllColumns(schema.tables), DeptMarks).value.1)
      && (r.Err? <==> schema.tables == [])
  {
    var r := ShapeFor(q, schema);
    if schema.tables == [] {
      assert InferredOf(schema) == [];
    }
    if r.Ok? && r.value.AverageBy? {
      var all := AllColumns(schema.tables);
      var salary := FirstMarked(all, SalaryMarks).value;
      AllColumnsHas(schema.tables, salary.0, salary.1);
      var i, j :| 0 <= i < |schema.tables| && 0 <= j < |schema.tables[i].1.columns| &&
        schema.tables[i].0 == salary.0 && schema.tables[i].1.columns[j].name == salary.1;
      assert Keys(schema.tables)[i] == salary.0;
    } else if r.Ok? {
      var e := FirstEmployees(InferredOf(schema));
      if e.Some? && e.value != "" {
        var i :| 0 <= i < |InferredOf(schema)| && InferredOf(schema)[i] == (e.value, Employees) &&
          forall h :: 0 <= h < i ==> InferredOf(schema)[h].1 != Employees;
        assert InferredOf(schema)[i].0 in Keys(schema.tables);
      } else {
        assert Keys(schema.tables)[0] == schema.tables[0].0;
      }
    }
  }

  /** Appending one pair to the scanned columns: the earlier match stands,
      else the new pair matches or nothing does. */
  lemma FirstMarkedSnoc(xs: seq<(string, string)>, x: (string, string), marks: seq<string>)
    ensures FirstMarked(xs + [x], marks) ==
      if FirstMarked(xs, marks).Some? then FirstMarked(xs, marks)
      else if Marked(x.1, marks) then Some(x)
      else None
  {
    assert (xs + [x])[..|xs|] == xs;
  }

  /** The table loop of `_execute_structured`: the first `employees` entry of
      `inferred` (stopping there), falling back to the first catalog table
      when there is none or its name is empty. */
  method FindTable(schema: Catalog) returns (r: Result<string>)
    ensures r == TableFor(schema)
  {
    var inferred := InferredOf(schema);
    var table: Option<string> := None;
    var i := 0;
    while i < |inferred|
      invariant 0 <= i <= |inferred|
      invariant forall h :: 0 <= h < i ==> inferred[h].1 != Employees
    {
      if inferred[i].1 == Employees {
        table := Some(inferred[i].0);
        break;
      }
      i := i + 1;
    }
    assert table == FirstEmployees(inferred);
    if table.Some? && table.value != "" {
      r := Ok(table.value);
    } else if schema.tables != [] {
      r := Ok(schema.tables[0].0);
    } else {
      r := Err("list index out of range");
    }
  }

  /** The column loops of `_execute_structured`: the first salary-like and
      the first department-like column, each with its table, scanning tables
      in catalog order and columns in table order. */
  method ScanColumns(tables: Dict<TableInfo>) returns (salary: Option<(string, string)>, dept: Option<(string, string)>)
    ensures salary == FirstMarked(AllColumns(tables), SalaryMarks)
    ensures dept == FirstMarked(AllColumns(tables), DeptMarks)
  {
    salary, dept := None, None;
    for i := 0 to |tables|
      invariant salary == FirstMarked(AllColumns(tables[..i]), SalaryMarks)
      invariant dept == FirstMarked(AllColumns(tables[..i]), DeptMarks)
    {
      salary, dept := ScanTable(tables[i].0, tables[i].1.columns, AllColumns(tables[..i]), salary, dept);
      AllColumnsSnoc(tables, i);
    }
    assert tables[..|tables|] == tables;
  }

  /** The inner loop over one table's columns, continuing a scan that has
      already seen the pairs `before`. */
  method ScanTable(t: string, columns: seq<Column>, ghost before: seq<(string, string)>,
                   salary0: Option<(string, string)>, dept0: Option<(string, string)>)
    returns (salary: Option<(string, string)>, dept: Option<(string, string)>)
    requires salary0 == FirstMarked(before, SalaryMarks) && dept0 == FirstMarked(before, DeptMarks)
    ensures salary == FirstMarked(before + ColumnsOf(t, columns), SalaryMarks)
    ensures dept == FirstMarked(before + ColumnsOf(t, columns), DeptMarks)
  {
    salary, dept := salary0, dept0;
    ghost var seen := before;
    for j := 0 to |columns|
      invariant seen == before + ColumnsOf(t, columns[..j])
      invariant salary == FirstMarked(seen, SalaryMarks) && dept == FirstMarked(seen, DeptMarks)
    {
      var name := columns[j].name;
      var lower := Lower(name);
      if salary.None? && ContainsAny(lower, SalaryMarks) {
        salary := Some((t, name));
      }
      if dept.None? && ContainsAny(lower, DeptMarks) {
        dept := Some((t, name));
      }
      FirstMarkedSnoc(seen, (t, name), SalaryMarks);
      FirstMarkedSnoc(seen, (t, name), DeptMarks);
      ColumnsOfSnoc(t, columns, j);
      seen := seen + [(t, name)];
    }
    assert columns[..|columns|] == columns;
  }

  /** The statement `_execute_structured` picks, with its loops. */
  method SelectShape(q: string, schema: Catalog) returns (r: Result<Shape>)
    ensures r == ShapeFor(q, schema)
  {
    var s := Lower(q);
    if ContainsAny(s, CountTerms) {
      var t := FindTable(schema);
      r := if t.Ok? then Ok(CountRows(t.value)) else Err(t.message);
      return;
    }
    if Contains(s, "average") && ContainsAny(s, PayTerms) {
      var salary, dept := ScanColumns(schema.tables);
      if salary.Some? && dept.Some? && salary.value.0 != "" {
        r := Ok(AverageBy(salary.value.0, dept.value.1, salary.value.1));
        return;
      }
    }
    var t := FindTable(schema);
    r := if t.Ok? then Ok(Sample(t.value)) else Err(t.message);
  }

  /** A database value. */
  datatype Cell = Int(n: int) | Str(s: string)

  /** A result row, `dict(r)`: column names to values, in column order. */
  type Row = Dict<Cell>

  /** The database behind the engine: whether `engine.connect()` fails, and
      with which message, and what each statement returns or raises. */
  datatype Database = Database(refusal: Option<string>, run: Shape -> Result<seq<Row>>)

  /** `int(r['cnt']) if r else 0` on the first row of a count: no row, or an
      empty one, counts zero; a row without `cnt` is a `KeyError`, and a
      non-number in it is an error of `int`. */
  function CountOf(rows: seq<Row>): (r: Result<int>)
    ensures rows == [] ==> r == Ok(0)
    ensures r.Ok? && r.value != 0 ==> rows != [] && Get(rows[0], "cnt") == Some(Int(r.value))
    ensures rows != [] && rows[0] != [] ==>
      var cell := Get(rows[0], "cnt");
      && (cell.Some? && cell.value.Int? ==> r == Ok(cell.value.n))
      && (cell.None? ==> r.Err?)
      && (cell.Some? && cell.value.Str? ==> r.Err?)
  {
    if rows == [] || rows[0] == [] then Ok(0)
    else
      var cell := Get(rows[0], "cnt");
      if cell.None? then Err("'cnt'")
      else if cell.value.Int? then Ok(cell.value.n)
      else Err("invalid literal for int()")
  }

  /** `_execute_structured(q, mapping)`: the rows, or the message of the
      exception raised on the way. */
  function StructuredAnswer(q: string, schema: Catalog, db: Database): Result<seq<Row>> {
    if db.refusal.Some? then Err(db.refusal.value)
    else
      var shape := ShapeFor(q, schema);
      if shape.Err? then Err(shape.message)
      else
        var got := db.run(shape.value);
        if got.Err? then Err(got.message)
        else if shape.value.CountRows? then
          var n := CountOf(got.value);
          if n.Ok? then Ok([[("count", Int(n.value))]]) else Err(n.message)
        else Ok(got.value)
  }

  /** What a structured answer is: a count is the one row `{count: n}`; an
      average or a sample is what the database returned for the chosen
      statement; with a connection, only an empty catalog fails before the
      database is asked. */
  lemma StructuredShape(q: string, schema: Catalog, db: Database)
    requires forall k :: 0 <= k < |InferredOf(schema)| ==> InferredOf(schema)[k].0 in Keys(schema.tables)
    ensures var r := StructuredAnswer(q, schema, db);
      && (r.Ok? && ContainsAny(Lower(q), CountTerms) ==>
            exists n :: r.value == [[("count", Int(n))]])
      && (r.Ok? && !ContainsAny(Lower(q), CountTerms) ==>
            ShapeFor(q, schema).Ok? && r == db.run(ShapeFor(q, schema).value))
      && (db.refusal.None? && schema.tables == [] ==> r == Err("list index out of range"))
      && (db.refusal.None? && schema.tables != [] ==> ShapeFor(q, schema).Ok?)
  {
    ShapeTables(q, schema);
    var r := StructuredAnswer(q, schema, db);
    if r.Ok? && ContainsAny(Lower(q), CountTerms) {
      var n := CountOf(db.run(ShapeFor(q, schema).value).value).value;
      assert r.value == [[("count", Int(n))]];
    }
  }

  /** `_execute_structured` with its loops. */
  method ExecuteStructured(q: string, schema: Catalog, db: Database) returns (r: Result<seq<Row>>)
    ensures r == StructuredAnswer(q, schema, db)
  {
    if db.refusal.Some? {
      return Err(db.refusal.value);
    }
    var shape := SelectShape(q, schema);
    if shape.Err? {
      return Err(shape.message);
    }
    var got := db.run(shape.value);
    if got.Err? {
      return Err(got.message);
    }
    if shape.value.CountRows? {
      var n := CountOf(got.value);
      r := if n.Ok? then Ok([[("count", Int(n.value))]]) else Err(n.message);
    } else {
      r := Ok(got.value);
    }
  }

  /** `top_k` of the document search `process_query` makes. */
  const SearchTopK: nat := 5

  datatype Metrics = Metrics(time: real, cacheHit: bool)

  /** `out['results']`: each part present only when it was computed. */
  datatype Results = Results(structured: Option<seq<Row>>, documents: Option<Documents.SearchOutcome>)

  /** `{query, type, results, metrics}` */
  datatype Envelope = Envelope(query: string, qtype: QueryType, results: Results, metrics: Metrics)

  /** What `process_query` returns: an envelope, or `{error}`. */
  datatype Reply = Answer(env: Envelope) | Failure(error: string)

  /** `{q, t, type}` */
  datatype HistoryEntry = HistoryEntry(q: string, t: real, qtype: QueryType)

  predicate WantsStructured(t: QueryType) {
    t == Structured || t == Hybrid
  }

  predicate WantsDocuments(t: QueryType) {
    t == Document || t == Hybrid
  }

  /** An envelope answers `q`: its type is the classification of `q`, the
      structured part is there exactly for structured and hybrid questions,
      the document part exactly for document and hybrid ones when there is a
      document processor. */
  predicate Fits(env: Envelope, q: string, hasDocs: bool) {
    && env.query == q
    && env.qtype == Classify(q)
    && (env.results.structured.Some? <==> WantsStructured(env.qtype))
    && (env.results.documents.Some? <==> WantsDocuments(env.qtype) && hasDocs)
  }

  /** The stored envelope after `res['metrics']['cache_hit'] = True`. */
  function AsHit(env: Envelope): (r: Envelope)
    ensures r.query == env.query && r.qtype == env.qtype && r.results == env.results
    ensures r.metrics.time == env.metrics.time && r.metrics.cacheHit
  {
    env.(metrics := env.metrics.(cacheHit := true))
  }

  /** `history[-100:]` */
  function Recent(history: seq<HistoryEntry>): (r: seq<HistoryEntry>)
    ensures |r| == if |history| < 100 then |history| else 100
    ensures r == history[|history| - |r|..]
  {
    if |history| <= 100 then history else history[|history| - 100..]
  }

  /** After one more query the window slides: the new entry comes last and
      the oldest one leaves once the window is full. */
  lemma {:induction false} RecentSnoc(history: seq<HistoryEntry>, e: HistoryEntry)
    ensures Recent(history + [e]) ==
      (if |history| < 100 then Recent(history) else Recent(history)[1..]) + [e]
  {
    var h := history + [e];
    if |history| < 100 {
      assert Recent(h) == h;
    } else {
      assert Recent(h) == h[|h| - 100..];
      assert Recent(history)[1..] == history[|history| - 99..];
      assert h[|h| - 100..] == history[|history| - 99..] + [e];
    }
  }

  /** The engine: the catalog it plans against, its database, an optional
      document processor, the result cache and the query history. */
  class QueryEngine {
    const schema: Catalog
    const db: Database
    const docProcessor: Documents.DocumentProcessor?
    var cache: map<string, Envelope>
    var history: seq<HistoryEntry>

    /** Every cached envelope answers its key, and every history entry
        carries the classification of its question. */
    ghost predicate Valid()
      reads this, docProcessor
    {
      && (docProcessor != null ==> docProcessor.Valid())
      && (forall k :: k in cache ==> Fits(cache[k], k, docProcessor != null))
      && (forall i :: 0 <= i < |history| ==> history[i].qtype == Classify(history[i].q))
    }

    /** `QueryEngine(connection_string, schema, doc_processor)` */
    constructor (schema: Catalog, db: Database, docProcessor: Documents.DocumentProcessor?)
      requires docProcessor != null ==> docProcessor.Valid()
      ensures Valid()
      ensures this.schema == schema && this.db == db && this.docProcessor == docProcessor
      ensures cache == map[] && history == []
    {
      this.schema := schema;
      this.db := db;
      this.docProcessor := docProcessor;
      cache := map[];
      history := [];
    }

    /** `get_history()`: the last hundred queries at most, oldest first. */
    function GetHistory(): (r: seq<HistoryEntry>)
      reads this
      ensures r == Recent(history)
      ensures |r| == if |history| < 100 then |history| else 100
      ensures r == history[|history| - |r|..]
    {
      Recent(history)
    }

    /** `process_query(q)`; `elapsed` is the rounded time the call took. */
    method ProcessQuery(q: string, elapsed: real) returns (reply: Reply)
      requires Valid()
      modifies this
      ensures Valid()
      // a hit: the stored envelope, now flagged as a hit, and nothing else
      ensures q in old(cache) ==>
        && reply == Answer(AsHit(old(cache)[q]))
        && cache == old(cache)[q := AsHit(old(cache)[q])]
        && history == old(history)
      // a miss whose structured part fails: the error, and nothing stored
      ensures q !in old(cache) && WantsStructured(Classify(q)) && StructuredAnswer(q, schema, db).Err? ==>
        && reply == Failure(StructuredAnswer(q, schema, db).message)
        && cache == old(cache) && history == old(history)
      // a miss that succeeds: a fresh envelope, cached and logged
      ensures q !in old(cache) && !(WantsStructured(Classify(q)) && StructuredAnswer(q, schema, db).Err?) ==>
        && reply.Answer?
        && Fits(reply.env, q, docProcessor != null)
        && (WantsStructured(Classify(q)) ==> reply.env.results.structured == Some(StructuredAnswer(q, schema, db).value))
        && (reply.env.results.documents.Some? ==>
              docProcessor != null &&
              Documents.SearchAnswer(docProcessor.docs, docProcessor.nnBuilt, q, SearchTopK, reply.env.results.documents.value))
        && reply.env.metrics == Metrics(elapsed, false)
        && cache == old(cache)[q := reply.env]
        && history == old(history) + [HistoryEntry(q, elapsed, Classify(q))]
    {
      if q in cache {
        var res := AsHit(cache[q]);
        cache := cache[q := res];
        return Answer(res);
      }
      var qtype := Classify(q);
      var structured: Option<seq<Row>> := None;
      var documents: Option<Documents.SearchOutcome> := None;
      if WantsStructured(qtype) {
        var rows := ExecuteStructured(q, schema, db);
        if rows.Err? {
          return Failure(rows.message);
        }
        structured := Some(rows.value);
      }
      if WantsDocuments(qtype) && docProcessor != null {
        var found := docProcessor.Search(q, SearchTopK);
        documents := Some(found);
      }
      var out := Envelope(q, qtype, Results(structured, documents), Metrics(elapsed, false));
      cache := cache[q := out];
      history := history + [HistoryEntry(q, elapsed, qtype)];
      reply := Answer(out);
    }
  }

  /** The same question twice: when the first call answers, the second is
      that answer flagged as a cache hit, and only the first call can have
      added to the history. */
  method AskTwice(engine: QueryEngine, q: string, t1: real, t2: real) returns (first: Reply, second: Reply)
    requires engine.Valid()
    modifies engine
    ensures engine.Valid()
    ensures first.Answer? ==> second == Answer(AsHit(first.env))
    ensures first.Answer? ==> |engine.history| == |old(engine.history)| + (if q in old(engine.cache) then 0 else 1)
  {
    first := engine.ProcessQuery(q, t1);
    second := engine.ProcessQuery(q, t2);
  }
}
