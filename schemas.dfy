/** `SchemaDiscovery`: the catalog `analyze_database` builds from what the
    database inspector reports, the roles it infers from table names, and
    the term-to-column candidates of `map_natural_language_to_schema`. The
    inspector and `difflib.get_close_matches` are inputs. */
module Schemas {
  import opened Wrappers
  import opened Text
  import opened Dicts

  /** The purposes `analyze_database` recognises. */
  datatype Role = Employees | Departments

  const EmployeeMarks: seq<string> := ["emp", "staff", "person", "personnel"]
  const DepartmentMarks: seq<string> := ["dept", "division"]

  /** `{name, type}`: a column as the inspector reports it, its type already
      rendered as text. */
  datatype Column = Column(name: string, typ: string)

  /** A foreign key as the inspector reports it; passed through unread. */
  datatype ForeignKey = ForeignKey(constrainedColumns: seq<string>, referredTable: string, referredColumns: seq<string>)

  /** One table as the inspector reports it. */
  datatype RawTable = RawTable(name: string, columns: seq<Column>, foreignKeys: seq<ForeignKey>)

  /** What the inspector yields: the tables it got through, then the message
      of the exception it raised, if it raised one. */
  datatype Listing = Listing(tables: seq<RawTable>, failure: Option<string>)

  /** `{columns, foreign_keys}` */
  datatype TableInfo = TableInfo(columns: seq<Column>, foreignKeys: seq<ForeignKey>)

  /** The schema dictionary: `tables`, and either `inferred` or `error`. */
  datatype Catalog = Catalog(tables: Dict<TableInfo>, inferred: Option<Dict<Role>>, error: Option<string>)

  /** The role a table name suggests: employee marks win over department
      marks; a name with neither has no role. */
  function InferRole(name: string): (r: Option<Role>)
    ensures r == Some(Employees) <==> ContainsAny(Lower(name), EmployeeMarks)
    ensures r == Some(Departments) <==>
      !ContainsAny(Lower(name), EmployeeMarks) && ContainsAny(Lower(name), DepartmentMarks)
  {
    var lower := Lower(name);
    if ContainsAny(lower, EmployeeMarks) then Some(Employees)
    else if ContainsAny(lower, DepartmentMarks) then Some(Departments)
    else None
  }

  /** `emp_dept` carries both marks and is an employees table. */
  lemma EmployeesWin()
    ensures ContainsAny(Lower("emp_dept"), DepartmentMarks)
    ensures InferRole("emp_dept") == Some(Employees)
  {
    LowerOfLower("emp_dept");
    assert OccursAt("emp_dept", "emp", 0);
    assert OccursAt("emp_dept", "dept", 4);
    assert Contains("emp_dept", EmployeeMarks[0]);
    assert Contains("emp_dept", DepartmentMarks[0]);
  }

  /** Table names are matched case-insensitively. */
  lemma InferRoleIgnoresCase(name: string)
    ensures InferRole(Lower(name)) == InferRole(name)
  {
    LowerIdempotent(name);
  }

  /** The marks are substrings, and `departments` does not contain `dept`:
      a table named `departments` gets no role. */
  lemma DepartmentsHasNoRole()
    ensures InferRole("departments") == None
  {
    LowerOfLower("departments");
    DepartmentsLacksMarks("departments");
  }

  lemma DepartmentsLacksMarks(s: string)
    requires s == "departments"
    ensures !ContainsAny(s, EmployeeMarks) && !ContainsAny(s, DepartmentMarks)
  {
    NotContainsByChar(s, "staff", 'f');
    NotContainsByChar(s, "person", 'o');
    NotContainsByChar(s, "personnel", 'o');
    NotContainsByChar(s, "division", 'v');
    forall i | 0 <= i <= |s| - 3
      ensures !OccursAt(s, "emp", i)
    {
      assert s[i..i + 3][0] == s[i] && s[i..i + 3][1] == s[i + 1];
    }
    forall i | 0 <= i <= |s| - 4
      ensures !OccursAt(s, "dept", i)
    {
      assert s[i..i + 4][0] == s[i] && s[i..i + 4][3] == s[i + 3];
    }
    assert !Contains(s, EmployeeMarks[0]);
    assert !Contains(s, DepartmentMarks[0]);
  }

  /** `schema['tables']` after the inspector's tables have been stored in
      order: a table reported twice keeps its first place and its last
      description. */
  function TablesOf(ts: seq<RawTable>): (r: Dict<TableInfo>)
    ensures DistinctKeys(r)
  {
    if ts == [] then []
    else
      var t := ts[|ts| - 1];
      Put(TablesOf(ts[..|ts| - 1]), t.name, TableInfo(t.columns, t.foreignKeys))
  }

  /** The catalog describes each table by the inspector's last report of
      it: its columns, names and types in the inspector's order, and its
      foreign keys. */
  lemma {:induction false} TablesLookup(ts: seq<RawTable>, i: nat)
    requires i < |ts|
    requires forall j :: i < j < |ts| ==> ts[j].name != ts[i].name
    ensures Get(TablesOf(ts), ts[i].name) == Some(TableInfo(ts[i].columns, ts[i].foreignKeys))
  {
    if i < |ts| - 1 {
      var init := ts[..|ts| - 1];
      TablesLookup(init, i);
    }
  }

  /** The catalog's tables are exactly the names the inspector reported. */
  lemma {:induction false} TablesKeys(ts: seq<RawTable>, name: string)
    ensures name in Keys(TablesOf(ts)) <==> Reported(ts, name)
  {
    if ts != [] {
      var init, last := ts[..|ts| - 1], ts[|ts| - 1];
      TablesKeys(init, name);
      PutKeys(TablesOf(init), last.name, TableInfo(last.columns, last.foreignKeys), name);
      ReportedSnoc(ts, name);
    }
  }

  /** Some reported table has this name. */
  predicate Reported(ts: seq<RawTable>, name: string) {
    exists i :: 0 <= i < |ts| && ts[i].name == name
  }

  /** A name is among the reported tables when it is among all but the last
      or is the last. */
  lemma ReportedSnoc(ts: seq<RawTable>, name: string)
    requires ts != []
    ensures Reported(ts, name) <==> Reported(ts[..|ts| - 1], name) || ts[|ts| - 1].name == name
  {
    var init := ts[..|ts| - 1];
    if exists i :: 0 <= i < |ts| && ts[i].name == name {
      var i :| 0 <= i < |ts| && ts[i].name == name;
      if i < |init| {
        assert init[i] == ts[i];
      }
    }
    if exists i :: 0 <= i < |init| && init[i].name == name {
      var i :| 0 <= i < |init| && init[i].name == name;
      assert init[i] == ts[i];
    }
  }

  /** `inferred`: the tables with a role, in catalog order. */
  function Inferred(tables: Dict<TableInfo>): Dict<Role> {
    if tables == [] then []
    else
      var prev := Inferred(tables[..|tables| - 1]);
      var name := tables[|tables| - 1].0;
      var role := InferRole(name);
      if role.Some? then prev + [(name, role.value)] else prev
  }

  /** Every inferred entry is a table of the catalog with the role its name
      suggests, and every table with a role is inferred. */
  lemma {:induction false} InferredExact(tables: Dict<TableInfo>)
    ensures forall k :: 0 <= k < |Inferred(tables)| ==>
      Inferred(tables)[k].0 in Keys(tables) && InferRole(Inferred(tables)[k].0) == Some(Inferred(tables)[k].1)
    ensures forall i :: 0 <= i < |tables| && InferRole(tables[i].0).Some? ==>
      (tables[i].0, InferRole(tables[i].0).value) in Inferred(tables)
  {
    if tables != [] {
      var init := tables[..|tables| - 1];
      InferredExact(init);
      assert forall k :: 0 <= k < |init| ==> Keys(init)[k] == Keys(tables)[k];
      forall i | 0 <= i < |tables| - 1 && InferRole(tables[i].0).Some?
        ensures (tables[i].0, InferRole(tables[i].0).value) in Inferred(tables)
      {
        assert tables[i] == init[i];
      }
    }
  }

  /** With distinct table names, `inferred` maps each table with a role to
      that role, and holds no other key: its keys are keys of `tables`. */
  lemma InferredLookup(tables: Dict<TableInfo>, name: string)
    requires DistinctKeys(tables)
    ensures Get(Inferred(tables), name) == if name in Keys(tables) then InferRole(name) else None
  {
    InferredExact(tables);
    InferredDistinct(tables);
    var inf := Inferred(tables);
    FindUnique(inf, name);
    if name in Keys(tables) {
      var i :| 0 <= i < |tables| && tables[i].0 == name;
      if InferRole(name).Some? {
        var k :| 0 <= k < |inf| && inf[k] == (name, InferRole(name).value);
      }
    }
  }

  /** `inferred` has no repeated key when `tables` has none. */
  lemma {:induction false} InferredDistinct(tables: Dict<TableInfo>)
    requires DistinctKeys(tables)
    ensures DistinctKeys(Inferred(tables))
  {
    if tables != [] {
      var init := tables[..|tables| - 1];
      InferredDistinct(init);
      InferredExact(init);
      assert forall k :: 0 <= k < |init| ==> Keys(init)[k] == init[k].0;
    }
  }

  /** `analyze_database(connection_string)` over what the inspector reports. */
  method AnalyzeDatabase(listing: Listing) returns (schema: Catalog)
    ensures schema.tables == TablesOf(listing.tables)
    ensures listing.failure.None? ==> schema.inferred == Some(Inferred(schema.tables)) && schema.error.None?
    ensures listing.failure.Some? ==> schema.inferred.None? && schema.error == listing.failure
  {
    var tables := StoreTables(listing.tables);
    if listing.failure.Some? {
      return Catalog(tables, None, listing.failure);
    }
    var inferred := InferRoles(tables);
    schema := Catalog(tables, Some(inferred), None);
  }

  /** The loop filling `schema['tables']`. */
  method StoreTables(ts: seq<RawTable>) returns (tables: Dict<TableInfo>)
    ensures tables == TablesOf(ts)
  {
    tables := [];
    for i := 0 to |ts|
      invariant tables == TablesOf(ts[..i])
    {
      var t := ts[i];
      assert ts[..i + 1][..i] == ts[..i];
      tables := Put(tables, t.name, TableInfo(t.columns, t.foreignKeys));
    }
    assert ts[..|ts|] == ts;
  }

  /** The loop filling `inferred`. */
  method InferRoles(tables: Dict<TableInfo>) returns (inferred: Dict<Role>)
    requires DistinctKeys(tables)
    ensures inferred == Inferred(tables)
  {
    inferred := [];
    for i := 0 to |tables|
      invariant inferred == Inferred(tables[..i])
    {
      var name := tables[i].0;
      var role := InferRole(name);
      InferStep(tables, i);
      if role.Some? {
        inferred := Put(inferred, name, role.value);
      }
    }
    assert tables[..|tables|] == tables;
  }

  /** Storing the role of the next table extends `inferred` at its end. */
  lemma InferStep(tables: Dict<TableInfo>, i: nat)
    requires DistinctKeys(tables) && i < |tables|
    ensures DistinctKeys(Inferred(tables[..i]))
    ensures var name := tables[i].0;
      Inferred(tables[..i + 1]) ==
        if InferRole(name).Some? then Put(Inferred(tables[..i]), name, InferRole(name).value)
        else Inferred(tables[..i])
  {
    var init := tables[..i];
    var name := tables[i].0;
    assert tables[..i + 1][..i] == init;
    InferredExact(init);
    InferredDistinct(init);
    var inferred := Inferred(init);
    assert name !in Keys(inferred) by {
      forall k | 0 <= k < |inferred|
        ensures inferred[k].0 != name
      {
        var j :| 0 <= j < |init| && Keys(init)[j] == inferred[k].0;
      }
    }
  }

  /** The characters `strip(' ,.?')` removes. */
  predicate IsTokenEdge(c: char) {
    c == ' ' || c == ',' || c == '.' || c == '?'
  }

  /** The query tokens: token `k` is word `k` of the lower-cased query with
      spaces, commas, dots and question marks cut from both ends, and what is
      left neither starts nor ends with one of them. */
  function Tokens(query: string): (r: seq<string>)
    ensures |r| == |Words(Lower(query))|
    ensures forall k :: 0 <= k < |r| ==> CutFrom(r[k], Words(Lower(query))[k], IsTokenEdge)
    ensures forall k :: 0 <= k < |r| ==> r[k] == [] || (!IsTokenEdge(r[k][0]) && !IsTokenEdge(r[k][|r[k]| - 1]))
  {
    var ws := Words(Lower(query));
    var r := seq(|ws|, k requires 0 <= k < |ws| => StripBy(ws[k], IsTokenEdge));
    assert forall k :: 0 <= k < |r| ==>
      CutFrom(r[k], ws[k], IsTokenEdge) && (r[k] == [] || (!IsTokenEdge(r[k][0]) && !IsTokenEdge(r[k][|r[k]| - 1]))) by {
      forall k | 0 <= k < |r|
        ensures CutFrom(r[k], ws[k], IsTokenEdge)
        ensures r[k] == [] || (!IsTokenEdge(r[k][0]) && !IsTokenEdge(r[k][|r[k]| - 1]))
      {
        StripByCut(ws[k], IsTokenEdge);
        StripByEnds(ws[k], IsTokenEdge);
      }
    }
    r
  }

  /** The emptiness filter runs before the strip: a lone `?` is an empty token. */
  lemma QuestionMarkToken()
    ensures Tokens("?") == [""]
  {
    LowerOfLower("?");
    var q := "?";
    assert WordEnd(q) == 1 && q[..1] == q && q[1..] == [];
    assert Words(q) == [q] + Words([]);
  }

  /** `(table, column)` for each column of one table. */
  function ColumnsOf(table: string, cols: seq<Column>): (r: seq<(string, string)>)
    ensures |r| == |cols|
    ensures forall j :: 0 <= j < |cols| ==> r[j] == (table, cols[j].name)
  {
    seq(|cols|, j requires 0 <= j < |cols| => (table, cols[j].name))
  }

  /** `all_columns`: tables in catalog order, columns in table order. */
  function AllColumns(tables: Dict<TableInfo>): seq<(string, string)> {
    if tables == [] then []
    else
      var last := tables[|tables| - 1];
      AllColumns(tables[..|tables| - 1]) + ColumnsOf(last.0, last.1.columns)
  }

  /** `all_columns` holds a pair exactly when that table has that column. */
  lemma {:induction false} AllColumnsHas(tables: Dict<TableInfo>, table: string, column: string)
    ensures (table, column) in AllColumns(tables) <==>
      exists i, j :: 0 <= i < |tables| && 0 <= j < |tables[i].1.columns| &&
        tables[i].0 == table && tables[i].1.columns[j].name == column
  {
    if tables != [] {
      var init, last := tables[..|tables| - 1], tables[|tables| - 1];
      AllColumnsHas(init, table, column);
      var cols := ColumnsOf(last.0, last.1.columns);
      if (table, column) in AllColumns(init) {
        var i, j :| 0 <= i < |init| && 0 <= j < |init[i].1.columns| &&
          init[i].0 == table && init[i].1.columns[j].name == column;
        assert tables[i] == init[i];
      } else if (table, column) in cols {
        var j :| 0 <= j < |cols| && cols[j] == (table, column);
        assert tables[|tables| - 1] == last;
      }
      if (exists i, j :: 0 <= i < |tables| && 0 <= j < |tables[i].1.columns| &&
            tables[i].0 == table && tables[i].1.columns[j].name == column) {
        var i, j :| 0 <= i < |tables| && 0 <= j < |tables[i].1.columns| &&
          tables[i].0 == table && tables[i].1.columns[j].name == column;
        if i < |init| {
          assert init[i] == tables[i];
        } else {
          assert cols[j] == (table, column);
        }
      }
    }
  }

  /** `col_names` */
  function ColNames(all: seq<(string, string)>): (r: seq<string>)
    ensures |r| == |all|
    ensures forall i :: 0 <= i < |all| ==> r[i] == all[i].1
  {
    seq(|all|, i requires 0 <= i < |all| => all[i].1)
  }

  /** `names.index(m)`: the first position of `m`. */
  function IndexOf(names: seq<string>, m: string): (r: nat)
    requires m in names
    ensures r < |names| && names[r] == m
    ensures forall i :: 0 <= i < r ==> names[i] != m
  {
    if names[0] == m then 0 else 1 + IndexOf(names[1..], m)
  }

  /** `{table, column}` */
  datatype Candidate = Candidate(table: string, column: string)

  /** `get_close_matches(word, possibilities, n=3, cutoff=0.6)` only returns
      some of the possibilities. */
  ghost predicate MatchesFrom(closeMatches: (string, seq<string>) -> seq<string>) {
    forall word, names, m :: m in closeMatches(word, names) ==> m in names
  }

  /** The candidate for one token, if it has a close match: the first match,
      with the table of that column name's first occurrence. */
  function CandidateFor(tok: string, all: seq<(string, string)>, closeMatches: (string, seq<string>) -> seq<string>): (r: Option<Candidate>)
    requires MatchesFrom(closeMatches)
    ensures r.Some? <==> closeMatches(tok, ColNames(all)) != []
  {
    var names := ColNames(all);
    var matches := closeMatches(tok, names);
    if matches == [] then None
    else
      assert matches[0] in matches;
      Some(Candidate(all[IndexOf(names, matches[0])].0, matches[0]))
  }

  /** `candidates` after the tokens have been looked at in order. */
  function Candidates(tokens: seq<string>, all: seq<(string, string)>, closeMatches: (string, seq<string>) -> seq<string>): (r: Dict<Candidate>)
    requires MatchesFrom(closeMatches)
    ensures DistinctKeys(r)
  {
    if tokens == [] then []
    else
      var prev := Candidates(tokens[..|tokens| - 1], all, closeMatches);
      var tok := tokens[|tokens| - 1];
      var c := CandidateFor(tok, all, closeMatches);
      if c.Some? then Put(prev, tok, c.value) else prev
  }

  /** A token is a key of `candidates` exactly when it has a close match, and
      then it maps to its candidate; nothing else is a key. */
  lemma {:induction false} CandidatesLookup(tokens: seq<string>, all: seq<(string, string)>,
                                            closeMatches: (string, seq<string>) -> seq<string>, key: string)
    requires MatchesFrom(closeMatches)
    ensures Get(Candidates(tokens, all, closeMatches), key) ==
      if key in tokens then CandidateFor(key, all, closeMatches) else None
  {
    if tokens != [] {
      var init := tokens[..|tokens| - 1];
      CandidatesLookup(init, all, closeMatches, key);
      assert tokens == init + [tokens[|tokens| - 1]];
    }
  }

  /** The candidate names the first close match, and the table in which that
      column name first occurs in `all_columns`. */
  lemma CandidateMeaning(tok: string, all: seq<(string, string)>, closeMatches: (string, seq<string>) -> seq<string>)
    requires MatchesFrom(closeMatches)
    requires CandidateFor(tok, all, closeMatches).Some?
    ensures var c := CandidateFor(tok, all, closeMatches).value;
      && c.column == closeMatches(tok, ColNames(all))[0]
      && (exists i :: 0 <= i < |all| && all[i] == (c.table, c.column) &&
            forall h :: 0 <= h < i ==> all[h].1 != c.column)
  {
    var names := ColNames(all);
    var m := closeMatches(tok, names)[0];
    var i := IndexOf(names, m);
    assert all[i] == (all[i].0, m);
  }

  /** One more table's columns at the end of the catalog. */
  lemma AllColumnsSnoc(tables: Dict<TableInfo>, i: nat)
    requires i < |tables|
    ensures AllColumns(tables[..i + 1]) ==
      AllColumns(tables[..i]) + ColumnsOf(tables[i].0, tables[i].1.columns)
  {
    assert tables[..i + 1][..i] == tables[..i];
  }

  /** One more column of a table. */
  lemma ColumnsOfSnoc(table: string, columns: seq<Column>, j: nat)
    requires j < |columns|
    ensures ColumnsOf(table, columns[..j + 1]) == ColumnsOf(table, columns[..j]) + [(table, columns[j].name)]
  {
    assert ColumnsOf(table, columns[..j + 1])[j] == (table, columns[j].name);
  }

  /** One more token looked at. */
  lemma CandidatesSnoc(tokens: seq<string>, k: nat, all: seq<(string, string)>,
                       closeMatches: (string, seq<string>) -> seq<string>)
    requires MatchesFrom(closeMatches) && k < |tokens|
    ensures var prev := Candidates(tokens[..k], all, closeMatches);
      var c := CandidateFor(tokens[k], all, closeMatches);
      Candidates(tokens[..k + 1], all, closeMatches) == if c.Some? then Put(prev, tokens[k], c.value) else prev
  {
    assert tokens[..k + 1][..k] == tokens[..k];
  }

  /** The loops that build `all_columns`. */
  method CollectColumns(tables: Dict<TableInfo>) returns (all: seq<(string, string)>)
    ensures all == AllColumns(tables)
  {
    all := [];
    for i := 0 to |tables|
      invariant all == AllColumns(tables[..i])
    {
      var table, columns := tables[i].0, tables[i].1.columns;
      ghost var before := all;
      for j := 0 to |columns|
        invariant all == before + ColumnsOf(table, columns[..j])
      {
        ColumnsOfSnoc(table, columns, j);
        all := all + [(table, columns[j].name)];
      }
      assert columns[..|columns|] == columns;
      AllColumnsSnoc(tables, i);
    }
    assert tables[..|tables|] == tables;
  }

  /** `map_natural_language_to_schema(query, schema)` */
  method MapTerms(query: string, schema: Catalog, closeMatches: (string, seq<string>) -> seq<string>)
      returns (candidates: Dict<Candidate>)
    requires MatchesFrom(closeMatches)
    ensures candidates == Candidates(Tokens(query), AllColumns(schema.tables), closeMatches)
  {
    var tokens := Tokens(query);
    var all := CollectColumns(schema.tables);
    var names := ColNames(all);
    candidates := [];
    for k := 0 to |tokens|
      invariant candidates == Candidates(tokens[..k], all, closeMatches)
    {
      var tok := tokens[k];
      var matches := closeMatches(tok, names);
      CandidatesSnoc(tokens, k, all, closeMatches);
      if matches != [] {
        assert matches[0] in matches;
        var idx := IndexOf(names, matches[0]);
        candidates := Put(candidates, tok, Candidate(all[idx].0, matches[0]));
      }
    }
    assert tokens[..|tokens|] == tokens;
  }
}
