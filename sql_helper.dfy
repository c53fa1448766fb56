/** The text helpers of the SQL branch: reading a database's table
    structure, extracting a query from model output, checking the tables a
    query names, and cleaning up model responses. The sqlite3 connection is
    replaced by the data it would return: whether the file exists, the
    tables in fetch order with their `PRAGMA table_info` rows, and the set
    of table names. `json.loads` is a parameter. */
module SqlHelper {
  import opened Wrappers
  import opened Json
  import opened Text

  /** The exceptions these helpers raise. */
  datatype SqlError =
    | FileNotFound(path: string)         // FileNotFoundError: no file at the path
    | NotASqliteDatabase(path: string)   // ValueError: the path does not end in ".db"
    | NoTables                           // ValueError: the database has no table
    | NoColumns(table: string)           // ValueError: a table reports no column
    | IndexError                         // IndexError: `words[...]` past the end

  // ---------------------------------------------------------------------
  // get_database_structure

  /** One row of `PRAGMA table_info(t)`: (cid, name, type, notnull,
      dflt_value, pk). */
  datatype PragmaRow = PragmaRow(
    cid: int, name: string, declaredType: string,
    notNull: bool, defaultValue: Option<string>, primaryKey: int)

  /** A table of the database as sqlite reports it: its name from
      `sqlite_master` and the rows of its `PRAGMA table_info`. */
  datatype CatalogTable = CatalogTable(name: string, rows: seq<PragmaRow>)

  /** The record that is serialised to JSON: `{"name", "datatype"}` per
      column, `{"table", "columns"}` per table, `{"database", "tables"}`. */
  datatype Column = Column(name: string, dataType: string)
  datatype TableInfo = TableInfo(table: string, columns: seq<Column>)
  datatype DatabaseInfo = DatabaseInfo(database: string, tables: seq<TableInfo>)

  predicate EndsWith(s: string, suffix: string) {
    |suffix| <= |s| && s[|s| - |suffix|..] == suffix
  }

  /** `db_path.lower().endswith('.db')`. */
  predicate HasDbSuffix(dbPath: string) {
    EndsWith(Lower(dbPath), ".db")
  }

  /** `k` is the first table, in fetch order, that reports no column. */
  predicate FirstTableWithoutColumns(catalog: seq<CatalogTable>, k: int) {
    && 0 <= k < |catalog|
    && catalog[k].rows == []
    && forall j :: 0 <= j < k ==> catalog[j].rows != []
  }

  /** The columns record of one table: `{"name": col[1], "datatype": col[2]}`
      for each pragma row, in order. */
  function ColumnsOf(rows: seq<PragmaRow>): (cols: seq<Column>)
    ensures |cols| == |rows|
    ensures forall j :: 0 <= j < |rows| ==> cols[j] == Column(rows[j].name, rows[j].declaredType)
  {
    seq(|rows|, j requires 0 <= j < |rows| => Column(rows[j].name, rows[j].declaredType))
  }

  /** Validates the path, then walks the tables in fetch order, appending
      one entry per table; the first table without columns aborts the walk.
      The existence check comes before the suffix check, so a missing file
      is reported as missing whatever its name. */
  method GetDatabaseStructure(dbPath: string, fileExists: bool, catalog: seq<CatalogTable>)
    returns (r: Result<DatabaseInfo, SqlError>)
    ensures !fileExists ==> r == Failure(FileNotFound(dbPath))
    ensures fileExists && !HasDbSuffix(dbPath) ==> r == Failure(NotASqliteDatabase(dbPath))
    ensures fileExists && HasDbSuffix(dbPath) && catalog == [] ==> r == Failure(NoTables)
    ensures fileExists && HasDbSuffix(dbPath) ==>
      forall k :: FirstTableWithoutColumns(catalog, k) ==> r == Failure(NoColumns(catalog[k].name))
    ensures r.Success? <==>
      fileExists && HasDbSuffix(dbPath) && catalog != [] &&
      forall k :: 0 <= k < |catalog| ==> catalog[k].rows != []
    ensures r.Success? ==>
      && r.value.database == dbPath
      && |r.value.tables| == |catalog|
      && forall k :: 0 <= k < |catalog| ==>
           && r.value.tables[k].table == catalog[k].name
           && r.value.tables[k].columns == ColumnsOf(catalog[k].rows)
  {
    if !fileExists {
      return Failure(FileNotFound(dbPath));
    }
    if !HasDbSuffix(dbPath) {
      return Failure(NotASqliteDatabase(dbPath));
    }
    if catalog == [] {
      return Failure(NoTables);
    }
    var tables: seq<TableInfo> := [];
    var k := 0;
    while k < |catalog|
      invariant 0 <= k <= |catalog|
      invariant |tables| == k
      invariant forall j :: 0 <= j < k ==> catalog[j].rows != []
      invariant forall j :: 0 <= j < k ==>
        tables[j].table == catalog[j].name && tables[j].columns == ColumnsOf(catalog[j].rows)
    {
      var table := catalog[k];
      if table.rows == [] {
        assert FirstTableWithoutColumns(catalog, k);
        return Failure(NoColumns(table.name));
      }
      tables := tables + [TableInfo(table.name, ColumnsOf(table.rows))];
      k := k + 1;
    }
    return Success(DatabaseInfo(dbPath, tables));
  }

  // ---------------------------------------------------------------------
  // extract_sql_query: re.search(r"(SELECT\s.*?;)", text, IGNORECASE | DOTALL)

  /** `SELECT\s` matches at `i`, ignoring case. */
  predicate SelectAt(text: string, i: int) {
    0 <= i && i + 7 <= |text| && Lower(text[i..i + 6]) == "select" && IsSpace(text[i + 6])
  }

  /** The whole pattern matches at `i`: `SELECT\s` there and a `;` later. */
  predicate MatchableAt(text: string, i: int) {
    SelectAt(text, i) && exists j :: i + 7 <= j < |text| && text[j] == ';'
  }

  /** The pattern matches `text[i..j + 1]`: `.*?` is lazy, so `j` is the
      first `;` after `SELECT\s`. */
  predicate MatchSpan(text: string, i: int, j: int) {
    && SelectAt(text, i)
    && i + 7 <= j < |text| && text[j] == ';'
    && forall k :: i + 7 <= k < j ==> text[k] != ';'
  }

  /** The first occurrence of `c` at or after `from`. */
  function FindFrom(text: string, c: char, from: nat): (r: Option<nat>)
    ensures r.Some? ==> from <= r.value < |text| && text[r.value] == c &&
                        forall k :: from <= k < r.value ==> text[k] != c
    ensures r.None? ==> forall k :: from <= k < |text| ==> text[k] != c
    decreases |text| - from
  {
    if from >= |text| then None
    else if text[from] == c then Some(from)
    else FindFrom(text, c, from + 1)
  }

  /** The regex engine's search: try each start position from `from` on,
      returning the span of the first one at which the pattern matches. */
  function SearchFrom(text: string, from: nat): (r: Option<(nat, nat)>)
    ensures r.Some? ==> from <= r.value.0 && MatchSpan(text, r.value.0, r.value.1) &&
                        forall i :: from <= i < r.value.0 ==> !MatchableAt(text, i)
    ensures r.None? ==> forall i :: from <= i ==> !MatchableAt(text, i)
    decreases |text| - from
  {
    if from >= |text| then None
    else if SelectAt(text, from) then
      match FindFrom(text, ';', from + 7)
      case Some(j) => Some((from, j))
      case None => SearchFrom(text, from + 1)
    else SearchFrom(text, from + 1)
  }

  /** A matched span starts with `s` or `S` and ends with `;`, so `strip()`
      leaves it as it is. */
  lemma MatchIsStripped(text: string, i: int, j: int)
    requires MatchSpan(text, i, j)
    ensures Strip(text[i..j + 1], Whitespace) == text[i..j + 1]
  {
    var m := text[i..j + 1];
    assert m[..6] == text[i..i + 6];
    assert LowerChar(m[0]) == Lower(m[..6])[0];
    assert !IsSpace(m[0]);
    StripNoop(m, Whitespace);
  }

  /** A matched span is a statement of its own: `select`, a whitespace
      character, and a single `;` at the end, taken from the text and left
      as it is by `strip()`. */
  lemma MatchedStatement(text: string, i: int, j: int)
    requires MatchSpan(text, i, j)
    ensures var m := text[i..j + 1];
      && |m| >= 8
      && Lower(m[..6]) == "select" && IsSpace(m[6])
      && m[|m| - 1] == ';'
      && (forall k :: 0 <= k < |m| - 1 ==> m[k] != ';')
      && Contains(text, m)
      && Strip(m, Whitespace) == m
  {
    var m := text[i..j + 1];
    assert m[..6] == text[i..i + 6];
    assert forall k :: 0 <= k < |m| - 1 ==> m[k] == text[i + k];
    assert OccursAt(m, text, i);
    MatchIsStripped(text, i, j);
  }

  /** `extract_sql_query`: the match of `(SELECT\s.*?;)`, stripped of
      surrounding whitespace, or None when the pattern matches nowhere. A
      match exists exactly when some case-insensitive `select` followed by a
      whitespace character has a `;` somewhere after it. */
  function ExtractSqlQuery(text: string): (r: Option<string>)
    ensures r.None? <==> forall i :: 0 <= i < |text| ==> !MatchableAt(text, i)
    ensures r.Some? ==>
      && |r.value| >= 8
      && Lower(r.value[..6]) == "select" && IsSpace(r.value[6])
      && r.value[|r.value| - 1] == ';'
      && (forall k :: 0 <= k < |r.value| - 1 ==> r.value[k] != ';')
      && Contains(text, r.value)
  {
    match SearchFrom(text, 0)
    case None => None
    case Some((i, j)) =>
      assert MatchableAt(text, i);
      MatchedStatement(text, i, j);
      Some(Strip(text[i..j + 1], Whitespace))
  }

  /** The search finds the leftmost start at which the pattern matches, and
      the first `;` after it. */
  lemma SearchFindsLeftmost(text: string, i: int, j: int)
    requires MatchSpan(text, i, j)
    requires forall i' :: 0 <= i' < i ==> !MatchableAt(text, i')
    ensures SearchFrom(text, 0) == Some((i, j))
  {
    assert MatchableAt(text, i);
    var found := SearchFrom(text, 0);
    assert found.Some?;
    var a, b := found.value.0, found.value.1;
    assert MatchSpan(text, a, b);
    assert MatchableAt(text, a);
    assert !(a < i);
    assert !(i < a);
    assert text[b] == ';' && i + 7 <= b;
    assert !(b < j);
    assert !(j < b);
  }

  /** The match is the leftmost one and ends at the first `;` after it:
      given such a span, `extract_sql_query` returns exactly that text. */
  lemma ExtractSqlQueryIsLeftmost(text: string, i: int, j: int)
    requires MatchSpan(text, i, j)
    requires forall i' :: 0 <= i' < i ==> !MatchableAt(text, i')
    ensures ExtractSqlQuery(text) == Some(text[i..j + 1])
  {
    SearchFindsLeftmost(text, i, j);
    MatchIsStripped(text, i, j);
  }

  // ---------------------------------------------------------------------
  // clean_response

  /** The quote characters `clean_response` strips. */
  const Quotes: set<char> := {'"', '\''}

  /** `response_str.strip('"').strip('"').strip("'").strip("'")`: double
      quotes are stripped from both ends first, then single quotes. */
  function CleanResponse(response: string): string {
    var unquoted := Strip(Strip(response, {'"'}), {'"'});
    Strip(Strip(unquoted, {'\''}), {'\''})
  }

  /** The result is a contiguous piece of the input that neither starts
      nor ends with a single quote. */
  lemma CleanResponseIsSlice(response: string)
    ensures Contains(response, CleanResponse(response))
    ensures var r := CleanResponse(response); r == [] || (r[0] != '\'' && r[|r| - 1] != '\'')
  {
    var a := Strip(response, {'"'});
    var b := Strip(a, {'"'});
    var c := Strip(b, {'\''});
    var d := Strip(c, {'\''});
    var ia := |response| - |LStrip(response, {'"'})|;
    var ib := |a| - |LStrip(a, {'"'})|;
    var ic := |b| - |LStrip(b, {'\''})|;
    var id := |c| - |LStrip(c, {'\''})|;
    StripOccurs(response, {'"'});
    StripOccurs(a, {'"'});
    StripOccurs(b, {'\''});
    StripFacts(c, {'\''});
    OccursAtTrans(d, c, b, id, ic);
    OccursAtTrans(d, b, a, id + ic, ib);
    OccursAtTrans(d, a, response, id + ic + ib, ia);
  }

  /** A response that neither starts nor ends with a quote is returned as is. */
  lemma CleanResponseIdentity(response: string)
    requires response == [] ||
             (response[0] !in Quotes && response[|response| - 1] !in Quotes)
    ensures CleanResponse(response) == response
  {
    StripNoop(response, {'"'});
    StripNoop(response, {'\''});
  }

  /** Cleaning twice can differ from cleaning once: the double quotes inside
      a single-quoted response survive the first pass, which strips double
      quotes before single ones. */
  lemma CleanResponseNotIdempotent()
    ensures CleanResponse("'\"x\"'") == "\"x\""
    ensures CleanResponse("\"x\"") == "x"
  {
    var s := "'\"x\"'";
    StripNoop(s, {'"'});
    StripUnique(s, {'\''}, 1, 4);
    assert s[1..4] == "\"x\"";
    StripNoop("\"x\"", {'\''});
    var t := "\"x\"";
    StripUnique(t, {'"'}, 1, 2);
    assert t[1..2] == "x";
    StripNoop("x", {'"'});
    StripNoop("x", {'\''});
  }

  // ---------------------------------------------------------------------
  // is_sql_related

  const SqlKeywords: seq<string> :=
    ["select", "from", "where", "join", "group by", "order by", "insert", "update", "delete"]

  /** `any(n in hay for n in needles)`. */
  function AnyContained(hay: string, needles: seq<string>): (r: bool)
    ensures r <==> exists k :: 0 <= k < |needles| && Contains(hay, needles[k])
  {
    |needles| > 0 && (Contains(hay, needles[0]) || AnyContained(hay, needles[1..]))
  }

  /** `is_sql_related`: some keyword occurs, as a substring, in the
      lower-cased input. */
  function IsSqlRelated(userInput: string): (r: bool)
    ensures r <==> exists k :: 0 <= k < |SqlKeywords| && Contains(Lower(userInput), SqlKeywords[k])
  {
    AnyContained(Lower(userInput), SqlKeywords)
  }

  /** No non-empty needle occurs in the empty text. */
  lemma {:induction false} NoneContainedInEmpty(needles: seq<string>)
    requires forall k :: 0 <= k < |needles| ==> needles[k] != []
    ensures !AnyContained("", needles)
  {
    if needles != [] {
      NoneContainedInEmpty(needles[1..]);
      assert !Contains("", needles[0]);
    }
  }

  lemma IsSqlRelatedEmpty()
    ensures !IsSqlRelated("")
  {
    assert Lower("") == "";
    NoneContainedInEmpty(SqlKeywords);
  }

  /** Adding text before or after an SQL-related input keeps it SQL-related. */
  lemma IsSqlRelatedExtend(userInput: string, before: string, after: string)
    requires IsSqlRelated(userInput)
    ensures IsSqlRelated(before + userInput + after)
  {
    var k :| 0 <= k < |SqlKeywords| && Contains(Lower(userInput), SqlKeywords[k]);
    LowerAppend(before, userInput);
    LowerAppend(before + userInput, after);
    ContainsExtend(Lower(userInput), SqlKeywords[k], Lower(before), Lower(after));
  }

  // ---------------------------------------------------------------------
  // check_tables_in_query

  const TableKeywords: set<string> := {"from", "join", "into", "update"}

  /** `word.lower() in ["from", "join", "into", "update"]`. */
  predicate IsTableKeyword(word: string) {
    Lower(word) in TableKeywords
  }

  /** `words.index(w)`: the position of the FIRST word equal to `w`. */
  function IndexOf(words: seq<string>, w: string): (i: nat)
    requires w in words
    ensures i < |words| && words[i] == w
  {
    if words[0] == w then 0 else 1 + IndexOf(words[1..], w)
  }

  /** No word before the one `words.index` returns equals `w`. */
  lemma {:induction false} IndexOfIsFirst(words: seq<string>, w: string)
    requires w in words
    ensures forall k :: 0 <= k < IndexOf(words, w) ==> words[k] != w
  {
    if words[0] != w {
      IndexOfIsFirst(words[1..], w);
      forall k | 0 < k < IndexOf(words, w) ensures words[k] != w {
        assert words[k] == words[1..][k - 1];
      }
    }
  }

  /** `words.index(word) + 1` for the word at position `i`. */
  function NextIndex(words: seq<string>, i: int): (n: nat)
    requires 0 <= i < |words|
    ensures 0 < n <= i + 1
  {
    IndexOfIsFirst(words, words[i]);
    IndexOf(words, words[i]) + 1
  }

  /** `word.strip(";").strip(",")`. */
  function CleanTableName(word: string): string {
    Strip(Strip(word, {';'}), {','})
  }

  /** Strip removes character sets one after the other, so a `;` shielded by
      a trailing `,` stays. */
  lemma CleanTableNameKeepsInnerSemicolon()
    ensures CleanTableName("a;,") == "a;"
  {
    StripNoop("a;,", {';'});
    StripUnique("a;,", {','}, 0, 2);
    assert "a;,"[0..2] == "a;";
  }

  /** The scan raises IndexError: some keyword's first occurrence is the
      last word, so `words.index(word) + 1` is past the end. */
  predicate RaisesIndexError(words: seq<string>) {
    exists i :: 0 <= i < |words| && RaisesAt(words, i)
  }

  /** The keyword token at `i` occurs first as the last word. */
  predicate RaisesAt(words: seq<string>, i: int) {
    0 <= i < |words| && IsTableKeyword(words[i]) && NextIndex(words, i) == |words|
  }

  /** The keyword token at `k` makes the scan add `name`: `name` is the
      cleaned word after that token's first occurrence. */
  predicate CollectsAt(words: seq<string>, k: int, name: string) {
    && 0 <= k < |words| && IsTableKeyword(words[k]) && NextIndex(words, k) < |words|
    && name == CleanTableName(words[NextIndex(words, k)])
  }

  /** What the scan adds for the word at `k`. */
  function ScannedAt(words: seq<string>, k: nat): set<string>
    requires k < |words|
  {
    if IsTableKeyword(words[k]) && NextIndex(words, k) < |words|
    then {CleanTableName(words[NextIndex(words, k)])} else {}
  }

  /** The set `tables_in_query` once the scan has passed the first `n`
      words without raising. */
  function ScannedNames(words: seq<string>, n: nat): set<string>
    requires n <= |words|
  {
    if n == 0 then {} else ScannedNames(words, n - 1) + ScannedAt(words, n - 1)
  }

  /** The table names the query is checked for. */
  function TableNames(words: seq<string>): set<string> {
    ScannedNames(words, |words|)
  }

  /** A name is scanned exactly when it is the cleaned word after the
      first occurrence of some keyword token. */
  lemma {:induction false} ScannedNamesMembers(words: seq<string>, n: nat, name: string)
    requires n <= |words|
    ensures name in ScannedNames(words, n) <==> exists k :: 0 <= k < n && CollectsAt(words, k, name)
  {
    if n > 0 {
      var k := n - 1;
      ScannedNamesMembers(words, k, name);
      assert ScannedNames(words, n) == ScannedNames(words, k) + ScannedAt(words, k);
      if name in ScannedNames(words, n) && name !in ScannedNames(words, k) {
        assert CollectsAt(words, k, name);
      }
      if exists j :: 0 <= j < n && CollectsAt(words, j, name) {
        var j :| 0 <= j < n && CollectsAt(words, j, name);
        if j == k {
          assert name in ScannedAt(words, k);
        } else {
          assert name in ScannedNames(words, k);
        }
      }
    }
  }

  /** The IndexError happens exactly when the last word is a keyword that
      does not occur earlier: an earlier identical token is found first by
      `words.index` and shields it. */
  lemma RaisesIndexErrorIff(words: seq<string>)
    ensures RaisesIndexError(words) <==>
      |words| > 0 && IsTableKeyword(words[|words| - 1]) && words[|words| - 1] !in words[..|words| - 1]
  {
    if |words| > 0 {
      var last := |words| - 1;
      if RaisesIndexError(words) {
        var i :| 0 <= i < |words| && RaisesAt(words, i);
        IndexOfIsFirst(words, words[i]);
        assert words[i] == words[last];
        assert forall k :: 0 <= k < last ==> words[..last][k] != words[last];
      }
      if IsTableKeyword(words[last]) && words[last] !in words[..last] {
        forall k | 0 <= k < last
          ensures words[k] != words[last]
        {
          assert words[..last][k] == words[k];
        }
        IndexOfIsFirst(words, words[last]);
        assert NextIndex(words, last) == |words|;
        assert RaisesAt(words, last);
      }
    }
  }

  /** The loop `for table in tables_in_query: if table not in tables_in_db:
      return False`, returning True when it runs out. */
  method AllKnown(names: set<string>, known: set<string>) returns (ok: bool)
    ensures ok <==> names <= known
  {
    var remaining := names;
    while remaining != {}
      invariant remaining <= names
      invariant names - remaining <= known
      decreases remaining
    {
      var table :| table in remaining;
      if table !in known {
        return false;
      }
      remaining := remaining - {table};
    }
    return true;
  }

  /** The first loop of `check_tables_in_query`: for each keyword token,
      add the cleaned word after the token's FIRST occurrence to
      `tables_in_query`, raising IndexError when that is past the end. */
  method CollectTableNames(words: seq<string>) returns (r: Result<set<string>, SqlError>)
    ensures RaisesIndexError(words) ==> r == Failure(IndexError)
    ensures !RaisesIndexError(words) ==> r == Success(TableNames(words))
  {
    var tablesInQuery: set<string> := {};
    var i := 0;
    while i < |words|
      invariant 0 <= i <= |words|
      invariant forall k :: 0 <= k < i ==> !RaisesAt(words, k)
      invariant tablesInQuery == ScannedNames(words, i)
    {
      var word := words[i];
      if IsTableKeyword(word) {
        var next := IndexOf(words, word) + 1;
        assert next == NextIndex(words, i);
        if next >= |words| {
          assert RaisesAt(words, i);
          return Failure(IndexError);
        }
        tablesInQuery := tablesInQuery + {CleanTableName(words[next])};
      }
      assert ScannedNames(words, i + 1) == ScannedNames(words, i) + ScannedAt(words, i);
      i := i + 1;
    }
    assert !RaisesIndexError(words);
    return Success(tablesInQuery);
  }

  /** `check_tables_in_query`, with the database's table set given. Every
      keyword token contributes the cleaned word after the token's FIRST
      occurrence; the result says whether all of them are tables, and is
      True when the query names none. */
  method CheckTablesInQuery(responseQuery: string, tablesInDb: set<string>)
    returns (r: Result<bool, SqlError>)
    ensures RaisesIndexError(Split(responseQuery)) ==> r == Failure(IndexError)
    ensures !RaisesIndexError(Split(responseQuery)) ==>
      r == Success(TableNames(Split(responseQuery)) <= tablesInDb)
  {
    var words := Split(responseQuery);
    var collected := CollectTableNames(words);
    if collected.Failure? {
      return Failure(collected.error);
    }
    var ok := AllKnown(collected.value, tablesInDb);
    return Success(ok);
  }

  /** The words of a query in which a keyword token is repeated. */
  const RepeatedJoinQuery: seq<string> := ["select", "*", "from", "a", "join", "b", "join", "c"]

  /** Which words of RepeatedJoinQuery are keyword tokens. */
  lemma RepeatedJoinQueryKeywords()
    ensures IsTableKeyword("from") && IsTableKeyword("join")
    ensures !IsTableKeyword("select") && !IsTableKeyword("*")
    ensures !IsTableKeyword("a") && !IsTableKeyword("b") && !IsTableKeyword("c")
  {
    assert Lower("select") == "select" && Lower("*") == "*" && Lower("from") == "from";
    assert Lower("a") == "a" && Lower("join") == "join" && Lower("b") == "b" && Lower("c") == "c";
  }

  /** A plain word is its own cleaned table name. */
  lemma CleanPlainName(name: string)
    requires name == "a" || name == "b" || name == "c"
    ensures CleanTableName(name) == name
  {
    StripNoop(name, {';'});
    StripNoop(name, {','});
  }

  /** The query text "select * from a join b join c" splits into these words. */
  lemma RepeatedJoinQuerySplits()
    ensures Split(JoinWords(RepeatedJoinQuery)) == RepeatedJoinQuery
  {
    var w := RepeatedJoinQuery;
    forall k | 0 <= k < |w| ensures IsWord(w[k]) {
      assert |w[k]| > 0;
    }
    SplitJoinWords(w);
  }

  /** What the first-occurrence scan adds at each word of the query: the
      second `join` re-reads the word after the first one. */
  lemma RepeatedJoinQueryScan()
    ensures ScannedAt(RepeatedJoinQuery, 0) == {} && ScannedAt(RepeatedJoinQuery, 1) == {}
    ensures ScannedAt(RepeatedJoinQuery, 2) == {"a"} && ScannedAt(RepeatedJoinQuery, 3) == {}
    ensures ScannedAt(RepeatedJoinQuery, 4) == {"b"} && ScannedAt(RepeatedJoinQuery, 5) == {}
    ensures ScannedAt(RepeatedJoinQuery, 6) == {"b"} && ScannedAt(RepeatedJoinQuery, 7) == {}
  {
    var w := RepeatedJoinQuery;
    RepeatedJoinQueryKeywords();
    assert w[0] == "select" && w[1] == "*" && w[2] == "from" && w[3] == "a";
    assert w[4] == "join" && w[5] == "b" && w[6] == "join" && w[7] == "c";
    assert NextIndex(w, 2) == 3;
    assert NextIndex(w, 4) == 5;
    assert NextIndex(w, 6) == 5 by {
      assert w[4] == w[6];
      IndexOfIsFirst(w, w[6]);
      assert IndexOf(w, w[6]) == 4;
    }
    CleanPlainName("a");
    CleanPlainName("b");
  }

  /** The query's last word is not a keyword, so its scan does not raise. */
  lemma RepeatedJoinQueryRaisesNothing()
    ensures !RaisesIndexError(RepeatedJoinQuery)
  {
    RaisesIndexErrorIff(RepeatedJoinQuery);
    RepeatedJoinQueryKeywords();
    assert RepeatedJoinQuery[7] == "c";
  }

  /** The first-occurrence scan of the query collects `a` and `b` only. */
  lemma RepeatedJoinQueryTableNames()
    ensures TableNames(RepeatedJoinQuery) == {"a", "b"}
  {
    var w := RepeatedJoinQuery;
    RepeatedJoinQueryScan();
    assert ScannedNames(w, 1) == {};
    assert ScannedNames(w, 2) == {};
    assert ScannedNames(w, 3) == {"a"};
    assert ScannedNames(w, 4) == {"a"};
    assert ScannedNames(w, 5) == {"a", "b"};
    assert ScannedNames(w, 6) == {"a", "b"};
    assert ScannedNames(w, 7) == {"a", "b"};
    assert ScannedNames(w, 8) == {"a", "b"};
  }

  /** Reusing the word after the first `join` means the table `c` is never
      looked at: for the query "select * from a join b join c", a database
      with tables a and b passes the check although the query also reads c. */
  lemma RepeatedKeywordSkipsTable()
    ensures Split(JoinWords(RepeatedJoinQuery)) == RepeatedJoinQuery
    ensures !RaisesIndexError(RepeatedJoinQuery)
    ensures TableNames(RepeatedJoinQuery) == {"a", "b"}
  {
    RepeatedJoinQuerySplits();
    RepeatedJoinQueryRaisesNothing();
    RepeatedJoinQueryTableNames();
  }

  /** The word after the keyword token at `k`, cleaned, is `name`. */
  predicate FollowsKeyword(words: seq<string>, k: int, name: string) {
    0 <= k && k + 1 < |words| && IsTableKeyword(words[k]) && name == CleanTableName(words[k + 1])
  }

  /** What the positional scan adds for the word at `k`. */
  function PositionalAt(words: seq<string>, k: nat): set<string>
    requires k < |words|
  {
    if IsTableKeyword(words[k]) && k + 1 < |words| then {CleanTableName(words[k + 1])} else {}
  }

  /** The set the scan builds when it reads the word after each keyword
      token by position, as `for i, word in enumerate(words)` would. */
  function PositionalNames(words: seq<string>, n: nat): set<string>
    requires n <= |words|
  {
    if n == 0 then {} else PositionalNames(words, n - 1) + PositionalAt(words, n - 1)
  }

  /** A name is collected by position exactly when it follows some keyword. */
  lemma {:induction false} PositionalNamesMembers(words: seq<string>, n: nat, name: string)
    requires n <= |words|
    ensures name in PositionalNames(words, n) <==> exists k :: 0 <= k < n && FollowsKeyword(words, k, name)
  {
    if n > 0 {
      var k := n - 1;
      PositionalNamesMembers(words, k, name);
      assert PositionalNames(words, n) == PositionalNames(words, k) + PositionalAt(words, k);
      if name in PositionalNames(words, n) && name !in PositionalNames(words, k) {
        assert FollowsKeyword(words, k, name);
      }
      if exists j :: 0 <= j < n && FollowsKeyword(words, j, name) {
        var j :| 0 <= j < n && FollowsKeyword(words, j, name);
        if j == k {
          assert name in PositionalAt(words, k);
        } else {
          assert name in PositionalNames(words, k);
        }
      }
    }
  }

  /** The last word is a keyword token, so reading the word after it fails. */
  predicate EndsWithKeyword(words: seq<string>) {
    |words| > 0 && IsTableKeyword(words[|words| - 1])
  }

  /** The first loop as evidently intended: the word after EACH keyword
      token, by position. A trailing keyword still raises IndexError. */
  method CollectTableNamesByPosition(words: seq<string>) returns (r: Result<set<string>, SqlError>)
    ensures EndsWithKeyword(words) ==> r == Failure(IndexError)
    ensures !EndsWithKeyword(words) ==> r == Success(PositionalNames(words, |words|))
  {
    var tablesInQuery: set<string> := {};
    var i := 0;
    while i < |words|
      invariant 0 <= i <= |words|
      invariant i == |words| ==> !EndsWithKeyword(words)
      invariant tablesInQuery == PositionalNames(words, i)
    {
      PositionalNamesStep(words, i);
      if IsTableKeyword(words[i]) {
        if i + 1 >= |words| {
          assert EndsWithKeyword(words);
          return Failure(IndexError);
        }
        tablesInQuery := tablesInQuery + {CleanTableName(words[i + 1])};
      }
      i := i + 1;
    }
    return Success(tablesInQuery);
  }

  /** One more word of the positional scan. */
  lemma PositionalNamesStep(words: seq<string>, i: nat)
    requires i < |words|
    ensures PositionalNames(words, i + 1) ==
      PositionalNames(words, i) +
      (if IsTableKeyword(words[i]) && i + 1 < |words| then {CleanTableName(words[i + 1])} else {})
  {
  }

  /** Every word that follows a keyword token, cleaned, is in `known`. */
  predicate AllFollowersKnown(words: seq<string>, known: set<string>) {
    forall i :: 0 <= i < |words| - 1 && IsTableKeyword(words[i]) ==> CleanTableName(words[i + 1]) in known
  }

  /** The positional name set lies within `known` exactly when every word
      after a keyword token does. */
  lemma PositionalNamesKnown(words: seq<string>, known: set<string>)
    ensures PositionalNames(words, |words|) <= known <==> AllFollowersKnown(words, known)
  {
    var names := PositionalNames(words, |words|);
    if names <= known {
      forall i | 0 <= i < |words| - 1 && IsTableKeyword(words[i])
        ensures CleanTableName(words[i + 1]) in known
      {
        assert FollowsKeyword(words, i, CleanTableName(words[i + 1]));
        PositionalNamesMembers(words, |words|, CleanTableName(words[i + 1]));
      }
    }
    if AllFollowersKnown(words, known) {
      forall name | name in names
        ensures name in known
      {
        PositionalNamesMembers(words, |words|, name);
        var k :| 0 <= k < |words| && FollowsKeyword(words, k, name);
        assert CleanTableName(words[k + 1]) in known;
      }
    }
  }

  /** `check_tables_in_query` with the positional scan: every name that
      follows a keyword token is checked against the database. */
  method CheckTablesInQueryByPosition(responseQuery: string, tablesInDb: set<string>)
    returns (r: Result<bool, SqlError>)
    ensures var words := Split(responseQuery);
      if EndsWithKeyword(words) then r == Failure(IndexError)
      else r == Success(AllFollowersKnown(words, tablesInDb))
  {
    var words := Split(responseQuery);
    var collected := CollectTableNamesByPosition(words);
    if collected.Failure? {
      return Failure(collected.error);
    }
    var ok := AllKnown(collected.value, tablesInDb);
    PositionalNamesKnown(words, tablesInDb);
    return Success(ok);
  }

  /** What the positional scan adds at each word of the query. */
  lemma PositionalJoinQueryScan()
    ensures PositionalAt(RepeatedJoinQuery, 0) == {} && PositionalAt(RepeatedJoinQuery, 1) == {}
    ensures PositionalAt(RepeatedJoinQuery, 2) == {"a"} && PositionalAt(RepeatedJoinQuery, 3) == {}
    ensures PositionalAt(RepeatedJoinQuery, 4) == {"b"} && PositionalAt(RepeatedJoinQuery, 5) == {}
    ensures PositionalAt(RepeatedJoinQuery, 6) == {"c"} && PositionalAt(RepeatedJoinQuery, 7) == {}
  {
    var w := RepeatedJoinQuery;
    RepeatedJoinQueryKeywords();
    CleanPlainName("a");
    CleanPlainName("b");
    CleanPlainName("c");
    assert w[0] == "select" && w[1] == "*" && w[2] == "from" && w[3] == "a";
    assert w[4] == "join" && w[5] == "b" && w[6] == "join" && w[7] == "c";
  }

  /** On the query above, the positional scan does look at `c`. */
  lemma PositionalScanSeesEveryTable()
    ensures PositionalNames(RepeatedJoinQuery, |RepeatedJoinQuery|) == {"a", "b", "c"}
  {
    var w := RepeatedJoinQuery;
    PositionalJoinQueryScan();
    assert PositionalNames(w, 1) == {};
    assert PositionalNames(w, 2) == {};
    assert PositionalNames(w, 3) == {"a"};
    assert PositionalNames(w, 4) == {"a"};
    assert PositionalNames(w, 5) == {"a", "b"};
    assert PositionalNames(w, 6) == {"a", "b"};
    assert PositionalNames(w, 7) == {"a", "b", "c"};
    assert PositionalNames(w, 8) == {"a", "b", "c"};
  }

  /** No keyword token occurs twice. */
  predicate KeywordsDistinct(words: seq<string>) {
    forall i, j {:trigger IsTableKeyword(words[i]), words[j]} ::
      0 <= i < j < |words| && IsTableKeyword(words[i]) ==> words[i] != words[j]
  }

  /** When a keyword token occurs once, its first occurrence is where it
      stands, so both scans add the same name for it. */
  lemma ScannedAtIsPositional(words: seq<string>, k: nat)
    requires k < |words|
    requires KeywordsDistinct(words)
    ensures ScannedAt(words, k) == PositionalAt(words, k)
  {
    if IsTableKeyword(words[k]) {
      var f := IndexOf(words, words[k]);
      IndexOfIsFirst(words, words[k]);
      assert words[f] == words[k] && IsTableKeyword(words[f]);
      assert forall j :: f < j < |words| ==> words[f] != words[j];
      assert f == k;
    }
  }

  /** When no keyword token repeats, the first-occurrence scan and the
      positional scan collect the same names. */
  lemma {:induction false} ScanAgreesWhenKeywordsDistinct(words: seq<string>, n: nat)
    requires n <= |words|
    requires KeywordsDistinct(words)
    ensures ScannedNames(words, n) == PositionalNames(words, n)
  {
    if n > 0 {
      var k := n - 1;
      ScanAgreesWhenKeywordsDistinct(words, k);
      ScannedAtIsPositional(words, k);
      assert ScannedNames(words, n) == ScannedNames(words, k) + ScannedAt(words, k);
      assert PositionalNames(words, n) == PositionalNames(words, k) + PositionalAt(words, k);
    }
  }

  // ---------------------------------------------------------------------
  // extract_list_from_string

  /** The characters of "```json\n" and of "\n```": `strip` reads its
      argument as a set, so any leading or trailing j, s, o, n goes too. */
  const FenceChars: set<char> := {'`', 'j', 's', 'o', 'n', '\n'}
  const NewlineBacktick: set<char> := {'\n', '`'}

  /** The text handed to `json.loads`. */
  function JsonPart(input: string): string {
    ReplaceChar(Strip(Strip(input, FenceChars), NewlineBacktick), '\'', '"')
  }

  /** The text handed to `json.loads` has no single quote left and neither
      starts nor ends with a character of the fence set. */
  lemma JsonPartFacts(input: string)
    ensures var r := JsonPart(input);
      && |r| <= |input|
      && (forall k :: 0 <= k < |r| ==> r[k] != '\'')
      && (r == [] || (r[0] !in FenceChars && r[|r| - 1] !in FenceChars))
  {
    StripSubsetNoop(input, FenceChars, NewlineBacktick);
    StripFacts(input, FenceChars);
    assert '"' !in FenceChars;
  }

  /** `extract_list_from_string`, with `json.loads` given as `parse` (None
      when it raises): the parsed list, or `['None']` when parsing fails or
      yields anything but a list. It never raises. */
  function ExtractListFromString(input: string, parse: string -> Option<Json>): (r: seq<Json>)
    ensures parse(JsonPart(input)).Some? && parse(JsonPart(input)).value.JArray? ==>
              r == parse(JsonPart(input)).value.items
    ensures !(parse(JsonPart(input)).Some? && parse(JsonPart(input)).value.JArray?) ==>
              r == [JString("None")]
  {
    match parse(JsonPart(input))
    case Some(JArray(items)) => items
    case _ => [JString("None")]
  }

  /** The second strip never removes anything: its characters are among
      those the first strip already removed from both ends. */
  lemma SecondStripIsNoop(input: string)
    ensures Strip(Strip(input, FenceChars), NewlineBacktick) == Strip(input, FenceChars)
  {
    StripSubsetNoop(input, FenceChars, NewlineBacktick);
  }

  /** Wrapping a list literal in a ```json fence does not change what is
      extracted, provided the literal starts and ends with characters
      outside the stripped set (as '[' and ']' are). */
  lemma ExtractListIgnoresFence(body: string, parse: string -> Option<Json>)
    requires body != [] && body[0] !in FenceChars && body[|body| - 1] !in FenceChars
    ensures ExtractListFromString("```json\n" + body + "\n```", parse) ==
            ExtractListFromString(body, parse)
  {
    var s := "```json\n" + body + "\n```";
    StripUnique(s, FenceChars, 8, 8 + |body|);
    assert s[8..8 + |body|] == body;
    StripNoop(body, FenceChars);
  }
}
