/**
  Sheet extraction: turns the rows of every sheet of a workbook into
  `{sheet name: {'headers': [...], 'data': [row dict, ...]}}`.

  The first row of a sheet is its header row. Every later row with at least
  one non-empty cell becomes one record mapping each column's key to the
  cell; cells beyond the header count are dropped, and rows whose cells are
  all empty are skipped. The web host keeps every sheet; the desktop host
  keeps only sheets that produced at least one record.
 */
module Extraction {
  import opened Cells
  import opened Wrappers

  /** One `row_dict`: column key to cell value. */
  type Record = map<Key, Cell>

  /** One sheet's `{'headers': headers, 'data': data}`. */
  datatype MonthData = MonthData(headers: seq<Cell>, data: seq<Record>)

  /** A sheet of the workbook as the reader yields it: its name and its rows. */
  datatype SheetRows = SheetRows(name: string, rows: seq<Row>)

  /** One entry of `months_data`. */
  datatype Month = Month(name: string, content: MonthData)

  /** The two hosts, which differ in what they do with a sheet without records. */
  datatype Host = WebHost | DesktopHost

  // ---------------------------------------------------------------------
  // Records
  // ---------------------------------------------------------------------

  /** The key of column j: the header itself when truthy, else `Column_{j}`. */
  function ColumnKey(headers: seq<Cell>, j: nat): Key
    requires j < |headers|
  {
    if Truthy(headers[j]) then KeyOf(headers[j]) else StrKey(ColumnName(j))
  }

  /** `any(cell is not None for cell in row)` */
  predicate HasValue(row: Row) {
    exists j :: 0 <= j < |row| && row[j] != Absent
  }

  /** The row dict after the first k cells of the row have been visited. */
  function RecordPrefix(headers: seq<Cell>, row: Row, k: nat): Record
    requires k <= |row|
  {
    if k == 0 then map[]
    else
      var d := RecordPrefix(headers, row, k - 1);
      if k - 1 < |headers| then d[ColumnKey(headers, k - 1) := row[k - 1]] else d
  }

  /** The row dict built from a whole row. */
  function RecordOf(headers: seq<Cell>, row: Row): Record {
    RecordPrefix(headers, row, |row|)
  }

  /** The keys of the first n columns. */
  function KeysUpTo(headers: seq<Cell>, n: nat): set<Key>
    requires n <= |headers|
  {
    if n == 0 then {} else KeysUpTo(headers, n - 1) + {ColumnKey(headers, n - 1)}
  }

  lemma {:induction false} KeysUpToMembers(headers: seq<Cell>, n: nat, x: Key)
    requires n <= |headers|
    ensures x in KeysUpTo(headers, n) <==> exists j :: 0 <= j < n && ColumnKey(headers, j) == x
  {
    if n > 0 {
      KeysUpToMembers(headers, n - 1, x);
    }
  }

  lemma {:induction false} KeysUpToSize(headers: seq<Cell>, n: nat)
    requires n <= |headers|
    ensures |KeysUpTo(headers, n)| <= n
  {
    if n > 0 {
      KeysUpToSize(headers, n - 1);
    }
  }

  /** The dict after k cells holds the keys of the in-range columns among them. */
  lemma {:induction false} RecordPrefixKeys(headers: seq<Cell>, row: Row, k: nat)
    requires k <= |row|
    ensures RecordPrefix(headers, row, k).Keys == KeysUpTo(headers, if k < |headers| then k else |headers|)
  {
    if k > 0 {
      RecordPrefixKeys(headers, row, k - 1);
    }
  }

  /**
    A record has exactly the keys of the columns j < min(len(row), len(headers)),
    so at most that many keys (fewer when two columns share a key).
   */
  lemma RecordKeys(headers: seq<Cell>, row: Row)
    ensures RecordOf(headers, row).Keys == set j | 0 <= j < |row| && j < |headers| :: ColumnKey(headers, j)
    ensures |RecordOf(headers, row)| <= |row| && |RecordOf(headers, row)| <= |headers|
  {
    var w := if |row| < |headers| then |row| else |headers|;
    RecordPrefixKeys(headers, row, |row|);
    KeysUpToSize(headers, w);
    forall x ensures x in KeysUpTo(headers, w) <==> x in set j | 0 <= j < |row| && j < |headers| :: ColumnKey(headers, j) {
      KeysUpToMembers(headers, w, x);
    }
  }

  lemma {:induction false} RecordPrefixValue(headers: seq<Cell>, row: Row, k: nat, j: nat)
    requires j < k <= |row| && j < |headers|
    requires forall i :: j < i < k && i < |headers| ==> ColumnKey(headers, i) != ColumnKey(headers, j)
    ensures ColumnKey(headers, j) in RecordPrefix(headers, row, k)
    ensures RecordPrefix(headers, row, k)[ColumnKey(headers, j)] == row[j]
  {
    if k - 1 != j {
      RecordPrefixValue(headers, row, k - 1, j);
    }
  }

  /**
    When several columns share one key, the record holds the value of the
    last of them: the value at column j survives when no later in-range
    column has the same key.
   */
  lemma RecordLastWriterWins(headers: seq<Cell>, row: Row, j: nat)
    requires j < |row| && j < |headers|
    requires forall i :: j < i < |row| && i < |headers| ==> ColumnKey(headers, i) != ColumnKey(headers, j)
    ensures ColumnKey(headers, j) in RecordOf(headers, row)
    ensures RecordOf(headers, row)[ColumnKey(headers, j)] == row[j]
  {
    RecordPrefixValue(headers, row, |row|, j);
  }

  /** No two columns share a key. */
  predicate DistinctKeys(headers: seq<Cell>) {
    forall i, j :: 0 <= i < j < |headers| ==> ColumnKey(headers, i) != ColumnKey(headers, j)
  }

  /** A header row without a single truthy label gets pairwise distinct synthetic keys. */
  lemma BlankHeadersHaveDistinctKeys(headers: seq<Cell>)
    requires forall j :: 0 <= j < |headers| ==> !Truthy(headers[j])
    ensures DistinctKeys(headers)
  {
    forall i, j | 0 <= i < j < |headers|
      ensures ColumnKey(headers, i) != ColumnKey(headers, j)
    {
      ColumnNameInjective(i, j);
    }
  }

  // ---------------------------------------------------------------------
  // The records of a sheet
  // ---------------------------------------------------------------------

  /** The `data` list built from the rows after the header row. */
  function Records(headers: seq<Cell>, rows: seq<Row>): seq<Record> {
    if rows == [] then []
    else
      var last := rows[|rows| - 1];
      Records(headers, rows[..|rows| - 1]) + (if HasValue(last) then [RecordOf(headers, last)] else [])
  }

  /** Records are collected row by row: extraction distributes over concatenation. */
  lemma {:induction false} RecordsAppend(headers: seq<Cell>, a: seq<Row>, b: seq<Row>)
    ensures Records(headers, a + b) == Records(headers, a) + Records(headers, b)
    decreases |b|
  {
    if b == [] {
      assert a + b == a;
    } else {
      assert (a + b)[..|a + b| - 1] == a + b[..|b| - 1];
      RecordsAppend(headers, a, b[..|b| - 1]);
    }
  }

  /** A row whose cells are all empty contributes nothing, wherever it sits. */
  lemma BlankRowVanishes(headers: seq<Cell>, a: seq<Row>, row: Row, b: seq<Row>)
    requires !HasValue(row)
    ensures Records(headers, a + [row] + b) == Records(headers, a + b)
  {
    RecordsAppend(headers, a + [row], b);
    RecordsAppend(headers, a, [row]);
    RecordsAppend(headers, a, b);
  }

  /** A row with some non-empty cell contributes exactly one record, in its place. */
  lemma ValueRowYieldsOneRecord(headers: seq<Cell>, a: seq<Row>, row: Row, b: seq<Row>)
    requires HasValue(row)
    ensures Records(headers, a + [row] + b)
         == Records(headers, a) + [RecordOf(headers, row)] + Records(headers, b)
  {
    RecordsAppend(headers, a + [row], b);
    RecordsAppend(headers, a, [row]);
  }

  /** A sheet has no records exactly when every row after the header is blank. */
  lemma {:induction false} NoRecordsIffAllBlank(headers: seq<Cell>, rows: seq<Row>)
    ensures Records(headers, rows) == [] <==> forall i :: 0 <= i < |rows| ==> !HasValue(rows[i])
  {
    if rows != [] {
      var init := rows[..|rows| - 1];
      NoRecordsIffAllBlank(headers, init);
      if forall i :: 0 <= i < |init| ==> !HasValue(init[i]) {
        if !HasValue(rows[|rows| - 1]) {
          forall i | 0 <= i < |rows| ensures !HasValue(rows[i]) {
            if i < |init| { assert rows[i] == init[i]; }
          }
        }
      }
    }
  }

  /**
    A kept row whose only non-empty cells lie beyond the header count still
    yields a record, and that record holds only empty cells.
   */
  lemma OverflowOnlyRowKeptEmpty(headers: seq<Cell>, row: Row)
    requires HasValue(row)
    requires forall j :: 0 <= j < |row| && j < |headers| ==> row[j] == Absent
    ensures Records(headers, [row]) == [RecordOf(headers, row)]
    ensures forall k :: k in RecordOf(headers, row) ==> RecordOf(headers, row)[k] == Absent
  {
    assert [row][..0] == [];
    forall k | k in RecordOf(headers, row)
      ensures RecordOf(headers, row)[k] == Absent
    {
      var j := LastColumnWithKey(headers, row, |row|, k);
    }
  }

  /** The last visited in-range column whose key is k, with its value. */
  lemma {:induction false} LastColumnWithKey(headers: seq<Cell>, row: Row, n: nat, k: Key) returns (j: nat)
    requires n <= |row|
    requires k in RecordPrefix(headers, row, n)
    ensures j < n && j < |headers| && ColumnKey(headers, j) == k
    ensures forall i :: j < i < n && i < |headers| ==> ColumnKey(headers, i) != k
    ensures RecordPrefix(headers, row, n)[k] == row[j]
  {
    if n - 1 < |headers| && ColumnKey(headers, n - 1) == k {
      j := n - 1;
    } else {
      j := LastColumnWithKey(headers, row, n - 1, k);
    }
  }

  /** One sheet: the first row is the header row, the rest become records. */
  function ExtractSheet(rows: seq<Row>): MonthData {
    if rows == [] then MonthData([], []) else MonthData(rows[0], Records(rows[0], rows[1..]))
  }

  // ---------------------------------------------------------------------
  // The workbook: `months_data[sheet_name] = ...` in sheet order
  // ---------------------------------------------------------------------

  predicate DistinctNames(ms: seq<Month>) {
    forall i, j :: 0 <= i < j < |ms| ==> ms[i].name != ms[j].name
  }

  predicate DistinctSheetNames(sheets: seq<SheetRows>) {
    forall i, j :: 0 <= i < j < |sheets| ==> sheets[i].name != sheets[j].name
  }

  /** `d[name]` of a Python dict kept as an insertion-ordered list of entries. */
  function Lookup(ms: seq<Month>, name: string): Option<MonthData> {
    if ms == [] then None
    else if ms[0].name == name then Some(ms[0].content)
    else Lookup(ms[1..], name)
  }

  /** In a dictionary, looking up the name of entry i yields entry i's content. */
  lemma {:induction false} LookupAt(ms: seq<Month>, i: nat)
    requires DistinctNames(ms) && i < |ms|
    ensures Lookup(ms, ms[i].name) == Some(ms[i].content)
  {
    if i > 0 {
      assert ms[1..][i - 1] == ms[i];
      LookupAt(ms[1..], i - 1);
    }
  }

  /** A lookup fails exactly when no entry carries the name. */
  lemma {:induction false} LookupMissing(ms: seq<Month>, name: string)
    ensures Lookup(ms, name).None? <==> forall i :: 0 <= i < |ms| ==> ms[i].name != name
  {
    if ms != [] {
      LookupMissing(ms[1..], name);
      if ms[0].name != name && forall i :: 0 <= i < |ms[1..]| ==> ms[1..][i].name != name {
        forall i | 0 <= i < |ms| ensures ms[i].name != name {
          if i > 0 { assert ms[i] == ms[1..][i - 1]; }
        }
      }
    }
  }

  /** A successful lookup returns the content of an entry carrying the name. */
  lemma {:induction false} LookupFound(ms: seq<Month>, name: string)
    requires Lookup(ms, name).Some?
    ensures exists i :: 0 <= i < |ms| && ms[i] == Month(name, Lookup(ms, name).value)
  {
    if ms[0].name == name {
      assert ms[0] == Month(name, Lookup(ms, name).value);
    } else {
      LookupFound(ms[1..], name);
      var i :| 0 <= i < |ms[1..]| && ms[1..][i] == Month(name, Lookup(ms, name).value);
      assert ms[i + 1] == ms[1..][i];
    }
  }

  /** `d[name] = content`: replaces the entry in place when present, else appends. */
  function Put(ms: seq<Month>, name: string, content: MonthData): seq<Month> {
    if ms == [] then [Month(name, content)]
    else if ms[0].name == name then [Month(name, content)] + ms[1..]
    else [ms[0]] + Put(ms[1..], name, content)
  }

  /** Assignment then lookup yields the assigned value; other names are unaffected. */
  lemma {:induction false} PutThenLookup(ms: seq<Month>, name: string, content: MonthData, other: string)
    ensures Lookup(Put(ms, name, content), name) == Some(content)
    ensures other != name ==> Lookup(Put(ms, name, content), other) == Lookup(ms, other)
  {
    if ms != [] && ms[0].name != name {
      PutThenLookup(ms[1..], name, content, other);
    }
  }

  /** Assigning a new name appends; the entries already present keep their order. */
  lemma {:induction false} PutFresh(ms: seq<Month>, name: string, content: MonthData)
    requires forall i :: 0 <= i < |ms| ==> ms[i].name != name
    ensures Put(ms, name, content) == ms + [Month(name, content)]
  {
    if ms != [] {
      PutFresh(ms[1..], name, content);
    }
  }

  lemma {:induction false} PutEntries(ms: seq<Month>, name: string, content: MonthData)
    ensures forall m :: m in Put(ms, name, content) ==> m in ms || m == Month(name, content)
    ensures DistinctNames(ms) ==> DistinctNames(Put(ms, name, content))
  {
    if ms != [] && ms[0].name != name {
      PutEntries(ms[1..], name, content);
      var rest := Put(ms[1..], name, content);
      if DistinctNames(ms) {
        forall i | 0 <= i < |rest| ensures rest[i].name != ms[0].name {
          assert rest[i] in rest;
          if rest[i] in ms[1..] {
            var k :| 0 <= k < |ms[1..]| && ms[1..][k] == rest[i];
            assert ms[k + 1] == rest[i];
          }
        }
      }
    }
  }

  /** `months_data` after every sheet has been visited. */
  function ExtractWorkbook(sheets: seq<SheetRows>, host: Host): seq<Month> {
    if sheets == [] then []
    else
      var ms := ExtractWorkbook(sheets[..|sheets| - 1], host);
      var last := sheets[|sheets| - 1];
      var content := ExtractSheet(last.rows);
      if host == DesktopHost && content.data == [] then ms else Put(ms, last.name, content)
  }

  /** The result is a dictionary: sheet names are never repeated. */
  lemma {:induction false} ExtractedNamesDistinct(sheets: seq<SheetRows>, host: Host)
    ensures DistinctNames(ExtractWorkbook(sheets, host))
  {
    if sheets != [] {
      var last := sheets[|sheets| - 1];
      ExtractedNamesDistinct(sheets[..|sheets| - 1], host);
      PutEntries(ExtractWorkbook(sheets[..|sheets| - 1], host), last.name, ExtractSheet(last.rows));
    }
  }

  predicate IsSheetName(sheets: seq<SheetRows>, name: string) {
    exists j :: 0 <= j < |sheets| && sheets[j].name == name
  }

  /** Every entry names one of the sheets. */
  lemma {:induction false} ExtractedNamesFromSheets(sheets: seq<SheetRows>, host: Host)
    ensures forall m :: m in ExtractWorkbook(sheets, host) ==> IsSheetName(sheets, m.name)
  {
    if sheets != [] {
      var init := sheets[..|sheets| - 1];
      var last := sheets[|sheets| - 1];
      ExtractedNamesFromSheets(init, host);
      var ms := ExtractWorkbook(init, host);
      PutEntries(ms, last.name, ExtractSheet(last.rows));
      forall m | m in ExtractWorkbook(sheets, host)
        ensures IsSheetName(sheets, m.name)
      {
        if m in ms {
          var k :| 0 <= k < |init| && init[k].name == m.name;
          assert sheets[k].name == m.name;
        } else {
          assert sheets[|sheets| - 1].name == m.name;
        }
      }
    }
  }

  /**
    Web host: with the workbook's (distinct) sheet names, every sheet is kept,
    in workbook order, including sheets without records.
   */
  lemma {:induction false} WebKeepsEverySheet(sheets: seq<SheetRows>)
    requires DistinctSheetNames(sheets)
    ensures |ExtractWorkbook(sheets, WebHost)| == |sheets|
    ensures forall i :: 0 <= i < |sheets| ==>
      ExtractWorkbook(sheets, WebHost)[i] == Month(sheets[i].name, ExtractSheet(sheets[i].rows))
  {
    if sheets != [] {
      var init := sheets[..|sheets| - 1];
      var last := sheets[|sheets| - 1];
      WebKeepsEverySheet(init);
      var ms := ExtractWorkbook(init, WebHost);
      forall i | 0 <= i < |ms| ensures ms[i].name != last.name {
        assert ms[i].name == sheets[i].name;
      }
      PutFresh(ms, last.name, ExtractSheet(last.rows));
      assert ExtractWorkbook(sheets, WebHost) == ms + [Month(last.name, ExtractSheet(last.rows))];
    }
  }

  /** In the web host, every sheet's name finds that sheet's own table. */
  lemma WebLookupSheet(sheets: seq<SheetRows>, i: nat)
    requires DistinctSheetNames(sheets) && i < |sheets|
    ensures Lookup(ExtractWorkbook(sheets, WebHost), sheets[i].name) == Some(ExtractSheet(sheets[i].rows))
  {
    WebKeepsEverySheet(sheets);
    ExtractedNamesDistinct(sheets, WebHost);
    LookupAt(ExtractWorkbook(sheets, WebHost), i);
  }

  /** A sheet without rows maps to empty headers and no data. */
  lemma EmptySheetHasNoHeaders()
    ensures ExtractSheet([]) == MonthData([], [])
  {
  }

  /** Desktop host: every retained sheet has at least one record. */
  lemma {:induction false} DesktopKeepsOnlySheetsWithData(sheets: seq<SheetRows>)
    ensures forall i :: 0 <= i < |ExtractWorkbook(sheets, DesktopHost)| ==>
      ExtractWorkbook(sheets, DesktopHost)[i].content.data != []
  {
    if sheets != [] {
      var init := sheets[..|sheets| - 1];
      var last := sheets[|sheets| - 1];
      DesktopKeepsOnlySheetsWithData(init);
      var ms := ExtractWorkbook(init, DesktopHost);
      if ExtractSheet(last.rows).data != [] {
        PutEntries(ms, last.name, ExtractSheet(last.rows));
        var r := ExtractWorkbook(sheets, DesktopHost);
        forall i | 0 <= i < |r| ensures r[i].content.data != [] {
          assert r[i] in r;
          if r[i] in ms {
            var k :| 0 <= k < |ms| && ms[k] == r[i];
          }
        }
      }
    }
  }

  /** The sheets with at least one record, in workbook order. */
  function SheetsWithData(sheets: seq<SheetRows>): seq<Month> {
    if sheets == [] then []
    else
      var m := Month(sheets[0].name, ExtractSheet(sheets[0].rows));
      (if m.content.data != [] then [m] else []) + SheetsWithData(sheets[1..])
  }

  lemma {:induction false} SheetsWithDataSnoc(sheets: seq<SheetRows>, s: SheetRows)
    ensures SheetsWithData(sheets + [s])
         == SheetsWithData(sheets) + SheetsWithData([s])
  {
    if sheets != [] {
      assert (sheets + [s])[1..] == sheets[1..] + [s];
      SheetsWithDataSnoc(sheets[1..], s);
    }
  }

  /**
    Desktop host: with distinct sheet names the result is exactly the sheets
    that produced records, in workbook order.
   */
  lemma {:induction false} DesktopKeepsSheetsWithDataInOrder(sheets: seq<SheetRows>)
    requires DistinctSheetNames(sheets)
    ensures ExtractWorkbook(sheets, DesktopHost) == SheetsWithData(sheets)
  {
    if sheets != [] {
      var init := sheets[..|sheets| - 1];
      var last := sheets[|sheets| - 1];
      DesktopKeepsSheetsWithDataInOrder(init);
      assert sheets == init + [last];
      SheetsWithDataSnoc(init, last);
      assert [last][1..] == [];
      var ms := ExtractWorkbook(init, DesktopHost);
      ExtractedNamesFromSheets(init, DesktopHost);
      forall i | 0 <= i < |ms| ensures ms[i].name != last.name {
        assert ms[i] in ms;
        var j :| 0 <= j < |init| && init[j].name == ms[i].name;
        assert sheets[j] == init[j];
      }
      PutFresh(ms, last.name, ExtractSheet(last.rows));
    }
  }

  // ---------------------------------------------------------------------
  // The parser, as the source runs it: nested loops that append
  // ---------------------------------------------------------------------

  /** Builds `row_dict` cell by cell. */
  method BuildRowDict(headers: seq<Cell>, row: Row) returns (rowDict: Record)
    ensures rowDict == RecordOf(headers, row)
  {
    rowDict := map[];
    for j := 0 to |row|
      invariant rowDict == RecordPrefix(headers, row, j)
    {
      if j < |headers| {
        var key := if Truthy(headers[j]) then KeyOf(headers[j]) else StrKey(ColumnName(j));
        rowDict := rowDict[key := row[j]];
      }
    }
  }

  /** Reads one sheet's rows: header row first, then one record per non-blank row. */
  method ParseSheet(rows: seq<Row>) returns (month: MonthData)
    ensures month == ExtractSheet(rows)
  {
    var data: seq<Record> := [];
    var headers: seq<Cell> := [];
    for i := 0 to |rows|
      invariant i == 0 ==> headers == [] && data == []
      invariant i > 0 ==> headers == rows[0] && data == Records(headers, rows[1..i])
    {
      var row := rows[i];
      if i == 0 {
        headers := row;
      } else if HasValue(row) {
        var rowDict := BuildRowDict(headers, row);
        data := data + [rowDict];
        assert rows[1..i + 1][..i - 1] == rows[1..i];
      } else {
        assert rows[1..i + 1][..i - 1] == rows[1..i];
      }
    }
    if |rows| > 0 {
      assert rows[1..|rows|] == rows[1..];
    }
    month := MonthData(headers, data);
  }

  /** `parse_xlsx_file`: every sheet in workbook order, keeping empty sheets only on the web host. */
  method ParseXlsxFile(sheets: seq<SheetRows>, host: Host) returns (monthsData: seq<Month>)
    ensures monthsData == ExtractWorkbook(sheets, host)
  {
    monthsData := [];
    for s := 0 to |sheets|
      invariant monthsData == ExtractWorkbook(sheets[..s], host)
    {
      var sheet := sheets[s];
      var month := ParseSheet(sheet.rows);
      if host == WebHost || month.data != [] {
        monthsData := Put(monthsData, sheet.name, month);
      }
      assert sheets[..s + 1][..s] == sheets[..s];
    }
    assert sheets[..|sheets|] == sheets;
  }
}
