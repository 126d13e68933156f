/**
  Act composition: renders one sheet's `{'headers', 'data'}` as a document,
  modelled as the list of blocks python-docx is asked to add (headings,
  paragraphs, one table), in order.

  Two act kinds exist. The acceptance act lists the first 100 records in a
  table; the services act reports the record count and the totals of up to
  three monetary columns. The web and desktop hosts differ in one place:
  for a sheet without records the web acceptance act prints a placeholder
  paragraph, the desktop one prints nothing.
 */
module Acts {
  import opened Cells
  import opened Extraction

  /** The date of composition (the clock is a parameter). */
  datatype Date = Date(day: nat, month: nat, year: nat)

  /** One block of the document. `Total` stands for the paragraph `"{column}: {amount:,.2f} руб."`. */
  datatype Block =
    | Heading(text: string, level: nat)
    | Paragraph(text: string)
    | Table(rows: seq<seq<string>>)
    | Total(column: string, amount: real)

  /** A generated act and the file name it is saved under. */
  datatype Generated = Generated(filename: string, doc: seq<Block>)

  const RowCap: nat := 100
  const TotalsCap: nat := 3

  const AcceptanceTitle := "АКТ ПРИЕМА-ПЕРЕДАЧИ ТОВАРА"
  const ServicesTitle := "АКТ ВЫПОЛНЕННЫХ УСЛУГ"
  const MonthLabel := "Месяц: "
  const DateLabel := "Дата составления: "
  const GoodsIntro := "Настоящий акт составлен о том, что следующие товары были переданы:"
  const ServicesIntro := "Настоящий акт составлен о том, что следующие услуги были выполнены по реализации товаров на платформе Wildberries:"
  const NoDataText := "Нет данных для отображения."
  const ColumnLabel := "Колонка "
  const CountLabel := "Общее количество позиций: "
  const BreakdownHeading := "Детализация по суммам:"
  const ServicesDone := "Услуги выполнены в полном объеме и в установленные сроки."
  const NoClaims := "Заказчик претензий по объему и качеству выполненных услуг не имеет."
  const SignatureLine := "________________________________________"
  const TransferringSignature := "Подпись передающей стороны"
  const ReceivingSignature := "Подпись принимающей стороны"
  const PerformerSignature := "Исполнитель (подпись)"
  const ClientSignature := "Заказчик (подпись)"

  /** Header keywords that mark a monetary column (matched as substrings of the lower-cased header). */
  const MonetaryKeywords: seq<string> := ["цена", "сумма", "стоимость", "price", "sum"]

  function Min(a: nat, b: nat): nat {
    if a < b then a else b
  }

  // ---------------------------------------------------------------------
  // The date line
  // ---------------------------------------------------------------------

  /** `strftime("%d.%m.%Y")` */
  function FormatDate(d: Date): string {
    ZeroPad(d.day, 2) + "." + ZeroPad(d.month, 2) + "." + ZeroPad(d.year, 4)
  }

  function Pow10(w: nat): nat {
    if w == 0 then 1 else 10 * Pow10(w - 1)
  }

  lemma {:induction false} NatToStringFits(n: nat, w: nat)
    requires 0 < w && n < Pow10(w)
    ensures |NatToString(n)| <= w
  {
    if n >= 10 {
      assert w > 1;
      assert n / 10 < Pow10(w - 1);
      NatToStringFits(n / 10, w - 1);
    }
  }

  /** For a calendar date with a four-digit year the date reads back as DD.MM.YYYY. */
  lemma FormatDateRoundTrip(d: Date)
    requires 1 <= d.day <= 31 && 1 <= d.month <= 12 && 1000 <= d.year <= 9999
    ensures |FormatDate(d)| == 10 && FormatDate(d)[2] == '.' && FormatDate(d)[5] == '.'
    ensures forall i :: 0 <= i < 10 && i != 2 && i != 5 ==> IsDigit(FormatDate(d)[i])
    ensures DigitsValue(FormatDate(d)[0..2]) == d.day
    ensures DigitsValue(FormatDate(d)[3..5]) == d.month
    ensures DigitsValue(FormatDate(d)[6..10]) == d.year
  {
    assert Pow10(2) == 100 && Pow10(4) == 10000;
    NatToStringFits(d.day, 2);
    NatToStringFits(d.month, 2);
    NatToStringFits(d.year, 4);
    var dd, mm, yyyy := ZeroPad(d.day, 2), ZeroPad(d.month, 2), ZeroPad(d.year, 4);
    assert |dd| == 2 && |mm| == 2 && |yyyy| == 4;
    var s := FormatDate(d);
    assert s == dd + "." + mm + "." + yyyy;
    assert s[0..2] == dd;
    assert s[3..5] == mm;
    assert s[6..10] == yyyy;
    ZeroPadValue(d.day, 2);
    ZeroPadValue(d.month, 2);
    ZeroPadValue(d.year, 4);
  }

  // ---------------------------------------------------------------------
  // Parts shared by both acts
  // ---------------------------------------------------------------------

  /** Title, month, date, blank, narrative, blank. */
  function Opening(title: string, month: string, date: Date, intro: string): seq<Block> {
    [Heading(title, 0), Paragraph(MonthLabel + month), Paragraph(DateLabel + FormatDate(date)),
     Paragraph(""), Paragraph(intro), Paragraph("")]
  }

  /** Two signature blocks: a line and a caption each, a blank between. */
  function Signatures(first: string, second: string): seq<Block> {
    [Paragraph(SignatureLine), Paragraph(first), Paragraph(""), Paragraph(SignatureLine), Paragraph(second)]
  }

  /** What kind of block to count. */
  datatype Kind = AnyTable | AnyTotal | Exactly(b: Block)

  predicate OfKind(b: Block, k: Kind) {
    match k
    case AnyTable => b.Table?
    case AnyTotal => b.Total?
    case Exactly(x) => b == x
  }

  /** How many blocks of the document are of the given kind. */
  function CountOf(doc: seq<Block>, k: Kind): nat {
    if doc == [] then 0 else (if OfKind(doc[0], k) then 1 else 0) + CountOf(doc[1..], k)
  }

  lemma {:induction false} CountOfAppend(a: seq<Block>, b: seq<Block>, k: Kind)
    ensures CountOf(a + b, k) == CountOf(a, k) + CountOf(b, k)
  {
    if a == [] {
      assert a + b == b;
    } else {
      assert (a + b)[0] == a[0];
      assert (a + b)[1..] == a[1..] + b;
      CountOfAppend(a[1..], b, k);
    }
  }

  lemma {:induction false} CountOfNone(doc: seq<Block>, k: Kind)
    requires forall i :: 0 <= i < |doc| ==> !OfKind(doc[i], k)
    ensures CountOf(doc, k) == 0
  {
    if doc != [] {
      CountOfNone(doc[1..], k);
    }
  }

  // ---------------------------------------------------------------------
  // Acceptance act
  // ---------------------------------------------------------------------

  /** Header cell i: `str(header)`, or `Колонка {i+1}` for a falsy header. */
  function HeaderText(headers: seq<Cell>, i: nat): string
    requires i < |headers|
  {
    if Truthy(headers[i]) then Show(headers[i]) else ColumnLabel + NatToString(i + 1)
  }

  function HeaderRow(headers: seq<Cell>): seq<string> {
    seq(|headers|, i requires 0 <= i < |headers| => HeaderText(headers, i))
  }

  /** Data cell i: '' when the column's key is missing or holds None, else `str(value)`. */
  function CellText(headers: seq<Cell>, record: Record, i: nat): string
    requires i < |headers|
  {
    var key := ColumnKey(headers, i);
    if key in record && record[key] != Absent then Show(record[key]) else ""
  }

  function DataRow(headers: seq<Cell>, record: Record): seq<string> {
    seq(|headers|, i requires 0 <= i < |headers| => CellText(headers, record, i))
  }

  /** The header row followed by one row per record, for the first 100 records. */
  function AcceptanceTable(t: MonthData): seq<seq<string>> {
    var n := Min(RowCap, |t.data|);
    [HeaderRow(t.headers)] + seq(n, k requires 0 <= k < n => DataRow(t.headers, t.data[k]))
  }

  function AcceptanceBody(host: Host, t: MonthData): seq<Block> {
    if t.data != [] then [Table(AcceptanceTable(t))]
    else if host == WebHost then [Paragraph(NoDataText)]
    else []
  }

  function AcceptanceClosing(): seq<Block> {
    [Paragraph(""), Paragraph("")] + Signatures(TransferringSignature, ReceivingSignature)
  }

  /** `generate_acceptance_act` of the given host. */
  function AcceptanceAct(host: Host, month: string, date: Date, t: MonthData): seq<Block> {
    Opening(AcceptanceTitle, month, date, GoodsIntro) + AcceptanceBody(host, t) + AcceptanceClosing()
  }

  /**
    With records, the act holds exactly one table, after the six opening
    blocks: len(headers) columns and 1 + min(100, len(data)) rows, the
    first of them the header labels; no placeholder is printed.
   */
  lemma AcceptanceTableShape(host: Host, month: string, date: Date, t: MonthData)
    requires t.data != []
    ensures var doc := AcceptanceAct(host, month, date, t);
      && |doc| == 14
      && doc[6].Table?
      && |doc[6].rows| == 1 + Min(RowCap, |t.data|)
      && (forall r :: 0 <= r < |doc[6].rows| ==> |doc[6].rows[r]| == |t.headers|)
      && (forall i :: 0 <= i < |t.headers| ==> doc[6].rows[0][i] == HeaderText(t.headers, i))
      && (forall r, i :: 1 <= r < |doc[6].rows| && 0 <= i < |t.headers| ==>
            doc[6].rows[r][i] == CellText(t.headers, t.data[r - 1], i))
      && CountOf(doc, AnyTable) == 1
      && CountOf(doc, Exactly(Paragraph(NoDataText))) == 0
  {
    var opening := Opening(AcceptanceTitle, month, date, GoodsIntro);
    var body := AcceptanceBody(host, t);
    var closing := AcceptanceClosing();
    assert AcceptanceAct(host, month, date, t) == opening + body + closing;
    assert |opening| == 6 && body == [Table(AcceptanceTable(t))] && |closing| == 7;
    assert (opening + body + closing)[6] == Table(AcceptanceTable(t));
    AcceptanceTableCells(t);
    AcceptanceBodyCounts(opening, body, closing, month, date);
  }

  /** The table: the header row, then one row per record for the first 100 records, one cell per header. */
  lemma AcceptanceTableCells(t: MonthData)
    ensures var rows := AcceptanceTable(t);
      && |rows| == 1 + Min(RowCap, |t.data|)
      && (forall r :: 0 <= r < |rows| ==> |rows[r]| == |t.headers|)
      && (forall i :: 0 <= i < |t.headers| ==> rows[0][i] == HeaderText(t.headers, i))
      && (forall r, i :: 1 <= r < |rows| && 0 <= i < |t.headers| ==> rows[r][i] == CellText(t.headers, t.data[r - 1], i))
  {
  }

  lemma AcceptanceBodyCounts(opening: seq<Block>, body: seq<Block>, closing: seq<Block>, month: string, date: Date)
    requires opening == Opening(AcceptanceTitle, month, date, GoodsIntro) && closing == AcceptanceClosing()
    ensures CountOf(opening + body + closing, AnyTable) == CountOf(body, AnyTable)
    ensures CountOf(opening + body + closing, Exactly(Paragraph(NoDataText))) == CountOf(body, Exactly(Paragraph(NoDataText)))
  {
    AcceptanceFrameCounts(month, date);
    CountOfAppend(opening, body, AnyTable);
    CountOfAppend(opening + body, closing, AnyTable);
    CountOfAppend(opening, body, Exactly(Paragraph(NoDataText)));
    CountOfAppend(opening + body, closing, Exactly(Paragraph(NoDataText)));
  }
  /** Neither the opening nor the closing of the acceptance act holds a table or the placeholder. */
  lemma AcceptanceFrameCounts(month: string, date: Date)
    ensures CountOf(Opening(AcceptanceTitle, month, date, GoodsIntro), AnyTable) == 0
    ensures CountOf(Opening(AcceptanceTitle, month, date, GoodsIntro), Exactly(Paragraph(NoDataText))) == 0
    ensures CountOf(AcceptanceClosing(), AnyTable) == 0
    ensures CountOf(AcceptanceClosing(), Exactly(Paragraph(NoDataText))) == 0
  {
    AcceptanceOpeningCounts(month, date);
    AcceptanceClosingCounts();
  }

  lemma AcceptanceOpeningCounts(month: string, date: Date)
    ensures CountOf(Opening(AcceptanceTitle, month, date, GoodsIntro), AnyTable) == 0
    ensures CountOf(Opening(AcceptanceTitle, month, date, GoodsIntro), Exactly(Paragraph(NoDataText))) == 0
  {
    var opening := Opening(AcceptanceTitle, month, date, GoodsIntro);
    assert (MonthLabel + month)[0] != NoDataText[0];
    assert (DateLabel + FormatDate(date))[0] != NoDataText[0];
    FixedTextsDiffer();
    var k := Exactly(Paragraph(NoDataText));
    forall i | 0 <= i < |opening| ensures !OfKind(opening[i], AnyTable) && !OfKind(opening[i], k) { }
    CountOfNone(opening, AnyTable);
    CountOfNone(opening, k);
  }

  lemma AcceptanceClosingCounts()
    ensures CountOf(AcceptanceClosing(), AnyTable) == 0
    ensures CountOf(AcceptanceClosing(), Exactly(Paragraph(NoDataText))) == 0
  {
    var closing := AcceptanceClosing();
    var k := Exactly(Paragraph(NoDataText));
    FixedTextsDiffer();
    forall i | 0 <= i < |closing| ensures closing[i].Paragraph? && !OfKind(closing[i], k) { }
    CountOfNone(closing, AnyTable);
    CountOfNone(closing, k);
  }

  /**
    Without records the act has no table. The web act prints exactly one
    "no data" paragraph between the narrative and the signatures; the
    desktop act prints nothing there.
   */
  lemma AcceptanceWithoutData(host: Host, month: string, date: Date, t: MonthData)
    requires t.data == []
    ensures var doc := AcceptanceAct(host, month, date, t);
      && CountOf(doc, AnyTable) == 0
      && (host == WebHost ==>
            doc == Opening(AcceptanceTitle, month, date, GoodsIntro) + [Paragraph(NoDataText)] + AcceptanceClosing()
            && CountOf(doc, Exactly(Paragraph(NoDataText))) == 1)
      && (host == DesktopHost ==>
            doc == Opening(AcceptanceTitle, month, date, GoodsIntro) + AcceptanceClosing()
            && CountOf(doc, Exactly(Paragraph(NoDataText))) == 0)
  {
    var opening := Opening(AcceptanceTitle, month, date, GoodsIntro);
    var body := AcceptanceBody(host, t);
    assert AcceptanceAct(host, month, date, t) == opening + body + AcceptanceClosing();
    AcceptanceBodyCounts(opening, body, AcceptanceClosing(), month, date);
    if host == DesktopHost {
      assert opening + body == opening;
    }
  }

  /**
    End to end: when no two columns share a key, the acceptance cell of
    column i shows the parsed row's cell i (empty for None and for cells the
    row does not reach). The lookup key is the same key the parser stored.
   */
  lemma CellShowsParsedCell(headers: seq<Cell>, row: Row, i: nat)
    requires DistinctKeys(headers)
    requires i < |headers|
    ensures CellText(headers, RecordOf(headers, row), i)
         == if i < |row| && row[i] != Absent then Show(row[i]) else ""
  {
    RecordKeys(headers, row);
    if i < |row| {
      RecordLastWriterWins(headers, row, i);
    } else {
      assert ColumnKey(headers, i) !in RecordOf(headers, row);
    }
  }

  /**
    When columns i < j share a key and j is the last in-range column with
    it, both acceptance cells show column j's value.
   */
  lemma SharedKeyShowsLaterColumn(headers: seq<Cell>, row: Row, i: nat, j: nat)
    requires i < j < |row| && j < |headers|
    requires ColumnKey(headers, i) == ColumnKey(headers, j)
    requires forall k :: j < k < |row| && k < |headers| ==> ColumnKey(headers, k) != ColumnKey(headers, j)
    ensures CellText(headers, RecordOf(headers, row), i) == CellText(headers, RecordOf(headers, row), j)
    ensures CellText(headers, RecordOf(headers, row), i) == if row[j] != Absent then Show(row[j]) else ""
  {
    RecordLastWriterWins(headers, row, j);
  }

  // ---------------------------------------------------------------------
  // Services act
  // ---------------------------------------------------------------------

  /** A truthy header whose lower-cased text contains one of the keywords. */
  predicate IsMonetary(header: Cell) {
    Truthy(header) && exists kw :: kw in MonetaryKeywords && Contains(Lower(Show(header)), kw)
  }

  /** `price_columns`: the monetary headers, in header order. */
  function MonetaryColumns(headers: seq<Cell>): seq<Cell> {
    if headers == [] then []
    else
      var last := headers[|headers| - 1];
      MonetaryColumns(headers[..|headers| - 1]) + (if IsMonetary(last) then [last] else [])
  }

  lemma {:induction false} MonetaryColumnsAppend(a: seq<Cell>, b: seq<Cell>)
    ensures MonetaryColumns(a + b) == MonetaryColumns(a) + MonetaryColumns(b)
    decreases |b|
  {
    if b == [] {
      assert a + b == a;
    } else {
      assert (a + b)[..|a + b| - 1] == a + b[..|b| - 1];
      MonetaryColumnsAppend(a, b[..|b| - 1]);
    }
  }

  /** A header is listed exactly when it is one of the headers and monetary. */
  lemma {:induction false} MonetaryColumnsMembers(headers: seq<Cell>, c: Cell)
    ensures c in MonetaryColumns(headers) <==> c in headers && IsMonetary(c)
  {
    if headers != [] {
      var init := headers[..|headers| - 1];
      MonetaryColumnsMembers(init, c);
      assert headers == init + [headers[|headers| - 1]];
    }
  }

  /** `row.get(col, 0)` */
  function FieldOrZero(record: Record, col: Cell): Cell {
    if KeyOf(col) in record then record[KeyOf(col)] else Int(0)
  }

  /** What a value adds to a total: `value and isinstance(value, (int, float))` decides. */
  function Contribution(v: Cell): real {
    if Truthy(v) && IsNumber(v) then NumericValue(v) else 0.0
  }

  /** The total of one column over all records (not only the first 100). */
  function ColumnTotal(data: seq<Record>, col: Cell): real {
    if data == [] then 0.0
    else ColumnTotal(data[..|data| - 1], col) + Contribution(FieldOrZero(data[|data| - 1], col))
  }

  lemma {:induction false} ColumnTotalAppend(a: seq<Record>, b: seq<Record>, col: Cell)
    ensures ColumnTotal(a + b, col) == ColumnTotal(a, col) + ColumnTotal(b, col)
    decreases |b|
  {
    if b == [] {
      assert a + b == a;
    } else {
      assert (a + b)[..|a + b| - 1] == a + b[..|b| - 1];
      ColumnTotalAppend(a, b[..|b| - 1], col);
    }
  }

  /**
    Falsy values (None, '', 0, 0.0, False, missing keys) and non-numbers
    (text, numeric-looking or not, and dates) add nothing.
   */
  lemma {:induction false} ColumnTotalIgnoresNonNumbers(data: seq<Record>, col: Cell)
    requires forall k :: 0 <= k < |data| ==> !Truthy(FieldOrZero(data[k], col)) || !IsNumber(FieldOrZero(data[k], col))
    ensures ColumnTotal(data, col) == 0.0
  {
    if data != [] {
      ColumnTotalIgnoresNonNumbers(data[..|data| - 1], col);
    }
  }

  /** A column whose every value is an int sums those ints. */
  lemma {:induction false} ColumnTotalOfInts(data: seq<Record>, col: Cell, values: seq<int>)
    requires |values| == |data|
    requires forall k :: 0 <= k < |data| ==> FieldOrZero(data[k], col) == Int(values[k])
    ensures ColumnTotal(data, col) == SumInts(values) as real
  {
    if data != [] {
      ColumnTotalOfInts(data[..|data| - 1], col, values[..|values| - 1]);
    }
  }

  function SumInts(values: seq<int>): int {
    if values == [] then 0 else SumInts(values[..|values| - 1]) + values[|values| - 1]
  }

  /** One total line per column, in the given order. */
  function TotalLines(data: seq<Record>, cols: seq<Cell>): seq<Block> {
    seq(|cols|, i requires 0 <= i < |cols| => Total(Show(cols[i]), ColumnTotal(data, cols[i])))
  }

  /** The totals section: present only with monetary columns and records; at most three totals. */
  function Breakdown(t: MonthData): seq<Block> {
    var pc := MonetaryColumns(t.headers);
    if pc != [] && t.data != [] then
      [Paragraph(""), Paragraph(BreakdownHeading)] + TotalLines(t.data, pc[..Min(TotalsCap, |pc|)])
    else []
  }

  function ServicesClosing(): seq<Block> {
    [Paragraph(""), Paragraph(""), Paragraph(ServicesDone), Paragraph(NoClaims), Paragraph(""), Paragraph("")]
    + Signatures(PerformerSignature, ClientSignature)
  }

  /** `generate_services_act` (the same on both hosts). */
  function ServicesAct(month: string, date: Date, t: MonthData): seq<Block> {
    ServicesOpening(month, date, |t.data|) + Breakdown(t) + ServicesClosing()
  }

  /** The count line comes right after the opening and reads back as len(data), uncapped. */
  lemma ServicesCountUncapped(month: string, date: Date, t: MonthData)
    ensures var doc := ServicesAct(month, date, t);
      && doc[6].Paragraph?
      && doc[6].text[..|CountLabel|] == CountLabel
      && (forall i :: |CountLabel| <= i < |doc[6].text| ==> IsDigit(doc[6].text[i]))
      && DigitsValue(doc[6].text[|CountLabel|..]) == |t.data|
  {
    var text := CountLabel + NatToString(|t.data|);
    assert text[|CountLabel|..] == NatToString(|t.data|);
    NatToStringRoundTrip(|t.data|);
  }

  /**
    The totals: with monetary columns and records, one heading and one total
    per monetary column, for the first three in header order, each the
    column's total over all records; otherwise neither heading nor totals.
   */
  lemma ServicesTotals(month: string, date: Date, t: MonthData)
    ensures var doc := ServicesAct(month, date, t);
      var pc := MonetaryColumns(t.headers);
      var shown := if pc != [] && t.data != [] then Min(TotalsCap, |pc|) else 0;
      && CountOf(doc, AnyTotal) == shown
      && CountOf(doc, Exactly(Paragraph(BreakdownHeading))) == (if shown > 0 then 1 else 0)
      && (forall k :: 0 <= k < shown ==>
            doc[9 + k] == Total(Show(pc[k]), ColumnTotal(t.data, pc[k])) && IsMonetary(pc[k]))
  {
    ServicesTotalsCount(month, date, t);
    ServicesTotalsAt(month, date, t);
  }

  lemma ServicesTotalsCount(month: string, date: Date, t: MonthData)
    ensures var doc := ServicesAct(month, date, t);
      var pc := MonetaryColumns(t.headers);
      var shown := if pc != [] && t.data != [] then Min(TotalsCap, |pc|) else 0;
      && CountOf(doc, AnyTotal) == shown
      && CountOf(doc, Exactly(Paragraph(BreakdownHeading))) == (if shown > 0 then 1 else 0)
  {
    var opening := ServicesOpening(month, date, |t.data|);
    var section := Breakdown(t);
    var closing := ServicesClosing();
    assert ServicesAct(month, date, t) == opening + section + closing;
    BreakdownCounts(t);
    ServicesSectionCounts(opening, section, closing, month, date, |t.data|);
  }

  lemma ServicesSectionCounts(opening: seq<Block>, section: seq<Block>, closing: seq<Block>, month: string, date: Date, count: nat)
    requires opening == ServicesOpening(month, date, count) && closing == ServicesClosing()
    ensures CountOf(opening + section + closing, AnyTotal) == CountOf(section, AnyTotal)
    ensures CountOf(opening + section + closing, Exactly(Paragraph(BreakdownHeading))) == CountOf(section, Exactly(Paragraph(BreakdownHeading)))
  {
    ServicesFrameCounts(month, date, count);
    CountOfAppend(opening, section, AnyTotal);
    CountOfAppend(opening + section, closing, AnyTotal);
    CountOfAppend(opening, section, Exactly(Paragraph(BreakdownHeading)));
    CountOfAppend(opening + section, closing, Exactly(Paragraph(BreakdownHeading)));
  }

  lemma ServicesTotalsAt(month: string, date: Date, t: MonthData)
    ensures var doc := ServicesAct(month, date, t);
      var pc := MonetaryColumns(t.headers);
      var shown := if pc != [] && t.data != [] then Min(TotalsCap, |pc|) else 0;
      forall k :: 0 <= k < shown ==>
        doc[9 + k] == Total(Show(pc[k]), ColumnTotal(t.data, pc[k])) && IsMonetary(pc[k])
  {
    var pc := MonetaryColumns(t.headers);
    MonetaryColumnsAreMonetary(t.headers);
    if pc != [] && t.data != [] {
      var opening := ServicesOpening(month, date, |t.data|);
      var section := Breakdown(t);
      var closing := ServicesClosing();
      assert |opening| == 7;
      assert ServicesAct(month, date, t) == opening + section + closing;
      BreakdownAt(t);
      forall k | 0 <= k < Min(TotalsCap, |pc|)
        ensures (opening + section + closing)[9 + k] == Total(Show(pc[k]), ColumnTotal(t.data, pc[k]))
      {
        BlockInMiddle(opening, section, closing, 2 + k);
      }
    }
  }

  /** Total k of the breakdown sits right after its two heading blocks. */
  lemma BreakdownAt(t: MonthData)
    ensures var pc := MonetaryColumns(t.headers);
      pc != [] && t.data != [] ==>
        forall k :: 0 <= k < Min(TotalsCap, |pc|) ==>
          Breakdown(t)[2 + k] == Total(Show(pc[k]), ColumnTotal(t.data, pc[k]))
  {
  }

  lemma BlockInMiddle(a: seq<Block>, b: seq<Block>, c: seq<Block>, j: nat)
    requires j < |b|
    ensures (a + b + c)[|a| + j] == b[j]
  {
  }

  lemma MonetaryColumnsAreMonetary(headers: seq<Cell>)
    ensures forall k :: 0 <= k < |MonetaryColumns(headers)| ==> IsMonetary(MonetaryColumns(headers)[k])
  {
    var pc := MonetaryColumns(headers);
    forall k | 0 <= k < |pc| ensures IsMonetary(pc[k]) {
      MonetaryColumnsMembers(headers, pc[k]);
    }
  }

  /** The totals section holds one heading and the totals, or nothing at all. */
  lemma BreakdownCounts(t: MonthData)
    ensures var pc := MonetaryColumns(t.headers);
      var shown := if pc != [] && t.data != [] then Min(TotalsCap, |pc|) else 0;
      && |Breakdown(t)| == (if shown > 0 then 2 + shown else 0)
      && CountOf(Breakdown(t), AnyTotal) == shown
      && CountOf(Breakdown(t), Exactly(Paragraph(BreakdownHeading))) == (if shown > 0 then 1 else 0)
  {
    var pc := MonetaryColumns(t.headers);
    if pc != [] && t.data != [] {
      var lines := TotalLines(t.data, pc[..Min(TotalsCap, |pc|)]);
      var head := [Paragraph(""), Paragraph(BreakdownHeading)];
      CountOfNone(head, AnyTotal);
      assert CountOf(head, Exactly(Paragraph(BreakdownHeading))) == 1 by {
        var k := Exactly(Paragraph(BreakdownHeading));
        assert head[1..] == [Paragraph(BreakdownHeading)];
        assert head[1..][1..] == [];
        assert CountOf(head[1..][1..], k) == 0;
        assert CountOf(head[1..], k) == 1;
        assert |""| != |BreakdownHeading|;
        assert !OfKind(head[0], k);
      }
      CountOfAppend(head, lines, AnyTotal);
      CountOfAppend(head, lines, Exactly(Paragraph(BreakdownHeading)));
      TotalLinesCount(lines);
    }
  }

  /** The opening of the services act, count line included. */
  function ServicesOpening(month: string, date: Date, count: nat): seq<Block> {
    Opening(ServicesTitle, month, date, ServicesIntro) + [Paragraph(CountLabel + NatToString(count))]
  }

  /** Neither the opening nor the closing of the services act holds a total or the totals heading. */
  lemma ServicesFrameCounts(month: string, date: Date, count: nat)
    ensures CountOf(ServicesOpening(month, date, count), AnyTotal) == 0
    ensures CountOf(ServicesOpening(month, date, count), Exactly(Paragraph(BreakdownHeading))) == 0
    ensures CountOf(ServicesClosing(), AnyTotal) == 0
    ensures CountOf(ServicesClosing(), Exactly(Paragraph(BreakdownHeading))) == 0
  {
    ServicesOpeningCounts(month, date, count);
    ServicesClosingCounts();
  }

  lemma ServicesOpeningCounts(month: string, date: Date, count: nat)
    ensures CountOf(ServicesOpening(month, date, count), AnyTotal) == 0
    ensures CountOf(ServicesOpening(month, date, count), Exactly(Paragraph(BreakdownHeading))) == 0
  {
    var opening := ServicesOpening(month, date, count);
    var k := Exactly(Paragraph(BreakdownHeading));
    assert (MonthLabel + month)[0] != BreakdownHeading[0];
    assert (DateLabel + FormatDate(date))[1] != BreakdownHeading[1];
    assert (CountLabel + NatToString(count))[0] != BreakdownHeading[0];
    FixedTextsDiffer();
    forall i | 0 <= i < |opening| ensures !OfKind(opening[i], AnyTotal) && !OfKind(opening[i], k) { }
    CountOfNone(opening, AnyTotal);
    CountOfNone(opening, k);
  }

  lemma ServicesClosingCounts()
    ensures CountOf(ServicesClosing(), AnyTotal) == 0
    ensures CountOf(ServicesClosing(), Exactly(Paragraph(BreakdownHeading))) == 0
  {
    var closing := ServicesClosing();
    var k := Exactly(Paragraph(BreakdownHeading));
    FixedTextsDiffer();
    forall i | 0 <= i < |closing| ensures closing[i].Paragraph? && !OfKind(closing[i], k) { }
    CountOfNone(closing, AnyTotal);
    CountOfNone(closing, k);
  }

  /** The breakdown heading and the placeholder differ from every other fixed text of their act. */
  lemma FixedTextsDiffer()
    ensures BreakdownHeading !in ["", ServicesIntro, ServicesDone, NoClaims, SignatureLine, PerformerSignature, ClientSignature]
    ensures NoDataText !in ["", GoodsIntro, SignatureLine, TransferringSignature, ReceivingSignature]
  {
  }

  lemma {:induction false} TotalLinesCount(lines: seq<Block>)
    requires forall i :: 0 <= i < |lines| ==> lines[i].Total?
    ensures CountOf(lines, AnyTotal) == |lines|
    ensures CountOf(lines, Exactly(Paragraph(BreakdownHeading))) == 0
  {
    if lines != [] {
      TotalLinesCount(lines[1..]);
    }
  }

  /**
    Both acts open with the title, the month and the date, and close with
    the two signature blocks (transferring then receiving party; performer
    then client).
   */
  lemma ActsOpenAndClose(host: Host, month: string, date: Date, t: MonthData)
    ensures var a := AcceptanceAct(host, month, date, t);
      && a[..3] == [Heading(AcceptanceTitle, 0), Paragraph(MonthLabel + month), Paragraph(DateLabel + FormatDate(date))]
      && a[|a| - 5..] == Signatures(TransferringSignature, ReceivingSignature)
    ensures var s := ServicesAct(month, date, t);
      && s[..3] == [Heading(ServicesTitle, 0), Paragraph(MonthLabel + month), Paragraph(DateLabel + FormatDate(date))]
      && s[|s| - 5..] == Signatures(PerformerSignature, ClientSignature)
  {
    var ao := Opening(AcceptanceTitle, month, date, GoodsIntro);
    var so := ServicesOpening(month, date, |t.data|);
    assert AcceptanceAct(host, month, date, t) == ao + AcceptanceBody(host, t) + AcceptanceClosing();
    assert ServicesAct(month, date, t) == so + Breakdown(t) + ServicesClosing();
    Frame(ao, AcceptanceBody(host, t), AcceptanceClosing());
    Frame(so, Breakdown(t), ServicesClosing());
    assert ao[..3] == so[..3][0 := Heading(AcceptanceTitle, 0)];
    assert AcceptanceClosing()[2..] == Signatures(TransferringSignature, ReceivingSignature);
    assert ServicesClosing()[6..] == Signatures(PerformerSignature, ClientSignature);
  }

  /** The first three and the last five blocks of a document made of three parts. */
  lemma Frame(x: seq<Block>, y: seq<Block>, z: seq<Block>)
    requires |x| >= 3 && |z| >= 5
    ensures (x + y + z)[..3] == x[..3]
    ensures (x + y + z)[|x + y + z| - 5..] == z[|z| - 5..]
  {
  }

  // ---------------------------------------------------------------------
  // The generators, as the source runs them: blocks appended step by step
  // ---------------------------------------------------------------------

  /** Fills one table row: for each header, look up its key in the record. */
  method FillDataRow(headers: seq<Cell>, rowData: Record) returns (rowCells: seq<string>)
    ensures rowCells == DataRow(headers, rowData)
  {
    rowCells := [];
    for i := 0 to |headers|
      invariant |rowCells| == i
      invariant forall k :: 0 <= k < i ==> rowCells[k] == CellText(headers, rowData, k)
    {
      var header := headers[i];
      var key := if Truthy(header) then KeyOf(header) else StrKey(ColumnName(i));
      var value := if key in rowData then rowData[key] else Text("");
      rowCells := rowCells + [if value != Absent then Show(value) else ""];
    }
  }

  /** The acceptance table: the header row, then the first 100 records. */
  method FillAcceptanceTable(t: MonthData) returns (rows: seq<seq<string>>)
    ensures rows == AcceptanceTable(t)
  {
    var headerCells: seq<string> := [];
    for i := 0 to |t.headers|
      invariant |headerCells| == i
      invariant forall k :: 0 <= k < i ==> headerCells[k] == HeaderText(t.headers, k)
    {
      var header := t.headers[i];
      headerCells := headerCells + [if Truthy(header) then Show(header) else ColumnLabel + NatToString(i + 1)];
    }
    rows := [headerCells];
    var shown := t.data[..Min(RowCap, |t.data|)];
    for r := 0 to |shown|
      invariant |rows| == r + 1 && rows[0] == HeaderRow(t.headers)
      invariant forall q :: 0 <= q < r ==> rows[q + 1] == DataRow(t.headers, t.data[q])
    {
      var rowCells := FillDataRow(t.headers, shown[r]);
      rows := rows + [rowCells];
    }
  }

  /** The heading, the month and date lines and the narrative, each followed by the blanks the source adds. */
  method StartAct(title: string, monthName: string, date: Date, intro: string) returns (doc: seq<Block>)
    ensures doc == Opening(title, monthName, date, intro)
  {
    doc := [Heading(title, 0)];
    doc := doc + [Paragraph(MonthLabel + monthName)];
    doc := doc + [Paragraph(DateLabel + FormatDate(date))];
    doc := doc + [Paragraph("")];
    doc := doc + [Paragraph(intro)];
    doc := doc + [Paragraph("")];
  }

  /** Two signature lines with their captions, a blank between them. */
  method AppendSignatures(doc: seq<Block>, first: string, second: string) returns (result: seq<Block>)
    ensures result == doc + Signatures(first, second)
  {
    result := doc + [Paragraph(SignatureLine), Paragraph(first), Paragraph("")];
    result := result + [Paragraph(SignatureLine), Paragraph(second)];
  }

  /** `generate_acceptance_act` */
  method ComposeAcceptanceAct(host: Host, monthName: string, date: Date, monthData: MonthData)
    returns (doc: seq<Block>)
    ensures doc == AcceptanceAct(host, monthName, date, monthData)
  {
    doc := StartAct(AcceptanceTitle, monthName, date, GoodsIntro);
    if monthData.data != [] {
      var table := FillAcceptanceTable(monthData);
      doc := doc + [Table(table)];
    } else if host == WebHost {
      doc := doc + [Paragraph(NoDataText)];
    }
    doc := doc + [Paragraph(""), Paragraph("")];
    doc := AppendSignatures(doc, TransferringSignature, ReceivingSignature);
  }

  /** `price_columns`: the monetary headers, collected in header order. */
  method FindPriceColumns(headers: seq<Cell>) returns (priceColumns: seq<Cell>)
    ensures priceColumns == MonetaryColumns(headers)
  {
    priceColumns := [];
    for h := 0 to |headers|
      invariant priceColumns == MonetaryColumns(headers[..h])
    {
      var header := headers[h];
      if Truthy(header) && exists kw :: kw in MonetaryKeywords && Contains(Lower(Show(header)), kw) {
        priceColumns := priceColumns + [header];
      }
      assert headers[..h + 1][..h] == headers[..h];
    }
    assert headers[..|headers|] == headers;
  }

  /** `total += value` over every record, for the non-zero int and float values. */
  method SumColumn(data: seq<Record>, col: Cell) returns (total: real)
    ensures total == ColumnTotal(data, col)
  {
    total := 0.0;
    for r := 0 to |data|
      invariant total == ColumnTotal(data[..r], col)
    {
      var row := data[r];
      var value := if KeyOf(col) in row then row[KeyOf(col)] else Int(0);
      if Truthy(value) && IsNumber(value) {
        total := total + NumericValue(value);
      }
      assert data[..r + 1][..r] == data[..r];
    }
    assert data[..|data|] == data;
  }

  /** The totals section: one `total` accumulation per monetary column. */
  method AddTotalLines(doc: seq<Block>, data: seq<Record>, cols: seq<Cell>) returns (result: seq<Block>)
    ensures result == doc + TotalLines(data, cols)
  {
    result := doc;
    for c := 0 to |cols|
      invariant |result| == |doc| + c
      invariant result[..|doc|] == doc
      invariant forall k :: 0 <= k < c ==> result[|doc| + k] == Total(Show(cols[k]), ColumnTotal(data, cols[k]))
    {
      var total := SumColumn(data, cols[c]);
      result := result + [Total(Show(cols[c]), total)];
    }
  }

  /** `generate_services_act` */
  method ComposeServicesAct(monthName: string, date: Date, monthData: MonthData)
    returns (doc: seq<Block>)
    ensures doc == ServicesAct(monthName, date, monthData)
  {
    doc := StartAct(ServicesTitle, monthName, date, ServicesIntro);
    var totalItems := |monthData.data|;
    doc := doc + [Paragraph(CountLabel + NatToString(totalItems))];
    ghost var opening := doc;
    var priceColumns := FindPriceColumns(monthData.headers);
    if priceColumns != [] && monthData.data != [] {
      doc := doc + [Paragraph(""), Paragraph(BreakdownHeading)];
      doc := AddTotalLines(doc, monthData.data, priceColumns[..Min(TotalsCap, |priceColumns|)]);
    }
    assert doc == opening + Breakdown(monthData);
    ghost var middle := doc;
    doc := doc + [Paragraph(""), Paragraph(""), Paragraph(ServicesDone), Paragraph(NoClaims), Paragraph(""), Paragraph("")];
    doc := AppendSignatures(doc, PerformerSignature, ClientSignature);
    assert doc == middle + ServicesClosing();
  }
}
