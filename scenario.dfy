/**
  A worked example: one sheet "Январь" with headers Товар / Цена and the
  rows ("Шапка", 500) and ("Шарф", None), followed through extraction and
  both acts.
 */
module Scenario {
  import opened Cells
  import opened Extraction
  import opened Acts

  const January: SheetRows :=
    SheetRows("Январь", [[Text("Товар"), Text("Цена")], [Text("Шапка"), Int(500)], [Text("Шарф"), Absent]])

  /** Both rows are kept (the second has one non-empty cell), keyed by their headers. */
  lemma JanuaryExtraction(host: Host)
    ensures ExtractWorkbook([January], host) == [Month("Январь", ExtractSheet(January.rows))]
    ensures ExtractSheet(January.rows) == JanuaryTable
  {
    var headers := [Text("Товар"), Text("Цена")];
    var r1 := [Text("Шапка"), Int(500)];
    var r2 := [Text("Шарф"), Absent];
    assert HasValue(r1) by { assert r1[0] != Absent; }
    assert HasValue(r2) by { assert r2[0] != Absent; }
    assert January.rows[1..] == [r1] + [r2];
    RecordsAppend(headers, [r1], [r2]);
    assert [r1][..0] == [] && [r2][..0] == [];
    assert Records(headers, [r1]) == [RecordOf(headers, r1)];
    assert Records(headers, [r2]) == [RecordOf(headers, r2)];
    assert ColumnKey(headers, 0) == StrKey("Товар") && ColumnKey(headers, 1) == StrKey("Цена") by {
      assert Truthy(headers[0]) && Truthy(headers[1]);
    }
    assert RecordPrefix(headers, r1, 1) == map[StrKey("Товар") := Text("Шапка")];
    assert RecordPrefix(headers, r2, 1) == map[StrKey("Товар") := Text("Шарф")];
    assert RecordOf(headers, r1) == map[StrKey("Товар") := Text("Шапка"), StrKey("Цена") := Int(500)];
    assert RecordOf(headers, r2) == map[StrKey("Товар") := Text("Шарф"), StrKey("Цена") := Absent];
  }

  /** A text in which k's first character never occurs does not contain k. */
  lemma {:induction false} FirstCharAbsent(s: string, k: string)
    requires k != [] && forall i :: 0 <= i < |s| ==> s[i] != k[0]
    ensures !Contains(s, k)
    decreases |s|
  {
    if |k| <= |s| {
      assert s[..|k|][0] != k[0];
      FirstCharAbsent(s[1..], k);
    }
  }

  /** Only "Цена" is monetary: "товар" contains none of the keywords. */
  lemma JanuaryMonetaryColumns()
    ensures MonetaryColumns([Text("Товар"), Text("Цена")]) == [Text("Цена")]
  {
    var goods := Lower("Товар");
    assert goods == "товар";
    forall kw | kw in MonetaryKeywords ensures !Contains(goods, kw) {
      FirstCharAbsent(goods, kw);
    }
    assert !IsMonetary(Text("Товар"));
    assert Lower("Цена") == "цена";
    assert Show(Text("Цена")) == "Цена";
    assert Contains(Lower(Show(Text("Цена"))), "цена");
    assert "цена" in MonetaryKeywords;
    assert IsMonetary(Text("Цена"));
    var headers := [Text("Товар"), Text("Цена")];
    assert headers[..1] == [Text("Товар")];
    assert [Text("Товар")][..0] == [];
    assert MonetaryColumns([Text("Товар")]) == [];
  }

  /** The table both acts of the example are composed from. */
  const JanuaryTable: MonthData :=
    MonthData([Text("Товар"), Text("Цена")],
      [map[StrKey("Товар") := Text("Шапка"), StrKey("Цена") := Int(500)],
       map[StrKey("Товар") := Text("Шарф"), StrKey("Цена") := Absent]])

  /** The acceptance table has three rows: the header row and two data rows, None shown as ''. */
  lemma JanuaryAcceptance(host: Host, date: Date)
    ensures AcceptanceAct(host, "Январь", date, JanuaryTable)[6] == Table([["Товар", "Цена"], ["Шапка", "500"], ["Шарф", ""]])
  {
    var t := JanuaryTable;
    AcceptanceTableShape(host, "Январь", date, t);
    var rows := AcceptanceAct(host, "Январь", date, t)[6].rows;
    assert NatToString(500) == "500" by {
      assert NatToString(50) == "50";
    }
    assert rows[0] == ["Товар", "Цена"] by {
      assert rows[0][0] == HeaderText(t.headers, 0) == "Товар";
      assert rows[0][1] == HeaderText(t.headers, 1) == "Цена";
    }
    assert rows[1] == ["Шапка", "500"] by {
      assert rows[1][0] == CellText(t.headers, t.data[0], 0) == "Шапка";
      assert rows[1][1] == CellText(t.headers, t.data[0], 1) == "500";
    }
    assert rows[2] == ["Шарф", ""] by {
      assert rows[2][0] == CellText(t.headers, t.data[1], 0) == "Шарф";
      assert rows[2][1] == CellText(t.headers, t.data[1], 1) == "";
    }
  }

  /** The services act counts two positions and shows one total, 500 for Цена; the None cell adds nothing. */
  lemma JanuaryServices(date: Date)
    ensures ServicesAct("Январь", date, JanuaryTable)[6] == Paragraph(CountLabel + "2")
    ensures CountOf(ServicesAct("Январь", date, JanuaryTable), AnyTotal) == 1
    ensures ServicesAct("Январь", date, JanuaryTable)[9] == Total("Цена", 500.0)
  {
    var t := JanuaryTable;
    JanuaryMonetaryColumns();
    JanuaryPriceTotal();
    ServicesTotals("Январь", date, t);
    var opening := ServicesOpening("Январь", date, |t.data|);
    assert ServicesAct("Январь", date, t) == opening + (Breakdown(t) + ServicesClosing());
    assert |t.data| == 2;
  }

  /** Шапка contributes 500 and the empty price of Шарф nothing. */
  lemma JanuaryPriceTotal()
    ensures ColumnTotal(JanuaryTable.data, Text("Цена")) == 500.0
  {
    var t := JanuaryTable;
    assert ColumnTotal(t.data[..1], Text("Цена")) == 500.0 by {
      assert t.data[..1][..0] == [];
    }
  }
}
