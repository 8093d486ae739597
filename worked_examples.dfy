/** Documents shaped like the upstream API's responses. */
module ExampleDocuments {
  import opened Json

  /** A company-concept document with two observations reported in USD
      and one in shares. */
  function ConceptDoc(o1: JValue, o2: JValue, o3: JValue): JValue {
    JObj([("units", JObj([("USD", JArr([o1, o2])), ("shares", JArr([o3]))])),
          ("cik", JNum(320193)), ("taxonomy", JStr("dei")), ("tag", JStr("Shares")),
          ("label", JStr("Shares")), ("description", JStr("Shares outstanding")),
          ("entityName", JStr("Apple Inc."))])
  }

  function Obs1(): JValue {
    JObj([("end", JStr("2020-12-31")), ("val", JNum(100)), ("fy", JNum(2020))])
  }

  function Obs2(): JValue {
    JObj([("end", JStr("2021-12-31")), ("val", JNum(120)), ("fy", JNum(2021))])
  }

  /** An observation without a fiscal year. */
  function Obs3(): JValue {
    JObj([("end", JStr("2021-12-31")), ("val", JNum(5))])
  }
}

/** Company-concept examples, derived from the general lemmas. */
module ConceptExamples {
  import opened Json
  import opened Comprehension
  import opened Observations
  import opened CompanyConcept
  import opened ExampleDocuments

  lemma ConceptDocUnits(o1: JValue, o2: JValue, o3: JValue)
    ensures var units := UnitEntries(ConceptDoc(o1, o2, o3));
            && units == [("USD", JArr([o1, o2])), ("shares", JArr([o3]))]
            && UnitLength(units[0]) == 2 && UnitLength(units[1]) == 1
  {
    var doc := ConceptDoc(o1, o2, o3);
    assert Subscript(doc, "units") == Ok(doc.fields[0].1);
  }

  lemma TwoUnitSums(units: seq<Entry>)
    requires |units| == 2
    ensures SumOf(UnitLength, units[..0]) == 0
    ensures SumOf(UnitLength, units[..1]) == UnitLength(units[0])
    ensures SumOf(UnitLength, units) == UnitLength(units[0]) + UnitLength(units[1])
  {
    assert units[..0] == [];
    assert units[..1][1..] == [];
    assert units[1..][1..] == [];
  }

  lemma ConceptDocMetadata(o1: JValue, o2: JValue, o3: JValue)
    ensures var doc := ConceptDoc(o1, o2, o3);
            doc.JObj? && HasKeys(doc.fields, METADATA) && Subscript(doc, "units").Ok?
  {
    var doc := ConceptDoc(o1, o2, o3);
    forall n | 0 <= n < |METADATA| ensures HasKey(doc.fields, METADATA[n]) {
      assert doc.fields[n + 1].0 == METADATA[n];
      HasKeyAt(doc.fields, n + 1);
    }
  }

  lemma ConceptDocShape(o1: JValue, o2: JValue, o3: JValue)
    requires o1.JObj? && o2.JObj? && o3.JObj?
    ensures ConceptShape(ConceptDoc(o1, o2, o3))
  {
    ConceptDocMetadata(o1, o2, o3);
    ConceptDocUnits(o1, o2, o3);
  }

  /** In an accepted document whose units are `a: [o1, o2]` and `b: [o3]`,
      the table has three rows: `o1` and `o2` under `a`, then `o3` under `b`. */
  lemma FirstRowOfTwoUnits(doc: JValue, a: string, b: string, o1: JValue, o2: JValue, o3: JValue, rows: seq<ConceptRow>)
    requires ConceptRows(doc) == Ok(rows)
    requires UnitEntries(doc) == [(a, JArr([o1, o2])), (b, JArr([o3]))]
    ensures |rows| == 3 && ConceptRowOf(doc, a, o1) == Ok(rows[0])
  {
    var units := UnitEntries(doc);
    assert UnitLength(units[0]) == 2 && UnitLength(units[1]) == 1;
    TwoUnitSums(units);
    ConceptRowCount(doc, rows);
    assert |rows| == 3;
    var before := SumOf(UnitLength, units[..0]);
    assert before == 0;
    assert Iterate(units[0].1) == Ok([o1, o2]);
    ConceptRowAt(doc, rows, 0, 0);
  }

  lemma SecondRowOfTwoUnits(doc: JValue, a: string, b: string, o1: JValue, o2: JValue, o3: JValue, rows: seq<ConceptRow>)
    requires ConceptRows(doc) == Ok(rows)
    requires UnitEntries(doc) == [(a, JArr([o1, o2])), (b, JArr([o3]))]
    ensures |rows| == 3 && ConceptRowOf(doc, a, o2) == Ok(rows[1])
  {
    var units := UnitEntries(doc);
    assert UnitLength(units[0]) == 2 && UnitLength(units[1]) == 1;
    TwoUnitSums(units);
    ConceptRowCount(doc, rows);
    assert |rows| == 3;
    var before := SumOf(UnitLength, units[..0]);
    assert before == 0;
    assert Iterate(units[0].1) == Ok([o1, o2]);
    ConceptRowAt(doc, rows, 0, 1);
  }

  lemma ThirdRowOfTwoUnits(doc: JValue, a: string, b: string, o1: JValue, o2: JValue, o3: JValue, rows: seq<ConceptRow>)
    requires ConceptRows(doc) == Ok(rows)
    requires UnitEntries(doc) == [(a, JArr([o1, o2])), (b, JArr([o3]))]
    ensures |rows| == 3 && ConceptRowOf(doc, b, o3) == Ok(rows[2])
  {
    var units := UnitEntries(doc);
    assert UnitLength(units[0]) == 2 && UnitLength(units[1]) == 1;
    TwoUnitSums(units);
    ConceptRowCount(doc, rows);
    assert |rows| == 3;
    var before := SumOf(UnitLength, units[..1]);
    assert before == 2;
    assert Iterate(units[1].1) == Ok([o3]);
    ConceptRowAt(doc, rows, 1, 0);
  }

  /** The document yields three rows: the two USD observations, then the
      shares one, each with the document's identifier. */
  lemma ConceptDocRows(o1: JValue, o2: JValue, o3: JValue)
    requires o1.JObj? && o2.JObj? && o3.JObj?
    ensures var r := ConceptRows(ConceptDoc(o1, o2, o3));
            && r.Ok? && |r.value| == 3
            && r.value[0].units == "USD" && r.value[1].units == "USD" && r.value[2].units == "shares"
            && r.value[0].obs == ObservationOf(o1).value
            && r.value[1].obs == ObservationOf(o2).value
            && r.value[2].obs == ObservationOf(o3).value
            && r.value[0].cik == JNum(320193) && r.value[2].cik == JNum(320193)
  {
    var doc := ConceptDoc(o1, o2, o3);
    ConceptDocShape(o1, o2, o3);
    ConceptDocUnits(o1, o2, o3);
    ConceptRowsSucceed(doc);
    var rows := ConceptRows(doc).value;
    FirstRowOfTwoUnits(doc, "USD", "shares", o1, o2, o3, rows);
    SecondRowOfTwoUnits(doc, "USD", "shares", o1, o2, o3, rows);
    ThirdRowOfTwoUnits(doc, "USD", "shares", o1, o2, o3, rows);
    ConceptDocCik(o1, o2, o3);
  }

  lemma ConceptDocCik(o1: JValue, o2: JValue, o3: JValue)
    ensures Subscript(ConceptDoc(o1, o2, o3), "cik") == Ok(JNum(320193))
  {
    var doc := ConceptDoc(o1, o2, o3);
    assert doc.fields[0].0 == "units";
    assert doc.fields[1] == ("cik", JNum(320193));
    LookupFirst(doc.fields, "cik", 1);
  }

  /** A fiscal year present in the observation is copied, a missing one
      becomes the missing marker. */
  lemma ObservationExample()
    ensures ObservationOf(Obs1()).value.fy == Some(JNum(2020))
    ensures ObservationOf(Obs3()).value.fy == None
  {
    assert Keys(Obs1().fields) == ["end", "val", "fy"];
    assert Keys(Obs3().fields) == ["end", "val"];
  }
}

/** The ticker document's own sample record. */
module TickerExamples {
  import opened Json
  import opened PyText
  import opened Tickers

  function AppleRecord(): JValue {
    JObj([("cik_str", JNum(320193)), ("ticker", JStr("AAPL")), ("title", JStr("Apple Inc."))])
  }

  function AppleRow(): TickerRow {
    TickerRow(Some(JNum(320193)), Some(JStr("AAPL")), Some(JStr("Apple Inc.")))
  }

  lemma AppleFields()
    ensures Keys(AppleRecord().fields) == RECORD_KEYS
    ensures Field(AppleRecord(), "cik_str") == Some(JNum(320193))
    ensures Field(AppleRecord(), "ticker") == Some(JStr("AAPL"))
    ensures Field(AppleRecord(), "title") == Some(JStr("Apple Inc."))
  {
    var fields := AppleRecord().fields;
    LookupFirst(fields, "cik_str", 0);
    assert fields[0].0 == "cik_str";
    LookupFirst(fields, "ticker", 1);
    assert fields[1].0 == "ticker";
    LookupFirst(fields, "title", 2);
  }

  /** A document of one upstream record gives one row holding its three
      fields. */
  lemma SingleRecordRow(doc: JValue, key: string, record: JValue)
    requires doc == JObj([(key, record)]) && record.JObj? && Keys(record.fields) == RECORD_KEYS
    ensures var rows := TickerTable(doc);
            && rows.Ok? && |rows.value| == 1
            && rows.value[0] == TickerRow(Field(record, "cik_str"), Field(record, "ticker"), Field(record, "title"))
  {
    assert Records(doc) == doc.fields;
    UpstreamColumns(doc);
  }

  lemma SingleRecord(doc: JValue, key: string, record: JValue)
    requires doc == JObj([(key, record)]) && record.JObj? && Keys(record.fields) == RECORD_KEYS
    ensures TickerTable(doc) == Ok([TickerRow(Field(record, "cik_str"), Field(record, "ticker"), Field(record, "title"))])
  {
    SingleRecordRow(doc, key, record);
    var rows := TickerTable(doc).value;
    assert rows == [rows[0]];
  }

  /** The record is laid out under the three renamed columns. */
  lemma AppleTable(doc: JValue)
    requires doc == JObj([("0", AppleRecord())])
    ensures TickerTable(doc) == Ok([AppleRow()])
  {
    AppleFields();
    SingleRecord(doc, "0", AppleRecord());
  }

  /** A single record with distinct keys gives its keys as the columns. */
  lemma SingleRecordColumns(doc: JValue, key: string, record: JValue)
    requires doc == JObj([(key, record)]) && record.JObj? && NoDup(Keys(record.fields))
    ensures Columns(Records(doc)) == Keys(record.fields)
  {
    var first := Keys(record.fields);
    assert Records(doc) == doc.fields;
    assert doc.fields[1..] == [];
    assert AllKeys(doc.fields) == first + [];
    ColumnsFromAll([], doc.fields);
    assert [] + first == first;
    AddNewColumns([], first);
  }

  lemma TitleFirstColumns(doc: JValue, a: JValue, b: JValue, c: JValue)
    requires doc == JObj([("0", JObj([("title", a), ("cik_str", b), ("ticker", c)]))])
    ensures Records(doc) == doc.fields
    ensures Columns(Records(doc)) == ["title", "cik_str", "ticker"]
  {
    var record := doc.fields[0].1;
    assert Keys(record.fields) == ["title", "cik_str", "ticker"];
    SingleRecordColumns(doc, "0", record);
    assert Records(doc) == doc.fields;
  }

  lemma TitleFirstLookups(fields: seq<Entry>, a: JValue, b: JValue, c: JValue)
    requires fields == [("title", a), ("cik_str", b), ("ticker", c)]
    ensures Lookup(fields, "title") == Some(a)
    ensures Lookup(fields, "cik_str") == Some(b)
    ensures Lookup(fields, "ticker") == Some(c)
  {
    LookupFirst(fields, "title", 0);
    LookupFirst(fields, "cik_str", 1);
    LookupFirst(fields, "ticker", 2);
  }

  /** The renaming is by position: a record whose keys come title first
      puts its title under `cik`, its `cik_str` under `ticker` and its
      ticker under `title`. */
  lemma TitleFirstRecord(doc: JValue, a: JValue, b: JValue, c: JValue)
    requires doc == JObj([("0", JObj([("title", a), ("cik_str", b), ("ticker", c)]))])
    ensures TickerTable(doc) == Ok([TickerRow(Some(a), Some(b), Some(c))])
  {
    TitleFirstColumns(doc, a, b, c);
    TitleFirstLookups(doc.fields[0].1.fields, a, b, c);
    assert AllObjects(doc.fields);
    var rows := TickerTable(doc).value;
    assert rows[0] == RowOf(["title", "cik_str", "ticker"], doc.fields[0]);
    assert rows == [rows[0]];
  }

  /** With `parse_cik` the integer CIK becomes the padded identifier. */
  lemma AppleTicker(doc: JValue)
    requires doc == JObj([("0", AppleRecord())])
    ensures CompanyTickers(doc, true)
            == Ok([TickerRow(Some(JStr("CIK0000320193")), Some(JStr("AAPL")), Some(JStr("Apple Inc.")))])
  {
    AppleTable(doc);
    AppleParsed();
  }

  lemma AppleParsed()
    ensures ParseCikColumn([AppleRow()]) == [TickerRow(Some(JStr("CIK0000320193")), Some(JStr("AAPL")), Some(JStr("Apple Inc.")))]
  {
    CikExample();
    var p := ParseCikColumn([AppleRow()]);
    assert |p| == 1;
    assert p[0] == TickerRow(Some(JStr("CIK0000320193")), Some(JStr("AAPL")), Some(JStr("Apple Inc.")));
    assert p == [p[0]];
  }
}

/** A small `filings.recent` block. */
module SubmissionExamples {
  import opened Json
  import opened KeyOrder
  import opened Submissions

  function Recent(): JValue {
    JObj([("form", JArr([JStr("10-K"), JStr("8-K")])),
          ("accessionNumber", JArr([JStr("0001"), JStr("0002")]))])
  }

  /** Sorting puts `accessionNumber` before `form`. */
  lemma RecentSorted()
    ensures SortByKey(Recent().fields) == [Recent().fields[1], Recent().fields[0]]
  {
    assert !StrLe("form", "accessionNumber");
  }

  lemma TwoByTwoOk(recent: JValue, x: Entry, y: Entry)
    requires recent.JObj? && SortByKey(recent.fields) == [x, y]
    requires x.1.JArr? && y.1.JArr? && |x.1.items| == 2 && |y.1.items| == 2
    ensures FromColumns(recent).Ok?
  {
    var cols := SortByKey(recent.fields);
    assert cols[0] == x && cols[1] == y;
    assert AllArrays(cols);
    assert SameLengths(cols);
    PermutedColumns(cols, recent.fields);
  }

  lemma TwoByTwoCells(recent: JValue, x: Entry, y: Entry, t: Table)
    requires FromColumns(recent) == Ok(t) && SortByKey(recent.fields) == [x, y]
    requires x.1.JArr? && |x.1.items| == 2
    ensures t.columns == [x.0, y.0] && |t.rows| == 2
    ensures forall i :: 0 <= i < 2 ==> t.rows[i] == [x.1.items[i], y.1.items[i]]
  {
    FromColumnsTable(recent, t);
    var cols := SortByKey(recent.fields);
    assert Keys(cols) == [x.0, y.0];
    assert |x.1.items| == |t.rows|;
  }

  /** Two sorted columns of two elements each make a two-by-two table. */
  lemma TwoByTwo(recent: JValue, x: Entry, y: Entry)
    requires recent.JObj? && SortByKey(recent.fields) == [x, y]
    requires x.1.JArr? && y.1.JArr? && |x.1.items| == 2 && |y.1.items| == 2
    ensures FromColumns(recent) == Ok(Table([x.0, y.0], [[x.1.items[0], y.1.items[0]], [x.1.items[1], y.1.items[1]]]))
  {
    TwoByTwoOk(recent, x, y);
    var t := FromColumns(recent).value;
    TwoByTwoCells(recent, x, y, t);
    assert t.rows == [t.rows[0], t.rows[1]];
  }

  /** Columns come in sorted order, rows in array order. */
  lemma RecentTable()
    ensures FromColumns(Recent())
            == Ok(Table(["accessionNumber", "form"], [[JStr("0001"), JStr("10-K")], [JStr("0002"), JStr("8-K")]]))
  {
    RecentSorted();
    TwoByTwo(Recent(), Recent().fields[1], Recent().fields[0]);
  }

  /** Arrays of different lengths raise ValueError. */
  lemma RaggedRecent()
    ensures FromColumns(JObj([("form", JArr([JStr("10-K"), JStr("8-K")])), ("accessionNumber", JArr([JStr("0001")]))]))
            == Err(ValueError)
  {
    var recent := JObj([("form", JArr([JStr("10-K"), JStr("8-K")])), ("accessionNumber", JArr([JStr("0001")]))]);
    assert |recent.fields[0].1.items| != |recent.fields[1].1.items|;
  }
}
