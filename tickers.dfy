/** `get_companytickers` (SEC_API.py lines 29-35). The document maps an
    arbitrary key to one company record. `DataFrame.from_records` turns the
    record dicts into columns (sorted by key) whose index is the union of the
    record keys; `transpose` makes one row per record, `reset_index` drops
    the keys, and the columns are then renamed by position. */
module Tickers {
  import opened Json
  import opened KeyOrder
  import opened PyText

  /** One row of the table; None stands for NaN (a record lacking the key
      its column was named after). */
  datatype TickerRow = TickerRow(cik: Option<JValue>, ticker: Option<JValue>, title: Option<JValue>)

  predicate NoDup(s: seq<string>) {
    forall i, j :: 0 <= i < j < |s| ==> s[i] != s[j]
  }

  /** The keys of `keys` that are neither in `cols` nor earlier in `keys`,
      in order: every new key at its first occurrence. */
  function NewKeys(cols: seq<string>, keys: seq<string>): seq<string> {
    if keys == [] then []
    else
      var init := keys[..|keys| - 1];
      var k := keys[|keys| - 1];
      NewKeys(cols, init) + (if k in cols || k in init then [] else [k])
  }

  /** The first key is new exactly when it is not in `cols`; the keys after
      it are then new with respect to `cols` and, if it was new, to it. */
  lemma {:induction false} NewKeysCons(cols: seq<string>, k: string, rest: seq<string>)
    ensures NewKeys(cols, [k] + rest) == if k in cols then NewKeys(cols, rest) else [k] + NewKeys(cols + [k], rest)
    decreases |rest|
  {
    var s := [k] + rest;
    if rest == [] {
      assert s[..|s| - 1] == [] && s[|s| - 1] == k;
    } else {
      var init := rest[..|rest| - 1];
      var x := rest[|rest| - 1];
      assert s[..|s| - 1] == [k] + init && s[|s| - 1] == x;
      NewKeysCons(cols, k, init);
      assert x in [k] + init <==> x == k || x in init;
      assert x in cols + [k] <==> x in cols || x == k;
      var tail := if x in cols || x == k || x in init then [] else [x];
      if k in cols {
        assert NewKeys(cols, s) == NewKeys(cols, init) + tail;
        assert NewKeys(cols, rest) == NewKeys(cols, init) + tail;
      } else {
        assert NewKeys(cols, s) == ([k] + NewKeys(cols + [k], init)) + tail;
        assert NewKeys(cols + [k], rest) == NewKeys(cols + [k], init) + tail;
      }
    }
  }

  /** `cols` followed by those of `keys` not seen yet, in order. */
  function AddColumns(cols: seq<string>, keys: seq<string>): (r: seq<string>)
    ensures |r| >= |cols| && r[..|cols|] == cols
    ensures forall k :: k in r <==> k in cols || k in keys
    ensures NoDup(cols) ==> NoDup(r)
    decreases keys
  {
    if keys == [] then cols
    else if keys[0] in cols then AddColumns(cols, keys[1..])
    else
      var r := AddColumns(cols + [keys[0]], keys[1..]);
      assert r[..|cols|] == (r[..|cols| + 1])[..|cols|];
      r
  }

  /** What merging appends to `cols` is exactly the new keys of `keys`, each
      at its first occurrence. */
  lemma {:induction false} AddColumnsOrder(cols: seq<string>, keys: seq<string>)
    ensures AddColumns(cols, keys) == cols + NewKeys(cols, keys)
    decreases keys
  {
    if keys != [] {
      assert keys == [keys[0]] + keys[1..];
      NewKeysCons(cols, keys[0], keys[1..]);
      if keys[0] in cols {
        AddColumnsOrder(cols, keys[1..]);
      } else {
        AddColumnsOrder(cols + [keys[0]], keys[1..]);
      }
    }
  }

  /** Merging two lists of keys one after the other merges their
      concatenation. */
  lemma {:induction false} AddColumnsAppend(cols: seq<string>, a: seq<string>, b: seq<string>)
    ensures AddColumns(AddColumns(cols, a), b) == AddColumns(cols, a + b)
    decreases a
  {
    if a != [] {
      var ab := a + b;
      assert ab[0] == a[0] && ab[1..] == a[1..] + b;
      if a[0] in cols {
        assert AddColumns(cols, a) == AddColumns(cols, a[1..]);
        assert AddColumns(cols, ab) == AddColumns(cols, a[1..] + b);
        AddColumnsAppend(cols, a[1..], b);
      } else {
        assert AddColumns(cols, a) == AddColumns(cols + [a[0]], a[1..]);
        assert AddColumns(cols, ab) == AddColumns(cols + [a[0]], a[1..] + b);
        AddColumnsAppend(cols + [a[0]], a[1..], b);
      }
    } else {
      assert a + b == b;
    }
  }

  /** The keys of every record, record after record. */
  function AllKeys(entries: seq<Entry>): seq<string> {
    if entries == [] then [] else Keys(ItemsOr(entries[0].1)) + AllKeys(entries[1..])
  }

  /** The keys of the records' dicts, merged in first-seen order. */
  function ColumnsFrom(cols: seq<string>, entries: seq<Entry>): (r: seq<string>)
    ensures forall k :: k in r <==> k in cols || exists i :: 0 <= i < |entries| && k in Keys(ItemsOr(entries[i].1))
    ensures NoDup(cols) ==> NoDup(r)
    decreases entries
  {
    if entries == [] then cols
    else
      var r := ColumnsFrom(AddColumns(cols, Keys(ItemsOr(entries[0].1))), entries[1..]);
      assert forall i :: 1 <= i < |entries| ==> entries[i] == entries[1..][i - 1];
      r
  }

  /** Merging record by record merges all their keys in one go. */
  lemma {:induction false} ColumnsFromAll(cols: seq<string>, entries: seq<Entry>)
    ensures ColumnsFrom(cols, entries) == AddColumns(cols, AllKeys(entries))
    decreases entries
  {
    if entries != [] {
      var first := Keys(ItemsOr(entries[0].1));
      ColumnsFromAll(AddColumns(cols, first), entries[1..]);
      AddColumnsAppend(cols, first, AllKeys(entries[1..]));
    }
  }

  function Columns(entries: seq<Entry>): seq<string> {
    ColumnsFrom([], entries)
  }

  predicate AllObjects(entries: seq<Entry>) {
    forall i :: 0 <= i < |entries| ==> entries[i].1.JObj?
  }

  /** One transposed record: its values under the three column names, in
      column order. */
  function RowOf(cols: seq<string>, e: Entry): TickerRow
    requires |cols| == 3
  {
    TickerRow(Lookup(ItemsOr(e.1), cols[0]), Lookup(ItemsOr(e.1), cols[1]), Lookup(ItemsOr(e.1), cols[2]))
  }

  /** The records in the order pandas lays them out: `sorted()` of the
      document's keys. */
  function Records(doc: JValue): seq<Entry> {
    SortByKey(ItemsOr(doc))
  }

  /** Lines 29-30. Anything but a dict of dicts is a document the model does
      not follow (FormatError); assigning three column names to a frame
      that does not have exactly three columns raises ValueError. */
  function TickerTable(doc: JValue): (r: Result<seq<TickerRow>>)
    ensures r.Ok? <==> doc.JObj? && AllObjects(doc.fields) && |Columns(Records(doc))| == 3
    ensures !doc.JObj? || !AllObjects(doc.fields) ==> r == Err(FormatError)
    ensures doc.JObj? && AllObjects(doc.fields) && |Columns(Records(doc))| != 3 ==> r == Err(ValueError)
    ensures r.Ok? ==> |r.value| == |doc.fields|
    ensures r.Ok? ==> forall i :: 0 <= i < |r.value| ==> r.value[i] == RowOf(Columns(Records(doc)), Records(doc)[i])
  {
    if !doc.JObj? || !AllObjects(doc.fields) then Err(FormatError)
    else
      var records := Records(doc);
      var cols := Columns(records);
      if |cols| != 3 then Err(ValueError)
      else Ok(seq(|records|, i requires 0 <= i < |records| => RowOf(cols, records[i])))
  }

  /** `df["cik"] = "CIK" + df["cik"].astype("str").str.pad(10, fillchar='0')`,
      applied to every row; the other columns are left as they are. */
  function ParseCikColumn(rows: seq<TickerRow>): (r: seq<TickerRow>)
    ensures |r| == |rows|
    ensures forall i :: 0 <= i < |rows| ==>
              && r[i].cik == Some(JStr(CikText(rows[i].cik)))
              && r[i].ticker == rows[i].ticker && r[i].title == rows[i].title
  {
    if rows == [] then []
    else
      var rest := ParseCikColumn(rows[1..]);
      assert forall i :: 1 <= i < |rows| ==> rows[i] == rows[1..][i - 1];
      [rows[0].(cik := Some(JStr(CikText(rows[0].cik))))] + rest
  }

  /** The whole operation. The flag changes the `cik` column and nothing
      else: without it the table is returned as built, with it the call
      fails exactly when the table does, and every `cik` becomes its
      "CIK"-prefixed, zero-padded text while `ticker` and `title` stay. */
  function CompanyTickers(doc: JValue, parseCik: bool): (r: Result<seq<TickerRow>>)
    ensures !parseCik ==> r == TickerTable(doc)
    ensures r.Ok? <==> TickerTable(doc).Ok?
    ensures r.Err? ==> r == TickerTable(doc)
    ensures parseCik && r.Ok? ==>
              var before := TickerTable(doc).value;
              && |r.value| == |before|
              && forall i :: 0 <= i < |before| ==>
                   && r.value[i].cik == Some(JStr(CikText(before[i].cik)))
                   && r.value[i].ticker == before[i].ticker && r.value[i].title == before[i].title
  {
    var rows :- TickerTable(doc);
    if parseCik then Ok(ParseCikColumn(rows)) else Ok(rows)
  }

  /** The columns are the record keys in first-seen order: the records are
      read in sorted key order, each record's keys in its own order, and a
      key already seen is skipped. */
  lemma ColumnsFirstSeen(entries: seq<Entry>)
    ensures Columns(entries) == NewKeys([], AllKeys(entries))
  {
    ColumnsFromAll([], entries);
    AddColumnsOrder([], AllKeys(entries));
  }

  /** The first record's keys, when distinct, open the column list in their
      own order. */
  lemma FirstRecordColumns(entries: seq<Entry>)
    requires entries != [] && NoDup(Keys(ItemsOr(entries[0].1)))
    ensures var first := Keys(ItemsOr(entries[0].1));
            |Columns(entries)| >= |first| && Columns(entries)[..|first|] == first
  {
    var first := Keys(ItemsOr(entries[0].1));
    assert [] + first == first;
    AddNewColumns([], first);
    ColumnsFromAll(first, entries[1..]);
    AddColumnsOrder(first, AllKeys(entries[1..]));
  }

  /** The first key is always new to an empty column list. */
  lemma NewKeysHead(keys: seq<string>)
    requires keys != []
    ensures NewKeys([], keys) != [] && NewKeys([], keys)[0] == keys[0]
  {
    assert keys == [keys[0]] + keys[1..];
    NewKeysCons([], keys[0], keys[1..]);
  }

  /** The first column is the first key of any record. */
  lemma ColumnsHead(entries: seq<Entry>)
    requires Columns(entries) != []
    ensures AllKeys(entries) != [] && Columns(entries)[0] == AllKeys(entries)[0]
  {
    var all := AllKeys(entries);
    ColumnsFirstSeen(entries);
    if all != [] {
      NewKeysHead(all);
    }
  }

  /** Which key `cik` renames: the first key of the first record that has
      one, in sorted record order. When the first record has three distinct
      keys, they are the columns, `cik`, `ticker` and `title` in turn. */
  lemma RenamedByFirstRecord(doc: JValue)
    requires TickerTable(doc).Ok?
    ensures var records := Records(doc);
            && records != [] && AllKeys(records) != []
            && Columns(records)[0] == AllKeys(records)[0]
            && var first := Keys(ItemsOr(records[0].1));
            && (first != [] ==> Columns(records)[0] == first[0])
            && (|first| == 3 && NoDup(first) ==> Columns(records) == first)
  {
    var records := Records(doc);
    ColumnsHead(records);
    var first := Keys(ItemsOr(records[0].1));
    if first != [] {
      assert AllKeys(records) == first + AllKeys(records[1..]);
    }
    if |first| == 3 && NoDup(first) {
      FirstRecordColumns(records);
    }
  }

  lemma {:induction false} RowsOfPermutation(cols: seq<string>, records: seq<Entry>, fields: seq<Entry>, rows: seq<TickerRow>)
    requires |cols| == 3 && multiset(records) == multiset(fields)
    requires |rows| == |records| && forall i :: 0 <= i < |rows| ==> rows[i] == RowOf(cols, records[i])
    ensures forall i :: 0 <= i < |fields| ==> RowOf(cols, fields[i]) in rows
    ensures forall p :: 0 <= p < |rows| ==> exists i :: 0 <= i < |fields| && rows[p] == RowOf(cols, fields[i])
  {
    forall i | 0 <= i < |fields| ensures RowOf(cols, fields[i]) in rows {
      PermutedMember(fields, records, i);
      var p :| 0 <= p < |records| && records[p] == fields[i];
      assert rows[p] == RowOf(cols, fields[i]);
    }
    forall p | 0 <= p < |rows| ensures exists i :: 0 <= i < |fields| && rows[p] == RowOf(cols, fields[i]) {
      PermutedMember(records, fields, p);
      var i :| 0 <= i < |fields| && fields[i] == records[p];
      assert rows[p] == RowOf(cols, fields[i]);
    }
  }

  /** Every record gives exactly one row, and every row comes from a
      record: the table is the records' rows, permuted. */
  lemma OneRowPerRecord(doc: JValue, rows: seq<TickerRow>)
    requires TickerTable(doc) == Ok(rows)
    ensures |rows| == |doc.fields|
    ensures forall i :: 0 <= i < |doc.fields| ==> RowOf(Columns(Records(doc)), doc.fields[i]) in rows
    ensures forall p :: 0 <= p < |rows| ==> exists i :: 0 <= i < |doc.fields| && rows[p] == RowOf(Columns(Records(doc)), doc.fields[i])
  {
    RowsOfPermutation(Columns(Records(doc)), Records(doc), doc.fields, rows);
  }

  /** The rows follow the records sorted by key as text, and that is the
      document's own order exactly when its keys are already sorted. */
  lemma RowsInKeyOrder(doc: JValue, rows: seq<TickerRow>)
    requires TickerTable(doc) == Ok(rows)
    ensures SortedByKey(Records(doc))
    ensures Records(doc) == doc.fields <==> SortedByKey(doc.fields)
    ensures SortedByKey(doc.fields) ==> forall i :: 0 <= i < |rows| ==> rows[i] == RowOf(Columns(Records(doc)), doc.fields[i])
  {
    SortByKeyIdentity(doc.fields);
  }

  /** A record keyed "10" is listed before one keyed "2". */
  lemma TextualKeyOrder(r2: JValue, r10: JValue)
    ensures Records(JObj([("2", r2), ("10", r10)])) == [("10", r10), ("2", r2)]
  {
    SortIsTextual(r2, r10);
  }

  /** Keys already merged add no column. */
  lemma {:induction false} AddKnownColumns(cols: seq<string>, keys: seq<string>)
    requires forall k :: k in keys ==> k in cols
    ensures AddColumns(cols, keys) == cols
    decreases keys
  {
    if keys != [] {
      AddKnownColumns(cols, keys[1..]);
    }
  }

  /** Keys that are all new are appended as they come. */
  lemma {:induction false} AddNewColumns(cols: seq<string>, keys: seq<string>)
    requires NoDup(cols + keys)
    ensures AddColumns(cols, keys) == cols + keys
    decreases keys
  {
    if keys != [] {
      assert (cols + keys)[|cols|] == keys[0];
      assert keys[0] !in cols by {
        forall i | 0 <= i < |cols| ensures cols[i] != keys[0] {
          assert (cols + keys)[i] == cols[i];
        }
      }
      assert (cols + [keys[0]]) + keys[1..] == cols + keys;
      AddNewColumns(cols + [keys[0]], keys[1..]);
    }
  }

  /** Records whose keys are all in `cols` leave the columns as they are. */
  lemma {:induction false} KnownColumnsFrom(cols: seq<string>, entries: seq<Entry>)
    requires forall i, k :: 0 <= i < |entries| && k in Keys(ItemsOr(entries[i].1)) ==> k in cols
    ensures ColumnsFrom(cols, entries) == cols
    decreases entries
  {
    if entries != [] {
      AddKnownColumns(cols, Keys(ItemsOr(entries[0].1)));
      assert forall i :: 1 <= i < |entries| ==> entries[i] == entries[1..][i - 1];
      KnownColumnsFrom(cols, entries[1..]);
    }
  }

  /** The record keys of the upstream document, in the order it lists them. */
  const RECORD_KEYS: seq<string> := ["cik_str", "ticker", "title"]

  ghost predicate UpstreamRecords(entries: seq<Entry>) {
    forall i :: 0 <= i < |entries| ==> entries[i].1.JObj? && Keys(entries[i].1.fields) == RECORD_KEYS
  }

  /** `v.get(key)` on a record, None when absent. */
  function Field(record: JValue, key: string): Option<JValue> {
    Lookup(ItemsOr(record), key)
  }

  lemma {:induction false} UpstreamPermuted(records: seq<Entry>, fields: seq<Entry>)
    requires multiset(records) == multiset(fields) && UpstreamRecords(fields)
    ensures UpstreamRecords(records)
  {
    forall p | 0 <= p < |records| ensures records[p].1.JObj? && Keys(records[p].1.fields) == RECORD_KEYS {
      PermutedMember(records, fields, p);
    }
  }

  lemma {:induction false} UpstreamColumnsOf(records: seq<Entry>)
    requires records != [] && UpstreamRecords(records)
    ensures Columns(records) == RECORD_KEYS
  {
    var first := Keys(ItemsOr(records[0].1));
    assert NoDup([] + first);
    AddNewColumns([], first);
    assert [] + first == RECORD_KEYS;
    assert forall i :: 1 <= i < |records| ==> records[i] == records[1..][i - 1];
    KnownColumnsFrom(RECORD_KEYS, records[1..]);
  }

  /** For a non-empty document whose records all list `cik_str`, `ticker`
      and `title` in that order, the three columns are those keys renamed by
      position: `cik` holds `cik_str`. */
  lemma UpstreamColumns(doc: JValue)
    requires doc.JObj? && doc.fields != [] && UpstreamRecords(doc.fields)
    ensures Columns(Records(doc)) == RECORD_KEYS
    ensures var rows := TickerTable(doc);
            && rows.Ok? && |rows.value| == |doc.fields|
            && forall i :: 0 <= i < |rows.value| ==>
                 var record := Records(doc)[i].1;
                 rows.value[i] == TickerRow(Field(record, "cik_str"), Field(record, "ticker"), Field(record, "title"))
  {
    UpstreamPermuted(Records(doc), doc.fields);
    UpstreamColumnsOf(Records(doc));
  }

  /** An upstream integer CIK comes out as the ten-digit identifier, which
      reads back as the number; the flag does not touch the other columns. */
  lemma UpstreamCik(doc: JValue, i: nat, n: nat)
    requires doc.JObj? && doc.fields != [] && UpstreamRecords(doc.fields)
    requires i < |doc.fields| && Field(Records(doc)[i].1, "cik_str") == Some(JNum(n))
    ensures var rows := CompanyTickers(doc, true);
            && rows.Ok? && i < |rows.value| && rows.value[i].cik.Some? && rows.value[i].cik.value.JStr?
            && var t := rows.value[i].cik.value.s;
            && t == CikText(Some(JNum(n)))
            && ParseCik(t) == Some(n)
            && (n < Pow10(10) ==> |t| == 13)
  {
    UpstreamColumns(doc);
    CikOfNumber(n);
  }

  /** A document with no record cannot take the three column names. */
  lemma EmptyDocument(parseCik: bool)
    ensures CompanyTickers(JObj([]), parseCik) == Err(ValueError)
  {
    assert Records(JObj([])) == [];
  }
}
