/** `get_submissions` (SEC_API.py lines 55-57): `filings.recent` holds one
    array per field, all of the same length, and `DataFrame.from_records`
    turns it into one row per array index, with the fields as columns in
    sorted order. */
module Submissions {
  import opened Json
  import opened KeyOrder

  /** A frame: column names, and rows holding one cell per column. */
  datatype Table = Table(columns: seq<string>, rows: seq<seq<JValue>>)

  predicate AllArrays(entries: seq<Entry>) {
    forall c :: 0 <= c < |entries| ==> entries[c].1.JArr?
  }

  /** Every array of `entries` has `n` elements. */
  predicate AllOfLength(entries: seq<Entry>, n: nat)
    requires AllArrays(entries)
  {
    forall c :: 0 <= c < |entries| ==> |entries[c].1.items| == n
  }

  /** All arrays of `entries` have the same length. */
  predicate SameLengths(entries: seq<Entry>)
    requires AllArrays(entries)
  {
    forall c, d :: 0 <= c < |entries| && 0 <= d < |entries| ==> |entries[c].1.items| == |entries[d].1.items|
  }

  /** Reordering the columns changes none of the facts above. */
  lemma {:induction false} PermutedColumns(a: seq<Entry>, b: seq<Entry>)
    requires multiset(a) == multiset(b)
    ensures |a| == |b|
    ensures AllArrays(a) <==> AllArrays(b)
    ensures AllArrays(a) && AllArrays(b) ==> (SameLengths(a) <==> SameLengths(b))
    ensures AllArrays(a) && AllArrays(b) ==> forall n: nat :: AllOfLength(a, n) <==> AllOfLength(b, n)
  {
    assert |multiset(a)| == |a| && |multiset(b)| == |b|;
    forall c | 0 <= c < |a| ensures exists p :: 0 <= p < |b| && b[p] == a[c] {
      PermutedMember(a, b, c);
    }
    forall c | 0 <= c < |b| ensures exists p :: 0 <= p < |a| && a[p] == b[c] {
      PermutedMember(b, a, c);
    }
  }

  /** Cell `i` of every column, in column order. */
  function RowAt(columns: seq<Entry>, i: nat): (row: seq<JValue>)
    requires AllArrays(columns) && forall c :: 0 <= c < |columns| ==> i < |columns[c].1.items|
    ensures |row| == |columns| && forall c :: 0 <= c < |columns| ==> row[c] == columns[c].1.items[i]
  {
    seq(|columns|, c requires 0 <= c < |columns| => columns[c].1.items[i])
  }

  /** All arrays of non-empty `cols` have the length of the first. */
  lemma FirstLength(cols: seq<Entry>)
    requires cols != [] && AllArrays(cols) && SameLengths(cols)
    ensures AllOfLength(cols, |cols[0].1.items|)
  {
  }

  /** `DataFrame.from_records` of a dict of arrays: columns in `sorted()`
      order; arrays of different lengths raise ValueError. A dict holding
      anything but arrays (scalars to broadcast, nested dicts) is handled by
      pandas in ways the model does not follow (FormatError), and so is
      anything but a dict. */
  function FromColumns(recent: JValue): (r: Result<Table>)
    ensures r.Ok? <==> recent.JObj? && AllArrays(recent.fields) && SameLengths(recent.fields)
    ensures !recent.JObj? || !AllArrays(recent.fields) ==> r == Err(FormatError)
    ensures recent.JObj? && AllArrays(recent.fields) && !SameLengths(recent.fields) ==> r == Err(ValueError)
  {
    if !recent.JObj? || !AllArrays(recent.fields) then Err(FormatError)
    else
      var cols := SortByKey(recent.fields);
      PermutedColumns(cols, recent.fields);
      if cols == [] then Ok(Table([], []))
      else if !SameLengths(cols) then Err(ValueError)
      else
        var n := |cols[0].1.items|;
        FirstLength(cols);
        Ok(Table(Keys(cols), seq(n, i requires 0 <= i < n => RowAt(cols, i))))
  }

  /** The table has as many rows as every array has elements, its columns
      are the fields in sorted order, and row `i` holds element `i` of each
      column. */
  lemma FromColumnsTable(recent: JValue, t: Table)
    requires FromColumns(recent) == Ok(t)
    ensures var cols := SortByKey(recent.fields);
            && AllArrays(recent.fields) && AllArrays(cols)
            && t.columns == Keys(cols) && SortedByKey(cols) && multiset(cols) == multiset(recent.fields)
            && AllOfLength(recent.fields, |t.rows|)
            && (forall i :: 0 <= i < |t.rows| ==> |t.rows[i]| == |t.columns|)
            && forall i, c :: 0 <= i < |t.rows| && 0 <= c < |cols| ==> t.rows[i][c] == cols[c].1.items[i]
  {
    var cols := SortByKey(recent.fields);
    PermutedColumns(cols, recent.fields);
    if cols != [] {
      FirstLength(cols);
    }
  }

  /** The whole operation: `recent` inside `filings`, both required. */
  function SubmissionsTable(doc: JValue): (r: Result<Table>)
    ensures !doc.JObj? ==> r == Err(TypeError)
    ensures doc.JObj? && !HasKey(doc.fields, "filings") ==> r == Err(KeyError("filings"))
    ensures Subscript(doc, "filings").Ok? ==> var filings := Subscript(doc, "filings").value;
              && (!filings.JObj? ==> r == Err(TypeError))
              && (filings.JObj? && !HasKey(filings.fields, "recent") ==> r == Err(KeyError("recent")))
              && (filings.JObj? && HasKey(filings.fields, "recent") ==> r == FromColumns(Subscript(filings, "recent").value))
  {
    var filings :- Subscript(doc, "filings");
    var recent :- Subscript(filings, "recent");
    FromColumns(recent)
  }

  /** In a dict, an entry of a reordering is found under its key. */
  lemma {:induction false} PermutedLookup(fields: seq<Entry>, cols: seq<Entry>, c: nat)
    requires multiset(cols) == multiset(fields) && DistinctKeys(fields) && c < |cols|
    ensures Lookup(fields, cols[c].0) == Some(cols[c].1)
  {
    PermutedMember(cols, fields, c);
    var k :| 0 <= k < |fields| && fields[k] == cols[c];
    LookupDistinct(fields, k);
  }

  /** Field `f` of row `i` is `recent[f][i]`. */
  lemma {:induction false} SubmissionCell(recent: JValue, t: Table, i: nat, c: nat)
    requires FromColumns(recent) == Ok(t) && DistinctKeys(recent.fields)
    requires i < |t.rows| && c < |t.columns|
    ensures var column := Subscript(recent, t.columns[c]);
            && column.Ok? && column.value.JArr? && i < |column.value.items|
            && t.rows[i][c] == column.value.items[i]
  {
    FromColumnsTable(recent, t);
    PermutedLookup(recent.fields, SortByKey(recent.fields), c);
  }

  /** Permuted entries have the same keys. */
  lemma {:induction false} PermutedKeys(a: seq<Entry>, b: seq<Entry>)
    requires multiset(a) == multiset(b)
    ensures forall f :: f in Keys(a) ==> f in Keys(b)
  {
    forall f | f in Keys(a) ensures f in Keys(b) {
      var c :| 0 <= c < |a| && Keys(a)[c] == f;
      PermutedMember(a, b, c);
      var k :| 0 <= k < |b| && b[k] == a[c];
      assert Keys(b)[k] == f;
    }
  }

  /** The columns are exactly the fields of `recent`. */
  lemma SubmissionColumns(recent: JValue, t: Table)
    requires FromColumns(recent) == Ok(t)
    ensures forall f :: f in t.columns <==> f in Keys(recent.fields)
  {
    FromColumnsTable(recent, t);
    PermutedKeys(SortByKey(recent.fields), recent.fields);
    PermutedKeys(recent.fields, SortByKey(recent.fields));
  }
}
