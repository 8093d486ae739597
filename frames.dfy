/** `get_frames` (SEC_API.py lines 161-176): one row per element of the
    document's `data` list, each row carrying the frame's header. */
module Frames {
  import opened Json
  import opened Comprehension
  import opened Observations

  datatype FrameRow = FrameRow(
    taxonomy: JValue,
    tag: JValue,
    ccp: JValue,
    uom: JValue,
    labelText: JValue,
    description: JValue,
    accn: Option<JValue>,
    cik: Option<JValue>,
    entityName: Option<JValue>,
    loc: Option<JValue>,
    end: Option<JValue>,
    val: Option<JValue>)

  /** The top-level keys every row reads, in the order the row's dict
      literal evaluates them. */
  const HEADER: seq<string> := ["taxonomy", "tag", "ccp", "uom", "label", "description"]

  /** One dict of the comprehension: the six header lookups (KeyError when
      one is missing), then six `.get` lookups on the element, which only a
      dict has. */
  function FrameRowOf(doc: JValue, o: JValue): (r: Result<FrameRow>)
    ensures r.Ok? <==> doc.JObj? && HasKeys(doc.fields, HEADER) && o.JObj?
    ensures !doc.JObj? ==> r == Err(TypeError)
    ensures doc.JObj? ==> forall n: nat :: FirstMissing(doc.fields, HEADER, n) ==> r == Err(KeyError(HEADER[n]))
    ensures doc.JObj? && HasKeys(doc.fields, HEADER) && !o.JObj? ==> r == Err(AttributeError)
    ensures r.Ok? ==>
              && Subscript(doc, "taxonomy") == Ok(r.value.taxonomy) && Subscript(doc, "tag") == Ok(r.value.tag)
              && Subscript(doc, "ccp") == Ok(r.value.ccp) && Subscript(doc, "uom") == Ok(r.value.uom)
              && Subscript(doc, "label") == Ok(r.value.labelText)
              && Subscript(doc, "description") == Ok(r.value.description)
    ensures r.Ok? ==>
              && CopiedOrMissing(o.fields, "accn", r.value.accn) && CopiedOrMissing(o.fields, "cik", r.value.cik)
              && CopiedOrMissing(o.fields, "entityName", r.value.entityName)
              && CopiedOrMissing(o.fields, "loc", r.value.loc)
              && CopiedOrMissing(o.fields, "end", r.value.end) && CopiedOrMissing(o.fields, "val", r.value.val)
  {
    SubscriptAllSpec(doc, HEADER);
    var header :- SubscriptAll(doc, HEADER);
    if !o.JObj? then Err(AttributeError)
    else
      Ok(FrameRow(header[0], header[1], header[2], header[3], header[4], header[5],
                  Get(o, "accn"), Get(o, "cik"), Get(o, "entityName"), Get(o, "loc"), Get(o, "end"), Get(o, "val")))
  }

  /** The row builder of the comprehension. */
  function RowFn(doc: JValue): JValue -> Result<FrameRow> {
    (o: JValue) => FrameRowOf(doc, o)
  }

  /** The whole comprehension: `raw_json["data"]` is evaluated and iterated
      first, then one row per element, in order. */
  function FrameRows(doc: JValue): (r: Result<seq<FrameRow>>)
    ensures !doc.JObj? ==> r == Err(TypeError)
    ensures doc.JObj? && !HasKey(doc.fields, "data") ==> r == Err(KeyError("data"))
    ensures doc.JObj? && HasKey(doc.fields, "data") && Iterate(Subscript(doc, "data").value).Err? ==> r == Err(TypeError)
  {
    var data :- Subscript(doc, "data");
    var elements :- Iterate(data);
    MapResult(RowFn(doc), elements)
  }

  /** What `for row_list in raw_json["data"]` visits, none when that fails. */
  function DataElements(doc: JValue): seq<JValue> {
    match Subscript(doc, "data")
    case Err(_) => []
    case Ok(data) =>
      match Iterate(data)
      case Ok(elements) => elements
      case Err(_) => []
  }

  lemma {:induction false} FrameRowsMap(doc: JValue, rows: seq<FrameRow>)
    requires FrameRows(doc) == Ok(rows)
    ensures MapResult(RowFn(doc), DataElements(doc)) == Ok(rows)
  {
  }

  /** The table has exactly one row per element of `data`, and row `i` is
      built from element `i`: the order of `data` is kept. */
  lemma {:induction false} FrameRowAt(doc: JValue, rows: seq<FrameRow>, i: nat)
    requires FrameRows(doc) == Ok(rows)
    ensures |rows| == |DataElements(doc)|
    ensures i < |rows| ==> Ok(rows[i]) == FrameRowOf(doc, DataElements(doc)[i])
  {
    FrameRowsMap(doc, rows);
    MapResultSpec(RowFn(doc), DataElements(doc));
    if i < |rows| {
      assert RowFn(doc)(DataElements(doc)[i]) == Ok(rows[i]);
    }
  }

  /** Every row carries the same header, the one stored in the document,
      and copies its six other cells from its own element of `data`. */
  lemma {:induction false} FrameRowsShareHeader(doc: JValue, rows: seq<FrameRow>, i: nat)
    requires FrameRows(doc) == Ok(rows) && i < |rows|
    ensures doc.JObj? && HasKeys(doc.fields, HEADER)
    ensures Subscript(doc, "taxonomy") == Ok(rows[i].taxonomy) && Subscript(doc, "tag") == Ok(rows[i].tag)
    ensures Subscript(doc, "ccp") == Ok(rows[i].ccp) && Subscript(doc, "uom") == Ok(rows[i].uom)
    ensures Subscript(doc, "label") == Ok(rows[i].labelText)
    ensures Subscript(doc, "description") == Ok(rows[i].description)
    ensures i < |DataElements(doc)|
    ensures var o := DataElements(doc)[i];
            && o.JObj?
            && CopiedOrMissing(o.fields, "accn", rows[i].accn) && CopiedOrMissing(o.fields, "cik", rows[i].cik)
            && CopiedOrMissing(o.fields, "entityName", rows[i].entityName)
            && CopiedOrMissing(o.fields, "loc", rows[i].loc)
            && CopiedOrMissing(o.fields, "end", rows[i].end) && CopiedOrMissing(o.fields, "val", rows[i].val)
  {
    FrameRowAt(doc, rows, i);
  }

  /** The shape of a document the operation accepts: `data` is iterable and
      made of dicts, and the header keys are present unless `data` is empty,
      because the comprehension only looks them up when it builds a row. */
  ghost predicate FrameShape(doc: JValue) {
    && doc.JObj? && HasKey(doc.fields, "data") && Iterate(Subscript(doc, "data").value).Ok?
    && var elements := DataElements(doc);
    && (forall i :: 0 <= i < |elements| ==> elements[i].JObj?)
    && (|elements| > 0 ==> HasKeys(doc.fields, HEADER))
  }

  lemma {:induction false} FrameRowsSucceed(doc: JValue)
    ensures FrameRows(doc).Ok? <==> FrameShape(doc)
  {
    if doc.JObj? && HasKey(doc.fields, "data") && Iterate(Subscript(doc, "data").value).Ok? {
      var elements := DataElements(doc);
      var f := RowFn(doc);
      assert FrameRows(doc) == MapResult(f, elements);
      MapResultSpec(f, elements);
      if |elements| > 0 {
        assert f(elements[0]) == FrameRowOf(doc, elements[0]);
      }
      forall i | 0 <= i < |elements|
        ensures f(elements[i]).Ok? <==> (elements[i].JObj? && HasKeys(doc.fields, HEADER))
      {
        assert f(elements[i]) == FrameRowOf(doc, elements[i]);
      }
    }
  }

  /** With an empty `data` list the operation yields no rows, whatever the
      header holds. */
  lemma FrameNoData()
    ensures FrameRows(JObj([("data", JArr([]))])) == Ok([])
  {
    var doc := JObj([("data", JArr([]))]);
    assert Subscript(doc, "data") == Ok(JArr([]));
  }
}
