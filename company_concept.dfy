/** `get_companyconcept` (SEC_API.py lines 77-96): one row per
    (unit, observation) pair of the `units` mapping, each row carrying the
    document's concept metadata. */
module CompanyConcept {
  import opened Json
  import opened Comprehension
  import opened Observations

  datatype ConceptRow = ConceptRow(
    cik: JValue,
    taxonomy: JValue,
    tag: JValue,
    labelText: JValue,
    description: JValue,
    entityName: JValue,
    units: string,
    obs: Observation)

  /** The top-level keys every row reads, in the order the row's dict
      literal evaluates them. */
  const METADATA: seq<string> := ["cik", "taxonomy", "tag", "label", "description", "entityName"]

  /** One dict of the comprehension: the six metadata lookups (KeyError when
      one is missing), the unit name, then the observation columns. */
  function ConceptRowOf(doc: JValue, unit: string, o: JValue): (r: Result<ConceptRow>)
    ensures r.Ok? <==> doc.JObj? && HasKeys(doc.fields, METADATA) && o.JObj?
    ensures !doc.JObj? ==> r == Err(TypeError)
    ensures doc.JObj? ==> forall n: nat :: FirstMissing(doc.fields, METADATA, n) ==> r == Err(KeyError(METADATA[n]))
    ensures doc.JObj? && HasKeys(doc.fields, METADATA) && !o.JObj? ==> r == Err(AttributeError)
    ensures r.Ok? ==>
              && Subscript(doc, "cik") == Ok(r.value.cik) && Subscript(doc, "taxonomy") == Ok(r.value.taxonomy)
              && Subscript(doc, "tag") == Ok(r.value.tag) && Subscript(doc, "label") == Ok(r.value.labelText)
              && Subscript(doc, "description") == Ok(r.value.description)
              && Subscript(doc, "entityName") == Ok(r.value.entityName)
              && r.value.units == unit
              && ObservationFrom(o.fields, r.value.obs)
  {
    SubscriptAllSpec(doc, METADATA);
    var meta :- SubscriptAll(doc, METADATA);
    var obs :- ObservationOf(o);
    Ok(ConceptRow(meta[0], meta[1], meta[2], meta[3], meta[4], meta[5], unit, obs))
  }

  /** The row builder for the observations of one unit. */
  function RowFn(doc: JValue, unit: string): JValue -> Result<ConceptRow> {
    (o: JValue) => ConceptRowOf(doc, unit, o)
  }

  /** `for row_list in value_units` for one unit. */
  function UnitRows(doc: JValue, unit: string, observations: JValue): Result<seq<ConceptRow>> {
    var obs :- Iterate(observations);
    MapResult(RowFn(doc, unit), obs)
  }

  /** The block builder for the units of a document. */
  function UnitFn(doc: JValue): Entry -> Result<seq<ConceptRow>> {
    (u: Entry) => UnitRows(doc, u.0, u.1)
  }

  /** The whole comprehension: `raw_json["units"].items()` is evaluated
      first, then unit after unit, observation after observation. */
  function ConceptRows(doc: JValue): (r: Result<seq<ConceptRow>>)
    ensures !doc.JObj? ==> r == Err(TypeError)
    ensures doc.JObj? && !HasKey(doc.fields, "units") ==> r == Err(KeyError("units"))
    ensures doc.JObj? && HasKey(doc.fields, "units") && !Subscript(doc, "units").value.JObj? ==> r == Err(AttributeError)
  {
    var units :- Subscript(doc, "units");
    var unitItems :- Items(units);
    FlatMapResult(UnitFn(doc), unitItems)
  }

  /** The unit entries of the document, none when it has no `units` dict. */
  function UnitEntries(doc: JValue): seq<Entry> {
    match Subscript(doc, "units")
    case Ok(units) => ItemsOr(units)
    case Err(_) => []
  }

  lemma UnitRowsLength(doc: JValue, unit: Entry)
    requires UnitRows(doc, unit.0, unit.1).Ok?
    ensures |UnitRows(doc, unit.0, unit.1).value| == UnitLength(unit)
  {
    MapResultSpec(RowFn(doc, unit.0), Iterate(unit.1).value);
  }

  lemma ConceptRowsFlat(doc: JValue, rows: seq<ConceptRow>)
    requires ConceptRows(doc) == Ok(rows)
    ensures FlatMapResult(UnitFn(doc), UnitEntries(doc)) == Ok(rows)
  {
  }

  lemma UnitBlockLengths(doc: JValue, units: seq<Entry>)
    ensures BlockLengths(UnitFn(doc), units, UnitLength)
  {
    forall i | 0 <= i < |units| && UnitFn(doc)(units[i]).Ok?
      ensures |UnitFn(doc)(units[i]).value| == UnitLength(units[i])
    {
      UnitRowsLength(doc, units[i]);
    }
  }

  /** Row `j` of a unit's block is built from observation `j` of that unit. */
  lemma UnitRowAt(doc: JValue, unit: Entry, j: nat)
    requires UnitFn(doc)(unit).Ok? && j < |UnitFn(doc)(unit).value|
    ensures Iterate(unit.1).Ok? && j < |Iterate(unit.1).value|
    ensures Ok(UnitFn(doc)(unit).value[j]) == ConceptRowOf(doc, unit.0, Iterate(unit.1).value[j])
  {
    var obs := Iterate(unit.1).value;
    assert MapResult(RowFn(doc, unit.0), obs) == UnitFn(doc)(unit);
    MapResultSpec(RowFn(doc, unit.0), obs);
  }

  /** The table has one row per observation of every unit. */
  lemma ConceptRowCount(doc: JValue, rows: seq<ConceptRow>)
    requires ConceptRows(doc) == Ok(rows)
    ensures |rows| == SumOf(UnitLength, UnitEntries(doc))
  {
    ConceptRowsFlat(doc, rows);
    UnitBlockLengths(doc, UnitEntries(doc));
    FlatMapResultLength(UnitFn(doc), UnitEntries(doc), UnitLength, rows);
  }

  /** Rows come unit by unit, in the mapping's order, and within a unit in
      array order: observation `j` of unit `u` is row
      (observations of units before `u`) + `j`, and is made from that unit's
      name and that observation. */
  lemma ConceptRowAt(doc: JValue, rows: seq<ConceptRow>, u: nat, j: nat)
    requires ConceptRows(doc) == Ok(rows)
    requires u < |UnitEntries(doc)| && j < UnitLength(UnitEntries(doc)[u])
    ensures var units := UnitEntries(doc);
            var p := SumOf(UnitLength, units[..u]) + j;
            && p < |rows|
            && Iterate(units[u].1).Ok? && j < |Iterate(units[u].1).value|
            && Ok(rows[p]) == ConceptRowOf(doc, units[u].0, Iterate(units[u].1).value[j])
  {
    var units := UnitEntries(doc);
    ConceptRowsFlat(doc, rows);
    UnitBlockLengths(doc, units);
    FlatMapResultAt(UnitFn(doc), units, UnitLength, rows, u, j);
    UnitRowAt(doc, units[u], j);
  }

  /** Every row carries the same concept metadata, the one stored in the
      document, whatever unit it was listed under. */
  lemma ConceptRowsShareMetadata(doc: JValue, rows: seq<ConceptRow>, p: nat)
    requires ConceptRows(doc) == Ok(rows)
    requires p < |rows|
    ensures doc.JObj? && HasKeys(doc.fields, METADATA)
    ensures Subscript(doc, "cik") == Ok(rows[p].cik) && Subscript(doc, "taxonomy") == Ok(rows[p].taxonomy)
    ensures Subscript(doc, "tag") == Ok(rows[p].tag) && Subscript(doc, "label") == Ok(rows[p].labelText)
    ensures Subscript(doc, "description") == Ok(rows[p].description)
    ensures Subscript(doc, "entityName") == Ok(rows[p].entityName)
  {
    var units := UnitEntries(doc);
    ConceptRowsFlat(doc, rows);
    FlatMapResultMember(UnitFn(doc), units, rows, p);
    var u, j :| 0 <= u < |units| && UnitFn(doc)(units[u]).Ok? && 0 <= j < |UnitFn(doc)(units[u]).value|
                && rows[p] == UnitFn(doc)(units[u]).value[j];
    UnitRowAt(doc, units[u], j);
  }

  /** A unit the comprehension accepts: its value is iterable, each
      observation is a dict, and when there is at least one observation the
      document has the metadata keys, which are only looked up while a row
      is built. */
  ghost predicate UnitShape(doc: JValue, unit: Entry) {
    && Iterate(unit.1).Ok?
    && (forall j :: 0 <= j < |Iterate(unit.1).value| ==> Iterate(unit.1).value[j].JObj?)
    && (UnitLength(unit) > 0 ==> doc.JObj? && HasKeys(doc.fields, METADATA))
  }

  /** The shape of a document the operation accepts: `units` is a dict of
      accepted units. */
  ghost predicate ConceptShape(doc: JValue) {
    && doc.JObj? && HasKey(doc.fields, "units") && Subscript(doc, "units").value.JObj?
    && forall u :: 0 <= u < |UnitEntries(doc)| ==> UnitShape(doc, UnitEntries(doc)[u])
  }

  lemma {:induction false} UnitRowsSucceed(doc: JValue, unit: Entry)
    ensures UnitFn(doc)(unit).Ok? <==> UnitShape(doc, unit)
  {
    if Iterate(unit.1).Ok? {
      var obs := Iterate(unit.1).value;
      var f := RowFn(doc, unit.0);
      assert UnitFn(doc)(unit) == MapResult(f, obs);
      MapResultSpec(f, obs);
      if |obs| > 0 {
        assert f(obs[0]) == ConceptRowOf(doc, unit.0, obs[0]);
      }
      forall j | 0 <= j < |obs|
        ensures f(obs[j]).Ok? <==> (obs[j].JObj? && doc.JObj? && HasKeys(doc.fields, METADATA))
      {
        assert f(obs[j]) == ConceptRowOf(doc, unit.0, obs[j]);
      }
    }
  }

  /** The call succeeds exactly on documents of that shape. */
  lemma {:induction false} ConceptRowsSucceed(doc: JValue)
    ensures ConceptRows(doc).Ok? <==> ConceptShape(doc)
  {
    if doc.JObj? && HasKey(doc.fields, "units") && Subscript(doc, "units").value.JObj? {
      var units := UnitEntries(doc);
      var g := UnitFn(doc);
      assert ConceptRows(doc) == FlatMapResult(g, units);
      FlatMapResultSpec(g, units);
      forall u | 0 <= u < |units| ensures g(units[u]).Ok? <==> UnitShape(doc, units[u]) {
        UnitRowsSucceed(doc, units[u]);
      }
    }
  }

  /** The metadata keys are required exactly when there is an observation:
      a document with at least one observation and a missing metadata key
      makes the call fail, one without observations does not need them. */
  lemma {:induction false} ConceptMetadataRequired(doc: JValue)
    requires doc.JObj? && HasKey(doc.fields, "units") && Subscript(doc, "units").value.JObj?
    requires SumOf(UnitLength, UnitEntries(doc)) > 0 && !HasKeys(doc.fields, METADATA)
    ensures ConceptRows(doc).Err?
  {
    var units := UnitEntries(doc);
    SumOfPositive(UnitLength, units);
    var u :| 0 <= u < |units| && UnitLength(units[u]) > 0;
    ConceptRowsSucceed(doc);
  }

  /** A document whose units list no observation gives an empty table, even
      when it lacks every metadata key. */
  lemma ConceptNoObservations()
    ensures ConceptRows(JObj([("units", JObj([("USD", JArr([]))]))])) == Ok([])
  {
    var doc := JObj([("units", JObj([("USD", JArr([]))]))]);
    var units := UnitEntries(doc);
    assert units == [("USD", JArr([]))];
    assert UnitLength(units[0]) == 0;
    assert SumOf(UnitLength, units) == 0 by {
      assert units[1..] == [];
    }
    UnitRowsSucceed(doc, units[0]);
    ConceptRowsSucceed(doc);
    ConceptRowCount(doc, ConceptRows(doc).value);
  }
}
