/** A company-facts document of two taxonomies, each with one tag reported
    in two units, one observation per unit. */
module FactsExamples {
  import opened Json
  import opened CompanyFacts

  function Units(): JValue {
    JObj([("USD", JArr([JObj([("val", JNum(1))])])), ("shares", JArr([JObj([("val", JNum(2))])]))])
  }

  function Tag(): JValue {
    JObj([("label", JStr("Shares")), ("description", JStr("Shares outstanding")), ("units", Units())])
  }

  function Taxonomy(): JValue {
    JObj([("Shares", Tag())])
  }

  function FactsDoc(): JValue {
    JObj([("cik", JNum(320193)), ("entityName", JStr("Apple Inc.")),
          ("facts", JObj([("dei", Taxonomy()), ("us-gaap", Taxonomy())]))])
  }

  lemma EntityPresent()
    ensures SubscriptAll(FactsDoc(), ENTITY).Ok?
  {
    SubscriptAllSpec(FactsDoc(), ENTITY);
    HasKeyAt(FactsDoc().fields, 0);
    HasKeyAt(FactsDoc().fields, 1);
  }

  lemma TagTextPresent()
    ensures SubscriptAll(Tag(), TAG_TEXT).Ok?
  {
    SubscriptAllSpec(Tag(), TAG_TEXT);
    HasKeyAt(Tag().fields, 0);
    HasKeyAt(Tag().fields, 1);
  }

  /** A traversal of one entry is that entry's block. */
  lemma TraverseOne(doc: JValue, level: Level, e: Entry)
    requires Block(doc, level, e).Ok?
    ensures Traverse(doc, level, [e]) == Block(doc, level, e)
  {
    assert [e][0] == e && [e][1..] == [];
    assert Block(doc, level, e).value + [] == Block(doc, level, e).value;
  }

  /** A traversal of two entries lays their blocks end to end. */
  lemma TraverseTwo(doc: JValue, level: Level, e: Entry, f: Entry)
    requires Block(doc, level, e).Ok? && Block(doc, level, f).Ok?
    ensures Traverse(doc, level, [e, f]) == Ok(Block(doc, level, e).value + Block(doc, level, f).value)
  {
    TraverseOne(doc, level, f);
    assert [e, f][0] == e && [e, f][1..] == [f];
  }

  /** A unit listing one observation gives one row. */
  lemma OneObservation(taxonomy: string, unit: string, o: JValue)
    requires o.JObj?
    ensures var b := Block(FactsDoc(), InTag(taxonomy, ("Shares", Tag())), (unit, JArr([o])));
            b.Ok? && |b.value| == 1 && b.value[0].taxonomy == taxonomy && b.value[0].tag == "Shares" && b.value[0].units == unit
  {
    EntityPresent();
    TagTextPresent();
    FactRowOfSpec(FactsDoc(), taxonomy, "Shares", Tag(), unit, o);
    assert [o][0] == o;
    UnitRowsSpec(FactsDoc(), taxonomy, ("Shares", Tag()), unit, [o]);
  }

  /** The tag's two units give two rows. */
  lemma TagRows(taxonomy: string)
    ensures var b := Block(FactsDoc(), InTaxonomy(taxonomy), ("Shares", Tag()));
            && b.Ok? && |b.value| == 2
            && b.value[0].taxonomy == taxonomy && b.value[0].units == "USD"
            && b.value[1].taxonomy == taxonomy && b.value[1].units == "shares"
  {
    var level := InTag(taxonomy, ("Shares", Tag()));
    assert Subscript(Tag(), "units") == Ok(Units());
    var usd := ("USD", JArr([JObj([("val", JNum(1))])]));
    var shares := ("shares", JArr([JObj([("val", JNum(2))])]));
    assert Units().fields == [usd, shares];
    OneObservation(taxonomy, "USD", JObj([("val", JNum(1))]));
    OneObservation(taxonomy, "shares", JObj([("val", JNum(2))]));
    TraverseTwo(FactsDoc(), level, usd, shares);
  }

  /** A taxonomy of that one tag gives two rows. */
  lemma TaxonomyRows(name: string)
    ensures var b := Block(FactsDoc(), InFacts, (name, Taxonomy()));
            && b.Ok? && |b.value| == 2
            && b.value[0].taxonomy == name && b.value[0].units == "USD"
            && b.value[1].taxonomy == name && b.value[1].units == "shares"
  {
    TagRows(name);
    TraverseOne(FactsDoc(), InTaxonomy(name), ("Shares", Tag()));
  }

  /** Two taxonomies times one tag times two units times one observation:
      four rows, taxonomy by taxonomy and, within each, unit by unit. */
  lemma FourRows()
    ensures var r := FactRows(FactsDoc());
            && r.Ok? && |r.value| == 4
            && r.value[0].taxonomy == "dei" && r.value[0].units == "USD"
            && r.value[1].taxonomy == "dei" && r.value[1].units == "shares"
            && r.value[2].taxonomy == "us-gaap" && r.value[2].units == "USD"
            && r.value[3].taxonomy == "us-gaap" && r.value[3].units == "shares"
  {
    var doc := FactsDoc();
    var taxonomies := JObj([("dei", Taxonomy()), ("us-gaap", Taxonomy())]);
    assert doc.fields[2] == ("facts", taxonomies);
    LookupFirst(doc.fields, "facts", 2);
    TaxonomyRows("dei");
    TaxonomyRows("us-gaap");
    TraverseTwo(doc, InFacts, ("dei", Taxonomy()), ("us-gaap", Taxonomy()));
  }
}
