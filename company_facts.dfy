/** `get_companyfacts` (SEC_API.py lines 116-137): one row per observation,
    reached through four levels: taxonomy, tag, unit, observation. The
    `.items()` of a level is evaluated when the traversal enters it. */
module CompanyFacts {
  import opened Json
  import opened Comprehension
  import opened Observations

  datatype FactRow = FactRow(
    cik: JValue,
    entityName: JValue,
    taxonomy: string,
    tag: string,
    labelText: JValue,
    description: JValue,
    units: string,
    obs: Observation)

  const ENTITY: seq<string> := ["cik", "entityName"]
  const TAG_TEXT: seq<string> := ["label", "description"]

  /** One dict of the comprehension, its entries evaluated in order:
      `raw_json["cik"]`, `raw_json["entityName"]`, the two keys, the tag's
      `label` and `description`, the unit, then the observation columns. */
  function FactRowOf(doc: JValue, taxonomy: string, tag: string, tagValue: JValue, unit: string, o: JValue): Result<FactRow>
  {
    var entity :- SubscriptAll(doc, ENTITY);
    var text :- SubscriptAll(tagValue, TAG_TEXT);
    var obs :- ObservationOf(o);
    Ok(FactRow(entity[0], entity[1], taxonomy, tag, text[0], text[1], unit, obs))
  }


  /** What a built row holds: the document's entity, the two keys, the
      tag's label and description, the unit and the observation's columns. */
  ghost predicate RowCarries(row: FactRow, doc: JValue, taxonomy: string, tag: string, tagValue: JValue, unit: string, o: JValue) {
    && Subscript(doc, "cik") == Ok(row.cik) && Subscript(doc, "entityName") == Ok(row.entityName)
    && row.taxonomy == taxonomy && row.tag == tag
    && Subscript(tagValue, "label") == Ok(row.labelText)
    && Subscript(tagValue, "description") == Ok(row.description)
    && row.units == unit
    && o.JObj? && ObservationFrom(o.fields, row.obs)
  }

  /** A row is built exactly when the document has its entity keys, the tag
      is a dict with a label and a description and the observation is a
      dict. A document or tag that is not a dict raises TypeError, the first
      missing key is the KeyError raised, and an observation that is not a
      dict raises AttributeError. */
  lemma FactRowOfSpec(doc: JValue, taxonomy: string, tag: string, tagValue: JValue, unit: string, o: JValue)
    ensures var r := FactRowOf(doc, taxonomy, tag, tagValue, unit, o);
            && (r.Ok? <==> doc.JObj? && HasKeys(doc.fields, ENTITY) && tagValue.JObj? && HasKeys(tagValue.fields, TAG_TEXT) && o.JObj?)
            && (!doc.JObj? ==> r == Err(TypeError))
            && (doc.JObj? ==> forall n: nat :: FirstMissing(doc.fields, ENTITY, n) ==> r == Err(KeyError(ENTITY[n])))
            && (doc.JObj? && HasKeys(doc.fields, ENTITY) && !tagValue.JObj? ==> r == Err(TypeError))
            && (doc.JObj? && HasKeys(doc.fields, ENTITY) && tagValue.JObj? ==>
                  forall n: nat :: FirstMissing(tagValue.fields, TAG_TEXT, n) ==> r == Err(KeyError(TAG_TEXT[n])))
            && (doc.JObj? && HasKeys(doc.fields, ENTITY) && tagValue.JObj? && HasKeys(tagValue.fields, TAG_TEXT) && !o.JObj? ==>
                  r == Err(AttributeError))
            && (r.Ok? ==> RowCarries(r.value, doc, taxonomy, tag, tagValue, unit, o))
  {
    SubscriptAllSpec(doc, ENTITY);
    SubscriptAllSpec(tagValue, TAG_TEXT);
  }

  /** `for row_list in value_units`: one row per observation, in order;
      the first exception aborts. */
  function UnitRows(doc: JValue, taxonomy: string, tag: Entry, unit: string, obs: seq<JValue>): Result<seq<FactRow>> {
    if obs == [] then Ok([])
    else
      var row :- FactRowOf(doc, taxonomy, tag.0, tag.1, unit, obs[0]);
      var rest :- UnitRows(doc, taxonomy, tag, unit, obs[1..]);
      Ok([row] + rest)
  }

  /** The rows of a unit are built exactly when every observation's row is;
      then row `i` is observation `i`'s, and otherwise the error is the
      first failing observation's. */
  lemma {:induction false} UnitRowsSpec(doc: JValue, taxonomy: string, tag: Entry, unit: string, obs: seq<JValue>)
    ensures var r := UnitRows(doc, taxonomy, tag, unit, obs);
            && (r.Ok? <==> forall i :: 0 <= i < |obs| ==> FactRowOf(doc, taxonomy, tag.0, tag.1, unit, obs[i]).Ok?)
            && (r.Ok? ==> |r.value| == |obs| && forall i :: 0 <= i < |obs| ==> FactRowOf(doc, taxonomy, tag.0, tag.1, unit, obs[i]) == Ok(r.value[i]))
            && (r.Err? ==> exists i :: 0 <= i < |obs| && FactRowOf(doc, taxonomy, tag.0, tag.1, unit, obs[i]) == Err(r.error)
                                       && forall k :: 0 <= k < i ==> FactRowOf(doc, taxonomy, tag.0, tag.1, unit, obs[k]).Ok?)
  {
    if obs != [] {
      UnitRowsSpec(doc, taxonomy, tag, unit, obs[1..]);
      assert forall i :: 1 <= i < |obs| ==> obs[i] == obs[1..][i - 1];
      var rest := UnitRows(doc, taxonomy, tag, unit, obs[1..]);
      if FactRowOf(doc, taxonomy, tag.0, tag.1, unit, obs[0]).Ok? && rest.Err? {
        var i :| 0 <= i < |obs[1..]| && FactRowOf(doc, taxonomy, tag.0, tag.1, unit, obs[1..][i]) == Err(rest.error)
                 && forall k :: 0 <= k < i ==> FactRowOf(doc, taxonomy, tag.0, tag.1, unit, obs[1..][k]).Ok?;
        assert FactRowOf(doc, taxonomy, tag.0, tag.1, unit, obs[i + 1]) == Err(UnitRows(doc, taxonomy, tag, unit, obs).error);
      }
    }
  }

  /** Where the traversal is: which `for` clause is iterating, with the loop
      variables the enclosing clauses have bound. */
  datatype Level =
    | InFacts                              // `for key_taxonomy, value_taxonomy in raw_json["facts"].items()`
    | InTaxonomy(taxonomy: string)         // `for key_tag, value_tag in value_taxonomy.items()`
    | InTag(taxonomy: string, tag: Entry)  // `for key_units, value_units in value_tag["units"].items()`

  /** How many clauses lie below a level. */
  function Depth(level: Level): nat {
    match level
    case InFacts => 2
    case InTaxonomy(_) => 1
    case InTag(_, _) => 0
  }

  /** The rows produced for one entry of a level: the next clause's
      iterable is evaluated, then traversed; under a unit, one row per
      observation. */
  function Block(doc: JValue, level: Level, entry: Entry): Result<seq<FactRow>>
    decreases Depth(level), 0, 0
  {
    match level
    case InFacts =>
      var tags :- Items(entry.1);
      Traverse(doc, InTaxonomy(entry.0), tags)
    case InTaxonomy(taxonomy) =>
      var units :- Subscript(entry.1, "units");
      var unitItems :- Items(units);
      Traverse(doc, InTag(taxonomy, entry), unitItems)
    case InTag(taxonomy, tag) =>
      var obs :- Iterate(entry.1);
      UnitRows(doc, taxonomy, tag, entry.0, obs)
  }

  /** The blocks of the entries of a level, one after the other; the first
      exception aborts the traversal. */
  function Traverse(doc: JValue, level: Level, entries: seq<Entry>): Result<seq<FactRow>>
    decreases Depth(level), 1, |entries|
  {
    if entries == [] then Ok([])
    else
      var block :- Block(doc, level, entries[0]);
      var rest :- Traverse(doc, level, entries[1..]);
      Ok(block + rest)
  }

  /** The whole comprehension. */
  function FactRows(doc: JValue): (r: Result<seq<FactRow>>)
    ensures !doc.JObj? ==> r == Err(TypeError)
    ensures doc.JObj? && !HasKey(doc.fields, "facts") ==> r == Err(KeyError("facts"))
    ensures doc.JObj? && HasKey(doc.fields, "facts") && !Subscript(doc, "facts").value.JObj? ==> r == Err(AttributeError)
  {
    var facts :- Subscript(doc, "facts");
    var taxonomies :- Items(facts);
    Traverse(doc, InFacts, taxonomies)
  }

  /** The taxonomy entries of the document, none when it has no `facts` dict. */
  function TaxonomyEntries(doc: JValue): seq<Entry> {
    match Subscript(doc, "facts")
    case Ok(facts) => ItemsOr(facts)
    case Err(_) => []
  }

  /** The unit entries of a tag, none when it has no `units` dict. */
  function UnitEntriesOf(tagValue: JValue): seq<Entry> {
    match Subscript(tagValue, "units")
    case Ok(units) => ItemsOr(units)
    case Err(_) => []
  }

  /** The entries the next clause iterates over below `entry`. */
  function Children(level: Level, entry: Entry): seq<Entry> {
    match level
    case InFacts => ItemsOr(entry.1)
    case InTaxonomy(_) => UnitEntriesOf(entry.1)
    case InTag(_, _) => []
  }

  /** The level of the next clause below `entry`. */
  function Below(level: Level, entry: Entry): Level
    requires !level.InTag?
  {
    match level
    case InFacts => InTaxonomy(entry.0)
    case InTaxonomy(taxonomy) => InTag(taxonomy, entry)
  }

  /** The observations listed below one entry of a level. */
  function Count(level: Level, entry: Entry): nat
    decreases Depth(level), 0, 0
  {
    match level
    case InTag(_, _) => UnitLength(entry)
    case _ => Total(Below(level, entry), Children(level, entry))
  }

  /** The observations listed below the entries `entries` of a level. */
  function Total(level: Level, entries: seq<Entry>): nat
    decreases Depth(level), 1, |entries|
  {
    if entries == [] then 0 else Count(level, entries[0]) + Total(level, entries[1..])
  }

  /** A block, once built, holds one row per observation below its entry. */
  lemma {:induction false} BlockLength(doc: JValue, level: Level, entry: Entry)
    requires Block(doc, level, entry).Ok?
    ensures |Block(doc, level, entry).value| == Count(level, entry)
    decreases Depth(level), 0, 0
  {
    match level
    case InFacts =>
      TraverseLength(doc, InTaxonomy(entry.0), ItemsOr(entry.1));
    case InTaxonomy(taxonomy) =>
      TraverseLength(doc, InTag(taxonomy, entry), UnitEntriesOf(entry.1));
    case InTag(taxonomy, tag) =>
      UnitRowsSpec(doc, taxonomy, tag, entry.0, Iterate(entry.1).value);
  }

  /** A traversal, once done, holds one row per observation below its
      entries. */
  lemma {:induction false} TraverseLength(doc: JValue, level: Level, entries: seq<Entry>)
    requires Traverse(doc, level, entries).Ok?
    ensures |Traverse(doc, level, entries).value| == Total(level, entries)
    decreases Depth(level), 1, |entries|
  {
    if entries != [] {
      BlockLength(doc, level, entries[0]);
      TraverseLength(doc, level, entries[1..]);
    }
  }

  /** The traversal succeeds exactly when every entry's block is built;
      otherwise its error is the one of the first entry that fails. */
  lemma {:induction false} TraverseSpec(doc: JValue, level: Level, entries: seq<Entry>)
    ensures Traverse(doc, level, entries).Ok? <==> forall c :: 0 <= c < |entries| ==> Block(doc, level, entries[c]).Ok?
    ensures Traverse(doc, level, entries).Err? ==>
              exists c :: 0 <= c < |entries| && Block(doc, level, entries[c]) == Err(Traverse(doc, level, entries).error)
                          && forall d :: 0 <= d < c ==> Block(doc, level, entries[d]).Ok?
  {
    if entries != [] {
      TraverseSpec(doc, level, entries[1..]);
      assert forall c :: 1 <= c < |entries| ==> entries[c] == entries[1..][c - 1];
      if Block(doc, level, entries[0]).Ok? && Traverse(doc, level, entries[1..]).Err? {
        var c :| 0 <= c < |entries[1..]| && Block(doc, level, entries[1..][c]) == Err(Traverse(doc, level, entries[1..]).error)
                 && forall d :: 0 <= d < c ==> Block(doc, level, entries[1..][d]).Ok?;
        assert Block(doc, level, entries[c + 1]) == Err(Traverse(doc, level, entries).error);
      }
    }
  }

  /** Row `j` of the block of entry `c` follows the rows of the entries
      before `c`. */
  lemma {:induction false} TraverseAt(doc: JValue, level: Level, entries: seq<Entry>, c: nat, j: nat)
    requires Traverse(doc, level, entries).Ok?
    requires c < |entries| && j < Count(level, entries[c])
    ensures Block(doc, level, entries[c]).Ok?
    ensures SameAt(Traverse(doc, level, entries).value, Total(level, entries[..c]) + j, Block(doc, level, entries[c]).value, j)
  {
    var rows := Traverse(doc, level, entries).value;
    var first := Block(doc, level, entries[0]).value;
    var rest := Traverse(doc, level, entries[1..]).value;
    var p := Total(level, entries[..c]) + j;
    BlockLength(doc, level, entries[0]);
    if c == 0 {
      assert entries[..0] == [];
      SameAtPrefix(rows, first, rest, p, j);
    } else {
      var k := Total(level, entries[1..][..c - 1]) + j;
      TraverseAt(doc, level, entries[1..], c - 1, j);
      assert entries[1..][c - 1] == entries[c];
      assert entries[..c][1..] == entries[1..][..c - 1];
      SameAtSuffix(rows, first, rest, p, k, Block(doc, level, entries[c]).value, j);
    }
  }

  /** Below a taxonomy or a tag, the block is the traversal of the next
      clause. */
  lemma {:induction false} BlockTraverse(doc: JValue, level: Level, entry: Entry)
    requires !level.InTag? && Block(doc, level, entry).Ok?
    ensures Traverse(doc, Below(level, entry), Children(level, entry)) == Block(doc, level, entry)
  {
  }

  /** Row `j` of a unit's block is built from observation `j` of the unit. */
  lemma {:induction false} UnitRowAt(doc: JValue, taxonomy: string, tag: Entry, unit: Entry, j: nat)
    requires Block(doc, InTag(taxonomy, tag), unit).Ok? && j < |Block(doc, InTag(taxonomy, tag), unit).value|
    ensures Iterate(unit.1).Ok? && j < |Iterate(unit.1).value|
    ensures Ok(Block(doc, InTag(taxonomy, tag), unit).value[j]) == FactRowOf(doc, taxonomy, tag.0, tag.1, unit.0, Iterate(unit.1).value[j])
  {
    var obs := Iterate(unit.1).value;
    UnitRowsSpec(doc, taxonomy, tag, unit.0, obs);
  }

  /** What a row built under tag `tag` of taxonomy `taxonomy` carries: the
      document's entity, the two keys and the tag's own label and
      description. */
  ghost predicate BuiltUnder(row: FactRow, doc: JValue, taxonomy: string, tag: Entry) {
    && Subscript(doc, "cik") == Ok(row.cik) && Subscript(doc, "entityName") == Ok(row.entityName)
    && row.taxonomy == taxonomy && row.tag == tag.0
    && Subscript(tag.1, "label") == Ok(row.labelText)
    && Subscript(tag.1, "description") == Ok(row.description)
  }

  /** A row built below `entry`: under a unit, with that unit's name;
      under a tag or a taxonomy, below one of its children. */
  ghost predicate FromEntry(row: FactRow, doc: JValue, level: Level, entry: Entry)
    decreases Depth(level)
  {
    match level
    case InTag(taxonomy, tag) => BuiltUnder(row, doc, taxonomy, tag) && row.units == entry.0
    case _ =>
      exists c :: 0 <= c < |Children(level, entry)| && FromEntry(row, doc, Below(level, entry), Children(level, entry)[c])
  }

  /** Every row of a block is built below its entry. */
  lemma {:induction false} BlockFrom(doc: JValue, level: Level, entry: Entry, k: nat)
    requires Block(doc, level, entry).Ok? && k < |Block(doc, level, entry).value|
    ensures FromEntry(Block(doc, level, entry).value[k], doc, level, entry)
    decreases Depth(level), 0, 0
  {
    match level
    case InTag(taxonomy, tag) =>
      UnitRowAt(doc, taxonomy, tag, entry, k);
      FactRowOfSpec(doc, taxonomy, tag.0, tag.1, entry.0, Iterate(entry.1).value[k]);
    case _ =>
      BlockTraverse(doc, level, entry);
      TraverseFrom(doc, Below(level, entry), Children(level, entry), k);
  }

  /** Every row of a traversal is built below one of its entries. */
  lemma {:induction false} TraverseFrom(doc: JValue, level: Level, entries: seq<Entry>, k: nat)
    requires Traverse(doc, level, entries).Ok? && k < |Traverse(doc, level, entries).value|
    ensures exists c :: 0 <= c < |entries| && FromEntry(Traverse(doc, level, entries).value[k], doc, level, entries[c])
    decreases Depth(level), 1, |entries|
  {
    assert entries != [];
    var rows := Traverse(doc, level, entries).value;
    var first := Block(doc, level, entries[0]).value;
    var rest := Traverse(doc, level, entries[1..]).value;
    assert rows == first + rest;
    if k < |first| {
      BlockFrom(doc, level, entries[0], k);
      assert FromEntry(rows[k], doc, level, entries[0]);
    } else {
      TraverseFrom(doc, level, entries[1..], k - |first|);
      var c :| 0 <= c < |entries[1..]| && FromEntry(rest[k - |first|], doc, level, entries[1..][c]);
      assert FromEntry(rows[k], doc, level, entries[c + 1]);
    }
  }

  /** A row built below any entry carries the document's entity. */
  lemma {:induction false} FromEntryEntity(row: FactRow, doc: JValue, level: Level, entry: Entry)
    requires FromEntry(row, doc, level, entry)
    ensures Subscript(doc, "cik") == Ok(row.cik) && Subscript(doc, "entityName") == Ok(row.entityName)
    decreases Depth(level)
  {
    if !level.InTag? {
      var c :| 0 <= c < |Children(level, entry)| && FromEntry(row, doc, Below(level, entry), Children(level, entry)[c]);
      FromEntryEntity(row, doc, Below(level, entry), Children(level, entry)[c]);
    }
  }

  // The table

  lemma {:induction false} FactRowsFlat(doc: JValue, rows: seq<FactRow>)
    requires FactRows(doc) == Ok(rows)
    ensures Traverse(doc, InFacts, TaxonomyEntries(doc)) == Ok(rows)
  {
  }

  /** Rows before taxonomy `a` in the table. */
  function TaxonomyOffset(doc: JValue, a: nat): nat
    requires a <= |TaxonomyEntries(doc)|
  {
    Total(InFacts, TaxonomyEntries(doc)[..a])
  }

  /** Rows before tag `b` in its taxonomy's block. */
  function TagOffset(taxonomy: Entry, b: nat): nat
    requires b <= |ItemsOr(taxonomy.1)|
  {
    Total(InTaxonomy(taxonomy.0), ItemsOr(taxonomy.1)[..b])
  }

  /** Rows before unit `c` in its tag's block. */
  function UnitOffset(taxonomy: string, tag: Entry, c: nat): nat
    requires c <= |UnitEntriesOf(tag.1)|
  {
    Total(InTag(taxonomy, tag), UnitEntriesOf(tag.1)[..c])
  }

  /** The table has one row per observation, summed over taxonomies, their
      tags and the tags' units. */
  lemma {:induction false} FactRowCount(doc: JValue, rows: seq<FactRow>)
    requires FactRows(doc) == Ok(rows)
    ensures |rows| == Total(InFacts, TaxonomyEntries(doc))
  {
    FactRowsFlat(doc, rows);
    TraverseLength(doc, InFacts, TaxonomyEntries(doc));
  }

  /** Within a built block of a taxonomy or a tag, row `q` of child `b`
      follows the rows of the children before `b`. */
  lemma {:induction false} BlockRowAt(doc: JValue, level: Level, entry: Entry, b: nat, q: nat)
    requires !level.InTag? && Block(doc, level, entry).Ok?
    requires b < |Children(level, entry)| && q < Count(Below(level, entry), Children(level, entry)[b])
    ensures var children := Children(level, entry);
            var inner := Block(doc, Below(level, entry), children[b]);
            && inner.Ok?
            && SameAt(Block(doc, level, entry).value, Total(Below(level, entry), children[..b]) + q, inner.value, q)
            && Total(Below(level, entry), children[..b]) + q < Count(level, entry)
  {
    BlockTraverse(doc, level, entry);
    TraverseAt(doc, Below(level, entry), Children(level, entry), b, q);
    BlockLength(doc, level, entry);
  }

  /** Row `q` of tag `b` of a taxonomy follows the rows of the tags before
      `b` in the taxonomy's block. */
  lemma {:induction false} TaxonomyRowAt(doc: JValue, taxonomy: Entry, b: nat, q: nat)
    requires Block(doc, InFacts, taxonomy).Ok?
    requires b < |ItemsOr(taxonomy.1)| && q < Count(InTaxonomy(taxonomy.0), ItemsOr(taxonomy.1)[b])
    ensures var inner := Block(doc, InTaxonomy(taxonomy.0), ItemsOr(taxonomy.1)[b]);
            && inner.Ok?
            && SameAt(Block(doc, InFacts, taxonomy).value, TagOffset(taxonomy, b) + q, inner.value, q)
            && TagOffset(taxonomy, b) + q < Count(InFacts, taxonomy)
  {
    BlockRowAt(doc, InFacts, taxonomy, b, q);
  }

  /** Row `j` of unit `c` of a tag follows the rows of the units before `c`
      in the tag's block. */
  lemma {:induction false} TagRowAt(doc: JValue, taxonomy: string, tag: Entry, c: nat, j: nat)
    requires Block(doc, InTaxonomy(taxonomy), tag).Ok?
    requires c < |UnitEntriesOf(tag.1)| && j < UnitLength(UnitEntriesOf(tag.1)[c])
    ensures var inner := Block(doc, InTag(taxonomy, tag), UnitEntriesOf(tag.1)[c]);
            && inner.Ok?
            && SameAt(Block(doc, InTaxonomy(taxonomy), tag).value, UnitOffset(taxonomy, tag, c) + j, inner.value, j)
            && UnitOffset(taxonomy, tag, c) + j < Count(InTaxonomy(taxonomy), tag)
  {
    BlockRowAt(doc, InTaxonomy(taxonomy), tag, c, j);
  }

  /** Once a traversal is built, so is the block of each of its entries. */
  lemma {:induction false} TraverseBlockOk(doc: JValue, level: Level, entries: seq<Entry>, c: nat)
    requires Traverse(doc, level, entries).Ok? && c < |entries|
    ensures Block(doc, level, entries[c]).Ok?
  {
    TraverseSpec(doc, level, entries);
  }

  /** Every taxonomy of an accepted document yields its block. */
  lemma {:induction false} TaxonomyBlockOk(doc: JValue, rows: seq<FactRow>, a: nat)
    requires FactRows(doc) == Ok(rows) && a < |TaxonomyEntries(doc)|
    ensures Block(doc, InFacts, TaxonomyEntries(doc)[a]).Ok?
  {
    FactRowsFlat(doc, rows);
    TraverseBlockOk(doc, InFacts, TaxonomyEntries(doc), a);
  }

  /** Every tag of a built taxonomy yields its block. */
  lemma {:induction false} TagBlockOk(doc: JValue, taxonomy: Entry, b: nat)
    requires Block(doc, InFacts, taxonomy).Ok? && b < |ItemsOr(taxonomy.1)|
    ensures Block(doc, InTaxonomy(taxonomy.0), ItemsOr(taxonomy.1)[b]).Ok?
  {
    BlockTraverse(doc, InFacts, taxonomy);
    TraverseBlockOk(doc, InTaxonomy(taxonomy.0), ItemsOr(taxonomy.1), b);
  }

  /** In the table, row `q` of tag `b` of taxonomy `a` follows the rows of
      the taxonomies before `a` and of the tags of `a` before `b`. */
  lemma {:induction false} TableRowOfTag(doc: JValue, rows: seq<FactRow>, a: nat, b: nat, q: nat)
    requires FactRows(doc) == Ok(rows)
    requires a < |TaxonomyEntries(doc)| && b < |ItemsOr(TaxonomyEntries(doc)[a].1)|
    requires q < Count(InTaxonomy(TaxonomyEntries(doc)[a].0), ItemsOr(TaxonomyEntries(doc)[a].1)[b])
    ensures var taxonomy := TaxonomyEntries(doc)[a];
            var inner := Block(doc, InTaxonomy(taxonomy.0), ItemsOr(taxonomy.1)[b]);
            inner.Ok? && SameAt(rows, TaxonomyOffset(doc, a) + (TagOffset(taxonomy, b) + q), inner.value, q)
  {
    var taxonomies := TaxonomyEntries(doc);
    var taxonomy := taxonomies[a];
    FactRowsFlat(doc, rows);
    TaxonomyBlockOk(doc, rows, a);
    TaxonomyRowAt(doc, taxonomy, b, q);
    var middle := Block(doc, InFacts, taxonomy).value;
    var inner := Block(doc, InTaxonomy(taxonomy.0), ItemsOr(taxonomy.1)[b]).value;
    var r := TagOffset(taxonomy, b) + q;
    assert SameAt(middle, r, inner, q);
    TraverseAt(doc, InFacts, taxonomies, a, r);
    var p := TaxonomyOffset(doc, a) + r;
    assert p == Total(InFacts, taxonomies[..a]) + r;
    assert SameAt(rows, p, middle, r);
    SameAtTrans(rows, p, middle, r, inner, q);
  }

  /** Within a built tag block, row `j` of unit `c` is built from
      observation `j` of that unit. */
  lemma {:induction false} TagRowOf(doc: JValue, taxonomy: string, tag: Entry, c: nat, j: nat)
    requires Block(doc, InTaxonomy(taxonomy), tag).Ok?
    requires c < |UnitEntriesOf(tag.1)| && j < UnitLength(UnitEntriesOf(tag.1)[c])
    ensures var unit := UnitEntriesOf(tag.1)[c];
            var q := UnitOffset(taxonomy, tag, c) + j;
            && q < Count(InTaxonomy(taxonomy), tag) && q < |Block(doc, InTaxonomy(taxonomy), tag).value|
            && Iterate(unit.1).Ok? && j < |Iterate(unit.1).value|
            && Ok(Block(doc, InTaxonomy(taxonomy), tag).value[q]) == FactRowOf(doc, taxonomy, tag.0, tag.1, unit.0, Iterate(unit.1).value[j])
  {
    TagRowAt(doc, taxonomy, tag, c, j);
    UnitRowAt(doc, taxonomy, tag, UnitEntriesOf(tag.1)[c], j);
  }

  /** Rows come in the nested upstream order: observation `j` of unit `c` of
      tag `b` of taxonomy `a` sits after every observation of the
      taxonomies before `a`, of the tags of `a` before `b` and of the units
      of `b` before `c`, and it is built from exactly those keys, that tag
      and that observation. */
  lemma {:induction false} FactRowAt(doc: JValue, rows: seq<FactRow>, a: nat, b: nat, c: nat, j: nat)
    requires FactRows(doc) == Ok(rows)
    requires a < |TaxonomyEntries(doc)|
    requires b < |ItemsOr(TaxonomyEntries(doc)[a].1)|
    requires c < |UnitEntriesOf(ItemsOr(TaxonomyEntries(doc)[a].1)[b].1)|
    requires j < UnitLength(UnitEntriesOf(ItemsOr(TaxonomyEntries(doc)[a].1)[b].1)[c])
    ensures var taxonomy := TaxonomyEntries(doc)[a];
            var tag := ItemsOr(taxonomy.1)[b];
            var unit := UnitEntriesOf(tag.1)[c];
            var p := TaxonomyOffset(doc, a) + (TagOffset(taxonomy, b) + (UnitOffset(taxonomy.0, tag, c) + j));
            && p < |rows| && Iterate(unit.1).Ok? && j < |Iterate(unit.1).value|
            && Ok(rows[p]) == FactRowOf(doc, taxonomy.0, tag.0, tag.1, unit.0, Iterate(unit.1).value[j])
  {
    var taxonomy := TaxonomyEntries(doc)[a];
    var tag := ItemsOr(taxonomy.1)[b];
    TaxonomyBlockOk(doc, rows, a);
    TagBlockOk(doc, taxonomy, b);
    TagRowOf(doc, taxonomy.0, tag, c, j);
    TableRowOfTag(doc, rows, a, b, UnitOffset(taxonomy.0, tag, c) + j);
  }

  /** Every row of the table is built under a taxonomy of `facts`, a tag of
      that taxonomy and a unit of that tag, and carries the document's `cik`
      and `entityName`: no row mixes data from two tags. */
  lemma {:induction false} FactRowOrigin(doc: JValue, rows: seq<FactRow>, p: nat)
    requires FactRows(doc) == Ok(rows) && p < |rows|
    ensures exists a :: 0 <= a < |TaxonomyEntries(doc)| && FromEntry(rows[p], doc, InFacts, TaxonomyEntries(doc)[a])
    ensures Subscript(doc, "cik") == Ok(rows[p].cik) && Subscript(doc, "entityName") == Ok(rows[p].entityName)
  {
    var taxonomies := TaxonomyEntries(doc);
    FactRowsFlat(doc, rows);
    TraverseFrom(doc, InFacts, taxonomies, p);
    var a :| 0 <= a < |taxonomies| && FromEntry(rows[p], doc, InFacts, taxonomies[a]);
    FromEntryEntity(rows[p], doc, InFacts, taxonomies[a]);
  }

  /** A unit the traversal accepts: its value is iterable, each
      observation is a dict, and when there is at least one observation the
      document has its entity keys and the tag its label and description
      (those are only looked up while a row is built). */
  ghost predicate UnitShape(doc: JValue, tag: Entry, unit: Entry) {
    && Iterate(unit.1).Ok?
    && (forall j :: 0 <= j < |Iterate(unit.1).value| ==> Iterate(unit.1).value[j].JObj?)
    && (UnitLength(unit) > 0 ==>
          doc.JObj? && HasKeys(doc.fields, ENTITY) && tag.1.JObj? && HasKeys(tag.1.fields, TAG_TEXT))
  }

  /** An entry the traversal accepts: a unit of the accepted shape; a tag
      that is a dict whose `units` is a dict of accepted units; a taxonomy
      that is a dict of accepted tags. */
  ghost predicate Accepted(doc: JValue, level: Level, entry: Entry)
    decreases Depth(level)
  {
    match level
    case InTag(_, tag) => UnitShape(doc, tag, entry)
    case InTaxonomy(_) =>
      && entry.1.JObj? && HasKey(entry.1.fields, "units") && Subscript(entry.1, "units").value.JObj?
      && forall c :: 0 <= c < |Children(level, entry)| ==> Accepted(doc, Below(level, entry), Children(level, entry)[c])
    case InFacts =>
      && entry.1.JObj?
      && forall b :: 0 <= b < |Children(level, entry)| ==> Accepted(doc, Below(level, entry), Children(level, entry)[b])
  }

  /** A document the operation accepts. */
  ghost predicate FactShape(doc: JValue) {
    && doc.JObj? && HasKey(doc.fields, "facts") && Subscript(doc, "facts").value.JObj?
    && forall a :: 0 <= a < |TaxonomyEntries(doc)| ==> Accepted(doc, InFacts, TaxonomyEntries(doc)[a])
  }

  /** Below a taxonomy or a tag, the next clause's traversal succeeds
      exactly when every child is accepted. */
  lemma {:induction false} ChildrenSucceed(doc: JValue, level: Level, entry: Entry)
    requires !level.InTag?
    ensures Traverse(doc, Below(level, entry), Children(level, entry)).Ok? <==>
              forall c :: 0 <= c < |Children(level, entry)| ==> Accepted(doc, Below(level, entry), Children(level, entry)[c])
    decreases Depth(level), 0
  {
    var children := Children(level, entry);
    TraverseSpec(doc, Below(level, entry), children);
    forall c | 0 <= c < |children|
      ensures Block(doc, Below(level, entry), children[c]).Ok? <==> Accepted(doc, Below(level, entry), children[c])
    {
      BlockSucceeds(doc, Below(level, entry), children[c]);
    }
  }

  /** A block is built exactly when its entry has the accepted shape; a tag
      that is not a dict raises TypeError, one without `units` raises
      KeyError, a taxonomy that is not a dict raises AttributeError. */
  lemma {:induction false} BlockSucceeds(doc: JValue, level: Level, entry: Entry)
    ensures Block(doc, level, entry).Ok? <==> Accepted(doc, level, entry)
    ensures level.InTaxonomy? && !entry.1.JObj? ==> Block(doc, level, entry) == Err(TypeError)
    ensures level.InTaxonomy? && entry.1.JObj? && !HasKey(entry.1.fields, "units") ==>
              Block(doc, level, entry) == Err(KeyError("units"))
    ensures level.InFacts? && !entry.1.JObj? ==> Block(doc, level, entry) == Err(AttributeError)
    decreases Depth(level), 1
  {
    match level
    case InTag(taxonomy, tag) =>
      if Iterate(entry.1).Ok? {
        var obs := Iterate(entry.1).value;
        UnitRowsSpec(doc, taxonomy, tag, entry.0, obs);
        forall j | 0 <= j < |obs|
          ensures FactRowOf(doc, taxonomy, tag.0, tag.1, entry.0, obs[j]).Ok? <==>
                    (obs[j].JObj? && doc.JObj? && HasKeys(doc.fields, ENTITY) && tag.1.JObj? && HasKeys(tag.1.fields, TAG_TEXT))
        {
          FactRowOfSpec(doc, taxonomy, tag.0, tag.1, entry.0, obs[j]);
        }
      }
    case InTaxonomy(_) =>
      if entry.1.JObj? && HasKey(entry.1.fields, "units") && Subscript(entry.1, "units").value.JObj? {
        ChildrenSucceed(doc, level, entry);
      }
    case InFacts =>
      if entry.1.JObj? {
        ChildrenSucceed(doc, level, entry);
      }
  }

  /** The call succeeds exactly on documents of the accepted shape. */
  lemma {:induction false} FactRowsSucceed(doc: JValue)
    ensures FactRows(doc).Ok? <==> FactShape(doc)
  {
    if doc.JObj? && HasKey(doc.fields, "facts") && Subscript(doc, "facts").value.JObj? {
      var taxonomies := TaxonomyEntries(doc);
      assert FactRows(doc) == Traverse(doc, InFacts, taxonomies);
      TraverseSpec(doc, InFacts, taxonomies);
      forall a | 0 <= a < |taxonomies| ensures Block(doc, InFacts, taxonomies[a]).Ok? <==> Accepted(doc, InFacts, taxonomies[a]) {
        BlockSucceeds(doc, InFacts, taxonomies[a]);
      }
    }
  }
}
