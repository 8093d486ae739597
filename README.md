# SEC API client: the JSON-to-table reshaping, in Dafny

`SEC_API.py` is a thin client for the SEC's EDGAR data API. Each of its five
class methods fetches one JSON document and reshapes it into a pandas frame.
This project models that reshaping. It starts from the parsed document and
ends at the rows of the frame. It proves how many rows come out, in what
order, what each cell holds, and which documents make the call raise.

- `get_companytickers` (lines 29-35): a dict of company records is
  transposed into one row per record, with the columns renamed `cik`,
  `ticker` and `title`. With `parse_cik` the `cik` column becomes
  `"CIK" + str(cik).rjust(10, '0')`. In the code `parse_cik` defaults to
  true (line 16); `Tickers.CompanyTickers` takes the flag as an explicit
  argument, since Dafny functions have no default arguments here.
- `get_submissions` (lines 55-57): `filings.recent` is a dict of parallel
  arrays. Row `i` holds element `i` of every array.
- `get_companyconcept` (lines 77-96): one row per (unit, observation) pair.
  Each row carries the document's six metadata fields.
- `get_companyfacts` (lines 116-137): one row per observation, reached
  through four nested `for` clauses: taxonomy, tag, unit, observation.
- `get_frames` (lines 161-176): one row per element of `data`. Each row
  carries the frame's six header fields.

## How the model is laid out

- `json.dfy` (`Json`): the parsed document.
  - A dict is an ordered `seq<(string, JValue)>`, because Python dicts keep
    insertion order and row order depends on it.
  - The Python operations the code uses: `d[k]` (`Subscript`),
    `d.get(k, nan)` (`Get`), `d.items()` (`Items`) and `for x in v`
    (`Iterate`).
  - The exceptions they raise: `KeyError`, `TypeError` and `AttributeError`,
    plus `ValueError` from pandas.
  - A call either returns `Ok(rows)` or `Err(e)` for the first exception
    raised.
- `comprehension.dfy` (`Comprehension`): how a list comprehension whose
  element expression may raise is evaluated. `[f(x) for x in xs]` is
  `MapResult`; the nested form is `FlatMapResult`.
- `observations.dfy` (`Observations`): the eight `row_list.get(name, np.nan)`
  columns shared by the concept and facts tables. `None` stands for NaN.
- `keyorder.dfy` (`KeyOrder`): Python's string order and `sorted()` of dict
  keys, written as a stable insertion sort.
- `text.dfy` (`PyText`): `str()` of a cell, `str.rjust` and the `CIK` prefix.
- `tickers.dfy`, `submissions.dfy`, `company_concept.dfy`,
  `company_facts.dfy` and `frames.dfy`: the five operations.
- `worked_examples.dfy` and `facts_examples.dfy`: concrete documents and
  the rows they give. Some examples are derived from the general lemmas;
  others, such as `FactsExamples.FourRows`, are worked out by unfolding the
  definitions step by step.

### Behaviour of the code that departs from the API's documented shape

The model follows the code in each of these cases. Where the behaviour
depends on the pandas release, the model follows pandas 2.x.

- **Ticker row order.** The rows of `get_companytickers` are not in
  upstream order. `DataFrame.from_records` given a dict orders its columns
  by `sorted()` of the keys, and line 29 transposes them into rows. So the
  rows come in the keys' text order, where `"10"` sorts before `"2"`.
  `Tickers.RowsInKeyOrder` proves that the two orders coincide exactly when
  the keys are already sorted.
- **Ticker columns.** They are renamed by position. Before the renaming the
  columns are the union of the record keys in first-seen order: the
  records are read in sorted key order, each record's keys in its own
  order, and a key seen before is skipped (`Tickers.ColumnsFirstSeen`). So
  `cik` is the first key of the first record, in sorted key order, that
  has any key: an empty record in front is skipped
  (`Tickers.RenamedByFirstRecord`). A record listing `title`, `cik_str`,
  `ticker` in that order puts its title under `cik`
  (`TickerExamples.TitleFirstRecord`). For the upstream layout (`cik_str`,
  `ticker`, `title`) `cik` holds `cik_str`. A union of anything but three
  keys raises `ValueError` at line 30, and so does an empty document.
- **Submission column order.** The columns of `get_submissions` come out in
  sorted name order, not upstream order, for the same pandas reason.
  Arrays of different lengths raise `ValueError`. They are modelled as an
  error result, not ruled out by a precondition.
- **Required keys are read lazily.** The metadata keys (`cik`, `label`, …)
  are only looked up while a row is built. A document with no observations
  therefore gives an empty table even when every metadata key is missing.
- **`ccp` is required.** The frame's `ccp` is read with `raw_json["ccp"]`
  (line 164), so a frame without it raises `KeyError`; it is not optional.
- **Missing CIKs.** With pandas 2.x, `parse_cik` on a missing (NaN) cell
  gives `"CIK0000000nan"`, not an error (`PyText.CikOfMissing`).
- **Duplicate keys.** A parsed Python dict never holds a key twice, but a
  dict value in the model can. Such documents are outside what the model
  follows; see "Left out".

The `label` column is called `labelText` in the Dafny row types. `label` is
a reserved word in Dafny.

## Model

Functions that only compute a value, such as `CompanyFacts.FactRowOf`,
`CompanyFacts.Traverse` or `KeyOrder.StrLe`, carry no contract of their
own. The rows below name the lemmas that specify them, and the third
column says which function each lemma is about. `Json.Iterate` (Python's
`for x in v`) and `Submissions.RowAt` (one row of the transposed arrays)
are definitions too: their `ensures` only spell out their bodies for the
proofs that use them, so they have no row. What they mean is stated by
`Frames.FrameRowAt`, `CompanyConcept.ConceptRowAt`,
`Submissions.FromColumnsTable` and `Submissions.SubmissionCell`.

| member | source | states |
|---|---|---|
| Json.HasKeyIn | SEC_API.py:78-83 | the dict membership test used for `d[k]` holds exactly when `k` is among the dict's keys |
| Json.HasKeyAt | SEC_API.py:78-83 | a key stored at any position of the dict is found by the membership test |
| Json.Lookup | SEC_API.py:85-92 | `d.get(k)` is absent exactly when `k` is not a key; a found value is stored under `k` |
| Json.LookupFirst | SEC_API.py:85-92 | the lookup returns the value of the first entry with that key |
| Json.LookupDistinct | SEC_API.py:85-92 | in a dict without repeated keys, the value found under the key of entry `i` is entry `i`'s value |
| Json.Subscript | SEC_API.py:78-83 | `d[k]` succeeds exactly on a dict holding `k` and returns the stored value; a missing key raises `KeyError(k)`, a non-dict raises `TypeError` |
| Json.SubscriptAll | SEC_API.py:78-83 | evaluating the metadata lookups of a row dict gives one value per key |
| Json.SubscriptAllSpec | SEC_API.py:78-83 | the lookups of a row dict succeed exactly when every key is present, each value is the one stored under its key, the first missing key is the `KeyError` raised, and a non-dict raises `TypeError` |
| Comprehension.MapResultSpec | SEC_API.py:175 | a comprehension succeeds exactly when every element does; it then has one result per element in iteration order; otherwise its error is the first failing element's |
| Comprehension.ConcatAt | SEC_API.py:94-95 | in a nested comprehension, element `j` of block `i` comes after all elements of the earlier blocks |
| Comprehension.FlatMapResultSpec | SEC_API.py:94-95 | a nested comprehension succeeds exactly when every inner block is built; otherwise its error is the first failing block's |
| Comprehension.FlatMapResultLength | SEC_API.py:94-95 | a nested comprehension has as many elements as its blocks together |
| Comprehension.FlatMapResultAt | SEC_API.py:94-95 | element `j` of item `u`'s block sits right after the blocks of the items before `u` |
| Comprehension.FlatMapResultMember | SEC_API.py:94-95 | every element of a nested comprehension comes from one item's block |
| Observations.ObservationOf | SEC_API.py:85-92 | the eight observation cells are copied from the observation dict when the key is present and are NaN otherwise; a non-dict observation raises `AttributeError` |
| KeyOrder.StrLeTotal | SEC_API.py:29 | `StrLe`, Python's `<=` on strings, relates any two strings one way or the other |
| KeyOrder.StrLeTransitive | SEC_API.py:29 | `StrLe` is transitive |
| KeyOrder.StrLePrefix | SEC_API.py:29 | under `StrLe` a string sorts before its extensions and a proper extension does not sort before it |
| KeyOrder.Insert | SEC_API.py:29 | inserting an entry into a list sorted by key keeps it sorted and adds exactly that entry |
| KeyOrder.SortByKey | SEC_API.py:29 | `sorted()` of a dict's entries is sorted by key, holds the same entries and has the same length |
| KeyOrder.SortByKeyIdentity | SEC_API.py:29 | sorting leaves the entries unchanged exactly when their keys are already in order |
| KeyOrder.SortIsTextual | SEC_API.py:29 | keys compare as text: `"10"` sorts before `"2"` |
| PyText.NatTextValue | SEC_API.py:33 | reading back the decimal text of a number gives the number |
| PyText.NatTextLength | SEC_API.py:33 | the decimal text of `n` has at most `k` digits exactly when `n < 10^k` |
| PyText.LeadingZeros | SEC_API.py:33 | zero padding keeps a digit string a digit string with the same value |
| PyText.NatTextNoLeadingZero | SEC_API.py:33 | `str()` of a positive integer does not start with `0` |
| PyText.IntTextSpec | SEC_API.py:33 | `str()` of an int is the digits of its magnitude without leading zero, after `-` when negative, and reads back as the number |
| PyText.CellTextSpec | SEC_API.py:33 | `CellText`, `astype("str")` of one cell: NaN is `nan`, a string is itself, a non-negative integer is its decimal digits without leading zero, a negative one is `-` and the digits of its magnitude, null and booleans are `None`, `True`, `False` |
| PyText.PadLeft | SEC_API.py:33 | `str.rjust(width, fill)` keeps the text as its suffix, fills the rest with `fill` and reaches at least `width` characters |
| PyText.CikText | SEC_API.py:33 | the identifier is `CIK`, then as many `0`s as bring the cell's text to ten characters, then the text itself |
| PyText.CikOfNumber | SEC_API.py:33 | a non-negative CIK becomes `"CIK"` followed by at least ten digits, exactly ten when it is below `10^10`, and the identifier parses back to the number |
| PyText.CikExample | SEC_API.py:33 | 320193 becomes `CIK0000320193` |
| PyText.CikOfMissing | SEC_API.py:33 | a NaN cell becomes `CIK0000000nan` |
| Tickers.NewKeysCons | SEC_API.py:29 | `NewKeys` keeps the first key exactly when it is not already a column, and then treats it as seen for the rest |
| Tickers.AddColumns | SEC_API.py:29 | merging record keys into the column list keeps the known columns first, adds exactly the new keys and introduces no duplicate |
| Tickers.AddColumnsOrder | SEC_API.py:29 | merging appends exactly `NewKeys`: the keys not seen yet, each at its first occurrence, in order |
| Tickers.AddColumnsAppend | SEC_API.py:29 | merging two key lists one after the other is merging their concatenation |
| Tickers.ColumnsFrom | SEC_API.py:29 | the frame's index is exactly the union of the record keys, without duplicates |
| Tickers.ColumnsFromAll | SEC_API.py:29 | merging record by record is merging all the records' keys in one go |
| Tickers.ColumnsFirstSeen | SEC_API.py:29 | the columns are the record keys in first-seen order, records in sorted key order and each record's keys in its own order |
| Tickers.FirstRecordColumns | SEC_API.py:29 | distinct keys of the first record open the column list in their own order |
| Tickers.NewKeysHead | SEC_API.py:29 | the first key is always new to an empty column list |
| Tickers.ColumnsHead | SEC_API.py:29 | the first column is the first key of any record |
| Tickers.RenamedByFirstRecord | SEC_API.py:29-30 | in a built table `cik` renames the first key of the first record (in sorted order) that has one; if the first record has three distinct keys, the columns are exactly those keys |
| Tickers.TickerTable | SEC_API.py:29-30 | the table is built exactly for a dict of dicts whose keys union has three members; then there is one row per record, in sorted key order, each holding the record's values under the three columns; three column names on another width raise `ValueError` |
| Tickers.ParseCikColumn | SEC_API.py:32-33 | every row's `cik` becomes its `CIK`-prefixed padded text; `ticker` and `title` are kept |
| Tickers.CompanyTickers | SEC_API.py:16-35 | without the flag the table is returned as built; with it the call fails exactly when the table does, every `cik` cell becomes its `CIK`-prefixed padded text and `ticker` and `title` are unchanged |
| Tickers.OneRowPerRecord | SEC_API.py:29-30 | every record gives exactly one row and every row comes from one record |
| Tickers.RowsInKeyOrder | SEC_API.py:29 | rows follow the records sorted by key, which is the document's own order exactly when its keys are already sorted |
| Tickers.TextualKeyOrder | SEC_API.py:29 | the record keyed `"10"` is listed before the one keyed `"2"` |
| Tickers.UpstreamColumnsOf | SEC_API.py:29-30 | records that all list `cik_str`, `ticker`, `title` give exactly those three columns |
| Tickers.UpstreamColumns | SEC_API.py:29-30 | for such a document the table has one row per record, its `cik` holding `cik_str`, `ticker` holding `ticker` and `title` holding `title` |
| Tickers.UpstreamCik | SEC_API.py:29-35 | with `parse_cik`, an upstream integer CIK comes out as the padded identifier that parses back to it and has thirteen characters below `10^10` |
| Tickers.EmptyDocument | SEC_API.py:29-30 | a document without records raises `ValueError`, with or without the flag |
| Submissions.PermutedColumns | SEC_API.py:57 | reordering the columns changes neither whether all are arrays nor whether they have equal lengths |
| Submissions.FromColumns | SEC_API.py:57 | the conversion succeeds exactly for a dict of arrays of equal length; arrays of different lengths raise `ValueError` |
| Submissions.FromColumnsTable | SEC_API.py:57 | the columns are the fields in sorted order, there are as many rows as every array has elements, and row `i`, column `c` holds element `i` of that column's array |
| Submissions.SubmissionsTable | SEC_API.py:55-57 | a missing `filings` or `recent` raises `KeyError`, a non-dict on the way raises `TypeError`, otherwise the result is the conversion of `recent` |
| Submissions.SubmissionCell | SEC_API.py:55-57 | field `f` of row `i` is `recent[f][i]` |
| Submissions.SubmissionColumns | SEC_API.py:57 | the columns are exactly the fields of `recent` |
| CompanyConcept.ConceptRowOf | SEC_API.py:77-93 | a row is built exactly when the document is a dict with the six metadata keys and the observation is a dict; the first missing key is the `KeyError` raised; the row holds the stored metadata, the unit name and the observation's cells |
| CompanyConcept.ConceptRows | SEC_API.py:77-96 | a non-dict document raises `TypeError`, a missing `units` raises `KeyError`, a non-dict `units` raises `AttributeError` |
| CompanyConcept.UnitRowsLength | SEC_API.py:95 | `UnitRows`, a unit's block, has one row per observation of the unit |
| CompanyConcept.UnitRowAt | SEC_API.py:95 | row `j` of `UnitRows` is built from observation `j` of that unit |
| CompanyConcept.ConceptRowCount | SEC_API.py:94-95 | the table has as many rows as there are observations summed over the units |
| CompanyConcept.ConceptRowAt | SEC_API.py:94-95 | observation `j` of unit `u` is row (observations of the units before `u`) + `j`, built from that unit's name and that observation |
| CompanyConcept.ConceptRowsShareMetadata | SEC_API.py:78-83 | every row carries the same `cik`, `taxonomy`, `tag`, `label`, `description` and `entityName`, those stored in the document |
| CompanyConcept.UnitRowsSucceed | SEC_API.py:85-95 | a unit's block is built exactly when its value is iterable, each observation is a dict, and the metadata is present if there is an observation |
| CompanyConcept.ConceptRowsSucceed | SEC_API.py:77-96 | the call succeeds exactly on documents whose `units` is a dict of such units |
| CompanyConcept.ConceptMetadataRequired | SEC_API.py:78-83 | a document with an observation and a missing metadata key makes the call fail |
| CompanyConcept.ConceptNoObservations | SEC_API.py:77-96 | a document whose units list no observation gives no rows even without metadata |
| CompanyFacts.FactRowOfSpec | SEC_API.py:116-131 | `FactRowOf` builds a row exactly when the document has `cik` and `entityName`, the tag is a dict with `label` and `description`, and the observation is a dict; each failure raises the matching error in evaluation order; the row carries those values, the two keys, the unit and the observation's cells |
| CompanyFacts.UnitRowsSpec | SEC_API.py:136 | `UnitRows`, a unit's block, is built exactly when every observation's row is; row `i` is observation `i`'s; otherwise the first failing row's error is raised |
| CompanyFacts.FactRows | SEC_API.py:133 | a non-dict document raises `TypeError`, a missing `facts` raises `KeyError`, a non-dict `facts` raises `AttributeError` |
| CompanyFacts.BlockLength | SEC_API.py:133-136 | `Block`, the block of a taxonomy, tag or unit, has one row per observation below it |
| CompanyFacts.TraverseLength | SEC_API.py:133-136 | a traversal of a level has one row per observation below its entries |
| CompanyFacts.TraverseSpec | SEC_API.py:133-135 | `Traverse`, the traversal of one `for` clause, succeeds exactly when every entry's block is built; otherwise the first failing entry's error is raised |
| CompanyFacts.TraverseAt | SEC_API.py:133-136 | row `j` of entry `c`'s block follows the rows of the entries before `c` |
| CompanyFacts.BlockTraverse | SEC_API.py:134-135 | below a taxonomy or a tag, the block is the traversal of the next `for` clause |
| CompanyFacts.UnitRowAt | SEC_API.py:136 | row `j` of a unit's block is built from observation `j` |
| CompanyFacts.BlockFrom | SEC_API.py:133-136 | every row of a block is built below its entry with that entry's keys |
| CompanyFacts.TraverseFrom | SEC_API.py:133-136 | every row of a traversal is built below one of its entries |
| CompanyFacts.FromEntryEntity | SEC_API.py:117-118 | a row built below any entry carries the document's `cik` and `entityName` |
| CompanyFacts.FactRowCount | SEC_API.py:116-137 | the table has as many rows as there are observations summed over taxonomies, tags and units |
| CompanyFacts.BlockRowAt | SEC_API.py:134-135 | within a taxonomy's or tag's block, row `q` of child `b` follows the rows of the earlier children |
| CompanyFacts.TaxonomyRowAt | SEC_API.py:134 | row `q` of tag `b` follows the rows of the earlier tags of its taxonomy |
| CompanyFacts.TagRowAt | SEC_API.py:135 | row `j` of unit `c` follows the rows of the earlier units of its tag |
| CompanyFacts.TraverseBlockOk | SEC_API.py:133-135 | once a traversal is built, so is every entry's block |
| CompanyFacts.TaxonomyBlockOk | SEC_API.py:133 | in an accepted document every taxonomy's block is built |
| CompanyFacts.TagBlockOk | SEC_API.py:134 | in a built taxonomy every tag's block is built |
| CompanyFacts.TableRowOfTag | SEC_API.py:133-134 | row `q` of tag `b` of taxonomy `a` follows the rows of the earlier taxonomies and of the earlier tags of `a` |
| CompanyFacts.TagRowOf | SEC_API.py:135-136 | within a tag's block, row `j` of unit `c` is built from observation `j` of that unit |
| CompanyFacts.FactRowAt | SEC_API.py:116-137 | observation `j` of unit `c` of tag `b` of taxonomy `a` is the row after all observations of the earlier taxonomies, tags of `a` and units of `b`, built from exactly those keys, that tag and that observation |
| CompanyFacts.FactRowOrigin | SEC_API.py:116-137 | every row is built under one taxonomy, one of its tags and one of that tag's units, and carries the document's `cik` and `entityName` |
| CompanyFacts.ChildrenSucceed | SEC_API.py:134-135 | the next clause's traversal below an entry succeeds exactly when every child is accepted |
| CompanyFacts.BlockSucceeds | SEC_API.py:133-136 | a block is built exactly when its entry has the accepted shape; a non-dict tag raises `TypeError`, one without `units` raises `KeyError`, a non-dict taxonomy raises `AttributeError` |
| CompanyFacts.FactRowsSucceed | SEC_API.py:116-137 | the call succeeds exactly on documents of the accepted shape |
| Frames.FrameRowOf | SEC_API.py:161-174 | a row is built exactly when the document is a dict with the six header keys (including `ccp`) and the element is a dict; the first missing key is the `KeyError` raised; the row holds the stored header and the element's six cells, NaN where absent |
| Frames.FrameRows | SEC_API.py:175 | a non-dict document raises `TypeError`, a missing `data` raises `KeyError`, a non-iterable `data` raises `TypeError` |
| Frames.FrameRowAt | SEC_API.py:175 | there is exactly one row per element of `data`, row `i` built from element `i` |
| Frames.FrameRowsShareHeader | SEC_API.py:161-173 | every row carries the same header, the one stored in the document, and copies its other cells from its own element |
| Frames.FrameRowsSucceed | SEC_API.py:161-176 | the call succeeds exactly when `data` is iterable and made of dicts, and the header is present if `data` is non-empty |
| Frames.FrameNoData | SEC_API.py:175 | an empty `data` list gives no rows whatever the header holds |
| ConceptExamples.ConceptDocShape | SEC_API.py:77-96 | the example concept document has the accepted shape |
| ConceptExamples.FirstRowOfTwoUnits | SEC_API.py:94-95 | with units `a: [o1, o2]`, `b: [o3]` the table has three rows and the first is built from `o1` under `a` |
| ConceptExamples.SecondRowOfTwoUnits | SEC_API.py:94-95 | the second row is built from `o2` under `a` |
| ConceptExamples.ThirdRowOfTwoUnits | SEC_API.py:94-95 | the third row is built from `o3` under `b` |
| ConceptExamples.ConceptDocRows | SEC_API.py:77-96 | units `USD: [o1, o2]`, `shares: [o3]` give three rows, two in USD and one in shares, in that order, with the document's CIK |
| ConceptExamples.ObservationExample | SEC_API.py:88 | a fiscal year present in the observation is copied; a missing one becomes NaN |
| TickerExamples.SingleRecordRow | SEC_API.py:29-30 | a document of one upstream record gives one row holding its three fields |
| TickerExamples.SingleRecordColumns | SEC_API.py:29 | a single record with distinct keys gives its keys, in its order, as the columns |
| TickerExamples.TitleFirstColumns | SEC_API.py:29 | a record keyed `title`, `cik_str`, `ticker` gives the columns in that order |
| TickerExamples.TitleFirstRecord | SEC_API.py:29-30 | that record's title lands under `cik`, its `cik_str` under `ticker` and its ticker under `title` |
| TickerExamples.AppleTable | SEC_API.py:29-30 | Apple's record becomes the row (320193, `AAPL`, `Apple Inc.`) |
| TickerExamples.AppleTicker | SEC_API.py:29-35 | with `parse_cik` the row is (`CIK0000320193`, `AAPL`, `Apple Inc.`) |
| SubmissionExamples.RecentSorted | SEC_API.py:57 | `accessionNumber` sorts before `form` |
| SubmissionExamples.TwoByTwo | SEC_API.py:57 | two sorted columns of two elements each make a two-by-two table, row `i` holding element `i` of each |
| SubmissionExamples.RecentTable | SEC_API.py:55-57 | the example `recent` block gives columns `accessionNumber`, `form` and its two rows in array order |
| SubmissionExamples.RaggedRecent | SEC_API.py:57 | arrays of lengths 2 and 1 raise `ValueError` |
| FactsExamples.FourRows | SEC_API.py:116-137 | two taxonomies × one tag × two units × one observation give four rows, taxonomy by taxonomy and unit by unit within each |

## Left out

- HTTP: the requests, the `User-Agent` header and the URLs (lines 26-27, 51-53, 73-75, 112-114 and 157-159). Each operation takes the parsed document as input.
- JSON text parsing (`.json()`). The model starts from the parsed value.
- pandas releases other than 2.x. The model follows pandas 2.x, where `astype("str")` applies `str()` to every cell, so NaN prints as `nan` and None as `None` (`PyText.CellTextSpec`, `PyText.CikOfMissing`). Under pandas 3.0's default string dtype a missing cell stays missing, and `"CIK" + NaN` is NaN rather than `"CIK0000000nan"`; that behaviour is not modelled.
- The pandas 1.x column order for a single record. pandas 1.x sorted the key list of a lone record when it built the column index, where 2.x keeps the record's own order. The model follows 2.x (`TickerExamples.SingleRecordColumns`, `TickerExamples.TitleFirstColumns`, `TickerExamples.TitleFirstRecord`).
- Numbers are integers. JSON floats and their `str()` text are not modelled, so `parse_cik` on a float CIK is outside the model.
- NaN is represented as `None` rather than as an IEEE float.
- pandas beyond the behaviour each operation relies on: dtype inference, the index and the frame object itself. Each table is a sequence of row records (`Submissions.Table` for the one with dynamic columns).
- Tickers.TickerTable: documents that are not a dict of dicts yield `FormatError`. pandas would accept some of them (a list of records, scalar values) with other layouts that are not modelled.
- Submissions.FromColumns: a `recent` dict holding anything but arrays (scalars that pandas broadcasts, nested dicts), or a `recent` that is not a dict, yields `FormatError`. How pandas treats those is not modelled.
- PyText.Repr: `repr()` of a string is quoted but not escaped. It is used only by `parse_cik` on a non-string, non-numeric CIK cell.
- Dicts that repeat a key. Python's `json` parses such a dict into one entry per key, holding the last value. The model keeps every entry. `Lookup` and `Subscript` return the first value. `Iterate`, `Tickers.Records`, `CompanyConcept.UnitEntries`, `CompanyFacts.TaxonomyEntries`, `CompanyFacts.UnitEntriesOf` and `CompanyFacts.Children` visit every entry, so on such a document the model's row counts, and the `|doc.fields|` of `Tickers.TickerTable`, can exceed Python's. The lemmas that depend on the value stored under a key state `DistinctKeys`. Other lemmas are stated for all documents, including ones that no Python dict can represent.
- The empty `__init__`, the `@classmethod` packaging and the `header_email` parameter (lines 12-13 and 38-53). They play no part in the reshaping.
