/** The per-observation columns shared by the company-concept and
    company-facts tables: eight `row_list.get(name, np.nan)` lookups. */
module Observations {
  import opened Json

  /** The observation part of a row; None stands for NaN. */
  datatype Observation = Observation(
    end: Option<JValue>,
    val: Option<JValue>,
    accn: Option<JValue>,
    fy: Option<JValue>,
    fp: Option<JValue>,
    form: Option<JValue>,
    filed: Option<JValue>,
    frame: Option<JValue>)

  /** A cell filled from `row.get(name, nan)`: the value stored under `name`
      when the dict has that key, the missing marker otherwise. */
  ghost predicate CopiedOrMissing(fields: seq<Entry>, name: string, cell: Option<JValue>) {
    if HasKey(fields, name) then cell.Some? && (name, cell.value) in fields else cell == None
  }

  ghost predicate ObservationFrom(fields: seq<Entry>, obs: Observation) {
    && CopiedOrMissing(fields, "end", obs.end)
    && CopiedOrMissing(fields, "val", obs.val)
    && CopiedOrMissing(fields, "accn", obs.accn)
    && CopiedOrMissing(fields, "fy", obs.fy)
    && CopiedOrMissing(fields, "fp", obs.fp)
    && CopiedOrMissing(fields, "form", obs.form)
    && CopiedOrMissing(fields, "filed", obs.filed)
    && CopiedOrMissing(fields, "frame", obs.frame)
  }

  /** The observation columns of one row (SEC_API.py lines 85-92 and
      124-131). `.get` exists only on a dict: anything else raises
      AttributeError. */
  function ObservationOf(o: JValue): (r: Result<Observation>)
    ensures r.Ok? <==> o.JObj?
    ensures !o.JObj? ==> r == Err(AttributeError)
    ensures r.Ok? ==> ObservationFrom(o.fields, r.value)
  {
    if !o.JObj? then Err(AttributeError)
    else
      Ok(Observation(Get(o, "end"), Get(o, "val"), Get(o, "accn"), Get(o, "fy"),
                     Get(o, "fp"), Get(o, "form"), Get(o, "filed"), Get(o, "frame")))
  }

  /** The number of observations listed under one unit. */
  function UnitLength(unit: Entry): nat {
    IterLength(unit.1)
  }
}
