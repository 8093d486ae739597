/** Parsed JSON as Python's json module hands it over, and the few Python
    operations the reshaping code applies to it: `d[k]`, `d.get(k, nan)`,
    `d.items()` and iteration with `for x in v`. */
module Json {

  datatype Option<+T> = None | Some(value: T)

  /** A parsed JSON value. An object keeps its entries in document order,
      because Python dicts iterate in insertion order and the row order of
      every table depends on it. Numbers are integers. */
  datatype JValue =
    | JNull
    | JBool(b: bool)
    | JNum(n: int)
    | JStr(s: string)
    | JArr(items: seq<JValue>)
    | JObj(fields: seq<Entry>)

  type Entry = (string, JValue)

  /** The Python exceptions the reshaping code can raise on an unexpected
      document. FormatError stands for document shapes that pandas would
      treat in a way this model does not follow. */
  datatype PyError =
    | KeyError(key: string)
    | TypeError
    | AttributeError
    | ValueError
    | FormatError

  /** Either a value or the exception that aborted the whole call. */
  datatype Result<+T> = Ok(value: T) | Err(error: PyError) {
    predicate IsFailure() {
      Err?
    }

    function PropagateFailure<U>(): Result<U>
      requires Err?
    {
      Err(error)
    }

    function Extract(): T
      requires Ok?
    {
      value
    }
  }

  /** The keys of an object, in order. */
  function Keys(fields: seq<Entry>): (ks: seq<string>)
    ensures |ks| == |fields|
    ensures forall i :: 0 <= i < |fields| ==> ks[i] == fields[i].0
  {
    if fields == [] then [] else [fields[0].0] + Keys(fields[1..])
  }

  /** `key in d`: some entry of the dict has that key. */
  predicate HasKey(fields: seq<Entry>, key: string) {
    fields != [] && (fields[0].0 == key || HasKey(fields[1..], key))
  }

  /** The membership test agrees with the list of keys. */
  lemma {:induction false} HasKeyIn(fields: seq<Entry>, key: string)
    ensures HasKey(fields, key) <==> key in Keys(fields)
  {
    if fields != [] {
      HasKeyIn(fields[1..], key);
      assert Keys(fields) == [fields[0].0] + Keys(fields[1..]);
    }
  }

  /** A key stored at some position is in the dict. */
  lemma {:induction false} HasKeyAt(fields: seq<Entry>, i: nat)
    requires i < |fields|
    ensures HasKey(fields, fields[i].0)
  {
    if i > 0 {
      assert fields[1..][i - 1] == fields[i];
      HasKeyAt(fields[1..], i - 1);
    }
  }

  /** A Python dict never holds a key twice. */
  ghost predicate DistinctKeys(fields: seq<Entry>) {
    forall i, j :: 0 <= i < j < |fields| ==> fields[i].0 != fields[j].0
  }

  /** The value stored under `key`, or None when the key is absent. */
  function Lookup(fields: seq<Entry>, key: string): (r: Option<JValue>)
    ensures r.None? <==> !HasKey(fields, key)
    ensures r.Some? ==> (key, r.value) in fields
  {
    if fields == [] then None
    else if fields[0].0 == key then Some(fields[0].1)
    else Lookup(fields[1..], key)
  }

  /** When a key occurs more than once, the first occurrence is found. */
  lemma {:induction false} LookupFirst(fields: seq<Entry>, key: string, i: nat)
    requires i < |fields| && fields[i].0 == key
    requires forall j :: 0 <= j < i ==> fields[j].0 != key
    ensures Lookup(fields, key) == Some(fields[i].1)
  {
    if i > 0 {
      assert fields[0].0 != key;
      forall j | 0 <= j < i - 1 ensures fields[1..][j].0 != key {
        assert fields[1..][j] == fields[j + 1];
      }
      LookupFirst(fields[1..], key, i - 1);
    }
  }

  /** In a dict, the value found under a key is the one stored with it. */
  lemma {:induction false} LookupDistinct(fields: seq<Entry>, i: nat)
    requires DistinctKeys(fields)
    requires i < |fields|
    ensures Lookup(fields, fields[i].0) == Some(fields[i].1)
  {
    if i > 0 {
      assert fields[0].0 != fields[i].0;
      assert DistinctKeys(fields[1..]) by {
        forall a, b | 0 <= a < b < |fields[1..]| ensures fields[1..][a].0 != fields[1..][b].0 {
          assert fields[1..][a] == fields[a + 1] && fields[1..][b] == fields[b + 1];
        }
      }
      LookupDistinct(fields[1..], i - 1);
      assert fields[1..][i - 1] == fields[i];
    }
  }

  /** `v.get(key, nan)`: the stored value, or None (NaN) when absent. */
  function Get(v: JValue, key: string): Option<JValue>
    requires v.JObj?
  {
    Lookup(v.fields, key)
  }

  /** `v[key]`: KeyError for a missing key of a dict, TypeError when `v` is
      not a dict (a list, a string, a number, None or a bool). */
  function Subscript(v: JValue, key: string): (r: Result<JValue>)
    ensures r.Ok? <==> v.JObj? && HasKey(v.fields, key)
    ensures r.Ok? ==> (key, r.value) in v.fields
    ensures v.JObj? && !HasKey(v.fields, key) ==> r == Err(KeyError(key))
    ensures !v.JObj? ==> r == Err(TypeError)
  {
    match v
    case JObj(fields) =>
      (match Lookup(fields, key)
       case Some(x) => Ok(x)
       case None => Err(KeyError(key)))
    case _ => Err(TypeError)
  }

  /** `v.items()`: only a dict has it. */
  function Items(v: JValue): Result<seq<Entry>> {
    if v.JObj? then Ok(v.fields) else Err(AttributeError)
  }

  /** The entries of `v` when it is a dict, none otherwise. */
  function ItemsOr(v: JValue): seq<Entry> {
    if v.JObj? then v.fields else []
  }

  /** What `for x in v` visits: a list's elements, a dict's keys, a string's
      characters (as one-character strings); anything else is not iterable. */
  function Iterate(v: JValue): (r: Result<seq<JValue>>)
    ensures r.Ok? <==> v.JArr? || v.JObj? || v.JStr?
    ensures v.JArr? ==> r == Ok(v.items)
    ensures v.JObj? ==> |r.value| == |v.fields| && forall i :: 0 <= i < |v.fields| ==> r.value[i] == JStr(v.fields[i].0)
    ensures v.JStr? ==> |r.value| == |v.s| && forall i :: 0 <= i < |v.s| ==> r.value[i] == JStr([v.s[i]])
  {
    match v
    case JArr(xs) => Ok(xs)
    case JObj(fields) => Ok(seq(|fields|, i requires 0 <= i < |fields| => JStr(fields[i].0)))
    case JStr(s) => Ok(seq(|s|, i requires 0 <= i < |s| => JStr([s[i]])))
    case _ => Err(TypeError)
  }

  /** How many elements `for x in v` visits (zero when `v` is not iterable). */
  function IterLength(v: JValue): nat {
    match Iterate(v)
    case Ok(xs) => |xs|
    case Err(_) => 0
  }

  ghost predicate HasKeys(fields: seq<Entry>, names: seq<string>) {
    forall n :: 0 <= n < |names| ==> HasKey(fields, names[n])
  }

  /** `names[n]` is the first of `names` that `fields` lacks. */
  ghost predicate FirstMissing(fields: seq<Entry>, names: seq<string>, n: nat) {
    n < |names| && !HasKey(fields, names[n]) && forall m :: 0 <= m < n ==> HasKey(fields, names[m])
  }

  /** `v[names[0]], v[names[1]], ...` evaluated left to right, as the
      entries of a dict literal are: the first missing key raises. */
  function SubscriptAll(v: JValue, names: seq<string>): (r: Result<seq<JValue>>)
    ensures r.Ok? ==> |r.value| == |names|
  {
    if names == [] then Ok([])
    else
      var x :- Subscript(v, names[0]);
      var xs :- SubscriptAll(v, names[1..]);
      Ok([x] + xs)
  }

  /** The lookups succeed exactly when the dict has every name, then give
      the value under each name in turn; otherwise the first missing name
      is the KeyError raised, and a non-dict raises TypeError. */
  lemma {:induction false} SubscriptAllSpec(v: JValue, names: seq<string>)
    ensures var r := SubscriptAll(v, names);
            && (r.Ok? <==> names == [] || (v.JObj? && HasKeys(v.fields, names)))
            && (r.Ok? ==> forall n :: 0 <= n < |names| ==> Subscript(v, names[n]) == Ok(r.value[n]))
            && (v.JObj? ==> forall n: nat :: FirstMissing(v.fields, names, n) ==> r == Err(KeyError(names[n])))
            && (!v.JObj? && names != [] ==> r == Err(TypeError))
  {
    if names != [] && v.JObj? && HasKey(v.fields, names[0]) {
      FirstMissingShift(v.fields, names);
      SubscriptAllSpec(v, names[1..]);
    }
  }

  lemma FirstMissingShift(fields: seq<Entry>, names: seq<string>)
    requires names != [] && HasKey(fields, names[0])
    ensures forall n :: 1 <= n < |names| ==> names[n] == names[1..][n - 1]
    ensures HasKeys(fields, names) <==> HasKeys(fields, names[1..])
    ensures forall n: nat :: FirstMissing(fields, names, n) ==> n > 0 && FirstMissing(fields, names[1..], n - 1)
  {
    assert forall n :: 1 <= n < |names| ==> names[n] == names[1..][n - 1];
    forall n: nat | FirstMissing(fields, names, n) ensures n > 0 && FirstMissing(fields, names[1..], n - 1) {
      forall m | 0 <= m < n - 1 ensures HasKey(fields, names[1..][m]) {
        assert names[1..][m] == names[m + 1];
      }
    }
  }
}
