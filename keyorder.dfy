/** Python's ordering of `str` values and `sorted()` of a dict's keys, which
    pandas' `DataFrame.from_records` applies when it is handed a dict: it
    orders the dict's entries (its future columns) by key. */
module KeyOrder {
  import opened Json

  /** Python's `a <= b` on strings: code points compared left to right, a
      proper prefix before its extensions. */
  predicate StrLe(a: string, b: string) {
    if a == [] then true
    else if b == [] then false
    else if a[0] != b[0] then a[0] < b[0]
    else StrLe(a[1..], b[1..])
  }

  lemma {:induction false} StrLeTotal(a: string, b: string)
    ensures StrLe(a, b) || StrLe(b, a)
  {
    if a != [] && b != [] && a[0] == b[0] {
      StrLeTotal(a[1..], b[1..]);
    }
  }

  lemma {:induction false} StrLeTransitive(a: string, b: string, c: string)
    requires StrLe(a, b) && StrLe(b, c)
    ensures StrLe(a, c)
  {
    if a != [] && b != [] && c != [] && a[0] == b[0] && b[0] == c[0] {
      StrLeTransitive(a[1..], b[1..], c[1..]);
    }
  }

  /** A proper prefix sorts before its extensions. */
  lemma {:induction false} StrLePrefix(a: string, b: string)
    ensures StrLe(a, a + b)
    ensures b != [] ==> !StrLe(a + b, a)
  {
    if a != [] {
      assert (a + b)[0] == a[0] && (a + b)[1..] == a[1..] + b;
      StrLePrefix(a[1..], b);
    }
  }

  ghost predicate SortedByKey(entries: seq<Entry>) {
    forall i, j :: 0 <= i < j < |entries| ==> StrLe(entries[i].0, entries[j].0)
  }

  /** Every key of `entries` is at least `k`. */
  ghost predicate AllFrom(k: string, entries: seq<Entry>) {
    forall j :: 0 <= j < |entries| ==> StrLe(k, entries[j].0)
  }

  lemma SortedCons(e: Entry, entries: seq<Entry>)
    requires SortedByKey(entries) && AllFrom(e.0, entries)
    ensures SortedByKey([e] + entries)
  {
    var r := [e] + entries;
    forall i, j | 0 <= i < j < |r| ensures StrLe(r[i].0, r[j].0) {
      assert r[j] == entries[j - 1];
      if i > 0 { assert r[i] == entries[i - 1]; }
    }
  }

  lemma SortedTail(entries: seq<Entry>)
    requires SortedByKey(entries) && entries != []
    ensures SortedByKey(entries[1..]) && AllFrom(entries[0].0, entries[1..])
  {
    forall i, j | 0 <= i < j < |entries[1..]| ensures StrLe(entries[1..][i].0, entries[1..][j].0) {
      assert entries[1..][i] == entries[i + 1] && entries[1..][j] == entries[j + 1];
    }
    forall j | 0 <= j < |entries[1..]| ensures StrLe(entries[0].0, entries[1..][j].0) {
      assert entries[1..][j] == entries[j + 1];
    }
  }

  lemma AllFromPermutation(k: string, a: seq<Entry>, b: seq<Entry>)
    requires AllFrom(k, a) && multiset(b) <= multiset(a)
    ensures AllFrom(k, b)
  {
    forall j | 0 <= j < |b| ensures StrLe(k, b[j].0) {
      assert b[j] in multiset(b);
      assert b[j] in multiset(a);
      var i :| 0 <= i < |a| && a[i] == b[j];
    }
  }

  /** An entry of one of two permutations of each other is in the other. */
  lemma PermutedMember(a: seq<Entry>, b: seq<Entry>, i: nat)
    requires multiset(a) == multiset(b) && i < |a|
    ensures exists p :: 0 <= p < |b| && b[p] == a[i]
  {
    assert a[i] in multiset(b);
  }

  /** Places `e` before the first entry whose key is not below its own. */
  function Insert(e: Entry, sorted: seq<Entry>): (r: seq<Entry>)
    requires SortedByKey(sorted)
    ensures SortedByKey(r)
    ensures multiset(r) == multiset(sorted) + multiset{e}
  {
    if sorted == [] then [e]
    else if StrLe(e.0, sorted[0].0) then
      SortedTail(sorted);
      assert AllFrom(e.0, sorted) by {
        forall j | 0 <= j < |sorted| ensures StrLe(e.0, sorted[j].0) {
          if j > 0 {
            assert sorted[j] == sorted[1..][j - 1];
            StrLeTransitive(e.0, sorted[0].0, sorted[j].0);
          }
        }
      }
      SortedCons(e, sorted);
      [e] + sorted
    else
      SortedTail(sorted);
      var rest := Insert(e, sorted[1..]);
      StrLeTotal(e.0, sorted[0].0);
      assert AllFrom(sorted[0].0, sorted[1..] + [e]);
      AllFromPermutation(sorted[0].0, sorted[1..] + [e], rest);
      SortedCons(sorted[0], rest);
      assert sorted == [sorted[0]] + sorted[1..];
      [sorted[0]] + rest
  }

  /** `sorted()` by key, as an insertion sort: stable, so entries with equal
      keys keep their order. */
  function SortByKey(entries: seq<Entry>): (r: seq<Entry>)
    ensures SortedByKey(r)
    ensures multiset(r) == multiset(entries)
    ensures |r| == |entries|
  {
    if entries == [] then []
    else
      assert entries == [entries[0]] + entries[1..];
      Insert(entries[0], SortByKey(entries[1..]))
  }

  /** Sorting leaves the entries as they are exactly when their keys are
      already in order. */
  lemma {:induction false} SortByKeyIdentity(entries: seq<Entry>)
    ensures SortByKey(entries) == entries <==> SortedByKey(entries)
  {
    if entries != [] && SortedByKey(entries) {
      SortedTail(entries);
      SortByKeyIdentity(entries[1..]);
      if |entries| > 1 {
        assert StrLe(entries[0].0, entries[1].0);
      }
      assert entries == [entries[0]] + entries[1..];
    }
  }

  /** Python compares keys as text, not as numbers: the entry keyed "10"
      sorts before the one keyed "2". */
  lemma SortIsTextual(a: JValue, b: JValue)
    ensures SortByKey([("2", a), ("10", b)]) == [("10", b), ("2", a)]
  {
    assert !StrLe("2", "10");
    assert StrLe("10", "2");
  }
}
