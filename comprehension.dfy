/** The evaluation of Python list comprehensions whose element expression
    may raise: `[f(x) for x in xs]` and the nested
    `[e for x in xs for e in g(x)]`. Elements are produced in iteration
    order and the first exception aborts the whole comprehension. */
module Comprehension {
  import opened Json

  /** `[f(x) for x in xs]`: the first failing element decides the error. */
  function MapResult<A, B>(f: A -> Result<B>, xs: seq<A>): Result<seq<B>> {
    if xs == [] then Ok([])
    else
      var y :- f(xs[0]);
      var ys :- MapResult(f, xs[1..]);
      Ok([y] + ys)
  }

  /** The comprehension succeeds exactly when every element does; it then
      holds one result per element, in order; otherwise its error is the
      one of the first failing element. */
  lemma {:induction false} MapResultSpec<A, B>(f: A -> Result<B>, xs: seq<A>)
    ensures MapResult(f, xs).Ok? <==> forall i :: 0 <= i < |xs| ==> f(xs[i]).Ok?
    ensures MapResult(f, xs).Ok? ==>
              |MapResult(f, xs).value| == |xs| && forall i :: 0 <= i < |xs| ==> f(xs[i]) == Ok(MapResult(f, xs).value[i])
    ensures MapResult(f, xs).Err? ==> exists i :: 0 <= i < |xs| && f(xs[i]) == Err(MapResult(f, xs).error)
                                                && forall j :: 0 <= j < i ==> f(xs[j]).Ok?
  {
    if xs != [] {
      MapResultSpec(f, xs[1..]);
      assert forall i :: 1 <= i < |xs| ==> xs[i] == xs[1..][i - 1];
      if f(xs[0]).Ok? && MapResult(f, xs[1..]).Err? {
        var i :| 0 <= i < |xs[1..]| && f(xs[1..][i]) == Err(MapResult(f, xs[1..]).error)
                 && forall j :: 0 <= j < i ==> f(xs[1..][j]).Ok?;
        assert f(xs[i + 1]) == Err(MapResult(f, xs).error);
      }
    }
  }

  /** The blocks laid end to end. */
  function Concat<T>(blocks: seq<seq<T>>): seq<T> {
    if blocks == [] then [] else blocks[0] + Concat(blocks[1..])
  }

  /** The sum of the block lengths. */
  function TotalLength<T>(blocks: seq<seq<T>>): nat {
    if blocks == [] then 0 else |blocks[0]| + TotalLength(blocks[1..])
  }

  /** The sum of `count` over `xs`. */
  function SumOf<A>(count: A -> nat, xs: seq<A>): nat {
    if xs == [] then 0 else count(xs[0]) + SumOf(count, xs[1..])
  }

  /** A sum of naturals is positive exactly when one of its terms is. */
  lemma {:induction false} SumOfPositive<A>(count: A -> nat, xs: seq<A>)
    ensures SumOf(count, xs) > 0 <==> exists i :: 0 <= i < |xs| && count(xs[i]) > 0
  {
    if xs != [] {
      SumOfPositive(count, xs[1..]);
      if SumOf(count, xs[1..]) > 0 {
        var i :| 0 <= i < |xs[1..]| && count(xs[1..][i]) > 0;
        assert count(xs[i + 1]) > 0;
      }
      forall i | 1 <= i < |xs| && count(xs[i]) > 0 ensures SumOf(count, xs[1..]) > 0 {
        assert xs[1..][i - 1] == xs[i];
      }
    }
  }

  /** Concatenating the blocks keeps every element of every block. */
  lemma {:induction false} ConcatLength<T>(blocks: seq<seq<T>>)
    ensures |Concat(blocks)| == TotalLength(blocks)
  {
    if blocks != [] {
      ConcatLength(blocks[1..]);
    }
  }

  /** Element `j` of block `i` sits after all elements of the blocks before it. */
  lemma {:induction false} ConcatAt<T>(blocks: seq<seq<T>>, i: nat, j: nat)
    requires i < |blocks| && j < |blocks[i]|
    ensures TotalLength(blocks[..i]) + j < |Concat(blocks)|
    ensures Concat(blocks)[TotalLength(blocks[..i]) + j] == blocks[i][j]
  {
    ConcatLength(blocks);
    if i > 0 {
      ConcatAt(blocks[1..], i - 1, j);
      assert blocks[1..][i - 1] == blocks[i];
      assert blocks[..i][1..] == blocks[1..][..i - 1];
      ConcatLength(blocks[1..]);
    }
  }

  /** When block `i` has `count(xs[i])` elements, the blocks before `u` hold
      the sum of `count` over the items before `u`. */
  lemma {:induction false} TotalLengthPrefix<A, B>(blocks: seq<seq<B>>, xs: seq<A>, count: A -> nat, u: nat)
    requires |blocks| == |xs| && u <= |xs|
    requires forall i :: 0 <= i < |xs| ==> |blocks[i]| == count(xs[i])
    ensures TotalLength(blocks[..u]) == SumOf(count, xs[..u])
  {
    if u > 0 {
      TotalLengthPrefix(blocks[1..], xs[1..], count, u - 1);
      assert blocks[..u][1..] == blocks[1..][..u - 1];
      assert xs[..u][1..] == xs[1..][..u - 1];
    }
  }

  /** `[e for x in xs for e in g(x)]`, where computing `g(x)` may raise. */
  function FlatMapResult<A, B>(g: A -> Result<seq<B>>, xs: seq<A>): Result<seq<B>> {
    var blocks :- MapResult(g, xs);
    Ok(Concat(blocks))
  }

  /** The flattening succeeds exactly when every block is built; otherwise
      its error is the one of the first block that fails. */
  lemma {:induction false} FlatMapResultSpec<A, B>(g: A -> Result<seq<B>>, xs: seq<A>)
    ensures FlatMapResult(g, xs).Ok? <==> forall i :: 0 <= i < |xs| ==> g(xs[i]).Ok?
    ensures FlatMapResult(g, xs).Err? ==> exists i :: 0 <= i < |xs| && g(xs[i]) == Err(FlatMapResult(g, xs).error)
                                                    && forall j :: 0 <= j < i ==> g(xs[j]).Ok?
  {
    MapResultSpec(g, xs);
  }

  /** Each item's block, when it is built, holds `count` of the item rows. */
  ghost predicate BlockLengths<A, B>(g: A -> Result<seq<B>>, xs: seq<A>, count: A -> nat) {
    forall i :: 0 <= i < |xs| ==> g(xs[i]).Ok? ==> |g(xs[i]).value| == count(xs[i])
  }

  /** A flattening holds the sum of its blocks' lengths, `count` giving the
      length of each item's block. */
  lemma {:induction false} FlatMapResultLength<A, B>(g: A -> Result<seq<B>>, xs: seq<A>, count: A -> nat, rows: seq<B>)
    requires FlatMapResult(g, xs) == Ok(rows)
    requires BlockLengths(g, xs, count)
    ensures |rows| == SumOf(count, xs)
  {
    MapResultSpec(g, xs);
    var blocks := MapResult(g, xs).value;
    assert rows == Concat(blocks);
    ConcatLength(blocks);
    TotalLengthPrefix(blocks, xs, count, |xs|);
    assert xs[..|xs|] == xs && blocks[..|blocks|] == blocks;
  }

  /** Element `p` of `rows` is element `j` of `block`. */
  ghost predicate SameAt<T>(rows: seq<T>, p: nat, block: seq<T>, j: nat) {
    p < |rows| && j < |block| && rows[p] == block[j]
  }

  lemma SameAtTrans<T>(rows: seq<T>, p: nat, middle: seq<T>, i: nat, block: seq<T>, j: nat)
    requires SameAt(rows, p, middle, i) && SameAt(middle, i, block, j)
    ensures SameAt(rows, p, block, j)
  {
  }

  /** An element of `first` keeps its position in `rows == first + rest`. */
  lemma SameAtPrefix<T>(rows: seq<T>, first: seq<T>, rest: seq<T>, p: nat, j: nat)
    requires rows == first + rest
    requires p == j && j < |first|
    ensures SameAt(rows, p, first, j)
  {
  }

  /** An element of `rest` sits `|first|` positions later in
      `rows == first + rest`. */
  lemma SameAtSuffix<T>(rows: seq<T>, first: seq<T>, rest: seq<T>, p: nat, k: nat, block: seq<T>, j: nat)
    requires rows == first + rest
    requires p == |first| + k && SameAt(rest, k, block, j)
    ensures SameAt(rows, p, block, j)
  {
  }

  /** The rows of a flattening sit block after block: element `j` of item
      `u`'s block comes right after the blocks of the items before `u`. */
  lemma {:induction false} FlatMapResultAt<A, B>(g: A -> Result<seq<B>>, xs: seq<A>, count: A -> nat, rows: seq<B>,
                                                u: nat, j: nat)
    requires FlatMapResult(g, xs) == Ok(rows)
    requires BlockLengths(g, xs, count)
    requires u < |xs| && j < count(xs[u])
    ensures g(xs[u]).Ok? && SameAt(rows, SumOf(count, xs[..u]) + j, g(xs[u]).value, j)
  {
    MapResultSpec(g, xs);
    var blocks := MapResult(g, xs).value;
    assert rows == Concat(blocks);
    assert g(xs[u]) == Ok(blocks[u]);
    TotalLengthPrefix(blocks, xs, count, u);
    ConcatAt(blocks, u, j);
  }

  /** Every element of a concatenation comes from one of the blocks. */
  lemma {:induction false} ConcatMember<T>(blocks: seq<seq<T>>, p: nat)
    requires p < |Concat(blocks)|
    ensures exists i, j :: 0 <= i < |blocks| && 0 <= j < |blocks[i]| && Concat(blocks)[p] == blocks[i][j]
  {
    if p < |blocks[0]| {
      assert Concat(blocks)[p] == blocks[0][p];
    } else {
      ConcatMember(blocks[1..], p - |blocks[0]|);
      var i, j :| 0 <= i < |blocks[1..]| && 0 <= j < |blocks[1..][i]|
                  && Concat(blocks[1..])[p - |blocks[0]|] == blocks[1..][i][j];
      assert Concat(blocks)[p] == blocks[i + 1][j];
    }
  }

  /** Every row of a flattening is a row of some item's block. */
  lemma FlatMapResultMember<A, B>(g: A -> Result<seq<B>>, xs: seq<A>, rows: seq<B>, p: nat)
    requires FlatMapResult(g, xs) == Ok(rows)
    requires p < |rows|
    ensures exists u, j :: 0 <= u < |xs| && g(xs[u]).Ok? && 0 <= j < |g(xs[u]).value| && rows[p] == g(xs[u]).value[j]
  {
    MapResultSpec(g, xs);
    var blocks := MapResult(g, xs).value;
    assert rows == Concat(blocks);
    ConcatMember(blocks, p);
    var u, j :| 0 <= u < |blocks| && 0 <= j < |blocks[u]| && rows[p] == blocks[u][j];
    assert g(xs[u]) == Ok(blocks[u]);
  }
}
