/** Model of iterators_generators.py: `slice_range(start, end, n_each)`, the
    generator that divides the closed integer range [start, end] into
    consecutive closed intervals of `n_each` integers, the residual interval
    last.  The generator is modelled by the finite sequence it yields. */
module IteratorsGenerators {
  import opened Errors

  /** A closed interval (low, high) of integers, as the generator yields it. */
  type Interval = (int, int)

  /** The message of the assertion that guards the arguments. */
  const BadArguments := "These values do not fit together!"

  /** Number of integers in a closed interval. */
  function Size(iv: Interval): int
  {
    iv.1 - iv.0 + 1
  }

  /** `r` divides [start, end] into non-empty, contiguous closed intervals,
      the first starting at `start` and the last ending at `end`. */
  predicate Tiles(r: seq<Interval>, start: int, end: int)
  {
    && |r| >= 1
    && r[0].0 == start
    && r[|r| - 1].1 == end
    && (forall j :: 0 <= j < |r| ==> r[j].0 <= r[j].1)
    && (forall j, k :: 0 <= j < |r| && 0 <= k < |r| && k == j + 1 ==> r[k].0 == r[j].1 + 1)
  }

  /** Every interval but the last holds exactly `n` integers; the last holds
      between 1 and `n`. */
  predicate ChunkSizes(r: seq<Interval>, n: int)
  {
    && (forall j :: 0 <= j < |r| - 1 ==> Size(r[j]) == n)
    && (|r| >= 1 ==> 1 <= Size(r[|r| - 1]) <= n)
  }

  /** The declarative description of a chunk plan for [start, end] and `n`. */
  predicate IsChunkPlan(r: seq<Interval>, start: int, end: int, n: int)
  {
    Tiles(r, start, end) && ChunkSizes(r, n)
  }

  /** What the generator yields once its cursor is `i`: while `i + n` is still
      inside `range(.., end + 1, ..)` the loop yields `(i, i + n - 1)` and moves
      on by `n`; when the loop is over, the trailing `yield` emits the
      leftover cursor up to `end`. */
  function Slices(i: int, end: int, n: int): (r: seq<Interval>)
    requires i <= end && n > 0
    ensures |r| >= 1 && r[0].0 == i && r[|r| - 1].1 == end
    decreases end - i
  {
    if i + n < end + 1 then [(i, i + n - 1)] + Slices(i + n, end, n)
    else [(i, end)]
  }

  /** What the generator yields is a chunk plan for [i, end]: non-empty,
      contiguous intervals from `i` to `end`, all of `n` integers but the
      last, which holds between 1 and `n`. */
  lemma {:induction false} SlicesIsChunkPlan(i: int, end: int, n: int)
    requires i <= end && n > 0
    ensures IsChunkPlan(Slices(i, end, n), i, end, n)
    decreases end - i
  {
    if i + n < end + 1 {
      SlicesIsChunkPlan(i + n, end, n);
      ChunkPlanCons(Slices(i + n, end, n), i, end, n);
    }
  }

  /** A full-size first interval followed by a chunk plan of the rest of the
      range is a chunk plan of the whole range. */
  lemma ChunkPlanCons(rest: seq<Interval>, start: int, end: int, n: int)
    requires n > 0 && IsChunkPlan(rest, start + n, end, n)
    ensures IsChunkPlan([(start, start + n - 1)] + rest, start, end, n)
  {
    var r := [(start, start + n - 1)] + rest;
    assert r[|r| - 1] == rest[|rest| - 1];
    forall j, k | 0 <= j < |r| && 0 <= k < |r| && k == j + 1
      ensures r[k].0 == r[j].1 + 1
    {
      if j > 0 {
        assert r[k] == rest[k - 1] && r[j] == rest[j - 1];
      }
    }
    forall j | 0 <= j < |r| - 1
      ensures Size(r[j]) == n
    {
      if j > 0 {
        assert r[j] == rest[j - 1];
      }
    }
    forall j | 0 <= j < |r|
      ensures r[j].0 <= r[j].1
    {
      if j > 0 {
        assert r[j] == rest[j - 1];
      }
    }
  }

  /** `list(slice_range(start, end, n_each))`: the assertion fails before
      anything is yielded unless `end >= start and n_each > 0`. */
  function SliceRange(start: int, end: int, nEach: int): (r: Result<seq<Interval>>)
    ensures r.Ok? <==> end >= start && nEach > 0
    ensures r.Ok? ==> IsChunkPlan(r.value, start, end, nEach)
    ensures r.Err? ==> r.error.AssertionError?
  {
    if end >= start && nEach > 0 then
      SlicesIsChunkPlan(start, end, nEach);
      Ok(Slices(start, end, nEach))
    else Err(AssertionError(BadArguments))
  }

  /** The number of intervals is ceil((end - start + 1) / n): `|r| - 1` chunks
      of `n` integers do not reach the range's size, `|r|` chunks do. */
  lemma {:induction false} SlicesCount(i: int, end: int, n: int)
    requires i <= end && n > 0
    ensures (|Slices(i, end, n)| - 1) * n < end - i + 1 <= |Slices(i, end, n)| * n
    decreases end - i
  {
    if i + n < end + 1 {
      var k := |Slices(i + n, end, n)|;
      SlicesCount(i + n, end, n);
      assert |Slices(i, end, n)| == k + 1;
      MulSucc(k, n);
      MulSucc(k - 1, n);
    }
  }

  lemma MulSucc(k: int, n: int)
    ensures (k + 1) * n == k * n + n
  {
  }

  lemma MulAtLeast(k: int, n: int)
    requires k >= 1 && n >= 0
    ensures k * n >= n
  {
  }

  /** When the size of the range is an exact multiple `m` of `n`, there are
      exactly `m` intervals and the last one, emitted by the trailing `yield`,
      is full-size: no empty or duplicate interval is added. */
  lemma {:induction false} SlicesExactMultiple(i: int, end: int, n: int, m: int)
    requires i <= end && n > 0 && m >= 1
    requires end - i + 1 == m * n
    ensures |Slices(i, end, n)| == m
    ensures Slices(i, end, n)[m - 1] == (end - n + 1, end)
    decreases m
  {
    if m == 1 {
      assert Slices(i, end, n) == [(i, end)];
    } else {
      MulSucc(m - 1, n);
      MulAtLeast(m - 1, n);
      var rest := Slices(i + n, end, n);
      SlicesExactMultiple(i + n, end, n, m - 1);
      assert Slices(i, end, n) == [(i, i + n - 1)] + rest;
    }
  }

  /** A range no larger than one chunk yields exactly `[(start, end)]`, and a
      larger one yields more than one interval. */
  lemma SlicesSingle(i: int, end: int, n: int)
    requires i <= end && n > 0
    ensures end - i + 1 <= n <==> Slices(i, end, n) == [(i, end)]
  {
    if end - i + 1 > n {
      assert |Slices(i, end, n)| == 1 + |Slices(i + n, end, n)|;
    }
  }

  /** The intervals of a tiling ascend strictly and do not overlap. */
  lemma {:induction false} TilesOrdered(r: seq<Interval>, start: int, end: int, j1: int, j2: int)
    requires Tiles(r, start, end)
    requires 0 <= j1 < j2 < |r|
    ensures r[j1].1 < r[j2].0
    decreases j2 - j1
  {
    if j1 + 1 < j2 {
      TilesOrdered(r, start, end, j1, j2 - 1);
      assert r[j2 - 1].0 <= r[j2 - 1].1;
    }
  }

  /** Every interval of a tiling of [start, end] lies inside [start, end];
      the next one starts right after it, and the last one ends at `end`. */
  lemma TilesWithin(r: seq<Interval>, start: int, end: int, j: int)
    requires Tiles(r, start, end)
    requires 0 <= j < |r|
    ensures start <= r[j].0 <= r[j].1 <= end
    ensures j + 1 < |r| ==> r[j + 1].0 == r[j].1 + 1
    ensures j + 1 == |r| ==> r[j].1 == end
  {
    if 0 < j {
      TilesOrdered(r, start, end, 0, j);
    }
    if j < |r| - 1 {
      TilesOrdered(r, start, end, j, |r| - 1);
    }
  }

  /** A tiling without its first interval tiles the rest of the range. */
  lemma TilesRest(r: seq<Interval>, start: int, end: int)
    requires Tiles(r, start, end) && |r| >= 2
    ensures Tiles(r[1..], r[0].1 + 1, end)
  {
    var rest := r[1..];
    assert rest[0] == r[1] && rest[|rest| - 1] == r[|r| - 1];
    forall j, k | 0 <= j < |rest| && 0 <= k < |rest| && k == j + 1
      ensures rest[k].0 == rest[j].1 + 1
    {
      assert rest[k] == r[k + 1] && rest[j] == r[j + 1];
    }
  }

  /** A chunk plan without its first, full-size interval is the chunk plan of
      the rest of the range. */
  lemma ChunkPlanRest(r: seq<Interval>, start: int, end: int, n: int)
    requires IsChunkPlan(r, start, end, n) && |r| >= 2
    ensures r[0] == (start, start + n - 1)
    ensures IsChunkPlan(r[1..], start + n, end, n)
  {
    var rest := r[1..];
    assert Size(r[0]) == n;
    TilesRest(r, start, end);
    assert rest[|rest| - 1] == r[|r| - 1];
    forall j | 0 <= j < |rest| - 1
      ensures Size(rest[j]) == n
    {
      assert rest[j] == r[j + 1];
    }
  }

  /** The chunk plan is determined by its description: any sequence of
      intervals that tiles [start, end] with chunks of `n` is the one the
      generator yields. */
  lemma {:induction false} ChunkPlanUnique(r: seq<Interval>, start: int, end: int, n: int)
    requires n > 0 && IsChunkPlan(r, start, end, n)
    ensures start <= end
    ensures r == Slices(start, end, n)
    decreases |r|
  {
    if |r| == 1 {
      assert r[0].0 <= r[0].1 && Size(r[0]) <= n;
    } else {
      var rest := r[1..];
      ChunkPlanRest(r, start, end, n);
      ChunkPlanUnique(rest, start + n, end, n);
      assert start + n < end + 1;
      assert Slices(start, end, n) == [(start, start + n - 1)] + Slices(start + n, end, n);
      assert r == [(start, start + n - 1)] + rest;
    }
  }

  /** The `j`-th interval of a chunk plan starts `j` chunks after `start`. */
  lemma {:induction false} ChunkPlanAt(r: seq<Interval>, start: int, end: int, n: int, j: int)
    requires IsChunkPlan(r, start, end, n)
    requires 0 <= j < |r|
    ensures r[j].0 == start + j * n
    ensures j < |r| - 1 ==> r[j].1 == start + j * n + n - 1
    ensures j == |r| - 1 ==> r[j].1 == end
  {
    if j > 0 {
      ChunkPlanAt(r, start, end, n, j - 1);
      assert Size(r[j - 1]) == n;
      assert r[j].0 == r[j - 1].1 + 1;
      assert j * n == (j - 1) * n + n;
    }
    if j < |r| - 1 {
      assert Size(r[j]) == n;
    }
  }

  /** The integers lo, lo + 1, ..., hi in ascending order. */
  function Ints(lo: int, hi: int): (s: seq<int>)
    ensures |s| == if lo <= hi then hi - lo + 1 else 0
    ensures forall k :: 0 <= k < |s| ==> s[k] == lo + k
  {
    seq(if lo <= hi then hi - lo + 1 else 0, k => lo + k)
  }

  /** The integers covered by the intervals of `r`, interval by interval. */
  function Flatten(r: seq<Interval>): seq<int>
  {
    if r == [] then [] else Ints(r[0].0, r[0].1) + Flatten(r[1..])
  }

  /** A tiling covers [start, end] exactly once and in ascending order: the
      integers of its intervals, taken in turn, are start, start + 1, ..., end. */
  lemma {:induction false} TilesFlatten(r: seq<Interval>, start: int, end: int)
    requires Tiles(r, start, end)
    ensures Flatten(r) == Ints(start, end)
    decreases |r|
  {
    if |r| == 1 {
      assert Flatten(r) == Ints(start, end) + Flatten([]);
    } else {
      var rest := r[1..];
      TilesWithin(r, start, end, 0);
      TilesRest(r, start, end);
      TilesFlatten(rest, r[0].1 + 1, end);
      assert Ints(start, end) == Ints(start, r[0].1) + Ints(r[0].1 + 1, end);
    }
  }

  /** The worked example of the docstring. */
  lemma DocstringExample()
    ensures SliceRange(-1, 7, 4) == Ok([(-1, 2), (3, 6), (7, 7)])
  {
    assert Slices(7, 7, 4) == [(7, 7)];
    assert Slices(3, 7, 4) == [(3, 6)] + Slices(7, 7, 4);
    assert Slices(-1, 7, 4) == [(-1, 2)] + Slices(3, 7, 4);
    assert Slices(-1, 7, 4) == [(-1, 2), (3, 6), (7, 7)];
  }

  /** A range smaller than one chunk, an exact multiple, and the two ways the
      assertion fails. */
  lemma BoundaryExamples()
    ensures SliceRange(0, 3, 4) == Ok([(0, 3)])
    ensures SliceRange(1, 8, 4) == Ok([(1, 4), (5, 8)])
    ensures SliceRange(5, 2, 4) == Err(AssertionError(BadArguments))
    ensures SliceRange(0, 10, 0) == Err(AssertionError(BadArguments))
  {
    assert Slices(5, 8, 4) == [(5, 8)];
    assert Slices(1, 8, 4) == [(1, 4)] + Slices(5, 8, 4);
    assert Slices(1, 8, 4) == [(1, 4), (5, 8)];
  }
}
