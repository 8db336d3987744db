/** The tile traversal shared by the three pipelines: offsets step through
    `range(0, n, b)` along each axis, and the extent of a tile is the nominal
    block size b except for the last tile, which is clipped to `n - offset`. */
module Tiling {
  import opened Arith

  /** Extent of the tile at `offset` along an axis of n cells with block size b
      (`lines` for rows, `cols` for columns). */
  function Extent(n: nat, b: nat, offset: nat): (e: nat)
    requires 0 < b && offset < n
    ensures 0 < e <= b && offset + e <= n
    ensures e < b ==> offset + e == n
  {
    if offset + b < n then b else n - offset
  }

  /** `range(from, n, b)`: the offsets a loop `for i in range(from, n, b)` visits. */
  function Offsets(n: nat, b: nat, from: nat): (os: seq<nat>)
    requires 0 < b
    ensures forall k :: 0 <= k < |os| ==> from <= os[k] < n
    decreases n - from
  {
    if from < n then [from] + Offsets(n, b, from + b) else []
  }

  /** The k-th offset is from + k * b, and the offsets stop at the first value not below n. */
  lemma {:induction false} OffsetsArithmetic(n: nat, b: nat, from: nat)
    requires 0 < b
    ensures var os := Offsets(n, b, from);
            (forall k :: 0 <= k < |os| ==> os[k] == from + k * b) &&
            (from < n <==> |os| > 0) &&
            (|os| > 0 ==> n <= os[|os| - 1] + b)
    decreases n - from
  {
    if from < n {
      OffsetsArithmetic(n, b, from + b);
      var os := Offsets(n, b, from);
      forall k | 0 < k < |os|
        ensures os[k] == from + k * b
      {
        assert os[k] == Offsets(n, b, from + b)[k - 1];
        assert (k - 1) * b + b == k * b;
      }
    }
  }

  /** Every cell x in [from, n) lies in the tile of some visited offset. */
  lemma {:induction false} Covered(n: nat, b: nat, from: nat, x: nat)
    requires 0 < b && from <= x < n
    ensures exists k :: 0 <= k < |Offsets(n, b, from)| &&
                        Offsets(n, b, from)[k] <= x < Offsets(n, b, from)[k] + Extent(n, b, Offsets(n, b, from)[k])
    decreases n - from
  {
    var os := Offsets(n, b, from);
    if x < from + b {
      assert os[0] == from;
    } else {
      Covered(n, b, from + b, x);
      var k :| 0 <= k < |Offsets(n, b, from + b)| &&
               Offsets(n, b, from + b)[k] <= x < Offsets(n, b, from + b)[k] + Extent(n, b, Offsets(n, b, from + b)[k]);
      assert os[k + 1] == Offsets(n, b, from + b)[k];
    }
  }

  /** A tile ends at or before the start of every later tile. */
  lemma {:induction false} Disjoint(n: nat, b: nat, from: nat)
    requires 0 < b
    ensures var os := Offsets(n, b, from);
            forall p, q :: 0 <= p < q < |os| ==> os[p] + Extent(n, b, os[p]) <= os[q]
    decreases n - from
  {
    if from < n {
      Disjoint(n, b, from + b);
      var os := Offsets(n, b, from);
      forall p, q | 0 <= p < q < |os|
        ensures os[p] + Extent(n, b, os[p]) <= os[q]
      {
        assert os[q] == Offsets(n, b, from + b)[q - 1];
        if p > 0 {
          assert os[p] == Offsets(n, b, from + b)[p - 1];
        }
      }
    }
  }

  /** Tiling coverage: every cell of [0, n) lies in exactly one tile of the traversal. */
  lemma ExactlyOneTile(n: nat, b: nat, x: nat)
    requires 0 < b && x < n
    ensures var os := Offsets(n, b, 0);
            (exists k :: 0 <= k < |os| && os[k] <= x < os[k] + Extent(n, b, os[k])) &&
            (forall p, q ::
               (0 <= p < |os| && 0 <= q < |os| &&
                os[p] <= x < os[p] + Extent(n, b, os[p]) &&
                os[q] <= x < os[q] + Extent(n, b, os[q])) ==> p == q)
  {
    Covered(n, b, 0, x);
    Disjoint(n, b, 0);
  }

  /** The last tile has extent n mod b, or b when b divides n. */
  lemma LastExtent(n: nat, b: nat)
    requires 0 < b && 0 < n
    ensures var os := Offsets(n, b, 0);
            |os| > 0 && Extent(n, b, os[|os| - 1]) == if n % b == 0 then b else n % b
  {
    OffsetsArithmetic(n, b, 0);
    var os := Offsets(n, b, 0);
    var last := os[|os| - 1];
    assert last == (|os| - 1) * b;
    var e := Extent(n, b, last);
    assert n == last + e;
    if e == b {
      DivModUnique(n, b, |os|, 0);
    } else {
      DivModUnique(n, b, |os| - 1, e);
    }
  }

  /** Start of the tile of size b that holds cell x when tiles are aligned on multiples of b. */
  function TileStart(x: nat, b: nat): (s: nat)
    requires 0 < b
    ensures s <= x < s + b
  {
    x - x % b
  }

  /** Every cell of the tile at an aligned offset i names i as its tile start. */
  lemma TileStartOfAligned(x: nat, b: nat, i: nat)
    requires 0 < b && i % b == 0 && i <= x < i + b
    ensures TileStart(x, b) == i
  {
    AlignedStart(x, b, i);
  }

  /** The tile start of a cell is an offset the traversal from 0 visits, is aligned on b,
      and its tile holds the cell. */
  lemma {:induction false} TileStartIsVisited(n: nat, b: nat, x: nat)
    requires 0 < b && x < n
    ensures TileStart(x, b) in Offsets(n, b, 0)
    ensures TileStart(x, b) % b == 0
    ensures x < TileStart(x, b) + Extent(n, b, TileStart(x, b))
  {
    OffsetsArithmetic(n, b, 0);
    var os := Offsets(n, b, 0);
    Covered(n, b, 0, x);
    var k :| 0 <= k < |os| && os[k] <= x < os[k] + Extent(n, b, os[k]);
    DivModUnique(os[k], b, k, 0);
    TileStartOfAligned(x, b, os[k]);
  }

  /** A 1000 x 777 raster with 256 x 256 blocks: rows at 0, 256, 512, 768 of heights
      256, 256, 256, 9; columns at the same offsets of widths 256, 256, 256, 232. */
  lemma Scenario1000By777()
    ensures Offsets(777, 256, 0) == [0, 256, 512, 768]
    ensures Extent(777, 256, 0) == 256 && Extent(777, 256, 512) == 256 && Extent(777, 256, 768) == 9
    ensures Offsets(1000, 256, 0) == [0, 256, 512, 768]
    ensures Extent(1000, 256, 768) == 232
  {
    assert Offsets(777, 256, 1024) == [];
    assert Offsets(1000, 256, 1024) == [];
  }
}
