/** Facts about multiplication, Euclidean division and remainder that the
    row-major flattening of tiles and the alignment of tile offsets rest on. */
module Arith {

  lemma MulMonotone(a: int, b: int, c: nat)
    requires a <= b
    ensures a * c <= b * c
  {
    assert b * c - a * c == (b - a) * c;
  }

  /** Cell (r, c) of a lines x cols block has a row-major index below lines * cols. */
  lemma FlatBound(r: nat, c: nat, lines: nat, cols: nat)
    requires r < lines && c < cols
    ensures r * cols + c < lines * cols
  {
    MulMonotone(r + 1, lines, cols);
  }

  /** Euclidean division is determined by its quotient and remainder. */
  lemma DivModUnique(x: int, b: int, q: int, rem: int)
    requires 0 < b && x == q * b + rem && 0 <= rem < b
    ensures x / b == q && x % b == rem
  {
    var q' := x / b;
    if q' < q {
      MulMonotone(q' + 1, q, b);
    } else if q < q' {
      MulMonotone(q + 1, q', b);
    }
  }

  /** An index below lines * cols decomposes into a row below lines and a column below cols. */
  lemma UnflatBound(k: nat, lines: nat, cols: nat)
    requires k < lines * cols
    ensures 0 < cols && k / cols < lines && k % cols < cols
  {
    if lines <= k / cols {
      MulMonotone(lines, k / cols, cols);
    }
  }

  /** Adding a multiple of b keeps a value aligned on b. */
  lemma AlignedStep(i: nat, b: nat)
    requires 0 < b && i % b == 0
    ensures (i + b) % b == 0
  {
    DivModUnique(i + b, b, i / b + 1, 0);
  }

  /** An aligned offset i is the start of the b-cell block holding every x in [i, i + b). */
  lemma AlignedStart(x: nat, b: nat, i: nat)
    requires 0 < b && i % b == 0 && i <= x < i + b
    ensures x % b == x - i
  {
    DivModUnique(x, b, i / b, x - i);
  }
}
