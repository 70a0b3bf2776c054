/**
 * The data generator's derivation of the partially observed dataset from the fully
 * observed one. The random draws (W1, W2, A, Y, R_A, R_Y) are inputs; the masking that
 * follows them is modelled step by step: the A and Y columns are copied and every
 * entry whose indicator is 0 is overwritten, in place, by the sentinel -1.
 */
module DataGenerator {

  /** The value written over an unobserved A or Y. */
  const Sentinel: int := -1

  /** A dataset: six parallel columns, one entry per observation. */
  datatype Dataset = Dataset(a: seq<int>, y: seq<int>, w1: seq<real>, w2: seq<real>, rA: seq<int>, rY: seq<int>)
  {
    /** All columns have the same number of rows. */
    predicate WellFormed()
    {
      |y| == |a| && |w1| == |a| && |w2| == |a| && |rA| == |a| && |rY| == |a|
    }
  }

  /** Every entry is a binary code. */
  predicate IsBinary(col: seq<int>)
  {
    forall i :: 0 <= i < |col| ==> col[i] == 0 || col[i] == 1
  }

  /** A fully observed dataset: A, Y, R_A and R_Y are all binary. */
  predicate IsFull(d: Dataset)
  {
    d.WellFormed() && IsBinary(d.a) && IsBinary(d.y) && IsBinary(d.rA) && IsBinary(d.rY)
  }

  /** A column is observed (a binary code) exactly where its indicator is 1 and the sentinel exactly where it is 0. */
  predicate MaskedBy(col: seq<int>, r: seq<int>)
    requires |col| == |r|
  {
    forall i :: 0 <= i < |col| ==>
      (r[i] == 1 <==> col[i] == 0 || col[i] == 1) && (r[i] == 0 <==> col[i] == Sentinel)
  }

  /** A partially observed dataset: binary indicators, and A and Y masked by them. */
  predicate IsPartial(d: Dataset)
  {
    d.WellFormed() && IsBinary(d.rA) && IsBinary(d.rY) && MaskedBy(d.a, d.rA) && MaskedBy(d.y, d.rY)
  }

  /** Specification of the masking: the column with the sentinel wherever the indicator is 0. */
  function Masked(col: seq<int>, r: seq<int>): seq<int>
    requires |col| == |r|
  {
    seq(|col|, i requires 0 <= i < |col| => if r[i] == 0 then Sentinel else col[i])
  }

  /**
   * Masking a binary column by binary indicators yields codes in {-1, 0, 1}, with the
   * sentinel exactly on the unobserved rows and the original value on the observed ones.
   */
  lemma MaskedLevels(col: seq<int>, r: seq<int>)
    requires |col| == |r| && IsBinary(col) && IsBinary(r)
    ensures MaskedBy(Masked(col, r), r)
    ensures forall i :: 0 <= i < |col| ==> (Masked(col, r)[i] == col[i] <==> r[i] == 1)
  {
  }

  /** `A[R == 0] = -1` on the copy `col`: overwrite every entry whose indicator is 0 with the sentinel. */
  method MaskInPlace(col: array<int>, r: seq<int>)
    requires col.Length == |r|
    modifies col
    ensures col[..] == Masked(old(col[..]), r)
  {
    var i := 0;
    while i < col.Length
      invariant 0 <= i <= col.Length
      invariant forall k :: 0 <= k < i ==> col[k] == if r[k] == 0 then Sentinel else old(col[k])
      invariant forall k :: i <= k < col.Length ==> col[k] == old(col[k])
    {
      if r[i] == 0 {
        col[i] := Sentinel;
      }
      i := i + 1;
    }
  }

  /**
   * `generateData` after its random draws: the full dataset holds the draws as they
   * are; the partial dataset holds masked copies of A and Y and the same W1, W2, R_A
   * and R_Y. The full dataset is built from the draws and is not touched by the masking,
   * which works on fresh copies.
   */
  method GenerateData(size: nat, w1: seq<real>, w2: seq<real>, a: seq<int>, y: seq<int>, rA: seq<int>, rY: seq<int>)
    returns (full: Dataset, partial: Dataset)
    requires |w1| == size && |w2| == size && |a| == size && |y| == size && |rA| == size && |rY| == size
    ensures full == Dataset(a, y, w1, w2, rA, rY) && full.WellFormed()
    ensures partial.WellFormed() && |partial.a| == size
    ensures partial.w1 == full.w1 && partial.w2 == full.w2 && partial.rA == full.rA && partial.rY == full.rY
    ensures partial.a == Masked(full.a, full.rA) && partial.y == Masked(full.y, full.rY)
    ensures IsFull(full) ==> IsPartial(partial)
  {
    full := Dataset(a, y, w1, w2, rA, rY);
    var aCol := new int[size](i requires 0 <= i < size => a[i]);
    assert aCol[..] == a;
    MaskInPlace(aCol, rA);
    var yCol := new int[size](i requires 0 <= i < size => y[i]);
    assert yCol[..] == y;
    MaskInPlace(yCol, rY);
    partial := Dataset(aCol[..], yCol[..], w1, w2, rA, rY);
    if IsFull(full) {
      MaskedLevels(a, rA);
      MaskedLevels(y, rY);
    }
  }
}
