/** `Matrix`: a 4x4 matrix of numbers stored column-major in a 16-element array. */
module Matrices {
  import opened Options

  const Elements: nat := 16
  const Size: nat := 4

  /** Storage slot of element (row, col): columns are contiguous. */
  function ColMajor(row: nat, col: nat): nat {
    row + col * Size
  }

  /** Position of element (row, col) in a row-after-row listing. */
  function RowMajor(row: nat, col: nat): nat {
    row * Size + col
  }

  /** For a slot `k` of the column-major storage, the same element's row-major position. */
  function Swapped(k: nat): nat {
    (k % Size) * Size + k / Size
  }

  /** Reading a 16-element listing with rows and columns exchanged. Turning a row-major listing
      into column-major storage, and transposing column-major storage, are both this map. */
  function Transposed(s: seq<real>): (r: seq<real>)
    requires |s| == Elements
    ensures |r| == Elements
  {
    seq(Elements, k requires 0 <= k < Elements => s[Swapped(k)])
  }

  /** The element at (row, col) of the transposed listing is the one at (col, row). */
  lemma TransposedAt(s: seq<real>, row: nat, col: nat)
    requires |s| == Elements && row < Size && col < Size
    ensures Transposed(s)[ColMajor(row, col)] == s[ColMajor(col, row)] == s[RowMajor(row, col)]
  {
    var k := ColMajor(row, col);
    assert k % Size == row && k / Size == col;
  }

  /** Transposing twice gives the original back. */
  lemma TransposedInvolution(s: seq<real>)
    requires |s| == Elements
    ensures Transposed(Transposed(s)) == s
  {
    forall k | 0 <= k < Elements
      ensures Transposed(Transposed(s))[k] == s[k]
    {
      var row, col := k % Size, k / Size;
      assert k == ColMajor(row, col);
      TransposedAt(Transposed(s), row, col);
      TransposedAt(s, col, row);
    }
  }

  /** `Transposed` spelled out slot by slot. */
  lemma TransposedSlots(s: seq<real>)
    requires |s| == Elements
    ensures Transposed(s) == [s[0], s[4], s[8], s[12], s[1], s[5], s[9], s[13],
                              s[2], s[6], s[10], s[14], s[3], s[7], s[11], s[15]]
  {
  }

  /** `s` with the slots `i` and `j` exchanged. */
  function Exchanged(s: seq<real>, i: nat, j: nat): (r: seq<real>)
    requires i < |s| && j < |s|
    ensures |r| == |s| && r[i] == s[j] && r[j] == s[i]
    ensures forall k :: 0 <= k < |s| && k != i && k != j ==> r[k] == s[k]
  {
    s[i := s[j]][j := s[i]]
  }

  /** The six exchanges across the diagonal that `transpose` performs amount to `Transposed`. */
  lemma DiagonalSwaps(s: seq<real>)
    requires |s| == Elements
    ensures Exchanged(Exchanged(Exchanged(Exchanged(Exchanged(Exchanged(s, 1, 4), 2, 8), 3, 12), 6, 9), 7, 13), 11, 14)
            == Transposed(s)
  {
    var h := Exchanged(Exchanged(Exchanged(s, 1, 4), 2, 8), 3, 12);
    assert h == [s[0], s[4], s[8], s[12], s[1], s[5], s[6], s[7], s[2], s[9], s[10], s[11], s[3], s[13], s[14], s[15]];
    TransposedSlots(s);
  }

  /** A storage whose columns hold the given rows is the transposed row listing. */
  lemma TransposedRows(s: seq<real>, n11: real, n12: real, n13: real, n14: real,
                       n21: real, n22: real, n23: real, n24: real,
                       n31: real, n32: real, n33: real, n34: real,
                       n41: real, n42: real, n43: real, n44: real)
    requires |s| == Elements
    requires s[0] == n11 && s[1] == n21 && s[2] == n31 && s[3] == n41
    requires s[4] == n12 && s[5] == n22 && s[6] == n32 && s[7] == n42
    requires s[8] == n13 && s[9] == n23 && s[10] == n33 && s[11] == n43
    requires s[12] == n14 && s[13] == n24 && s[14] == n34 && s[15] == n44
    ensures s == Transposed([n11, n12, n13, n14, n21, n22, n23, n24,
                             n31, n32, n33, n34, n41, n42, n43, n44])
  {
    TransposedSlots([n11, n12, n13, n14, n21, n22, n23, n24,
                     n31, n32, n33, n34, n41, n42, n43, n44]);
  }

  /** `swap(a, aIdx, b, bIdx)`: exchange two slots, possibly of the same array. */
  method Swap(a: array<real>, aIdx: nat, b: array<real>, bIdx: nat)
    requires aIdx < a.Length && bIdx < b.Length
    modifies a, b
    ensures a == b ==> a[..] == old(a[..])[aIdx := old(b[bIdx])][bIdx := old(a[aIdx])]
    ensures a != b ==> a[..] == old(a[..])[aIdx := old(b[bIdx])] && b[..] == old(b[..])[bIdx := old(a[aIdx])]
  {
    var tmp := a[aIdx];
    a[aIdx] := b[bIdx];
    b[bIdx] := tmp;
  }

  /** `concat()` with no arguments: a fresh copy of the array. */
  method Copy(a: array<real>) returns (b: array<real>)
    ensures fresh(b) && b[..] == a[..]
  {
    var snapshot := a[..];
    b := new real[a.Length](k requires 0 <= k < |snapshot| => snapshot[k]);
  }

  class Matrix {
    var m: array<real>

    ghost predicate Valid()
      reads this
    {
      m.Length == Elements
    }

    /** `get(row, col)`: entry `4*row + col` of the storage read as a row-major listing. */
    function Get(row: nat, col: nat): (r: real)
      requires Valid() && row < Size && col < Size
      reads this, m
      ensures r == Transposed(m[..])[RowMajor(row, col)]
    {
      TransposedAt(m[..], col, row);
      m[ColMajor(row, col)]
    }

    /** `new Matrix(matrix?, offset = 0)`: all zeros without a matrix; otherwise the 16 numbers
        from `offset` on, read row after row. */
    constructor (matrix: Option<seq<real>>, offset: nat)
      requires matrix.Some? ==> offset + Elements <= |matrix.value|
      ensures Valid() && fresh(m)
      ensures matrix.None? ==> forall k :: 0 <= k < Elements ==> m[k] == 0.0
      ensures matrix.Some? ==> m[..] == Transposed(matrix.value[offset..offset + Elements])
      ensures matrix.Some? ==> forall row: nat, col: nat :: row < Size && col < Size ==>
                Get(row, col) == matrix.value[offset + RowMajor(row, col)]
    {
      match matrix {
        case None =>
          m := new real[Elements](_ => 0.0);
        case Some(a) =>
          var r := new real[Elements];
          for i := 0 to Size
            invariant forall i', j :: 0 <= i' < i && 0 <= j < Size ==>
                        r[ColMajor(i', j)] == a[offset + RowMajor(i', j)]
          {
            for j := 0 to Size
              invariant forall i', j' :: 0 <= i' < i && 0 <= j' < Size ==>
                          r[ColMajor(i', j')] == a[offset + RowMajor(i', j')]
              invariant forall j' :: 0 <= j' < j ==> r[ColMajor(i, j')] == a[offset + RowMajor(i, j')]
            {
              r[ColMajor(i, j)] := a[offset + RowMajor(i, j)];
            }
          }
          forall k | 0 <= k < Elements
            ensures r[k] == Transposed(a[offset..offset + Elements])[k]
          {
            assert k == ColMajor(k % Size, k / Size);
          }
          assert r[..] == Transposed(a[offset..offset + Elements]);
          m := r;
      }
    }

    /** `set(row, col, value)`: the one element changes. */
    method Set(row: nat, col: nat, value: real)
      requires Valid() && row < Size && col < Size
      modifies m
      ensures Valid() && Get(row, col) == value
      ensures forall r: nat, c: nat :: r < Size && c < Size && (r, c) != (row, col) ==> Get(r, c) == old(Get(r, c))
    {
      m[ColMajor(row, col)] := value;
      forall r: nat, c: nat | r < Size && c < Size && (r, c) != (row, col)
        ensures m[ColMajor(r, c)] == old(m[ColMajor(r, c)])
      {
        assert ColMajor(r, c) % Size == r && ColMajor(r, c) / Size == c;
      }
    }

    /** `init`: the arguments are the elements row after row; the result is this matrix. */
    method Init(n11: real, n12: real, n13: real, n14: real,
                n21: real, n22: real, n23: real, n24: real,
                n31: real, n32: real, n33: real, n34: real,
                n41: real, n42: real, n43: real, n44: real) returns (r: Matrix)
      requires Valid()
      modifies m
      ensures r == this && Valid()
      ensures m[..] == Transposed([n11, n12, n13, n14, n21, n22, n23, n24,
                                   n31, n32, n33, n34, n41, n42, n43, n44])
    {
      m[0], m[1], m[2], m[3] := n11, n21, n31, n41;
      m[4], m[5], m[6], m[7] := n12, n22, n32, n42;
      m[8], m[9], m[10], m[11] := n13, n23, n33, n43;
      m[12], m[13], m[14], m[15] := n14, n24, n34, n44;
      TransposedRows(m[..], n11, n12, n13, n14, n21, n22, n23, n24,
                     n31, n32, n33, n34, n41, n42, n43, n44);
      r := this;
    }

    /** `clone`: a new matrix with its own copy of the elements. */
    method Clone() returns (c: Matrix)
      requires Valid()
      ensures fresh(c) && fresh(c.m) && c.Valid() && c.m[..] == m[..]
    {
      c := new Matrix(None, 0);
      c.m := Copy(m);
    }

    /** `copyFrom(other)`: this matrix takes a private copy of `other`'s elements. */
    method CopyFrom(other: Matrix) returns (r: Matrix)
      requires other.Valid()
      modifies this
      ensures r == this && Valid() && fresh(m) && m[..] == old(other.m[..])
    {
      m := Copy(other.m);
      r := this;
    }

    /** `add(other)`: element-wise sum in place; `other` may be this very matrix. */
    method Add(other: Matrix) returns (r: Matrix)
      requires Valid() && other.Valid()
      modifies m
      ensures r == this && Valid()
      ensures forall k :: 0 <= k < Elements ==> m[k] == old(m[k]) + old(other.m[k])
    {
      forall k | 0 <= k < Elements {
        m[k] := m[k] + other.m[k];
      }
      r := this;
    }

    /** `sub(other)`: element-wise difference in place. */
    method Sub(other: Matrix) returns (r: Matrix)
      requires Valid() && other.Valid()
      modifies m
      ensures r == this && Valid()
      ensures forall k :: 0 <= k < Elements ==> m[k] == old(m[k]) - old(other.m[k])
    {
      forall k | 0 <= k < Elements {
        m[k] := m[k] - other.m[k];
      }
      r := this;
    }

    /** `constAdd(other)`: the sum as a new matrix; neither operand changes. */
    method ConstAdd(other: Matrix) returns (r: Matrix)
      requires Valid() && other.Valid()
      ensures fresh(r) && fresh(r.m) && r.Valid()
      ensures forall k :: 0 <= k < Elements ==> r.m[k] == m[k] + other.m[k]
    {
      r := new Matrix(None, 0);
      r := r.CopyFrom(this);
      r := r.Add(other);
    }

    /** `constSub(other)`: the difference as a new matrix; neither operand changes. */
    method ConstSub(other: Matrix) returns (r: Matrix)
      requires Valid() && other.Valid()
      ensures fresh(r) && fresh(r.m) && r.Valid()
      ensures forall k :: 0 <= k < Elements ==> r.m[k] == m[k] - other.m[k]
    {
      r := new Matrix(None, 0);
      r := r.CopyFrom(this);
      r := r.Sub(other);
    }

    /** `mul(other)` is not implemented: it returns this matrix unchanged. */
    method Mul(other: Matrix) returns (r: Matrix)
      ensures r == this
    {
      r := this;
    }

    /** `transpose`: six swaps across the diagonal, in place. */
    method Transpose() returns (r: Matrix)
      requires Valid()
      modifies m
      ensures r == this && Valid()
      ensures m[..] == Transposed(old(m[..]))
      ensures forall row: nat, col: nat :: row < Size && col < Size ==> Get(row, col) == old(Get(col, row))
    {
      ghost var s := m[..];
      Swap(m, 1, m, 4);
      assert m[..] == Exchanged(s, 1, 4);
      Swap(m, 2, m, 8);
      assert m[..] == Exchanged(Exchanged(s, 1, 4), 2, 8);
      Swap(m, 3, m, 12);
      assert m[..] == Exchanged(Exchanged(Exchanged(s, 1, 4), 2, 8), 3, 12);
      ghost var h := m[..];
      Swap(m, 6, m, 9);
      assert m[..] == Exchanged(h, 6, 9);
      Swap(m, 7, m, 13);
      assert m[..] == Exchanged(Exchanged(h, 6, 9), 7, 13);
      Swap(m, 11, m, 14);
      assert m[..] == Exchanged(Exchanged(Exchanged(h, 6, 9), 7, 13), 11, 14);
      DiagonalSwaps(s);
      forall row: nat, col: nat | row < Size && col < Size
        ensures Get(row, col) == s[ColMajor(col, row)]
      {
        TransposedAt(s, row, col);
      }
      r := this;
    }

    /** `constTranspose`: the storage read again as a row-major listing, as a new matrix. */
    method ConstTranspose() returns (t: Matrix)
      requires Valid()
      ensures fresh(t) && fresh(t.m) && t.Valid()
      ensures t.m[..] == Transposed(m[..])
      ensures forall row: nat, col: nat :: row < Size && col < Size ==> t.Get(row, col) == Get(col, row)
    {
      t := new Matrix(Some(m[..]), 0);
      assert m[..][0..Elements] == m[..];
    }
  }

  /** `Matrix.FromMatrix(m)`: a new matrix with a copy of `m`'s elements. */
  method FromMatrix(source: Matrix) returns (r: Matrix)
    requires source.Valid()
    ensures fresh(r) && fresh(r.m) && r.Valid() && r.m[..] == source.m[..]
  {
    r := new Matrix(None, 0);
    r := r.CopyFrom(source);
  }

  /** Transposing in place twice restores every element. */
  method TransposeTwice(a: Matrix)
    requires a.Valid()
    modifies a.m
    ensures a.Valid() && a.m[..] == old(a.m[..])
  {
    var _ := a.Transpose();
    var _ := a.Transpose();
    TransposedInvolution(old(a.m[..]));
  }
}
