/** Row-major matrices: the flat `std::vector` layout the library returns for frames
    and filter banks. A matrix is described by its rows; the flat buffer is their
    concatenation. */
module Matrix {

  /** The concatenation of the rows, in order. */
  function Flatten<T>(rows: seq<seq<T>>): seq<T>
  {
    if rows == [] then [] else rows[0] + Flatten(rows[1..])
  }

  /** Every row has exactly `w` elements. */
  predicate Uniform<T>(rows: seq<seq<T>>, w: nat)
  {
    forall m :: 0 <= m < |rows| ==> |rows[m]| == w
  }

  /** Row `m` of a flat buffer with rows of width `w`: elements `[m*w, m*w + w)`. */
  function Row<T>(flat: seq<T>, w: nat, m: nat): seq<T>
    requires m * w + w <= |flat|
  {
    flat[m * w .. m * w + w]
  }

  /** Putting a row in front of the matrix puts its elements in front of the flat buffer. */
  lemma FlattenCons<T>(r: seq<T>, rows: seq<seq<T>>)
    ensures Flatten([r] + rows) == r + Flatten(rows)
  {
    assert ([r] + rows)[1..] == rows;
  }

  /** Appending a row to the matrix appends its elements to the flat buffer. */
  lemma {:induction false} FlattenSnoc<T>(rows: seq<seq<T>>, r: seq<T>)
    ensures Flatten(rows + [r]) == Flatten(rows) + r
  {
    if rows == [] {
      assert [r][1..] == [];
    } else {
      assert (rows + [r])[1..] == rows[1..] + [r];
      FlattenSnoc(rows[1..], r);
    }
  }

  /** A matrix of `|rows|` rows of width `w` flattens to `|rows| * w` elements. */
  lemma {:induction false} FlattenLength<T>(rows: seq<seq<T>>, w: nat)
    requires Uniform(rows, w)
    ensures |Flatten(rows)| == |rows| * w
  {
    if rows != [] {
      FlattenLength(rows[1..], w);
      assert |Flatten(rows)| == w + (|rows| - 1) * w == |rows| * w;
    }
  }

  /** A matrix of `|rows|` rows of width `w` flattens to `|rows| * w` elements,
      element `(m, i)` lands at index `m*w + i`, and `Row` recovers each row. */
  lemma {:induction false} FlattenUniform<T>(rows: seq<seq<T>>, w: nat)
    requires Uniform(rows, w)
    ensures |Flatten(rows)| == |rows| * w
    ensures forall m :: 0 <= m < |rows| ==> m * w + w <= |Flatten(rows)| && Row(Flatten(rows), w, m) == rows[m]
  {
    if rows != [] {
      FlattenUniform(rows[1..], w);
      var tail := Flatten(rows[1..]);
      assert Flatten(rows) == rows[0] + tail;
      assert |Flatten(rows)| == w + (|rows| - 1) * w == |rows| * w;
      forall m | 0 <= m < |rows|
        ensures m * w + w <= |Flatten(rows)| && Row(Flatten(rows), w, m) == rows[m]
      {
        if m == 0 {
        } else {
          assert (m - 1) * w + w <= |tail| && Row(tail, w, m - 1) == rows[1..][m - 1];
          assert m * w == (m - 1) * w + w;
          assert Flatten(rows)[m * w .. m * w + w] == tail[(m - 1) * w .. (m - 1) * w + w];
        }
      }
    }
  }

  /** Element `(m, i)` of a uniform matrix is at flat index `m*w + i`. */
  lemma FlattenAt<T>(rows: seq<seq<T>>, w: nat, m: nat, i: nat)
    requires Uniform(rows, w)
    requires m < |rows| && i < w
    ensures m * w + i < |Flatten(rows)|
    ensures Flatten(rows)[m * w + i] == rows[m][i]
  {
    FlattenUniform(rows, w);
    assert Row(Flatten(rows), w, m) == rows[m];
    assert Row(Flatten(rows), w, m)[i] == Flatten(rows)[m * w + i];
  }

  /** A buffer whose consecutive `w`-element slices are the rows is their flattening. */
  lemma {:induction false} FlattenFromRows<T>(s: seq<T>, rows: seq<seq<T>>, w: nat)
    requires |s| == |rows| * w
    requires forall m :: 0 <= m < |rows| ==> m * w + w <= |s| && s[m * w .. m * w + w] == rows[m]
    ensures s == Flatten(rows)
  {
    if rows != [] {
      assert s[0 * w .. 0 * w + w] == rows[0];
      var rest := s[w..];
      assert |rest| == (|rows| - 1) * w;
      forall m | 0 <= m < |rows| - 1
        ensures m * w + w <= |rest| && rest[m * w .. m * w + w] == rows[1..][m]
      {
        assert (m + 1) * w == m * w + w;
        assert s[(m + 1) * w .. (m + 1) * w + w] == rows[m + 1];
        assert rest[m * w .. m * w + w] == s[(m + 1) * w .. (m + 1) * w + w];
      }
      FlattenFromRows(rest, rows[1..], w);
      assert s == s[..w] + rest;
    }
  }
}
