/** A matrix kept row by row in one flat buffer. */
module Matrices {

  function Flat(columns: nat, i: nat, j: nat): (k: nat) {
    columns * i + j
  }

  lemma FlatInBounds(rows: nat, columns: nat, i: nat, j: nat)
    requires i < rows && j < columns
    ensures Flat(columns, i, j) < rows * columns
  {
    assert columns * i + columns == columns * (i + 1) <= columns * rows;
  }

  /** Different cells have different places in the buffer. */
  lemma FlatIsInjective(columns: nat, i: nat, j: nat, i': nat, j': nat)
    requires j < columns && j' < columns && Flat(columns, i, j) == Flat(columns, i', j')
    ensures i == i' && j == j'
  {
    assert i < i' ==> columns * (i + 1) <= columns * i';
    assert i' < i ==> columns * (i' + 1) <= columns * i;
  }

  class Matrix<T(0)> {
    const rows: nat
    const columns: nat
    const data: array<T>

    predicate WellFormed() {
      data.Length == rows * columns
    }

    function At(i: nat, j: nat): T
      requires WellFormed() && i < rows && j < columns
      reads data
    {
      FlatInBounds(rows, columns, i, j);
      data[Flat(columns, i, j)]
    }

    method Set(i: nat, j: nat, value: T)
      requires WellFormed() && i < rows && j < columns
      modifies data
      ensures At(i, j) == value
      ensures forall a: nat, b: nat :: a < rows && b < columns && (a != i || b != j) ==> At(a, b) == old(At(a, b))
    {
      FlatInBounds(rows, columns, i, j);
      data[Flat(columns, i, j)] := value;
      forall a: nat, b: nat | a < rows && b < columns && (a != i || b != j)
        ensures At(a, b) == old(At(a, b))
      {
        FlatInBounds(rows, columns, a, b);
        if Flat(columns, a, b) == Flat(columns, i, j) { FlatIsInjective(columns, a, b, i, j); }
      }
    }

    /** Default values everywhere. */
    constructor Blank(rows: nat, columns: nat)
      ensures WellFormed() && this.rows == rows && this.columns == columns && fresh(data)
    {
      this.rows, this.columns := rows, columns;
      data := new T[rows * columns];
    }

    constructor (rows: nat, columns: nat, supplier: (nat, nat) -> T)
      ensures WellFormed() && this.rows == rows && this.columns == columns && fresh(data)
      ensures forall i: nat, j: nat :: i < rows && j < columns ==> At(i, j) == supplier(i, j)
    {
      this.rows, this.columns := rows, columns;
      data := new T[rows * columns];
      new;
      for i := 0 to rows
        invariant forall a: nat, b: nat :: a < i && b < columns ==> At(a, b) == supplier(a, b)
      {
        for j := 0 to columns
          invariant forall a: nat, b: nat :: a < rows && b < columns && (a < i || (a == i && b < j)) ==> At(a, b) == supplier(a, b)
        {
          Set(i, j, supplier(i, j));
        }
      }
    }
  }
}
