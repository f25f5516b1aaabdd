/**
 * The D-pad grid hook of src/hooks/useTVNavigation.js (useTVGrid): the
 * focused index of a grid of `n` items laid out `columns` to a row.
 */
module TvGrid {
  import opened JsMath

  /** The direction strings 'up', 'down', 'left', 'right'; any other string is `Other`. */
  datatype Direction = Up | Down | Left | Right | Other

  /** The index a move asks for, before it is clamped to the last item. */
  function MovedIndex(n: nat, columns: int, index: int, direction: Direction): int
    requires columns > 0
  {
    var rows := (n + columns - 1) / columns;
    var row := index / columns;
    var col := JsRem(index, columns);
    if direction == Up && row > 0 then (row - 1) * columns + col
    else if direction == Down && row < rows - 1 then (row + 1) * columns + col
    else if direction == Left && col > 0 then row * columns + (col - 1)
    else if direction == Right && col < columns - 1 && index < n - 1 then row * columns + (col + 1)
    else index
  }

  /** The index `navigate(direction)` moves to from `index`. */
  function GridTarget(n: nat, columns: int, index: int, direction: Direction): int
    requires columns > 0
  {
    var newIndex := MovedIndex(n, columns, index, direction);
    if newIndex < n - 1 then newIndex else n - 1
  }

  lemma MulStep(row: int, columns: int)
    ensures (row - 1) * columns == row * columns - columns
    ensures (row + 1) * columns == row * columns + columns
  {
  }

  /** Each move, written as an offset from the current index. */
  lemma Moves(columns: int, index: int)
    requires columns > 0 && index >= 0
    ensures index == (index / columns) * columns + index % columns
    ensures (index / columns - 1) * columns + index % columns == index - columns
    ensures (index / columns + 1) * columns + index % columns == index + columns
    ensures (index / columns) * columns + (index % columns - 1) == index - 1
    ensures (index / columns) * columns + (index % columns + 1) == index + 1
    ensures index / columns > 0 <==> index >= columns
    ensures 0 <= index % columns <= index
  {
    MulStep(index / columns, columns);
    MulNonNegative(index / columns, columns);
  }

  /** A non-zero multiple of d is at least d away from zero. */
  lemma MulAwayFromZero(x: int, d: int)
    requires d > 0
    ensures x >= 1 ==> x * d >= d
    ensures x <= -1 ==> x * d <= -d
  {
    if x >= 1 {
      MulNonNegative(x - 1, d);
      assert x * d == (x - 1) * d + d;
    }
    if x <= -1 {
      MulNonNegative(-x - 1, d);
      assert -x * d == (-x - 1) * d + d;
    }
  }

  lemma MulNonNegative(x: int, y: int)
    requires x >= 0 && y >= 0
    ensures x * y >= 0
  {
  }

  /** From a valid index of a non-empty grid, every move lands on a valid index. */
  lemma TargetInRange(n: nat, columns: int, index: int, direction: Direction)
    requires columns > 0 && 0 <= index < n
    ensures 0 <= GridTarget(n, columns, index, direction) < n
  {
    MovedNonNegative(n, columns, index, direction);
  }

  lemma MovedNonNegative(n: nat, columns: int, index: int, direction: Direction)
    requires columns > 0 && index >= 0
    ensures MovedIndex(n, columns, index, direction) >= 0
  {
    MovedFrom(n, columns, index, direction);
  }

  /** Each move is one row or one column away, or no move. */
  lemma MovedFrom(n: nat, columns: int, index: int, direction: Direction)
    requires columns > 0 && index >= 0
    ensures var m := MovedIndex(n, columns, index, direction);
      && (direction == Up ==> m == index || (m == index - columns && index >= columns))
      && (direction == Down ==> m == index || m == index + columns)
      && (direction == Left ==> m == index || (m == index - 1 && index >= 1))
      && (direction == Right ==> m == index || m == index + 1)
      && (direction == Other ==> m == index)
  {
    Moves(columns, index);
  }

  /** Up on the first row and left on the first column stay put. */
  lemma EdgesStay(n: nat, columns: int, index: int)
    requires columns > 0 && 0 <= index < n
    ensures index < columns ==> GridTarget(n, columns, index, Up) == index
    ensures index % columns == 0 ==> GridTarget(n, columns, index, Left) == index
  {
    Moves(columns, index);
  }

  /** Down on the last row stays put; down into a shorter last row lands on the last item. */
  lemma DownAtBottom(n: nat, columns: int, index: int)
    requires columns > 0 && 0 <= index < n
    ensures index / columns == (n + columns - 1) / columns - 1 ==> GridTarget(n, columns, index, Down) == index
    ensures index / columns < (n + columns - 1) / columns - 1 && index + columns >= n ==>
      GridTarget(n, columns, index, Down) == n - 1
  {
    Moves(columns, index);
  }

  /** Right moves exactly when the item is neither in the last column nor the last item, and then by one. */
  lemma RightMoves(n: nat, columns: int, index: int)
    requires columns > 0 && 0 <= index < n
    ensures var r := GridTarget(n, columns, index, Right);
      && (index % columns < columns - 1 && index < n - 1 ==> r == index + 1)
      && (!(index % columns < columns - 1 && index < n - 1) ==> r == index)
  {
    Moves(columns, index);
  }

  /** The row of index+columns is one more than the row of index. */
  lemma NextRow(columns: int, index: int)
    requires columns > 0 && index >= 0
    ensures (index + columns) / columns == index / columns + 1
    ensures (index + columns) % columns == index % columns
  {
    Moves(columns, index);
    DivUnique(index + columns, columns, index / columns + 1, index % columns);
  }

  /** Euclidean division has one quotient and remainder. */
  lemma DivUnique(a: int, d: int, q: int, r: int)
    requires d > 0 && 0 <= r < d && a == q * d + r
    ensures a / d == q && a % d == r
  {
    MulAwayFromZero(q - a / d, d);
    assert (q - a / d) * d == a % d - r;
  }

  /** A valid index lies above the last row boundary. */
  lemma RowBound(n: nat, columns: int, index: int)
    requires columns > 0 && 0 <= index < n
    ensures index / columns <= (n + columns - 1) / columns - 1
  {
    NextRow(columns, index);
    assert index + columns <= n + columns - 1;
    DivMonotone(index + columns, n + columns - 1, columns);
  }

  lemma DivMonotone(a: int, b: int, d: int)
    requires d > 0 && 0 <= a <= b
    ensures a / d <= b / d
  {
    Moves(d, a);
    Moves(d, b);
  }

  /** Down undoes a move up. */
  lemma UpThenDown(n: nat, columns: int, index: int)
    requires columns > 0 && 0 <= index < n && index >= columns
    ensures GridTarget(n, columns, index, Up) == index - columns
    ensures GridTarget(n, columns, GridTarget(n, columns, index, Up), Down) == index
  {
    Moves(columns, index);
    var up := index - columns;
    Moves(columns, up);
    NextRow(columns, up);
    RowBound(n, columns, index);
  }

  /** With no items the focus becomes -1. */
  lemma EmptyGrid(columns: int, index: int, direction: Direction)
    requires columns > 0 && index >= 0
    ensures GridTarget(0, columns, index, direction) == -1
  {
    Moves(columns, index);
  }

  /** useTVGrid's state. */
  class TvGridFocus {
    var items: nat
    var columns: int
    var currentIndex: int

    constructor (items: nat, columns: int)
      requires columns > 0
      ensures this.items == items && this.columns == columns && currentIndex == 0
    {
      this.items := items;
      this.columns := columns;
      currentIndex := 0;
    }

    method Navigate(direction: Direction)
      requires columns > 0
      modifies this`currentIndex
      ensures currentIndex == GridTarget(items, columns, old(currentIndex), direction)
      ensures 0 <= old(currentIndex) < items ==> 0 <= currentIndex < items
    {
      if 0 <= currentIndex < items {
        TargetInRange(items, columns, currentIndex, direction);
      }
      var rows := (items + columns - 1) / columns;
      var row := currentIndex / columns;
      var col := JsRem(currentIndex, columns);
      var newIndex := currentIndex;
      if direction == Up {
        if row > 0 {
          newIndex := (row - 1) * columns + col;
        }
      } else if direction == Down {
        if row < rows - 1 {
          newIndex := (row + 1) * columns + col;
        }
      } else if direction == Left {
        if col > 0 {
          newIndex := row * columns + (col - 1);
        }
      } else if direction == Right {
        if col < columns - 1 && currentIndex < items - 1 {
          newIndex := row * columns + (col + 1);
        }
      }
      currentIndex := if newIndex < items - 1 then newIndex else items - 1;
    }
  }
}
