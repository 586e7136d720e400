/** Rectangles as sets of integer points, for saying what an overlap measures. */
module Cells {

  type Cell = (int, int)

  /** The points of the rectangle, left and top included, right and bottom excluded. */
  ghost function Points(left: int, top: int, right: int, bottom: int): set<Cell> {
    set x: int, y: int | left <= x < right && top <= y < bottom :: (x, y)
  }

  lemma {:induction false} ColumnSize(x: int, top: int, bottom: int)
    ensures |Points(x, top, x + 1, bottom)| == if top < bottom then bottom - top else 0
    decreases bottom - top
  {
    if top < bottom {
      ColumnSize(x, top, bottom - 1);
      assert Points(x, top, x + 1, bottom) == Points(x, top, x + 1, bottom - 1) + {(x, bottom - 1)};
    } else {
      assert Points(x, top, x + 1, bottom) == {};
    }
  }

  /** A rectangle has width times height points. */
  lemma {:induction false} PointsSize(left: int, top: int, right: int, bottom: int)
    requires left <= right && top <= bottom
    ensures |Points(left, top, right, bottom)| == (right - left) * (bottom - top)
    decreases right - left
  {
    if left < right {
      PointsSize(left, top, right - 1, bottom);
      ColumnSize(right - 1, top, bottom);
      var rest, column := Points(left, top, right - 1, bottom), Points(right - 1, top, right, bottom);
      assert Points(left, top, right, bottom) == rest + column && rest * column == {};
      assert (right - left) * (bottom - top) == (right - 1 - left) * (bottom - top) + (bottom - top);
    } else {
      assert Points(left, top, right, bottom) == {};
    }
  }

  /** What two sets have together and in common adds up to what they have apart. */
  lemma UnionSize(a: set<Cell>, b: set<Cell>)
    ensures |a + b| + |a * b| == |a| + |b|
  {
  }

  lemma SubsetSize<T>(a: set<T>, b: set<T>)
    requires a <= b
    ensures |a| <= |b|
  {
    assert b == a + (b - a);
  }
}
