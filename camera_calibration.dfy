/**
 * getChessboardPoints (tools/cameraCalibration/main.cpp): the model-space
 * corners of a chessboard, one grid per calibration image. The grid is
 * filled row by row, the row index h outer and the column index w inner,
 * and point (h, w) is (squareSize * h, squareSize * w, 0).
 */
module CameraCalibration {
  import opened ContourTypes

  /** The corner in row h and column w; the row index feeds x. */
  function Corner(squareSize: real, h: int, w: int): Point3 {
    Point3(squareSize * h as real, squareSize * w as real, 0.0)
  }

  lemma MulLe(a: nat, b: nat, c: nat)
    requires a <= b
    ensures a * c <= b * c
  {
    assert b * c - a * c == (b - a) * c;
  }

  /** Row-major indices of rows below `rows` lie below rows * width. */
  lemma IndexBelow(h: nat, w: nat, width: nat, rows: nat)
    requires h < rows && w < width
    ensures h * width + w < rows * width
  {
    MulLe(h + 1, rows, width);
    assert (h + 1) * width == h * width + width;
  }

  /** `grid` holds width * height corners, the one of row h and column w at index h * width + w. */
  ghost predicate IsChessboard(grid: seq<Point3>, width: nat, height: nat, squareSize: real) {
    && |grid| == width * height
    && forall h: nat, w: nat :: h < height && w < width ==>
         (IndexBelow(h, w, width, height); grid[h * width + w] == Corner(squareSize, h, w))
  }

  /** Every index of a chessboard grid is some row-major (h, w), so every corner lies in the plane z = 0. */
  lemma {:induction false} ChessboardIndex(grid: seq<Point3>, width: nat, height: nat, squareSize: real, k: nat)
    requires IsChessboard(grid, width, height, squareSize) && k < |grid|
    ensures width > 0 && k / width < height
    ensures grid[k] == Corner(squareSize, k / width, k % width)
    ensures grid[k].z == 0.0
  {
    var h, w := k / width, k % width;
    assert k == h * width + w;
    if h >= height {
      MulLe(height, h, width);
      assert false;
    }
  }

  /** Two chessboard grids of the same dimensions and square size are the same sequence. */
  lemma ChessboardUnique(g1: seq<Point3>, g2: seq<Point3>, width: nat, height: nat, squareSize: real)
    requires IsChessboard(g1, width, height, squareSize) && IsChessboard(g2, width, height, squareSize)
    ensures g1 == g2
  {
    forall k | 0 <= k < |g1|
      ensures g1[k] == g2[k]
    {
      ChessboardIndex(g1, width, height, squareSize, k);
      ChessboardIndex(g2, width, height, squareSize, k);
    }
  }

  /** One row of corners: row h, columns 0 .. width - 1. */
  function Row(squareSize: real, h: nat, width: nat): (r: seq<Point3>)
    ensures |r| == width
  {
    seq(width, w requires 0 <= w < width => Corner(squareSize, h, w))
  }

  /** The first `rows` rows, one after the other. */
  function Rows(squareSize: real, rows: nat, width: nat): seq<Point3>
  {
    if rows == 0 then [] else Rows(squareSize, rows - 1, width) + Row(squareSize, rows - 1, width)
  }

  /** Rows laid one after the other form a chessboard grid in row-major order. */
  lemma {:induction false} RowsAreChessboard(squareSize: real, rows: nat, width: nat)
    ensures IsChessboard(Rows(squareSize, rows, width), width, rows, squareSize)
  {
    if rows > 0 {
      var prev := Rows(squareSize, rows - 1, width);
      RowsAreChessboard(squareSize, rows - 1, width);
      var grid := Rows(squareSize, rows, width);
      assert |grid| == rows * width by {
        assert (rows - 1) * width + width == rows * width;
      }
      forall h: nat, w: nat | h < rows && w < width
        ensures h * width + w < |grid| && grid[h * width + w] == Corner(squareSize, h, w)
      {
        IndexBelow(h, w, width, rows);
        if h < rows - 1 {
          IndexBelow(h, w, width, rows - 1);
          assert grid[h * width + w] == prev[h * width + w];
        } else {
          assert grid[h * width + w] == Row(squareSize, rows - 1, width)[w];
        }
      }
    }
  }

  /**
   * getChessboardPoints: n copies of the same grid (none for n = 0), each
   * holding the width * height corners in row-major order.
   */
  method GetChessboardPoints(width: nat, height: nat, squareSize: real, n: nat)
    returns (views: seq<seq<Point3>>)
    ensures |views| == n
    ensures forall i :: 0 <= i < n ==> IsChessboard(views[i], width, height, squareSize)
    ensures forall i, j :: 0 <= i < n && 0 <= j < n ==> views[i] == views[j]
  {
    var chessboardPoints: seq<Point3> := [];
    for h := 0 to height
      invariant chessboardPoints == Rows(squareSize, h, width)
    {
      for w := 0 to width
        invariant chessboardPoints == Rows(squareSize, h, width) + Row(squareSize, h, width)[..w]
      {
        chessboardPoints := chessboardPoints + [Corner(squareSize, h, w)];
      }
    }
    RowsAreChessboard(squareSize, height, width);
    views := seq(n, _ => chessboardPoints);
  }
}
