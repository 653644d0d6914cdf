/**
  The board of a Boggle game: a finite map from (row, column) coordinates to
  letters, the eight-cell neighbourhood of a coordinate, the adjacency table
  derived from a board, and the letter string spelled by a path of cells.
 */
module BoggleGrid {

  /** A tile position: (row, column). */
  type Coord = (int, int)

  /** A board: each key is a tile, each value the letter shown on it. */
  type Grid = map<Coord, char>

  /** A walk through the board, in visiting order. */
  type Path = seq<Coord>

  /** The adjacency table: for each tile, its neighbouring tiles in listing order. */
  type NeighbourTable = map<Coord, seq<Coord>>

  /** Two distinct tiles that differ by at most one in each axis. */
  predicate Touching(a: Coord, b: Coord)
  {
    a != b && -1 <= a.0 - b.0 <= 1 && -1 <= a.1 - b.1 <= 1
  }

  /** Row-major order: earlier row first, then earlier column. */
  predicate RowMajorBefore(a: Coord, b: Coord)
  {
    a.0 < b.0 || (a.0 == b.0 && a.1 < b.1)
  }

  /** Strictly increasing in row-major order (hence also free of repeats). */
  predicate Sorted(s: seq<Coord>)
  {
    forall i, j :: 0 <= i < j < |s| ==> RowMajorBefore(s[i], s[j])
  }

  // ---------------------------------------------------------------------
  // Board construction (the key set of make_grid)
  // ---------------------------------------------------------------------

  /** The tiles of a board `width` columns wide and `height` rows high. */
  predicate InRectangle(width: int, height: int, p: Coord)
  {
    0 <= p.0 < height && 0 <= p.1 < width
  }

  /** The tiles of `grid` are exactly those of a `width` by `height` rectangle. */
  ghost predicate IsRectangle(grid: Grid, width: int, height: int)
  {
    forall p :: p in grid <==> InRectangle(width, height, p)
  }

  /** The cells of one row `row`, columns [0, width). */
  function RowCells(row: int, width: nat): (cells: set<Coord>)
    ensures |cells| == width
    ensures forall p :: p in cells <==> p.0 == row && 0 <= p.1 < width
  {
    if width == 0 then {}
    else
      var rest := RowCells(row, width - 1);
      assert (row, width - 1) !in rest;
      rest + {(row, width - 1)}
  }

  /** The width * height tiles of a rectangular board, row by row. */
  function Cells(width: nat, height: nat): (cells: set<Coord>)
    ensures |cells| == width * height
    ensures forall p :: p in cells <==> InRectangle(width, height, p)
  {
    if height == 0 then {}
    else
      var upper := Cells(width, height - 1);
      var row := RowCells(height - 1, width);
      assert upper * row == {};
      assert width * (height - 1) + width == width * height;
      upper + row
  }

  /**
    make_grid: a board with one tile per (row, col), row in [0, height) and
    col in [0, width); a negative dimension gives no tiles, as an empty range
    does.  The random draw of each letter is replaced by the parameter `letter`.
   */
  function MakeGrid(width: int, height: int, letter: Coord -> char): (grid: Grid)
    requires forall p :: 'A' <= letter(p) <= 'Z'
    ensures IsRectangle(grid, width, height)
    ensures forall p :: p in grid ==> grid[p] == letter(p) && 'A' <= grid[p] <= 'Z'
    ensures width >= 0 && height >= 0 ==> |grid.Keys| == width * height
  {
    var cells := Cells(if width < 0 then 0 else width, if height < 0 then 0 else height);
    var grid := map p | p in cells :: letter(p);
    assert grid.Keys == cells;
    grid
  }

  // ---------------------------------------------------------------------
  // neighbours_of_position
  // ---------------------------------------------------------------------

  /**
    The eight positions around `coords`, top-left to top-right, then left and
    right, then bottom-left to bottom-right.  Nothing is filtered here: the
    positions may lie outside any board.
   */
  function NeighboursOfPosition(coords: Coord): (candidates: seq<Coord>)
    ensures |candidates| == 8
    ensures Sorted(candidates)
    ensures forall i :: 0 <= i < |candidates| ==> Touching(coords, candidates[i])
    ensures forall p :: Touching(coords, p) ==> p in candidates
  {
    var (row, col) := coords;
    var topLeft := (row - 1, col - 1);
    var topCentre := (row - 1, col);
    var topRight := (row - 1, col + 1);
    var left := (row, col - 1);
    var right := (row, col + 1);
    var bottomLeft := (row + 1, col - 1);
    var bottomCentre := (row + 1, col);
    var bottomRight := (row + 1, col + 1);
    var candidates := [topLeft, topCentre, topRight, left, right, bottomLeft, bottomCentre, bottomRight];
    assert forall p :: Touching(coords, p) ==> p in candidates by {
      forall p | Touching(coords, p) ensures p in candidates {
        var (r, c) := p;
        if r == row - 1 {
          assert p == topLeft || p == topCentre || p == topRight;
        } else if r == row {
          assert p == left || p == right;
        } else {
          assert p == bottomLeft || p == bottomCentre || p == bottomRight;
        }
      }
    }
    candidates
  }

  // ---------------------------------------------------------------------
  // The membership filter of all_grid_neighbours
  // ---------------------------------------------------------------------

  /** `[p for p in candidates if p in grid]`: keep, in order, the candidates that are tiles. */
  function KeepInGrid(candidates: seq<Coord>, grid: Grid): (kept: seq<Coord>)
    ensures |kept| <= |candidates|
    ensures forall p :: p in kept <==> p in candidates && p in grid
    ensures Sorted(candidates) ==> Sorted(kept)
  {
    if candidates == [] then []
    else
      var rest := KeepInGrid(candidates[1..], grid);
      assert forall p :: p in candidates <==> p == candidates[0] || p in candidates[1..];
      if candidates[0] in grid then
        assert Sorted(candidates) ==> forall j :: 0 <= j < |rest| ==> RowMajorBefore(candidates[0], rest[j]) by {
          if Sorted(candidates) {
            forall j | 0 <= j < |rest| ensures RowMajorBefore(candidates[0], rest[j]) {
              assert rest[j] in rest;
              var k :| 0 <= k < |candidates[1..]| && candidates[1..][k] == rest[j];
              assert candidates[k + 1] == rest[j];
            }
          }
        }
        [candidates[0]] + rest
      else rest
  }

  /** Keeping the candidates of a board that holds all of them changes nothing. */
  lemma {:induction false} KeepInGridAll(candidates: seq<Coord>, grid: Grid)
    requires forall i :: 0 <= i < |candidates| ==> candidates[i] in grid
    ensures KeepInGrid(candidates, grid) == candidates
  {
    if candidates != [] {
      KeepInGridAll(candidates[1..], grid);
    }
  }

  /** The neighbour list all_grid_neighbours stores for tile `p`. */
  function InGridNeighbours(grid: Grid, p: Coord): (neighbours: seq<Coord>)
    ensures |neighbours| <= 8
    ensures Sorted(neighbours)
    ensures forall q {:trigger q in neighbours} :: q in neighbours <==> q in grid && Touching(p, q)
  {
    KeepInGrid(NeighboursOfPosition(p), grid)
  }

  /** `neighbours` lists, for every tile of `grid`, the neighbours all_grid_neighbours stores for it. */
  predicate IsNeighbourTable(grid: Grid, neighbours: NeighbourTable)
  {
    forall p {:trigger neighbours[p]} {:trigger p in neighbours} :: p in grid ==> p in neighbours && neighbours[p] == InGridNeighbours(grid, p)
  }

  /** all_grid_neighbours: for every tile, in any order, store its filtered candidate list. */
  method AllGridNeighbours(grid: Grid) returns (neighbours: NeighbourTable)
    ensures neighbours.Keys == grid.Keys
    ensures IsNeighbourTable(grid, neighbours)
  {
    neighbours := map[];
    var remaining := grid.Keys;
    while remaining != {}
      invariant remaining <= grid.Keys
      invariant neighbours.Keys == grid.Keys - remaining
      invariant forall p :: p in neighbours ==> neighbours[p] == InGridNeighbours(grid, p)
      decreases remaining
    {
      var position :| position in remaining;
      var positionNeighbours := NeighboursOfPosition(position);
      neighbours := neighbours[position := KeepInGrid(positionNeighbours, grid)];
      remaining := remaining - {position};
    }
  }

  /** Adjacency between tiles is symmetric. */
  lemma InGridNeighboursSymmetric(grid: Grid, a: Coord, b: Coord)
    requires a in grid && b in grid
    ensures b in InGridNeighbours(grid, a) <==> a in InGridNeighbours(grid, b)
  {
  }

  /** The adjacency table is symmetric: b is listed for a exactly when a is listed for b. */
  lemma NeighbourTableSymmetric(grid: Grid, neighbours: NeighbourTable, a: Coord, b: Coord)
    requires IsNeighbourTable(grid, neighbours)
    requires a in grid && b in grid
    ensures b in neighbours[a] <==> a in neighbours[b]
  {
    InGridNeighboursSymmetric(grid, a, b);
  }

  /** Two sorted sequences with the same elements are the same sequence. */
  lemma {:induction false} SortedUnique(s: seq<Coord>, t: seq<Coord>)
    requires Sorted(s) && Sorted(t)
    requires forall p :: p in s <==> p in t
    ensures s == t
  {
    assert s != [] ==> s[0] in t;
    assert t != [] ==> t[0] in s;
    if s != [] && t != [] {
      assert s[0] == t[0] by {
        var i :| 0 <= i < |t| && t[i] == s[0];
        var j :| 0 <= j < |s| && s[j] == t[0];
      }
      forall p ensures p in s[1..] <==> p in t[1..] {
        if p in s[1..] {
          var k :| 1 <= k < |s| && s[k] == p;
          assert RowMajorBefore(s[0], p);
          assert p in s;
          var m :| 0 <= m < |t| && t[m] == p;
          assert m != 0;
          assert t[1..][m - 1] == p;
        }
        if p in t[1..] {
          var k :| 1 <= k < |t| && t[k] == p;
          assert RowMajorBefore(t[0], p);
          assert p in t;
          var m :| 0 <= m < |s| && s[m] == p;
          assert m != 0;
          assert s[1..][m - 1] == p;
        }
      }
      SortedUnique(s[1..], t[1..]);
      assert s == [s[0]] + s[1..];
      assert t == [t[0]] + t[1..];
    }
  }

  /** A tile away from every edge of a rectangular board keeps all eight neighbours. */
  lemma InteriorNeighbours(grid: Grid, width: int, height: int, p: Coord)
    requires IsRectangle(grid, width, height)
    requires 0 < p.0 < height - 1 && 0 < p.1 < width - 1
    ensures InGridNeighbours(grid, p) == NeighboursOfPosition(p)
    ensures |InGridNeighbours(grid, p)| == 8
  {
    var candidates := NeighboursOfPosition(p);
    forall i | 0 <= i < |candidates| ensures candidates[i] in grid {
      assert Touching(p, candidates[i]);
    }
    KeepInGridAll(candidates, grid);
  }

  /** The top-left corner of a rectangular board at least 2 by 2 has three neighbours. */
  lemma CornerNeighbours(grid: Grid, width: int, height: int)
    requires IsRectangle(grid, width, height)
    requires width >= 2 && height >= 2
    ensures InGridNeighbours(grid, (0, 0)) == [(0, 1), (1, 0), (1, 1)]
    ensures |InGridNeighbours(grid, (0, 0))| == 3
  {
    var expected := [(0, 1), (1, 0), (1, 1)];
    var actual := InGridNeighbours(grid, (0, 0));
    assert forall q :: q in actual <==> q in expected;
    SortedUnique(actual, expected);
  }

  /** A tile on the top edge, away from the corners, of a board at least 2 rows high has five neighbours. */
  lemma TopEdgeNeighbours(grid: Grid, width: int, height: int, col: int)
    requires IsRectangle(grid, width, height)
    requires height >= 2 && 0 < col < width - 1
    ensures InGridNeighbours(grid, (0, col))
            == [(0, col - 1), (0, col + 1), (1, col - 1), (1, col), (1, col + 1)]
    ensures |InGridNeighbours(grid, (0, col))| == 5
  {
    var expected := [(0, col - 1), (0, col + 1), (1, col - 1), (1, col), (1, col + 1)];
    var actual := InGridNeighbours(grid, (0, col));
    assert forall q :: q in actual <==> q in expected;
    SortedUnique(actual, expected);
  }

  /** The top-right corner of a rectangular board at least 2 by 2 has three neighbours. */
  lemma TopRightCornerNeighbours(grid: Grid, width: int, height: int)
    requires IsRectangle(grid, width, height)
    requires width >= 2 && height >= 2
    ensures InGridNeighbours(grid, (0, width - 1))
            == [(0, width - 2), (1, width - 2), (1, width - 1)]
    ensures |InGridNeighbours(grid, (0, width - 1))| == 3
  {
    var expected := [(0, width - 2), (1, width - 2), (1, width - 1)];
    var actual := InGridNeighbours(grid, (0, width - 1));
    assert forall q :: q in actual <==> q in expected;
    SortedUnique(actual, expected);
  }

  /** The bottom-left corner of a rectangular board at least 2 by 2 has three neighbours. */
  lemma BottomLeftCornerNeighbours(grid: Grid, width: int, height: int)
    requires IsRectangle(grid, width, height)
    requires width >= 2 && height >= 2
    ensures InGridNeighbours(grid, (height - 1, 0))
            == [(height - 2, 0), (height - 2, 1), (height - 1, 1)]
    ensures |InGridNeighbours(grid, (height - 1, 0))| == 3
  {
    var expected := [(height - 2, 0), (height - 2, 1), (height - 1, 1)];
    var actual := InGridNeighbours(grid, (height - 1, 0));
    assert forall q :: q in actual <==> q in expected;
    SortedUnique(actual, expected);
  }

  /** The bottom-right corner of a rectangular board at least 2 by 2 has three neighbours. */
  lemma BottomRightCornerNeighbours(grid: Grid, width: int, height: int)
    requires IsRectangle(grid, width, height)
    requires width >= 2 && height >= 2
    ensures InGridNeighbours(grid, (height - 1, width - 1))
            == [(height - 2, width - 2), (height - 2, width - 1), (height - 1, width - 2)]
    ensures |InGridNeighbours(grid, (height - 1, width - 1))| == 3
  {
    var expected := [(height - 2, width - 2), (height - 2, width - 1), (height - 1, width - 2)];
    var actual := InGridNeighbours(grid, (height - 1, width - 1));
    assert forall q :: q in actual <==> q in expected;
    SortedUnique(actual, expected);
  }

  /** A tile on the bottom edge, away from the corners, of a board at least 2 rows high has five neighbours. */
  lemma BottomEdgeNeighbours(grid: Grid, width: int, height: int, col: int)
    requires IsRectangle(grid, width, height)
    requires height >= 2 && 0 < col < width - 1
    ensures InGridNeighbours(grid, (height - 1, col))
            == [(height - 2, col - 1), (height - 2, col), (height - 2, col + 1),
                (height - 1, col - 1), (height - 1, col + 1)]
    ensures |InGridNeighbours(grid, (height - 1, col))| == 5
  {
    var expected := [(height - 2, col - 1), (height - 2, col), (height - 2, col + 1),
                     (height - 1, col - 1), (height - 1, col + 1)];
    var actual := InGridNeighbours(grid, (height - 1, col));
    assert forall q :: q in actual <==> q in expected;
    SortedUnique(actual, expected);
  }

  /** A tile on the left edge, away from the corners, of a board at least 2 columns wide has five neighbours. */
  lemma LeftEdgeNeighbours(grid: Grid, width: int, height: int, row: int)
    requires IsRectangle(grid, width, height)
    requires width >= 2 && 0 < row < height - 1
    ensures InGridNeighbours(grid, (row, 0))
            == [(row - 1, 0), (row - 1, 1), (row, 1), (row + 1, 0), (row + 1, 1)]
    ensures |InGridNeighbours(grid, (row, 0))| == 5
  {
    var expected := [(row - 1, 0), (row - 1, 1), (row, 1), (row + 1, 0), (row + 1, 1)];
    var actual := InGridNeighbours(grid, (row, 0));
    assert forall q :: q in actual <==> q in expected;
    SortedUnique(actual, expected);
  }

  /** A tile on the right edge, away from the corners, of a board at least 2 columns wide has five neighbours. */
  lemma RightEdgeNeighbours(grid: Grid, width: int, height: int, row: int)
    requires IsRectangle(grid, width, height)
    requires width >= 2 && 0 < row < height - 1
    ensures InGridNeighbours(grid, (row, width - 1))
            == [(row - 1, width - 2), (row - 1, width - 1), (row, width - 2),
                (row + 1, width - 2), (row + 1, width - 1)]
    ensures |InGridNeighbours(grid, (row, width - 1))| == 5
  {
    var expected := [(row - 1, width - 2), (row - 1, width - 1), (row, width - 2),
                     (row + 1, width - 2), (row + 1, width - 1)];
    var actual := InGridNeighbours(grid, (row, width - 1));
    assert forall q :: q in actual <==> q in expected;
    SortedUnique(actual, expected);
  }

  // ---------------------------------------------------------------------
  // path_to_word
  // ---------------------------------------------------------------------

  /** Every position of `path` is a tile of `grid`. */
  predicate OnGrid(grid: Grid, path: Path)
  {
    forall i :: 0 <= i < |path| ==> path[i] in grid
  }

  /** `''.join([grid[p] for p in path])`: the letters along the path, in path order. */
  function PathToWord(grid: Grid, path: Path): (word: string)
    requires OnGrid(grid, path)
    ensures |word| == |path|
    ensures forall i :: 0 <= i < |path| ==> word[i] == grid[path[i]]
  {
    if path == [] then ""
    else [grid[path[0]]] + PathToWord(grid, path[1..])
  }

  /** The word of a prefix of a path is the same prefix of the path's word. */
  lemma PathToWordPrefix(grid: Grid, path: Path, k: nat)
    requires OnGrid(grid, path)
    requires k <= |path|
    ensures PathToWord(grid, path[..k]) == PathToWord(grid, path)[..k]
  {
    assert OnGrid(grid, path[..k]);
  }

  /** Extending a path by one tile appends that tile's letter. */
  lemma PathToWordAppend(grid: Grid, path: Path, p: Coord)
    requires OnGrid(grid, path) && p in grid
    ensures OnGrid(grid, path + [p])
    ensures PathToWord(grid, path + [p]) == PathToWord(grid, path) + [grid[p]]
  {
    assert OnGrid(grid, path + [p]);
  }

  // ---------------------------------------------------------------------
  // Simple adjacent paths
  // ---------------------------------------------------------------------

  /** No position occurs twice. */
  predicate NoRepeats(path: Path)
  {
    forall i, j :: 0 <= i < j < |path| ==> path[i] != path[j]
  }

  /**
    Each step goes to a touching position.  On a path of tiles this is the
    same as each step going to a tile the adjacency table lists for the
    previous one (AdjacentByTable).
   */
  predicate Adjacent(path: Path)
  {
    forall i :: 0 < i < |path| ==> Touching(path[i - 1], path[i])
  }

  /** A non-empty walk over tiles, each step to a neighbour, never revisiting a tile. */
  predicate SimplePath(grid: Grid, path: Path)
  {
    |path| > 0 && OnGrid(grid, path) && NoRepeats(path) && Adjacent(path)
  }

  /** On a path of tiles, each step touches the previous tile exactly when the table lists it. */
  lemma AdjacentByTable(grid: Grid, neighbours: NeighbourTable, path: Path)
    requires IsNeighbourTable(grid, neighbours)
    requires OnGrid(grid, path)
    ensures Adjacent(path) <==> forall i :: 0 < i < |path| ==> path[i] in neighbours[path[i - 1]]
  {
  }

  /** The positions visited by a path. */
  function Visited(path: Path): (cells: set<Coord>)
    ensures forall p :: p in cells <==> p in path
  {
    set p | p in path
  }

  /** A path with no repeats visits exactly |path| distinct positions. */
  lemma {:induction false} VisitedSize(path: Path)
    requires NoRepeats(path)
    ensures |Visited(path)| == |path|
  {
    if path != [] {
      var rest := path[..|path| - 1];
      var last := path[|path| - 1];
      VisitedSize(rest);
      assert Visited(path) == Visited(rest) + {last};
      assert last !in Visited(rest);
    }
  }

  /** A path that never revisits a tile is no longer than the board has tiles. */
  lemma PathLengthBound(grid: Grid, path: Path)
    requires OnGrid(grid, path) && NoRepeats(path)
    ensures |path| <= |grid.Keys|
  {
    VisitedSize(path);
    SubsetSize(Visited(path), grid.Keys);
  }

  /** A subset is no larger than its superset. */
  lemma {:induction false} SubsetSize<T>(a: set<T>, b: set<T>)
    requires a <= b
    ensures |a| <= |b|
  {
    if a != {} {
      var x :| x in a;
      SubsetSize(a - {x}, b - {x});
    }
  }

  /** Stepping from the end of a simple path to an unvisited neighbour gives a simple path. */
  lemma ExtendSimplePath(grid: Grid, path: Path, next: Coord)
    requires SimplePath(grid, path)
    requires next in InGridNeighbours(grid, path[|path| - 1])
    requires next !in path
    ensures SimplePath(grid, path + [next])
  {
    var longer := path + [next];
    forall i | 0 < i < |longer| ensures Touching(longer[i - 1], longer[i]) {
      if i < |path| {
        assert longer[i] == path[i] && longer[i - 1] == path[i - 1];
      }
    }
    assert NoRepeats(longer) by {
      forall i, j | 0 <= i < j < |longer| ensures longer[i] != longer[j] {
        assert longer[i] == path[i];
      }
    }
  }

  /** Every non-empty prefix of a simple path is a simple path. */
  lemma SimplePathPrefix(grid: Grid, path: Path, k: nat)
    requires SimplePath(grid, path)
    requires 1 <= k <= |path|
    ensures SimplePath(grid, path[..k])
  {
  }
}
