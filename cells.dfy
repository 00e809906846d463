/** Cells, coordinates and square grids: the vocabulary shared by every other module.
    A grid is a value `g` of rows, read as `g[y][x]` for the point with coordinates `(x, y)`,
    exactly as the numpy array `board[y, x]` is read in the program. */
module Cells {

  /** The three states of a point; the program encodes them as 0, 1 and 2. */
  datatype Cell = Empty | Black | White

  datatype Option<T> = None | Some(value: T)

  /** A coordinate `(x, y)`: column first, row second. */
  datatype Pos = Pos(x: int, y: int)

  type Grid = seq<seq<Cell>>

  /** A map of booleans over the board, as the numpy `dtype=bool` arrays. */
  type BoolMap = seq<seq<bool>>

  /** A square grid: every row is as long as the grid has rows. */
  predicate IsGrid(g: Grid) {
    forall y :: 0 <= y < |g| ==> |g[y]| == |g|
  }

  predicate IsBoolMap(m: BoolMap, n: nat) {
    |m| == n && forall y :: 0 <= y < n ==> |m[y]| == n
  }

  predicate InBounds(n: int, p: Pos) {
    0 <= p.x < n && 0 <= p.y < n
  }

  predicate IsStone(c: Cell) {
    c == Black || c == White
  }

  function At(g: Grid, p: Pos): Cell
    requires IsGrid(g) && InBounds(|g|, p)
  {
    g[p.y][p.x]
  }

  function MapAt(m: BoolMap, p: Pos): bool
    requires IsBoolMap(m, |m|) && InBounds(|m|, p)
  {
    m[p.y][p.x]
  }

  /** The colour that captures against `c`: White for Black and Black for everything else,
      as the program's `WHITE if color == BLACK else BLACK`. */
  function Opponent(c: Cell): (o: Cell)
    ensures IsStone(o) && o != c
  {
    if c == Black then White else Black
  }

  /** The four orthogonal offsets in the order every loop of the program visits them. */
  const Dirs: seq<(int, int)> := [(0, 1), (1, 0), (0, -1), (-1, 0)]

  function Neighbor(p: Pos, i: nat): Pos
    requires i < 4
  {
    Pos(p.x + Dirs[i].0, p.y + Dirs[i].1)
  }

  /** Orthogonal adjacency is symmetric: stepping in direction `i` and then in the opposite
      direction `(i + 2) % 4` returns to the start. */
  lemma NeighborBack(p: Pos, i: nat)
    requires i < 4
    ensures Neighbor(Neighbor(p, i), (i + 2) % 4) == p
  {
  }

  /** The cell `p`, written with `c`; every other cell is kept. */
  function SetCell(g: Grid, p: Pos, c: Cell): (r: Grid)
    requires IsGrid(g) && InBounds(|g|, p)
    ensures IsGrid(r) && |r| == |g|
    ensures forall q :: InBounds(|g|, q) ==> At(r, q) == if q == p then c else At(g, q)
  {
    g[p.y := g[p.y][p.x := c]]
  }

  /** Every cell listed in `s` made Empty; the cells not listed are kept. */
  function ClearCells(g: Grid, s: seq<Pos>): (r: Grid)
    requires IsGrid(g)
    ensures IsGrid(r) && |r| == |g|
    ensures forall q :: InBounds(|g|, q) ==> At(r, q) == if q in s then Empty else At(g, q)
  {
    seq(|g|, y requires 0 <= y < |g| =>
      seq(|g|, x requires 0 <= x < |g| => if Pos(x, y) in s then Empty else g[y][x]))
  }

  /** Two grids of the same size that agree at every point are equal. */
  lemma GridExt(g1: Grid, g2: Grid)
    requires IsGrid(g1) && IsGrid(g2) && |g1| == |g2|
    requires forall q :: InBounds(|g1|, q) ==> At(g1, q) == At(g2, q)
    ensures g1 == g2
  {
    forall y | 0 <= y < |g1|
      ensures g1[y] == g2[y]
    {
      forall x | 0 <= x < |g1|
        ensures g1[y][x] == g2[y][x]
      {
        assert At(g1, Pos(x, y)) == At(g2, Pos(x, y));
      }
    }
  }

  /** An all-Empty grid of side `n`, as `np.zeros((size, size), dtype=int)`. */
  function EmptyGrid(n: nat): (g: Grid)
    ensures IsGrid(g) && |g| == n
    ensures forall q :: InBounds(n, q) ==> At(g, q) == Empty
  {
    seq(n, _ => seq(n, _ => Empty))
  }

  /** An all-false map of side `n`, as `np.zeros((size, size), dtype=bool)`. */
  function FalseMap(n: nat): (m: BoolMap)
    ensures IsBoolMap(m, n)
    ensures forall q :: InBounds(n, q) ==> !MapAt(m, q)
  {
    seq(n, _ => seq(n, _ => false))
  }

  predicate NoDup<T(==)>(s: seq<T>) {
    forall i, j :: 0 <= i < j < |s| ==> s[i] != s[j]
  }

  function SetOf<T(==)>(s: seq<T>): set<T> {
    set x | x in s
  }

  /** Every point of the board of side `n`. */
  function AllCells(n: nat): set<Pos> {
    set x, y | 0 <= x < n && 0 <= y < n :: Pos(x, y)
  }

  lemma InAllCells(n: nat, s: set<Pos>)
    requires forall q :: q in s ==> InBounds(n, q)
    ensures s <= AllCells(n)
  {
    forall q | q in s ensures q in AllCells(n) {
      assert q == Pos(q.x, q.y);
    }
  }

  lemma SingletonSet<T>(s: seq<T>)
    requires |s| == 1
    ensures SetOf(s) == {s[0]}
  {
  }

  /** A subset is no larger than its superset. */
  lemma {:induction false} SubsetCard<T>(a: set<T>, b: set<T>)
    requires a <= b
    ensures |a| <= |b|
    decreases |a|
  {
    if a != {} {
      var x :| x in a;
      SubsetCard(a - {x}, b - {x});
    }
  }

  /** A duplicate-free list has as many distinct elements as entries. */
  lemma NoDupCard<T>(s: seq<T>)
    requires NoDup(s)
    ensures |SetOf(s)| == |s|
  {
    if s != [] {
      var t := s[..|s| - 1];
      assert NoDup(t);
      NoDupCard(t);
      assert SetOf(s) == SetOf(t) + {s[|s| - 1]};
      assert s[|s| - 1] !in SetOf(t);
    }
  }

  /** The points a map marks true; `np.sum` of the map is the size of this set. */
  function TrueCells(m: BoolMap): set<Pos>
    requires IsBoolMap(m, |m|)
  {
    set x, y | 0 <= x < |m| && 0 <= y < |m| && m[y][x] :: Pos(x, y)
  }

  /** The map with the point `p` set to true, as `territory[y, x] = True`. */
  function SetTrue(m: BoolMap, p: Pos): (r: BoolMap)
    requires IsBoolMap(m, |m|) && InBounds(|m|, p)
    ensures IsBoolMap(r, |m|)
    ensures forall q :: InBounds(|m|, q) ==> MapAt(r, q) == (q == p || MapAt(m, q))
  {
    m[p.y := m[p.y][p.x := true]]
  }
}
