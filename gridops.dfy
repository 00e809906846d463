/** The loops the program runs over a numpy board, on an `array2<Cell>` indexed `[y, x]`.
    Each method takes the grid value that the array holds as a ghost parameter and is proved
    to compute the function of that value that the value modules define. The board class and
    the analyser both run these loops, on the real board or on a copy of it. */
module GridOps {
  import opened Cells
  import opened Groups
  import opened Moves
  import opened Territory
  import opened Influence

  /** The array `a` holds the square grid `g`. */
  ghost predicate Holds(a: array2<Cell>, g: Grid)
    reads a
  {
    && IsGrid(g) && a.Length0 == |g| && a.Length1 == |g|
    && forall y, x :: 0 <= y < |g| && 0 <= x < |g| ==> a[y, x] == g[y][x]
  }

  /** `board.copy()`. */
  method CopyGrid(a: array2<Cell>, ghost g: Grid) returns (b: array2<Cell>)
    requires Holds(a, g)
    ensures fresh(b) && Holds(b, g)
  {
    b := new Cell[a.Length0, a.Length1]((y, x) requires 0 <= y < a.Length0 && 0 <= x < a.Length1 reads a => a[y, x]);
  }

  /** `board[y, x] = c`, in place. */
  method WriteCell(a: array2<Cell>, ghost g: Grid, p: Pos, c: Cell)
    requires Holds(a, g) && InBounds(|g|, p)
    modifies a
    ensures Holds(a, SetCell(g, p, c))
  {
    a[p.y, p.x] := c;
    assert forall y, x :: 0 <= y < |g| && 0 <= x < |g| ==> At(SetCell(g, p, c), Pos(x, y)) == SetCell(g, p, c)[y][x];
  }

  /** The visited array marks exactly the cells of `vis`, all of them in bounds. */
  ghost predicate Tracks(visited: array2<bool>, vis: set<Pos>)
    reads visited
  {
    && (forall q :: q in vis ==> InBounds(visited.Length0, q))
    && forall y, x :: 0 <= y < visited.Length0 && 0 <= x < visited.Length1 ==> (visited[y, x] <==> Pos(x, y) in vis)
  }

  /** A neighbour that the search pushes: it heads the rest of the expansion. */
  lemma PushTaken(g: Grid, c: Cell, p: Pos, i: nat, queue: seq<Pos>, vis: set<Pos>)
    requires IsGrid(g) && i < 4
    requires InBounds(|g|, Neighbor(p, i)) && Neighbor(p, i) !in vis && At(g, Neighbor(p, i)) == c
    ensures queue + [Neighbor(p, i)] + Expand(g, c, p, i + 1, vis + {Neighbor(p, i)}) == queue + Expand(g, c, p, i, vis)
    ensures (vis + {Neighbor(p, i)}) + SetOf(Expand(g, c, p, i + 1, vis + {Neighbor(p, i)}))
         == vis + SetOf(Expand(g, c, p, i, vis))
  {
    var q := Neighbor(p, i);
    var more := Expand(g, c, p, i + 1, vis + {q});
    assert Expand(g, c, p, i, vis) == [q] + more;
    assert (queue + [q]) + more == queue + ([q] + more);
    assert SetOf([q] + more) == {q} + SetOf(more);
  }

  /** One direction of the inner loop of the search: push the neighbour in direction `i`
      when it is in bounds, unvisited and of colour `c`. */
  method PushNeighbor(a: array2<Cell>, ghost g: Grid, c: Cell, p: Pos, i: nat, visited: array2<bool>,
                      queue: seq<Pos>, ghost vis: set<Pos>)
    returns (queue': seq<Pos>, ghost vis': set<Pos>)
    requires Holds(a, g) && visited.Length0 == |g| && visited.Length1 == |g| && Tracks(visited, vis) && i < 4
    modifies visited
    ensures Tracks(visited, vis')
    ensures queue' + Expand(g, c, p, i + 1, vis') == queue + Expand(g, c, p, i, vis)
    ensures vis' + SetOf(Expand(g, c, p, i + 1, vis')) == vis + SetOf(Expand(g, c, p, i, vis))
  {
    var n := a.Length0;
    var nx, ny := p.x + Dirs[i].0, p.y + Dirs[i].1;
    ghost var q := Neighbor(p, i);
    if 0 <= nx < n && 0 <= ny < n {
      assert visited[ny, nx] <==> q in vis;
      assert a[ny, nx] == At(g, q);
    }
    if 0 <= nx < n && 0 <= ny < n && !visited[ny, nx] && a[ny, nx] == c {
      PushTaken(g, c, p, i, queue, vis);
      queue' := queue + [Pos(nx, ny)];
      visited[ny, nx] := true;
      vis' := vis + {q};
    } else {
      queue', vis' := queue, vis;
    }
  }

  /** The inner loop of the search: push the unvisited neighbours of colour `c` of `p`. */
  method PushNeighbors(a: array2<Cell>, ghost g: Grid, c: Cell, p: Pos, visited: array2<bool>,
                       queue: seq<Pos>, ghost vis: set<Pos>)
    returns (queue': seq<Pos>, ghost vis': set<Pos>)
    requires Holds(a, g) && visited.Length0 == |g| && visited.Length1 == |g| && Tracks(visited, vis)
    modifies visited
    ensures Tracks(visited, vis')
    ensures queue' == queue + Expand(g, c, p, 0, vis)
    ensures vis' == vis + SetOf(Expand(g, c, p, 0, vis))
  {
    queue', vis' := queue, vis;
    var i := 0;
    while i < 4
      invariant 0 <= i <= 4
      invariant Tracks(visited, vis')
      invariant queue' + Expand(g, c, p, i, vis') == queue + Expand(g, c, p, 0, vis)
      invariant vis' + SetOf(Expand(g, c, p, i, vis')) == vis + SetOf(Expand(g, c, p, 0, vis))
    {
      queue', vis' := PushNeighbor(a, g, c, p, i, visited, queue', vis');
      i := i + 1;
    }
    assert Expand(g, c, p, 4, vis') == [];
    assert SetOf<Pos>([]) == {};
  }

  /** The breadth-first search of `find_group` / `find_empty_group`, with a visited array
      and a queue, from a start point of colour `c`. */
  method FloodFill(a: array2<Cell>, ghost g: Grid, c: Cell, start: Pos) returns (group: seq<Pos>)
    requires Holds(a, g) && InBounds(|g|, start) && At(g, start) == c
    ensures group == Flood(g, c, start)
  {
    var n := a.Length0;
    var visited := new bool[n, n]((_, _) => false);
    visited[start.y, start.x] := true;
    var queue := [start];
    ghost var vis: set<Pos> := {start};
    group := [];
    while queue != []
      invariant Tracks(visited, vis)
      invariant Bfs(g, c, queue, vis, group) == Flood(g, c, start)
      decreases |AllCells(n) - vis|, |queue|
    {
      var p := queue[0];
      ghost var vis0 := vis;
      ghost var added := Expand(g, c, p, 0, vis0);
      ExpandSpec(g, c, p, 0, vis0);
      group := group + [p];
      queue, vis := PushNeighbors(a, g, c, p, visited, queue[1..], vis);
      InAllCells(n, vis0);
      InAllCells(n, SetOf(added));
      if added != [] {
        assert added[0] in SetOf(added);
        FewerUnvisited(n, vis0, SetOf(added));
      } else {
        assert vis == vis0;
      }
    }
  }

  /** `has_liberty(group)`: does some cell of the group have an Empty in-bounds neighbour? */
  method HasLiberty(a: array2<Cell>, ghost g: Grid, group: seq<Pos>) returns (b: bool)
    requires Holds(a, g)
    ensures b <==> Liberties(g, group) != {}
  {
    var n := a.Length0;
    var k := 0;
    while k < |group|
      invariant 0 <= k <= |group|
      invariant Liberties(g, group[..k]) == {}
    {
      var p := group[k];
      var i := 0;
      while i < 4
        invariant 0 <= i <= 4
        invariant NeighborsOf(g, p, Empty, i) == {}
      {
        var nx, ny := p.x + Dirs[i].0, p.y + Dirs[i].1;
        if 0 <= nx < n && 0 <= ny < n && a[ny, nx] == Empty {
          assert Neighbor(p, i) in Liberties(g, group);
          return true;
        }
        assert NeighborsOf(g, p, Empty, i + 1) == NeighborsOf(g, p, Empty, i);
        i := i + 1;
      }
      AdjacentSnoc(g, group[..k], p, Empty);
      assert group[..k + 1] == group[..k] + [p];
      k := k + 1;
    }
    assert group[..k] == group;
    return false;
  }

  /** The set of in-bounds neighbours of colour `c` of the group's cells, as the loops of
      `get_liberties`, `count_liberties` and `count_surrounding_stones` collect it. */
  method CollectAdjacent(a: array2<Cell>, ghost g: Grid, group: seq<Pos>, c: Cell) returns (s: set<Pos>)
    requires Holds(a, g)
    ensures s == Adjacent(g, group, c)
  {
    var n := a.Length0;
    s := {};
    var k := 0;
    while k < |group|
      invariant 0 <= k <= |group|
      invariant s == Adjacent(g, group[..k], c)
    {
      var p := group[k];
      ghost var s0 := s;
      var i := 0;
      while i < 4
        invariant 0 <= i <= 4
        invariant s == s0 + NeighborsOf(g, p, c, i)
      {
        var nx, ny := p.x + Dirs[i].0, p.y + Dirs[i].1;
        NeighborsOfStep(g, p, c, i);
        if 0 <= nx < n && 0 <= ny < n && a[ny, nx] == c {
          s := s + {Pos(nx, ny)};
        }
        i := i + 1;
      }
      AdjacentSnoc(g, group[..k], p, c);
      assert group[..k + 1] == group[..k] + [p];
      k := k + 1;
    }
    assert group[..k] == group;
  }

  /** Every listed cell set to Empty, in place. */
  method RemoveStones(a: array2<Cell>, ghost g: Grid, group: seq<Pos>)
    requires Holds(a, g) && forall q :: q in group ==> InBounds(|g|, q)
    modifies a
    ensures Holds(a, ClearCells(g, group))
  {
    var k := 0;
    while k < |group|
      invariant 0 <= k <= |group|
      invariant a.Length0 == |g| && a.Length1 == |g|
      invariant Holds(a, ClearCells(g, group[..k]))
    {
      var q := group[k];
      assert q in group;
      assert group[..k + 1] == group[..k] + [q];
      a[q.y, q.x] := Empty;
      k := k + 1;
    }
    assert group[..k] == group;
  }

  /** One direction of the capture loop: remove the neighbour's group in direction `i` when
      it holds `opp` and has no liberty. */
  method CaptureDirection(a: array2<Cell>, ghost g: Grid, p: Pos, opp: Cell, i: nat)
    returns (removed: seq<Pos>, ghost g': Grid)
    requires Holds(a, g) && i < 4
    modifies a
    ensures Holds(a, g') && |g'| == |g|
    ensures CaptureFrom(g', p, opp, i + 1).grid == CaptureFrom(g, p, opp, i).grid
    ensures removed + CaptureFrom(g', p, opp, i + 1).captured == CaptureFrom(g, p, opp, i).captured
  {
    var n := a.Length0;
    removed, g' := [], g;
    var nx, ny := p.x + Dirs[i].0, p.y + Dirs[i].1;
    var nb := Pos(nx, ny);
    assert nb == Neighbor(p, i);
    if 0 <= nx < n && 0 <= ny < n && a[ny, nx] == opp {
      assert At(g, nb) == opp;
      var group := FloodFill(a, g, opp, nb);
      var free := HasLiberty(a, g, group);
      if !free {
        RemoveStones(a, g, group);
        removed, g' := group, ClearCells(g, group);
        ghost var rest := CaptureFrom(g', p, opp, i + 1);
        assert CaptureFrom(g, p, opp, i) == Capture(rest.grid, group + rest.captured);
      } else {
        assert CaptureFrom(g, p, opp, i) == CaptureFrom(g, p, opp, i + 1);
      }
    } else {
      assert !(InBounds(|g|, nb) && At(g, nb) == opp) by {
        if InBounds(|g|, nb) {
          assert a[ny, nx] == At(g, nb);
        }
      }
      assert CaptureFrom(g, p, opp, i) == CaptureFrom(g, p, opp, i + 1);
    }
  }

  /** The capture loop of `place_stone` and `capture_stones`, in place on the array. */
  method CaptureStones(a: array2<Cell>, ghost g: Grid, p: Pos, opp: Cell) returns (captured: seq<Pos>)
    requires Holds(a, g)
    modifies a
    ensures Holds(a, Captures(g, p, opp).grid) && captured == Captures(g, p, opp).captured
  {
    ghost var cur := g;
    captured := [];
    var i := 0;
    while i < 4
      invariant 0 <= i <= 4
      invariant Holds(a, cur) && |cur| == |g|
      invariant CaptureFrom(cur, p, opp, i).grid == Captures(g, p, opp).grid
      invariant captured + CaptureFrom(cur, p, opp, i).captured == Captures(g, p, opp).captured
    {
      var removed;
      removed, cur := CaptureDirection(a, cur, p, opp, i);
      captured := captured + removed;
      i := i + 1;
    }
  }

  /** `calculate_min_distance`: the row-major scan for the nearest stone of colour `c`. */
  method MinDistance(a: array2<Cell>, ghost g: Grid, p: Pos, c: Cell) returns (d: Option<nat>)
    requires Holds(a, g)
    ensures d == MinDist(g, p, c)
  {
    var n := a.Length0;
    d := None;
    var y := 0;
    while y < n
      invariant 0 <= y <= n
      invariant d == RowsMin(g, p, c, y)
    {
      ghost var d0 := d;
      var x := 0;
      while x < n
        invariant 0 <= x <= n
        invariant d == RowMin(g, p, c, y, x, d0)
      {
        if a[y, x] == c {
          d := MinWith(d, Manhattan(p, Pos(x, y)));
        }
        x := x + 1;
      }
      y := y + 1;
    }
  }

  /** The two flags of `calculate_territories` for one region: `byBlack` stays true while no
      White stone borders the region, `byWhite` while no Black stone does. */
  method BorderFlags(a: array2<Cell>, ghost g: Grid, region: seq<Pos>) returns (byBlack: bool, byWhite: bool)
    requires Holds(a, g)
    ensures byBlack <==> Adjacent(g, region, White) == {}
    ensures byWhite <==> Adjacent(g, region, Black) == {}
  {
    var n := a.Length0;
    byBlack, byWhite := true, true;
    var k := 0;
    while k < |region|
      invariant 0 <= k <= |region|
      invariant byBlack <==> Adjacent(g, region[..k], White) == {}
      invariant byWhite <==> Adjacent(g, region[..k], Black) == {}
    {
      var p := region[k];
      ghost var b0, w0 := byBlack, byWhite;
      var i := 0;
      while i < 4
        invariant 0 <= i <= 4
        invariant byBlack <==> b0 && NeighborsOf(g, p, White, i) == {}
        invariant byWhite <==> w0 && NeighborsOf(g, p, Black, i) == {}
      {
        var nx, ny := p.x + Dirs[i].0, p.y + Dirs[i].1;
        NeighborsOfStep(g, p, Black, i);
        NeighborsOfStep(g, p, White, i);
        if 0 <= nx < n && 0 <= ny < n {
          assert a[ny, nx] == At(g, Neighbor(p, i));
          if a[ny, nx] == Black {
            byWhite := false;
          } else if a[ny, nx] == White {
            byBlack := false;
          }
        }
        i := i + 1;
      }
      AdjacentSnoc(g, region[..k], p, Black);
      AdjacentSnoc(g, region[..k], p, White);
      assert region[..k + 1] == region[..k] + [p];
      k := k + 1;
    }
    assert region[..k] == region;
  }

  /** Every listed cell set to true in the map. */
  method MarkAll(m: BoolMap, cells: seq<Pos>) returns (r: BoolMap)
    requires IsBoolMap(m, |m|) && forall q :: q in cells ==> InBounds(|m|, q)
    ensures IsBoolMap(r, |m|)
    ensures forall q :: InBounds(|m|, q) ==> MapAt(r, q) == (q in cells || MapAt(m, q))
  {
    r := m;
    var k := 0;
    while k < |cells|
      invariant 0 <= k <= |cells|
      invariant IsBoolMap(r, |m|)
      invariant forall q :: InBounds(|m|, q) ==> MapAt(r, q) == (q in cells[..k] || MapAt(m, q))
    {
      assert cells[..k + 1] == cells[..k] + [cells[k]];
      r := SetTrue(r, cells[k]);
      k := k + 1;
    }
    assert cells[..k] == cells;
  }

  /** `q` comes before the point `(x, y)` in the row-major order of the scans. */
  predicate Before(q: Pos, y: int, x: int) {
    q.y < y || (q.y == y && q.x < x)
  }

  /** Every point marked in `m` is territory of `c`. */
  ghost predicate MarksOnlyOwned(m: BoolMap, g: Grid, c: Cell)
    requires IsGrid(g) && IsStone(c)
  {
    IsBoolMap(m, |g|) && forall q :: InBounds(|g|, q) && MapAt(m, q) ==> Owns(g, q, c)
  }

  /** The body of the scan for one point: an Empty point's region is flooded, its two flags
      read, and the whole region marked for the colour that alone borders it. */
  method MarkRegion(a: array2<Cell>, ghost g: Grid, here: Pos, bt: BoolMap, wt: BoolMap)
    returns (bt': BoolMap, wt': BoolMap)
    requires Holds(a, g) && InBounds(|g|, here)
    requires MarksOnlyOwned(bt, g, Black) && MarksOnlyOwned(wt, g, White)
    ensures MarksOnlyOwned(bt', g, Black) && MarksOnlyOwned(wt', g, White)
    ensures forall q :: InBounds(|g|, q) && MapAt(bt, q) ==> MapAt(bt', q)
    ensures forall q :: InBounds(|g|, q) && MapAt(wt, q) ==> MapAt(wt', q)
    ensures Owns(g, here, Black) ==> MapAt(bt', here)
    ensures Owns(g, here, White) ==> MapAt(wt', here)
  {
    bt', wt' := bt, wt;
    if a[here.y, here.x] == Empty {
      var region := FloodFill(a, g, Empty, here);
      var byBlack, byWhite := BorderFlags(a, g, region);
      forall r | r in region ensures InBounds(|g|, r) && (Owns(g, r, Black) <==> Owns(g, here, Black))
        && (Owns(g, r, White) <==> Owns(g, here, White))
      {
        OwnerIsUniform(g, here, r, Black);
        OwnerIsUniform(g, here, r, White);
      }
      if byBlack && !byWhite {
        bt' := MarkAll(bt, region);
      } else if byWhite && !byBlack {
        wt' := MarkAll(wt, region);
      }
    }
  }

  /** `calculate_territories`: the scan over every point, marking regions as it goes. */
  method Territories(a: array2<Cell>, ghost g: Grid) returns (bt: BoolMap, wt: BoolMap)
    requires Holds(a, g)
    ensures bt == TerritoryMap(g, Black) && wt == TerritoryMap(g, White)
  {
    var n := a.Length0;
    bt, wt := FalseMap(n), FalseMap(n);
    var y := 0;
    while y < n
      invariant 0 <= y <= n
      invariant MarksOnlyOwned(bt, g, Black) && MarksOnlyOwned(wt, g, White)
      invariant forall q :: InBounds(n, q) && q.y < y && Owns(g, q, Black) ==> MapAt(bt, q)
      invariant forall q :: InBounds(n, q) && q.y < y && Owns(g, q, White) ==> MapAt(wt, q)
    {
      var x := 0;
      while x < n
        invariant 0 <= x <= n
        invariant MarksOnlyOwned(bt, g, Black) && MarksOnlyOwned(wt, g, White)
        invariant forall q :: InBounds(n, q) && Before(q, y, x) && Owns(g, q, Black) ==> MapAt(bt, q)
        invariant forall q :: InBounds(n, q) && Before(q, y, x) && Owns(g, q, White) ==> MapAt(wt, q)
      {
        bt, wt := MarkRegion(a, g, Pos(x, y), bt, wt);
        forall q | InBounds(n, q) && q.x == x && q.y == y ensures q == Pos(x, y) {
        }
        x := x + 1;
      }
      y := y + 1;
    }
    TerritoryMapIs(bt, g, Black);
    TerritoryMapIs(wt, g, White);
  }

  /** `calculate_influence`: for each Empty point, the two nearest distances and the rule. */
  method InfluenceMaps(a: array2<Cell>, ghost g: Grid) returns (bi: BoolMap, wi: BoolMap)
    requires Holds(a, g)
    ensures bi == InfluenceMap(g, Black) && wi == InfluenceMap(g, White)
  {
    var n := a.Length0;
    bi, wi := FalseMap(n), FalseMap(n);
    var y := 0;
    while y < n
      invariant 0 <= y <= n
      invariant IsBoolMap(bi, n) && IsBoolMap(wi, n)
      invariant forall q :: InBounds(n, q) ==> (MapAt(bi, q) <==> q.y < y && Influences(g, q, Black))
      invariant forall q :: InBounds(n, q) ==> (MapAt(wi, q) <==> q.y < y && Influences(g, q, White))
    {
      var x := 0;
      while x < n
        invariant 0 <= x <= n
        invariant IsBoolMap(bi, n) && IsBoolMap(wi, n)
        invariant forall q :: InBounds(n, q) ==> (MapAt(bi, q) <==> Before(q, y, x) && Influences(g, q, Black))
        invariant forall q :: InBounds(n, q) ==> (MapAt(wi, q) <==> Before(q, y, x) && Influences(g, q, White))
      {
        var here := Pos(x, y);
        if a[y, x] == Empty {
          var db := MinDistance(a, g, here, Black);
          var dw := MinDistance(a, g, here, White);
          if Wins(db, dw) {
            bi := SetTrue(bi, here);
          }
          if Wins(dw, db) {
            wi := SetTrue(wi, here);
          }
        }
        x := x + 1;
      }
      y := y + 1;
    }
    InfluenceMapIs(bi, g, Black);
    InfluenceMapIs(wi, g, White);
  }

  /** The marked points that the row-major scan has passed before `(x, y)`. */
  ghost function MarkedBefore(m: BoolMap, y: int, x: int): set<Pos>
    requires IsBoolMap(m, |m|)
  {
    set q | q in TrueCells(m) && Before(q, y, x)
  }

  /** One step of a row-major scan adds the point `(x, y)` to the marked points passed
      exactly when the map marks it; the end of a row is the start of the next, and the end
      of the scan has passed every marked point. */
  lemma MarkedStep(m: BoolMap, y: nat, x: nat)
    requires IsBoolMap(m, |m|) && y < |m| && x < |m|
    ensures MarkedBefore(m, y, x + 1) == MarkedBefore(m, y, x) + (if m[y][x] then {Pos(x, y)} else {})
    ensures Pos(x, y) !in MarkedBefore(m, y, x)
    ensures MarkedBefore(m, y, |m|) == MarkedBefore(m, y + 1, 0)
    ensures MarkedBefore(m, |m|, 0) == TrueCells(m)
  {
  }

  /** `np.sum(m)`: the number of points the map marks. */
  method CountMarked(m: BoolMap) returns (k: nat)
    requires IsBoolMap(m, |m|)
    ensures k == |TrueCells(m)|
  {
    var n := |m|;
    k := 0;
    var y := 0;
    while y < n
      invariant 0 <= y <= n
      invariant k == |MarkedBefore(m, y, 0)|
    {
      var x := 0;
      while x < n
        invariant 0 <= x <= n
        invariant k == |MarkedBefore(m, y, x)|
      {
        MarkedStep(m, y, x);
        if m[y][x] {
          k := k + 1;
        }
        x := x + 1;
      }
      MarkedStep(m, y, 0);
      y := y + 1;
    }
    assert MarkedBefore(m, n, 0) == TrueCells(m);
  }
}
