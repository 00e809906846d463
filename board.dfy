/** The `Board` class (src/board.py): a square numpy board held as an `array2<Cell>`, the
    capture counters, the ko point, the four territory and influence maps, the preview board
    with its maps, and the winner. Each method is proved to leave the board in the state the
    value model gives: `PlaceStone` moves from `Snapshot()` to `Moves.PlaceStone(Snapshot())`,
    the maps always are the territory and influence of the grid. */
module GoBoard {
  import opened Cells
  import opened Groups
  import opened Moves
  import opened Territory
  import opened Influence
  import opened Legality
  import opened GridOps

  /** The maps of an empty board are all false. */
  lemma EmptyBoardMaps(n: nat)
    ensures TerritoryMap(EmptyGrid(n), Black) == FalseMap(n) && TerritoryMap(EmptyGrid(n), White) == FalseMap(n)
    ensures InfluenceMap(EmptyGrid(n), Black) == FalseMap(n) && InfluenceMap(EmptyGrid(n), White) == FalseMap(n)
  {
    forall q | InBounds(n, q) ensures !Owns(EmptyGrid(n), q, Black) && !Owns(EmptyGrid(n), q, White) {
      EmptyBoardHasNoTerritory(n, q, Black);
      EmptyBoardHasNoTerritory(n, q, White);
    }
    forall q | InBounds(n, q) ensures !Influences(EmptyGrid(n), q, Black) && !Influences(EmptyGrid(n), q, White) {
      EmptyBoardHasNoInfluence(n, q, Black);
      EmptyBoardHasNoInfluence(n, q, White);
    }
    TerritoryMapIs(FalseMap(n), EmptyGrid(n), Black);
    TerritoryMapIs(FalseMap(n), EmptyGrid(n), White);
    InfluenceMapIs(FalseMap(n), EmptyGrid(n), Black);
    InfluenceMapIs(FalseMap(n), EmptyGrid(n), White);
  }

  /** The points of colour `c`'s territory. */
  ghost function OwnedPoints(g: Grid, c: Cell): set<Pos>
    requires IsGrid(g) && IsStone(c)
  {
    set x, y | 0 <= x < |g| && 0 <= y < |g| && Owns(g, Pos(x, y), c) :: Pos(x, y)
  }

  /** A territory map marks exactly the territory, so its sum is the size of the territory. */
  lemma MarkedIsOwned(g: Grid, c: Cell)
    requires IsGrid(g) && IsStone(c)
    ensures TrueCells(TerritoryMap(g, c)) == OwnedPoints(g, c)
  {
    var m := TerritoryMap(g, c);
    TerritoryMapIs(m, g, c);
    forall q | q in TrueCells(m) ensures q in OwnedPoints(g, c) {
      assert MapAt(m, Pos(q.x, q.y));
    }
    forall q | q in OwnedPoints(g, c) ensures q in TrueCells(m) {
      assert MapAt(m, Pos(q.x, q.y));
    }
  }

  /** An all-Empty array of side `n`, as `np.zeros((size, size), dtype=int)`. */
  method NewEmptyGrid(n: nat) returns (a: array2<Cell>)
    ensures fresh(a) && Holds(a, EmptyGrid(n))
  {
    a := new Cell[n, n]((_, _) => Empty);
    assert forall y, x :: 0 <= y < n && 0 <= x < n ==> At(EmptyGrid(n), Pos(x, y)) == EmptyGrid(n)[y][x];
  }

  /** The grid part of `place_stone` at a playable point, in place on the array: the stone,
      the capture loop, then either the suicide rollback or the new ko point and the number
      of stones removed. */
  method PlaceOnGrid(a: array2<Cell>, ghost s: State, p: Pos, color: Cell)
    returns (ok: bool, ko: Option<Pos>, count: nat, ghost g': Grid)
    requires Holds(a, s.cells) && IsStone(color) && Moves.IsValidMove(s, p)
    modifies a
    ensures Holds(a, g') && ok == PlaceStone(s, p, color).1
    ensures g' == PlaceStone(s, p, color).0.cells
    ensures ok ==> (PlaceStone(s, p, color).0 ==
      if color == Black then State(g', s.blackCaptures + count, s.whiteCaptures, ko)
      else State(g', s.blackCaptures, s.whiteCaptures + count, ko))
  {
    WriteCell(a, s.cells, p, color);
    ghost var g1 := SetCell(s.cells, p, color);
    var opponent := if color == Black then White else Black;
    var captured := CaptureStones(a, g1, p, opponent);
    ghost var cap := Captures(g1, p, opponent);
    CaptureKeeps(g1, p, opponent, 0, p);
    assert PlaceStone(s, p, color) == Settle(s, p, color, cap);
    ok, ko, count, g' := SettleOnGrid(a, s, p, color, cap, captured);
  }

  /** The end of `place_stone` once the captures `cap` are made: the suicide rollback when
      the new group has no liberty, otherwise the ko point and the number removed. */
  method SettleOnGrid(a: array2<Cell>, ghost s: State, p: Pos, color: Cell, ghost cap: Capture, captured: seq<Pos>)
    returns (ok: bool, ko: Option<Pos>, count: nat, ghost g': Grid)
    requires IsGrid(s.cells) && IsStone(color) && InBounds(|s.cells|, p)
    requires Holds(a, cap.grid) && |cap.grid| == |s.cells| && At(cap.grid, p) == color
    requires captured == cap.captured
    modifies a
    ensures Holds(a, g') && ok == Settle(s, p, color, cap).1
    ensures g' == Settle(s, p, color, cap).0.cells
    ensures ok ==> (Settle(s, p, color, cap).0 ==
      if color == Black then State(g', s.blackCaptures + count, s.whiteCaptures, ko)
      else State(g', s.blackCaptures, s.whiteCaptures + count, ko))
  {
    var group := FloodFill(a, cap.grid, color, p);
    var liberty := GridOps.HasLiberty(a, cap.grid, group);
    if !liberty {
      WriteCell(a, cap.grid, p, Empty);
      g' := SetCell(cap.grid, p, Empty);
      return false, None, 0, g';
    }
    g' := cap.grid;
    ok := true;
    if |captured| == 1 && |group| == 1 {
      ko := Some(captured[0]);
    } else {
      ko := None;
    }
    count := |captured|;
    SettleLive(s, p, color, cap, group, ko);
  }

  /** `Settle` when the new group keeps a liberty: the ko point and the capture count. */
  lemma SettleLive(s: State, p: Pos, color: Cell, cap: Capture, group: seq<Pos>, ko: Option<Pos>)
    requires IsGrid(s.cells) && IsStone(color) && InBounds(|s.cells|, p)
    requires IsGrid(cap.grid) && |cap.grid| == |s.cells| && At(cap.grid, p) == color
    requires group == Flood(cap.grid, color, p) && Liberties(cap.grid, group) != {}
    requires ko == if |cap.captured| == 1 && |group| == 1 then Some(cap.captured[0]) else None
    ensures Settle(s, p, color, cap).0 ==
      if color == Black then State(cap.grid, s.blackCaptures + |cap.captured|, s.whiteCaptures, ko)
      else State(cap.grid, s.blackCaptures, s.whiteCaptures + |cap.captured|, ko)
  {
  }

  class Board {
    const size: nat
    var grid: array2<Cell>
    /** The grid value the array holds. */
    ghost var cells: Grid
    var blackTerritory: BoolMap
    var whiteTerritory: BoolMap
    var blackInfluence: BoolMap
    var whiteInfluence: BoolMap
    var blackCaptures: nat
    var whiteCaptures: nat
    var ko: Option<Pos>
    /** `preview_board`: `null` is `None`. */
    var previewBoard: array2?<Cell>
    ghost var previewCells: Grid
    var previewBlackTerritory: Option<BoolMap>
    var previewWhiteTerritory: Option<BoolMap>
    var previewBlackInfluence: Option<BoolMap>
    var previewWhiteInfluence: Option<BoolMap>
    var winner: Option<Cell>

    /** The board array holds `cells`, and a preview board, when there is one, is a separate
        array of the same size whose maps are its territory and influence. */
    ghost predicate Sound()
      reads this, grid, previewBoard
    {
      && Holds(grid, cells) && |cells| == size
      && (previewBoard != null ==>
            && previewBoard != grid && Holds(previewBoard, previewCells) && |previewCells| == size
            && previewBlackTerritory == Some(TerritoryMap(previewCells, Black))
            && previewWhiteTerritory == Some(TerritoryMap(previewCells, White))
            && previewBlackInfluence == Some(InfluenceMap(previewCells, Black))
            && previewWhiteInfluence == Some(InfluenceMap(previewCells, White)))
    }

    /** `Sound`, and the four maps are the territory and influence of the board. */
    ghost predicate Valid()
      reads this, grid, previewBoard
    {
      && Sound()
      && blackTerritory == TerritoryMap(cells, Black) && whiteTerritory == TerritoryMap(cells, White)
      && blackInfluence == InfluenceMap(cells, Black) && whiteInfluence == InfluenceMap(cells, White)
    }

    /** The part of the board that `place_stone` reads and writes, as a value. */
    ghost function Snapshot(): State
      reads this
    {
      State(cells, blackCaptures, whiteCaptures, ko)
    }

    /** `Board(size)`: `reset` on a new board. */
    constructor(size: nat)
      ensures Valid() && fresh(grid)
      ensures this.size == size && Snapshot() == State(EmptyGrid(size), 0, 0, None)
      ensures blackTerritory == whiteTerritory == blackInfluence == whiteInfluence == FalseMap(size)
      ensures previewBoard == null && winner == None
    {
      var a := NewEmptyGrid(size);
      this.size := size;
      grid := a;
      cells := EmptyGrid(size);
      blackTerritory, whiteTerritory := FalseMap(size), FalseMap(size);
      blackInfluence, whiteInfluence := FalseMap(size), FalseMap(size);
      blackCaptures, whiteCaptures := 0, 0;
      ko := None;
      previewBoard := null;
      previewBlackTerritory, previewWhiteTerritory := None, None;
      previewBlackInfluence, previewWhiteInfluence := None, None;
      winner := None;
      new;
      assert Valid() by {
        EmptyBoardMaps(size);
      }
    }

    /** `reset`: an empty board, zero counters, no ko, no preview and no winner. */
    method Reset()
      modifies this
      ensures Valid() && fresh(grid)
      ensures Snapshot() == State(EmptyGrid(size), 0, 0, None)
      ensures blackTerritory == whiteTerritory == blackInfluence == whiteInfluence == FalseMap(size)
      ensures previewBoard == null && winner == None
    {
      ClearStones();
      ClearMaps();
      ClearedIsValid();
    }

    /** The first half of `reset`: an empty grid, zero counters, no ko and no winner. */
    method ClearStones()
      modifies this
      ensures fresh(grid) && Holds(grid, cells)
      ensures Snapshot() == State(EmptyGrid(size), 0, 0, None) && winner == None
      ensures MapsUnchanged() && PreviewUnchanged()
    {
      var a := NewEmptyGrid(size);
      grid := a;
      cells := EmptyGrid(size);
      blackCaptures, whiteCaptures := 0, 0;
      ko := None;
      winner := None;
    }

    /** The second half of `reset`: all four maps false and no preview. */
    method ClearMaps()
      modifies this
      ensures blackTerritory == whiteTerritory == blackInfluence == whiteInfluence == FalseMap(size)
      ensures previewBoard == null
      ensures previewBlackTerritory == previewWhiteTerritory == previewBlackInfluence == previewWhiteInfluence == None
      ensures grid == old(grid) && Snapshot() == old(Snapshot()) && winner == old(winner)
    {
      blackTerritory, whiteTerritory := FalseMap(size), FalseMap(size);
      blackInfluence, whiteInfluence := FalseMap(size), FalseMap(size);
      previewBoard := null;
      previewBlackTerritory, previewWhiteTerritory := None, None;
      previewBlackInfluence, previewWhiteInfluence := None, None;
    }

    /** The board as `reset` leaves it: the grid is empty and so are all four maps. */
    ghost predicate Cleared()
      reads this, grid
    {
      && Holds(grid, cells) && cells == EmptyGrid(size) && previewBoard == null
      && blackTerritory == whiteTerritory == blackInfluence == whiteInfluence == FalseMap(size)
    }

    /** A cleared board is consistent. */
    lemma ClearedIsValid()
      requires Cleared()
      ensures Valid()
    {
      EmptyBoardMaps(size);
    }

    /** `is_valid_move(x, y)`: false exactly for a point off the board, an occupied point and
        the ko point. */
    predicate IsValidMove(p: Pos)
      requires Valid()
      reads this, grid, previewBoard
      ensures IsValidMove(p) <==> InBounds(size, p) && At(cells, p) == Empty && ko != Some(p)
      ensures IsValidMove(p) <==> Moves.IsValidMove(Snapshot(), p)
    {
      0 <= p.x < size && 0 <= p.y < size && grid[p.y, p.x] == Empty && ko != Some(p)
    }

    /** `find_group(x, y)`: nothing on an Empty point, and otherwise the stone group around
        the point, each cell once. */
    method FindGroup(p: Pos) returns (group: seq<Pos>)
      requires Valid() && InBounds(size, p)
      ensures group == GroupAt(cells, p)
      ensures At(cells, p) == Empty ==> group == []
      ensures At(cells, p) != Empty ==> IsGroupOf(cells, At(cells, p), p, group)
    {
      if grid[p.y, p.x] == Empty {
        return [];
      }
      group := FloodFill(grid, cells, grid[p.y, p.x], p);
      FloodIsGroup(cells, At(cells, p), p);
    }

    /** `has_liberty(group)`. */
    method HasLiberty(group: seq<Pos>) returns (b: bool)
      requires Valid()
      ensures b <==> Liberties(cells, group) != {}
    {
      b := GridOps.HasLiberty(grid, cells, group);
    }

    /** `find_empty_group(x, y)`: nothing on a stone, and otherwise the empty region around
        the point, each cell once. */
    method FindEmptyGroup(p: Pos) returns (group: seq<Pos>)
      requires Valid() && InBounds(size, p)
      ensures At(cells, p) != Empty ==> group == []
      ensures At(cells, p) == Empty ==> group == Region(cells, p) && IsGroupOf(cells, Empty, p, group)
    {
      if grid[p.y, p.x] != Empty {
        return [];
      }
      group := FloodFill(grid, cells, Empty, p);
      FloodIsGroup(cells, Empty, p);
    }

    /** `place_stone(x, y, color)`: the board, counters and ko become what the value model
        gives; the maps are recomputed after a success and untouched after a rejection. */
    method PlaceStone(p: Pos, color: Cell) returns (ok: bool)
      requires Valid() && IsStone(color)
      modifies this, grid
      ensures Valid() && grid == old(grid)
      ensures ok == Moves.PlaceStone(old(Snapshot()), p, color).1
      ensures Snapshot() == Moves.PlaceStone(old(Snapshot()), p, color).0
      ensures !ok ==> MapsUnchanged()
      ensures PreviewUnchanged() && winner == old(winner)
    {
      if !IsValidMove(p) {
        RejectedKeepsState(Snapshot(), p, color);
        return false;
      }
      ok := PlacePlayable(p, color);
    }

    /** The four maps of the board are what they were. */
    twostate predicate MapsUnchanged()
      reads this
    {
      Maps() == old(Maps())
    }

    /** The four maps, taken together. */
    ghost function Maps(): (BoolMap, BoolMap, BoolMap, BoolMap)
      reads this
    {
      (blackTerritory, whiteTerritory, blackInfluence, whiteInfluence)
    }

    /** The preview board, its grid and its maps are what they were. */
    twostate predicate PreviewUnchanged()
      reads this
    {
      Preview() == old(Preview())
    }

    /** The preview board, its grid and its maps, taken together. */
    ghost function Preview(): (array2?<Cell>, Grid, Option<BoolMap>, Option<BoolMap>, Option<BoolMap>, Option<BoolMap>)
      reads this
    {
      (previewBoard, previewCells, previewBlackTerritory, previewWhiteTerritory, previewBlackInfluence, previewWhiteInfluence)
    }

    /** `place_stone` past its `is_valid_move` test. */
    method PlacePlayable(p: Pos, color: Cell) returns (ok: bool)
      requires Valid() && IsStone(color) && Moves.IsValidMove(Snapshot(), p)
      modifies this, grid
      ensures Valid() && grid == old(grid)
      ensures ok == Moves.PlaceStone(old(Snapshot()), p, color).1
      ensures Snapshot() == Moves.PlaceStone(old(Snapshot()), p, color).0
      ensures !ok ==> MapsUnchanged()
      ensures PreviewUnchanged() && winner == old(winner)
    {
      ghost var s := Snapshot();
      ghost var r := Moves.PlaceStone(s, p, color);
      var newKo, count;
      ghost var g';
      ok, newKo, count, g' := PlaceOnGrid(grid, s, p, color);
      cells := g';
      if !ok {
        RejectedKeepsState(s, p, color);
        assert Snapshot() == s;
        return;
      }
      Commit(color, newKo, count);
      assert Snapshot() == r.0;
    }

    /** The end of a successful `place_stone`: the ko point, the mover's capture counter and
        `update_territories`. */
    method Commit(color: Cell, newKo: Option<Pos>, count: nat)
      requires Sound()
      modifies this
      ensures Valid() && grid == old(grid)
      ensures Snapshot() == if color == Black
        then State(old(cells), old(blackCaptures) + count, old(whiteCaptures), newKo)
        else State(old(cells), old(blackCaptures), old(whiteCaptures) + count, newKo)
      ensures PreviewUnchanged() && winner == old(winner)
    {
      ko := newKo;
      if color == Black {
        blackCaptures := blackCaptures + count;
      } else {
        whiteCaptures := whiteCaptures + count;
      }
      UpdateTerritories();
    }

    /** `update_territories`: both pairs of maps recomputed from the board. */
    method UpdateTerritories()
      requires Sound()
      modifies this
      ensures Valid()
      ensures grid == old(grid) && Snapshot() == old(Snapshot())
      ensures PreviewUnchanged() && winner == old(winner)
    {
      blackTerritory, whiteTerritory := CalculateTerritories();
      blackInfluence, whiteInfluence := CalculateInfluence();
    }

    /** `calculate_territories`: the territory maps of the board. A marked point is Empty, is
        marked for one colour only, and sits in a region enclosed by that colour. */
    method CalculateTerritories() returns (bt: BoolMap, wt: BoolMap)
      requires Sound()
      ensures bt == TerritoryMap(cells, Black) && wt == TerritoryMap(cells, White)
      ensures IsTerritoryOf(bt, cells, Black) && IsTerritoryOf(wt, cells, White)
      ensures forall q :: InBounds(size, q) && MapAt(bt, q) ==> At(cells, q) == Empty && !MapAt(wt, q)
      ensures forall q :: InBounds(size, q) && MapAt(wt, q) ==> At(cells, q) == Empty && !MapAt(bt, q)
    {
      bt, wt := Territories(grid, cells);
      TerritoryMapIs(bt, cells, Black);
      TerritoryMapIs(wt, cells, White);
      forall q | InBounds(size, q) && MapAt(bt, q) ensures !MapAt(wt, q) {
        OwnedIsEnclosed(cells, q, Black);
      }
      forall q | InBounds(size, q) && MapAt(wt, q) ensures !MapAt(bt, q) {
        OwnedIsEnclosed(cells, q, White);
      }
    }

    /** `calculate_influence`: the influence maps of the board; no point is in both. */
    method CalculateInfluence() returns (bi: BoolMap, wi: BoolMap)
      requires Sound()
      ensures bi == InfluenceMap(cells, Black) && wi == InfluenceMap(cells, White)
      ensures IsInfluenceOf(bi, cells, Black) && IsInfluenceOf(wi, cells, White)
      ensures forall q :: InBounds(size, q) ==> !(MapAt(bi, q) && MapAt(wi, q))
    {
      bi, wi := InfluenceMaps(grid, cells);
      InfluenceMapIs(bi, cells, Black);
      InfluenceMapIs(wi, cells, White);
      forall q | InBounds(size, q) ensures !(MapAt(bi, q) && MapAt(wi, q)) {
        InfluenceExclusive(cells, q);
      }
    }

    /** `calculate_min_distance(x, y, color)`: no distance when the board has no stone of the
        colour, and otherwise the Manhattan distance of a nearest one. */
    method CalculateMinDistance(p: Pos, c: Cell) returns (d: Option<nat>)
      requires Sound()
      ensures d == MinDist(cells, p, c)
      ensures d.None? <==> forall q :: InBounds(size, q) ==> At(cells, q) != c
      ensures forall q :: InBounds(size, q) && At(cells, q) == c ==> d.Some? && d.value <= Manhattan(p, q)
      ensures d.Some? ==> exists q :: InBounds(size, q) && At(cells, q) == c && d.value == Manhattan(p, q)
    {
      d := MinDistance(grid, cells, p, c);
      MinDistSpec(cells, p, c);
    }

    /** `update_preview(x, y)`: for an unplayable point the preview board is dropped; for a
        playable one it becomes a copy of the board with a Black stone on the point, no
        captures applied, and its maps are computed. The board itself is not touched. */
    method UpdatePreview(p: Pos)
      requires Valid()
      modifies this
      ensures Valid() && grid == old(grid) && Snapshot() == old(Snapshot())
      ensures MapsUnchanged() && winner == old(winner)
      ensures !IsValidMove(p) ==> (previewBoard == null
        && previewBlackTerritory == old(previewBlackTerritory) && previewWhiteTerritory == old(previewWhiteTerritory)
        && previewBlackInfluence == old(previewBlackInfluence) && previewWhiteInfluence == old(previewWhiteInfluence))
      ensures IsValidMove(p) ==> previewBoard != null && fresh(previewBoard) && previewCells == SetCell(cells, p, Black)
    {
      if !IsValidMove(p) {
        previewBoard := null;
        return;
      }
      var b, pbt, pwt, pbi, pwi := PreviewOf(p);
      previewBoard, previewCells := b, SetCell(cells, p, Black);
      previewBlackTerritory, previewWhiteTerritory := Some(pbt), Some(pwt);
      previewBlackInfluence, previewWhiteInfluence := Some(pbi), Some(pwi);
    }

    /** The preview board of `update_preview` and its four maps, built beside the board. */
    method PreviewOf(p: Pos) returns (b: array2<Cell>, bt: BoolMap, wt: BoolMap, bi: BoolMap, wi: BoolMap)
      requires Sound() && InBounds(size, p)
      ensures fresh(b) && Holds(b, SetCell(cells, p, Black))
      ensures bt == TerritoryMap(SetCell(cells, p, Black), Black) && wt == TerritoryMap(SetCell(cells, p, Black), White)
      ensures bi == InfluenceMap(SetCell(cells, p, Black), Black) && wi == InfluenceMap(SetCell(cells, p, Black), White)
    {
      b := CopyGrid(grid, cells);
      WriteCell(b, cells, p, Black);
      bt, wt := Territories(b, SetCell(cells, p, Black));
      bi, wi := InfluenceMaps(b, SetCell(cells, p, Black));
    }

    /** `calculate_preview_territories`: the current maps without a preview board, else the
        territory of the preview board. */
    method CalculatePreviewTerritories() returns (bt: BoolMap, wt: BoolMap)
      requires Valid()
      ensures previewBoard == null ==> bt == blackTerritory && wt == whiteTerritory
      ensures previewBoard != null ==> bt == TerritoryMap(previewCells, Black) && wt == TerritoryMap(previewCells, White)
    {
      if previewBoard == null {
        return blackTerritory, whiteTerritory;
      }
      bt, wt := Territories(previewBoard, previewCells);
    }

    /** `find_preview_empty_group(x, y)`: nothing without a preview board or on a stone of it,
        else the empty region of the preview board around the point. */
    method FindPreviewEmptyGroup(p: Pos) returns (group: seq<Pos>)
      requires Valid() && InBounds(size, p)
      ensures previewBoard == null ==> group == []
      ensures previewBoard != null && At(previewCells, p) != Empty ==> group == []
      ensures previewBoard != null && At(previewCells, p) == Empty ==>
        group == Region(previewCells, p) && IsGroupOf(previewCells, Empty, p, group)
    {
      if previewBoard == null || previewBoard[p.y, p.x] != Empty {
        return [];
      }
      group := FloodFill(previewBoard, previewCells, Empty, p);
      FloodIsGroup(previewCells, Empty, p);
    }

    /** `calculate_preview_influence`: the current maps without a preview board, else the
        influence on the preview board. */
    method CalculatePreviewInfluence() returns (bi: BoolMap, wi: BoolMap)
      requires Valid()
      ensures previewBoard == null ==> bi == blackInfluence && wi == whiteInfluence
      ensures previewBoard != null ==> bi == InfluenceMap(previewCells, Black) && wi == InfluenceMap(previewCells, White)
    {
      if previewBoard == null {
        return blackInfluence, whiteInfluence;
      }
      bi, wi := InfluenceMaps(previewBoard, previewCells);
    }

    /** `calculate_preview_min_distance(x, y, color)`: the nearest distance on the preview
        board, or on the board itself when there is no preview. */
    method CalculatePreviewMinDistance(p: Pos, c: Cell) returns (d: Option<nat>)
      requires Valid()
      ensures previewBoard == null ==> d == MinDist(cells, p, c)
      ensures previewBoard != null ==> d == MinDist(previewCells, p, c)
    {
      if previewBoard == null {
        d := CalculateMinDistance(p, c);
      } else {
        d := MinDistance(previewBoard, previewCells, p, c);
      }
    }

    /** `board.winner = c`, which the game sets when it ends: nothing else changes. */
    method SetWinner(c: Cell)
      requires Valid()
      modifies this
      ensures Valid() && winner == Some(c)
      ensures grid == old(grid) && Snapshot() == old(Snapshot())
      ensures MapsUnchanged() && PreviewUnchanged()
    {
      winner := Some(c);
    }

    /** `calculate_score(color)`: the colour's captures plus the number of points of its
        territory (White's for any colour other than Black). */
    method CalculateScore(color: Cell) returns (score: nat)
      requires Valid()
      ensures color == Black ==> score == blackCaptures + |OwnedPoints(cells, Black)|
      ensures color != Black ==> score == whiteCaptures + |OwnedPoints(cells, White)|
    {
      if color == Black {
        var territoryCount := CountMarked(blackTerritory);
        MarkedIsOwned(cells, Black);
        score := blackCaptures + territoryCount;
      } else {
        var territoryCount := CountMarked(whiteTerritory);
        MarkedIsOwned(cells, White);
        score := whiteCaptures + territoryCount;
      }
    }

    /** `get_invalid_move_reason(x, y)`, with the suicide test run on the trial board after
        its captures, so that it reports suicide exactly when `place_stone` would refuse a
        Black stone at a playable point. */
    method GetInvalidMoveReason(p: Pos) returns (r: MoveReason)
      requires Valid()
      ensures r == IntendedReason(Snapshot(), p)
    {
      if !(0 <= p.x < size && 0 <= p.y < size) {
        return OffBoard;
      }
      if grid[p.y, p.x] != Empty {
        return Occupied;
      }
      if ko == Some(p) {
        return KoRule;
      }
      var temp := CopyGrid(grid, cells);
      WriteCell(temp, cells, p, Black);
      ghost var g1 := SetCell(cells, p, Black);
      var captured := CaptureStones(temp, g1, p, White);
      ghost var cap := Captures(g1, p, White);
      CaptureKeeps(g1, p, White, 0, p);
      var group := FloodFill(temp, cap.grid, Black, p);
      var liberty := GridOps.HasLiberty(temp, cap.grid, group);
      assert Moves.PlaceStone(Snapshot(), p, Black) == Settle(Snapshot(), p, Black, cap);
      if !liberty {
        return Suicide;
      }
      return Legal;
    }
  }
}
