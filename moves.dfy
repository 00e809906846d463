/** Capture and placement as functions on values: the capture loop shared by
    `Board.place_stone` (src/board.py:73-86) and `LifeDeathAnalyzer.capture_stones`
    (src/life_death.py:288-314), and the whole placement step of `place_stone`
    (src/board.py:56-105) on a state made of the grid, the two capture counters and the ko point. */
module Moves {
  import opened Cells
  import opened Groups

  /** The grid after the capture loop and the captured cells, in the order they were removed. */
  datatype Capture = Capture(grid: Grid, captured: seq<Pos>)

  /** The capture loop from direction `i` on: a neighbour of `p` holding `opp` whose group has
      no liberty is removed, and later directions see the grid with it removed. */
  function CaptureFrom(g: Grid, p: Pos, opp: Cell, i: nat): (r: Capture)
    requires IsGrid(g) && i <= 4
    ensures IsGrid(r.grid) && |r.grid| == |g|
    decreases 4 - i
  {
    if i == 4 then Capture(g, [])
    else
      var nb := Neighbor(p, i);
      if InBounds(|g|, nb) && At(g, nb) == opp then
        var group := Flood(g, opp, nb);
        if Liberties(g, group) == {} then
          var rest := CaptureFrom(ClearCells(g, group), p, opp, i + 1);
          Capture(rest.grid, group + rest.captured)
        else
          CaptureFrom(g, p, opp, i + 1)
      else
        CaptureFrom(g, p, opp, i + 1)
  }

  function Captures(g: Grid, p: Pos, opp: Cell): (r: Capture)
    requires IsGrid(g)
    ensures IsGrid(r.grid) && |r.grid| == |g|
  {
    CaptureFrom(g, p, opp, 0)
  }

  /** `g2` arises from `g1` by turning cells of colour `c` Empty and nothing else. */
  ghost predicate OnlyClears(g1: Grid, g2: Grid, c: Cell)
    requires IsGrid(g1) && IsGrid(g2) && |g1| == |g2|
  {
    forall q :: InBounds(|g1|, q) ==> At(g2, q) == At(g1, q) || (At(g1, q) == c && At(g2, q) == Empty)
  }

  /** A group that has a liberty keeps one while only stones of its own colour are removed:
      either its old liberty is still empty, or the group on the new grid borders a removed cell. */
  lemma LibertyPersists(g1: Grid, g2: Grid, c: Cell, n: Pos)
    requires IsGrid(g1) && IsGrid(g2) && |g1| == |g2| && InBounds(|g1|, n)
    requires c != Empty && OnlyClears(g1, g2, c)
    requires At(g2, n) == c
    requires Liberties(g1, Flood(g1, c, n)) != {}
    ensures Liberties(g2, Flood(g2, c, n)) != {}
  {
    FloodIsGroup(g1, c, n);
    FloodIsGroup(g2, c, n);
    var s2 := Flood(g2, c, n);
    var t := SetOf(s2);
    if Closed(g1, c, t) {
      var s1 := Flood(g1, c, n);
      assert SetOf(s1) <= t;
      var lib :| lib in Liberties(g1, s1);
      var m, i :| m in s1 && 0 <= i < 4 && InBounds(|g1|, Neighbor(m, i)) && At(g1, Neighbor(m, i)) == Empty
        && lib == Neighbor(m, i);
      assert m in SetOf(s1);
      assert m in s2;
      assert lib in Liberties(g2, s2);
    } else {
      var m, i :| m in t && 0 <= i < 4 && InBounds(|g1|, Neighbor(m, i)) && At(g1, Neighbor(m, i)) == c
        && Neighbor(m, i) !in t;
      assert m in s2;
      assert Neighbor(m, i) in Liberties(g2, s2);
    }
  }

  /** What the capture loop does to the grid: it removes only in-bounds stones of colour
      `opp`, lists each removed cell once, and leaves every other cell as it was. */
  ghost predicate ClearsListed(g: Grid, opp: Cell, r: Capture)
    requires IsGrid(g)
  {
    && IsGrid(r.grid) && |r.grid| == |g|
    && NoDup(r.captured)
    && (forall q :: q in r.captured ==> InBounds(|g|, q) && At(g, q) == opp)
    && (forall q :: InBounds(|g|, q) ==> At(r.grid, q) == if q in r.captured then Empty else At(g, q))
  }

  lemma NoDupConcat<T>(a: seq<T>, b: seq<T>)
    requires NoDup(a) && NoDup(b)
    requires forall x :: x in a ==> x !in b
    ensures NoDup(a + b)
  {
    var s := a + b;
    forall i, j | 0 <= i < j < |s| ensures s[i] != s[j] {
      if j < |a| {
        assert s[i] == a[i] && s[j] == a[j];
      } else if i >= |a| {
        assert s[i] == b[i - |a|] && s[j] == b[j - |a|];
      } else {
        assert s[i] in a && s[j] in b;
      }
    }
  }

  /** Removing one liberty-less group and then running the rest of the loop composes. */
  lemma ClearsListedStep(g: Grid, opp: Cell, group: seq<Pos>, rest: Capture)
    requires IsGrid(g) && opp != Empty && NoDup(group)
    requires forall q :: q in group ==> InBounds(|g|, q) && At(g, q) == opp
    requires ClearsListed(ClearCells(g, group), opp, rest)
    ensures ClearsListed(g, opp, Capture(rest.grid, group + rest.captured))
  {
    var g' := ClearCells(g, group);
    forall q | q in group ensures q !in rest.captured {
      assert At(g', q) == Empty;
    }
    NoDupConcat(group, rest.captured);
  }

  lemma {:induction false} CaptureClears(g: Grid, p: Pos, opp: Cell, i: nat)
    requires IsGrid(g) && i <= 4 && opp != Empty
    ensures ClearsListed(g, opp, CaptureFrom(g, p, opp, i))
    decreases 4 - i
  {
    if i < 4 {
      var nb := Neighbor(p, i);
      if InBounds(|g|, nb) && At(g, nb) == opp {
        var group := Flood(g, opp, nb);
        if Liberties(g, group) == {} {
          FloodIsGroup(g, opp, nb);
          CaptureClears(ClearCells(g, group), p, opp, i + 1);
          ClearsListedStep(g, opp, group, CaptureFrom(ClearCells(g, group), p, opp, i + 1));
        } else {
          CaptureClears(g, p, opp, i + 1);
        }
      } else {
        CaptureClears(g, p, opp, i + 1);
      }
    }
  }

  /** A cell that does not hold `opp` is left as it was by the capture loop. */
  lemma {:induction false} CaptureKeeps(g: Grid, p: Pos, opp: Cell, i: nat, q: Pos)
    requires IsGrid(g) && i <= 4 && InBounds(|g|, q) && At(g, q) != opp
    ensures At(CaptureFrom(g, p, opp, i).grid, q) == At(g, q)
    decreases 4 - i
  {
    if i < 4 {
      var nb := Neighbor(p, i);
      if InBounds(|g|, nb) && At(g, nb) == opp {
        var group := Flood(g, opp, nb);
        if Liberties(g, group) == {} {
          assert q !in group;
          CaptureKeeps(ClearCells(g, group), p, opp, i + 1, q);
        } else {
          CaptureKeeps(g, p, opp, i + 1, q);
        }
      } else {
        CaptureKeeps(g, p, opp, i + 1, q);
      }
    }
  }

  /** Whenever the loop removes anything, it removes a neighbour of `p`: each removed group
      is the group of one of the neighbours. */
  lemma {:induction false} CaptureTouches(g: Grid, p: Pos, opp: Cell, i: nat)
    requires IsGrid(g) && i <= 4
    ensures var r := CaptureFrom(g, p, opp, i);
      r.captured != [] ==> exists j :: i <= j < 4 && Neighbor(p, j) in r.captured
    decreases 4 - i
  {
    if i < 4 {
      var nb := Neighbor(p, i);
      if InBounds(|g|, nb) && At(g, nb) == opp {
        var group := Flood(g, opp, nb);
        if Liberties(g, group) == {} {
          assert nb in CaptureFrom(g, p, opp, i).captured;
        } else {
          CaptureTouches(g, p, opp, i + 1);
        }
      } else {
        CaptureTouches(g, p, opp, i + 1);
      }
    }
  }

  /** After the loop, every neighbour of `p` in directions `i..3` that still holds `opp`
      belongs to a group with a liberty. */
  lemma {:induction false} CaptureLeavesLiberties(g: Grid, p: Pos, opp: Cell, i: nat, j: nat)
    requires IsGrid(g) && i <= j < 4 && opp != Empty
    ensures var r := CaptureFrom(g, p, opp, i);
      InBounds(|g|, Neighbor(p, j)) && At(r.grid, Neighbor(p, j)) == opp
      ==> Liberties(r.grid, Flood(r.grid, opp, Neighbor(p, j))) != {}
    decreases 4 - i
  {
    var r := CaptureFrom(g, p, opp, i);
    CaptureClears(g, p, opp, i);
    var nb := Neighbor(p, i);
    if InBounds(|g|, nb) && At(g, nb) == opp {
      var group := Flood(g, opp, nb);
      if Liberties(g, group) == {} {
        var g' := ClearCells(g, group);
        if j > i {
          CaptureLeavesLiberties(g', p, opp, i + 1, j);
        } else {
          assert nb in r.captured;
        }
      } else if j > i {
        CaptureLeavesLiberties(g, p, opp, i + 1, j);
      } else if At(r.grid, nb) == opp {
        LibertyPersists(g, r.grid, opp, nb);
      }
    } else if j > i {
      CaptureLeavesLiberties(g, p, opp, i + 1, j);
    }
  }

  /** The program's state as `place_stone` sees it. */
  datatype State = State(cells: Grid, blackCaptures: nat, whiteCaptures: nat, ko: Option<Pos>)

  /** `is_valid_move`: on the board, on an Empty point, and not the ko point. */
  predicate IsValidMove(s: State, p: Pos): (b: bool)
    requires IsGrid(s.cells)
    ensures b ==> 0 <= p.y < |s.cells| && 0 <= p.x < |s.cells[p.y]| && s.cells[p.y][p.x] == Empty
    ensures s.ko == Some(p) ==> !b
  {
    InBounds(|s.cells|, p) && At(s.cells, p) == Empty && s.ko != Some(p)
  }

  /** `place_stone(x, y, color)`: the new state and whether the stone was placed. */
  function PlaceStone(s: State, p: Pos, color: Cell): (r: (State, bool))
    requires IsGrid(s.cells) && IsStone(color)
    ensures IsGrid(r.0.cells) && |r.0.cells| == |s.cells|
    ensures r.1 ==> InBounds(|s.cells|, p) && At(r.0.cells, p) == color
  {
    if !IsValidMove(s, p) then (s, false)
    else
      var g1 := SetCell(s.cells, p, color);
      CaptureKeeps(g1, p, Opponent(color), 0, p);
      Settle(s, p, color, Captures(g1, p, Opponent(color)))
  }

  /** The rest of `place_stone` once the capture loop has run: the suicide check on the
      mover's group, then ko and the capture counter. */
  function Settle(s: State, p: Pos, color: Cell, cap: Capture): (r: (State, bool))
    requires IsGrid(s.cells) && IsStone(color) && InBounds(|s.cells|, p)
    requires IsGrid(cap.grid) && |cap.grid| == |s.cells| && At(cap.grid, p) == color
    ensures IsGrid(r.0.cells) && |r.0.cells| == |s.cells|
    ensures r.1 <==> Liberties(cap.grid, Flood(cap.grid, color, p)) != {}
    ensures r.1 ==> r.0.cells == cap.grid
  {
    var group := Flood(cap.grid, color, p);
    if Liberties(cap.grid, group) == {} then
      // The stone is taken back; the captured cells are not restored (there are none).
      (s.(cells := SetCell(cap.grid, p, Empty)), false)
    else
      var ko := if |cap.captured| == 1 && |group| == 1 then Some(cap.captured[0]) else None;
      if color == Black then
        (State(cap.grid, s.blackCaptures + |cap.captured|, s.whiteCaptures, ko), true)
      else
        (State(cap.grid, s.blackCaptures, s.whiteCaptures + |cap.captured|, ko), true)
  }

  /** The cells other than `p` whose content differs between `g1` and `g2`. */
  function Changed(g1: Grid, g2: Grid, p: Pos): set<Pos>
    requires IsGrid(g1) && IsGrid(g2) && |g1| == |g2|
  {
    set q | q in AllCells(|g1|) && q != p && At(g1, q) != At(g2, q)
  }

  /** The placed stone has a liberty once the capture loop is over, if it captured anything. */
  lemma CaptureGivesLiberty(s: State, p: Pos, color: Cell)
    requires IsGrid(s.cells) && IsStone(color) && IsValidMove(s, p)
    ensures var g1 := SetCell(s.cells, p, color);
      var cap := Captures(g1, p, Opponent(color));
      At(cap.grid, p) == color &&
      (cap.captured != [] ==> Liberties(cap.grid, Flood(cap.grid, color, p)) != {})
  {
    var g1 := SetCell(s.cells, p, color);
    var cap := Captures(g1, p, Opponent(color));
    CaptureClears(g1, p, Opponent(color), 0);
    CaptureTouches(g1, p, Opponent(color), 0);
    if cap.captured != [] {
      var j :| 0 <= j < 4 && Neighbor(p, j) in cap.captured;
      var group := Flood(cap.grid, color, p);
      assert p in group;
      assert Neighbor(p, j) in Liberties(cap.grid, group);
    }
  }

  /** A rejected placement leaves the whole state as it was: grid, both counters and ko. This
      includes suicide, which can only be detected when nothing was captured. */
  lemma RejectedKeepsState(s: State, p: Pos, color: Cell)
    requires IsGrid(s.cells) && IsStone(color)
    ensures !PlaceStone(s, p, color).1 ==> PlaceStone(s, p, color).0 == s
  {
    if IsValidMove(s, p) && !PlaceStone(s, p, color).1 {
      var g1 := SetCell(s.cells, p, color);
      var cap := Captures(g1, p, Opponent(color));
      CaptureClears(g1, p, Opponent(color), 0);
      CaptureGivesLiberty(s, p, color);
      assert cap.captured == [];
      var back := SetCell(cap.grid, p, Empty);
      GridExt(back, s.cells);
    }
  }

  /** Only valid points can be played. */
  lemma PlacedOnlyIfValid(s: State, p: Pos, color: Cell)
    requires IsGrid(s.cells) && IsStone(color)
    ensures PlaceStone(s, p, color).1 ==> IsValidMove(s, p)
  {
  }

  /** After a successful placement the point holds the mover's stone, whose group has a
      liberty, and every other changed cell was an opponent stone that is now Empty. */
  lemma PlacedBoard(s: State, p: Pos, color: Cell)
    requires IsGrid(s.cells) && IsStone(color)
    requires PlaceStone(s, p, color).1
    ensures var s' := PlaceStone(s, p, color).0;
      && IsGrid(s'.cells) && |s'.cells| == |s.cells| && InBounds(|s.cells|, p)
      && At(s.cells, p) == Empty && At(s'.cells, p) == color
      && Liberties(s'.cells, Flood(s'.cells, color, p)) != {}
      && (forall q :: q in Changed(s.cells, s'.cells, p) ==> At(s.cells, q) == Opponent(color) && At(s'.cells, q) == Empty)
  {
    var opp := Opponent(color);
    var g1 := SetCell(s.cells, p, color);
    var cap := Captures(g1, p, opp);
    assert PlaceStone(s, p, color) == Settle(s, p, color, cap);
    var s' := PlaceStone(s, p, color).0;
    assert s'.cells == cap.grid;
    CaptureClears(g1, p, opp, 0);
    forall q | q in Changed(s.cells, s'.cells, p) ensures At(s.cells, q) == opp && At(s'.cells, q) == Empty {
      assert InBounds(|s.cells|, q) && q != p;
      assert At(g1, q) == At(s.cells, q);
    }
  }

  /** After a successful placement no opponent group next to the point is without liberties. */
  lemma PlacedLeavesLiberties(s: State, p: Pos, color: Cell, j: nat)
    requires IsGrid(s.cells) && IsStone(color) && j < 4
    requires PlaceStone(s, p, color).1
    ensures var s' := PlaceStone(s, p, color).0;
      InBounds(|s.cells|, Neighbor(p, j)) && At(s'.cells, Neighbor(p, j)) == Opponent(color)
      ==> Liberties(s'.cells, Flood(s'.cells, Opponent(color), Neighbor(p, j))) != {}
  {
    PlacedBoard(s, p, color);
    CaptureLeavesLiberties(SetCell(s.cells, p, color), p, Opponent(color), 0, j);
  }

  /** The cells the capture loop removes are exactly the cells, other than the played point,
      whose content changed; there are as many as the loop listed. */
  lemma ChangedAreCaptured(g0: Grid, p: Pos, color: Cell)
    requires IsGrid(g0) && InBounds(|g0|, p) && IsStone(color)
    ensures var cap := Captures(SetCell(g0, p, color), p, Opponent(color));
      var removed := Changed(g0, cap.grid, p);
      removed == SetOf(cap.captured) && |removed| == |cap.captured|
  {
    var opp := Opponent(color);
    var g1 := SetCell(g0, p, color);
    var cap := Captures(g1, p, opp);
    CaptureClears(g1, p, opp, 0);
    var removed := Changed(g0, cap.grid, p);
    forall q | q in SetOf(cap.captured) ensures q in removed {
      assert At(g1, q) == opp;
      assert q != p;
      assert q == Pos(q.x, q.y);
    }
    NoDupCard(cap.captured);
  }

  /** After a successful placement the mover's counter rises by the number of removed stones
      and the other counter is untouched. */
  lemma PlacedCounts(s: State, p: Pos, color: Cell)
    requires IsGrid(s.cells) && IsStone(color)
    requires PlaceStone(s, p, color).1
    ensures var s' := PlaceStone(s, p, color).0;
      var removed := Changed(s.cells, s'.cells, p);
      && (color == Black ==> s'.blackCaptures == s.blackCaptures + |removed| && s'.whiteCaptures == s.whiteCaptures)
      && (color == White ==> s'.whiteCaptures == s.whiteCaptures + |removed| && s'.blackCaptures == s.blackCaptures)
  {
    ChangedAreCaptured(s.cells, p, color);
  }

  /** After a successful placement ko is set exactly when one stone was removed by a stone
      that stands alone, and then it is the removed cell. */
  lemma PlacedKo(s: State, p: Pos, color: Cell)
    requires IsGrid(s.cells) && IsStone(color)
    requires PlaceStone(s, p, color).1
    ensures var s' := PlaceStone(s, p, color).0;
      var removed := Changed(s.cells, s'.cells, p);
      && (s'.ko.Some? <==> |removed| == 1 && |Flood(s'.cells, color, p)| == 1)
      && (s'.ko.Some? ==> removed == {s'.ko.value})
  {
    ChangedAreCaptured(s.cells, p, color);
    var cap := Captures(SetCell(s.cells, p, color), p, Opponent(color));
    if |cap.captured| == 1 {
      SingletonSet(cap.captured);
    }
  }
}
