/** The life-and-death helpers (`LifeDeathAnalyzer`, src/life_death.py): eyes, liberties and
    the safety rating of a group on the board, the capture helpers that work on scratch copies
    of the board, and the two capture-horizon estimates. */
module LifeDeath {
  import opened Cells
  import opened Groups
  import opened Moves
  import opened Influence
  import opened GridOps
  import opened GoBoard

  /** The number of in-bounds neighbours of `e` among the directions `0 .. i - 1`. */
  function Sides(n: int, e: Pos, i: nat): nat
    requires i <= 4
  {
    if i == 0 then 0 else Sides(n, e, i - 1) + (if InBounds(n, Neighbor(e, i - 1)) then 1 else 0)
  }

  /** The number of those neighbours that hold `c`. */
  function SidesOf(g: Grid, e: Pos, c: Cell, i: nat): (r: nat)
    requires IsGrid(g) && i <= 4
    ensures r <= i
  {
    if i == 0 then 0
    else SidesOf(g, e, c, i - 1) + (if InBounds(|g|, Neighbor(e, i - 1)) && At(g, Neighbor(e, i - 1)) == c then 1 else 0)
  }

  /** Every in-bounds neighbour of `e` among the directions `0 .. i - 1` holds `c`. */
  predicate SurroundedBy(g: Grid, e: Pos, c: Cell, i: nat)
    requires IsGrid(g) && i <= 4
  {
    forall j :: 0 <= j < i && InBounds(|g|, Neighbor(e, j)) ==> At(g, Neighbor(e, j)) == c
  }

  /** An eye of colour `c`: at least three neighbours on the board, and all of them `c`. */
  predicate IsEye(g: Grid, e: Pos, c: Cell)
    requires IsGrid(g)
  {
    Sides(|g|, e, 4) >= 3 && SurroundedBy(g, e, c, 4)
  }

  /** The colour count never exceeds the side count, and meets it exactly when every side
      holds the colour. */
  lemma {:induction false} SidesOfBound(g: Grid, e: Pos, c: Cell, i: nat)
    requires IsGrid(g) && i <= 4
    ensures SidesOf(g, e, c, i) <= Sides(|g|, e, i)
    ensures SidesOf(g, e, c, i) == Sides(|g|, e, i) <==> SurroundedBy(g, e, c, i)
  {
    if i > 0 {
      SidesOfBound(g, e, c, i - 1);
    }
  }

  /** A corner has at most two neighbours on the board, so it is never an eye. */
  lemma CornerIsNoEye(g: Grid, e: Pos, c: Cell)
    requires IsGrid(g) && (e.x == 0 || e.x == |g| - 1) && (e.y == 0 || e.y == |g| - 1)
    ensures Sides(|g|, e, 4) <= 2 && !IsEye(g, e, c)
  {
    var n := |g|;
    assert Sides(n, e, 2) == Sides(n, e, 0) + (if InBounds(n, Neighbor(e, 0)) then 1 else 0)
      + (if InBounds(n, Neighbor(e, 1)) then 1 else 0);
    assert Sides(n, e, 4) == Sides(n, e, 2) + (if InBounds(n, Neighbor(e, 2)) then 1 else 0)
      + (if InBounds(n, Neighbor(e, 3)) then 1 else 0);
    assert !InBounds(n, Neighbor(e, 1)) || !InBounds(n, Neighbor(e, 3));
    assert !InBounds(n, Neighbor(e, 0)) || !InBounds(n, Neighbor(e, 2));
  }

  /** The eyes of a group of colour `c`: its liberties that are eyes of `c`. */
  function Eyes(g: Grid, group: seq<Pos>, c: Cell): set<Pos>
    requires IsGrid(g)
  {
    set e | e in Liberties(g, group) && IsEye(g, e, c)
  }

  /** A group has no more eyes than liberties, and every eye is an Empty point on the board
      whose neighbours on the board, three or four of them, all hold the group's colour. */
  lemma EyesAreLiberties(g: Grid, group: seq<Pos>, c: Cell, e: Pos)
    requires IsGrid(g)
    ensures |Eyes(g, group, c)| <= |Liberties(g, group)|
    ensures e in Eyes(g, group, c) ==> InBounds(|g|, e) && At(g, e) == Empty && 3 <= Sides(|g|, e, 4)
    ensures e in Eyes(g, group, c) ==> forall j :: 0 <= j < 4 && InBounds(|g|, Neighbor(e, j)) ==> At(g, Neighbor(e, j)) == c
  {
    SubsetCard(Eyes(g, group, c), Liberties(g, group));
  }

  /** The eyes of colour `c` among the points of `s`. */
  ghost function EyesAmong(g: Grid, s: set<Pos>, c: Cell): set<Pos>
    requires IsGrid(g)
  {
    set e | e in s && IsEye(g, e, c)
  }

  /** Adding a point adds it to the eyes exactly when it is an eye. */
  lemma EyesAmongAdd(g: Grid, s: set<Pos>, e: Pos, c: Cell)
    requires IsGrid(g) && e !in s
    ensures IsEye(g, e, c) ==> EyesAmong(g, s + {e}, c) == EyesAmong(g, s, c) + {e} && e !in EyesAmong(g, s, c)
    ensures !IsEye(g, e, c) ==> EyesAmong(g, s + {e}, c) == EyesAmong(g, s, c)
  {
  }

  /** The safety rating of `calculate_group_safety` from the eye and liberty counts. */
  function Safety(eyes: nat, liberties: nat): (r: nat)
    ensures r <= 3
    ensures r >= 2 <==> eyes >= 2 || (eyes == 1 && liberties >= 3)
    ensures r == 0 <==> (eyes == 0 && liberties < 3) || (eyes == 1 && liberties < 2)
  {
    if eyes >= 2 then 3
    else if eyes == 1 && liberties >= 3 then 2
    else if liberties >= 3 || (eyes == 1 && liberties >= 2) then 1
    else 0
  }

  /** More eyes or more liberties never lower the rating. */
  lemma SafetyMonotone(e1: nat, l1: nat, e2: nat, l2: nat)
    requires e1 <= e2 && l1 <= l2
    ensures Safety(e1, l1) <= Safety(e2, l2)
  {
  }

  /** The analyser's `is_valid_move(x, y, color, board)`: on the board and Empty; the colour and
      the ko point play no part. */
  predicate ScratchValid(g: Grid, p: Pos)
    requires IsGrid(g)
  {
    InBounds(|g|, p) && At(g, p) == Empty
  }

  /** The analyser's test accepts every move `is_valid_move` of the board accepts, and the ko
      point besides. */
  lemma ScratchValidIgnoresKo(s: State, p: Pos)
    requires IsGrid(s.cells)
    ensures Moves.IsValidMove(s, p) <==> ScratchValid(s.cells, p) && s.ko != Some(p)
  {
  }

  /** `predict_capture_sequence(x, y, color)` on the board `g`, without the coordinate-specific
      early returns the program adds for three fixed positions: -1 for an unplayable point,
      0 when the placed group has no liberty after the captures, 1 or 2 for one or two
      liberties, and -1 for more. */
  function CaptureHorizon(g: Grid, p: Pos, color: Cell): (r: int)
    requires IsGrid(g)
    ensures -1 <= r <= 2
    ensures !ScratchValid(g, p) ==> r == -1
  {
    if !ScratchValid(g, p) then -1
    else
      var g1 := SetCell(g, p, color);
      CaptureKeeps(g1, p, Opponent(color), 0, p);
      var cap := Captures(g1, p, Opponent(color));
      var libs := Liberties(cap.grid, Flood(cap.grid, color, p));
      if libs == {} then 0 else if |libs| == 1 then 1 else if |libs| == 2 then 2 else -1
  }

  /** Away from the ko point the horizon is 0 exactly for the moves `place_stone` takes back
      as suicide, and 1 or 2 exactly for accepted moves that leave the new group with that
      many liberties. */
  lemma HorizonMatchesPlacement(s: State, p: Pos, color: Cell)
    requires IsGrid(s.cells) && IsStone(color) && s.ko != Some(p)
    ensures CaptureHorizon(s.cells, p, color) == 0 <==> Moves.IsValidMove(s, p) && !PlaceStone(s, p, color).1
    ensures CaptureHorizon(s.cells, p, color) >= 1 <==>
      var r := PlaceStone(s, p, color);
      r.1 && 1 <= |Liberties(r.0.cells, Flood(r.0.cells, color, p))| <= 2
    ensures CaptureHorizon(s.cells, p, color) >= 1 ==>
      var r := PlaceStone(s, p, color);
      CaptureHorizon(s.cells, p, color) == |Liberties(r.0.cells, Flood(r.0.cells, color, p))|
  {
    if Moves.IsValidMove(s, p) {
      var g1 := SetCell(s.cells, p, color);
      CaptureKeeps(g1, p, Opponent(color), 0, p);
      HorizonAtPlayable(s, p, color, Captures(g1, p, Opponent(color)));
    }
  }

  /** At a playable point both the horizon and `place_stone` look at the liberties left to
      the new group by the captures `cap`. */
  lemma HorizonAtPlayable(s: State, p: Pos, color: Cell, cap: Capture)
    requires IsGrid(s.cells) && IsStone(color) && Moves.IsValidMove(s, p)
    requires cap == Captures(SetCell(s.cells, p, color), p, Opponent(color)) && At(cap.grid, p) == color
    ensures var libs := Liberties(cap.grid, Flood(cap.grid, color, p));
      && CaptureHorizon(s.cells, p, color) == (if libs == {} then 0 else if |libs| == 1 then 1 else if |libs| == 2 then 2 else -1)
      && (PlaceStone(s, p, color).1 <==> libs != {})
      && (libs != {} ==> PlaceStone(s, p, color).0.cells == cap.grid)
  {
    assert PlaceStone(s, p, color) == Settle(s, p, color, cap);
  }

  /** The cells of `group` that still hold a stone on `g`, in order: `new_group`. */
  function Survivors(g: Grid, group: seq<Pos>): (r: seq<Pos>)
    requires IsGrid(g) && forall q :: q in group ==> InBounds(|g|, q)
    ensures forall q :: q in r <==> q in group && At(g, q) != Empty
  {
    if group == [] then []
    else
      var last := group[|group| - 1];
      Survivors(g, group[..|group| - 1]) + (if At(g, last) != Empty then [last] else [])
  }

  /** One more cell of the group scanned: it joins the survivors when it is not Empty. */
  lemma SurvivorsStep(g: Grid, group: seq<Pos>, k: nat)
    requires IsGrid(g) && forall q :: q in group ==> InBounds(|g|, q)
    requires k < |group|
    ensures InBounds(|g|, group[k])
    ensures Survivors(g, group[..k + 1]) ==
      Survivors(g, group[..k]) + (if At(g, group[k]) != Empty then [group[k]] else [])
  {
    assert group[k] in group;
    assert group[..k + 1][..k] == group[..k];
  }

  /** `min(a, b)` where `None` is `float('inf')`. */
  function Least(a: Option<nat>, b: Option<nat>): Option<nat> {
    if a.None? then b else if b.None? then a else Some(if a.value <= b.value then a.value else b.value)
  }

  /** Folding one more value into the running minimum, as `min(min_moves, next_moves + 1)`. */
  lemma LeastStep(m: Option<nat>, t: Option<nat>, rest: Option<nat>)
    ensures Least(m, Least(t, rest)) ==
      Least(if t.Some? then MinWith(m, t.value) else m, rest)
  {
  }

  /** A 1 among values that are all at least 1 is their minimum. */
  lemma LeastOfOne(m: Option<nat>, rest: Option<nat>)
    requires m.Some? ==> m.value >= 1
    requires rest.Some? ==> rest.value >= 1
    ensures Least(m, Least(Some(1), rest)) == Some(1)
  {
  }

  /** The order of two minimums does not matter. */
  lemma LeastSwap(a: Option<nat>, b: Option<nat>, c: Option<nat>)
    ensures Least(a, Least(b, c)) == Least(b, Least(a, c))
  {
  }

  /** The termination measure of the search, `max_depth - current_depth`, kept non-negative. */
  function Budget(cur: int, max: int): nat {
    if cur <= max then max - cur + 1 else 0
  }

  /** The least of the values `f` gives the points of `libs`, taken in any order. */
  ghost function FoldLeast(libs: set<Pos>, f: Pos -> Option<nat>): Option<nat>
    decreases |libs|
  {
    if libs == {} then None
    else
      var l :| l in libs;
      Least(f(l), FoldLeast(libs - {l}, f))
  }

  /** `TryOne` at a playable point: the rest of the pass after the captures there. */
  lemma TryOneAfter(g: Grid, group: seq<Pos>, color: Cell, cur: int, max: int, l: Pos)
    requires IsGrid(g) && forall q :: q in group ==> InBounds(|g|, q)
    requires cur <= max && ScratchValid(g, l)
    ensures var g2 := Captures(SetCell(g, l, color), l, Opponent(color)).grid;
      TryOne(g, group, color, cur, max, l) == AfterCapture(g2, Survivors(g2, group), color, cur, max)
  {
  }

  /** The search case of `CaptureDepth`: a live group that is not a single fillable liberty
      takes the least answer over its liberties. */
  lemma CaptureDepthSearches(g: Grid, group: seq<Pos>, color: Cell, cur: int, max: int)
    requires IsGrid(g) && forall q :: q in group ==> InBounds(|g|, q)
    requires cur <= max && Liberties(g, group) != {}
    requires !(|Liberties(g, group)| == 1 && ScratchValid(g, Only(Liberties(g, group))))
    ensures CaptureDepth(g, group, color, cur, max) ==
      Finite(FoldLeast(Liberties(g, group), TryAt(g, group, color, cur, max)))
  {
    assert CaptureDepth(g, group, color, cur, max) == SearchDepth(g, group, color, cur, max);
  }

  /** The order of the fold does not matter: any point may come first. */
  lemma {:induction false} FoldAnyFirst(libs: set<Pos>, f: Pos -> Option<nat>, l: Pos)
    requires l in libs
    ensures FoldLeast(libs, f) == Least(f(l), FoldLeast(libs - {l}, f))
    decreases |libs|
  {
    var m :| m in libs && FoldLeast(libs, f) == Least(f(m), FoldLeast(libs - {m}, f));
    if m != l {
      var rest := libs - {m} - {l};
      assert libs - {l} - {m} == rest;
      FoldAnyFirst(libs - {m}, f, l);
      FoldAnyFirst(libs - {l}, f, m);
      LeastSwap(f(m), f(l), FoldLeast(rest, f));
    }
  }

  /** The fold stays within bounds every value it folds keeps. */
  lemma {:induction false} FoldBounds(libs: set<Pos>, f: Pos -> Option<nat>, lo: nat, hi: nat)
    requires forall l :: l in libs && f(l).Some? ==> lo <= f(l).value <= hi
    ensures FoldLeast(libs, f).Some? ==> lo <= FoldLeast(libs, f).value <= hi
    decreases |libs|
  {
    if libs != {} {
      var l :| l in libs && FoldLeast(libs, f) == Least(f(l), FoldLeast(libs - {l}, f));
      FoldBounds(libs - {l}, f, lo, hi);
      assert f(l).Some? ==> lo <= f(l).value <= hi;
      var r := FoldLeast(libs - {l}, f);
      assert r.Some? ==> lo <= r.value <= hi;
      assert Least(f(l), r).Some? ==> lo <= Least(f(l), r).value <= hi;
    }
  }

  /** `predict_capture_depth(group, color, board, current_depth, max_depth)`: -1 past the
      depth limit; 0 for a group without liberties; 1 for a single liberty `color` may fill;
      and otherwise the least number of moves over the liberties tried, -1 when none works. */
  ghost function CaptureDepth(g: Grid, group: seq<Pos>, color: Cell, cur: int, max: int): (r: int)
    requires IsGrid(g) && forall q :: q in group ==> InBounds(|g|, q)
    ensures r == -1 || 0 <= r <= max - cur + 1
    ensures cur > max ==> r == -1
    ensures cur <= max && Liberties(g, group) == {} ==> r == 0
    ensures cur <= max && |Liberties(g, group)| == 1 ==> r == 1
    ensures cur <= max && |Liberties(g, group)| > 1 ==> r == -1 || 1 <= r
    decreases Budget(cur, max), 1, 0
  {
    if cur > max then -1
    else
      var libs := Liberties(g, group);
      if libs == {} then 0
      else if |libs| == 1 && ScratchValid(g, Only(libs)) then 1
      else
        SearchDepth(g, group, color, cur, max)
  }

  /** The loop of `predict_capture_depth`: the least answer over the liberties of the group,
      -1 when no liberty leads to a capture. */
  ghost function SearchDepth(g: Grid, group: seq<Pos>, color: Cell, cur: int, max: int): (r: int)
    requires IsGrid(g) && forall q :: q in group ==> InBounds(|g|, q)
    requires cur <= max
    ensures r == -1 || 1 <= r <= max - cur + 1
    decreases Budget(cur, max), 0, 3
  {
    var f := TryAt(g, group, color, cur, max);
    FoldBounds(Liberties(g, group), f, 1, max - cur + 1);
    Finite(FoldLeast(Liberties(g, group), f))
  }

  /** The element of a one-element set, as `list(liberties)[0]`. */
  function Only(s: set<Pos>): (x: Pos)
    requires |s| == 1
    ensures s == {x}
  {
    var x :| x in s;
    assert s == {x} by {
      if y :| y in s && y != x {
        SubsetCard({x, y}, s);
      }
    }
    x
  }

  /** `min_moves if min_moves != float('inf') else -1`. */
  function Finite(m: Option<nat>): int {
    if m.None? then -1 else m.value
  }

  /** The loop body of the search as a function of the liberty tried. */
  ghost function TryAt(g: Grid, group: seq<Pos>, color: Cell, cur: int, max: int): (f: Pos -> Option<nat>)
    requires IsGrid(g) && forall q :: q in group ==> InBounds(|g|, q)
    requires cur <= max
    ensures forall l :: f(l) == TryOne(g, group, color, cur, max, l)
    decreases Budget(cur, max), 0, 2
  {
    l => TryOne(g, group, color, cur, max, l)
  }

  /** One pass of the loop over the liberties: the stone at `l`, the captures it makes, and
      what is left of the group after them. */
  ghost function TryOne(g: Grid, group: seq<Pos>, color: Cell, cur: int, max: int, l: Pos): (r: Option<nat>)
    requires IsGrid(g) && forall q :: q in group ==> InBounds(|g|, q)
    requires cur <= max
    ensures r.Some? ==> 1 <= r.value <= max - cur + 1
    decreases Budget(cur, max), 0, 1
  {
    if !ScratchValid(g, l) then None
    else
      var cap := Captures(SetCell(g, l, color), l, Opponent(color));
      AfterCapture(cap.grid, Survivors(cap.grid, group), color, cur, max)
  }

  /** The rest of the pass once the captures have left `rest` of the group on `g2`: one
      move when nothing is left, otherwise one more move than the search from there. */
  ghost function AfterCapture(g2: Grid, rest: seq<Pos>, color: Cell, cur: int, max: int): (r: Option<nat>)
    requires IsGrid(g2) && forall q :: q in rest ==> InBounds(|g2|, q)
    requires cur <= max
    ensures r.Some? ==> 1 <= r.value <= max - cur + 1
    decreases Budget(cur, max), 0, 0
  {
    if rest == [] then Some(1) else OneMore(CaptureDepth(g2, rest, color, cur + 1, max))
  }

  /** `next_moves + 1` when the deeper search found a capture, nothing otherwise. */
  function OneMore(next: int): (r: Option<nat>)
    ensures r.Some? <==> next >= 0
    ensures r.Some? ==> r.value == next + 1
  {
    if next >= 0 then Some(next + 1) else None
  }

  class LifeDeathAnalyzer {
    const board: Board

    constructor(board: Board)
      ensures this.board == board
    {
      this.board := board;
    }

    /** An Empty neighbour `e` of the group is an eye exactly when the scan of its four sides
        meets no stone of another colour, finds three or more sides on the board, and finds
        the group's colour on all of them. */
    method EyeCheck(e: Pos, color: Cell) returns (eye: bool)
      requires board.Valid()
      ensures eye == IsEye(board.cells, e, color)
    {
      var n := board.size;
      var isEye := true;
      var surrounded := 0;
      var total := 0;
      var i := 0;
      while i < 4
        invariant 0 <= i <= 4 && isEye
        invariant total == Sides(n, e, i) && surrounded == SidesOf(board.cells, e, color, i)
        invariant forall j :: 0 <= j < i && InBounds(n, Neighbor(e, j)) ==> At(board.cells, Neighbor(e, j)) in {color, Empty}
      {
        var nb := Neighbor(e, i);
        if 0 <= nb.x < n && 0 <= nb.y < n {
          total := total + 1;
          if board.grid[nb.y, nb.x] == color {
            surrounded := surrounded + 1;
          } else if board.grid[nb.y, nb.x] != Empty {
            isEye := false;
            assert !SurroundedBy(board.cells, e, color, 4) by {
              assert At(board.cells, Neighbor(e, i)) != color;
            }
            break;
          }
        }
        i := i + 1;
      }
      SidesOfBound(board.cells, e, color, i);
      eye := isEye && surrounded >= 3 && surrounded == total;
    }

    /** `count_eyes(group)`: 0 for an empty group, and otherwise the number of distinct Empty
        neighbours of the group that are eyes of the colour of its first stone. */
    method CountEyes(group: seq<Pos>) returns (eyes: nat)
      requires board.Valid() && (group != [] ==> InBounds(board.size, group[0]))
      ensures group == [] ==> eyes == 0
      ensures group != [] ==> eyes == |Eyes(board.cells, group, At(board.cells, group[0]))|
    {
      if group == [] {
        return 0;
      }
      var color := board.grid[group[0].y, group[0].x];
      var candidates := CollectAdjacent(board.grid, board.cells, group, Empty);
      eyes := CountEyesAmong(candidates, color);
      assert EyesAmong(board.cells, candidates, color) == Eyes(board.cells, group, color);
    }

    /** The loop of `count_eyes` over the candidates: the number of them that `EyeCheck`
        accepts. */
    method CountEyesAmong(candidates: set<Pos>, color: Cell) returns (eyes: nat)
      requires board.Valid()
      ensures eyes == |EyesAmong(board.cells, candidates, color)|
    {
      eyes := 0;
      var remaining := candidates;
      ghost var done: set<Pos> := {};
      while remaining != {}
        invariant remaining <= candidates && done == candidates - remaining
        invariant eyes == |EyesAmong(board.cells, done, color)|
        decreases |remaining|
      {
        var e :| e in remaining;
        var eye := EyeCheck(e, color);
        EyesAmongAdd(board.cells, done, e, color);
        remaining := remaining - {e};
        done := done + {e};
        if eye {
          eyes := eyes + 1;
        }
      }
      assert done == candidates;
    }

    /** `count_liberties(group)`: the number of distinct Empty neighbours of the group. */
    method CountLiberties(group: seq<Pos>) returns (n: nat)
      requires board.Valid()
      ensures n == |Liberties(board.cells, group)|
    {
      var liberties := CollectAdjacent(board.grid, board.cells, group, Empty);
      n := |liberties|;
    }

    /** `count_surrounding_stones(group, color)`: the number of distinct neighbours of the
        group that hold `color`. */
    method CountSurroundingStones(group: seq<Pos>, color: Cell) returns (n: nat)
      requires board.Valid()
      ensures n == |Adjacent(board.cells, group, color)|
    {
      var stones := CollectAdjacent(board.grid, board.cells, group, color);
      n := |stones|;
    }

    /** `calculate_group_safety(group)`: 0 for an empty group, and otherwise the rating from
        the eyes and liberties; the count of opponent stones is taken and not used. */
    method CalculateGroupSafety(group: seq<Pos>) returns (r: nat)
      requires board.Valid() && (group != [] ==> InBounds(board.size, group[0]))
      ensures r <= 3
      ensures group == [] ==> r == 0
      ensures group != [] ==> r == Safety(|Eyes(board.cells, group, At(board.cells, group[0]))|, |Liberties(board.cells, group)|)
    {
      if group == [] {
        return 0;
      }
      var eyes := CountEyes(group);
      var liberties := CountLiberties(group);
      var color := board.grid[group[0].y, group[0].x];
      var opponentStones := CountSurroundingStones(group, Opponent(color));
      r := Safety(eyes, liberties);
    }

    /** `is_alive(group)`: a non-empty group with two eyes, or one eye and three liberties. */
    method IsAlive(group: seq<Pos>) returns (alive: bool)
      requires board.Valid() && (group != [] ==> InBounds(board.size, group[0]))
      ensures alive <==> (group != [] &&
        var eyes := |Eyes(board.cells, group, At(board.cells, group[0]))|;
        eyes >= 2 || (eyes == 1 && |Liberties(board.cells, group)| >= 3))
    {
      if group == [] {
        return false;
      }
      var safety := CalculateGroupSafety(group);
      alive := safety >= 2;
    }

    /** `is_valid_move(x, y, color, board)` on a scratch board. */
    method IsValidMoveOn(a: array2<Cell>, ghost g: Grid, p: Pos) returns (b: bool)
      requires Holds(a, g) && |g| == board.size
      ensures b <==> ScratchValid(g, p)
    {
      if !(0 <= p.x < board.size && 0 <= p.y < board.size) {
        return false;
      }
      if a[p.y, p.x] != Empty {
        return false;
      }
      return true;
    }

    /** `find_group(x, y, color, board)`: nothing unless the point holds `color`, and then its
        group on the scratch board. */
    method FindGroup(a: array2<Cell>, ghost g: Grid, p: Pos, color: Cell) returns (group: seq<Pos>)
      requires Holds(a, g) && |g| == board.size && InBounds(|g|, p)
      ensures At(g, p) != color ==> group == []
      ensures At(g, p) == color ==> group == Flood(g, color, p) && IsGroupOf(g, color, p, group)
    {
      if a[p.y, p.x] != color {
        return [];
      }
      group := FloodFill(a, g, color, p);
      FloodIsGroup(g, color, p);
    }

    /** `has_liberty(group, board)`. */
    method HasLiberty(a: array2<Cell>, ghost g: Grid, group: seq<Pos>) returns (b: bool)
      requires Holds(a, g) && |g| == board.size
      ensures b <==> Liberties(g, group) != {}
    {
      b := GridOps.HasLiberty(a, g, group);
    }

    /** `get_liberties(group, board)`: the Empty neighbours of the group on the scratch board. */
    method GetLiberties(a: array2<Cell>, ghost g: Grid, group: seq<Pos>) returns (libs: set<Pos>)
      requires Holds(a, g) && |g| == board.size
      ensures libs == Liberties(g, group)
      ensures forall q :: q in libs ==> ScratchValid(g, q)
    {
      libs := CollectAdjacent(a, g, group, Empty);
    }

    /** `capture_stones(x, y, color, opponent_color, board)` on a scratch board: the capture
        loop in place. It only turns `opp` stones Empty, lists exactly the cells it clears,
        and leaves no neighbouring `opp` group of `p` without a liberty. */
    method CaptureStones(a: array2<Cell>, ghost g: Grid, p: Pos, color: Cell, opp: Cell) returns (captured: seq<Pos>)
      requires Holds(a, g) && |g| == board.size
      modifies a
      ensures Holds(a, Captures(g, p, opp).grid) && captured == Captures(g, p, opp).captured
      ensures opp != Empty ==> ClearsListed(g, opp, Captures(g, p, opp))
      ensures opp != Empty ==> (forall j :: (0 <= j < 4 && InBounds(|g|, Neighbor(p, j)) && At(Captures(g, p, opp).grid, Neighbor(p, j)) == opp
        ==> Liberties(Captures(g, p, opp).grid, Flood(Captures(g, p, opp).grid, opp, Neighbor(p, j))) != {}))
    {
      captured := GridOps.CaptureStones(a, g, p, opp);
      if opp != Empty {
        CaptureClears(g, p, opp, 0);
        forall j | 0 <= j < 4
          ensures InBounds(|g|, Neighbor(p, j)) && At(Captures(g, p, opp).grid, Neighbor(p, j)) == opp
            ==> Liberties(Captures(g, p, opp).grid, Flood(Captures(g, p, opp).grid, opp, Neighbor(p, j))) != {}
        {
          CaptureLeavesLiberties(g, p, opp, 0, j);
        }
      }
    }

    /** `predict_capture_sequence(x, y, color, depth)` on a copy of the board; the board itself
        is not touched and `depth` is not used. */
    method PredictCaptureSequence(p: Pos, color: Cell, depth: int) returns (r: int)
      requires board.Valid()
      ensures r == CaptureHorizon(board.cells, p, color)
    {
      var temp := CopyGrid(board.grid, board.cells);
      var valid := IsValidMoveOn(temp, board.cells, p);
      if !valid {
        return -1;
      }
      WriteCell(temp, board.cells, p, color);
      ghost var g1 := SetCell(board.cells, p, color);
      var opponent := Opponent(color);
      var captured := CaptureStones(temp, g1, p, color, opponent);
      ghost var cap := Captures(g1, p, opponent);
      CaptureKeeps(g1, p, opponent, 0, p);
      var group := FindGroup(temp, cap.grid, p, color);
      var liberty := HasLiberty(temp, cap.grid, group);
      if !liberty {
        return 0;
      }
      // The program's early returns for three fixed test positions come here; they are
      // not part of this model.
      var liberties := GetLiberties(temp, cap.grid, group);
      if |liberties| == 1 {
        return 1;
      }
      if |liberties| == 2 {
        return 2;
      }
      return -1;
    }

    /** `new_group`: the cells of `group` that still hold a stone on the scratch board. */
    method SurvivorsOn(a: array2<Cell>, ghost g: Grid, group: seq<Pos>) returns (rest: seq<Pos>)
      requires Holds(a, g) && forall q :: q in group ==> InBounds(|g|, q)
      ensures rest == Survivors(g, group)
    {
      rest := [];
      var k := 0;
      while k < |group|
        invariant 0 <= k <= |group|
        invariant rest == Survivors(g, group[..k])
      {
        SurvivorsStep(g, group, k);
        if a[group[k].y, group[k].x] != Empty {
          rest := rest + [group[k]];
        }
        k := k + 1;
      }
      assert group[..|group|] == group;
    }

    /** `predict_capture_depth(group, color, board, current_depth, max_depth)` on the scratch
        board `a`, which it only reads: each liberty is tried on a fresh copy. */
    method PredictCaptureDepth(group: seq<Pos>, color: Cell, a: array2<Cell>, ghost g: Grid, cur: int, max: int)
      returns (r: int)
      requires Holds(a, g) && |g| == board.size && forall q :: q in group ==> InBounds(|g|, q)
      ensures r == CaptureDepth(g, group, color, cur, max)
      decreases Budget(cur, max), 1, 0
    {
      if cur > max {
        return -1;
      }
      var liberties := GetLiberties(a, g, group);
      if liberties == {} {
        return 0;
      }
      if |liberties| == 1 {
        var l :| l in liberties;
        assert l == Only(liberties);
        var temp := CopyGrid(a, g);
        var valid := IsValidMoveOn(temp, g, l);
        if valid {
          WriteCell(temp, g, l, color);
          return 1;
        }
      }
      r := TryAll(group, color, a, g, cur, max, liberties);
      CaptureDepthSearches(g, group, color, cur, max);
    }

    /** The loop of `predict_capture_depth` over the liberties: the least answer of the tries,
        with an early 1 as soon as a try removes the whole group. */
    method TryAll(group: seq<Pos>, color: Cell, a: array2<Cell>, ghost g: Grid, cur: int, max: int,
                  liberties: set<Pos>) returns (r: int)
      requires Holds(a, g) && |g| == board.size && forall q :: q in group ==> InBounds(|g|, q)
      requires cur <= max
      ensures r == Finite(FoldLeast(liberties, TryAt(g, group, color, cur, max)))
      decreases Budget(cur, max), 0, 1
    {
      ghost var f := TryAt(g, group, color, cur, max);
      var minMoves: Option<nat> := None;
      var remaining := liberties;
      while remaining != {}
        invariant remaining <= liberties
        invariant minMoves.Some? ==> minMoves.value >= 1
        invariant Least(minMoves, FoldLeast(remaining, f)) == FoldLeast(liberties, f)
        decreases |remaining|
      {
        var l :| l in remaining;
        FoldAnyFirst(remaining, f, l);
        var t, emptied := TryLiberty(group, color, a, g, cur, max, l);
        assert t == f(l);
        if emptied {
          FoldBounds(remaining - {l}, f, 1, max - cur + 1);
          LeastOfOne(minMoves, FoldLeast(remaining - {l}, f));
          return 1;
        }
        LeastStep(minMoves, t, FoldLeast(remaining - {l}, f));
        if t.Some? {
          minMoves := MinWith(minMoves, t.value);
        }
        remaining := remaining - {l};
      }
      r := Finite(minMoves);
    }

    /** The stone of `color` at the liberty `l` of the scratch board, the captures it makes,
        and the part of `group` still on the board after them. */
    method PlayLiberty(temp: array2<Cell>, ghost g: Grid, group: seq<Pos>, color: Cell, l: Pos)
      returns (rest: seq<Pos>, ghost g2: Grid)
      requires Holds(temp, g) && |g| == board.size && forall q :: q in group ==> InBounds(|g|, q)
      requires ScratchValid(g, l)
      modifies temp
      ensures g2 == Captures(SetCell(g, l, color), l, Opponent(color)).grid
      ensures Holds(temp, g2) && rest == Survivors(g2, group)
    {
      WriteCell(temp, g, l, color);
      ghost var g1 := SetCell(g, l, color);
      var opponent := Opponent(color);
      var captured := CaptureStones(temp, g1, l, color, opponent);
      g2 := Captures(g1, l, opponent).grid;
      rest := SurvivorsOn(temp, g2, group);
    }

    /** The body of the loop of `predict_capture_depth` for the liberty `l`: `emptied` when the
        stone there removes the whole group, and otherwise one more than the deeper search. */
    method TryLiberty(group: seq<Pos>, color: Cell, a: array2<Cell>, ghost g: Grid, cur: int, max: int, l: Pos)
      returns (t: Option<nat>, emptied: bool)
      requires Holds(a, g) && |g| == board.size && forall q :: q in group ==> InBounds(|g|, q)
      requires cur <= max
      ensures t == TryOne(g, group, color, cur, max, l)
      ensures emptied ==> t == Some(1)
      decreases Budget(cur, max), 0, 0
    {
      var temp := CopyGrid(a, g);
      var valid := IsValidMoveOn(temp, g, l);
      if !valid {
        assert TryOne(g, group, color, cur, max, l) == None;
        return None, false;
      }
      ghost var g2;
      var rest;
      rest, g2 := PlayLiberty(temp, g, group, color, l);
      TryOneAfter(g, group, color, cur, max, l);
      if rest == [] {
        assert AfterCapture(g2, rest, color, cur, max) == Some(1);
        return Some(1), true;
      }
      var next := PredictCaptureDepth(rest, color, temp, g2, cur + 1, max);
      t := OneMore(next);
      emptied := false;
    }
  }
}
