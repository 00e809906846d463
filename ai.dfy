/** The query helpers of the `AI` class (src/ai.py): choosing among the valid moves by an
    evaluation, and the four measures the evaluation adds up for a White stone at a point:
    stones it would capture, whether it puts its own chain in atari, the change in White's
    influence, and the value of invading Black's area. None of them changes the board. */
module GoAI {
  import opened Cells
  import opened Groups
  import opened Moves
  import opened Territory
  import opened Influence
  import opened GridOps
  import opened GoBoard
  import LifeDeath

  /** The points of row `y`, left to right. */
  function Row(n: nat, y: nat): (r: seq<Pos>)
    ensures |r| == n && forall x :: 0 <= x < n ==> r[x] == Pos(x, y)
  {
    seq(n, x => Pos(x, y))
  }

  /** The points of rows `0 .. y - 1` in the order of the scan `for y: for x`. */
  function Rows(n: nat, y: nat): seq<Pos> {
    if y == 0 then [] else Rows(n, y - 1) + Row(n, y - 1)
  }

  lemma {:induction false} InRows(n: nat, y: nat, q: Pos)
    ensures q in Rows(n, y) <==> 0 <= q.x < n && 0 <= q.y < y
  {
    if y > 0 {
      InRows(n, y - 1, q);
      if 0 <= q.x < n && q.y == y - 1 {
        assert Row(n, y - 1)[q.x] == q;
      }
    }
  }

  /** The entries of `ps` that are valid moves, in order. */
  function ValidAmong(s: State, ps: seq<Pos>): (r: seq<Pos>)
    requires IsGrid(s.cells)
    ensures forall q :: q in r <==> q in ps && Moves.IsValidMove(s, q)
  {
    if ps == [] then []
    else
      var r := ValidAmong(s, ps[..|ps| - 1]);
      assert forall q :: q in ps <==> q in ps[..|ps| - 1] || q == ps[|ps| - 1];
      if Moves.IsValidMove(s, ps[|ps| - 1]) then r + [ps[|ps| - 1]] else r
  }

  /** Scanning one more point appends it exactly when it is a valid move. */
  lemma ValidAmongSnoc(s: State, ps: seq<Pos>, q: Pos)
    requires IsGrid(s.cells)
    ensures ValidAmong(s, ps + [q]) == ValidAmong(s, ps) + (if Moves.IsValidMove(s, q) then [q] else [])
  {
    assert (ps + [q])[..|ps + [q]| - 1] == ps;
  }

  /** `valid_moves`: the valid moves of the board in scan order. */
  function ValidMoves(s: State): (r: seq<Pos>)
    requires IsGrid(s.cells)
    ensures forall q :: q in r <==> InBounds(|s.cells|, q) && Moves.IsValidMove(s, q)
  {
    forall q ensures q in Rows(|s.cells|, |s.cells|) <==> InBounds(|s.cells|, q) {
      InRows(|s.cells|, |s.cells|, q);
    }
    ValidAmong(s, Rows(|s.cells|, |s.cells|))
  }

  /** `max(move_scores.values())`: a listed score that no listed move beats. */
  function BestScore(score: Pos -> int, ms: seq<Pos>): (top: int)
    requires ms != []
    ensures exists m :: m in ms && score(m) == top
    ensures forall m :: m in ms ==> score(m) <= top
  {
    if |ms| == 1 then score(ms[0])
    else
      var rest := BestScore(score, ms[1..]);
      assert forall m :: m in ms ==> m == ms[0] || m in ms[1..];
      if score(ms[0]) >= rest then score(ms[0]) else rest
  }

  /** `best_moves`: the listed moves whose score is `top`, in order. */
  function WithScore(score: Pos -> int, ms: seq<Pos>, top: int): (r: seq<Pos>)
    ensures forall m :: m in r <==> m in ms && score(m) == top
  {
    if ms == [] then []
    else
      var rest := WithScore(score, ms[1..], top);
      assert forall m :: m in ms <==> m == ms[0] || m in ms[1..];
      if score(ms[0]) == top then [ms[0]] + rest else rest
  }

  /** `random.choice(best_moves)` with the random index `pick`; `None` (a pass) when the board
      has no valid move. The choice is a valid move that no valid move outscores. */
  function ChosenMove(s: State, score: Pos -> int, pick: nat): (m: Option<Pos>)
    requires IsGrid(s.cells)
    ensures m.None? <==> forall q :: InBounds(|s.cells|, q) ==> !Moves.IsValidMove(s, q)
    ensures m.Some? ==> InBounds(|s.cells|, m.value) && Moves.IsValidMove(s, m.value)
    ensures m.Some? ==> forall q :: InBounds(|s.cells|, q) && Moves.IsValidMove(s, q) ==> score(q) <= score(m.value)
  {
    var valid := ValidMoves(s);
    if valid == [] then None
    else
      var top := BestScore(score, valid);
      var best := WithScore(score, valid, top);
      var w :| w in valid && score(w) == top;
      assert w in best;
      Some(best[pick % |best|])
  }

  /** The sum of the sizes of the Black chains next to `p` in the directions `i..3` that have
      no Empty neighbour other than `p`, a chain counted once per side of `p` it touches. */
  function PotentialAsWritten(g: Grid, p: Pos, i: nat): (r: nat)
    requires IsGrid(g) && i <= 4
    ensures (forall j :: i <= j < 4 && InBounds(|g|, Neighbor(p, j)) ==> At(g, Neighbor(p, j)) != Black) ==> r == 0
    decreases 4 - i
  {
    if i == 4 then 0
    else
      var nb := Neighbor(p, i);
      var here := if InBounds(|g|, nb) && At(g, nb) == Black && Liberties(g, Flood(g, Black, nb)) <= {p}
        then |Flood(g, Black, nb)| else 0;
      here + PotentialAsWritten(g, p, i + 1)
  }

  /** The 2x2 board with `p` = (0, 0) Empty and Black on the other three points: one chain
      whose only liberty is `p`, touching `p` from two sides. */
  function TwoSided(): (g: Grid)
    ensures IsGrid(g) && |g| == 2
  {
    [[Empty, Black], [Black, Black]]
  }

  /** The four points of a 2x2 board. */
  lemma PointsOfTwo(q: Pos)
    requires InBounds(2, q)
    ensures q == Pos(0, 0) || q == Pos(0, 1) || q == Pos(1, 0) || q == Pos(1, 1)
  {
  }

  /** On a 2x2 board with Black on (0, 1), (1, 0) and (1, 1) and something else on (0, 0),
      the chain around a Black stone is those three stones, whose only possible liberty is
      (0, 0). */
  lemma ThreeStoneChain(g: Grid, start: Pos)
    requires IsGrid(g) && |g| == 2 && At(g, Pos(0, 0)) != Black
    requires At(g, Pos(0, 1)) == Black && At(g, Pos(1, 0)) == Black && At(g, Pos(1, 1)) == Black
    requires start == Pos(0, 1) || start == Pos(1, 0)
    ensures SetOf(Flood(g, Black, start)) == {Pos(0, 1), Pos(1, 0), Pos(1, 1)}
    ensures |Flood(g, Black, start)| == 3
    ensures Liberties(g, Flood(g, Black, start)) <= {Pos(0, 0)}
  {
    ChainWithin(g, start);
    ChainCovers(g, start);
    FloodIsGroup(g, Black, start);
    NoDupCard(Flood(g, Black, start));
    NoOtherLiberty(g, Flood(g, Black, start));
  }

  /** The chain holds Black stones only, so none but the three. */
  lemma ChainWithin(g: Grid, start: Pos)
    requires IsGrid(g) && |g| == 2 && At(g, Pos(0, 0)) != Black
    requires InBounds(2, start) && At(g, start) == Black
    ensures SetOf(Flood(g, Black, start)) <= {Pos(0, 1), Pos(1, 0), Pos(1, 1)}
  {
    FloodIsGroup(g, Black, start);
    forall q | q in SetOf(Flood(g, Black, start)) ensures q in {Pos(0, 1), Pos(1, 0), Pos(1, 1)} {
      assert InBounds(2, q) && At(g, q) == Black;
      PointsOfTwo(q);
    }
  }

  /** The chain is closed under Black neighbours, so it reaches all three stones. */
  lemma ChainCovers(g: Grid, start: Pos)
    requires IsGrid(g) && |g| == 2
    requires At(g, Pos(0, 1)) == Black && At(g, Pos(1, 0)) == Black && At(g, Pos(1, 1)) == Black
    requires start == Pos(0, 1) || start == Pos(1, 0)
    ensures {Pos(0, 1), Pos(1, 0), Pos(1, 1)} <= SetOf(Flood(g, Black, start))
  {
    FloodIsGroup(g, Black, start);
    var s := SetOf(Flood(g, Black, start));
    assert Closed(g, Black, s);
    assert start in s;
    if start == Pos(0, 1) {
      assert Neighbor(start, 1) == Pos(1, 1);
      assert Pos(1, 1) in s;
      assert Neighbor(Pos(1, 1), 2) == Pos(1, 0);
      assert Pos(1, 0) in s;
    } else {
      assert Neighbor(start, 0) == Pos(1, 1);
      assert Pos(1, 1) in s;
      assert Neighbor(Pos(1, 1), 3) == Pos(0, 1);
      assert Pos(0, 1) in s;
    }
  }

  /** On such a board any list of points has no liberty but (0, 0). */
  lemma NoOtherLiberty(g: Grid, f: seq<Pos>)
    requires IsGrid(g) && |g| == 2
    requires At(g, Pos(0, 1)) == Black && At(g, Pos(1, 0)) == Black && At(g, Pos(1, 1)) == Black
    ensures Liberties(g, f) <= {Pos(0, 0)}
  {
    forall q | q in Liberties(g, f) ensures q == Pos(0, 0) {
      assert InBounds(2, q) && At(g, q) == Empty;
      PointsOfTwo(q);
    }
  }

  /** On `TwoSided` a White stone at (0, 0) captures three stones, but the count as written
      is six, the chain being counted from both of its sides. */
  lemma AsWrittenDoubleCounts()
    ensures PotentialAsWritten(TwoSided(), Pos(0, 0), 0) == 6
    ensures |Captures(SetCell(TwoSided(), Pos(0, 0), White), Pos(0, 0), Black).captured| == 3
  {
    var g := TwoSided();
    var p := Pos(0, 0);
    assert Neighbor(p, 0) == Pos(0, 1) && Neighbor(p, 1) == Pos(1, 0);
    assert !InBounds(2, Neighbor(p, 2)) && !InBounds(2, Neighbor(p, 3));
    assert g[1][0] == Black && g[0][1] == Black && g[1][1] == Black;
    ThreeStoneChain(g, Pos(0, 1));
    ThreeStoneChain(g, Pos(1, 0));
    assert PotentialAsWritten(g, p, 2) == 0;
    var g1 := SetCell(g, p, White);
    ThreeStoneChain(g1, Pos(0, 1));
    var group := Flood(g1, Black, Pos(0, 1));
    assert Liberties(g1, group) == {} by {
      assert At(g1, p) == White;
      assert p !in Liberties(g1, group);
    }
    var g2 := ClearCells(g1, group);
    assert At(g2, Pos(1, 0)) == Empty by {
      assert Pos(1, 0) in SetOf(group);
    }
    assert CaptureFrom(g2, p, Black, 1) == CaptureFrom(g2, p, Black, 2);
    assert CaptureFrom(g2, p, Black, 2).captured == [];
    assert Captures(g1, p, Black).captured == group + CaptureFrom(g2, p, Black, 1).captured;
  }

  /** `adjacent_groups` after the directions `i..3`, starting from `acc`: the White chain on
      each side of `p`, left out when the same list is already there. */
  function WhiteGroups(g: Grid, p: Pos, i: nat, acc: seq<seq<Pos>>): (r: seq<seq<Pos>>)
    requires IsGrid(g) && i <= 4
    ensures |acc| <= |r| <= |acc| + 4 - i
    decreases 4 - i
  {
    if i == 4 then acc
    else
      var nb := Neighbor(p, i);
      if InBounds(|g|, nb) && At(g, nb) == White && Flood(g, White, nb) !in acc
      then WhiteGroups(g, p, i + 1, acc + [Flood(g, White, nb)])
      else WhiteGroups(g, p, i + 1, acc)
  }

  /** `c` is the White chain of an in-bounds neighbour of `p` in one of the directions `i..3`. */
  predicate AdjacentWhiteChain(g: Grid, p: Pos, i: nat, c: seq<Pos>)
    requires IsGrid(g)
  {
    exists j :: i <= j < 4 && InBounds(|g|, Neighbor(p, j)) && At(g, Neighbor(p, j)) == White && c == Flood(g, White, Neighbor(p, j))
  }

  /** `adjacent_groups` only appends to the lists it already has. */
  lemma {:induction false} WhiteGroupsPrefix(g: Grid, p: Pos, i: nat, acc: seq<seq<Pos>>)
    requires IsGrid(g) && i <= 4
    ensures WhiteGroups(g, p, i, acc)[..|acc|] == acc
    decreases 4 - i
  {
    if i < 4 {
      var nb := Neighbor(p, i);
      if InBounds(|g|, nb) && At(g, nb) == White && Flood(g, White, nb) !in acc {
        var acc' := acc + [Flood(g, White, nb)];
        WhiteGroupsPrefix(g, p, i + 1, acc');
        var r := WhiteGroups(g, p, i + 1, acc');
        assert r[..|acc|] == r[..|acc'|][..|acc|];
      } else {
        WhiteGroupsPrefix(g, p, i + 1, acc);
      }
    }
  }

  /** Every list `adjacent_groups` adds is the White chain of a neighbour of `p`. */
  lemma {:induction false} WhiteGroupsAdjacent(g: Grid, p: Pos, i: nat, acc: seq<seq<Pos>>, k: nat)
    requires IsGrid(g) && i <= 4 && |acc| <= k < |WhiteGroups(g, p, i, acc)|
    ensures AdjacentWhiteChain(g, p, i, WhiteGroups(g, p, i, acc)[k])
    decreases 4 - i
  {
    if i == 4 {
      assert false;
    } else {
      var nb := Neighbor(p, i);
      if InBounds(|g|, nb) && At(g, nb) == White && Flood(g, White, nb) !in acc {
        var acc' := acc + [Flood(g, White, nb)];
        var r := WhiteGroups(g, p, i + 1, acc');
        if k == |acc| {
          WhiteGroupsPrefix(g, p, i + 1, acc');
          assert r[k] == r[..|acc'|][k];
          assert InBounds(|g|, Neighbor(p, i)) && At(g, Neighbor(p, i)) == White && r[k] == Flood(g, White, Neighbor(p, i));
        } else {
          WhiteGroupsAdjacent(g, p, i + 1, acc', k);
          NarrowerChain(g, p, i, r[k]);
        }
      } else {
        WhiteGroupsAdjacent(g, p, i + 1, acc, k);
        NarrowerChain(g, p, i, WhiteGroups(g, p, i + 1, acc)[k]);
      }
    }
  }

  /** A chain beside `p` in the directions `i + 1..3` is one in the directions `i..3`. */
  lemma NarrowerChain(g: Grid, p: Pos, i: nat, c: seq<Pos>)
    requires IsGrid(g) && AdjacentWhiteChain(g, p, i + 1, c)
    ensures AdjacentWhiteChain(g, p, i, c)
  {
    var j :| i + 1 <= j < 4 && InBounds(|g|, Neighbor(p, j)) && At(g, Neighbor(p, j)) == White && c == Flood(g, White, Neighbor(p, j));
    assert i <= j;
  }

  /** `adjacent_groups` never lists the same chain twice. */
  lemma {:induction false} WhiteGroupsDistinct(g: Grid, p: Pos, i: nat, acc: seq<seq<Pos>>, k: nat)
    requires IsGrid(g) && i <= 4 && |acc| <= k < |WhiteGroups(g, p, i, acc)|
    ensures WhiteGroups(g, p, i, acc)[k] !in WhiteGroups(g, p, i, acc)[..k]
    decreases 4 - i
  {
    if i == 4 {
      assert false;
    } else {
      var nb := Neighbor(p, i);
      if InBounds(|g|, nb) && At(g, nb) == White && Flood(g, White, nb) !in acc {
        var acc' := acc + [Flood(g, White, nb)];
        var r := WhiteGroups(g, p, i + 1, acc');
        if k == |acc| {
          WhiteGroupsPrefix(g, p, i + 1, acc');
          assert r[..k] == r[..|acc'|][..k] == acc;
          assert r[k] == r[..|acc'|][k];
        } else {
          WhiteGroupsDistinct(g, p, i + 1, acc', k);
        }
      } else {
        WhiteGroupsDistinct(g, p, i + 1, acc, k);
      }
    }
  }

  /** The lists of `gs` one after another, as repeated `extend`. */
  function Concat(gs: seq<seq<Pos>>): seq<Pos> {
    if gs == [] then [] else Concat(gs[..|gs| - 1]) + gs[|gs| - 1]
  }

  /** `self_group`: the point followed by every listed adjacent White chain. */
  function SelfGroup(g: Grid, p: Pos): (r: seq<Pos>)
    requires IsGrid(g)
    ensures |r| >= 1 && r[0] == p
  {
    [p] + Concat(WhiteGroups(g, p, 0, []))
  }

  /** `liberty_count` run to the end: the pairs of an entry of `s` and a direction in which
      the neighbour is an Empty point on the board. */
  function PairCount(g: Grid, s: seq<Pos>): (r: nat)
    requires IsGrid(g)
    ensures r <= 4 * |s|
  {
    if s == [] then 0 else PairCount(g, s[..|s| - 1]) + LifeDeath.SidesOf(g, s[|s| - 1], Empty, 4)
  }

  /** A cell has no more distinct neighbours of colour `c` than sides holding `c`. */
  lemma {:induction false} NeighborsAtMostSides(g: Grid, q: Pos, c: Cell, i: nat)
    requires IsGrid(g) && i <= 4
    ensures |NeighborsOf(g, q, c, i)| <= LifeDeath.SidesOf(g, q, c, i)
  {
    if i > 0 {
      NeighborsAtMostSides(g, q, c, i - 1);
      NeighborsOfStep(g, q, c, i - 1);
    }
  }

  /** The sides counted so far never exceed the sides of all four directions. */
  lemma {:induction false} SidesOfGrows(g: Grid, q: Pos, c: Cell, d: nat)
    requires IsGrid(g) && d <= 4
    ensures LifeDeath.SidesOf(g, q, c, d) <= LifeDeath.SidesOf(g, q, c, 4)
    decreases 4 - d
  {
    if d < 4 {
      SidesOfGrows(g, q, c, d + 1);
    }
  }

  /** The pairs of a prefix are among the pairs of the whole list. */
  lemma {:induction false} PairPrefix(g: Grid, s: seq<Pos>, k: nat)
    requires IsGrid(g) && k <= |s|
    ensures PairCount(g, s[..k]) <= PairCount(g, s)
    decreases |s|
  {
    if k < |s| {
      var t := s[..|s| - 1];
      assert s[..k] == t[..k];
      PairPrefix(g, t, k);
    } else {
      assert s[..k] == s;
    }
  }

  /** The count after the entries `0 .. k - 1` and the first `d` directions of entry `k` is
      at most the full count. */
  lemma PairBound(g: Grid, s: seq<Pos>, k: nat, d: nat)
    requires IsGrid(g) && k < |s| && d <= 4
    ensures PairCount(g, s[..k]) + LifeDeath.SidesOf(g, s[k], Empty, d) <= PairCount(g, s)
    ensures PairCount(g, s[..k + 1]) == PairCount(g, s[..k]) + LifeDeath.SidesOf(g, s[k], Empty, 4)
  {
    assert s[..k + 1][..k] == s[..k];
    SidesOfGrows(g, s[k], Empty, d);
    PairPrefix(g, s, k + 1);
  }

  /** The count of pairs bounds the number of distinct liberties of the list. */
  lemma {:induction false} LibertiesAtMostPairs(g: Grid, s: seq<Pos>)
    requires IsGrid(g)
    ensures |Liberties(g, s)| <= PairCount(g, s)
    decreases |s|
  {
    if s == [] {
      assert Liberties(g, s) == {};
    } else {
      var t := s[..|s| - 1];
      var last := s[|s| - 1];
      assert s == t + [last];
      LibertiesAtMostPairs(g, t);
      AdjacentSnoc(g, t, last, Empty);
      NeighborsAtMostSides(g, last, Empty, 4);
      var a := Liberties(g, t);
      var b := NeighborsOf(g, last, Empty, 4);
      assert |a + b| <= |a| + |b| by {
        assert |a + b| + |a * b| == |a| + |b|;
      }
    }
  }

  /** The White chain of `g` before and after a White stone lands on the Empty point `p`:
      the distance from `q` to the nearest White stone cannot grow. */
  lemma WhiteNearer(g: Grid, p: Pos, q: Pos)
    requires IsGrid(g) && InBounds(|g|, p) && At(g, p) == Empty
    ensures var d0 := MinDist(g, q, White);
      var d1 := MinDist(SetCell(g, p, White), q, White);
      d0.Some? ==> d1.Some? && d1.value <= d0.value
  {
    var g1 := SetCell(g, p, White);
    MinDistSpec(g, q, White);
    MinDistSpec(g1, q, White);
    var d0 := MinDist(g, q, White);
    if d0.Some? {
      var s :| InBounds(|g|, s) && At(g, s) == White && d0.value == Manhattan(q, s);
      assert At(g1, s) == White;
    }
  }

  /** Nor does a White stone move the nearest Black stone. */
  lemma BlackUnmoved(g: Grid, p: Pos, q: Pos)
    requires IsGrid(g) && InBounds(|g|, p) && At(g, p) == Empty
    ensures MinDist(SetCell(g, p, White), q, Black) == MinDist(g, q, Black)
  {
    var g1 := SetCell(g, p, White);
    MinDistSpec(g, q, Black);
    MinDistSpec(g1, q, Black);
    var d0 := MinDist(g, q, Black);
    var d1 := MinDist(g1, q, Black);
    assert forall s :: InBounds(|g|, s) ==> (At(g1, s) == Black <==> At(g, s) == Black);
    if d0.Some? && d1.Some? {
      var s0 :| InBounds(|g|, s0) && At(g, s0) == Black && d0.value == Manhattan(q, s0);
      var s1 :| InBounds(|g|, s1) && At(g1, s1) == Black && d1.value == Manhattan(q, s1);
    }
  }

  /** A White stone on the Empty point `p` keeps White's influence on every other point:
      only `p` itself, now a stone, can leave it, so the influence shrinks by at most one. */
  lemma InfluenceKept(g: Grid, p: Pos)
    requires IsGrid(g) && InBounds(|g|, p) && At(g, p) == Empty
    ensures TrueCells(InfluenceMap(g, White)) - {p} <= TrueCells(InfluenceMap(SetCell(g, p, White), White))
    ensures |TrueCells(InfluenceMap(SetCell(g, p, White), White))| >= |TrueCells(InfluenceMap(g, White))| - 1
  {
    var g1 := SetCell(g, p, White);
    var a := TrueCells(InfluenceMap(g, White));
    var b := TrueCells(InfluenceMap(g1, White));
    forall q | q in a - {p} ensures q in b {
      assert InBounds(|g|, q) && Influences(g, q, White);
      WhiteNearer(g, p, q);
      BlackUnmoved(g, p, q);
      assert Influences(g1, q, White);
    }
    SubsetCard(a - {p}, b);
  }

  /** `calculate_invasion_value` looks at the eight points around `p`. */
  const Around: seq<(int, int)> := [(0, 1), (1, 0), (0, -1), (-1, 0), (1, 1), (1, -1), (-1, 1), (-1, -1)]

  function AroundAt(p: Pos, j: nat): Pos
    requires j < 8
  {
    Pos(p.x + Around[j].0, p.y + Around[j].1)
  }

  /** One of the eight points around `p` is on the board and Black territory. */
  predicate NearBlackTerritory(g: Grid, p: Pos)
    requires IsGrid(g)
  {
    exists j :: 0 <= j < 8 && InBounds(|g|, AroundAt(p, j)) && Owns(g, AroundAt(p, j), Black)
  }

  class AI {
    const board: Board

    constructor(board: Board)
      ensures this.board == board
    {
      this.board := board;
    }

    /** `get_move()`, with the evaluation of a move given as `score` and the random choice
        among equally good moves as the index `pick`: a pass exactly when no point is a valid
        move, and otherwise a valid move that no valid move outscores. */
    method GetMove(score: Pos -> int, pick: nat) returns (m: Option<Pos>)
      requires board.Valid()
      ensures m == ChosenMove(board.Snapshot(), score, pick)
      ensures m.None? <==> forall q :: InBounds(board.size, q) ==> !board.IsValidMove(q)
      ensures m.Some? ==> board.IsValidMove(m.value)
      ensures m.Some? ==> forall q :: board.IsValidMove(q) ==> score(q) <= score(m.value)
    {
      var valid := ScanValidMoves();
      if valid == [] {
        return None;
      }
      var top := BestScore(score, valid);
      var best := WithScore(score, valid, top);
      var w :| w in valid && score(w) == top;
      assert w in best;
      m := Some(best[pick % |best|]);
    }

    /** The double loop of `get_move` that lists the valid moves. */
    method ScanValidMoves() returns (valid: seq<Pos>)
      requires board.Valid()
      ensures valid == ValidMoves(board.Snapshot())
    {
      var n := board.size;
      valid := [];
      var y := 0;
      while y < n
        invariant 0 <= y <= n
        invariant valid == ValidAmong(board.Snapshot(), Rows(n, y))
      {
        valid := ScanRow(y, Rows(n, y), valid);
        y := y + 1;
      }
    }

    /** The inner loop of that scan over row `y`: the valid points of the row are appended,
        in order, to those found before it. */
    method ScanRow(y: int, ghost before: seq<Pos>, found: seq<Pos>) returns (valid: seq<Pos>)
      requires board.Valid() && 0 <= y < board.size
      requires found == ValidAmong(board.Snapshot(), before)
      ensures valid == ValidAmong(board.Snapshot(), before + Row(board.size, y))
    {
      var n := board.size;
      ghost var s := board.Snapshot();
      valid := found;
      var x := 0;
      assert before + Row(n, y)[..0] == before;
      while x < n
        invariant 0 <= x <= n
        invariant valid == ValidAmong(s, before + Row(n, y)[..x])
      {
        assert before + Row(n, y)[..x + 1] == (before + Row(n, y)[..x]) + [Pos(x, y)];
        ValidAmongSnoc(s, before + Row(n, y)[..x], Pos(x, y));
        if board.IsValidMove(Pos(x, y)) {
          valid := valid + [Pos(x, y)];
        }
        x := x + 1;
      }
      assert Row(n, y)[..n] == Row(n, y);
    }

    /** The inner loops of `count_potential_captures`: some stone of the group has an Empty
        neighbour on the board other than `p`. */
    method OtherLiberty(group: seq<Pos>, p: Pos) returns (b: bool)
      requires board.Valid()
      ensures b <==> !(Liberties(board.cells, group) <= {p})
    {
      var n := board.size;
      ghost var g := board.cells;
      b := false;
      var k := 0;
      while k < |group| && !b
        invariant 0 <= k <= |group|
        invariant !b ==> forall j, d :: (0 <= j < k && 0 <= d < 4 && InBounds(n, Neighbor(group[j], d))
          ==> Neighbor(group[j], d) == p || At(g, Neighbor(group[j], d)) != Empty)
        invariant b ==> exists q :: q in Liberties(g, group) && q != p
      {
        var d := 0;
        while d < 4 && !b
          invariant 0 <= d <= 4
          invariant !b ==> forall d' :: (0 <= d' < d && InBounds(n, Neighbor(group[k], d'))
            ==> Neighbor(group[k], d') == p || At(g, Neighbor(group[k], d')) != Empty)
          invariant b ==> exists q :: q in Liberties(g, group) && q != p
        {
          var nb := Neighbor(group[k], d);
          if 0 <= nb.x < n && 0 <= nb.y < n && nb != p && board.grid[nb.y, nb.x] == Empty {
            assert nb in Liberties(g, group);
            b := true;
          }
          d := d + 1;
        }
        k := k + 1;
      }
      if !b {
        forall q | q in Liberties(g, group) ensures q == p {
          var r, d :| r in group && 0 <= d < 4 && InBounds(n, Neighbor(r, d)) && At(g, Neighbor(r, d)) == Empty && q == Neighbor(r, d);
          var j :| 0 <= j < |group| && group[j] == r;
        }
      }
    }

    /** `count_potential_captures(x, y)` as the program computes it: the sizes of the Black
        chains beside the point with no other liberty, once per side. */
    method CountPotentialCapturesAsWritten(p: Pos) returns (count: nat)
      requires board.Valid() && InBounds(board.size, p)
      ensures count == PotentialAsWritten(board.cells, p, 0)
    {
      var temp := CopyGrid(board.grid, board.cells);
      WriteCell(temp, board.cells, p, White);
      count := 0;
      var i := 0;
      while i < 4
        invariant 0 <= i <= 4
        invariant count + PotentialAsWritten(board.cells, p, i) == PotentialAsWritten(board.cells, p, 0)
      {
        var k := SideCount(p, i);
        count := count + k;
        i := i + 1;
      }
    }

    /** One direction of `count_potential_captures` as written: the size of the Black chain
        on that side when it has no liberty other than `p`, and otherwise 0. */
    method SideCount(p: Pos, i: nat) returns (k: nat)
      requires board.Valid() && i < 4
      ensures PotentialAsWritten(board.cells, p, i) == k + PotentialAsWritten(board.cells, p, i + 1)
    {
      k := 0;
      var nb := Neighbor(p, i);
      if 0 <= nb.x < board.size && 0 <= nb.y < board.size && board.grid[nb.y, nb.x] == Black {
        var group := board.FindGroup(nb);
        var other := OtherLiberty(group, p);
        if !other {
          k := |group|;
        }
      }
    }

    /** `count_potential_captures(x, y)` as intended: the number of Black stones that a White
        stone at `p` removes, found by running the capture loop on the scratch board. It is
        the number of points other than `p` that the move changes, and what White's capture
        counter gains when the move is played. */
    method CountPotentialCaptures(p: Pos) returns (count: nat)
      requires board.Valid() && InBounds(board.size, p)
      ensures var cap := Captures(SetCell(board.cells, p, White), p, Black);
        count == |cap.captured| && count == |Changed(board.cells, cap.grid, p)|
      ensures Moves.PlaceStone(board.Snapshot(), p, White).1 ==>
        Moves.PlaceStone(board.Snapshot(), p, White).0.whiteCaptures == board.whiteCaptures + count
    {
      var temp := CopyGrid(board.grid, board.cells);
      WriteCell(temp, board.cells, p, White);
      var captured := CaptureStones(temp, SetCell(board.cells, p, White), p, Black);
      count := |captured|;
      ChangedAreCaptured(board.cells, p, White);
      ghost var s := board.Snapshot();
      if Moves.PlaceStone(s, p, White).1 {
        assert Moves.PlaceStone(s, p, White) ==
          Settle(s, p, White, Captures(SetCell(board.cells, p, White), p, Black));
      }
    }
    /** `is_self_atari(x, y)`: true exactly when the point and the White chains beside it
        have at most one (stone, direction) pair facing an Empty point of the unchanged
        board; then they have at most one liberty there. */
    method IsSelfAtari(p: Pos) returns (b: bool)
      requires board.Valid() && InBounds(board.size, p)
      ensures b <==> PairCount(board.cells, SelfGroup(board.cells, p)) <= 1
      ensures b ==> |Liberties(board.cells, SelfGroup(board.cells, p))| <= 1
    {
      var temp := CopyGrid(board.grid, board.cells);
      WriteCell(temp, board.cells, p, White);
      var groups := AdjacentWhiteGroups(p);
      var self := JoinGroups(p, groups);
      b := FewLiberties(self);
      LibertiesAtMostPairs(board.cells, self);
    }

    /** The first loop of `is_self_atari`: the White chains beside `p`, each list once. */
    method AdjacentWhiteGroups(p: Pos) returns (groups: seq<seq<Pos>>)
      requires board.Valid()
      ensures groups == WhiteGroups(board.cells, p, 0, [])
    {
      groups := [];
      var i := 0;
      while i < 4
        invariant 0 <= i <= 4
        invariant WhiteGroups(board.cells, p, i, groups) == WhiteGroups(board.cells, p, 0, [])
      {
        var nb := Neighbor(p, i);
        if 0 <= nb.x < board.size && 0 <= nb.y < board.size && board.grid[nb.y, nb.x] == White {
          var group := board.FindGroup(nb);
          if group !in groups {
            groups := groups + [group];
          }
        }
        i := i + 1;
      }
    }

    /** `self_group = [(x, y)]` extended by each chain in turn. */
    method JoinGroups(p: Pos, groups: seq<seq<Pos>>) returns (self: seq<Pos>)
      ensures self == [p] + Concat(groups)
    {
      self := [p];
      var k := 0;
      while k < |groups|
        invariant 0 <= k <= |groups|
        invariant self == [p] + Concat(groups[..k])
      {
        assert groups[..k + 1][..k] == groups[..k];
        self := self + groups[k];
        k := k + 1;
      }
      assert groups[..|groups|] == groups;
    }

    /** The liberty loop of `is_self_atari`, which stops as soon as it has seen two pairs. */
    method FewLiberties(s: seq<Pos>) returns (b: bool)
      requires board.Valid()
      ensures b <==> PairCount(board.cells, s) <= 1
    {
      ghost var g := board.cells;
      var count := 0;
      var k := 0;
      while k < |s|
        invariant 0 <= k <= |s|
        invariant count == PairCount(g, s[..k]) && count <= 1
      {
        var d := 0;
        while d < 4
          invariant 0 <= d <= 4
          invariant count == PairCount(g, s[..k]) + LifeDeath.SidesOf(g, s[k], Empty, d) && count <= 1
        {
          var nb := Neighbor(s[k], d);
          if 0 <= nb.x < board.size && 0 <= nb.y < board.size && board.grid[nb.y, nb.x] == Empty {
            count := count + 1;
            if count > 1 {
              PairBound(g, s, k, d + 1);
              return false;
            }
          }
          d := d + 1;
        }
        PairBound(g, s, k, 4);
        k := k + 1;
      }
      assert s[..|s|] == s;
      b := count <= 1;
    }

    /** `calculate_influence_gain(x, y)`: the number of points in White's influence once a
        White stone is at `p`, less the number in White's influence now. Placed on an Empty
        point, the stone costs White at most that point. */
    method CalculateInfluenceGain(p: Pos) returns (gain: int)
      requires board.Valid() && InBounds(board.size, p)
      ensures gain == |TrueCells(InfluenceMap(SetCell(board.cells, p, White), White))|
                      - |TrueCells(InfluenceMap(board.cells, White))|
      ensures At(board.cells, p) == Empty ==> gain >= -1
    {
      var current := CountMarked(board.whiteInfluence);
      var temp := CopyGrid(board.grid, board.cells);
      WriteCell(temp, board.cells, p, White);
      var total := CountWhiteInfluence(temp, SetCell(board.cells, p, White));
      gain := total as int - current as int;
      if At(board.cells, p) == Empty {
        InfluenceKept(board.cells, p);
      }
    }

    /** The double loop of `calculate_influence_gain` over the scratch board: the Empty points
        within two steps of a White stone and nearer to White than to Black, or with Black
        more than two steps away. */
    method CountWhiteInfluence(a: array2<Cell>, ghost g: Grid) returns (k: nat)
      requires Holds(a, g)
      ensures k == |TrueCells(InfluenceMap(g, White))|
    {
      var n := a.Length0;
      ghost var m := InfluenceMap(g, White);
      k := 0;
      var y := 0;
      while y < n
        invariant 0 <= y <= n
        invariant k == |MarkedBefore(m, y, 0)|
      {
        var x := 0;
        while x < n
          invariant 0 <= x <= n
          invariant k == |MarkedBefore(m, y, x)|
        {
          var counted := WhiteWins(a, g, Pos(x, y));
          MarkedStep(m, y, x);
          if counted {
            k := k + 1;
          }
          x := x + 1;
        }
        MarkedStep(m, y, 0);
        y := y + 1;
      }
      assert MarkedBefore(m, n, 0) == TrueCells(m);
    }

    /** The test of one point in `calculate_influence_gain`. */
    method WhiteWins(a: array2<Cell>, ghost g: Grid, here: Pos) returns (counted: bool)
      requires Holds(a, g) && InBounds(|g|, here)
      ensures counted == InfluenceMap(g, White)[here.y][here.x]
    {
      counted := false;
      if a[here.y, here.x] == Empty {
        var mw := MinDistance(a, g, here, White);
        var mb := MinDistance(a, g, here, Black);
        counted := Wins(mw, mb);
      }
    }

    /** `calculate_invasion_value(x, y)`: 5 inside Black's influence, otherwise 3 next to
        (or diagonally next to) Black territory, otherwise 0. Black's influence is only on
        Empty points within two steps of a Black stone. */
    method CalculateInvasionValue(p: Pos) returns (v: nat)
      requires board.Valid() && InBounds(board.size, p)
      ensures v == 5 <==> Influences(board.cells, p, Black)
      ensures v == 3 <==> !Influences(board.cells, p, Black) && NearBlackTerritory(board.cells, p)
      ensures v == 0 <==> !Influences(board.cells, p, Black) && !NearBlackTerritory(board.cells, p)
      ensures v == 5 ==> (At(board.cells, p) == Empty &&
        exists s :: InBounds(board.size, s) && At(board.cells, s) == Black && Manhattan(p, s) <= 2)
    {
      ghost var g := board.cells;
      if board.blackInfluence[p.y][p.x] {
        InfluenceMeaning(g, p, Black);
        return 5;
      }
      var j := 0;
      while j < 8
        invariant 0 <= j <= 8
        invariant forall j' :: 0 <= j' < j && InBounds(board.size, AroundAt(p, j')) ==> !Owns(g, AroundAt(p, j'), Black)
      {
        var q := AroundAt(p, j);
        if 0 <= q.x < board.size && 0 <= q.y < board.size && board.blackTerritory[q.y][q.x] {
          return 3;
        }
        j := j + 1;
      }
      return 0;
    }
  }
}
