/** Influence as a function of the grid (`calculate_influence` and `calculate_min_distance`,
    src/board.py:268-314): the Manhattan distance from a point to the nearest stone of a colour,
    infinite when there is none, and the rule that gives an Empty point to a colour that is
    within two steps and strictly nearer than the other colour, or the only one within two. */
module Influence {
  import opened Cells

  function Manhattan(p: Pos, q: Pos): nat {
    (if p.x >= q.x then p.x - q.x else q.x - p.x) + (if p.y >= q.y then p.y - q.y else q.y - p.y)
  }

  /** `min(a, d)` where `None` is `float('inf')`. */
  function MinWith(a: Option<nat>, d: nat): Option<nat> {
    if a.Some? && a.value <= d then a else Some(d)
  }

  /** The running minimum after the cells `(0, y) .. (x - 1, y)` of row `y`, starting from `acc`. */
  function RowMin(g: Grid, p: Pos, c: Cell, y: nat, x: nat, acc: Option<nat>): Option<nat>
    requires IsGrid(g) && y < |g| && x <= |g|
  {
    if x == 0 then acc
    else
      var a := RowMin(g, p, c, y, x - 1, acc);
      if g[y][x - 1] == c then MinWith(a, Manhattan(p, Pos(x - 1, y))) else a
  }

  /** The running minimum after the rows `0 .. y - 1`. */
  function RowsMin(g: Grid, p: Pos, c: Cell, y: nat): Option<nat>
    requires IsGrid(g) && y <= |g|
  {
    if y == 0 then None else RowMin(g, p, c, y - 1, |g|, RowsMin(g, p, c, y - 1))
  }

  /** `calculate_min_distance(x, y, color)`: the scan over the whole board. */
  function MinDist(g: Grid, p: Pos, c: Cell): Option<nat>
    requires IsGrid(g)
  {
    RowsMin(g, p, c, |g|)
  }

  lemma {:induction false} RowMinSpec(g: Grid, p: Pos, c: Cell, y: nat, x: nat, acc: Option<nat>)
    requires IsGrid(g) && y < |g| && x <= |g|
    ensures var r := RowMin(g, p, c, y, x, acc);
      && (acc.Some? ==> r.Some? && r.value <= acc.value)
      && (forall x' :: 0 <= x' < x && g[y][x'] == c ==> r.Some? && r.value <= Manhattan(p, Pos(x', y)))
      && (r.Some? ==> r == acc || exists x' :: 0 <= x' < x && g[y][x'] == c && r.value == Manhattan(p, Pos(x', y)))
  {
    if x > 0 {
      RowMinSpec(g, p, c, y, x - 1, acc);
    }
  }

  lemma {:induction false} RowsMinSpec(g: Grid, p: Pos, c: Cell, y: nat)
    requires IsGrid(g) && y <= |g|
    ensures var r := RowsMin(g, p, c, y);
      && (forall q :: InBounds(|g|, q) && q.y < y && At(g, q) == c ==> r.Some? && r.value <= Manhattan(p, q))
      && (r.Some? ==> exists q :: InBounds(|g|, q) && q.y < y && At(g, q) == c && r.value == Manhattan(p, q))
  {
    if y > 0 {
      var prev := RowsMin(g, p, c, y - 1);
      RowsMinSpec(g, p, c, y - 1);
      RowMinSpec(g, p, c, y - 1, |g|, prev);
      var r := RowsMin(g, p, c, y);
      forall q | InBounds(|g|, q) && q.y < y && At(g, q) == c ensures r.Some? && r.value <= Manhattan(p, q) {
        if q.y == y - 1 {
          assert g[y - 1][q.x] == c && q == Pos(q.x, y - 1);
        }
      }
      if r.Some? && r != prev {
        var x' :| 0 <= x' < |g| && g[y - 1][x'] == c && r.value == Manhattan(p, Pos(x', y - 1));
        assert At(g, Pos(x', y - 1)) == c;
      }
    }
  }

  /** The scan finds the distance to the nearest stone of colour `c`: no distance when there
      is no such stone, and otherwise the distance of some stone that no stone beats. */
  lemma MinDistSpec(g: Grid, p: Pos, c: Cell)
    requires IsGrid(g)
    ensures var d := MinDist(g, p, c);
      && (d.None? <==> forall q :: InBounds(|g|, q) ==> At(g, q) != c)
      && (forall q :: InBounds(|g|, q) && At(g, q) == c ==> d.Some? && d.value <= Manhattan(p, q))
      && (d.Some? ==> exists q :: InBounds(|g|, q) && At(g, q) == c && d.value == Manhattan(p, q))
  {
    RowsMinSpec(g, p, c, |g|);
  }

  /** `dist <= 2`, false for an infinite distance. */
  predicate Near(d: Option<nat>) {
    d.Some? && d.value <= 2
  }

  /** The influence rule for one colour, with `mine` and `theirs` the two nearest distances:
      `mine <= 2 and (mine < theirs or theirs > 2)`. */
  predicate Wins(mine: Option<nat>, theirs: Option<nat>) {
    Near(mine) && (theirs.None? || mine.value < theirs.value || !Near(theirs))
  }

  /** `q` is in the influence of `c`. */
  predicate Influences(g: Grid, q: Pos, c: Cell)
    requires IsGrid(g) && InBounds(|g|, q) && IsStone(c)
  {
    At(g, q) == Empty && Wins(MinDist(g, q, c), MinDist(g, q, Opponent(c)))
  }

  ghost predicate IsInfluenceOf(m: BoolMap, g: Grid, c: Cell)
    requires IsGrid(g) && IsStone(c)
  {
    IsBoolMap(m, |g|) && forall q :: InBounds(|g|, q) ==> (MapAt(m, q) <==> Influences(g, q, c))
  }

  /** The influence map of `c`, point by point. */
  function InfluenceMap(g: Grid, c: Cell): (m: BoolMap)
    requires IsGrid(g) && IsStone(c)
    ensures IsBoolMap(m, |g|)
  {
    seq(|g|, y requires 0 <= y < |g| => seq(|g|, x requires 0 <= x < |g| => Influences(g, Pos(x, y), c)))
  }

  /** A map is the influence map of `c` exactly when it marks the points `c` influences. */
  lemma InfluenceMapIs(m: BoolMap, g: Grid, c: Cell)
    requires IsGrid(g) && IsStone(c)
    ensures IsInfluenceOf(m, g, c) <==> m == InfluenceMap(g, c)
  {
    var t := InfluenceMap(g, c);
    if IsInfluenceOf(m, g, c) {
      forall y | 0 <= y < |g| ensures m[y] == t[y] {
        forall x | 0 <= x < |g| ensures m[y][x] == t[y][x] {
          assert MapAt(m, Pos(x, y)) == Influences(g, Pos(x, y), c);
        }
      }
    }
    if m == t {
      forall q | InBounds(|g|, q) ensures MapAt(m, q) == Influences(g, q, c) {
        assert q == Pos(q.x, q.y);
      }
    }
  }

  /** The rule in terms of stones: an Empty point is in the influence of `c` exactly when some
      stone `s` of colour `c` is at most two steps away and every stone of the other colour is
      either more than two steps away or farther than `s`. */
  lemma InfluenceMeaning(g: Grid, q: Pos, c: Cell)
    requires IsGrid(g) && InBounds(|g|, q) && IsStone(c) && At(g, q) == Empty
    ensures Influences(g, q, c) <==>
      exists s :: InBounds(|g|, s) && At(g, s) == c && Manhattan(q, s) <= 2 &&
        forall t :: InBounds(|g|, t) && At(g, t) == Opponent(c) ==> Manhattan(q, t) > 2 || Manhattan(q, t) > Manhattan(q, s)
  {
    var o := Opponent(c);
    MinDistSpec(g, q, c);
    MinDistSpec(g, q, o);
    var mine := MinDist(g, q, c);
    var theirs := MinDist(g, q, o);
    if Influences(g, q, c) {
      var s :| InBounds(|g|, s) && At(g, s) == c && mine.value == Manhattan(q, s);
      assert forall t :: InBounds(|g|, t) && At(g, t) == o ==> Manhattan(q, t) > 2 || Manhattan(q, t) > Manhattan(q, s);
    }
    if exists s :: InBounds(|g|, s) && At(g, s) == c && Manhattan(q, s) <= 2 &&
        forall t :: InBounds(|g|, t) && At(g, t) == o ==> Manhattan(q, t) > 2 || Manhattan(q, t) > Manhattan(q, s)
    {
      var s :| InBounds(|g|, s) && At(g, s) == c && Manhattan(q, s) <= 2 &&
        forall t :: InBounds(|g|, t) && At(g, t) == o ==> Manhattan(q, t) > 2 || Manhattan(q, t) > Manhattan(q, s);
      if theirs.Some? {
        var t :| InBounds(|g|, t) && At(g, t) == o && theirs.value == Manhattan(q, t);
      }
    }
  }

  /** No point is in the influence of both colours: a tie within two steps gives it to nobody. */
  lemma InfluenceExclusive(g: Grid, q: Pos)
    requires IsGrid(g) && InBounds(|g|, q)
    ensures !(Influences(g, q, Black) && Influences(g, q, White))
    ensures At(g, q) == Empty && MinDist(g, q, Black) == MinDist(g, q, White) ==> !Influences(g, q, Black) && !Influences(g, q, White)
  {
  }

  /** On a board without stones no point is influenced. */
  lemma EmptyBoardHasNoInfluence(n: nat, q: Pos, c: Cell)
    requires InBounds(n, q) && IsStone(c)
    ensures !Influences(EmptyGrid(n), q, c)
  {
    MinDistSpec(EmptyGrid(n), q, c);
  }
}
