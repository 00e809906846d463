/** Settled territory as a function of the grid (`calculate_territories`, src/board.py:194-235):
    an Empty point belongs to a colour when the empty region around it borders stones of that
    colour and none of the other. */
module Territory {
  import opened Cells
  import opened Groups

  /** The connected empty region around an Empty point, as `find_empty_group` lists it. */
  function Region(g: Grid, q: Pos): (r: seq<Pos>)
    requires IsGrid(g) && InBounds(|g|, q) && At(g, q) == Empty
    ensures q in r && forall e :: e in r ==> InBounds(|g|, e) && At(g, e) == Empty
  {
    Flood(g, Empty, q)
  }

  /** `q` is territory of `c`: Empty, and its region borders `c` but not the other colour. */
  predicate Owns(g: Grid, q: Pos, c: Cell)
    requires IsGrid(g) && InBounds(|g|, q) && IsStone(c)
  {
    && At(g, q) == Empty
    && Adjacent(g, Region(g, q), c) != {}
    && Adjacent(g, Region(g, q), Opponent(c)) == {}
  }

  /** `m` is the territory map of `c` on `g`. */
  ghost predicate IsTerritoryOf(m: BoolMap, g: Grid, c: Cell)
    requires IsGrid(g) && IsStone(c)
  {
    IsBoolMap(m, |g|) && forall q :: InBounds(|g|, q) ==> (MapAt(m, q) <==> Owns(g, q, c))
  }

  /** The territory map of `c`, point by point. */
  function TerritoryMap(g: Grid, c: Cell): (m: BoolMap)
    requires IsGrid(g) && IsStone(c)
    ensures IsBoolMap(m, |g|)
  {
    seq(|g|, y requires 0 <= y < |g| => seq(|g|, x requires 0 <= x < |g| => Owns(g, Pos(x, y), c)))
  }

  /** A map is the territory map of `c` exactly when it marks the points `c` owns. */
  lemma TerritoryMapIs(m: BoolMap, g: Grid, c: Cell)
    requires IsGrid(g) && IsStone(c)
    ensures IsTerritoryOf(m, g, c) <==> m == TerritoryMap(g, c)
  {
    var t := TerritoryMap(g, c);
    if IsTerritoryOf(m, g, c) {
      forall y | 0 <= y < |g| ensures m[y] == t[y] {
        forall x | 0 <= x < |g| ensures m[y][x] == t[y][x] {
          assert MapAt(m, Pos(x, y)) == Owns(g, Pos(x, y), c);
        }
      }
    }
    if m == t {
      forall q | InBounds(|g|, q) ensures MapAt(m, q) == Owns(g, q, c) {
        assert q == Pos(q.x, q.y);
      }
    }
  }

  /** Lists holding the same cells have the same neighbours. */
  lemma AdjacentBySet(g: Grid, a: seq<Pos>, b: seq<Pos>, c: Cell)
    requires IsGrid(g) && SetOf(a) == SetOf(b)
    ensures Adjacent(g, a, c) == Adjacent(g, b, c)
  {
    forall n | n in Adjacent(g, a, c) ensures n in Adjacent(g, b, c) {
      var p, i :| p in a && 0 <= i < 4 && InBounds(|g|, Neighbor(p, i)) && At(g, Neighbor(p, i)) == c && n == Neighbor(p, i);
      assert p in SetOf(b);
    }
    forall n | n in Adjacent(g, b, c) ensures n in Adjacent(g, a, c) {
      var p, i :| p in b && 0 <= i < 4 && InBounds(|g|, Neighbor(p, i)) && At(g, Neighbor(p, i)) == c && n == Neighbor(p, i);
      assert p in SetOf(a);
    }
  }

  /** Every point of a region has the same owner, so marking the whole region from any of
      its points gives the same map. */
  lemma OwnerIsUniform(g: Grid, q: Pos, r: Pos, c: Cell)
    requires IsGrid(g) && InBounds(|g|, q) && At(g, q) == Empty && IsStone(c)
    requires r in Region(g, q)
    ensures InBounds(|g|, r) && (Owns(g, r, c) <==> Owns(g, q, c))
  {
    SameGroup(g, Empty, q, r);
    AdjacentBySet(g, Region(g, r), Region(g, q), c);
    AdjacentBySet(g, Region(g, r), Region(g, q), Opponent(c));
  }

  /** Territory of `c` is enclosed by `c`: walking out of its region one step always lands on
      the region itself or on a stone of colour `c`, and at least one such stone exists. No
      point is territory of both colours. */
  lemma OwnedIsEnclosed(g: Grid, q: Pos, c: Cell)
    requires IsGrid(g) && InBounds(|g|, q) && IsStone(c) && Owns(g, q, c)
    ensures !Owns(g, q, Opponent(c))
    ensures exists r, i :: r in Region(g, q) && 0 <= i < 4 && InBounds(|g|, Neighbor(r, i)) && At(g, Neighbor(r, i)) == c
    ensures forall r, i :: r in Region(g, q) && 0 <= i < 4 && InBounds(|g|, Neighbor(r, i))
              ==> Neighbor(r, i) in Region(g, q) || At(g, Neighbor(r, i)) == c
  {
    var reg := Region(g, q);
    FloodIsGroup(g, Empty, q);
    var b :| b in Adjacent(g, reg, c);
    var r0, i0 :| r0 in reg && 0 <= i0 < 4 && InBounds(|g|, Neighbor(r0, i0)) && At(g, Neighbor(r0, i0)) == c && b == Neighbor(r0, i0);
    forall r, i | r in reg && 0 <= i < 4 && InBounds(|g|, Neighbor(r, i))
      ensures Neighbor(r, i) in reg || At(g, Neighbor(r, i)) == c
    {
      var n := Neighbor(r, i);
      assert r in SetOf(reg);
      assert n !in Adjacent(g, reg, Opponent(c));
    }
  }

  /** On a board without stones nobody owns anything. */
  lemma EmptyBoardHasNoTerritory(n: nat, q: Pos, c: Cell)
    requires InBounds(n, q) && IsStone(c)
    ensures !Owns(EmptyGrid(n), q, c)
  {
    var g := EmptyGrid(n);
    assert Adjacent(g, Region(g, q), c) == {};
  }

  /** A region counts for at most one colour, and a region that borders no stone at all (or
      stones of both colours) is nobody's. */
  lemma NeutralRegion(g: Grid, q: Pos)
    requires IsGrid(g) && InBounds(|g|, q) && At(g, q) == Empty
    ensures var reg := Region(g, q);
      (Adjacent(g, reg, Black) == {}) == (Adjacent(g, reg, White) == {})
      <==> !Owns(g, q, Black) && !Owns(g, q, White)
  {
  }
}
