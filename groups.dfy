/** Groups and empty regions as values: the breadth-first flood fill that `find_group`,
    `find_empty_group` and the analyser's `find_group` run (src/board.py:146-166, 247-266,
    src/life_death.py:328-347), written as functions, and what it computes: the maximal
    orthogonally connected set of cells of one colour around a start point. */
module Groups {
  import opened Cells

  /** A set is closed for colour `c` when every in-bounds neighbour of colour `c` of one of
      its members is itself a member. */
  ghost predicate Closed(g: Grid, c: Cell, t: set<Pos>)
    requires IsGrid(g)
  {
    forall p, i {:trigger Neighbor(p, i), p in t} ::
      p in t && 0 <= i < 4 && InBounds(|g|, Neighbor(p, i)) && At(g, Neighbor(p, i)) == c
      ==> Neighbor(p, i) in t
  }

  /** `r` lists, without repetition, exactly the group of colour `c` around `start`: it holds
      `start`, only in-bounds cells of colour `c`, is closed, and lies inside every closed set
      that holds `start` (so no cell of it is "extra"). */
  ghost predicate IsGroupOf(g: Grid, c: Cell, start: Pos, r: seq<Pos>)
    requires IsGrid(g)
  {
    && NoDup(r)
    && start in r
    && (forall q :: q in r ==> InBounds(|g|, q) && At(g, q) == c)
    && Closed(g, c, SetOf(r))
    && (forall t :: Closed(g, c, t) && start in t ==> SetOf(r) <= t)
  }

  /** The neighbours of `p` that the inner loop over the directions `i..3` appends to the
      queue: in bounds, not yet visited (the visited set grows as they are appended) and
      of colour `c`. */
  function Expand(g: Grid, c: Cell, p: Pos, i: nat, visited: set<Pos>): seq<Pos>
    requires IsGrid(g) && i <= 4
    decreases 4 - i
  {
    if i == 4 then []
    else
      var q := Neighbor(p, i);
      if InBounds(|g|, q) && q !in visited && At(g, q) == c then
        [q] + Expand(g, c, p, i + 1, visited + {q})
      else
        Expand(g, c, p, i + 1, visited)
  }

  /** The appended cells are distinct, fresh, of colour `c` and neighbours of `p`, and every
      neighbour of colour `c` in the remaining directions is visited or appended. */
  lemma {:induction false} ExpandSpec(g: Grid, c: Cell, p: Pos, i: nat, visited: set<Pos>)
    requires IsGrid(g) && i <= 4
    ensures var added := Expand(g, c, p, i, visited);
      && NoDup(added)
      && (forall q :: q in added ==> InBounds(|g|, q) && q !in visited && At(g, q) == c)
      && (forall q :: q in added ==> exists j :: i <= j < 4 && q == Neighbor(p, j))
      && (forall j :: i <= j < 4 && InBounds(|g|, Neighbor(p, j)) && At(g, Neighbor(p, j)) == c
            ==> Neighbor(p, j) in visited || Neighbor(p, j) in added)
    decreases 4 - i
  {
    if i < 4 {
      var q := Neighbor(p, i);
      if InBounds(|g|, q) && q !in visited && At(g, q) == c {
        ExpandSpec(g, c, p, i + 1, visited + {q});
      } else {
        ExpandSpec(g, c, p, i + 1, visited);
      }
    }
  }

  /** Adding a non-empty set of fresh cells to `visited` leaves fewer unvisited cells. */
  lemma FewerUnvisited(n: nat, visited: set<Pos>, added: set<Pos>)
    requires visited <= AllCells(n) && added <= AllCells(n)
    requires added != {} && added !! visited
    ensures |AllCells(n) - (visited + added)| < |AllCells(n) - visited|
  {
    var a :| a in added;
    assert AllCells(n) - (visited + added) <= AllCells(n) - visited - {a};
    assert a in AllCells(n) - visited;
  }

  /** The queue loop: pop the front cell, append it to the group, push its fresh neighbours. */
  function Bfs(g: Grid, c: Cell, queue: seq<Pos>, visited: set<Pos>, group: seq<Pos>): seq<Pos>
    requires IsGrid(g)
    requires forall q :: q in visited ==> InBounds(|g|, q)
    decreases |AllCells(|g|) - visited|, |queue|
  {
    if queue == [] then group
    else
      var added := Expand(g, c, queue[0], 0, visited);
      ExpandSpec(g, c, queue[0], 0, visited);
      InAllCells(|g|, visited);
      InAllCells(|g|, SetOf(added));
      if added != [] then
        assert added[0] in SetOf(added);
        FewerUnvisited(|g|, visited, SetOf(added));
        Bfs(g, c, queue[1..] + added, visited + SetOf(added), group + [queue[0]])
      else
        assert visited + SetOf(added) == visited;
        Bfs(g, c, queue[1..] + added, visited + SetOf(added), group + [queue[0]])
  }

  /** What the queue loop keeps true: the group and the queue together list the visited cells
      once each, all of colour `c`; every neighbour of colour `c` of a group member has been
      visited; and the visited cells lie in every closed set that holds `start`. */
  ghost predicate BfsInv(g: Grid, c: Cell, start: Pos, queue: seq<Pos>, visited: set<Pos>, group: seq<Pos>)
    requires IsGrid(g)
  {
    && NoDup(group + queue)
    && (forall q :: q in visited <==> q in group || q in queue)
    && (forall q :: q in visited ==> InBounds(|g|, q) && At(g, q) == c)
    && start in visited
    && (forall q, j {:trigger Neighbor(q, j), q in group} ::
          q in group && 0 <= j < 4 && InBounds(|g|, Neighbor(q, j)) && At(g, Neighbor(q, j)) == c
          ==> Neighbor(q, j) in visited)
    && (forall t :: Closed(g, c, t) && start in t ==> visited <= t)
  }

  lemma NoDupStep(group: seq<Pos>, queue: seq<Pos>, added: seq<Pos>, visited: set<Pos>)
    requires queue != []
    requires NoDup(group + queue) && NoDup(added)
    requires forall q :: q in visited <==> q in group || q in queue
    requires forall q :: q in added ==> q !in visited
    ensures NoDup((group + [queue[0]]) + (queue[1..] + added))
  {
    var s := (group + [queue[0]]) + (queue[1..] + added);
    var old_s := group + queue;
    assert s == old_s + added;
    forall i, j | 0 <= i < j < |s| ensures s[i] != s[j] {
      if j >= |old_s| {
        if i >= |old_s| {
          assert s[i] == added[i - |old_s|] && s[j] == added[j - |old_s|];
        } else {
          assert s[i] == old_s[i];
          assert s[i] in group || s[i] in queue;
          assert s[j] in added;
        }
      } else {
        assert s[i] == old_s[i] && s[j] == old_s[j];
      }
    }
  }

  lemma BfsStep(g: Grid, c: Cell, start: Pos, queue: seq<Pos>, visited: set<Pos>, group: seq<Pos>)
    requires IsGrid(g) && queue != []
    requires BfsInv(g, c, start, queue, visited, group)
    ensures var added := Expand(g, c, queue[0], 0, visited);
      BfsInv(g, c, start, queue[1..] + added, visited + SetOf(added), group + [queue[0]])
  {
    var p := queue[0];
    var added := Expand(g, c, p, 0, visited);
    ExpandSpec(g, c, p, 0, visited);
    var queue' := queue[1..] + added;
    var visited' := visited + SetOf(added);
    var group' := group + [p];
    NoDupStep(group, queue, added, visited);
    assert queue == [p] + queue[1..];
    forall q ensures q in visited' <==> q in group' || q in queue' {
    }
    forall t | Closed(g, c, t) && start in t ensures visited' <= t {
      assert p in visited;
      forall q | q in added ensures q in t {
        var j :| 0 <= j < 4 && q == Neighbor(p, j);
      }
    }
  }

  lemma {:induction false} BfsCorrect(g: Grid, c: Cell, start: Pos, queue: seq<Pos>, visited: set<Pos>, group: seq<Pos>)
    requires IsGrid(g)
    requires BfsInv(g, c, start, queue, visited, group)
    ensures IsGroupOf(g, c, start, Bfs(g, c, queue, visited, group))
    decreases |AllCells(|g|) - visited|, |queue|
  {
    var r := Bfs(g, c, queue, visited, group);
    if queue == [] {
      assert group + queue == group;
      assert SetOf(group) == visited;
    } else {
      var added := Expand(g, c, queue[0], 0, visited);
      ExpandSpec(g, c, queue[0], 0, visited);
      BfsStep(g, c, start, queue, visited, group);
      InAllCells(|g|, visited);
      InAllCells(|g|, SetOf(added));
      if added != [] {
        assert added[0] in SetOf(added);
        FewerUnvisited(|g|, visited, SetOf(added));
      } else {
        assert visited + SetOf(added) == visited;
      }
      BfsCorrect(g, c, start, queue[1..] + added, visited + SetOf(added), group + [queue[0]]);
    }
  }

  /** The flood fill of colour `c` from `start`, in the order the queue visits the cells. */
  function Flood(g: Grid, c: Cell, start: Pos): (r: seq<Pos>)
    requires IsGrid(g) && InBounds(|g|, start) && At(g, start) == c
    ensures start in r && forall q :: q in r ==> InBounds(|g|, q) && At(g, q) == c
  {
    assert BfsInv(g, c, start, [start], {start}, []);
    BfsCorrect(g, c, start, [start], {start}, []);
    Bfs(g, c, [start], {start}, [])
  }

  /** The flood fill lists exactly the group around `start`, each cell once. */
  lemma FloodIsGroup(g: Grid, c: Cell, start: Pos)
    requires IsGrid(g) && InBounds(|g|, start) && At(g, start) == c
    ensures IsGroupOf(g, c, start, Flood(g, c, start))
  {
    assert BfsInv(g, c, start, [start], {start}, []);
    BfsCorrect(g, c, start, [start], {start}, []);
  }

  /** Inside a closed set `b` of cells of colour `c`, removing a closed subset `a` leaves a
      closed set, because adjacency is symmetric. */
  lemma DiffClosed(g: Grid, c: Cell, a: set<Pos>, b: set<Pos>)
    requires IsGrid(g) && Closed(g, c, a) && Closed(g, c, b) && a <= b
    requires forall p :: p in b ==> InBounds(|g|, p) && At(g, p) == c
    ensures Closed(g, c, b - a)
  {
    forall p, i | p in b - a && 0 <= i < 4 && InBounds(|g|, Neighbor(p, i)) && At(g, Neighbor(p, i)) == c
      ensures Neighbor(p, i) in b - a
    {
      var nb := Neighbor(p, i);
      NeighborBack(p, i);
      assert Neighbor(nb, (i + 2) % 4) == p;
      assert nb in a ==> p in a;
    }
  }

  /** Groups are equivalence classes: a cell of the group around `s` has the same group,
      as a set. */
  lemma SameGroup(g: Grid, c: Cell, s: Pos, q: Pos)
    requires IsGrid(g) && InBounds(|g|, s) && At(g, s) == c
    requires q in Flood(g, c, s)
    ensures SetOf(Flood(g, c, q)) == SetOf(Flood(g, c, s))
  {
    FloodIsGroup(g, c, s);
    FloodIsGroup(g, c, q);
    var a := SetOf(Flood(g, c, q));
    var b := SetOf(Flood(g, c, s));
    assert q in b;
    assert a <= b;
    assert forall p :: p in b ==> InBounds(|g|, p) && At(g, p) == c;
    DiffClosed(g, c, a, b);
    assert q in a && q !in b - a;
    // b lies inside every closed set holding s; b - a is closed and misses q, so it misses s.
    assert s !in b - a;
    assert b <= a;
  }

  /** The in-bounds neighbours of colour `c` of the cells listed in `group`, without
      repetition; for `c == Empty` these are the group's liberties. */
  function Adjacent(g: Grid, group: seq<Pos>, c: Cell): set<Pos>
    requires IsGrid(g)
  {
    set p, i | p in group && 0 <= i < 4 && InBounds(|g|, Neighbor(p, i)) && At(g, Neighbor(p, i)) == c
      :: Neighbor(p, i)
  }

  function Liberties(g: Grid, group: seq<Pos>): set<Pos>
    requires IsGrid(g)
  {
    Adjacent(g, group, Empty)
  }

  /** `find_group(x, y)` of the board: nothing on an Empty point, else the group of its colour. */
  function GroupAt(g: Grid, q: Pos): seq<Pos>
    requires IsGrid(g) && InBounds(|g|, q)
  {
    if At(g, q) == Empty then [] else Flood(g, At(g, q), q)
  }

  /** The neighbours of colour `c` of one cell in the directions `0 .. i - 1`. */
  function NeighborsOf(g: Grid, p: Pos, c: Cell, i: nat): set<Pos>
    requires IsGrid(g) && i <= 4
  {
    set j | 0 <= j < i && InBounds(|g|, Neighbor(p, j)) && At(g, Neighbor(p, j)) == c :: Neighbor(p, j)
  }

  /** One more direction adds that neighbour when it is on the board and of colour `c`. */
  lemma NeighborsOfStep(g: Grid, p: Pos, c: Cell, i: nat)
    requires IsGrid(g) && i < 4
    ensures var nb := Neighbor(p, i);
      NeighborsOf(g, p, c, i + 1) == NeighborsOf(g, p, c, i) + (if InBounds(|g|, nb) && At(g, nb) == c then {nb} else {})
  {
  }

  /** Appending a cell to a list adds that cell's neighbours to the list's neighbours. */
  lemma AdjacentSnoc(g: Grid, s: seq<Pos>, p: Pos, c: Cell)
    requires IsGrid(g)
    ensures Adjacent(g, s + [p], c) == Adjacent(g, s, c) + NeighborsOf(g, p, c, 4)
  {
    forall n | n in Adjacent(g, s + [p], c) ensures n in Adjacent(g, s, c) + NeighborsOf(g, p, c, 4) {
      var r, i :| r in s + [p] && 0 <= i < 4 && InBounds(|g|, Neighbor(r, i)) && At(g, Neighbor(r, i)) == c && n == Neighbor(r, i);
      if r != p {
        assert r in s;
      }
    }
  }
}
