/** Why a point cannot be played (`get_invalid_move_reason`, src/board.py:490-543), on board
    values. The program's suicide test reads the board before the stone is placed, so the
    point itself is still an Empty neighbour of every group it touches; `ReasonAsWritten` keeps
    that reading and `IntendedReason` is the intended one, tied to `place_stone`. */
module Legality {
  import opened Cells
  import opened Groups
  import opened Moves

  /** The five messages, in the order the program tests them. */
  datatype MoveReason = OffBoard | Occupied | KoRule | Suicide | Legal

  /** The `can_capture` loop: some in-bounds neighbour in directions `i..3` is White on the
      trial board and its group, found and tested on the unmodified board `g`, has no liberty. */
  function CanCaptureAsWritten(g: Grid, temp: Grid, p: Pos, i: nat): bool
    requires IsGrid(g) && IsGrid(temp) && |temp| == |g| && i <= 4
    decreases 4 - i
  {
    if i == 4 then false
    else
      var nb := Neighbor(p, i);
      if InBounds(|g|, nb) && At(temp, nb) == White && Liberties(g, GroupAt(g, nb)) == {} then true
      else CanCaptureAsWritten(g, temp, p, i + 1)
  }

  /** The `has_liberty` loop: an in-bounds neighbour in directions `i..3` is Empty on the trial
      board, or Black with a group that has a liberty on the unmodified board `g`. */
  function FriendLibertyAsWritten(g: Grid, temp: Grid, p: Pos, i: nat): bool
    requires IsGrid(g) && IsGrid(temp) && |temp| == |g| && i <= 4
    decreases 4 - i
  {
    if i == 4 then false
    else
      var nb := Neighbor(p, i);
      if InBounds(|g|, nb) && At(temp, nb) == Empty then true
      else if InBounds(|g|, nb) && At(temp, nb) == Black && Liberties(g, GroupAt(g, nb)) != {} then true
      else FriendLibertyAsWritten(g, temp, p, i + 1)
  }

  /** `get_invalid_move_reason(x, y)` as the program computes it. */
  function ReasonAsWritten(s: State, p: Pos): (r: MoveReason)
    requires IsGrid(s.cells)
    ensures r == OffBoard || r == Occupied || r == KoRule <==> !IsValidMove(s, p)
    ensures r == OffBoard <==> !InBounds(|s.cells|, p)
  {
    if !InBounds(|s.cells|, p) then OffBoard
    else if At(s.cells, p) != Empty then Occupied
    else if s.ko == Some(p) then KoRule
    else
      var temp := SetCell(s.cells, p, Black);
      var canCapture := CanCaptureAsWritten(s.cells, temp, p, 0);
      var hasLiberty := FriendLibertyAsWritten(s.cells, temp, p, 0);
      if !hasLiberty && !canCapture then Suicide else Legal
  }

  /** Every in-bounds neighbour of `p` is a White stone. */
  predicate WhiteAround(g: Grid, p: Pos)
    requires IsGrid(g)
  {
    forall j :: 0 <= j < 4 && InBounds(|g|, Neighbor(p, j)) ==> At(g, Neighbor(p, j)) == White
  }

  /** A stone next to the Empty point `p` has `p` among the liberties of its group. */
  lemma PointIsLiberty(g: Grid, p: Pos, j: nat)
    requires IsGrid(g) && InBounds(|g|, p) && At(g, p) == Empty && j < 4
    requires InBounds(|g|, Neighbor(p, j)) && At(g, Neighbor(p, j)) != Empty
    ensures p in Liberties(g, GroupAt(g, Neighbor(p, j)))
  {
    var nb := Neighbor(p, j);
    NeighborBack(p, j);
    assert Neighbor(nb, (j + 2) % 4) == p;
    assert nb in GroupAt(g, nb);
  }

  /** On the unmodified board no neighbouring group is ever without a liberty. */
  lemma {:induction false} NoCaptureAsWritten(g: Grid, p: Pos, i: nat)
    requires IsGrid(g) && InBounds(|g|, p) && At(g, p) == Empty && i <= 4
    ensures !CanCaptureAsWritten(g, SetCell(g, p, Black), p, i)
    decreases 4 - i
  {
    if i < 4 {
      var nb := Neighbor(p, i);
      if InBounds(|g|, nb) && At(g, nb) != Empty {
        PointIsLiberty(g, p, i);
      }
      NoCaptureAsWritten(g, p, i + 1);
    }
  }

  /** The friendly-liberty loop succeeds exactly when some neighbour in directions `i..3` is
      on the board and not White. */
  lemma {:induction false} FriendLibertyMeaning(g: Grid, p: Pos, i: nat)
    requires IsGrid(g) && InBounds(|g|, p) && At(g, p) == Empty && i <= 4
    ensures FriendLibertyAsWritten(g, SetCell(g, p, Black), p, i) <==>
      exists j :: i <= j < 4 && InBounds(|g|, Neighbor(p, j)) && At(g, Neighbor(p, j)) != White
    decreases 4 - i
  {
    if i < 4 {
      var nb := Neighbor(p, i);
      if InBounds(|g|, nb) && At(g, nb) != Empty {
        PointIsLiberty(g, p, i);
      }
      FriendLibertyMeaning(g, p, i + 1);
      if InBounds(|g|, nb) && At(g, nb) != White {
        assert nb != p;
      }
    }
  }

  /** As written, a playable point is reported as suicide exactly when every in-bounds
      neighbour is White, whatever the groups around it look like. */
  lemma AsWrittenSuicide(s: State, p: Pos)
    requires IsGrid(s.cells)
    ensures ReasonAsWritten(s, p) == Suicide <==> IsValidMove(s, p) && WhiteAround(s.cells, p)
  {
    if IsValidMove(s, p) {
      NoCaptureAsWritten(s.cells, p, 0);
      FriendLibertyMeaning(s.cells, p, 0);
    }
  }

  /** A 3x3 board that play can reach, with Black to play at the Empty corner (0, 0): White
      on both of its neighbours, each White stone with (0, 0) as its only liberty, and Black
      on (2, 0), (1, 1) and (0, 2), each with an Empty neighbour. */
  function CornerState(): (s: State)
    ensures IsGrid(s.cells) && |s.cells| == 3
  {
    State([[Empty, White, Black], [White, Black, Empty], [Black, Empty, Empty]], 0, 0, None)
  }

  /** Once Black plays (0, 0), every neighbour on the board of the White stone at (0, 1) is
      Black. */
  lemma CornerBlackAround(i: nat)
    requires i < 4
    ensures var g1 := SetCell(CornerState().cells, Pos(0, 0), Black);
      InBounds(3, Neighbor(Pos(0, 1), i)) ==> At(g1, Neighbor(Pos(0, 1), i)) == Black
  {
    var g := CornerState().cells;
    assert g[1][1] == Black && g[2][0] == Black;
    var g1 := SetCell(g, Pos(0, 0), Black);
    var nb := Neighbor(Pos(0, 1), i);
    assert nb == Pos(0, 2) || nb == Pos(1, 1) || nb == Pos(0, 0) || nb == Pos(-1, 1);
  }

  /** The White stone at (0, 1) is a group of its own, and the Black move leaves it no
      liberty. */
  lemma CornerWhiteTrapped()
    ensures var g1 := SetCell(CornerState().cells, Pos(0, 0), Black);
      At(g1, Pos(0, 1)) == White && Liberties(g1, Flood(g1, White, Pos(0, 1))) == {}
  {
    var g1 := SetCell(CornerState().cells, Pos(0, 0), Black);
    var q := Pos(0, 1);
    assert CornerState().cells[1][0] == White;
    assert Closed(g1, White, {q}) by {
      forall r, i | r in {q} && 0 <= i < 4 && InBounds(|g1|, Neighbor(r, i))
        ensures At(g1, Neighbor(r, i)) != White
      {
        CornerBlackAround(i);
      }
    }
    FloodIsGroup(g1, White, q);
    var f := Flood(g1, White, q);
    forall n | n in Liberties(g1, f) ensures false {
      var r, i :| r in f && 0 <= i < 4 && InBounds(|g1|, Neighbor(r, i)) && At(g1, Neighbor(r, i)) == Empty && n == Neighbor(r, i);
      assert r in SetOf(f);
      CornerBlackAround(i);
    }
  }

  /** The program calls the Black move at (0, 0) of `CornerState` suicide, yet `place_stone`
      accepts it: it captures the White stone at (0, 1), and the one at (1, 0) as well. */
  lemma AsWrittenMisreportsCapture()
    ensures ReasonAsWritten(CornerState(), Pos(0, 0)) == Suicide
    ensures PlaceStone(CornerState(), Pos(0, 0), Black).1
  {
    var s := CornerState();
    var p := Pos(0, 0);
    assert s.cells[1][0] == White && s.cells[0][1] == White;
    assert forall j :: 0 <= j < 4 && InBounds(3, Neighbor(p, j)) ==> Neighbor(p, j) == Pos(0, 1) || Neighbor(p, j) == Pos(1, 0);
    assert WhiteAround(s.cells, p);
    AsWrittenSuicide(s, p);
    var g1 := SetCell(s.cells, p, Black);
    CornerWhiteTrapped();
    assert Neighbor(p, 0) == Pos(0, 1);
    var group := Flood(g1, White, Pos(0, 1));
    assert group != [];
    var cap := Captures(g1, p, White);
    assert cap.captured == group + CaptureFrom(ClearCells(g1, group), p, White, 1).captured;
    CaptureGivesLiberty(s, p, Black);
    assert PlaceStone(s, p, Black) == Settle(s, p, Black, cap);
  }

  /** The intended reason: the three checks of `is_valid_move` in their order, and then
      suicide exactly when `place_stone` would take the Black stone back. */
  function IntendedReason(s: State, p: Pos): (r: MoveReason)
    requires IsGrid(s.cells)
    ensures r == Legal <==> PlaceStone(s, p, Black).1
  {
    PlacedOnlyIfValid(s, p, Black);
    if !InBounds(|s.cells|, p) then OffBoard
    else if At(s.cells, p) != Empty then Occupied
    else if s.ko == Some(p) then KoRule
    else if !PlaceStone(s, p, Black).1 then Suicide
    else Legal
  }

  /** Any reason other than `Legal` names a move that `place_stone` rejects without touching the
      state, and the first three are exactly the moves `is_valid_move` refuses. */
  lemma ReasonMeaning(s: State, p: Pos)
    requires IsGrid(s.cells)
    ensures IntendedReason(s, p) in {OffBoard, Occupied, KoRule} <==> !IsValidMove(s, p)
    ensures IntendedReason(s, p) != Legal ==> PlaceStone(s, p, Black).0 == s
  {
    RejectedKeepsState(s, p, Black);
  }
}
