# A Go rules engine, modelled in Dafny

This project models the rules engine of a small Go game. It covers:

- the `Board` class: stone placement with captures, suicide and ko, group and region flood fills, territory, influence, scoring, the hover preview, and the reason a move is refused;
- the `LifeDeathAnalyzer`: eyes, liberties, the 0-3 safety rating, the capture helpers on scratch boards, and the two capture-horizon estimates;
- the query helpers of the `AI` class: move choice, potential captures, self-atari, influence gain and invasion value;
- the `Game` state machine: title, play and result screens, turns, passes, resignation, and the end of the game with a komi of 3.5.

The program is Python over numpy arrays. The model keeps its form:

- The board is a class over an `array2<Cell>` indexed `[y, x]`, with the same fields.
- The game is a class whose handlers update its fields.
- The loops are methods with loop invariants.
- Every imperative method is proved against a function on values. Those functions are developed, and their properties proved, in the value modules.

Modules, leaf first:

| module | file | contents |
|---|---|---|
| `Cells` | cells.dfy | cells, coordinates, square grids, boolean maps |
| `Groups` | groups.dfy | the breadth-first flood fill as a function, and proof that it yields exactly the connected group |
| `Moves` | moves.dfy | the capture loop and `place_stone` as functions on a state value (grid, both counters, ko point), with their properties |
| `Territory` | territory.dfy | settled territory of the empty regions |
| `Influence` | influence.dfy | nearest-stone distance and the influence rule |
| `GridOps` | gridops.dfy | the array loops (copy, flood fill, liberties, capture, distance scan, territory and influence scans), each proved equal to the value function |
| `Legality` | legality.dfy | `get_invalid_move_reason`, both as written and as intended |
| `GoBoard` | board.dfy | the `Board` class |
| `LifeDeath` | life_death.dfy | the `LifeDeathAnalyzer` class and the capture-depth search |
| `GoAI` | ai.dfy | the `AI` class |
| `GoGame` | game.dfy | the `Game` class |

Modelling choices:

- **Return value of placement.** `place_stone` returns `True` or `False` (src/board.py:56-110). The model returns the new state together with that boolean. Why a move is refused is computed separately, by `get_invalid_move_reason` (src/board.py:490-543).
- **Scoring.** `calculate_score` adds a colour's captures to its settled territory (src/board.py:473-488). Stones on the board do not count.
- **Influence.** A colour holds an Empty point when it is within two steps and either strictly nearer or facing an opponent more than two steps away (src/board.py:288-291). So no point is ever in both colours' influence (`Influence.InfluenceExclusive`).
- **Preview.** `update_preview` stores the preview board and its four maps in fields of the board object (src/board.py:316-338). The preview board places a Black stone without applying captures (src/board.py:330-331).
- **Suicide rollback.** The rollback resets only the played point (src/board.py:88-93). Captures need no undoing, because a move that captured something always has a liberty (`Moves.CaptureGivesLiberty`, `Moves.RejectedKeepsState`).
- **Capture-sequence estimate.** `predict_capture_sequence` has early returns for three fixed coordinates (src/life_death.py:179-193). The model follows only its general path.

## Model

| member | source | states |
|---|---|---|
| Cells.Opponent | src/board.py:74 | the capturing colour is a stone colour different from the mover's |
| Cells.SetCell | src/board.py:71 | writing one cell changes that cell and no other; the grid stays square |
| Cells.ClearCells | src/board.py:84-85 | removing a list of stones empties exactly the listed cells |
| Cells.EmptyGrid | src/board.py:31 | a fresh board is a square grid of the given side with every point Empty |
| Cells.FalseMap | src/board.py:34-37 | a fresh map marks no point |
| Cells.NeighborBack | src/board.py:78 | orthogonal adjacency is symmetric: the opposite direction leads back |
| Groups.ExpandSpec | src/board.py:160-164 | one pass of the inner loop appends distinct, unvisited, same-coloured neighbours; every same-coloured neighbour ends up visited or appended |
| Groups.BfsStep | src/board.py:155-164 | one turn of the queue loop keeps the search invariant: no repeats, visited = group + queue, colour, closure of the popped cells, and inclusion in every closed set around the start |
| Groups.BfsCorrect | src/board.py:155-166 | from any state meeting the invariant, the queue loop ends with exactly the group around the start |
| Groups.Flood | src/board.py:150-166 | the flood fill contains the start and only in-bounds cells of its colour |
| Groups.FloodIsGroup | src/board.py:146-166 | the flood fill has no repeats and holds the start; it is closed under same-coloured adjacency and lies inside every such closed set, so it is the maximal connected group |
| Groups.SameGroup | src/board.py:146-166 | any member of a group yields the same group: groups partition the stones |
| Moves.CaptureFrom | src/board.py:78-86 | the capture loop from a given direction keeps the grid square and of the same size (what it removes is stated by the lemmas below) |
| Moves.Captures | src/board.py:73-86 | the full capture loop keeps the grid square and of the same size |
| Moves.CaptureClears | src/board.py:78-86 | the capture loop removes only stones of the opponent's colour, lists each removed cell once, and leaves every unlisted cell as it was |
| Moves.CaptureKeeps | src/board.py:78-86 | a cell not of the opponent's colour, the played stone among them, survives the capture loop unchanged |
| Moves.CaptureTouches | src/board.py:78-86 | whenever something is captured, a neighbour of the played point is among the captured cells |
| Moves.CaptureLeavesLiberties | src/board.py:78-86 | after the loop, every opponent neighbour of the played point belongs to a group with a liberty |
| Moves.IsValidMove | src/board.py:112-134 | a valid point exists on the board and is Empty; the ko point is never valid |
| Moves.PlaceStone | src/board.py:56-110 | the board stays square; a successful placement puts the mover's stone on an in-bounds point |
| Moves.Settle | src/board.py:88-105 | a move is kept exactly when the mover's group has a liberty after the captures; a kept move leaves the grid as the captures left it |
| Moves.CaptureGivesLiberty | src/board.py:88-93 | a move that captured anything leaves its own group a liberty, so it is never suicide |
| Moves.RejectedKeepsState | src/board.py:67-93 | a rejected placement leaves the grid, both counters and the ko point exactly as they were, suicide included |
| Moves.PlacedOnlyIfValid | src/board.py:67-68 | only a point that passes `is_valid_move` can be played |
| Moves.PlacedBoard | src/board.py:71-93 | after a success the point, Empty before, holds the mover's stone; its group has a liberty; every other changed cell was an opponent stone and is now Empty |
| Moves.PlacedLeavesLiberties | src/board.py:78-93 | after a success no opponent group next to the played point is without a liberty |
| Moves.ChangedAreCaptured | src/board.py:78-86 | the cells the capture loop lists are exactly the cells other than the played point whose content changed, and they are as many as the list is long |
| Moves.PlacedCounts | src/board.py:101-105 | after a success the mover's counter rises by exactly the number of removed stones and the other counter is unchanged |
| Moves.PlacedKo | src/board.py:95-99 | after a success the ko point is set exactly when one stone was removed and the mover's group is a single stone; it is then the removed cell |
| Territory.Region | src/board.py:237-266 | the empty region around an Empty point contains it and only in-bounds Empty cells |
| Territory.TerritoryMapIs | src/board.py:201-235 | a map is the territory map of a colour exactly when it marks the points that colour owns (both directions) |
| Territory.OwnerIsUniform | src/board.py:228-233 | every point of an empty region has the same owner as the point its region was found from, so marking the whole region is sound |
| Territory.OwnedIsEnclosed | src/board.py:211-233 | a colour's territory is not its opponent's; its region borders that colour at least once, and every step out of the region lands in the region or on that colour |
| Territory.EmptyBoardHasNoTerritory | src/board.py:228-233 | on a board without stones no point is anyone's territory |
| Territory.NeutralRegion | src/board.py:227-233 | a region is nobody's exactly when it borders both colours or neither |
| Influence.RowMinSpec | src/board.py:308-312 | the running minimum over part of a row never exceeds the start value or the distance of any stone passed, and is one of those values |
| Influence.RowsMinSpec | src/board.py:308-312 | after whole rows the minimum is at most the distance of every stone in them, and is attained by one of them |
| Influence.MinDistSpec | src/board.py:295-314 | the scan gives no distance exactly when the colour has no stone; otherwise it gives the distance of a stone that no stone of that colour beats |
| Influence.InfluenceMapIs | src/board.py:275-293 | a map is the influence map of a colour exactly when it marks the points that colour influences (both directions) |
| Influence.InfluenceMeaning | src/board.py:287-291 | an Empty point is in a colour's influence exactly when some stone of that colour is within two steps and every opposing stone is farther than two steps or farther than that stone |
| Influence.InfluenceExclusive | src/board.py:288-291 | no point is in both colours' influence, and an Empty point at equal distance from both is in neither |
| Influence.EmptyBoardHasNoInfluence | src/board.py:279-291 | on a board without stones no point is influenced |
| GridOps.CopyGrid | src/board.py:328 | `board.copy()` gives a fresh array holding the same grid |
| GridOps.WriteCell | src/board.py:71 | an in-place write leaves the array holding the grid with that one cell changed |
| GridOps.PushNeighbor | src/board.py:160-164 | one direction of the inner loop advances the queue and the visited marks exactly as the value model's expansion does |
| GridOps.PushNeighbors | src/board.py:160-164 | the inner loop appends exactly the value model's expansion of the popped cell and marks those cells visited |
| GridOps.FloodFill | src/board.py:150-166 | the queue and visited-matrix search returns exactly the flood fill of the value model |
| GridOps.HasLiberty | src/board.py:168-184 | true exactly when the listed cells have an Empty in-bounds neighbour |
| GridOps.CollectAdjacent | src/life_death.py:379-386 | the set collected by the neighbour loops is exactly the set of in-bounds neighbours of the given colour |
| GridOps.RemoveStones | src/board.py:84-86 | removing a group in place empties exactly the listed cells |
| GridOps.CaptureDirection | src/board.py:79-86 | one direction of the capture loop removes what the value model removes in that direction and hands on the rest |
| GridOps.CaptureStones | src/board.py:78-86 | the in-place capture loop leaves the array holding the captured grid and returns the value model's list of captured cells |
| GridOps.MinDistance | src/board.py:306-314 | the row-major scan returns the value model's nearest distance |
| GridOps.BorderFlags | src/board.py:211-225 | the Black flag survives exactly when no White stone borders the region, and the White flag exactly when no Black stone does |
| GridOps.MarkAll | src/board.py:229-233 | a point is marked afterwards exactly when it was listed or was marked already |
| GridOps.MarkRegion | src/board.py:207-233 | handling one point marks only owned points, keeps earlier marks, and marks the point for the colour that owns it |
| GridOps.Territories | src/board.py:201-235 | the double loop over the board yields exactly the two territory maps |
| GridOps.InfluenceMaps | src/board.py:275-293 | the double loop over the board yields exactly the two influence maps |
| GridOps.CountMarked | src/board.py:484 | `np.sum` of a map is the number of points it marks |
| Legality.PointIsLiberty | src/board.py:516-538 | before the stone is placed, the point is a liberty of every neighbouring group |
| Legality.NoCaptureAsWritten | src/board.py:516-524 | the as-written capture check, reading the unmodified board, never finds a capture |
| Legality.FriendLibertyMeaning | src/board.py:526-538 | the as-written friendly-liberty check succeeds exactly when some neighbour is on the board and not White |
| Legality.ReasonAsWritten | src/board.py:490-543 | as written, off-board, occupied or ko is reported exactly for the points `is_valid_move` refuses, and off-board exactly for points off the board |
| Legality.AsWrittenSuicide | src/board.py:512-541 | as written, a point is reported as suicide exactly when it passes `is_valid_move` and every in-bounds neighbour is White |
| Legality.AsWrittenMisreportsCapture | src/board.py:512-541 | on a 3x3 board, a Black move that captures two White stones is reported as suicide by the code as written, yet `place_stone` accepts it |
| Legality.IntendedReason | src/board.py:490-543 | the corrected reason is `Legal` exactly when `place_stone` accepts a Black stone there |
| Legality.ReasonMeaning | src/board.py:500-543 | off-board, occupied and ko are reported exactly for the points `is_valid_move` refuses; any reason other than `Legal` names a move that leaves the state unchanged |
| GoBoard.EmptyBoardMaps | src/board.py:33-37 | the all-false maps set by `reset` are the territory and influence the empty board really has |
| GoBoard.MarkedIsOwned | src/board.py:483-488 | the points a territory map marks are exactly the colour's territory, so its sum counts the territory |
| GoBoard.NewEmptyGrid | src/board.py:31 | a fresh array holding the all-Empty grid |
| GoBoard.PlaceOnGrid | src/board.py:70-105 | the in-place body of `place_stone` at a playable point gives the value model's grid and success flag; on success it also gives the value model's ko point and counter rise |
| GoBoard.SettleOnGrid | src/board.py:88-105 | after the captures, the suicide test and rollback, or the ko point and count, agree with the value model |
| GoBoard.SettleLive | src/board.py:95-105 | when the new group keeps a liberty, the new state's grid is what the captures left, the mover's counter rises by the number captured, and the ko point is set exactly for a single stone capturing a single stone |
| GoBoard.Board.constructor | src/board.py:18-54 | a new board of the given size is empty: no captures, no ko, all-false maps, no preview, no winner |
| GoBoard.Board.Reset | src/board.py:28-54 | `reset` gives a fresh empty grid, zero counters, no ko, all-false maps, no preview and no winner, and the board stays consistent |
| GoBoard.Board.ClearStones | src/board.py:31-54 | the stone part of `reset`: an empty grid, zero counters, no ko and no winner, with the maps and preview unchanged |
| GoBoard.Board.ClearMaps | src/board.py:34-51 | the map part of `reset`: four all-false maps and no preview, with the stones and counters unchanged |
| GoBoard.Board.IsValidMove | src/board.py:112-134 | false exactly for a point off the board, an occupied point, or the ko point |
| GoBoard.Board.FindGroup | src/board.py:136-166 | returns nothing on an Empty point; otherwise it returns the maximal connected group of the point's colour, each cell once |
| GoBoard.Board.HasLiberty | src/board.py:168-184 | true exactly when the group has an Empty in-bounds neighbour |
| GoBoard.Board.FindEmptyGroup | src/board.py:237-266 | returns nothing on a stone; otherwise it returns the maximal empty region around the point, each cell once |
| GoBoard.Board.PlaceStone | src/board.py:56-110 | the grid, counters and ko become what the value model `Moves.PlaceStone` gives, with the same success flag; the maps are recomputed after a success and untouched after a rejection; preview and winner are untouched |
| GoBoard.Board.PlacePlayable | src/board.py:70-110 | the same, for a point that passes `is_valid_move` |
| GoBoard.Board.Commit | src/board.py:95-108 | a successful move stores the new ko point, adds the number removed to the mover's counter only, and brings the maps up to date |
| GoBoard.Board.UpdateTerritories | src/board.py:186-192 | afterwards the four maps are the territory and influence of the current grid; the stones, counters, ko, preview and winner are unchanged |
| GoBoard.Board.CalculateTerritories | src/board.py:194-235 | returns the territory maps of the grid; a marked point is Empty and is marked for one colour only |
| GoBoard.Board.CalculateInfluence | src/board.py:268-293 | returns the influence maps of the grid; no point is marked in both |
| GoBoard.Board.CalculateMinDistance | src/board.py:295-314 | no distance when the board has no stone of the colour; otherwise the Manhattan distance of a nearest such stone |
| GoBoard.Board.UpdatePreview | src/board.py:316-338 | the board, counters, ko, maps and winner never change; at an unplayable point the preview board is dropped; at a playable point it is a fresh copy with a Black stone there and no captures applied |
| GoBoard.Board.PreviewOf | src/board.py:327-333 | the preview board and its four maps are the board with a Black stone at the point and that grid's territory and influence |
| GoBoard.Board.CalculatePreviewTerritories | src/board.py:340-385 | without a preview the board's own territory maps, otherwise the preview board's territory |
| GoBoard.Board.FindPreviewEmptyGroup | src/board.py:387-416 | returns nothing without a preview or on a preview stone; otherwise it returns the empty region of the preview board around the point |
| GoBoard.Board.CalculatePreviewInfluence | src/board.py:418-447 | without a preview the board's own influence maps, otherwise the preview board's influence |
| GoBoard.Board.CalculatePreviewMinDistance | src/board.py:449-471 | the nearest distance on the preview board, or on the board itself when there is no preview |
| GoBoard.Board.SetWinner | src/game.py:204-208 | recording the winner changes nothing else on the board |
| GoBoard.Board.CalculateScore | src/board.py:473-488 | a colour's captures plus the number of points of its territory; any colour other than Black gets White's score |
| GoBoard.Board.GetInvalidMoveReason | src/board.py:490-543 | the corrected check reports the same reason as `Legality.IntendedReason`: off-board, occupied and ko in that order, then suicide exactly when `place_stone` would refuse a Black stone |
| LifeDeath.SidesOf | src/life_death.py:54-60 | the count of sides holding a colour never exceeds the number of directions examined |
| LifeDeath.SidesOfBound | src/life_death.py:54-66 | the same-coloured sides of a point never exceed its sides on the board, and equal them exactly when every such side holds that colour |
| LifeDeath.CornerIsNoEye | src/life_death.py:65-66 | a corner has at most two sides on the board, so it is never an eye |
| LifeDeath.EyesAreLiberties | src/life_death.py:37-69 | a group has no more eyes than liberties; an eye is an Empty in-bounds point with three or more sides on the board, all of the group's colour |
| LifeDeath.EyesAmongAdd | src/life_death.py:48-67 | adding a candidate adds one eye exactly when the candidate is an eye |
| LifeDeath.Safety | src/life_death.py:95-103 | the rating is within 0..3; it is at least 2 exactly with two eyes, or one eye and three liberties; it is 0 exactly with no eye and under three liberties, or one eye and under two |
| LifeDeath.SafetyMonotone | src/life_death.py:95-103 | more eyes or more liberties never lower the rating |
| LifeDeath.ScratchValidIgnoresKo | src/life_death.py:266-286 | the analyser's validity test is the board's test without the ko condition |
| LifeDeath.CaptureHorizon | src/life_death.py:158-205 | the horizon is -1, 0, 1 or 2, and -1 whenever the point is off the board or occupied |
| LifeDeath.HorizonMatchesPlacement | src/life_death.py:158-205 | away from the ko point, the horizon is 0 exactly for moves `place_stone` takes back as suicide, and 1 or 2 exactly for accepted moves that leave the new group that many liberties |
| LifeDeath.HorizonAtPlayable | src/life_death.py:165-202 | at a playable point, the horizon and `place_stone` both read the liberties the captures leave the new group |
| LifeDeath.Survivors | src/life_death.py:250-253 | `new_group` holds exactly the group's cells that still hold a stone |
| LifeDeath.CaptureDepth | src/life_death.py:207-264 | -1 past the depth limit; 0 for a group without liberties; 1 for a single liberty; otherwise -1 or a value within 1..max_depth-current_depth+1 |
| LifeDeath.SearchDepth | src/life_death.py:239-264 | the loop over the liberties gives -1 or a value within 1..max_depth-current_depth+1 |
| LifeDeath.TryOne | src/life_death.py:242-262 | one liberty tried yields no answer or a count within 1..max_depth-current_depth+1 |
| LifeDeath.AfterCapture | src/life_death.py:255-262 | what remains after a try yields no answer or a count within the remaining budget |
| LifeDeath.OneMore | src/life_death.py:260-262 | an answer exists exactly when the deeper search found one, and it is that answer plus one |
| LifeDeath.FoldAnyFirst | src/life_death.py:241-262 | the minimum over the liberties does not depend on the order of the set: any liberty can be taken first |
| LifeDeath.FoldBounds | src/life_death.py:240-264 | the minimum stays within any bounds that each folded value keeps |
| LifeDeath.CaptureDepthSearches | src/life_death.py:239-264 | a live group that is not a single fillable liberty gets the least answer over all its liberties, -1 when none works |
| LifeDeath.Only | src/life_death.py:233 | `list(liberties)[0]` is the sole element of a one-element set |
| LifeDeath.LeastStep | src/life_death.py:261-262 | folding `min(min_moves, next_moves + 1)` one liberty at a time agrees with the minimum over all of them |
| LifeDeath.LeastOfOne | src/life_death.py:256-257 | an early 1, among answers that are all at least 1, is the minimum |
| LifeDeath.LifeDeathAnalyzer.constructor | src/life_death.py:12-19 | the analyser reads the board it was given |
| LifeDeath.LifeDeathAnalyzer.EyeCheck | src/life_death.py:49-66 | the scan of a candidate's four sides accepts it exactly when it is an eye of the colour |
| LifeDeath.LifeDeathAnalyzer.CountEyes | src/life_death.py:21-69 | 0 for an empty group; otherwise the number of distinct Empty neighbours that are eyes of the first stone's colour |
| LifeDeath.LifeDeathAnalyzer.CountEyesAmong | src/life_death.py:47-67 | the loop over the candidates counts exactly the candidates that are eyes |
| LifeDeath.LifeDeathAnalyzer.CountLiberties | src/life_death.py:105-123 | the number of distinct Empty in-bounds neighbours of the group |
| LifeDeath.LifeDeathAnalyzer.CountSurroundingStones | src/life_death.py:125-144 | the number of distinct in-bounds neighbours of the group holding the colour |
| LifeDeath.LifeDeathAnalyzer.CalculateGroupSafety | src/life_death.py:71-103 | 0 for an empty group; otherwise the rating from its eyes and liberties, within 0..3 (the opponent-stone count plays no part) |
| LifeDeath.LifeDeathAnalyzer.IsAlive | src/life_death.py:388-405 | alive exactly when the group is non-empty with two eyes, or with one eye and three liberties, that is when its safety is at least 2 |
| LifeDeath.LifeDeathAnalyzer.IsValidMoveOn | src/life_death.py:266-286 | on a scratch board, true exactly for an in-bounds Empty point |
| LifeDeath.LifeDeathAnalyzer.FindGroup | src/life_death.py:316-347 | returns nothing unless the point holds the colour; otherwise it returns the maximal group of that colour |
| LifeDeath.LifeDeathAnalyzer.HasLiberty | src/life_death.py:349-366 | true exactly when the group has an Empty in-bounds neighbour on the scratch board |
| LifeDeath.LifeDeathAnalyzer.GetLiberties | src/life_death.py:368-386 | exactly the group's Empty in-bounds neighbours, each playable by the analyser's test |
| LifeDeath.LifeDeathAnalyzer.CaptureStones | src/life_death.py:288-314 | changes only the scratch board it is given: it empties only opponent stones, returns exactly the emptied cells, and leaves no neighbouring opponent group without a liberty |
| LifeDeath.LifeDeathAnalyzer.PredictCaptureSequence | src/life_death.py:146-205 | works on a copy and leaves the board alone; the general path gives -1 off the board or on a stone, 0 without a liberty, 1 or 2 for one or two liberties, and -1 otherwise |
| LifeDeath.LifeDeathAnalyzer.SurvivorsOn | src/life_death.py:250-253 | the loop building `new_group` keeps exactly the cells still holding a stone |
| LifeDeath.LifeDeathAnalyzer.PredictCaptureDepth | src/life_death.py:207-264 | the recursive search on copies of the scratch board returns `CaptureDepth`, never changing its input board |
| LifeDeath.LifeDeathAnalyzer.TryAll | src/life_death.py:240-264 | the loop over the liberties returns the least answer over all of them, in any order, even when it stops early at 1 |
| LifeDeath.LifeDeathAnalyzer.PlayLiberty | src/life_death.py:242-253 | the scratch board after the try holds the stone and its captures; the rest is the part of the group still on it |
| LifeDeath.LifeDeathAnalyzer.TryLiberty | src/life_death.py:242-262 | one pass of the loop agrees with `TryOne`; an emptied group means one move |
| GoAI.InRows | src/ai.py:29-30 | the double loop visits exactly the points of the rows scanned so far |
| GoAI.ValidAmong | src/ai.py:29-32 | keeps exactly the listed points that pass `is_valid_move` |
| GoAI.ValidMoves | src/ai.py:27-32 | `valid_moves` lists exactly the in-bounds points that pass `is_valid_move` |
| GoAI.BestScore | src/ai.py:44 | the maximum is the score of a listed move, and no listed move scores more |
| GoAI.WithScore | src/ai.py:45 | `best_moves` holds exactly the listed moves with the best score |
| GoAI.ChosenMove | src/ai.py:20-47 | a pass exactly when no point is a valid move; otherwise a valid move that no valid move outscores |
| GoAI.PotentialAsWritten | src/ai.py:107-128 | the count as written is 0 when no side of the point holds a Black stone |
| GoAI.AsWrittenDoubleCounts | src/ai.py:107-126 | on a 2x2 board, a White stone captures three stones, but the count as written is six |
| GoAI.PairBound | src/ai.py:159-166 | the running (stone, direction) count never exceeds the full count, and one more stone adds its Empty sides |
| GoAI.LibertiesAtMostPairs | src/ai.py:158-168 | the (stone, direction) count bounds the number of distinct liberties |
| GoAI.WhiteNearer | src/ai.py:192-198 | a White stone on an Empty point never takes White farther from any point |
| GoAI.BlackUnmoved | src/ai.py:200-206 | a White stone does not change the distance to the nearest Black stone |
| GoAI.InfluenceKept | src/ai.py:180-212 | a White stone on an Empty point keeps White's influence everywhere except possibly that point, so influence shrinks by at most one |
| GoAI.AI.constructor | src/ai.py:11-18 | the AI reads the board it was given |
| GoAI.AI.GetMove | src/ai.py:20-47 | a pass exactly when no point is a valid move; otherwise a valid move that no valid move outscores; the board is not changed |
| GoAI.AI.ScanValidMoves | src/ai.py:27-32 | the double loop lists the valid moves in scan order |
| GoAI.AI.ScanRow | src/ai.py:30-32 | the inner loop appends the valid points of one row, in order, to those found before it |
| GoAI.ValidAmongSnoc | src/ai.py:31-32 | scanning one more point appends it exactly when it is a valid move |
| GoAI.AI.OtherLiberty | src/ai.py:113-123 | true exactly when the group has a liberty other than the point |
| GoAI.AI.CountPotentialCapturesAsWritten | src/ai.py:91-128 | the code as written: the sizes of the Black chains beside the point with no other liberty, one term per side |
| GoAI.AI.SideCount | src/ai.py:108-126 | one side contributes its chain's size when the chain has no other liberty, and 0 otherwise |
| GoAI.AI.CountPotentialCaptures | src/ai.py:91-128 | the corrected count: the number of stones a White stone there removes, which is the number of points it changes and what White's counter gains if it is played |
| GoAI.WhiteGroups | src/ai.py:144-151 | the list only grows, by at most one chain per remaining direction |
| GoAI.WhiteGroupsPrefix | src/ai.py:144-151 | the chains already listed stay in place, in their order |
| GoAI.WhiteGroupsAdjacent | src/ai.py:144-151 | every chain added is the White group of a neighbour of the point in one of the remaining directions |
| GoAI.WhiteGroupsDistinct | src/ai.py:149-151 | no chain is added that is already in the list |
| GoAI.SelfGroup | src/ai.py:153-156 | the self group is never empty and starts with the point itself |
| GoAI.PairCount | src/ai.py:158-168 | the liberty count over a list of stones is at most four per stone |
| GoAI.AI.IsSelfAtari | src/ai.py:130-168 | true exactly when the point and its White neighbour chains have at most one (stone, direction) pair facing an Empty point; then they have at most one liberty |
| GoAI.AI.AdjacentWhiteGroups | src/ai.py:144-151 | the White chains beside the point, each list once |
| GoAI.AI.JoinGroups | src/ai.py:153-156 | `self_group` is the point followed by the chains in order |
| GoAI.AI.FewLiberties | src/ai.py:158-168 | the early-exit loop answers exactly whether the pair count is at most one |
| GoAI.AI.CalculateInfluenceGain | src/ai.py:170-212 | White's influence with a White stone at the point, minus White's influence now; on an Empty point this is never below -1 |
| GoAI.AI.CountWhiteInfluence | src/ai.py:187-210 | the double loop counts exactly the points of White's influence |
| GoAI.AI.WhiteWins | src/ai.py:191-210 | the test on one point is White's influence rule at that point |
| GoAI.AI.CalculateInvasionValue | src/ai.py:214-234 | 5 exactly inside Black's influence; 3 exactly otherwise when one of the eight surrounding points is Black territory; 0 exactly otherwise; a 5 is an Empty point within two steps of a Black stone |
| GoGame.BlackWinsByFour | src/game.py:197-209 | with komi 3.5, Black wins exactly with four points more than White; otherwise White wins and there is no draw |
| GoGame.Game.constructor | src/game.py:17-40 | a new game is on the title screen with an empty 9x9 board, the player to move as Black, no passes, and the AI idle, and no winner |
| GoGame.Game.EndGame | src/game.py:195-215 | the result screen, the winner by score and komi, nobody to move, and the board's stones untouched |
| GoGame.Game.CheckGameEnd | src/game.py:190-216 | ends exactly after two consecutive passes, and then shows the result with the winner by score and komi and nobody to move; otherwise nothing changes |
| GoGame.Game.AiPlay | src/game.py:168-180 | White plays the chosen move and the pass count is cleared, or White passes and the count rises by one; the winner is unchanged |
| GoGame.Game.AiMove | src/game.py:166-188 | the same; then either two passes end the game, or the player is to move and the winner is unchanged |
| GoGame.Game.ResetGame | src/game.py:227-236 | a fresh empty board, the player to move as Black, and no passes |
| GoGame.Game.HandleTitleEvent | src/game.py:70-78 | the Black button starts a game on a fresh board with no winner; anything else changes nothing |
| GoGame.Game.ClickPoint | src/game.py:88-101 | a valid point gets a Black stone, the passes are cleared and the turn goes to the AI, with the winner unchanged; any other point changes nothing |
| GoGame.Game.PlayerPass | src/game.py:103-118 | one more pass; either the game ends, or the AI is to move and the winner is unchanged |
| GoGame.Game.Resign | src/game.py:120-124 | the result screen, with the AI's colour as winner |
| GoGame.Game.HandleGameEvent | src/game.py:80-124 | ignored unless the player is to move and the AI is idle; otherwise a click, pass or resignation has the effect stated for `ClickPoint`, `PlayerPass` and `Resign` (the winner unchanged unless the game ends), and any other event changes nothing |
| GoGame.Game.HandleResultEvent | src/game.py:126-135 | "play again" starts a new game on a fresh board with no winner; "back" returns to the title screen; anything else changes nothing |
| GoGame.Game.HandleEvent | src/game.py:61-68 | the title screen leads only to play; leaving the result screen takes one of its two buttons |

## Left out

- The interface (src/ui.py, src/ui_draw_board.py): rendering, fonts, images, hit tests and `get_board_position`. The interface appears only as the `Event` and `Target` values a click produces. src/ui.py is not part of this model.
- The event loop of `Game`: `run`, `update` and `render`; the clock and the 500 ms AI delay; `print` calls; popup messages; `set_last_move`; the invalid-move guide; the window set up in `__init__`. All of these are I/O or timing.
- `AI.evaluate_move` and `AI.evaluate_position`: they use floating point and `random`. The score of a move is a parameter `score`, and `random.choice` is a parameter index `pick`.
- LifeDeath.LifeDeathAnalyzer.PredictCaptureSequence: leaves out the early returns for three fixed coordinates (src/life_death.py:179-193). They are test-fitting shortcuts, not general behaviour.
- LifeDeath.LifeDeathAnalyzer.TryAll: visits the liberties in an arbitrary order, where Python iterates over the set in its own hash order. `LifeDeath.FoldAnyFirst` shows that the order does not change the answer.
- LifeDeath.LifeDeathAnalyzer.PredictCaptureSequence: the `depth` argument is accepted and unused, as in the code.
- `float('inf')` is modelled as `None` of an `Option`. The komi of 3.5 is compared in half points (`GoGame.BlackWins`).
- GoBoard.Board.FindGroup: requires an in-bounds point, where numpy would wrap negative indices or raise. The same requirement is on `GoBoard.Board.FindEmptyGroup`, on the first stone of `CountEyes`, `CalculateGroupSafety` and `IsAlive`, on the point given to the AI queries, on `GoBoard.Board.FindPreviewEmptyGroup` and `LifeDeath.LifeDeathAnalyzer.FindGroup`, and on every cell of the group given to `PredictCaptureDepth`, `TryAll`, `SurvivorsOn`, `PlayLiberty` and `TryLiberty`; every call site in the program passes points on the board.
- Dead writes kept as copies: the trial board of `get_invalid_move_reason` and the temporary boards of the AI queries are real copies, so the board itself is never written.
- Field order: some field writes are done in a different order than in the code. No observer can tell the difference.
- GoBoard.Board.GetInvalidMoveReason: models the corrected suicide test. The code as written is `Legality.ReasonAsWritten`; see Findings.
- GoAI.AI.CountPotentialCaptures: models the corrected count. The code as written is `GoAI.AI.CountPotentialCapturesAsWritten`; see Findings.
- GoGame.Game.HandleEvent: states only which screen can follow which, and that the game stays consistent. The handlers it dispatches to state the rest.
- The board's size is a parameter of `Board`; `Game` builds a 9x9 board.
- Integers are unbounded; the program's counters are Python integers, so nothing wraps.

## Findings

| source | as written | input that shows it | evidently intended | confidence | as-written member | corrected member |
|---|---|---|---|---|---|---|
| src/board.py:512-541 | the capture and liberty tests for suicide read the board before the stone is placed, so any point surrounded only by White is reported as suicide | 3x3 board with (0, 0) Empty, White on (1, 0) and (0, 1), Black on (2, 0), (1, 1) and (0, 2); Black at (0, 0) captures both White stones but is reported as suicide | suicide exactly when `place_stone` would take the stone back | not executed | Legality.AsWrittenMisreportsCapture | GoBoard.Board.GetInvalidMoveReason |
| src/ai.py:107-126 | a Black chain with no other liberty is added once for every side of the point it touches | 2x2 board with (0, 0) Empty and Black on the other three points; White at (0, 0) captures 3 stones, but the count is 6 | the number of stones the move captures | not executed | GoAI.AsWrittenDoubleCounts | GoAI.AI.CountPotentialCaptures |
