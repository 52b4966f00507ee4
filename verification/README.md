# A verified model of KataGo's Python board and of two of its concurrent engines

This project models the incremental Go board of `python/board.py` with all that is built on it: captures and ko,
legality queries, reversible moves, the explicit-stack ladder search, pass-alive analysis, area computation and the
area away from dame. It models the memoised ladder run of `python/model.py`, the life cycle of analysis requests in
`cpp/command/analysis.cpp`, and the ownership of neural nets in `cpp/command/matchauto.cpp`. Every claim is for all
boards of size at least 2, all moves, and all interleavings.

`dafny verify dfyconfig.toml` checks the whole project. Files that imperative code is proved against come before it:

- Rules without caches: `Grid`, `Components`, `Rules`, `Queries` (what a move does, in terms of connected components),
  `SimpleKo` (the same point by point, what the ko point forbids, which moves are legal).
- The chain store: `ChainStore`, `Captures`, `Refill`, `Regrow`, `Undoing` (what the six parallel arrays must say).
- The ladder game: `Ladders` (the AND/OR value, pruning), `LadderSearch` (the invariant of the explicit stack),
  `LadderGame` (the value by the rules of the game, lines of play), `ChainMates` (verdicts are shared by a chain).
- `Board.dfy`: the class `Board` with its six arrays, every method proved against the files above.
- `LadderFeatures`: the run over the board that reports laddered stones.
- Pass-alive analysis: `PassAlive` (safety over whole games), `Claims` (who is given what, and why never both),
  `Tracing`, `RegionScan`, `Regions` (tracing regions), `Killing`, `Areas` (the kill loop and the marking).
- `Floods`, `DameAreas`: the two breadth-first passes that find the area away from dame.
- `RequestLifecycle`: analysis threads, the command thread, their mutex and their status words, as a machine of atomic
  steps. `Terminations`: what a terminate command and a shutdown achieve in its runs. `NetOwnership`, `MatchRuns`: the net manager as a class, and all game threads as a machine of its critical sections.

How the pieces fit: `Board.Valid` says that the arrays describe exactly the chains of the colours, and that every chain
has a liberty. Each mutating method states the new colours and ko point by a function of the old ones (`Rules.Move`,
`Queries.Step`), and `Valid` again; `ChainStore.ColoursDetermine` says that nothing else is left open but the choice of
heads and the order of rings. The ladder verdict is `Ladders.Value`, three-valued, with a bound on the moves looked
ahead; `ValueStable` says that a verdict other than `Unknown` holds at every greater bound. In the machines, a step's
guard speaks only of control state, locks and queues, so that finding a request allocated, or a net loaded, is something
to be proved.

## Model

| member | source | states |
|---|---|---|
| Components.CompIsReachability | python/board.py:428-446 | A component, defined as the intersection of closed sets, holds exactly the points that a path inside the set reaches: the meaning behind every flood fill. |
| Grid.OnBoardIffCoordinates | python/board.py:80-88 | Points off the wall are exactly the locations of coordinates within the size, with one wall column shared by left and right. |
| Rules.MoveIsPosition | python/board.py:491-562 | A Tromp-Taylor move (place, remove dead opposing chains, then dead own chains) leaves every chain a liberty and the walls alone. |
| Rules.CapturedTouch | python/board.py:540-558 | On a position a move captures only chains it touches, each with the move as last liberty; so looking at four neighbours is enough. |
| Rules.SuicideIsOwnChain | python/board.py:560-562 | The only own chain a move can remove is the one just extended, and all of it goes. |
| ChainStore.ClassIsChain | python/board.py:491-538 | In a valid store the heads partition the stones into exactly the connected chains. |
| ChainStore.CountsExact | python/board.py:498-538 | The stone and liberty counts stored at the head are the sizes of the chain and of its set of liberties. |
| ChainStore.ColoursDetermine | python/board.py:357-407 | Two valid stores over the same colours agree on partition, counts and ring members; only heads and ring order are free. |
| ChainStore.MergeStore | python/board.py:619-675 | Splicing two adjacent groups, adding up stones and counting new liberties without double counting, keeps the store exact. |
| ChainStore.RemoveStore | python/board.py:678-722 | Erasing a ring stone by stone, bumping each opposing neighbour chain once per stone, keeps the store exact. |
| ChainStore.PlaceStore | python/board.py:494-528 | A new one-stone group with its counted liberties, and one liberty less for each chain around it, keeps the store exact. |
| Captures.CaptureDone | python/board.py:540-558 | After the fourth neighbour the capture loop has taken exactly the captured stones. |
| Captures.SuicideTest | python/board.py:560-562 | Suicide shows on the liberty count of the one chain of the new stone. |
| Boards.Board.constructor | python/board.py:48-68 | A new board is valid, walled as laid out and empty. |
| Boards.Board.CopyOf | python/board.py:38-47 | A copy has the same contents in fresh arrays. |
| Boards.Board.PlaceStone | python/board.py:494-528 | Refines placing one stone as a group of its own in a store not merged yet. |
| Boards.Board.ChangeSurroundingLiberties | python/board.py:573-592 | Each chain of the given colours next to the point changes by delta exactly once. |
| Boards.Board.CountImmediateLiberties | python/board.py:594-608 | Counts the empty neighbours. |
| Boards.Board.CountNewLiberties | python/board.py:642-650 | Counts the empty neighbours of a stone that its new group does not touch yet. |
| Boards.Board.AbsorbGroup | python/board.py:632-659 | Walking the child's ring hands every stone to the parent and yields the size of the union of liberties. |
| Boards.Board.MergeUnsafe | python/board.py:619-675 | The larger group keeps its head, the first on a tie; the store stays exact. |
| Boards.Board.RemoveUnsafe | python/board.py:678-722 | Clears exactly the chain, keeping all other chains exact and maximal. |
| Boards.Board.CaptureAround | python/board.py:540-558 | Removes exactly the captured chains and counts their stones once each. |
| Boards.Board.ResolveSuicide | python/board.py:560-562 | Removes the mover's chain exactly when it has no liberty left. |
| Boards.Board.AddUnsafe | python/board.py:491-570 | Refines the abstract move and its ko point for every valid board, colour and empty point, and keeps the invariant. |
| Boards.Board.KoAfter | python/board.py:564-570 | The ko point is set exactly when one stone was captured by a single stone in atari. |
| Boards.Board.NumLiberties | python/board.py:95-98 | The stored count is the chain's number of liberties; zero off stones. |
| Boards.Board.WouldBeSuicide | python/board.py:159-179 | True exactly when the move would leave its own point empty. |
| Boards.Board.WouldBeSingleStoneSuicide | python/board.py:181-202 | True exactly when the move would remove just itself. |
| Boards.Board.WouldBeLegal | python/board.py:144-157 | Exactly the legality of play, over all colours and locations; SimpleKo.LegalIff says what that is in terms of the board after the move and the ko point. |
| Queries.SuicideIff | python/board.py:159-179 | Suicide is exactly: no neighbour is empty, an opposing chain in atari, or an own chain with a second liberty. |
| Queries.SingleStoneSuicideIff | python/board.py:181-202 | Single-stone suicide is exactly: no neighbour gives a liberty and none is an ally. |
| Queries.NewChain | python/board.py:530-538 | The new stone's chain is the stone and the own chains next to it. |
| Queries.AtariCaptured | python/board.py:540-558 | An opposing neighbour is captured exactly when it is in atari. |
| Queries.ScanComplete | python/board.py:204-255 | When the scan over the move and its allies ends early for no reason, it has seen every liberty after the move. |
| Boards.Board.GetLibertiesAfterPlay | python/board.py:204-255 | The number of liberties of the new stone's chain after captures, cut off at the bound. |
| Refill.PartialChainBreathes | python/board.py:725-743 | However a chain is partly removed, each remaining piece touches an open point of it and every other chain keeps its liberties. |
| Refill.RefillStep | python/board.py:725-743 | Re-adding one stone of the chain while another point is open changes only that point: no capture, no suicide. |
| Boards.Board.RemoveSingleStoneUnsafe | python/board.py:725-743 | Changes exactly one point, for every ring order; the ko point is cleared unless the stone was a chain of its own. |
| Boards.Board.SetStone | python/board.py:294-312 | All cases of setting a point, with errors that change nothing and a cleared ko point. |
| Boards.Board.Play | python/board.py:316-330 | Accepts exactly the legal moves and makes the abstract move; a pass leaves the board and clears the ko point; each kind of refusal has its exact condition, and a refusal changes nothing. |
| Boards.Board.PlayUnsafe | python/board.py:332-338 | Makes the abstract move or pass and gives the turn to the other side. |
| Undoing.UndoCases | python/board.py:357-407 | A move that captures is no suicide, and what each kind of move took off the board. |
| Undoing.DeadChainSite | python/board.py:367-374 | What a capture emptied towards a neighbour is one whole region of empty points that no stone of its colour borders. |
| Undoing.FillDone | python/board.py:412-446 | Filling a region bordered by no own stone makes one exact chain and takes each liberty from the opponents once. |
| Undoing.SettledAll | python/board.py:428-446 | A finished depth-first walk has visited the whole component. |
| Undoing.DeleteOutcome | python/board.py:376-397 | Deleting the stone leaves the rest of its chain pending and everything else exact. |
| Undoing.RejoinDone | python/board.py:399-403 | Rebuilding around the deleted stone reaches every piece of the split chain. |
| Boards.Board.FloodFillStones | python/board.py:412-422 | Refills one emptied region as one chain. |
| Boards.Board.FloodFillStonesHelper | python/board.py:428-446 | The recursive fill settles every neighbour it can reach and terminates. |
| Boards.Board.RebuildChain | python/board.py:453-463 | Gives one pending chain a head, a ring and exact counts. |
| Boards.Board.PlayRecordedUnsafe | python/board.py:340-355 | Plays and records exactly the directions of capture and whether the move was suicide. |
| Boards.Board.Undo | python/board.py:357-407 | Inverts every recorded move, with captures in several directions or multi-stone suicide: colours and ko point return and the store is valid, hence (by ColoursDetermine) partition and counts too. |
| Ladders.ValueStable | python/board.py:883-1084 | The verdict of the AND/OR game on liberties, ko and captures does not change by looking further ahead. |
| Ladders.LevelFails | python/board.py:1049-1059 | A level whose listed legal moves all fail is lost for its side. |
| Ladders.LevelWins | python/board.py:1035-1047 | One winning legal move wins the level, in whatever order moves are tried. |
| Ladders.PrunedMoveFails | python/board.py:979-1013 | With two non-adjacent liberties and three empty points next to one, attacking at the other lets the defender out. |
| Ladders.DefenderGetsOut | python/board.py:1001-1013 | A free reply next to three empty points always reaches three liberties, legally. |
| Ladders.AttackerOpened | python/board.py:1001-1013 | Dropping one move, or failing at once, keeps the value of the unpruned level. |
| Ladders.MeasureDrop | python/board.py:896-1084 | The digits of the stack read as a number drop with every round, whatever happens on deeper levels. |
| LadderSearch.TryDescend | python/board.py:1078-1084 | Entering a level keeps the loop invariant and lowers the measure. |
| LadderSearch.RoundWon | python/board.py:1035-1047 | Leaving a level on a winning reply is right for the level above. |
| LadderSearch.RoundFailed | python/board.py:1049-1059 | Coming back from a failed reply moves on to the next one, soundly. |
| LadderSearch.TargetStays | python/board.py:858-880 | A chain with two liberties survives an attack, so the search after it is about the same chain. |
| Boards.Board.FindLiberties | python/board.py:747-758 | Collects the chain's liberties, each once. |
| Boards.Board.FindLibertyGainingCaptures | python/board.py:761-784 | Adds exactly the capturing moves of the chain, each once; LadderGame.CapturingMovesIff says these are the moves that capture a stone next to it. |
| Boards.Board.WouldBeKoCapture | python/board.py:805-826 | True exactly when the point is not empty, every neighbour is wall or an opposing stone, and one neighbour alone is in atari and a single stone; so it is false on every empty point, which makes the double-ko branch of the search dead code. |
| Boards.Board.PruneAttack | python/board.py:979-1013 | Keeps both moves, one, or none, and drops a move only under the pruning condition. |
| Boards.Board.EnterLevel | python/board.py:929-1025 | Base cases on liberties and ko point, or a list of moves that decides the level. |
| Boards.Board.Descend | python/board.py:1078-1084 | Plays and records a move and opens a level, or reports a full stack, which takes a line of legal play as long as the stack. |
| Boards.Board.SearchRound | python/board.py:919-1084 | One round keeps the invariant and lowers the termination measure. |
| Boards.Board.RunSearch | python/board.py:896-1084 | The loop ends, with the recursive game value as its answer and the position as on entry, or with a full stack, but that only if some line of legal play is as long as the stack. |
| Boards.Board.SearchIsLadderCaptured | python/board.py:883-1084 | For every location the answer is whether the value is Caught, with no ko to mind when the defender begins; colours, chains, counts and ko point are as before. The value is pinned by LadderGame.DefenderToMove and AttackerToMove. |
| Boards.Board.SearchIsLadderCapturedAttackerFirst2Libs | python/board.py:844-880 | Exactly the working attacks on a chain with two liberties, on an unchanged board; LadderGame.WorkingIff says when an attack works. |
| ChainMates.SameValue | python/model.py:172-204 | The game value is the same from every stone of a chain. |
| ChainMates.LadderedTogether | python/model.py:172-204 | Chain mates are laddered together, by the same attacks: what makes the memo by head right. |
| LadderFeatures.MemoHit | python/model.py:188-192 | A verdict found in the memo is the chain's own, and a laddered chain has been reported before. |
| LadderFeatures.MemoMiss | python/model.py:193-204 | A head missing from the memo belongs to a chain not reported yet. |
| LadderFeatures.Model.IterLadders | python/model.py:172-204 | A stone with one liberty is reported exactly when its value with the defender to move is Caught; one with two liberties exactly when some legal attack on one of them leads to that value; nothing else is. Reports come in row order with tensor positions, and the first one about a chain with two liberties lists the attacks that work, though all searches share one copy. |
| LadderFeatures.Model.SearchChain | python/model.py:194-200 | One search on the shared copy leaves it as it was: with one liberty the verdict is the value, with two it is whether any attack works, and those attacks are returned. |
| PassAlive.AliveIsGreatest | python/board.py:1281-1325 | The pass-alive stones are the greatest self-sustaining set: whole chains, each with two distinct vital regions bordered by the set only. |
| PassAlive.PassAliveIsSafe | python/board.py:1281-1336 | No stone of a self-sustaining set is removed in any run of opposing moves, with suicide allowed, or not and then not played. |
| PassAlive.PassAliveStonesStay | python/board.py:1281-1336 | The same for games as play accepts them while the owner only passes. |
| PassAlive.FillingIsSuicide | python/board.py:1173-1213 | Filling an enclosed region is always suicide: why a vital region keeps an empty point. |
| Claims.NoneAliveInside | python/board.py:1338-1345 | A region enclosed by pass-alive chains with at most one internal point holds no pass-alive stone of the opponent. |
| Claims.ClaimsDisjoint | python/board.py:1087-1091 | Without unsafe big territories no point is claimed by both players. |
| Claims.AreaIsFair | python/board.py:1087-1098 | So the area is each player's claim, whichever is written last. |
| Claims.BoardConnected | python/board.py:56-63 | The points of the board are connected within the walls. |
| Tracing.TraceStep | python/board.py:1173-1213 | Visiting one more point keeps the region marks, the links, the filtered list, the internal count up to two and the opposing-stone flag exact. |
| Tracing.FilterStep | python/board.py:1182-1189 | Filtering the list in place keeps exactly the heads the point is next to. |
| RegionScan.ScanStep | python/board.py:1226-1261 | A traced region extends the scan without disturbing earlier regions or their lists. |
| RegionScan.RegionFinished | python/board.py:1173-1213 | When the walk ends, ring, vital list, internal count and flag say what they mean for the whole region. |
| RegionScan.IndependentPoints | python/board.py:1142-1159 | Points of an n by n board no two of which are adjacent number at most (n*n+1)//2, by pairing along a snake path. |
| RegionScan.RoomForRegion | python/board.py:1226-1240 | There is always room for one more region and its four list slots. |
| Regions.RegionTracer.BuildRegion | python/board.py:1173-1213 | The recursive trace settles the whole region and terminates. |
| Regions.RegionTracer.FilterVital | python/board.py:1179-1189 | The in-place filter of one list. |
| Regions.RegionTracer.ListAdjacentHeads | python/board.py:1238-1256 | Lists each adjacent chain once. |
| Regions.RegionTracer.TraceRegion | python/board.py:1226-1261 | Traces one new region; the buffers never overflow. |
| Regions.RegionTracer.TraceRegions | python/board.py:1215-1261 | All empty points end up in exactly one traced region, and the flag says whether the player has a stone. |
| Killing.VitalHeadIsVital | python/board.py:1173-1189 | The filtered lists are the vitality relation, which PassAlive.VitalIff spells out for either suicide rule. |
| Killing.KillJustified | python/board.py:1300-1322 | A chain with fewer than two unflagged vital regions is not pass-alive. |
| Killing.FixpointIsAlive | python/board.py:1283-1325 | When a pass kills nothing, the survivors are exactly the pass-alive stones and the unflagged regions exactly the enclosed ones. |
| Killing.ClaimFound | python/board.py:1327-1351 | Survivors and marked regions together are the player's claim. |
| Killing.ShouldMarkIff | python/board.py:1339-1343 | The three marking tests on the traced records are the declarative marking rule. |
| Areas.CollectHeads | python/board.py:1262-1277 | The list of all heads of the player, each once. |
| Areas.CountVitals | python/board.py:1284-1298 | Counts for every chain the unflagged regions vital to it. |
| Areas.KillPass | python/board.py:1300-1322 | Kills only chains that are not pass-alive; every pass but the last kills one. |
| Areas.KillChain | python/board.py:1311-1322 | Walking the killed chain flags exactly the regions around it. |
| Areas.FindAlive | python/board.py:1279-1325 | The kill loop ends with exactly the pass-alive chains. |
| Areas.MarkTerritory | python/board.py:1338-1351 | Writes the player's colour on exactly the regions to be marked, by walking their rings. |
| Areas.CalculateAreaForPla | python/board.py:1131-1351 | Writes the player's colour on exactly the player's claim, which Claims.ClaimIff and MarkedIff spell out by stones and regions. |
| Areas.CalculateArea | python/board.py:1087-1098 | Every point: WHITE if WHITE claims it, else BLACK if BLACK does, else the stone on it if stones are asked for. |
| Floods.ServeStep | python/board.py:1388-1393 | Looking at one neighbour keeps the flood: no location is queued twice and all of one owner's area follows. |
| Floods.QueueRoom | python/board.py:1354-1419 | The queue, shared by all floods of a pass, never runs past its end. |
| Floods.PassDone | python/board.py:1366-1419 | A finished pass has marked exactly the areas of the kind wanted. |
| DameAreas.MarkTouching | python/board.py:1366-1393 | First pass: marks exactly the owned points whose area touches dame. |
| DameAreas.FloodTouching | python/board.py:1382-1393 | One flood over the shared queue. |
| DameAreas.CopyAwayFromDame | python/board.py:1395-1419 | Second pass: copies exactly the areas that do not touch dame. |
| DameAreas.CalculateNonDameTouchingAreaHelper | python/board.py:1353-1419 | A point is copied exactly when its same-owner component has no point next to dame. |
| DameAreas.CalculateNonDameTouchingArea | python/board.py:1100-1128 | The area away from dame, computed on the loosest area, with territories and stones kept if asked for; NonDamePoint says what each point is. |
| DameAreas.NonDamePoint | python/board.py:1100-1128 | Pointwise, on the area in which big territories count, safe or not, and stones are added: a point is reported for its owner exactly if no empty point without an owner is next to the same-owner component around it, or it is kept. |
| RequestLifecycle.StepKeepsInv | cpp/command/analysis.cpp:263-342 | Every atomic step of the analysis threads and of the command thread keeps the ownership, status and report invariant. |
| RequestLifecycle.RunKeepsInv | cpp/command/analysis.cpp:263-342 | The invariant holds in every state of every interleaving. |
| RequestLifecycle.NoUseAfterDelete | cpp/command/analysis.cpp:263-342 | No step of any interleaving touches a deleted request. |
| RequestLifecycle.StopHitsItsRequest | cpp/command/analysis.cpp:429-461 | A terminate command stops a bot only while its thread is still on that request. |
| RequestLifecycle.AtMostOneFinalReport | cpp/command/analysis.cpp:263-342 | No request gets two final reports, not even while quitting. |
| RequestLifecycle.ExactlyOneFinalReport | cpp/command/analysis.cpp:315-340 | Outside a shutdown without waiting, every request that left had exactly one final report. |
| RequestLifecycle.AssertionsHold | cpp/command/analysis.cpp:272-295 | The assertions on the status word hold: a lost exchange means terminated, and any other value is a thread. |
| RequestLifecycle.NoOutputMeansTerminated | cpp/command/analysis.cpp:315-328 | Outside such a shutdown a search without output was stopped for its own request. |
| RequestLifecycle.NeverStuck | cpp/command/analysis.cpp:1039-1054 | While a request is in the system some thread can carry one on; the mutex never blocks all of them. |
| NetOwnership.NetManager.PreregisterGames | cpp/command/matchauto.cpp:95-121 | Loads the net if needed and adds to its scheduled games; other nets are untouched. |
| NetOwnership.NetManager.RegisterStarting | cpp/command/matchauto.cpp:123-130 | Starts one use and hands out the loaded instance. |
| NetOwnership.NetManager.RegisterFinishing | cpp/command/matchauto.cpp:132-144 | Ends one use and deletes the net exactly when all scheduled uses have ended, with none active. |
| MatchRuns.StepKeepsInv | cpp/command/matchauto.cpp:204-391 | Every critical section keeps the counters equal to the slots in threads and matchups. |
| MatchRuns.NetsAreFound | cpp/command/matchauto.cpp:123-144 | In every interleaving, starting and finishing find the net loaded, with a use going on when finishing. |
| MatchRuns.NetsAreConserved | cpp/command/matchauto.cpp:95-146 | total = completed + active + scheduled for each loaded net, and a net is loaded exactly while used or scheduled. |
| MatchRuns.PlayedNetsAreAlive | cpp/command/matchauto.cpp:204-228 | The instances a game plays with are the loaded ones, also when both bots share a file. |
| MatchRuns.NothingLeft | cpp/command/matchauto.cpp:541-542 | When nothing is running or scheduled, every net has been deleted. |
| Boards.Board.IsGroupAdjacent | python/board.py:610-616 | True exactly when the point touches the group with that head. |
| Boards.Board.MergeInto | python/board.py:626-675 | Merging in one direction gives the child's stones the parent's head and keeps the store exact. |
| Boards.Board.MergeAround | python/board.py:530-538 | Merging with every own neighbour makes the store maximal again. |
| Boards.Board.EraseRing | python/board.py:683-718 | Walking the ring takes every stone of the chain off and gives each opposing chain its new liberties. |
| Boards.Board.WouldBeEmpty | python/board.py:226-231 | A point counts as a liberty exactly when it is empty or its chain is among those captured. |
| Boards.Board.ChainStones | python/board.py:728-735 | The recorded stones are the chain, each once. |
| Boards.Board.CaptureDirections | python/board.py:340-347 | The recorded directions are exactly those of captured neighbours. |
| Boards.Board.RefillCaptures | python/board.py:367-371 | Refilling the recorded directions restores all captured chains, also one met from two sides. |
| Boards.Board.RefillSuicide | python/board.py:373-374 | Refilling at the move restores the suicided chain, the move included. |
| Boards.Board.DeleteStone | python/board.py:376-397 | Takes the move off, returns its liberties to the opponents and wipes the heads of its chain. |
| Boards.Board.RebuildChainHelper | python/board.py:469-487 | The recursive rebuild settles the chain, counting each liberty once, and terminates. |
| Boards.Board.RebuildAround | python/board.py:399-403 | Rebuilds every piece of the split chain, each once. |
| Boards.Board.OpenDefender | python/board.py:968-973 | The defender's list decides its level: captures next to the chain, and liberties (LadderGame.DefenderToMove). |
| Boards.Board.OpenAttacker | python/board.py:974-1022 | The attacker's pruned and ordered list decides its level. |
| Boards.Board.RoundReturned | python/board.py:1028-1059 | Takes the move back and leaves the level or tries the next move. |
| Boards.Board.TryAttack | python/board.py:858-880 | One attack works exactly when it is legal and leaves the defender caught; the board is as before. |
| Regions.RegionTracer.IsAdjacentToPlaHead | python/board.py:1161-1166 | True exactly when the point is next to a stone of that chain. |
| Regions.RegionTracer.IsInternal | python/board.py:1192-1200 | True exactly when no neighbour is a stone of the player. |
| Regions.RegionTracer.VisitPoint | python/board.py:1173-1207 | Enters one point into all lists; the vital list is filtered at empty points only, unless suicide is legal (PassAlive.VitalIff). |
| Areas.AddList | python/board.py:1294-1298 | Adds one for each chain on a list. |
| Areas.MarkChain | python/board.py:1330-1336 | Writes the player's colour on exactly the chain. |
| Areas.MarkRegion | python/board.py:1345-1351 | Walking the region's ring writes the player's colour on exactly the region. |
| Areas.FillStones | python/board.py:1093-1098 | Gives exactly the unclaimed stones to their colour. |
| DameAreas.NextToDame | python/board.py:1373-1376 | True exactly when an empty point that nobody owns is next to the location. |
| DameAreas.KeepPart | python/board.py:1116-1128 | Restores exactly the territories, or the stones, of the basic area. |
| MatchRuns.WantedIsLoaded | cpp/command/matchauto.cpp:123-144 | A net that a step looks up is loaded. |
| MatchRuns.ScheduleConserves | cpp/command/matchauto.cpp:357-391 | Scheduling, pushing and taking matchups conserve every net's account. |
| MatchRuns.GameConserves | cpp/command/matchauto.cpp:214-228 | Starting and finishing games conserve every net's account. |
| SimpleKo.CapturedIff | python/board.py:540-558 | A stone is captured exactly when it is the opponent's and the move fills the last liberty of its chain. |
| SimpleKo.MovePoint | python/board.py:491-562 | Every point after a move: the new stone unless it is suicide, opposing chains whose last liberty was filled are gone, own chains next to a suicide are gone, all else is as before. |
| SimpleKo.MoveChangesIff | python/board.py:181-202 | A move on an empty point leaves the board as it was exactly when it is single-stone suicide. |
| SimpleKo.NextLibsAreFinal | python/board.py:204-255 | The liberties counted ahead of a move are those its chain has on the board after it, none exactly for suicide. |
| SimpleKo.KoIsRecapture | python/board.py:564-570 | The ko point is exactly the point where the opponent's reply would bring the position before the move back. |
| SimpleKo.LegalIff | python/board.py:144-157 | Legal is exactly: a pass, or a move on an empty point that changes the board and is not on the ko point, for either player. |
| SimpleKo.LegalReplyIff | python/board.py:316-330 | After a legal move, a reply is legal exactly when it is a pass or a move on an empty point after which the board is neither as it is now nor as it was before the move. |
| SimpleKo.NoImmediateRepetition | python/board.py:316-330 | Two legal moves in a row never bring a position back. |
| SimpleKo.RefusedForKo | python/board.py:155-156 | A reply refused only because of the ko point would have restored the position. |
| LadderGame.CapturingMovesIff | python/board.py:761-784 | The defender's capturing moves are exactly the moves on empty points that capture a stone next to its chain. |
| LadderGame.DefenderToMove | python/board.py:939-1059 | With the defender to move: caught exactly when it has at most one liberty, no ko was left, and every legal move that fills a liberty or captures a stone next to the chain leaves it caught; safe exactly when it has two, or a ko was left, or one such move leaves it safe. |
| LadderGame.AttackerToMove | python/board.py:939-1059 | With the attacker to move: caught exactly at one liberty, or at two when some legal move on them leaves it caught; safe exactly at three, or at two when every such move leaves it safe. |
| LadderGame.NoMovesAhead | python/board.py:939-966 | Without looking ahead liberties and ko decide, and a chain that is off the board is caught. |
| LadderGame.WorkingIff | python/board.py:858-880 | An attack works exactly when it is a liberty of the chain, legal, and the defender, to move with no ko to mind, is then caught. |
| LadderGame.StackFull | python/board.py:1078-1084 | The stack is full only after a line of legal play of that length from the root, each move a defence or an attack at an undecided position. |
| LadderFeatures.ReportsMean | python/model.py:172-204 | What the reports of a run say, in terms of liberties, legal attacks and the ladder value. |
| LadderFeatures.Model.ScanBoard | python/model.py:172-204 | The scan with its memo keeps the reports right, and gives up only where a line of play fills a stack. |
| PassAlive.RegionByPaths | python/board.py:1169-1213 | A region holds exactly the points that a path over empty points and opposing stones reaches. |
| PassAlive.VitalIff | python/board.py:1179-1189 | Vital is exactly: where suicide is illegal the region's empty points are all liberties of the chain, where it is legal all its points are next to the chain. |
| PassAlive.EyeIff | python/board.py:1281-1298 | An eye is exactly the region of an empty point that touches no own stone outside the set and is vital to the chain. |
| PassAlive.TwoEyedChainsLive | python/board.py:1281-1325 | Every set of whole chains, each with two different eyes enclosed by the set, is pass-alive. |
| PassAlive.AliveHasTwoEyes | python/board.py:1281-1325 | And each pass-alive chain has two different eyes enclosed by the pass-alive stones. |
| Claims.MarkedIff | python/board.py:1338-1345 | A region is marked exactly in the three cases of the marking rule, spelled out by stones and touching points. |
| Claims.ClaimIff | python/board.py:1327-1351 | A player's claim is exactly the pass-alive stones and the points of marked regions. |
| Areas.AreaPoints | python/board.py:1087-1098 | The owner of each point from both claims, WHITE's over BLACK's, and from the stones. |
| DameAreas.DameTouchingIff | python/board.py:1366-1393 | An area touches dame exactly when a point of the same-owner component is next to an empty point without an owner. |
| DameAreas.LoosestIsBasic | python/board.py:1100-1113 | The area the dame analysis works on is the one under both big-territory rules, with all stones. |
| DameAreas.OpenRegionReported | python/board.py:1100-1128 | Every point of a region without opposing stones is its player's in that area, unless WHITE's claim takes it, and is reported when its holding touches no dame. |
| Terminations.TerminatedSearchIsStopped | cpp/command/analysis.cpp:429-451 | In every reachable state, a thread searching a terminated request has been told to stop, unless the command thread is just about to tell it. |
| Terminations.TerminateReachesAll | cpp/command/analysis.cpp:453-461 | When a terminate command ends, each request it names is terminated, has its final report if unclaimed and a stopped search if searched, and no other request was terminated. |
| Terminations.QuitsOnRequest | cpp/command/analysis.cpp:1064-1071 | The engine quits without waiting exactly if its input ended with the request to. |
| Terminations.InterruptsWhenQuitting | cpp/command/analysis.cpp:1064-1071 | From then on every bot can be interrupted, and an interrupted search may return without output. |
| MatchRuns.InstancesAreNeverReused | cpp/command/matchauto.cpp:95-144 | Different files never share an instance, and an instance once deleted never comes back: a reloaded net is a new one. |
| MatchRuns.GamesArePairs | cpp/command/matchauto.cpp:330-391 | Every game played is between two different bots, one of them the bot it was scheduled for. |

## Left out

- The double-ko branch of the ladder search (python/board.py:993-999): it asks `wouldBeKoCapture` about liberties, which are
  empty, so it can never be taken.
- Boards.Board.RunSearch: does not claim that the stack is never full; the code only hopes so. A full stack is an outcome
  of its own, proved to need a line of legal play as long as the stack; then nothing is claimed about the board, which the
  original leaves in the middle of the search.
- Boards.Board.Undo: sets the side to move to the recorded mover, as the code does, not to the side to move before.
- Boards.Board.SearchIsLadderCaptured: colours and ko point are stated as restored, and with them chains and counts; the side to
  move, the heads and the ring order are not restored, in the code either.
- LadderFeatures.Model.IterLadders: the callback becomes a list of calls; when a search fills its stack the run gives up.
- RequestLifecycle.ExactlyOneFinalReport: the queue of messages is not modelled; a report counts when it is handed over.
- MatchRuns.NetsAreFound: Elo computation and random choice are replaced by any choice of two different bots.
- MatchRuns.ScheduleConserves: that ten picks schedule at least one game (cpp/command/matchauto.cpp:386) is not proved, since
  every pick may be skipped; a thread for which all were goes no further in the model.
- `zobrist` and `sit_zobrist`: after a removal the value is not the XOR of the stones on the board, and the key table is
  sized for 19x19 only.
- `is_simple_eye`, `set_pla`, `to_string`, `to_liberty_string`, `hasLibertyGainingCaptures`: easy or display only.
- The numeric value of the ordering heuristic of the ladder search: any value is allowed, the answer does not depend on it.
- Python's recursion limit and numpy's element widths; recursive helpers terminate by a measure on unvisited points.
- A board of size 1, which the constructor of the original does not support, and the limit of 39 on its size.
- Lists local to one call that only their function writes (search stack, tracer lists, queue) are sequences that are
  reassigned; the board's arrays and the result arrays are arrays.
- With unsafe big territories both players can be given a point and WHITE's mark stays; only what is written is stated.
- JSON parsing, parameters, logging and the search itself: a search begins, may be told to stop, and yields output
  unless it was stopped. The queue hands out each item once, in any order.
- Interim reports, which can be many, are steps that touch their request and change nothing.
- In the matches: results files, game playing, and loading itself; a loaded net is known by an instance number and its file name.
- Neural networks, features other than ladders, training, SGF, and all other commands.
