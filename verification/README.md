# rust-mancala in Dafny

This project models the rules engine and the deterministic searchers of
rust-mancala, a Kalah-style sowing game (six pits a side, four seeds a pit),
and proves properties of the model.

- **Boards.** There are two boards.
  - `src/board.rs`: sowing, the extra-turn rule, the optional capture
    ("stealing") rule, scores, the explicit-stack enumeration of every
    board a whole turn can end in (`list_next`, `list_next_with_pos`) and
    the 64-bit `compact_key`.
  - `src/game.rs`: the earlier board. Capture is always on, and the turn
    is kept on every store landing.
- **Searchers.** Four searchers run over any game tree: alpha-beta
  (`ab_search`), the window-narrowing `DepthSearcher`, the width-cut
  `CutDepthAI` and the per-pit suggestion table `get_suggest`.
- **Score algebra.** The integer `Score` types with `flip`, and the
  `WinRateScore` tally.
- **Greedy player.** The move builder `GreedyAI`.
- **Exact solver.** The memoised solver of `src/learn/search.rs` and the
  byte format of its table file.

Modules:

| file | module | models |
|---|---|---|
| basics.dfy | Basics | `Option`, `Outcome`, sums |
| sowing.dfy | Sowing | `Side`, the pits, `move_seed`/`_move_stone`, and a ring-of-slots reference for sowing |
| board.dfy | Kalah | `src/board.rs` except the key |
| compact_key.dfy | CompactKey | `compact_key`, `from_compact_key` |
| board_examples.dfy | KalahExamples | the unit-test games of `src/board.rs` |
| game.dfy | Game | `src/game.rs` |
| scores.dfy | Scores | `src/ai/evaluator.rs` |
| negamax.dfy | Negamax | negamax and `ab_search` (`src/ai/utils.rs`, `src/ai/simple.rs`) |
| pick.dfy | Pick | the strict-improvement choice of a move list |
| depth_search.dfy | DepthSearch | `DepthSearcher::sow` |
| key_sort.dfy | KeySort | the stable `sort_by_key` |
| cut_search.dfy | CutSearch | `CutDepthAI::search` and `think` |
| suggest.dfy | Suggest | `get_suggest` |
| greedy.dfy | Greedy | `GreedyAI::sow` |
| learn_search.dfy | LearnSearch | `raw_scores`, `seed_scores`, `search` |
| learn_db.dfy | LearnDb | `db_name` and the byte format of `save`/`load` |

How the model is built:

- **Rules.** The model follows the code. Sowing is a recursive function on
  unbounded counts. Sowing is also described a second way, as seeds dropped
  one per slot around the mover's ring of 13 slots. The lemmas tie the two
  descriptions together.
- **Searches.** The searches are generic over a `Tree<T>`: a finished test,
  the children in the order the search visits them, and an evaluation.
  Each hash-set or hash-map iteration of the source is therefore an
  arbitrary order. Every search property holds for every order.
- **Random choices.** The one random choice, the last move of the greedy
  player, is a parameter `draw`.
- **Files.** The table file is a parameter: `None` when it cannot be
  opened, otherwise its bytes.

Where the stated intent and the code differ, the model follows the code:

- `flip` of the `i32` `Score::MIN` is `i32::MAX`, one more than
  `Score::MAX`. It is not `Score::MAX`.
- The `WinRateScore` order ignores `lose`. So `flip` does not reverse it
  (`Scores.FlipKeepsOrder`).

## Model

| member | source | states |
|---|---|---|
| Sowing.OtherSide | src/board.rs:34-40 | `turned` is an involution, and the side that is not `a` is `a.turned()` |
| Sowing.MoveSeed | src/board.rs:159-178 | `move_seed`: the pits stay well formed, and the last seed lands on a row index or on the store index `PIT`; the lemmas below pin down the seeds dropped |
| Sowing.MoveSeedTotal | src/board.rs:159-178 | distributing `num` seeds adds exactly `num` seeds to the board |
| Sowing.MoveSeedStores | src/board.rs:166-177 | the opponent's store is never credited and the mover's never falls; a landing at index `PIT` is in the mover's store and banked a seed; any other landing is in a pit now holding a seed |
| Sowing.MoveSeedIsRingSowing | src/board.rs:159-178 | the recursive distribution equals dropping the seeds one per slot around the mover's ring (own pits, own store, opponent's pits), wrapping round |
| Sowing.MoveSeedLanding | src/board.rs:159-178 | the last seed lands `num - 1` ring slots after the first |
| Kalah.New | src/board.rs:84-91 | First to move, every pit holding `SEED`, both stores empty, 48 seeds in all, game not over |
| Kalah.FromSeeds | src/board.rs:93-108 | First to move, empty stores, the two rows are the twelve given counts in order |
| Kalah.LastScoresShare | src/board.rs:126-140 | the final totals share out every seed, and the final difference is the mover's store plus row against the opponent's |
| Kalah.ScoresAreSideRelative | src/board.rs:133-153 | both `score` and `last_score` change sign when the other side is to move |
| Kalah.CanSow | src/board.rs:180-188 | refusal exactly for a position off the row, then for an empty pit; acceptance exactly otherwise |
| Kalah.Capture | src/board.rs:199-206 | emptying the landing pit and its mirror banks the mirror's seeds plus one for the mover and leaves the opponent's store alone |
| Kalah.Sow | src/board.rs:190-210 | `sow`: the board stays well formed under the same rule, and the turn is either kept or passed; `Kalah.SowIsRingTurn` gives the whole turn |
| Kalah.SowConserves | src/board.rs:190-210 | a sowing keeps the number of seeds on the board |
| Kalah.SowStores | src/board.rs:190-210 | a sowing never lowers the mover's store nor touches the opponent's; the turn is kept only after banking a seed on a board that is not finished |
| Kalah.SowKeeps | src/board.rs:190-210 | a sowing that keeps the turn strictly lowers the seeds the mover has not banked, which bounds the turn chain |
| Kalah.SowEmptyPit | src/board.rs:190-193 | sowing an empty pit changes no seed and passes the turn |
| Kalah.SowIsRingTurn | src/board.rs:190-210 | `sow` is the turn computed on the ring: seeds dropped from the next slot, extra turn on a store landing of an unfinished board, capture when stealing on an own pit now holding one facing a non-empty pit, otherwise the turn passes |
| Kalah.ExactSowKeepsTurn | src/board.rs:193-198 | a pit holding `PIT - pos` seeds ends in the store, and the mover keeps the turn exactly when the board is not then finished |
| Kalah.NoStealingNoCapture | src/board.rs:199-206 | without stealing the pits after a sowing are exactly the ring's: no capture ever happens |
| Kalah.ListNextEmptyIff | src/board.rs:214-218 | the set of next boards is empty exactly when a row is empty |
| Kalah.ListNextIsCompleteTurns | src/board.rs:214-236 | a board is a next board exactly when some move list replays from the board through legal sowings, all but the last keeping the turn, to it with the turn passed |
| Kalah.ExpandKeeps | src/board.rs:221-234 | every next board is well formed, has the other side to move, keeps the stealing rule and holds every seed |
| Kalah.SowPit | src/board.rs:223-232 | one pit of the inner loop adds that pit's turn endings to the collected boards plus those still reachable from the stack |
| Kalah.SowEach | src/board.rs:222-233 | the inner loop adds all turn endings of the popped board, and the stack's remaining work shrinks by its size |
| Kalah.ListNextStack | src/board.rs:214-236 | the stack search returns exactly the set of boards complete turns reach |
| Kalah.SowPitWithPos | src/board.rs:249-260 | one pit adds its endings with a move list that replays to each; an ending already collected keeps its first list |
| Kalah.SowEachWithPos | src/board.rs:248-261 | the inner loop for one popped board keeps every collected list replaying to its board, and never changes a list already collected |
| Kalah.ListNextWithPos | src/board.rs:240-264 | the keys are exactly those of `list_next`, and each list is non-empty and replays from the board to its key, ending with the turn passed |
| CompactKey.Key | src/board.rs:267-275 | `compact_key`: the twelve pits five bits each, the mover's row first; it has no contract of its own, and `CompactKey.KeyRoundTrip` and `CompactKey.KeyInjective` state what it keeps |
| CompactKey.FromKey | src/board.rs:277-307 | `from_compact_key`: twelve counts, inverse to `compact_key` on boards whose pits stay below 32 (`CompactKey.KeyRoundTrip`) |
| CompactKey.UnpackPack | src/board.rs:267-307 | twelve counts below 32 packed five bits each unpack to themselves |
| CompactKey.KeyRoundTrip | src/board.rs:267-307 | with every pit below 32, `from_compact_key(compact_key(b))` is the mover's row followed by the opponent's |
| CompactKey.KeyInjective | src/board.rs:267-275 | two such boards share a key exactly when they show the same pits to the side to move |
| CompactKey.FromSeedsOfKey | src/board.rs:425-437 | `from_seeds` on a decoded key rebuilds both rows as the side to move saw them |
| KalahExamples.StealingGame | src/board.rs:314-342 | with stealing, the sows 2,5,1,5,1,5,0 from the start give the sides and stores the unit test asserts, ending at (10, 2) |
| KalahExamples.StealingFinalTotals | src/board.rs:341 | that game's final totals are (29, 19) |
| KalahExamples.NoStealingGame | src/board.rs:345-373 | without stealing, the same sows give the sides and stores the unit test asserts, ending at (4, 2) |
| KalahExamples.NoStealingFinalTotals | src/board.rs:372 | that game's final totals are (24, 24) |
| KalahExamples.KeyGame | src/board.rs:394-405 | the boards of the key test: the start and the sows 2,5,1,3,4 |
| KalahExamples.KeyGameRoundTrips | src/board.rs:376-406 | every board of that game decodes from its key to its two rows |
| KalahExamples.ScoreAfterTwoMoves | src/board.rs:409-421 | banked differences 0, 1, -2 for the side to move after 0, 1, 2 sows |
| KalahExamples.OpeningLastScores | src/board.rs:414-422 | final differences 0, 0, 8 for the side to move on the same boards |
| KalahExamples.FromSeedsAfterTwoMoves | src/board.rs:426-437 | the board after sows 2 and 5, rebuilt from its key, shows the same rows |
| Game.New | src/game.rs:61-67 | First to move, every pit `STONE`, both stores empty, the game in progress |
| Game.Board.State | src/game.rs:69-80 | `get_state`: no contract of its own; `Game.StateIsFinished` characterises each of the four answers |
| Game.StateIsFinished | src/game.rs:69-80 | in progress exactly while both rows hold seeds; otherwise won by the larger store, drawn on equal stores |
| Game.CheckPos | src/game.rs:103-114 | refusal exactly for a position off the row, then for an empty pit; acceptance exactly otherwise |
| Game.Steal | src/game.rs:130-135 | the mirror pit is emptied into the mover's store; the landing pit keeps its seed |
| Game.MoveOne | src/game.rs:116-141 | `move_one`: the board stays well formed, and the turn is either kept or passed; the three lemmas below state seeds, stores and turn |
| Game.MoveOneConserves | src/game.rs:116-141 | a move, capture included, keeps the number of seeds |
| Game.MoveOneStores | src/game.rs:116-141 | the opponent's store is untouched, the mover's never falls, and the turn is kept only after banking a seed |
| Game.MoveOneKeepsIff | src/game.rs:124-140 | the turn is kept exactly when the last seed falls in the mover's store, whether or not the game is then over |
| Game.KeepsTurnOnFinish | src/game.rs:125-127 | a store landing that empties the mover's row still keeps the turn |
| Game.ExpandKeeps | src/game.rs:148-165 | every turn ending holds every seed; as written it has the other side to move; the corrected search may also end on a finished board |
| Game.OutcomesAreTurns | src/game.rs:143-167 | the keys of `list_next` are exactly the ends of complete turns from a game in progress |
| Game.MovePit | src/game.rs:152-163 | one pit adds its outcomes with a move list that plays to each; an outcome already collected keeps its first list |
| Game.MoveEach | src/game.rs:151-164 | the inner loop adds all outcomes of the popped board, and never changes a move list already collected |
| Game.ListNext | src/game.rs:143-167 | the stack search returns exactly the outcomes, each with a non-empty move list that plays to it |
| Game.LostOutcome | src/game.rs:159-160 | as written, a game in progress whose only move banks its last seed has no outcome |
| Game.FixedOutcomesNonEmpty | src/game.rs:143-167 | with the correction, there is an outcome exactly while the game is in progress |
| Scores.Neg32 | src/ai/evaluator.rs:13-15 | `i32` negation stays in `i32` and agrees with the wrapping negation modulo 2^32 |
| Scores.NegInvolution | src/ai/evaluator.rs:9-25 | negation of `i32` and of `i8` is an involution, exact away from the type minimum |
| Scores.FlipBounds | src/ai/evaluator.rs:9-25 | `flip(MIN) == MAX + 1` and `flip(MAX) == MIN + 1` for both types, without overflow |
| Scores.ScoreDiff | src/ai/evaluator.rs:47-52 | the evaluation is the final-score difference for the side to move, bounded by the seeds on the board |
| Scores.Count | src/ai/evaluator.rs:166-175 | exactly one counter rises (win above zero, draw at zero, loss below), and the score joins the sum |
| Scores.Add | src/ai/evaluator.rs:207-217 | `add`: no contract of its own; `Scores.CountIsAdd` shows it is a commutative monoid that counting builds on |
| Scores.CountIsAdd | src/ai/evaluator.rs:207-217 | counting is adding a one-result tally; adding is commutative, associative, with the empty tally as unit |
| Scores.Flip | src/ai/evaluator.rs:232-239 | `flip`: no contract of its own; `Scores.FlipInvolution` and `Scores.FlipKeepsOrder` state what it keeps and what it does not |
| Scores.FlipInvolution | src/ai/evaluator.rs:232-239 | `flip` is an involution and keeps the number of results |
| Scores.Compare | src/ai/evaluator.rs:195-199 | `cmp`: no contract of its own; `Scores.CompareIsTotalOrder` and `Scores.CompareIsLexicographic` state the order |
| Scores.CompareIsTotalOrder | src/ai/evaluator.rs:187-205 | `cmp` answers equal exactly on `eq` tallies, is antisymmetric, total and transitive |
| Scores.CompareIsLexicographic | src/ai/evaluator.rs:195-199 | the order is lexicographic on (win, draw, score) and ignores `lose` |
| Scores.FlipKeepsOrder | src/ai/evaluator.rs:232-239 | `flip` can keep two tallies' order and can separate two `eq` tallies |
| Scores.WinRateBounds | src/ai/evaluator.rs:219-231 | `MIN` is below every tally with score at least `i32::MIN + 1`; `MAX` is above every tally with `u32` counters and score at most `i32::MAX - 1` |
| Negamax.AlphaBeta | src/ai/utils.rs:3-24 | `ab_search`: no contract of its own; `Negamax.AlphaBetaWindow` relates it to negamax and `Negamax.AlphaBetaInRange` bounds it |
| Negamax.BestIsMax | src/ai/utils.rs:14-22 | the best negated child value bounds every child's and is attained by one |
| Negamax.BestOrderFree | src/ai/utils.rs:14 | the negamax value does not depend on the order the children are listed in |
| Negamax.Scan | src/ai/utils.rs:13-23 | the children loop never returns less than the `alpha` it starts from |
| Negamax.AlphaBetaWindow | src/ai/utils.rs:3-24 | against negamax: exact inside `(alpha, beta)`, at most `alpha` below it, at least `beta` above it |
| Negamax.ScanWindow | src/ai/utils.rs:13-23 | the loop is exact inside the window, `alpha` exactly below it, at least `beta` above it |
| Negamax.AlphaBetaFailHard | src/ai/simple.rs:30-45 | on a searched position the result is at least `alpha`, and is `alpha` exactly when no child's negated value exceeds `alpha` |
| Negamax.ScanCutoff | src/ai/utils.rs:19-21 | once the loop reaches `beta`, children after the cut do not change the result |
| Negamax.AlphaBetaInRange | src/ai/utils.rs:15 | with evaluations and window inside `+-i32::MAX` every result stays there, so no negation overflows |
| Pick.StrictPick | src/ai/depth_search.rs:44-47 | the strict-improvement choice: no contract of its own; `Pick.StrictPickIsFirstMax` states which list it keeps |
| Pick.StrictPickIsFirstMax | src/ai/depth_search.rs:44-47 | strict improvement keeps the largest score, and the list of the first candidate reaching it |
| DepthSearch.Sow | src/ai/depth_search.rs:28-50 | `DepthSearcher::sow`: no contract of its own; `DepthSearch.SowChoosesBest` states the list it returns |
| DepthSearch.ChooseIsExact | src/ai/depth_search.rs:35-48 | with values strictly inside the score bounds, the narrowing windows choose as exact scores would |
| DepthSearch.SowChoosesBest | src/ai/depth_search.rs:28-50 | no candidates give the empty list, one candidate its own list, more the list of the first candidate of largest negated value |
| KeySort.Sort | src/ai/cut_dfs.rs:30 | `sort_by_key` as insertion sort: no contract of its own; `KeySort.SortIsStable` states it sorts stably |
| KeySort.SortIsStable | src/ai/cut_dfs.rs:30 | the sort orders by key, keeps the elements, and keeps equal-key elements in their order |
| CutSearch.Search | src/ai/cut_dfs.rs:24-38 | `search`: the result is an `i32`; `CutSearch.SearchIsNegamax` states when it is negamax |
| CutSearch.Loop | src/ai/cut_dfs.rs:31-36 | the loop result is an `i32` at least the running best |
| CutSearch.LoopIsMax | src/ai/cut_dfs.rs:28-37 | the loop is the largest of the start and every negated child result |
| CutSearch.RankedKeepsChildren | src/ai/cut_dfs.rs:29-31 | with the width covering the children, the ranked list holds exactly the children |
| CutSearch.SearchIsNegamax | src/ai/cut_dfs.rs:24-38 | with a move wherever the game goes on, evaluations inside `+-i32::MAX` and the width covering every child list, the search is negamax |
| CutSearch.Think | src/ai/cut_dfs.rs:45-60 | `think`: no contract of its own; `CutSearch.ThinkChoosesBest` states the list it returns |
| CutSearch.ThinkChoosesBest | src/ai/cut_dfs.rs:45-60 | no candidates give the empty list, one its own list, more the list of the first largest negated result, or the empty list when every result is `i32::MIN` |
| Suggest.TableStep | src/ai/simple.rs:52-56 | recording one candidate keeps the table the per-pit best of the candidates seen |
| Suggest.GetSuggest | src/ai/simple.rs:47-59 | `PIT` entries; an entry is `None` exactly when no candidate starts at that pit, otherwise the largest score of those that do |
| Suggest.ScoreIsExact | src/ai/simple.rs:50 | a value inside `(-10000, 10000)` is scored exactly |
| Greedy.Play | src/ai/greedy.rs:23-58 | `GreedyAI::sow`: no contract of its own; `Greedy.PlayIsLegal`, `Greedy.PlayIsGreedy` and `Greedy.PlayFirstMove` state the turn it builds |
| Greedy.HighestExact | src/ai/greedy.rs:29-30 | the highest pit whose seeds end exactly in the store, or none |
| Greedy.HighestSpill | src/ai/greedy.rs:44-45 | the highest pit whose seeds run past the store, or none |
| Greedy.NonEmpty | src/ai/greedy.rs:50-55 | the non-empty pits, ascending, all of them |
| Greedy.PlayIsLegal | src/ai/greedy.rs:23-58 | the moves form one legal turn: each pit is legal when sown and every move but the last keeps the turn; when there is more than one move the first is an exact sowing that kept the turn |
| Greedy.PlayIsGreedy | src/ai/greedy.rs:26-57 | every move is chosen on the board it is played on: each move but the last is the highest exact pit of that board and keeps the turn; the last is the highest exact pit when that passes the turn, else with no exact pit the highest spilling pit, else the drawn non-empty pit |
| Greedy.PlayFirstMove | src/ai/greedy.rs:27-57 | the first move is the highest exact pit if any, else the highest spilling pit if any, else a non-empty pit |
| LearnSearch.Search | src/learn/search.rs:22-56 | `search`: no contract of its own; the `LearnSearch` lemmas below state each of its branches and what it keeps in the table |
| LearnSearch.RawPlusSeeds | src/learn/search.rs:7-20 | banked plus unbanked difference is the final-score difference |
| LearnSearch.FoldIsBest | src/learn/search.rs:36-53 | the best is the largest negated child score; its depth is one more than the least depth among children reaching it |
| LearnSearch.SearchHit | src/learn/search.rs:23-26 | a table hit answers with the banked difference plus the stored one, and leaves the table alone |
| LearnSearch.SearchFinished | src/learn/search.rs:27-32 | an unseen finished board answers its final difference at depth 0 and records its unbanked part |
| LearnSearch.SearchOutOfDepth | src/learn/search.rs:33-35 | an unseen unfinished board without depth gives up and leaves the table alone |
| LearnSearch.CollectGivesUp | src/learn/search.rs:38-42 | a child that gives up stops the loop: later children are not searched |
| LearnSearch.SolveGivesUp | src/learn/search.rs:38-42 | then the board gives up with no entry of its own added |
| LearnSearch.CollectLength | src/learn/search.rs:38-53 | a loop that does not give up has one result per child |
| LearnSearch.SolveRecords | src/learn/search.rs:54-55 | the answer is recorded less the banked difference, with its depth |
| LearnSearch.SearchKeepsTable | src/learn/search.rs:22-56 | a search never removes or changes an entry already in the table |
| LearnSearch.SearchThenHit | src/learn/search.rs:22-56 | once answered, asking again at any depth gives the same answer from the table and changes nothing |
| LearnDb.DbName | src/learn/utils.rs:7-9 | `db_name`: no contract of its own; `LearnDb.DbNames` gives the two names |
| LearnDb.DecimalRoundTrip | src/learn/utils.rs:8 | the decimal text of a number reads back as that number |
| LearnDb.DbNames | src/learn/utils.rs:7-9 | the names are `p6s4_true.dat` and `p6s4_false.dat`, distinct exactly for distinct flags |
| LearnDb.Le64RoundTrip | src/learn/utils.rs:59 | a key's eight little-endian bytes and the key are inverse |
| LearnDb.LeBytesRoundTrip | src/learn/utils.rs:27 | a count that fits eight bytes reads back from its little-endian bytes |
| LearnDb.ScoreByteRoundTrip | src/learn/utils.rs:60 | an `i8` score, negative ones included, reads back from its byte |
| LearnDb.SignedRoundTrip | src/learn/utils.rs:47 | every byte read as `i8` is an `i8` and writes back as itself |
| LearnDb.ReadRecords | src/learn/utils.rs:32-51 | earlier entries stay; every new entry fits `(i8, u8)` |
| LearnDb.Load | src/learn/utils.rs:11-52 | every loaded entry fits `(i8, u8)` |
| LearnDb.LoadEmpty | src/learn/utils.rs:13-29 | a missing file, a header cut short, or a zero count load as the empty table |
| LearnDb.Save | src/learn/utils.rs:54-63 | `save`: 8 bytes of count, then 10 bytes a record; `LearnDb.LoadSave` states that `load` reads it back |
| LearnDb.SaveHeader | src/learn/utils.rs:54-58 | a saved file announces the table's size and is 8 + 10 bytes per entry |
| LearnDb.LoadSave | src/learn/utils.rs:11-63 | loading what was saved gives back the table, whatever the iteration order |
| LearnDb.LoadTruncated | src/learn/utils.rs:32-51 | a saved file cut after `j` whole records and part of the next holds exactly those `j` entries |
| LearnDb.ReadRecordsLastWins | src/learn/utils.rs:49 | of two records for one key the later one wins |

## Left out

- Kalah.ListNextWithPos: which of several move lists reaching one board is kept is not stated at the top level. `Kalah.SowPitWithPos` and `Kalah.SowEachWithPos` prove that a collected list is never replaced (the `or_insert` at src/board.rs:259). Naming the first list found would need a reference for the depth-first discovery order.
- Game.ListNext: likewise for src/game.rs:162. `Game.MovePit` and `Game.MoveEach` prove a collected list is never replaced, but the top level does not say which list is first.
- LearnDb.Load: the source sizes the map from the unchecked count header before reading any record (src/learn/utils.rs:31). A count too large for the allocator makes `load` panic or abort; where that starts depends on the allocator and the memory at hand. The model reads the records present instead.
- `Display` of both boards: terminal output.
- Integer widths where they cannot matter. Pits and stores are `u8` (`usize` in `src/game.rs`), and the board holds 48 seeds. So no count, store or score difference of the rules overflows, and the model uses unbounded integers.
- Kalah.Sow: pits are unbounded counts, not `u8`; with 48 seeds no pit can wrap.
- LearnSearch.Search: scores are unbounded integers, not `i8`. Every score the solver handles is a difference of at most 48 seeds, so none of its `i8` additions or negations overflows.
- Negamax.AlphaBeta: negation is exact, not the wrapping `i32` negation. `Negamax.AlphaBetaInRange` shows it never leaves `+-i32::MAX` when the evaluations and window do not.
- DepthSearch.SowChoosesBest: it assumes every value lies strictly between `Score::MIN` and `i32::MAX` (`Searchable`). Outside that the window `(MIN, flip(best))` is no longer exact.
- CutSearch.SearchIsNegamax: it needs evaluations within `+-i32::MAX`. `CutSearch.Search` itself wraps negation as `i32` does, so `i32::MIN` is its own negation.
- Scores.Count: the `u32` counters and `i32` score sum of `WinRateScore` do not wrap.
- The evaluators are an uninterpreted function of the position. Only `ScoreDiffEvaluator` is given. The others are float tables, random playouts or a neural network.
- `WinRateScore::rate` and the `f64` `Score`: floating point.
- `RandomDepthSearcher`, the Monte Carlo searchers, `RandomAI`, and `to_finish` of the solver: random sampling and floating point.
- The random draw of `GreedyAI` is the parameter `draw`.
- Greedy.Play: it requires a non-empty row. On an empty row the source draws from an empty range and panics.
- Iteration orders of `FnvHashSet`/`HashMap`. They are parameters, and every search lemma holds for every order. `save` writes the entries in some order that lists every key once.
- `InteractiveAI`: reading and printing on the terminal.
- The `Searcher`/`AI` trait plumbing and the module wiring are not part of this model.
- `src/ai/cut_dfs.rs` and `src/ai/simple.rs` call a board API, `list_next` with move lists on `src/game.rs` boards, that the shown `src/game.rs` does not provide. Their searches are modelled over a generic tree, and their candidates are any sequence of (position, move list).
- `compact_key` ignores the stores, the side to move and the stealing flag. So the solver's table may share entries between boards that differ only in those, exactly as the source does.
- File handles, `BufReader`/`BufWriter`, the error messages of `load` and the write errors of `save`. Only the byte format is modelled, and the file is a parameter.

## Findings

| source | as written | input that shows it | evidently intended | confidence | as-written member | corrected member |
|---|---|---|---|---|---|---|
| src/game.rs:159-160 | a move that banks its last seed and empties the mover's row keeps the turn (lines 125-127). The finished board is pushed back on the stack, has no legal move, and is never collected | First to move, rows [0,0,0,0,0,1] and [4,4,4,4,4,4], empty stores. The only move, pit 5, ends the game, yet `list_next` returns an empty map | a turn that ends the game is an outcome, as the later board does by passing the turn on a finished board (src/board.rs:196) | not executed | Game.LostOutcome | Game.FixedOutcomesNonEmpty |

`Game.ListNext` and `Game.Outcomes` take a flag. Set, it selects the corrected search, which collects finished boards. The lemmas about it hold for both searches except the two named above.
