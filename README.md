# Genetic Connect-Four, modelled in Dafny

A population of feed-forward neural networks learns Connect-Four by a genetic
algorithm, and this project models its core. Every agent plays every other
agent twice in a season, and the standings record wins and losses. The agents
with the most wins survive. The population is then refilled with children of
the survivors: two parents are crossed row by row, and a few rows of the child
are mutated.

The project has six modules:

- `Failures` (`failures.dfy`) holds the error kinds and the `Result`, `Outcome`
  and `Option` wrappers that stand for the exceptions of the original.
- `ConnectFour` (`game.dfy`) models the game. A `Game` class holds a 6 x 7
  `array2<int>` board and the player to move. `Grid()` is the board as a value.
  The pure layer defines gravity, where a piece lands, runs of pieces along an
  axis, and what a win is. `CheckWinWith` is proved against that layer.
- `Network` (`network.dfy`) models the agent. A `Net` class holds its list of
  weight matrices, each with a trailing bias column, over exact reals. The
  module covers the constructor's shape check, random construction, copying,
  export and import, the forward pass, in-place mutation, and row-wise
  crossover.
- `Match` (`match.dfy`) covers how an agent chooses a move, and one game
  between two agents. The game is a recursive `PlayFrom` over board values,
  matched by the imperative loop over a `Game` object.
- `Ranking` (`ranking.dfy`) holds the stable sort by decreasing wins and the
  survivor-selection loop of `gather_top`.
- `League` (`league.dfy`) models the module-level `population` and `standings`
  lists as a `League` class. It covers a season, export and import, the
  initial population, the selection of survivors, and repopulation.

Each random draw is an oracle parameter, and any
range the random source guarantees becomes a `requires` on that oracle:

- `rand(l, i, j)` gives the weights of a random network;
- `coin(l, i)` gives the crossover draws;
- `pick(t, total)` gives the row index of mutation round `t`, reduced modulo
  `total`;
- `draw(t, j)` gives the mutation noise;
- one `Luck` record per child bundles the parent pair and that child's oracles.

## Model

| member | source | states |
|---|---|---|
| ConnectFour.EmptyGrid | modules/game.py:31-41 | The starting board is well shaped, holds only 0/1/-1 and respects gravity. |
| ConnectFour.Game.constructor | modules/game.py:31-41 | A new game has an all-zero 6 x 7 board, and player 1 moves first. |
| ConnectFour.Game.CanPlace | modules/game.py:43-58 | A piece can be placed exactly when the column is `Open`, i.e. its top cell is empty. |
| ConnectFour.OpenIffRoom | modules/game.py:43-58 | On a board under gravity, a column's top cell is empty iff some cell of the column is empty. |
| ConnectFour.Fall | modules/game.py:93-99 | A fall ends at most one row above where it started, never below the bottom row, and only on an empty cell when it moved at all. |
| ConnectFour.FallFrom | modules/game.py:93-99 | The fall from `row` stops on the last empty cell of the column, at the bottom or above a piece, or at `row - 1` when nothing is free. |
| ConnectFour.LandingRow | modules/game.py:93-99 | An open column's piece lands on a row in 0..5 that is empty with everything above it, and rests on the floor or on a piece. A full column gives row -1. |
| ConnectFour.Game.PieceFall | modules/game.py:93-99 | The loop computes the recursive fall, from any start row. |
| ConnectFour.Place | modules/game.py:78-79 | Placing into an open column is the gravity drop. Placing into a full column writes row -1, which is the bottom row under Python's negative indexing. |
| ConnectFour.PlaceCell | modules/game.py:78-79 | A placement changes exactly one cell: the landing row, or row 5 for a full column. |
| ConnectFour.DropFacts | modules/game.py:78-79 | A drop changes only the landing cell, keeps gravity and the 0/1/-1 cells, and removes one empty cell. |
| ConnectFour.EmptyCountBounds | modules/league.py:117-119 | A board has at most 42 empty cells, and at least one while some column is open. This bounds the game loop. |
| ConnectFour.Game.SetCell | modules/game.py:79 | Writing the mover's piece changes one cell of the board value and nothing else. |
| ConnectFour.Run | modules/game.py:101-107 | A non-empty run starts on a cell of the player inside the board. |
| ConnectFour.RunExact | modules/game.py:101-107 | The count in a direction is exactly the number of consecutive cells of the player from the start cell, stopping at the first cell that is off the board or not theirs. |
| ConnectFour.Game.CountInDirection | modules/game.py:101-107 | The counting loop returns the start count plus that run length. |
| ConnectFour.Axis | modules/game.py:29 | Each of the four search pairs, and its negation, is a non-zero unit direction. |
| ConnectFour.WinAt | modules/game.py:81-88 | A win is only ever found at a cell on the board that holds the player's own piece. |
| ConnectFour.WinIsFourInLine | modules/game.py:81-88 | "Forward run + backward run - 1 >= 4 on some axis" holds iff some window of four consecutive cells on that axis through the cell all hold the player's piece. |
| ConnectFour.NoWinOffBoard | modules/game.py:84-88 | Counting from row -1 finds nothing, so a move into a full column never wins. |
| ConnectFour.Game.CountAxis | modules/game.py:84-86 | The two counting calls of one axis give the forward run plus the backward run minus one, the shared start cell counted once. |
| ConnectFour.Game.ScanAxes | modules/game.py:81-89 | The scan over the four axes reports a win exactly when `WinAt` holds at the placed cell. |
| ConnectFour.Game.CheckWinWith | modules/game.py:60-91 | The board becomes the placement of the mover's piece. The result is whether that piece completes four in a line, and never true for a full column. The turn passes exactly when there is no win. |
| Match.Flatten | modules/league.py:144 | The input vector has 42 entries, one per cell. |
| Match.FlattenPerspective | modules/league.py:144 | Cell (r, c) becomes entry 7r + c: 1 for the mover's own piece, -1 for the opponent's, 0 for an empty cell. |
| Match.ArgMax | modules/league.py:146 | The index of the first maximum: no entry is larger, and every earlier entry is strictly smaller. |
| Match.Choice | modules/league.py:144-146 | A playing network's choice is a column index 0..6. |
| Match.ChooseMove | modules/league.py:126-146 | `choose_move` returns the argmax of the network's output on the board seen from the mover's side. |
| Match.PlayFrom | modules/league.py:113-119 | The game ends with a column index as its last move. Termination follows from the empty-cell count. |
| Match.NextTurn | modules/league.py:117-119 | One turn, then the rest of the game, ends with a column index as last move. |
| Match.GameEnds | modules/league.py:113-124 | Every game ends in a valid position with a player ±1. Either that player's last column was full, or that player's last piece lies in a line of four. |
| Match.PlayFromStep | modules/league.py:117-119 | A placed non-winning turn continues the same game on a board with one empty cell fewer. Any other turn is the game's end. |
| Match.TakeTurn | modules/league.py:115-117 | One loop pass: the mover chooses, `can_place` is checked, and only a placeable column is played (with `check_win_with`'s effect). |
| Match.Turn | modules/league.py:117-119 | A loop pass either keeps the remaining game unchanged with fewer empty cells, or has reached the game's end. |
| Match.PlayOut | modules/league.py:117-119 | The `while` loop ends in the board, player, last move and win flag of `PlayFrom`. |
| Match.RunGame | modules/league.py:113-119 | A fresh game played out from the empty board with player 1 first ends in `PlayFrom`'s end. |
| Match.SettleAsWritten | modules/league.py:121-124 | The final check names the mover when its last column is still open, and the other player otherwise. |
| Match.Credited | modules/league.py:98-124 | The as-written result of a game between two playing agents is 1 or -1. |
| Match.PlayGame | modules/league.py:98-124 | `play_game` as written returns the as-written settlement of the game's end. |
| Match.SettleDiffers | modules/league.py:121-124 | The as-written settlement differs from the intended one exactly on a win whose piece fills its column's top cell. |
| Match.TopRowBoard | modules/league.py:117-124 | The board behind the counterexample is a legal position. |
| Match.TopRowWinMisreported | modules/league.py:117-124 | A reachable position where player 1 wins with a vertical four ending in row 0, yet the as-written result names player -1. |
| Match.TopRowGameMisreported | modules/league.py:113-124 | In any game between playing agents that reaches `TopRowBoard` with agent 1 choosing column 0, the game ends on that win and the as-written result credits agent 2. |
| Match.Winner | modules/league.py:98-124 | The corrected result is always 1 or -1. |
| Match.WinnerMeans | modules/league.py:108-124 | Agent 1 is the corrected winner iff it completed four in a line, or agent 2 chose a full column. |
| Match.PlayGameCorrected | modules/league.py:98-124 | The corrected `play_game` returns `Winner`: the mover keeps a win and loses on a full column. |
| Network.BuildLayers | modules/simple_gen_neural_net.py:72-87 | The constructor accepts exactly the valid chains, keeping the layers in order. A valid chain has at least two layers, a first layer with a column, and each later layer with rows and columns = previous rows + 1. |
| Network.Net.constructor | modules/simple_gen_neural_net.py:52-87 | A network stores the checked layers. |
| Network.NewNet | modules/simple_gen_neural_net.py:52-87 | `cls(*layers)` succeeds iff the chain is valid, giving a fresh network with exactly those layers. |
| Network.ChainByShape | modules/simple_gen_neural_net.py:283-299 | Any layer list with the same shapes as a valid chain is a valid chain. |
| Network.RandomMatrix | modules/simple_gen_neural_net.py:145 | A random layer has `size` rows, `previous size + 1` columns, and the drawn values. |
| Network.RandomLayers | modules/simple_gen_neural_net.py:139-151 | With at least three node counts there is one layer per consecutive pair, shaped by the counts, with every weight in [0, 1). Fewer counts are an error. |
| Network.RandomShapesChain | modules/simple_gen_neural_net.py:139-151 | The random layers form a valid chain iff every count after the second is positive. |
| Network.FromRandom | modules/simple_gen_neural_net.py:114-151 | `from_random` succeeds iff there are at least three counts and every count after the second is positive. The network's layers are then the random matrices. |
| Network.Copy | modules/simple_gen_neural_net.py:97-112 | A copy is a fresh, valid network with equal layers. |
| Network.ExportLayers | modules/simple_gen_neural_net.py:169-178 | An export has one nested list per layer. |
| Network.Net.Export | modules/simple_gen_neural_net.py:169-178 | `export` lists each layer's rows in order. |
| Network.ImportLayers | modules/simple_gen_neural_net.py:153-167 | A successful import is a valid chain that exports back to the same lists. |
| Network.FromExport | modules/simple_gen_neural_net.py:153-167 | `from_export` succeeds exactly when the lists import, giving a fresh valid network with the imported layers. |
| Network.RoundTrip | modules/simple_gen_neural_net.py:153-178 | Import of export gives back the same layers, for every valid chain whose first layer has a row. |
| Network.RowlessFirstLayerLost | modules/simple_gen_neural_net.py:76 | An export whose first layer has no rows cannot be imported again. |
| Network.MatVec | modules/simple_gen_neural_net.py:228 | A layer times a vector has one entry per row. |
| Network.Relu | modules/simple_gen_neural_net.py:180-185 | The rectifier keeps the length, and each entry is the input or 0 and is at least both. |
| Network.ChainFeeds | modules/simple_gen_neural_net.py:221-229 | In a valid chain every layer's columns are the previous output count plus the bias. |
| Network.Forward | modules/simple_gen_neural_net.py:225-229 | The pass through a chain has one entry per node of the last layer, or the input's length when there are no layers. |
| Network.ForwardShape | modules/simple_gen_neural_net.py:221-231 | The forward pass returns one non-negative value per output node. |
| Network.Net.FeedForward | modules/simple_gen_neural_net.py:196-231 | The input is accepted iff the first layer has a row to read its width from and the input's length plus 1 equals that width. A first layer without rows is an IndexError, a wrong length a dimension error. An accepted input gives the layer-by-layer ReLU pass. |
| Network.Net.TotalNodes | modules/simple_gen_neural_net.py:249-251 | The node count is the sum of the layers' rows. |
| Network.ChainHasNodes | modules/simple_gen_neural_net.py:249-254 | A valid chain has at least one node, so `randint(total_nodes)` is defined. |
| Network.SumRowsByShape | modules/simple_gen_neural_net.py:249-251 | Networks of the same shapes have the same node count. |
| Network.Locate | modules/simple_gen_neural_net.py:254-260 | A node index names a (layer, row) that exists, and is that layer's offset plus the row. |
| Network.LocateUnique | modules/simple_gen_neural_net.py:254-260 | Every (layer, row) is named by exactly one node index. |
| Network.Net.FindNode | modules/simple_gen_neural_net.py:254-260 | The subtracting loop finds `Locate`'s (layer, row). |
| Network.Pick | modules/simple_gen_neural_net.py:254 | The drawn node index is below the node count. |
| Network.DeltaRange | modules/simple_gen_neural_net.py:257 | Every mutation increment lies in [-1, 1). |
| Network.MutateRound | modules/simple_gen_neural_net.py:255-258 | A mutation round keeps every layer's shape. |
| Network.MutateRoundEffect | modules/simple_gen_neural_net.py:255-258 | A mutation round moves each weight of the chosen row by an amount in [-1, 1), and leaves every other row as it was. |
| Network.Mutated | modules/simple_gen_neural_net.py:253-260 | Any number of mutation rounds keeps the shapes and the chain valid. |
| Network.MutatedStep | modules/simple_gen_neural_net.py:253-260 | Round t + 1 adds its noise vector to exactly the row that `pick` names. |
| Network.LocateByShape | modules/simple_gen_neural_net.py:249-256 | Networks of the same shapes have the same node count and map every node index to the same (layer, row). |
| Network.MutatedKeeps | modules/simple_gen_neural_net.py:253-260 | After `mutate(n)`, a row that none of the n rounds picked keeps its weights, so at most n rows change. |
| Network.Net.MutateOnce | modules/simple_gen_neural_net.py:254-260 | One loop pass performs the next mutation round in place. |
| Network.Net.Mutate | modules/simple_gen_neural_net.py:233-262 | `mutate(n)` returns the same object, whose layers have gone through max(n, 0) rounds over the original node count. |
| Network.Crossed | modules/simple_gen_neural_net.py:286-299 | A child has the first parent's shapes, and is a valid chain whenever that parent is. |
| Network.CrossLayers | modules/simple_gen_neural_net.py:283-298 | Crossover succeeds iff the parents have the same number of layers, equal shapes layer by layer, and no layer without rows. Each child row is parent 1's row when its coin is above 0.5, else parent 2's. |
| Network.Crossover | modules/simple_gen_neural_net.py:264-299 | `crossover` gives a fresh valid network under the same condition, with every row taken from the parent its coin names. |
| Ranking.Rank | modules/league.py:188-190 | The ranking is a permutation of the entry indices. |
| Ranking.RankOrder | modules/league.py:188-190 | The ranking has wins in decreasing order, and equal wins keep their original order (a stable sort). |
| Ranking.RankDistinct | modules/league.py:188-190 | No entry is ranked twice. |
| Ranking.RankedWins | modules/league.py:171-172 | The i-th ranked wins are the wins of the i-th ranked entry. |
| Ranking.RankedWinsSorted | modules/league.py:190 | Ranked wins never increase. |
| Ranking.GatherMeaning | modules/league.py:174-201 | The survivors number between n and nmax, and none has fewer wins than an agent left out. Those beyond the n-th tie with it. Below the cap, the first agent left out has strictly fewer wins. |
| Ranking.Gather | modules/league.py:188-201 | The loop takes ranked entries while `Keeps` allows. It fails with IndexError when n < 1 <= nmax, and with StopIteration when the list is empty or would be exhausted. |
| League.FreshRecords | modules/league.py:219 | k fresh standings, each with 0 wins and 0 losses. |
| League.PlayPairing | modules/league.py:156-162 | A pairing keeps the standings' length. |
| League.PairingCredits | modules/league.py:156-162 | An agent paired with itself changes nothing. Otherwise the credited agent gains one win, the other one loss, and every other record stays as it was. |
| League.PairingTotals | modules/league.py:156-162 | A played pairing adds exactly one win and one loss overall; an agent against itself adds nothing. |
| League.OutcomesDiffer | modules/league.py:117-124 | The season's credited result and the actual winner disagree exactly when the game ends on a winning piece that fills its column. |
| League.Season | modules/league.py:154-162 | A season prefix keeps the standings' length. |
| League.SeasonRest | modules/league.py:154-155 | Records of agents beyond the zipped length are untouched. |
| League.SeasonTotals | modules/league.py:154-162 | Total wins and total losses each grow by the number of pairings actually played. |
| League.DistinctPairings | modules/league.py:154-156 | Among distinct agents every ordered pair other than (a, a) is played. |
| League.SeasonPerAgent | modules/league.py:156-162 | Each game an agent plays adds one to its wins or to its losses. |
| League.FullSeason | modules/league.py:148-162 | In a full season among n distinct agents there are n (n - 1) games, and each agent plays 2 (n - 1) of them. Each agent's wins are the games credited to it as first mover plus those credited to it as second mover, and likewise for losses. |
| League.OpponentsOnce | modules/league.py:148-156 | Agent k meets each other agent once as first mover and once as second mover, and each of those games is either credited or charged to it. Together with `FullSeason`: each other agent twice. |
| League.SeasonRecord | modules/league.py:154-162 | Part-way through a season, each record has grown by exactly the games already played that were credited or charged to that agent. |
| League.League.Entries | modules/league.py:154 | `zip` stops at the shorter of population and standings. |
| League.League.PlayPair | modules/league.py:156-162 | One inner iteration updates the standings by `play_game`'s result as written, leaving the population alone. |
| League.League.PlayRow | modules/league.py:155-162 | The inner loop carries the season from row i to row i + 1. |
| League.League.PlaySeason | modules/league.py:148-162 | `play_season` leaves the standings equal to the full season among the zipped entries, scored by `play_game` as written, with the population unchanged. |
| League.RandomNet | modules/league.py:67 | A random agent shaped (42, 25, 7) can play: 42 inputs, at most 7 outputs. |
| League.RandomAgent | modules/league.py:95 | `from_random(*NET_STRUCT)` gives a fresh, valid, playing network with those weights. |
| League.League.GeneratePop | modules/league.py:88-96 | `generate_pop` appends 50 fresh random agents and 50 fresh records, keeping what was there. |
| League.League.Export | modules/league.py:82-86 | `export` lists each agent's export, in population order. |
| League.League.PopulateFromExport | modules/league.py:73-80 | Import succeeds iff every agent's lists import. Then the population is those agents with fresh standings. On failure nothing changes. |
| League.ExportRoundTrip | modules/league.py:73-86 | Importing a league's export gives back every agent's layers. |
| League.League.WinsList | modules/league.py:171-172 | The wins of each zipped entry. |
| League.League.GatherTop | modules/league.py:174-201 | `gather_top` returns the agents at the first ranked positions, as many as `Keeps` allows, with the same two error cases as `Ranking.Gather`. |
| League.League.GatherSurvivors | modules/league.py:174 | With the default bounds 5 and 10 the call keeps between 5 and 10 agents, none with fewer wins than an agent left out. It fails only when there are no entries or the ranking runs out before the bounds are met. |
| League.Offspring | modules/league.py:222-223 | A mutated crossover child is a valid chain of the first parent's shapes. |
| League.Breed | modules/league.py:221-223 | One child is made by crossover then `mutate(2)`. It succeeds iff the sampled parents are crossable. |
| League.Litter | modules/league.py:220-223 | The first n children form a list of n networks. |
| League.LitterStep | modules/league.py:220-223 | Child n is the mutated crossover of the pair sampled for it. |
| League.LitterChildren | modules/league.py:220-223 | Every child is the mutated crossover of its own sampled pair. |
| League.BreedNext | modules/league.py:220-223 | The next loop pass creates exactly the next child of the litter. |
| League.Brood | modules/league.py:220-223 | The loop fills up to 50 agents. It succeeds iff no child is needed, or there are at least two parents and every sampled pair is crossable. |
| League.League.RepopFrom | modules/league.py:203-223 | The population starts with the parents, in order, and every later agent is a fresh child of a sampled pair. On success there are 50 agents (or the parents alone when there are 50 or more), and the standings are 50 fresh records. |

## Left out

- `print_standings` and `__repr__` print text and are not modelled.
- `softmax` is left out of `FeedForward` and `ChooseMove`. It is a strictly monotone map under exact arithmetic, so the argmax it feeds is unchanged. Floating-point rounding and overflow in `np.exp` are not modelled.
- Weights are exact reals, not 64-bit floats.
- Random draws are oracle parameters. `np.random.randint(total_nodes)` is `pick(t, total) % total`. `random.sample(parents, 2)` is a given pair of distinct positions. Their distributions are not modelled.
- Matrices are immutable values inside a `Net`. The model does not capture numpy views: the in-place `relu`, or a mutation reaching a matrix shared between networks. `crossover` and `from_export` build new arrays, so no such sharing arises in the modelled operations.
- The constructor's error texts are not modelled. Its second check formats its message with `list.size`, which raises an AttributeError instead; either way the call fails, and the model reports an error.
- `choose_move` is modelled only for agents that are `Playable`. That leaves out a first layer whose width is not 42 inputs plus the bias, and a first layer with no rows, on both of which `feed_forward` raises. It also leaves out a last layer with more than seven nodes, whose argmax can name a column past 6.
- ConnectFour.Game.CanPlace: requires a column in 0..6. A negative column would index from the end in Python; `choose_move` never produces one.
- Network.RandomLayers: node counts are natural numbers. A negative count, on which `np.random.rand` raises, is not modelled; the same holds for `Network.FromRandom`.
- Network.RoundTrip: stated only for chains whose first layer has a row. `Network.RowlessFirstLayerLost` shows that the others do not survive `from_export`.
- League.League.PlaySeason: requires every zipped agent to be a valid, playing network, so that `choose_move` is defined.
- League.League.RepopFrom: takes one `Luck` record per child. With fewer than two parents the model reports the failure of `random.sample` as `Fail`, instead of raising.

## Findings

| source | as written | input that shows it | evidently intended | confidence | as-written member | corrected member |
|---|---|---|---|---|---|---|
| modules/league.py:117-124 | After the loop, `play_game` asks `can_place(move)` again, and hands the game to the other player when the column is full. | A winning piece that fills the top cell of its column. Player 1 drops into column 0 of `TopRowBoard` and completes rows 0 to 3, but the function returns -1. `Match.TopRowGameMisreported` shows the same for any game that reaches that board with agent 1 choosing column 0. | The mover wins on a completed line and loses only on choosing a full column. | not executed | Match.TopRowWinMisreported | Match.PlayGameCorrected |

The season (`League.League.PlaySeason` through `League.League.PlayPair`) scores
games as the code does, through `Match.PlayGame` and `League.Outcomes`. The
corrected result is `Match.Winner`, with `Match.PlayGameCorrected` and
`League.IntendedOutcomes`; `League.OutcomesDiffer` says on which games the two
disagree.
