/**
 * One agent's move choice and one game between two agents: the agent reads the
 * board from its own side, the network scores the seven columns, and the
 * highest-scoring column is played until a move wins or names a full column.
 */
module Match {
  import opened Failures
  import opened ConnectFour
  import opened Network

  /** A network that can play: the constructor's chain, a first layer with a row
      (`feed_forward` reads its width from row 0), 42 board inputs (plus the bias
      column) and no more output nodes than there are columns. */
  predicate Playable(ls: seq<Layer>) {
    ValidChain(ls) && ls[0].rows > 0 && ls[0].cols == Rows * Cols + 1 && ls[|ls| - 1].rows <= Cols
  }

  /** The board flattened row by row and multiplied by the player, so that the
      agent's own pieces read 1 and the opponent's -1. */
  function Flatten(g: Grid, p: int): (x: seq<real>)
    requires WellShaped(g)
    ensures |x| == Rows * Cols
  {
    seq(Rows * Cols, i requires 0 <= i < Rows * Cols => (g[i / Cols][i % Cols] * p) as real)
  }

  /** Entry r * 7 + c of the input is cell (r, c): 1.0 for a piece of the player,
      -1.0 for a piece of the opponent, 0.0 for an empty cell. */
  lemma FlattenPerspective(g: Grid, p: int, r: int, c: int)
    requires WellShaped(g) && Trits(g) && (p == 1 || p == -1) && InBounds(r, c)
    ensures 0 <= r * Cols + c < Rows * Cols
    ensures Flatten(g, p)[r * Cols + c] == 1.0 <==> g[r][c] == p
    ensures Flatten(g, p)[r * Cols + c] == -1.0 <==> g[r][c] == -p
    ensures Flatten(g, p)[r * Cols + c] == 0.0 <==> g[r][c] == 0
  {
    var i := r * Cols + c;
    assert i / Cols == r && i % Cols == c;
  }

  /** The index of the first largest entry, as `np.argmax` chooses it. */
  function ArgMax(v: seq<real>): (m: nat)
    requires |v| > 0
    ensures m < |v|
    ensures forall j :: 0 <= j < |v| ==> v[j] <= v[m]
    ensures forall j :: 0 <= j < m ==> v[j] < v[m]
  {
    if |v| == 1 then 0
    else
      var m := ArgMax(v[..|v| - 1]);
      if v[|v| - 1] > v[m] then |v| - 1 else m
  }

  /** The column the agent with layers `ls` chooses for player `p` on board `g`:
      the largest output of the forward pass. The final softmax of the network is
      strictly increasing in each entry, so it does not move the largest entry. */
  function Choice(ls: seq<Layer>, g: Grid, p: int): (m: int)
    requires Playable(ls) && WellShaped(g)
    ensures 0 <= m < Cols
  {
    ChainFeeds(ls);
    assert Links(ls, |ls| - 1);
    ForwardShape(ls, Flatten(g, p));
    ArgMax(Forward(ls, Flatten(g, p)))
  }

  /** `choose_move`: feeds the agent's view of the board through the network and
      takes the first largest output. */
  method ChooseMove(agent: Net, g: Grid, p: int) returns (move: int)
    requires agent.Valid() && Playable(agent.layers) && WellShaped(g)
    ensures move == Choice(agent.layers, g, p)
  {
    var input := Flatten(g, p);
    var output := agent.FeedForward(input);
    ForwardShape(agent.layers, input);
    assert Links(agent.layers, |agent.layers| - 1);
    move := ArgMax(output.value);
  }

  /** How a game stops: the board, the player who moved last, that player's column,
      the row the piece landed on, and whether it won. */
  datatype GameEnd = GameEnd(board: Grid, player: int, move: int, row: int, won: bool)

  /** A well-formed position: a 6 x 7 board of trits under gravity. */
  predicate Position(g: Grid) {
    WellShaped(g) && Trits(g) && Gravity(g)
  }

  /** The game from board `g` with player `p` to move, agent `l1` playing 1 and
      agent `l2` playing -1: the turns from `g` on, until one ends the game. */
  function PlayFrom(l1: seq<Layer>, l2: seq<Layer>, g: Grid, p: int): (e: GameEnd)
    requires Playable(l1) && Playable(l2) && Position(g) && (p == 1 || p == -1)
    ensures WellShaped(e.board) && 0 <= e.move < Cols
    decreases EmptyCount(g), 1
  {
    NextTurn(l1, l2, g, p)
  }

  /** One turn and the rest of the game: the mover chooses a column; a full column
      ends the game, otherwise the piece is dropped, and a win ends the game while
      any other move passes the turn. */
  function NextTurn(l1: seq<Layer>, l2: seq<Layer>, g: Grid, p: int): (e: GameEnd)
    requires Playable(l1) && Playable(l2) && Position(g) && (p == 1 || p == -1)
    ensures WellShaped(e.board) && 0 <= e.move < Cols
    decreases EmptyCount(g), 0
  {
    var move := Choice(if p == 1 then l1 else l2, g, p);
    if !Open(g, move) then GameEnd(g, p, move, -1, false)
    else
      DropFacts(g, move, p);
      var g' := Drop(g, move, p);
      var row := Landing(g, move);
      if WinAt(g', row, move, p) then GameEnd(g', p, move, row, true)
      else PlayFrom(l1, l2, g', -p)
  }

  /** Every game ends in a position, with a player to blame or credit: either that
      player's last column was full, or that player's last piece, on the board at
      (row, move), is one of four in a line. */
  lemma {:induction false} GameEnds(l1: seq<Layer>, l2: seq<Layer>, g: Grid, p: int)
    requires Playable(l1) && Playable(l2) && Position(g) && (p == 1 || p == -1)
    ensures var e := PlayFrom(l1, l2, g, p);
      && Position(e.board) && (e.player == 1 || e.player == -1) && 0 <= e.move < Cols
      && (!e.won ==> !Open(e.board, e.move))
      && (e.won ==> CellIs(e.board, e.row, e.move, e.player) && FourInLine(e.board, e.row, e.move, e.player))
    decreases EmptyCount(g)
  {
    assert PlayFrom(l1, l2, g, p) == NextTurn(l1, l2, g, p);
    var move := Choice(if p == 1 then l1 else l2, g, p);
    if Open(g, move) {
      DropFacts(g, move, p);
      var g' := Drop(g, move, p);
      var row := Landing(g, move);
      if WinAt(g', row, move, p) {
        WinIsFourInLine(g', row, move, p);
      } else {
        GameEnds(l1, l2, g', -p);
      }
    }
  }

  /** The result `play_game` reports: after the loop it asks again whether the
      last column can take a piece and, if it cannot, hands the game to the other
      player. */
  function SettleAsWritten(e: GameEnd): (w: int)
    requires WellShaped(e.board) && 0 <= e.move < Cols
    ensures w == e.player || w == -e.player
    ensures e.player != 0 ==> (w == e.player <==> Open(e.board, e.move))
  {
    if !Open(e.board, e.move) then -e.player else e.player
  }

  /** The evidently intended result: the player who completed a line wins; the
      player who chose a full column loses. */
  function Settle(e: GameEnd): int {
    if e.won then e.player else -e.player
  }

  /** The two settlements differ exactly on a winning piece that fills the top
      cell of its column. */
  lemma SettleDiffers(e: GameEnd)
    requires WellShaped(e.board) && 0 <= e.move < Cols && e.player != 0
    requires !e.won ==> !Open(e.board, e.move)
    ensures SettleAsWritten(e) != Settle(e) <==> e.won && !Open(e.board, e.move)
  {
  }

  /** The board after player 1 (four pieces) and player -1 (four pieces) have
      played columns 0, 0, 0, 1, 0, 2, 0, 3: column 0 holds, bottom up, 1, -1, 1,
      1, 1 and row 5 holds -1 in columns 1 to 3. Player 1 is to move. */
  function TopRowBoard(): (g: Grid)
    ensures Position(g)
  {
    [ [0, 0, 0, 0, 0, 0, 0],
      [1, 0, 0, 0, 0, 0, 0],
      [1, 0, 0, 0, 0, 0, 0],
      [1, 0, 0, 0, 0, 0, 0],
      [-1, 0, 0, 0, 0, 0, 0],
      [1, -1, -1, -1, 0, 0, 0] ]
  }

  /** Player 1 dropping into column 0 lands on row 0 and completes rows 0 to 3 of
      the column: a win that leaves the column full, which the as-written result
      hands to player -1. */
  lemma TopRowWinMisreported()
    ensures var g := TopRowBoard();
      Open(g, 0) && Landing(g, 0) == 0
      && var e := GameEnd(Drop(g, 0, 1), 1, 0, 0, true);
      && WinAt(e.board, 0, 0, 1)
      && SettleAsWritten(e) == -1 && Settle(e) == 1
  {
    var g := TopRowBoard();
    LandingRow(g, 0);
    assert Landing(g, 0) == 0 by {
      assert g[1][0] != 0;
    }
    var g' := Drop(g, 0, 1);
    assert g' == g[0 := g[0][0 := 1]];
    assert g'[0][0] == 1 && g'[1][0] == 1 && g'[2][0] == 1 && g'[3][0] == 1 && g'[4][0] == -1;
    assert Run(g', 1, 0, 1, 4, 0) == 0;
    assert Run(g', 1, 0, 1, 3, 0) == 1;
    assert Run(g', 1, 0, 1, 2, 0) == 2;
    assert Run(g', 1, 0, 1, 1, 0) == 3;
    assert Run(g', 1, 0, 1, 0, 0) == 4;
    assert Run(g', -1, 0, 1, -1, 0) == 0;
    assert Run(g', -1, 0, 1, 0, 0) == 1;
    assert AxisCount(g', 0, 0, 0, 1) == 4;
  }

  /** The same position inside a game: whenever agent 1 picks column 0 on
      `TopRowBoard`, the game it is playing ends on that winning move, and the
      as-written result credits the other agent. */
  lemma TopRowGameMisreported(l1: seq<Layer>, l2: seq<Layer>)
    requires Playable(l1) && Playable(l2) && Choice(l1, TopRowBoard(), 1) == 0
    ensures var e := PlayFrom(l1, l2, TopRowBoard(), 1);
      e.won && SettleAsWritten(e) == -1 && Settle(e) == 1
  {
    TopRowWinMisreported();
    assert PlayFrom(l1, l2, TopRowBoard(), 1) == NextTurn(l1, l2, TopRowBoard(), 1);
  }

  /** The result `play_game` reports under the as-written settlement: 1 or -1. */
  function Credited(l1: seq<Layer>, l2: seq<Layer>): (w: int)
    requires Playable(l1) && Playable(l2)
    ensures w == 1 || w == -1
  {
    GameEnds(l1, l2, EmptyGrid(), 1);
    SettleAsWritten(PlayFrom(l1, l2, EmptyGrid(), 1))
  }

  /** The winner under the intended settlement. */
  function Winner(l1: seq<Layer>, l2: seq<Layer>): (w: int)
    requires Playable(l1) && Playable(l2)
    ensures w == 1 || w == -1
  {
    GameEnds(l1, l2, EmptyGrid(), 1);
    Settle(PlayFrom(l1, l2, EmptyGrid(), 1))
  }

  /** Agent 1 wins exactly when it completes a line of four or agent 2 chooses a
      full column; symmetrically for agent 2. */
  lemma WinnerMeans(l1: seq<Layer>, l2: seq<Layer>)
    requires Playable(l1) && Playable(l2)
    ensures var e := PlayFrom(l1, l2, EmptyGrid(), 1);
      Winner(l1, l2) == 1 <==>
        (e.won && e.player == 1 && FourInLine(e.board, e.row, e.move, 1))
        || (!e.won && e.player == -1 && !Open(e.board, e.move))
  {
    GameEnds(l1, l2, EmptyGrid(), 1);
  }

  /** One turn against the game's definition: a turn that places a piece without
      winning leaves a position from which the same game continues, with one
      empty cell fewer; any other turn is the end of the game. */
  lemma PlayFromStep(l1: seq<Layer>, l2: seq<Layer>, g: Grid, p: int, move: int, won: bool, g': Grid, p': int)
    requires Playable(l1) && Playable(l2) && Position(g) && (p == 1 || p == -1)
    requires move == Choice(if p == 1 then l1 else l2, g, p)
    requires Open(g, move) ==>
      g' == Drop(g, move, p) && won == WinAt(g', Landing(g, move), move, p) && p' == (if won then p else -p)
    requires !Open(g, move) ==> !won && g' == g && p' == p
    ensures Position(g') && (p' == 1 || p' == -1)
    ensures Open(g, move) && !won ==> PlayFrom(l1, l2, g', p') == PlayFrom(l1, l2, g, p)
    ensures !(Open(g, move) && !won) ==> var e := PlayFrom(l1, l2, g, p);
      g' == e.board && p' == e.player && move == e.move && won == e.won
    ensures Open(g, move) ==> EmptyCount(g') < EmptyCount(g)
  {
    assert PlayFrom(l1, l2, g, p) == NextTurn(l1, l2, g, p);
    if Open(g, move) {
      DropFacts(g, move, p);
    }
  }

  /** Whose turn it is in a game, as the network that plays it. */
  function Mover(game: Game, agent1: Net, agent2: Net): Net
    reads game
  {
    if game.currentPlayer == 1 then agent1 else agent2
  }

  /** One pass of `play_game`'s loop: the mover chooses a column and, when the
      column can take a piece, plays it. */
  method TakeTurn(game: Game, agent1: Net, agent2: Net) returns (move: int, placeable: bool, won: bool)
    requires game.Valid()
    requires agent1.Valid() && Playable(agent1.layers) && agent2.Valid() && Playable(agent2.layers)
    modifies game, game.board
    ensures game.Valid() && game.board == old(game.board)
    ensures move == Choice(if old(game.currentPlayer) == 1 then agent1.layers else agent2.layers, old(game.Grid()), old(game.currentPlayer))
    ensures placeable == Open(old(game.Grid()), move)
    ensures placeable ==> game.Grid() == Drop(old(game.Grid()), move, old(game.currentPlayer))
    ensures placeable ==> won == WinAt(game.Grid(), Landing(old(game.Grid()), move), move, old(game.currentPlayer))
    ensures placeable ==> game.currentPlayer == if won then old(game.currentPlayer) else -old(game.currentPlayer)
    ensures !placeable ==> !won && game.Grid() == old(game.Grid()) && game.currentPlayer == old(game.currentPlayer)
  {
    move := ChooseMove(Mover(game, agent1, agent2), game.Grid(), game.currentPlayer);
    placeable := game.CanPlace(move);
    won := false;
    if placeable {
      won := game.CheckWinWith(move);
    }
  }

  /** One turn taken from a position whose game ends in `e`: either the game
      goes on towards `e` from a position with fewer empty cells, or the turn
      ended it and the state is `e`. */
  method Turn(game: Game, agent1: Net, agent2: Net, ghost e: GameEnd) returns (move: int, placeable: bool, won: bool)
    requires game.Valid() && Position(game.Grid())
    requires agent1.Valid() && Playable(agent1.layers) && agent2.Valid() && Playable(agent2.layers)
    requires PlayFrom(agent1.layers, agent2.layers, game.Grid(), game.currentPlayer) == e
    modifies game, game.board
    ensures game.Valid() && game.board == old(game.board) && Position(game.Grid())
    ensures EmptyCount(game.Grid()) + (if placeable && !won then 1 else 0) <= old(EmptyCount(game.Grid()))
    ensures placeable && !won ==> PlayFrom(agent1.layers, agent2.layers, game.Grid(), game.currentPlayer) == e
    ensures !(placeable && !won) ==>
      game.Grid() == e.board && game.currentPlayer == e.player && move == e.move && won == e.won
  {
    ghost var g, p := game.Grid(), game.currentPlayer;
    move, placeable, won := TakeTurn(game, agent1, agent2);
    PlayFromStep(agent1.layers, agent2.layers, g, p, move, won, game.Grid(), game.currentPlayer);
  }

  /** `play_game`'s loop from a game in progress: turns are taken until a move
      cannot be placed or wins. The state it stops in is the end of the game
      defined from the position it started in. */
  method PlayOut(game: Game, agent1: Net, agent2: Net) returns (move: int, won: bool)
    requires game.Valid() && Position(game.Grid())
    requires agent1.Valid() && Playable(agent1.layers) && agent2.Valid() && Playable(agent2.layers)
    modifies game, game.board
    ensures game.Valid() && game.board == old(game.board)
    ensures var e := PlayFrom(agent1.layers, agent2.layers, old(game.Grid()), old(game.currentPlayer));
      game.Grid() == e.board && game.currentPlayer == e.player && move == e.move && won == e.won
  {
    ghost var e := PlayFrom(agent1.layers, agent2.layers, game.Grid(), game.currentPlayer);
    var placeable;
    move, placeable, won := Turn(game, agent1, agent2, e);
    while placeable && !won
      invariant game.Valid() && game.board == old(game.board) && Position(game.Grid())
      invariant placeable && !won ==> PlayFrom(agent1.layers, agent2.layers, game.Grid(), game.currentPlayer) == e
      invariant !(placeable && !won) ==>
        game.Grid() == e.board && game.currentPlayer == e.player && move == e.move && won == e.won
      decreases EmptyCount(game.Grid()) + (if placeable && !won then 1 else 0)
    {
      move, placeable, won := Turn(game, agent1, agent2, e);
    }
  }

  /** A new game played out between the two agents, agent 1 moving first. */
  method RunGame(agent1: Net, agent2: Net) returns (game: Game, move: int, won: bool)
    requires agent1.Valid() && Playable(agent1.layers) && agent2.Valid() && Playable(agent2.layers)
    ensures fresh(game) && game.Valid()
    ensures var e := PlayFrom(agent1.layers, agent2.layers, EmptyGrid(), 1);
      game.Grid() == e.board && game.currentPlayer == e.player && move == e.move && won == e.won
  {
    game := new Game();
    move, won := PlayOut(game, agent1, agent2);
  }

  /** `play_game` as written: after the loop the last column is checked again, and
      a column that cannot take a piece passes the game to the other player, even
      when the last piece won and filled it. */
  method PlayGame(agent1: Net, agent2: Net) returns (winner: int)
    requires agent1.Valid() && Playable(agent1.layers) && agent2.Valid() && Playable(agent2.layers)
    ensures winner == Credited(agent1.layers, agent2.layers)
  {
    var game, move, won := RunGame(agent1, agent2);
    var placeable := game.CanPlace(move);
    if !placeable {
      game.currentPlayer := -game.currentPlayer;
    }
    winner := game.currentPlayer;
  }

  /** `play_game` settled on the loop's own outcome: the mover keeps the game on a
      win and loses it on a full column. */
  method PlayGameCorrected(agent1: Net, agent2: Net) returns (winner: int)
    requires agent1.Valid() && Playable(agent1.layers) && agent2.Valid() && Playable(agent2.layers)
    ensures winner == Winner(agent1.layers, agent2.layers)
  {
    var game, move, won := RunGame(agent1, agent2);
    winner := if won then game.currentPlayer else -game.currentPlayer;
  }
}
