/**
 * The Connect-Four arbiter: a 6 x 7 board of trits, whose turn it is,
 * dropping a piece into a column and deciding whether that piece wins.
 *
 * Row 0 is the top of the board and row 5 the bottom; pieces fall towards
 * the bottom. 0 is an empty cell, 1 a piece of the first player and -1 a
 * piece of the second player.
 */
module ConnectFour {

  const Rows: int := 6
  const Cols: int := 7

  /** The four search axes: vertical, anti-diagonal, horizontal, diagonal. */
  const SearchPairs: seq<(int, int)> := [(-1, 0), (-1, 1), (0, 1), (1, 1)]

  /** A snapshot of the board, row by row. */
  type Grid = seq<seq<int>>

  predicate WellShaped(g: Grid) {
    |g| == Rows && forall r :: 0 <= r < Rows ==> |g[r]| == Cols
  }

  predicate InBounds(r: int, c: int) {
    0 <= r < Rows && 0 <= c < Cols
  }

  /** Every cell holds -1, 0 or 1. */
  predicate Trits(g: Grid)
    requires WellShaped(g)
  {
    forall r, c :: 0 <= r < Rows && 0 <= c < Cols ==> -1 <= g[r][c] <= 1
  }

  /** Gravity: in every column, the cells below an occupied cell are occupied. */
  predicate Gravity(g: Grid)
    requires WellShaped(g)
  {
    forall r1, r2, c :: 0 <= r1 <= r2 < Rows && 0 <= c < Cols && g[r1][c] != 0 ==> g[r2][c] != 0
  }

  function EmptyGrid(): (g: Grid)
    ensures WellShaped(g) && Trits(g) && Gravity(g)
  {
    seq(Rows, r => seq(Cols, c => 0))
  }

  /** A piece can go into column `col` when the top cell of that column is empty. */
  predicate Open(g: Grid, col: int)
    requires WellShaped(g) && 0 <= col < Cols
  {
    g[0][col] == 0
  }

  /** Where a piece dropped at (row, col) comes to rest: the row just above the first
      occupied cell or the board's edge, searching downwards from `row`. */
  function Fall(g: Grid, row: int, col: int): (landed: int)
    requires WellShaped(g)
    ensures row - 1 <= landed
    ensures InBounds(row, col) ==> landed < Rows
    ensures landed >= row ==> InBounds(row, col) && g[row][col] == 0
    decreases Rows - row
  {
    if !InBounds(row, col) then row - 1
    else if g[row][col] == 0 then Fall(g, row + 1, col)
    else row - 1
  }

  function Landing(g: Grid, col: int): int
    requires WellShaped(g)
  {
    Fall(g, 0, col)
  }

  lemma {:induction false} FallFrom(g: Grid, row: int, col: int)
    requires WellShaped(g) && 0 <= row <= Rows && 0 <= col < Cols
    ensures row - 1 <= Fall(g, row, col) < Rows
    ensures forall r :: row <= r <= Fall(g, row, col) ==> g[r][col] == 0
    ensures Fall(g, row, col) == Rows - 1 || g[Fall(g, row, col) + 1][col] != 0
    decreases Rows - row
  {
    if row < Rows && g[row][col] == 0 {
      FallFrom(g, row + 1, col);
    }
  }

  /** A piece dropped into an open column lands on the lowest empty cell: every cell
      from the top down to it is empty and the cell below it is occupied or off the
      board. Dropped into a full column it "lands" on row -1. */
  lemma LandingRow(g: Grid, col: int)
    requires WellShaped(g) && 0 <= col < Cols
    ensures Open(g, col) ==> 0 <= Landing(g, col) < Rows
    ensures Open(g, col) ==> forall r :: 0 <= r <= Landing(g, col) ==> g[r][col] == 0
    ensures Open(g, col) ==> Landing(g, col) == Rows - 1 || g[Landing(g, col) + 1][col] != 0
    ensures !Open(g, col) ==> Landing(g, col) == -1
  {
    FallFrom(g, 0, col);
  }

  /** The board after the current player's piece `p` is dropped into open column `col`. */
  function Drop(g: Grid, col: int, p: int): (g': Grid)
    requires WellShaped(g) && 0 <= col < Cols && Open(g, col)
    ensures WellShaped(g')
  {
    LandingRow(g, col);
    var r := Landing(g, col);
    g[r := g[r][col := p]]
  }

  /** The board after a piece `p` is played into column `col`. In an open column
      it is dropped. In a full column the landing row is -1, which as a list index
      names the bottom row, so the bottom cell of the column is overwritten. */
  function Place(g: Grid, col: int, p: int): (g': Grid)
    requires WellShaped(g) && 0 <= col < Cols
    ensures WellShaped(g')
    ensures Open(g, col) ==> g' == Drop(g, col, p)
    ensures !Open(g, col) ==> forall r, c :: 0 <= r < Rows && 0 <= c < Cols ==>
      g'[r][c] == if r == Rows - 1 && c == col then p else g[r][c]
  {
    if Open(g, col) then Drop(g, col, p) else g[Rows - 1 := g[Rows - 1][col := p]]
  }

  /** Place writes `p` into one cell of column `col`: the landing cell, or for a
      full column the cell that landing row -1 names as a list index. */
  lemma PlaceCell(g: Grid, col: int, p: int)
    requires WellShaped(g) && 0 <= col < Cols
    ensures var l := Landing(g, col); var t := if l < 0 then Rows + l else l;
      0 <= t < Rows && Place(g, col, p) == g[t := g[t][col := p]]
  {
    LandingRow(g, col);
  }

  /** No line passes through a cell off the board. */
  lemma NoWinOffBoard(g: Grid, r: int, c: int, p: int)
    requires WellShaped(g) && !InBounds(r, c)
    ensures !WinAt(g, r, c, p)
  {
  }

  /** Dropping changes exactly one cell, the landing cell of column `col`, to `p`;
      it keeps gravity and the trit range, and it fills one empty cell. */
  lemma DropFacts(g: Grid, col: int, p: int)
    requires WellShaped(g) && 0 <= col < Cols && Open(g, col) && p != 0
    ensures 0 <= Landing(g, col) < Rows
    ensures forall r, c :: 0 <= r < Rows && 0 <= c < Cols ==>
      Drop(g, col, p)[r][c] == if r == Landing(g, col) && c == col then p else g[r][c]
    ensures Gravity(g) ==> Gravity(Drop(g, col, p))
    ensures Trits(g) && -1 <= p <= 1 ==> Trits(Drop(g, col, p))
    ensures EmptyCount(Drop(g, col, p)) == EmptyCount(g) - 1
  {
    LandingRow(g, col);
    var L := Landing(g, col);
    var g' := Drop(g, col, p);
    if Gravity(g) {
      forall r1, r2, c | 0 <= r1 <= r2 < Rows && 0 <= c < Cols && g'[r1][c] != 0
        ensures g'[r2][c] != 0
      {
        if c == col && r1 == L && r2 > L {
          assert g[L + 1][col] != 0;
        }
      }
    }
    ZerosUpdate(g[L], col, p);
    SumZerosUpdate(g, L, g[L][col := p]);
  }

  /** The number of empty cells of one row. */
  function Zeros(s: seq<int>): (n: nat)
    ensures n <= |s|
  {
    if s == [] then 0 else (if s[0] == 0 then 1 else 0) + Zeros(s[1..])
  }

  lemma {:induction false} ZerosUpdate(s: seq<int>, i: int, v: int)
    requires 0 <= i < |s| && s[i] == 0 && v != 0
    ensures Zeros(s[i := v]) == Zeros(s) - 1
  {
    if i > 0 {
      assert s[i := v][1..] == s[1..][i - 1 := v];
      ZerosUpdate(s[1..], i - 1, v);
    }
  }

  function SumZeros(g: Grid): nat {
    if g == [] then 0 else Zeros(g[0]) + SumZeros(g[1..])
  }

  lemma {:induction false} SumZerosUpdate(g: Grid, i: int, row: seq<int>)
    requires 0 <= i < |g|
    ensures SumZeros(g[i := row]) == SumZeros(g) - Zeros(g[i]) + Zeros(row)
  {
    if i > 0 {
      assert g[i := row][1..] == g[1..][i - 1 := row];
      SumZerosUpdate(g[1..], i - 1, row);
    }
  }

  /** The number of empty cells on the board. */
  function EmptyCount(g: Grid): nat {
    SumZeros(g)
  }

  lemma {:induction false} SumZerosBound(g: Grid, width: int)
    requires forall r :: 0 <= r < |g| ==> |g[r]| == width
    ensures SumZeros(g) <= |g| * width
  {
    if g != [] {
      SumZerosBound(g[1..], width);
    }
  }

  lemma {:induction false} SumZerosPositive(g: Grid, i: int, j: int)
    requires 0 <= i < |g| && 0 <= j < |g[i]| && g[i][j] == 0
    ensures SumZeros(g) >= 1
  {
    if i == 0 {
      ZerosPositive(g[0], j);
    } else {
      SumZerosPositive(g[1..], i - 1, j);
    }
  }

  lemma {:induction false} ZerosPositive(s: seq<int>, j: int)
    requires 0 <= j < |s| && s[j] == 0
    ensures Zeros(s) >= 1
  {
    if j > 0 {
      ZerosPositive(s[1..], j - 1);
    }
  }

  /** A board has at most 42 empty cells, and while some column is open it has at
      least one; since every placement fills one of them, a game places at most 42
      pieces before no column is open. */
  lemma EmptyCountBounds(g: Grid)
    requires WellShaped(g)
    ensures EmptyCount(g) <= Rows * Cols
    ensures (exists col :: 0 <= col < Cols && Open(g, col)) ==> EmptyCount(g) >= 1
  {
    SumZerosBound(g, Cols);
    if exists col :: 0 <= col < Cols && Open(g, col) {
      var col :| 0 <= col < Cols && Open(g, col);
      SumZerosPositive(g, 0, col);
    }
  }

  /** Under gravity, the top cell of a column is empty exactly when some cell of
      the column is empty. */
  lemma OpenIffRoom(g: Grid, col: int)
    requires WellShaped(g) && Gravity(g) && 0 <= col < Cols
    ensures Open(g, col) <==> exists r :: 0 <= r < Rows && g[r][col] == 0
  {
    if exists r :: 0 <= r < Rows && g[r][col] == 0 {
      var r :| 0 <= r < Rows && g[r][col] == 0;
      assert g[0][col] == 0;
    }
  }

  /** (dr, dc) is one of the eight unit steps. */
  predicate IsDir(dr: int, dc: int) {
    -1 <= dr <= 1 && -1 <= dc <= 1 && (dr != 0 || dc != 0)
  }

  /** x moved k steps in direction d, where d is -1, 0 or 1 (multiplication-free). */
  function Off(x: int, d: int, k: int): int {
    if d > 0 then x + k else if d < 0 then x - k else x
  }

  lemma OffStep(x: int, d: int, i: int)
    requires -1 <= d <= 1
    ensures Off(x + d, d, i - 1) == Off(x, d, i)
  {
  }

  /** How many steps in direction (dr, dc) stay on the board from (r, c). */
  function Reach(dr: int, dc: int, r: int, c: int): int {
    if dr > 0 then Rows - r else if dr < 0 then r + 1 else if dc > 0 then Cols - c else c + 1
  }

  /** The number of consecutive cells holding `p`, starting at (r, c) and stepping
      by (dr, dc), up to the first other cell or the board's edge. */
  function Run(g: Grid, dr: int, dc: int, p: int, r: int, c: int): (n: nat)
    requires WellShaped(g) && IsDir(dr, dc)
    ensures n > 0 ==> CellIs(g, r, c, p)
    decreases Reach(dr, dc, r, c)
  {
    if !InBounds(r, c) then 0
    else if g[r][c] == p then 1 + Run(g, dr, dc, p, r + dr, c + dc)
    else 0
  }

  predicate CellIs(g: Grid, r: int, c: int, p: int)
    requires WellShaped(g)
  {
    InBounds(r, c) && g[r][c] == p
  }

  /** Run counts exactly: the first Run(...) cells along the direction hold `p` and
      are on the board, and the next one does not or is off the board. */
  lemma {:induction false} RunExact(g: Grid, dr: int, dc: int, p: int, r: int, c: int)
    requires WellShaped(g) && IsDir(dr, dc)
    ensures forall i :: 0 <= i < Run(g, dr, dc, p, r, c) ==> CellIs(g, Off(r, dr, i), Off(c, dc, i), p)
    ensures !CellIs(g, Off(r, dr, Run(g, dr, dc, p, r, c)), Off(c, dc, Run(g, dr, dc, p, r, c)), p)
    decreases Reach(dr, dc, r, c)
  {
    if InBounds(r, c) && g[r][c] == p {
      RunExact(g, dr, dc, p, r + dr, c + dc);
      var n := Run(g, dr, dc, p, r, c);
      forall i | 0 <= i < n
        ensures CellIs(g, Off(r, dr, i), Off(c, dc, i), p)
      {
        if i > 0 {
          OffStep(r, dr, i);
          OffStep(c, dc, i);
        }
      }
      OffStep(r, dr, n);
      OffStep(c, dc, n);
    }
  }

  function Axis(k: int): (d: (int, int))
    requires 0 <= k < |SearchPairs|
    ensures IsDir(d.0, d.1) && IsDir(-d.0, -d.1)
  {
    SearchPairs[k]
  }

  /** The length of the line of `p` pieces through (r, c) along axis k: the forward
      count plus the backward count, less the cell (r, c) counted twice. */
  function AxisCount(g: Grid, k: int, r: int, c: int, p: int): int
    requires WellShaped(g) && 0 <= k < |SearchPairs|
  {
    Run(g, Axis(k).0, Axis(k).1, p, r, c) + Run(g, -Axis(k).0, -Axis(k).1, p, r, c) - 1
  }

  /** The arbiter's win test for the piece of `p` at (r, c). */
  predicate WinAt(g: Grid, r: int, c: int, p: int): (won: bool)
    requires WellShaped(g)
    ensures won ==> InBounds(r, c) && g[r][c] == p
  {
    exists k :: 0 <= k < |SearchPairs| && AxisCount(g, k, r, c, p) >= 4
  }

  /** The independent definition of a win: four cells in a straight line, one of
      them (r, c), all holding `p`. The window runs from s cells behind (r, c) to
      3 - s cells ahead of it. */
  predicate FourInLine(g: Grid, r: int, c: int, p: int)
    requires WellShaped(g)
  {
    exists k, s :: 0 <= k < |SearchPairs| && 0 <= s <= 3 && Window(g, k, s, r, c, p)
  }

  predicate Window(g: Grid, k: int, s: int, r: int, c: int, p: int)
    requires WellShaped(g) && 0 <= k < |SearchPairs|
  {
    forall o :: -s <= o < 4 - s ==> CellIs(g, Off(r, Axis(k).0, o), Off(c, Axis(k).1, o), p)
  }

  lemma OffNeg(x: int, d: int, i: int)
    ensures Off(x, -d, i) == Off(x, d, -i)
  {
  }

  /** The arbiter's counting test is exact: a placed piece wins iff it lies in some
      line of four cells of its owner along one of the four axes. */
  lemma WinIsFourInLine(g: Grid, r: int, c: int, p: int)
    requires WellShaped(g) && CellIs(g, r, c, p)
    ensures WinAt(g, r, c, p) <==> FourInLine(g, r, c, p)
  {
    if WinAt(g, r, c, p) {
      var k :| 0 <= k < |SearchPairs| && AxisCount(g, k, r, c, p) >= 4;
      var s := WindowFromCount(g, k, r, c, p);
    }
    if FourInLine(g, r, c, p) {
      var k, s :| 0 <= k < |SearchPairs| && 0 <= s <= 3 && Window(g, k, s, r, c, p);
      CountFromWindow(g, k, s, r, c, p);
    }
  }

  lemma WindowFromCount(g: Grid, k: int, r: int, c: int, p: int) returns (s: int)
    requires WellShaped(g) && 0 <= k < |SearchPairs| && AxisCount(g, k, r, c, p) >= 4
    ensures 0 <= s <= 3 && Window(g, k, s, r, c, p)
  {
    var (dr, dc) := Axis(k);
    var f := Run(g, dr, dc, p, r, c);
    var b := Run(g, -dr, -dc, p, r, c);
    RunExact(g, dr, dc, p, r, c);
    RunExact(g, -dr, -dc, p, r, c);
    s := if b - 1 < 3 then b - 1 else 3;
    forall o | -s <= o < 4 - s
      ensures CellIs(g, Off(r, dr, o), Off(c, dc, o), p)
    {
      if o >= 0 {
        assert o < f;
      } else {
        assert -o < b;
        OffNeg(r, dr, -o);
        OffNeg(c, dc, -o);
      }
    }
  }

  lemma CountFromWindow(g: Grid, k: int, s: int, r: int, c: int, p: int)
    requires WellShaped(g) && 0 <= k < |SearchPairs| && 0 <= s <= 3 && Window(g, k, s, r, c, p)
    ensures AxisCount(g, k, r, c, p) >= 4
  {
    var (dr, dc) := Axis(k);
    var f := Run(g, dr, dc, p, r, c);
    var b := Run(g, -dr, -dc, p, r, c);
    RunExact(g, dr, dc, p, r, c);
    RunExact(g, -dr, -dc, p, r, c);
    OffNeg(r, dr, b);
    OffNeg(c, dc, b);
    assert f >= 4 - s;
    assert b >= s + 1;
  }

  /** The first n rows of `b`, as values. */
  function RowsOf(b: array2<int>, n: nat): (g: Grid)
    requires n <= b.Length0
    reads b
    ensures |g| == n && forall r :: 0 <= r < n ==> |g[r]| == b.Length1
    ensures forall r, c :: 0 <= r < n && 0 <= c < b.Length1 ==> g[r][c] == b[r, c]
  {
    if n == 0 then []
    else RowsOf(b, n - 1) + [seq(b.Length1, c reads b requires 0 <= c < b.Length1 => b[n - 1, c])]
  }

  /** One game of Connect-Four in progress. */
  class Game {
    var board: array2<int>
    var currentPlayer: int

    ghost predicate Valid()
      reads this
    {
      board.Length0 == Rows && board.Length1 == Cols && (currentPlayer == 1 || currentPlayer == -1)
    }

    /** The board as a value. */
    function Grid(): (g: Grid)
      reads this`board, board
      ensures |g| == board.Length0
      ensures forall r :: 0 <= r < |g| ==> |g[r]| == board.Length1
      ensures forall r, c :: 0 <= r < board.Length0 && 0 <= c < board.Length1 ==> g[r][c] == board[r, c]
    {
      RowsOf(board, board.Length0)
    }

    /** A new game: an empty 6 x 7 board, and the first player to move. */
    constructor ()
      ensures Valid() && fresh(board)
      ensures Grid() == EmptyGrid() && currentPlayer == 1
    {
      board := new int[Rows, Cols]((r, c) => 0);
      currentPlayer := 1;
      new;
      assert forall r | 0 <= r < Rows :: Grid()[r] == EmptyGrid()[r];
    }

    /** Whether a piece can be dropped into column `move`; nothing changes. */
    method CanPlace(move: int) returns (ok: bool)
      requires Valid() && 0 <= move < Cols
      ensures ok == Open(Grid(), move)
    {
      ok := board[0, move] == 0;
    }

    /** The loop form of the recursive fall from (row, col). */
    method PieceFall(row: int, col: int) returns (landed: int)
      requires Valid()
      ensures landed == Fall(Grid(), row, col)
    {
      var r := row;
      while InBounds(r, col) && board[r, col] == 0
        invariant Fall(Grid(), r, col) == Fall(Grid(), row, col)
        decreases Rows - r
      {
        r := r + 1;
      }
      landed := r - 1;
    }

    /** `count` plus the length of the run of `player` pieces from (row, col) in
        direction (drow, dcol); it reads only cells on the board. */
    method CountInDirection(count: int, drow: int, dcol: int, player: int, row: int, col: int) returns (n: int)
      requires Valid() && IsDir(drow, dcol)
      ensures n == count + Run(Grid(), drow, dcol, player, row, col)
    {
      n := count;
      var r, c := row, col;
      while InBounds(r, c) && board[r, c] == player
        invariant n + Run(Grid(), drow, dcol, player, r, c) == count + Run(Grid(), drow, dcol, player, row, col)
        decreases Reach(drow, dcol, r, c)
      {
        n := n + 1;
        r, c := r + drow, c + dcol;
      }
    }

    /** Writes the current player's piece into cell (row, col). */
    method SetCell(row: int, col: int)
      requires Valid() && InBounds(row, col)
      modifies board
      ensures Grid() == old(Grid())[row := old(Grid())[row][col := currentPlayer]]
    {
      board[row, col] := currentPlayer;
      ghost var g := old(Grid());
      assert forall r | 0 <= r < Rows :: Grid()[r] == g[row := g[row][col := currentPlayer]][r];
    }

    /** The length of the current player's line through (row, col) along search
        axis k: the count forwards plus the count backwards, less the cell (row,
        col) that both include. */
    method CountAxis(k: int, row: int, col: int) returns (inARow: int)
      requires Valid() && 0 <= k < |SearchPairs|
      ensures inARow == AxisCount(Grid(), k, row, col, currentPlayer)
    {
      var pair := Axis(k);
      var forward := CountInDirection(0, pair.0, pair.1, currentPlayer, row, col);
      var backward := CountInDirection(0, -pair.0, -pair.1, currentPlayer, row, col);
      inARow := forward + backward - 1;
    }

    /** Whether the current player's piece at (row, col) completes a line of four:
        for each search axis, the count forwards plus the count backwards, less the
        cell counted twice, reaches 4. */
    method ScanAxes(row: int, col: int) returns (won: bool)
      requires Valid()
      ensures won == WinAt(Grid(), row, col, currentPlayer)
    {
      ghost var g := Grid();
      var k := 0;
      while k < |SearchPairs|
        invariant 0 <= k <= |SearchPairs|
        invariant forall j :: 0 <= j < k ==> AxisCount(g, j, row, col, currentPlayer) < 4
      {
        var inARow := CountAxis(k, row, col);
        if inARow >= 4 {
          return true;
        }
        k := k + 1;
      }
      return false;
    }

    /** Drops the current player's piece into column `move`, then scans the four
        axes through it. On a win the current player is kept (and so names the
        winner); otherwise the turn passes to the other player. */
    method CheckWinWith(move: int) returns (won: bool)
      requires Valid() && 0 <= move < Cols
      modifies this, board
      ensures Valid() && board == old(board)
      ensures Grid() == Place(old(Grid()), move, old(currentPlayer))
      ensures won == WinAt(Grid(), Landing(old(Grid()), move), move, old(currentPlayer))
      ensures !Open(old(Grid()), move) ==> !won
      ensures currentPlayer == if won then old(currentPlayer) else -old(currentPlayer)
    {
      ghost var before := Grid();
      var row := PieceFall(0, move);
      assert row == Landing(before, move);
      LandingRow(before, move);
      PlaceCell(before, move, currentPlayer);
      var target := if row < 0 then Rows + row else row;
      SetCell(target, move);
      ghost var after := Grid();
      assert after == Place(before, move, old(currentPlayer));
      won := ScanAxes(row, move);
      assert won == WinAt(after, row, move, old(currentPlayer));
      if !Open(before, move) {
        NoWinOffBoard(after, row, move, old(currentPlayer));
      }
      if !won {
        currentPlayer := -currentPlayer;
      }
      assert Grid() == after;
    }
  }
}
