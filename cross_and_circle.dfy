/**
 * Board and turn logic of the tic-tac-toe game (cross_and_circle/cross_and_circle.py).
 *
 * The board is a list of nine entries that starts out holding each cell's own
 * index, so two empty cells are never equal, and a move writes the current
 * player's marker into it.  Each cell's sprite carries a `selectable` flag that
 * lets its image be set once.  The spec functions below describe one step of the
 * game on an abstract GameState; the Game class is proved against them.
 */
module CrossAndCircle {
  import opened Wrappers

  /** The two markers; each also names the image shown for it. */
  datatype Player = Cross | Circle

  const Player1: Player := Cross
  const Player2: Player := Circle

  /** A board entry: the cell's own index while empty, or a player's marker. */
  datatype Cell = Empty(index: int) | Mark(player: Player)

  /**
   * What the win check returns: 1 once the game is over, the marker of the
   * winning line, or False.
   */
  datatype WinCheck = AlreadyOver | Winner(marker: Cell) | NoWinner {
    /**
     * The truth value of the returned object: an empty entry is its index, an
     * integer, so only the entry of cell 0 would be false.
     */
    function Truthy(): (b: bool)
      ensures AlreadyOver? ==> b
      ensures NoWinner? ==> !b
      ensures Winner? && marker.Mark? ==> b
      ensures Winner? && marker == Empty(0) ==> !b
    {
      AlreadyOver? || (Winner? && (marker.Mark? || marker.index != 0))
    }
  }

  /** A position on the board. */
  type CellIndex = i: nat | i < 9

  /** The eight win lines in the order they are scanned: rows, columns, diagonals. */
  const WinLines: seq<(CellIndex, CellIndex, CellIndex)> :=
    [(0, 1, 2), (3, 4, 5), (6, 7, 8), (0, 3, 6), (1, 4, 7), (2, 5, 8), (0, 4, 8), (2, 4, 6)]

  /** The computer's move preference: centre, corners, then edges. */
  const BestMoves: seq<nat> := [4, 0, 2, 6, 8, 1, 3, 5, 7]

  /** The game as the logic sees it: board, per-cell selectable flags and images, turn and end flag. */
  datatype GameState = GameState(
    board: seq<Cell>,
    selectable: seq<bool>,
    images: seq<Option<Player>>,
    current: Player,
    end: bool)

  predicate Sized(s: GameState) {
    |s.board| == 9 && |s.selectable| == 9 && |s.images| == 9
  }

  /**
   * The game's invariant: every entry is its own index or a marker, a cell is
   * selectable exactly while it is empty, and it has an image exactly when it is
   * no longer selectable.
   */
  predicate WellFormed(s: GameState) {
    CellsConsistent(s.board, s.selectable, s.images)
  }

  predicate CellsConsistent(board: seq<Cell>, selectable: seq<bool>, images: seq<Option<Player>>) {
    && |board| == 9 && |selectable| == 9 && |images| == 9
    && forall i :: 0 <= i < 9 ==> CellConsistent(board[i], selectable[i], images[i], i)
  }

  predicate CellConsistent(cell: Cell, selectable: bool, image: Option<Player>, i: nat) {
    && (cell == Empty(i) || cell.Mark?)
    && (selectable <==> cell == Empty(i))
    && (selectable <==> image.None?)
  }

  /** The state after the constructor: cells 0..8, all selectable, no images, the first player to move. */
  function InitialState(): (s: GameState)
    ensures WellFormed(s) && s.current == Player1 && !s.end
    ensures forall i :: 0 <= i < 9 ==> s.board[i] == Empty(i) && s.selectable[i] && s.images[i].None?
  {
    GameState(seq(9, i => Empty(i)), seq(9, i => true), seq(9, i => None), Player1, false)
  }

  /** The player who moves after p. */
  function OtherPlayer(p: Player): (q: Player)
    ensures q != p
    ensures p == Player1 <==> q == Player2
  {
    if p == Player1 then Player2 else Player1
  }

  /** Two turns bring the move back to the same player. */
  lemma OtherPlayerTwice(p: Player)
    ensures OtherPlayer(OtherPlayer(p)) == p
  {
  }

  /** True when the three entries of win line k are equal. */
  predicate Uniform(board: seq<Cell>, k: nat)
    requires |board| == 9 && k < 8
  {
    board[WinLines[k].0] == board[WinLines[k].1] && board[WinLines[k].1] == board[WinLines[k].2]
  }

  /** The first win line, from line `from` on, whose entries are equal. */
  function FirstUniform(board: seq<Cell>, from: nat): (r: Option<nat>)
    requires |board| == 9 && from <= 8
    ensures r.Some? ==> from <= r.value < 8 && Uniform(board, r.value)
    ensures r.Some? ==> forall j :: from <= j < r.value ==> !Uniform(board, j)
    ensures r.None? ==> forall j :: from <= j < 8 ==> !Uniform(board, j)
    decreases 8 - from
  {
    if from == 8 then None
    else if Uniform(board, from) then Some(from)
    else FirstUniform(board, from + 1)
  }

  /** A line that is equal, after none that are, is the one the scan finds. */
  lemma FirstUniformAt(board: seq<Cell>, k: nat)
    requires |board| == 9 && k < 8 && Uniform(board, k)
    requires forall j :: 0 <= j < k ==> !Uniform(board, j)
    ensures FirstUniform(board, 0) == Some(k)
  {
  }

  /** The value the win check returns. */
  function CheckWinResult(s: GameState): (r: WinCheck)
    requires Sized(s)
    ensures r.AlreadyOver? <==> s.end
    ensures r.NoWinner? <==> !s.end && forall k :: 0 <= k < 8 ==> !Uniform(s.board, k)
    ensures r.Winner? ==> exists k :: 0 <= k < 8 && Uniform(s.board, k) && r.marker == s.board[WinLines[k].0]
  {
    if s.end then AlreadyOver
    else match FirstUniform(s.board, 0)
      case Some(k) => Winner(s.board[WinLines[k].0])
      case None => NoWinner
  }

  /** The state after the win check: a found line ends the game. */
  function AfterCheckWin(s: GameState): (t: GameState)
    requires Sized(s)
    ensures Sized(t)
    ensures t.board == s.board && t.selectable == s.selectable && t.images == s.images && t.current == s.current
    ensures t.end <==> s.end || exists k :: 0 <= k < 8 && Uniform(s.board, k)
  {
    if !s.end && FirstUniform(s.board, 0).Some? then s.(end := true) else s
  }

  /**
   * The win check reports the first equal line in table order, sets the end flag
   * exactly when it finds one, and once the game is over answers without looking.
   */
  lemma CheckWinFindsFirstLine(s: GameState)
    requires Sized(s)
    ensures s.end ==> CheckWinResult(s) == AlreadyOver && AfterCheckWin(s) == s
    ensures !s.end ==>
      (CheckWinResult(s).Winner? <==> exists k :: 0 <= k < 8 && Uniform(s.board, k))
    ensures !s.end && CheckWinResult(s).Winner? ==>
      exists k :: 0 <= k < 8 && Uniform(s.board, k)
        && (forall j :: 0 <= j < k ==> !Uniform(s.board, j))
        && CheckWinResult(s).marker == s.board[WinLines[k].0]
        && AfterCheckWin(s) == s.(end := true)
    ensures CheckWinResult(s).NoWinner? ==> AfterCheckWin(s) == s
  {
    if !s.end {
      match FirstUniform(s.board, 0)
      case Some(k) =>
        assert Uniform(s.board, k);
      case None =>
    }
  }

  /** On a well-formed board a winning line is made of three equal markers, never of empty cells. */
  lemma WinnerIsMarker(s: GameState)
    requires WellFormed(s)
    requires CheckWinResult(s).Winner?
    ensures CheckWinResult(s).marker.Mark? && CheckWinResult(s).Truthy()
  {
    var k := FirstUniform(s.board, 0).value;
    var (a, b, c) := WinLines[k];
    assert a != b by {
      assert WinLines[k] in WinLines;
    }
    assert CellConsistent(s.board[a], s.selectable[a], s.images[a], a);
    assert CellConsistent(s.board[b], s.selectable[b], s.images[b], b);
  }

  /** The fresh board satisfies the invariant and has no winning line. */
  lemma InitialStateNoWinner()
    ensures WellFormed(InitialState())
    ensures CheckWinResult(InitialState()) == NoWinner
    ensures AfterCheckWin(InitialState()) == InitialState()
  {
    var s := InitialState();
    assert forall i :: 0 <= i < 9 ==> CellConsistent(s.board[i], s.selectable[i], s.images[i], i);
    if CheckWinResult(s).Winner? {
      WinnerIsMarker(s);
      assert false;
    }
  }

  /** The sprite's image setter: it takes effect only while the cell is selectable and then clears the flag. */
  function SetImageOf(s: GameState, n: nat, p: Player): (t: GameState)
    requires Sized(s) && n < 9
    ensures Sized(t) && !t.selectable[n]
    ensures t.images[n] == if s.selectable[n] then Some(p) else s.images[n]
    ensures forall i :: 0 <= i < 9 && i != n ==> t.selectable[i] == s.selectable[i] && t.images[i] == s.images[i]
    ensures t.board == s.board && t.current == s.current && t.end == s.end
  {
    if s.selectable[n] then s.(images := s.images[n := Some(p)], selectable := s.selectable[n := false])
    else s
  }

  /**
   * A move on cell n by player p: the sprite's image is set (if still possible)
   * and the board entry is overwritten with p's marker.  The two updates touch
   * different parts of the state, so their order does not matter.
   */
  function Play(s: GameState, n: nat, p: Player): (t: GameState)
    requires Sized(s) && n < 9
    ensures Sized(t)
    ensures t.board == s.board[n := Mark(p)] && !t.selectable[n]
    ensures t.images[n] == if s.selectable[n] then Some(p) else s.images[n]
    ensures forall i :: 0 <= i < 9 && i != n ==> t.selectable[i] == s.selectable[i] && t.images[i] == s.images[i]
    ensures t.current == s.current && t.end == s.end
  {
    SetImageOf(s, n, p).(board := s.board[n := Mark(p)])
  }

  /** A move keeps the invariant, whether or not the cell was free. */
  lemma PlayPreservesWellFormed(s: GameState, n: nat, p: Player)
    requires WellFormed(s) && n < 9
    ensures WellFormed(Play(s, n, p))
  {
    var t := Play(s, n, p);
    forall i | 0 <= i < 9
      ensures CellConsistent(t.board[i], t.selectable[i], t.images[i], i)
    {
      assert CellConsistent(s.board[i], s.selectable[i], s.images[i], i);
    }
  }

  /**
   * A left click that hit cell `hit` (None when it hit no cell).  The win check in
   * the guard runs first; if it is truthy the click is ignored.  Otherwise the hit
   * cell's image is set (if still possible), its board entry is overwritten with
   * the current player's marker whether or not it was taken, the win check runs
   * again and the turn passes.
   */
  function ClickOf(s: GameState, hit: Option<nat>): (t: GameState)
    requires Sized(s) && (hit.Some? ==> hit.value < 9)
    ensures Sized(t)
    ensures s.end || hit.None? ==>
      t.board == s.board && t.selectable == s.selectable && t.images == s.images && t.current == s.current
    ensures s.end ==> t.end
    ensures !CheckWinResult(s).Truthy() && hit.Some? ==>
      t.board == s.board[hit.value := Mark(s.current)] && t.current == OtherPlayer(s.current)
  {
    var t := AfterCheckWin(s);
    if CheckWinResult(s).Truthy() || hit.None? then t
    else
      var n := hit.value;
      var v := AfterCheckWin(Play(t, n, t.current));
      v.(current := OtherPlayer(v.current))
  }

  /** The position in BestMoves, from `from` on, of the first cell that is still selectable. */
  function FirstSelectable(selectable: seq<bool>, from: nat): (r: Option<nat>)
    requires |selectable| == 9 && from <= 9
    ensures r.Some? ==> from <= r.value < 9 && selectable[BestMoves[r.value]]
    ensures r.Some? ==> forall j :: from <= j < r.value ==> !selectable[BestMoves[j]]
    ensures r.None? ==> forall j :: from <= j < 9 ==> !selectable[BestMoves[j]]
    decreases 9 - from
  {
    if from == 9 then None
    else if BestMoves[from] <= 8 && selectable[BestMoves[from]] then Some(from)
    else FirstSelectable(selectable, from + 1)
  }

  /** The cell the computer plays, if any. */
  function ComputerChoice(selectable: seq<bool>): (c: Option<nat>)
    requires |selectable| == 9
    ensures c.Some? ==> c.value < 9 && selectable[c.value]
    ensures c.Some? ==>
      exists k :: 0 <= k < 9 && BestMoves[k] == c.value && forall j :: 0 <= j < k ==> !selectable[BestMoves[j]]
  {
    match FirstSelectable(selectable, 0)
    case Some(k) => Some(BestMoves[k])
    case None => None
  }

  /**
   * The computer's move: the first preferred cell that is selectable gets the
   * current player's marker and image, and the turn passes; with no selectable
   * cell nothing changes.
   */
  function ComputerMoveOf(s: GameState): (t: GameState)
    requires Sized(s)
    ensures Sized(t) && t.end == s.end
    ensures ComputerChoice(s.selectable).None? ==> t == s
    ensures ComputerChoice(s.selectable).Some? ==>
      var c := ComputerChoice(s.selectable).value;
      && t.board == s.board[c := Mark(s.current)]
      && t.images == s.images[c := Some(s.current)]
      && t.selectable == s.selectable[c := false]
      && t.current == OtherPlayer(s.current)
  {
    match ComputerChoice(s.selectable)
    case None => s
    case Some(c) =>
      Play(s, c, s.current).(current := OtherPlayer(s.current))
  }

  /** The computer only plays a selectable cell, and plays one whenever there is one. */
  lemma ComputerChoiceSound(selectable: seq<bool>)
    requires |selectable| == 9
    ensures ComputerChoice(selectable).Some? ==>
      ComputerChoice(selectable).value < 9 && selectable[ComputerChoice(selectable).value]
    ensures ComputerChoice(selectable).None? <==> forall i :: 0 <= i < 9 ==> !selectable[i]
  {
    if FirstSelectable(selectable, 0).None? {
      forall i | 0 <= i < 9
        ensures !selectable[i]
      {
        var k :| 0 <= k < 9 && BestMoves[k] == i;
        assert !selectable[BestMoves[k]];
      }
    }
  }

  /** When entry k of BestMoves is the first selectable one, the computer plays that cell. */
  lemma ComputerMoveAt(s: GameState, k: nat)
    requires WellFormed(s) && k < 9 && s.selectable[BestMoves[k]]
    requires forall j :: 0 <= j < k ==> !s.selectable[BestMoves[j]]
    ensures ComputerMoveOf(s) == Play(s, BestMoves[k], s.current).(current := OtherPlayer(s.current))
    ensures WellFormed(ComputerMoveOf(s))
  {
    PlayPreservesWellFormed(s, BestMoves[k], s.current);
  }

  /** The centre is taken first; failing that, a free corner comes before any edge. */
  lemma ComputerPrefersCentreThenCorners(selectable: seq<bool>)
    requires |selectable| == 9
    ensures selectable[4] ==> ComputerChoice(selectable) == Some(4)
    ensures !selectable[4] && (selectable[0] || selectable[2] || selectable[6] || selectable[8]) ==>
      ComputerChoice(selectable).Some? && ComputerChoice(selectable).value in {0, 2, 6, 8}
  {
    var r := FirstSelectable(selectable, 0);
    if !selectable[4] && (selectable[0] || selectable[2] || selectable[6] || selectable[8]) {
      assert r.Some? && r.value <= 4 by {
        if selectable[0] { assert selectable[BestMoves[1]]; }
        else if selectable[2] { assert selectable[BestMoves[2]]; }
        else if selectable[6] { assert selectable[BestMoves[3]]; }
        else { assert selectable[BestMoves[4]]; }
      }
    }
  }

  /** On the fresh board the computer takes the centre. */
  lemma ComputerOpensInCentre()
    ensures ComputerMoveOf(InitialState()).board[4] == Mark(Player1)
  {
    ComputerPrefersCentreThenCorners(InitialState().selectable);
  }

  /** Every step keeps the invariant. */
  lemma StepsPreserveWellFormed(s: GameState, hit: Option<nat>)
    requires WellFormed(s) && (hit.Some? ==> hit.value < 9)
    ensures WellFormed(AfterCheckWin(s))
    ensures WellFormed(ClickOf(s, hit))
    ensures WellFormed(ComputerMoveOf(s))
  {
    var t := AfterCheckWin(s);
    if !CheckWinResult(s).Truthy() && hit.Some? {
      PlayPreservesWellFormed(t, hit.value, t.current);
    }
    var c := ComputerChoice(s.selectable);
    if c.Some? {
      ComputerChoiceSound(s.selectable);
      PlayPreservesWellFormed(s, c.value, s.current);
    }
  }

  /**
   * An accepted click writes the current player's marker into the hit cell, leaves
   * every other entry alone and passes the turn; on a cell that was already taken
   * it overwrites the entry while the cell's image stays as it was.
   */
  lemma ClickMarksCellAndPassesTurn(s: GameState, n: nat)
    requires WellFormed(s) && n < 9
    requires !CheckWinResult(s).Truthy()
    ensures ClickOf(s, Some(n)).board == s.board[n := Mark(s.current)]
    ensures ClickOf(s, Some(n)).current == OtherPlayer(s.current)
    ensures s.board[n].Mark? ==> ClickOf(s, Some(n)).images == s.images
    ensures s.board[n] == Empty(n) ==> ClickOf(s, Some(n)).images == s.images[n := Some(s.current)]
  {
    var t := ClickOf(s, Some(n));
    if s.board[n].Mark? {
      assert !s.selectable[n];
      assert t.images == s.images;
    }
  }

  /** While the win check is truthy a click changes neither the board, the images nor the turn. */
  lemma ClickIgnoredOnceOver(s: GameState, hit: Option<nat>)
    requires Sized(s) && (hit.Some? ==> hit.value < 9)
    requires CheckWinResult(s).Truthy()
    ensures var t := ClickOf(s, hit);
      t.board == s.board && t.images == s.images && t.selectable == s.selectable
      && t.current == s.current && t.end
  {
  }

  /** A move leaves every image that was already set as it was. */
  lemma PlayKeepsSetImages(s: GameState, n: nat, p: Player)
    requires WellFormed(s) && n < 9
    ensures forall i :: 0 <= i < 9 && s.images[i].Some? ==> Play(s, n, p).images[i] == s.images[i]
  {
    assert CellConsistent(s.board[n], s.selectable[n], s.images[n], n);
  }

  /** A click leaves every image that was already set as it was, and a game that is over stays over. */
  lemma ClickKeepsSetImages(s: GameState, hit: Option<nat>)
    requires WellFormed(s) && (hit.Some? ==> hit.value < 9)
    ensures forall i :: 0 <= i < 9 && s.images[i].Some? ==> ClickOf(s, hit).images[i] == s.images[i]
    ensures s.end ==> ClickOf(s, hit).end
  {
    var t := AfterCheckWin(s);
    if !CheckWinResult(s).Truthy() && hit.Some? {
      PlayKeepsSetImages(t, hit.value, t.current);
    }
  }

  /** The computer's move leaves every image that was already set as it was, and keeps the end flag. */
  lemma ComputerMoveKeepsSetImages(s: GameState)
    requires WellFormed(s)
    ensures forall i :: 0 <= i < 9 && s.images[i].Some? ==> ComputerMoveOf(s).images[i] == s.images[i]
    ensures ComputerMoveOf(s).end == s.end
  {
    var c := ComputerChoice(s.selectable);
    if c.Some? {
      ComputerChoiceSound(s.selectable);
      PlayKeepsSetImages(s, c.value, s.current);
    }
  }

  /** A cell of the board: its sprite with the selectable flag and the image it shows. */
  class GameItem {
    const number: nat
    var selectable: bool
    var image: Option<Player>

    constructor (number: nat)
      ensures this.number == number && selectable && image == None
    {
      this.number := number;
      selectable := true;
      image := None;
    }

    /** Shows the player's image, but only while the cell is selectable; afterwards it no longer is. */
    method SetImage(p: Player)
      modifies this`selectable, this`image
      ensures !selectable
      ensures image == if old(selectable) then Some(p) else old(image)
    {
      if selectable {
        image := Some(p);
        selectable := false;
      }
    }
  }

  /** The selectable flags of a list of cells. */
  ghost function Flags(cells: seq<GameItem>): (r: seq<bool>)
    reads cells
    ensures |r| == |cells| && forall i :: 0 <= i < |cells| ==> r[i] == cells[i].selectable
  {
    if cells == [] then [] else [cells[0].selectable] + Flags(cells[1..])
  }

  /** The images of a list of cells. */
  ghost function Images(cells: seq<GameItem>): (r: seq<Option<Player>>)
    reads cells
    ensures |r| == |cells| && forall i :: 0 <= i < |cells| ==> r[i] == cells[i].image
  {
    if cells == [] then [] else [cells[0].image] + Images(cells[1..])
  }

  /** Nine fresh cells are all selectable and show no image. */
  lemma FreshCells(cells: seq<GameItem>)
    requires |cells| == 9 && forall i :: 0 <= i < 9 ==> cells[i].selectable && cells[i].image == None
    ensures Flags(cells) == InitialState().selectable && Images(cells) == InitialState().images
  {
  }

  /** Makes the nine cells, numbered 0 to 8 in row order. */
  method InitGrid() returns (cells: seq<GameItem>)
    ensures |cells| == 9
    ensures forall i :: 0 <= i < 9 ==> fresh(cells[i]) && cells[i].number == i
    ensures forall i :: 0 <= i < 9 ==> cells[i].selectable && cells[i].image == None
    ensures forall i, j :: 0 <= i < j < 9 ==> cells[i] != cells[j]
  {
    cells := [];
    var numberSprite := 0;
    while numberSprite < 9
      invariant numberSprite == |cells| <= 9
      invariant forall i :: 0 <= i < |cells| ==> fresh(cells[i]) && cells[i].number == i
      invariant forall i :: 0 <= i < |cells| ==> cells[i].selectable && cells[i].image == None
      invariant forall i, j :: 0 <= i < j < |cells| ==> cells[i] != cells[j]
    {
      var cell := new GameItem(numberSprite);
      cells := cells + [cell];
      numberSprite := numberSprite + 1;
    }
  }

  /** The game: board, cell sprites, current player and end flag. */
  class Game {
    const board: array<Cell>
    const sprites: seq<GameItem>
    var currentPlayer: Player
    var end: bool

    ghost predicate Valid()
      reads this, board, sprites
    {
      && board.Length == 9 && |sprites| == 9
      && (forall i :: 0 <= i < 9 ==> sprites[i].number == i)
      && WellFormed(State())
    }

    /** The abstract value of the game. */
    ghost function State(): GameState
      reads this, board, sprites
    {
      GameState(board[..], Flags(sprites), Images(sprites), currentPlayer, end)
    }

    constructor ()
      ensures Valid() && fresh(board)
      ensures forall i :: 0 <= i < 9 ==> fresh(sprites[i])
      ensures State() == InitialState()
    {
      board := new Cell[9](i => Empty(i));
      var cells := InitGrid();
      sprites := cells;
      currentPlayer := Player1;
      end := false;
      new;
      assert board[..] == InitialState().board;
      FreshCells(sprites);
      InitialStateNoWinner();
    }

    /** Passes the turn to the other player. */
    method NextPlayer()
      requires Valid()
      modifies this`currentPlayer
      ensures Valid()
      ensures State() == old(State()).(current := OtherPlayer(old(currentPlayer)))
    {
      if currentPlayer == Player1 {
        currentPlayer := Player2;
      } else {
        currentPlayer := Player1;
      }
    }

    /** The scan over the win lines: the first line whose three board entries are equal. */
    method FindWinLine() returns (k: Option<nat>)
      requires board.Length == 9
      ensures k == FirstUniform(board[..], 0)
    {
      for i := 0 to |WinLines|
        invariant forall j :: 0 <= j < i ==> !Uniform(board[..], j)
      {
        var (a, b, c) := WinLines[i];
        if board[a] == board[b] && board[b] == board[c] {
          FirstUniformAt(board[..], i);
          return Some(i);
        }
      }
      return None;
    }

    /**
     * The win check: once the game is over it answers at once; otherwise the first
     * win line whose three entries are equal ends the game and its entry is returned.
     */
    method CheckWin() returns (r: WinCheck)
      requires Valid()
      modifies this`end
      ensures Valid()
      ensures r == CheckWinResult(old(State()))
      ensures State() == AfterCheckWin(old(State()))
    {
      if end {
        return AlreadyOver;
      }
      ghost var s := State();
      var k := FindWinLine();
      if k.Some? {
        end := true;
        EndedAt(s);
        return Winner(board[WinLines[k.value].0]);
      }
      return NoWinner;
    }

    /**
     * The computer's move: marks the first cell in preference order whose sprite
     * is selectable, sets its image and passes the turn.
     */
    method ComputerMove()
      requires Valid()
      modifies this`currentPlayer, board, sprites
      ensures Valid()
      ensures State() == ComputerMoveOf(old(State()))
    {
      ghost var s := State();
      for i := 0 to |BestMoves|
        invariant forall j :: 0 <= j < i ==> !s.selectable[BestMoves[j]]
        invariant unchanged(this, board) && unchanged(sprites)
      {
        var answer := BestMoves[i];
        if 0 <= answer <= 8 {
          if sprites[answer].selectable {
            ComputerMoveAt(s, i);
            board[answer] := Mark(currentPlayer);
            sprites[answer].SetImage(currentPlayer);
            PlayedAt(s, answer);
            NextPlayer();
            return;
          }
        }
      }
      assert FirstSelectable(s.selectable, 0).None?;
      assert State() == s;
    }

    /** After the end flag has been set, the game is valid and otherwise in the same state. */
    lemma EndedAt(s: GameState)
      requires WellFormed(s) && board.Length == 9 && |sprites| == 9
      requires forall i :: 0 <= i < 9 ==> sprites[i].number == i
      requires currentPlayer == s.current && end
      requires board[..] == s.board
      requires forall i :: 0 <= i < 9 ==> sprites[i].selectable == s.selectable[i] && sprites[i].image == s.images[i]
      ensures Valid() && State() == s.(end := true)
    {
      assert Flags(sprites) == s.selectable;
      assert Images(sprites) == s.images;
    }

    /** After sprite n and board entry n have been updated, the game is valid and in the state Play gives. */
    lemma PlayedAt(s: GameState, n: nat)
      requires WellFormed(s) && n < 9 && board.Length == 9 && |sprites| == 9
      requires forall i :: 0 <= i < 9 ==> sprites[i].number == i
      requires currentPlayer == s.current && end == s.end
      requires board[..] == s.board[n := Mark(s.current)]
      requires sprites[n].selectable == false
      requires sprites[n].image == if s.selectable[n] then Some(s.current) else s.images[n]
      requires forall i :: 0 <= i < 9 && i != n ==>
        sprites[i].selectable == s.selectable[i] && sprites[i].image == s.images[i]
      ensures Valid() && State() == Play(s, n, s.current)
    {
      assert Flags(sprites) == Play(s, n, s.current).selectable;
      assert Images(sprites) == Play(s, n, s.current).images;
      PlayPreservesWellFormed(s, n, s.current);
    }

    /**
     * A left click that hit cell `hit` (None when it hit no cell): ignored while the
     * win check is truthy, otherwise handled by ClickCell.
     */
    method Click(hit: Option<nat>)
      requires Valid() && (hit.Some? ==> hit.value < 9)
      modifies this`currentPlayer, this`end, board, sprites
      ensures Valid()
      ensures State() == ClickOf(old(State()), hit)
    {
      var over := CheckWin();
      if !over.Truthy() && hit.Some? {
        ClickCell(hit.value);
      }
    }

    /**
     * The handling of a click on cell n: its image is set if it is still
     * selectable, its entry is overwritten with the current player's marker, the
     * win check runs and the turn passes.
     */
    method ClickCell(n: nat)
      requires Valid() && n < 9
      modifies this`currentPlayer, this`end, board, sprites
      ensures Valid()
      ensures var t := Play(old(State()), n, old(currentPlayer));
        State() == AfterCheckWin(t).(current := OtherPlayer(t.current))
    {
      ghost var t := State();
      sprites[n].SetImage(currentPlayer);
      board[n] := Mark(currentPlayer);
      PlayedAt(t, n);
      var _ := CheckWin();
      NextPlayer();
    }
  }

  /**
   * On a board whose entries are their own index or a marker, an equal line is
   * three distinct cells that all hold the same marker.
   */
  lemma UniformLineIsMarked(board: seq<Cell>, k: nat)
    requires |board| == 9 && k < 8
    requires forall i :: 0 <= i < 9 ==> board[i] == Empty(i) || board[i].Mark?
    requires Uniform(board, k)
    ensures WinLines[k].0 != WinLines[k].1 && WinLines[k].1 != WinLines[k].2 && WinLines[k].0 != WinLines[k].2
    ensures board[WinLines[k].0].Mark? && board[WinLines[k].1].Mark? && board[WinLines[k].2].Mark?
  {
    var (a, b, c) := WinLines[k];
    assert a != b && b != c && a != c by {
      assert WinLines[k] in WinLines;
    }
    assert board[a] == Empty(a) || board[a].Mark?;
    assert board[b] == Empty(b) || board[b].Mark?;
  }

  /**
   * A new game in which the first player clicks the centre and the computer
   * replies: the centre holds the first player's marker, the computer takes the
   * first corner, the game goes on and the turn is back with the first player.
   */
  lemma OpeningExchangeOf()
    ensures var t := ComputerMoveOf(ClickOf(InitialState(), Some(4)));
      && t.board == InitialState().board[4 := Mark(Player1)][0 := Mark(Player2)]
      && t.current == Player1 && !t.end
  {
    var s0 := InitialState();
    InitialStateNoWinner();
    var p := Play(s0, 4, Player1);
    forall k | 0 <= k < 8
      ensures !Uniform(p.board, k)
    {
      if Uniform(p.board, k) {
        UniformLineIsMarked(p.board, k);
        assert false;
      }
    }
    var s1 := ClickOf(s0, Some(4));
    assert s1 == p.(current := Player2);
    assert FirstSelectable(s1.selectable, 0) == Some(1) by {
      assert !s1.selectable[BestMoves[0]] && s1.selectable[BestMoves[1]];
    }
  }

  /** The same exchange played on a new imperative game. */
  method OpeningExchange() returns (g: Game)
    ensures g.Valid()
    ensures g.State() == ComputerMoveOf(ClickOf(InitialState(), Some(4)))
  {
    g := new Game();
    g.Click(Some(4));
    g.ComputerMove();
  }
}
