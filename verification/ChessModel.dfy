/** The chessboard state machine as a function of its state and one pin event.

    The 27 states of the C code come in colour and wing pairs; here each pair is one constructor.
    Module ChessFsm holds the 27 run functions in the C code's own form, each proved to compute
    what is defined here. */
module ChessModel {
  import opened Basics

  datatype Colour = White | Black {
    function Other(): Colour { if White? then Black else White }
  }

  datatype Wing = KingSide | QueenSide

  datatype State =
    | Turn(c: Colour)
    | Move(c: Colour)
    | Capture(c: Colour)
    | EnemyCapture(c: Colour)
    | Castling(c: Colour)
    | KingDown(c: Colour, w: Wing)
    | KingUpRookUp(c: Colour, w: Wing)
    | KingDownRookUp(c: Colour, w: Wing)
    | KingUpRookDown(c: Colour, w: Wing)
    | Error

  datatype MoveType = CastlingMove | NormalMove

  /** The move record handed to the rest of the firmware. */
  datatype MoveRecord = MoveRecord(ply: nat, from: nat, to: nat, piece: char, captured: char, moveType: MoveType)

  datatype Rights = Rights(whiteKing: bool, whiteQueen: bool, blackKing: bool, blackQueen: bool) {
    predicate Has(c: Colour, w: Wing) {
      if c.White? then (if w.KingSide? then whiteKing else whiteQueen)
      else (if w.KingSide? then blackKing else blackQueen)
    }

    predicate HasAny(c: Colour) { Has(c, KingSide) || Has(c, QueenSide) }

    function Set(c: Colour, king: bool, queen: bool): Rights {
      if c.White? then Rights(king, queen, blackKing, blackQueen) else Rights(whiteKing, whiteQueen, king, queen)
    }
  }

  /** The fields of `struct chess_state` that outlive an event. `current` and `terminated` belong to
      the state machine framework, `stateVal` is the firmware's own copy of the state. */
  datatype Chess = Chess(
    board: seq<char>, current: State, stateVal: State, started: bool, terminated: bool, directToError: bool,
    rights: Rights, enPassant: bool, enPassantSquare: nat, plySincePonr: nat, ply: nat, x: nat, y: nat,
    record: Option<MoveRecord>)

  predicate Ok(s: Chess) { |s.board| == 64 && s.x < 64 && s.y < 64 }

  // ----- pieces and squares -----

  const EMPTY: char := ' '

  function King(c: Colour): char { if c.White? then 'K' else 'k' }
  function Rook(c: Colour): char { if c.White? then 'R' else 'r' }
  function Pawn(c: Colour): char { if c.White? then 'P' else 'p' }
  function Queen(c: Colour): char { if c.White? then 'Q' else 'q' }

  /** The C code's test of a piece's colour against the letter 'a'. */
  predicate IsOf(c: Colour, piece: char) {
    piece != EMPTY && (if c.White? then !(piece > 'a') else !(piece < 'a'))
  }

  function KingHome(c: Colour): nat { if c.White? then 60 else 4 }
  function RookHome(c: Colour, w: Wing): nat {
    if c.White? then (if w.KingSide? then 63 else 56) else (if w.KingSide? then 7 else 0)
  }
  function KingCastled(c: Colour, w: Wing): nat {
    if c.White? then (if w.KingSide? then 62 else 58) else (if w.KingSide? then 6 else 2)
  }
  function RookCastled(c: Colour, w: Wing): nat {
    if c.White? then (if w.KingSide? then 61 else 59) else (if w.KingSide? then 5 else 3)
  }

  /** One step towards the enemy's side of the board, in squares. */
  function Forward(c: Colour): int { if c.White? then -8 else 8 }

  predicate LastRank(c: Colour, square: nat) { if c.White? then square < 8 else square > 55 }

  function NextByte(n: nat): nat { (n + 1) % 256 }

  // ----- bookkeeping after `piece`, which came from `from`, has landed on `pin` -----

  /** A king move drops both rights. A rook move keeps only the right of the wing it leaves. */
  function RightsAfter(c: Colour, r: Rights, piece: char, from: nat): Rights {
    if piece == King(c) then r.Set(c, false, false)
    else if piece == Rook(c) then
      r.Set(c, r.Has(c, KingSide) && from == RookHome(c, KingSide),
            r.Has(c, QueenSide) && from == RookHome(c, QueenSide))
    else r
  }

  /** A pawn move sets or clears the en passant flag; other moves leave it as it is. */
  function FlagAfter(c: Colour, piece: char, from: nat, pin: nat, flag: bool): bool {
    if piece == Pawn(c) then pin - from == 2 * Forward(c) else flag
  }

  function SquareAfter(c: Colour, piece: char, pin: nat, square: nat): nat {
    if piece == Pawn(c) then (pin - Forward(c)) % 256 else square
  }

  function Promoted(c: Colour, piece: char, pin: nat): char {
    if piece == Pawn(c) && LastRank(c, pin) then Queen(c) else piece
  }

  // ----- the run functions -----

  function Goto(s: Chess, to: State): Chess { s.(current := to, stateVal := to) }

  function RunTurn(c: Colour, s: Chess, pin: nat, up: bool): (r: Chess)
    requires Ok(s) && pin < 64
    ensures Ok(r)
  {
    if s.directToError || !up || s.board[pin] == EMPTY then Goto(s, Error)
    else if s.board[pin] == King(c) && s.rights.HasAny(c) then Goto(s, Castling(c))
    else if IsOf(c, s.board[pin]) then Goto(s, Move(c)).(x := pin)
    else Goto(s, EnemyCapture(c)).(y := pin)
  }

  function MovePiece(c: Colour, s: Chess, pin: nat): (r: Chess)
    requires Ok(s) && pin < 64
    ensures Ok(r)
  {
    var board := s.board[pin := s.board[s.x]][s.x := EMPTY];
    var piece, ply := board[pin], NextByte(s.ply);
    Goto(s, Turn(c.Other())).(
      board := board[pin := Promoted(c, piece, pin)],
      ply := ply,
      enPassant := FlagAfter(c, piece, s.x, pin, s.enPassant),
      enPassantSquare := SquareAfter(c, piece, pin, s.enPassantSquare),
      plySincePonr := if piece == Pawn(c) then 0 else NextByte(s.plySincePonr),
      rights := RightsAfter(c, s.rights, piece, s.x),
      record := Some(MoveRecord(ply, s.x, pin, Promoted(c, piece, pin), EMPTY, NormalMove)))
  }

  function RunMove(c: Colour, s: Chess, pin: nat, up: bool): (r: Chess)
    requires Ok(s) && pin < 64
    ensures Ok(r)
  {
    if !up && s.x == pin then Goto(s, Turn(c))
    else if !up then MovePiece(c, s, pin)
    else if IsOf(c.Other(), s.board[pin]) then Goto(s, Capture(c)).(y := pin)
    else Goto(s, Error)
  }

  predicate TakesEnPassant(s: Chess, pin: nat) { s.enPassant && s.enPassantSquare == pin }

  /** The square of the captured piece is cleared only when the capture counts as en passant. */
  function CapturedBoard(s: Chess, pin: nat): (b: seq<char>)
    requires Ok(s) && pin < 64
    ensures |b| == 64
  {
    var landed := s.board[pin := s.board[s.x]][s.x := EMPTY];
    if TakesEnPassant(s, pin) then landed[s.y := EMPTY] else landed
  }

  function CapturePiece(c: Colour, s: Chess, pin: nat): (r: Chess)
    requires Ok(s) && pin < 64
    ensures Ok(r)
  {
    var board := CapturedBoard(s, pin);
    var piece, ply := board[pin], NextByte(s.ply);
    Goto(s, Turn(c.Other())).(
      board := board[pin := Promoted(c, piece, pin)],
      ply := ply,
      plySincePonr := 0,
      enPassant := false,
      rights := RightsAfter(c, s.rights, piece, s.x),
      record := Some(MoveRecord(ply, s.x, pin, Promoted(c, piece, pin), EMPTY, NormalMove)))
  }

  /** A rejected capture is an error. For White the framework still moves on to Black's turn. */
  function RunCapture(c: Colour, s: Chess, pin: nat, up: bool): (r: Chess)
    requires Ok(s) && pin < 64
    ensures Ok(r)
  {
    if !up && (s.y == pin || TakesEnPassant(s, pin)) then CapturePiece(c, s, pin)
    else s.(stateVal := Error, current := if c.White? then Turn(Black) else Error)
  }

  function RunEnemyCapture(c: Colour, s: Chess, pin: nat, up: bool): (r: Chess)
    requires Ok(s) && pin < 64
    ensures Ok(r)
  {
    if up then (if IsOf(c, s.board[pin]) then Goto(s, Capture(c)).(x := pin) else Goto(s, Error))
    else if pin == s.y then Goto(s, Turn(c))
    else Goto(s, Error)
  }

  /** A lifted king that goes back home, or to a square where it may castle. */
  predicate KingStays(c: Colour, rights: Rights, pin: nat) {
    || pin == KingHome(c)
    || (pin == KingCastled(c, KingSide) && rights.Has(c, KingSide))
    || (pin == KingCastled(c, QueenSide) && rights.Has(c, QueenSide))
  }

  function RunCastling(c: Colour, s: Chess, pin: nat, up: bool): (r: Chess)
    requires Ok(s) && pin < 64
    ensures Ok(r)
  {
    if !up then
      if pin == KingHome(c) then Goto(s, Turn(c))
      else if pin == KingCastled(c, KingSide) && s.rights.Has(c, KingSide) then Goto(s, KingDown(c, KingSide))
      else if pin == KingCastled(c, QueenSide) && s.rights.Has(c, QueenSide) then Goto(s, KingDown(c, QueenSide))
      else RunMove(c, Goto(s, Move(c)).(x := KingHome(c)), pin, up)   // the event is delivered again
    else if IsOf(c, s.board[pin]) then
      if s.board[pin] != Rook(c) then Goto(s, Error)
      else if pin == RookHome(c, KingSide) && s.rights.Has(c, KingSide) then Goto(s, KingUpRookUp(c, KingSide))
      else if pin == RookHome(c, QueenSide) && s.rights.Has(c, QueenSide) then Goto(s, KingUpRookUp(c, QueenSide))
      else Goto(s, Error)
    else if IsOf(c.Other(), s.board[pin]) then Goto(s, Capture(c)).(y := pin, x := KingHome(c))
    else s
  }

  /** The put of a king that does not stay is delivered again as a move. */
  lemma KingMovesOn(c: Colour, s: Chess, pin: nat)
    requires Ok(s) && pin < 64 && !KingStays(c, s.rights, pin)
    ensures RunCastling(c, s, pin, false) == RunMove(c, Goto(s, Move(c)).(x := KingHome(c)), pin, false)
  {
  }

  /** The event changes nothing but the state and the remembered squares, and ends no turn. */
  predicate OnlyWaits(s: Chess, r: Chess) {
    r == s.(current := r.current, stateVal := r.stateVal, x := r.x, y := r.y) && !r.current.Turn?
  }

  lemma KingLiftWaits(c: Colour, s: Chess, pin: nat)
    requires Ok(s) && pin < 64 && s.current == Castling(c)
    ensures OnlyWaits(s, RunCastling(c, s, pin, true))
  {
  }

  function RunKingDown(c: Colour, w: Wing, s: Chess, pin: nat, up: bool): (r: Chess)
    requires Ok(s) && pin < 64
    ensures Ok(r)
  {
    if up && s.board[pin] == Rook(c) && pin == RookHome(c, w) then Goto(s, KingDownRookUp(c, w)) else Goto(s, Error)
  }

  function RunKingUpRookUp(c: Colour, w: Wing, s: Chess, pin: nat, up: bool): (r: Chess)
    requires Ok(s) && pin < 64
    ensures Ok(r)
  {
    if !up && pin == KingCastled(c, w) then Goto(s, KingDownRookUp(c, w))
    else if !up && pin == RookCastled(c, w) then Goto(s, KingUpRookDown(c, w))
    else Goto(s, Error)
  }

  /** The record of a castling. The two colours fill in the target square differently. */
  function CastlingRecord(c: Colour, w: Wing, ply: nat): MoveRecord {
    MoveRecord(ply, KingHome(c), if c.White? then RookHome(c, w) else RookCastled(c, w), King(c), Rook(c), CastlingMove)
  }

  /** END_*_CASTLING_* and send_move_castle_*. */
  function EndCastling(c: Colour, w: Wing, s: Chess): (r: Chess)
    requires Ok(s)
    ensures Ok(r)
  {
    Goto(s, Turn(c.Other())).(
      rights := s.rights.Set(c, false, false),
      ply := NextByte(s.ply),
      enPassant := false,
      board := s.board[RookHome(c, w) := EMPTY][RookCastled(c, w) := Rook(c)]
                      [KingHome(c) := EMPTY][KingCastled(c, w) := King(c)],
      record := Some(CastlingRecord(c, w, NextByte(s.ply))))
  }

  function RunKingDownRookUp(c: Colour, w: Wing, s: Chess, pin: nat, up: bool): (r: Chess)
    requires Ok(s) && pin < 64
    ensures Ok(r)
  {
    if !up && pin == RookCastled(c, w) then EndCastling(c, w, s) else Goto(s, Error)
  }

  function RunKingUpRookDown(c: Colour, w: Wing, s: Chess, pin: nat, up: bool): (r: Chess)
    requires Ok(s) && pin < 64
    ensures Ok(r)
  {
    if !up && pin == KingCastled(c, w) then EndCastling(c, w, s) else Goto(s, Error)
  }

  /** `smf_run_state`: a terminated machine does nothing. */
  function RunState(s: Chess, pin: nat, up: bool): (r: Chess)
    requires Ok(s) && pin < 64
    ensures Ok(r)
  {
    if s.terminated then s
    else
      match s.current
      case Turn(c) => RunTurn(c, s, pin, up)
      case Move(c) => RunMove(c, s, pin, up)
      case Capture(c) => RunCapture(c, s, pin, up)
      case EnemyCapture(c) => RunEnemyCapture(c, s, pin, up)
      case Castling(c) => RunCastling(c, s, pin, up)
      case KingDown(c, w) => RunKingDown(c, w, s, pin, up)
      case KingUpRookUp(c, w) => RunKingUpRookUp(c, w, s, pin, up)
      case KingDownRookUp(c, w) => RunKingDownRookUp(c, w, s, pin, up)
      case KingUpRookDown(c, w) => RunKingUpRookDown(c, w, s, pin, up)
      case Error => s.(terminated := true)
  }

  /** `smf_set_initial` on the first event: White is to move. */
  function Started(s: Chess): Chess {
    if s.started then s else s.(started := true, current := Turn(White), terminated := false)
  }

  /** `pin_change` */
  function Step(s: Chess, pin: nat, up: bool): (s': Chess)
    requires Ok(s) && pin < 64
    ensures Ok(s')
  {
    RunState(Started(s), pin, up)
  }

  /** One change of one of the 64 sensors. */
  datatype Event = Event(pin: nat, up: bool)

  predicate ValidEvents(es: seq<Event>) { forall i :: 0 <= i < |es| ==> es[i].pin < 64 }

  function Run(s: Chess, es: seq<Event>): (s': Chess)
    requires Ok(s) && ValidEvents(es)
    ensures Ok(s')
    decreases |es|
  {
    if es == [] then s
    else
      var last := es[|es| - 1];
      Step(Run(s, es[..|es| - 1]), last.pin, last.up)
  }

  const START_BOARD: seq<char> :=
    "rnbqkbnr" + "pppppppp" + "        " + "        " + "        " + "        " + "PPPPPPPP" + "RNBQKBNR"

  /** `reset_fsm` with the given board: the machine is terminated until the first event starts it. */
  function Reset(board: seq<char>): Chess {
    Chess(board, Turn(White), Turn(White), false, true, false, Rights(true, true, true, true), false, 0, 0, 0, 0, 0,
        None)
  }
}
