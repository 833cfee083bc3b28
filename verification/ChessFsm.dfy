/** The state machine in the C code's own form: one mutable structure and 27 run functions. Each
    run function is proved to do what module ChessModel defines for its colour and wing. */
module ChessFsm {
  import opened Basics
  import opened ChessModel

  const WHITE_KING_STARTINGSQUARE: nat := 63 - 3
  const BLACK_KING_STARTINGSQUARE: nat := 0 + 4
  const WHITE_ROOK_KINGSIDE_STARTINGSQUARE: nat := 63 - 0
  const WHITE_ROOK_QUEENSIDE_STARTINGSQUARE: nat := 63 - 7
  const BLACK_ROOK_KINGSIDE_STARTINGSQUARE: nat := 0 + 7
  const BLACK_ROOK_QUEENSIDE_STARTINGSQUARE: nat := 0
  const WHITE_KING_KINGSIDE_CASTLESQUARE: nat := 63 - 1
  const WHITE_KING_QUEENSIDE_CASTLESQUARE: nat := 63 - 5
  const BLACK_KING_KINGSIDE_CASTLESQUARE: nat := 0 + 6
  const BLACK_KING_QUEENSIDE_CASTLESQUARE: nat := 0 + 2
  const WHITE_ROOK_KINGSIDE_CASTLESQUARE: nat := 63 - 2
  const WHITE_ROOK_QUEENSIDE_CASTLESQUARE: nat := 63 - 4
  const BLACK_ROOK_KINGSIDE_CASTLESQUARE: nat := 0 + 5
  const BLACK_ROOK_QUEENSIDE_CASTLESQUARE: nat := 0 + 3

  class ChessState {
    // smf_ctx
    var current: State
    var terminated: bool
    // the event being handled
    var isUp: bool
    var isDown: bool
    var pinNumber: nat
    var piece: char
    var isEmptySquare: bool
    var isBlackPiece: bool
    var isWhitePiece: bool
    var canCastle: bool
    // the game
    var directToError: bool
    const board: array<char>
    var stateVal: State
    var blackKingside: bool
    var blackQueenside: bool
    var whiteKingside: bool
    var whiteQueenside: bool
    var enPassant: bool
    var enPassantSquare: nat
    var plySincePonr: nat
    var ply: nat
    var x: nat
    var y: nat
    var isStarted: bool
    var shellObj: Option<MoveRecord>   // a global in the C code

    ghost function GetRights(): Rights
      reads this
    {
      Rights(whiteKingside, whiteQueenside, blackKingside, blackQueenside)
    }

    ghost function View(): Chess
      reads this, board
    {
      Chess(board[..], current, stateVal, isStarted, terminated, directToError, GetRights(),
            enPassant, enPassantSquare, plySincePonr, ply, x, y, shellObj)
    }

    ghost predicate Valid()
      reads this, board
    {
      board.Length == 64 && x < 64 && y < 64
    }

    /** `pin_change` has filled in the event. */
    ghost predicate Loaded()
      reads this, board
    {
      && Valid() && pinNumber < 64 && isDown == !isUp && piece == board[pinNumber]
      && isEmptySquare == (piece == EMPTY) && isWhitePiece == IsOf(White, piece) && isBlackPiece == IsOf(Black, piece)
    }

    /** `reset_fsm` on a fresh structure, with the board it is given. */
    constructor (squares: seq<char>)
      requires |squares| == 64
      ensures Valid() && View() == Reset(squares)
    {
      board := new char[64](i requires 0 <= i < 64 => squares[i]);
      current, stateVal, terminated, isStarted, directToError := Turn(White), Turn(White), true, false, false;
      blackKingside, blackQueenside, whiteKingside, whiteQueenside := true, true, true, true;
      enPassant, enPassantSquare, plySincePonr, ply, x, y := false, 0, 0, 0, 0, 0;
      isDown, isUp, piece, pinNumber, canCastle := true, false, EMPTY, 0, false;
      isEmptySquare, isWhitePiece, isBlackPiece := false, false, false;
      shellObj := None;
      new;
      assert board[..] == squares;
    }

    // ----- the framework -----

    /** `smf_set_state`, with the entry action `general_entry`. */
    method SetState(to: State)
      requires Valid() && pinNumber < 64
      modifies this`current, this`directToError
      ensures View() == old(View()).(current := to)
    {
      current := to;
      directToError := directToError || pinNumber > board.Length;
    }

    /** The pair of lines that nearly every branch has: `state_val` and the framework's state change together. */
    method Enter(to: State)
      requires Valid() && pinNumber < 64
      modifies this`stateVal, this`current, this`directToError
      ensures Valid() && View() == Goto(old(View()), to)
    {
      stateVal := to;
      SetState(to);
    }

    // ----- bookkeeping -----

    /** `check_en_passant` */
    method CheckEnPassant(pin: nat, pawn: char)
      requires Valid() && pin < 64 && (pawn == 'P' || pawn == 'p')
      modifies this`enPassant, this`enPassantSquare
      ensures View() == old(View()).(
        enPassant := if board[pin] == pawn then pin - x == (if pawn == 'P' then -16 else 16) else old(enPassant),
        enPassantSquare :=
          if board[pin] == pawn then (if pawn == 'P' then pin + 8 else pin - 8) % 256 else old(enPassantSquare))
    {
      if pawn == 'P' {
        if board[pin] == 'P' {
          enPassant := pin - x == -16;
          enPassantSquare := (pin + 8) % 256;
        }
      } else if pawn == 'p' {
        if board[pin] == 'p' {
          enPassant := pin - x == 16;
          enPassantSquare := (pin - 8) % 256;
        }
      }
    }

    /** `handle_ponr` */
    method HandlePonr(pin: nat, pawn: char)
      requires Valid() && pin < 64
      modifies this`plySincePonr
      ensures View() == old(View()).(plySincePonr := if board[pin] == pawn then 0 else NextByte(old(plySincePonr)))
    {
      if board[pin] == pawn { plySincePonr := 0; } else { plySincePonr := (plySincePonr + 1) % 256; }
    }

    /** `check_castling` */
    method CheckCastling(pin: nat, king: char)
      requires Valid() && pin < 64 && (king == 'K' || king == 'k')
      modifies this`whiteKingside, this`whiteQueenside, this`blackKingside, this`blackQueenside
      ensures GetRights() == RightsAfter(if king == 'K' then White else Black, old(GetRights()), board[pin], x)
    {
      if king == 'K' {
        if board[pin] == 'K' {
          whiteKingside, whiteQueenside := false, false;
        } else if board[pin] == 'R' {
          whiteKingside := whiteKingside && x == WHITE_ROOK_KINGSIDE_STARTINGSQUARE;
          whiteQueenside := whiteQueenside && x == WHITE_ROOK_QUEENSIDE_STARTINGSQUARE;
        }
      } else {
        if board[pin] == 'k' {
          blackKingside, blackQueenside := false, false;
        } else if board[pin] == 'r' {
          blackKingside := blackKingside && x == BLACK_ROOK_KINGSIDE_STARTINGSQUARE;
          blackQueenside := blackQueenside && x == BLACK_ROOK_QUEENSIDE_STARTINGSQUARE;
        }
      }
    }

    /** `handle_promotion` */
    method HandlePromotion(pin: nat, pawn: char) returns (promoted: bool)
      requires Valid() && pin < 64 && (pawn == 'P' || pawn == 'p')
      modifies board
      ensures View() == old(View()).(board :=
          old(board[..])[pin := Promoted(if pawn == 'P' then White else Black, old(board[pin]), pin)])
      ensures promoted <==> old(board[pin]) == pawn && LastRank(if pawn == 'P' then White else Black, pin)
    {
      promoted := false;
      if pawn == 'P' {
        if board[pin] == 'P' && pin < 8 {
          board[pin] := 'Q';
          promoted := true;
        }
      } else {
        if board[pin] == 'p' && pin > 63 - 8 {
          board[pin] := 'q';
          promoted := true;
        }
      }
      assert board[..] == old(board[..])[pin := board[pin]];
    }

    /** `can_castle` */
    predicate CanCastle(s: State, pin: nat)
      requires Valid() && pin < 64
      reads this, board
    {
      if s == Turn(White) then board[pin] == 'K' && (whiteKingside || whiteQueenside)
      else if s == Turn(Black) then board[pin] == 'k' && (blackKingside || blackQueenside)
      else false
    }

    /** The four squares of a castling, as the END_*_CASTLING_* macros write them. */
    method PlaceCastled(rookFrom: nat, rookTo: nat, rook: char, kingFrom: nat, kingTo: nat, king: char)
      requires Valid() && rookFrom < 64 && rookTo < 64 && kingFrom < 64 && kingTo < 64
      modifies board
      ensures View() == old(View()).(board :=
          old(board[..])[rookFrom := EMPTY][rookTo := rook][kingFrom := EMPTY][kingTo := king])
    {
      board[rookFrom] := EMPTY;
      board[rookTo] := rook;
      board[kingFrom] := EMPTY;
      board[kingTo] := king;
      assert board[..] == old(board[..])[rookFrom := EMPTY][rookTo := rook][kingFrom := EMPTY][kingTo := king];
    }

    /** `send_move` */
    method SendMove()
      requires Valid() && pinNumber < 64
      modifies this`shellObj
      ensures View() == old(View()).(record := Some(MoveRecord(ply, x, pinNumber, board[pinNumber], EMPTY, NormalMove)))
    {
      shellObj := Some(MoveRecord(ply, x, pinNumber, board[pinNumber], EMPTY, NormalMove));
    }

    /** `send_move_castle_kingside` */
    method SendMoveCastleKingside(isWhite: bool)
      modifies this`shellObj
      ensures shellObj == Some(CastlingRecord(if isWhite then White else Black, KingSide, ply))
    {
      shellObj := Some(MoveRecord(
        ply,
        if isWhite then WHITE_KING_STARTINGSQUARE else BLACK_KING_STARTINGSQUARE,
        if isWhite then WHITE_ROOK_KINGSIDE_STARTINGSQUARE else BLACK_ROOK_KINGSIDE_CASTLESQUARE,
        if isWhite then 'K' else 'k',
        if isWhite then 'R' else 'r',
        CastlingMove));
    }

    /** `send_move_castle_queenside` */
    method SendMoveCastleQueenside(isWhite: bool)
      modifies this`shellObj
      ensures shellObj == Some(CastlingRecord(if isWhite then White else Black, QueenSide, ply))
    {
      shellObj := Some(MoveRecord(
        ply,
        if isWhite then WHITE_KING_STARTINGSQUARE else BLACK_KING_STARTINGSQUARE,
        if isWhite then WHITE_ROOK_QUEENSIDE_STARTINGSQUARE else BLACK_ROOK_QUEENSIDE_CASTLESQUARE,
        if isWhite then 'K' else 'k',
        if isWhite then 'R' else 'r',
        CastlingMove));
    }

    /** The lines every landing starts with: put the lifted piece down and count the ply. */
    method Land()
      requires Valid() && pinNumber < 64
      modifies this`ply, board
      ensures View() == old(View()).(ply := NextByte(old(ply)),
                                     board := old(board[..])[pinNumber := old(board[x])][x := EMPTY])
    {
      board[pinNumber] := board[x];
      board[x] := EMPTY;
      ply := (ply + 1) % 256;
    }

    /** The lines every landing ends with: castling rights, promotion and the move record. */
    method Settle(pawn: char, king: char)
      requires Valid() && pinNumber < 64 && ((pawn == 'P' && king == 'K') || (pawn == 'p' && king == 'k'))
      modifies this`shellObj, this`whiteKingside, this`whiteQueenside, this`blackKingside, this`blackQueenside, board
      ensures var c, p := if pawn == 'P' then White else Black, old(board[pinNumber]);
        View() == old(View()).(
          board := old(board[..])[pinNumber := Promoted(c, p, pinNumber)],
          rights := RightsAfter(c, old(GetRights()), p, x),
          record := Some(MoveRecord(ply, x, pinNumber, Promoted(c, p, pinNumber), EMPTY, NormalMove)))
    {
      CheckCastling(pinNumber, king);
      var promotion := HandlePromotion(pinNumber, pawn);
      SendMove();
    }

    /** The branch of `white_move_run` and `black_move_run` that lands the piece. */
    method FinishMove(pawn: char, king: char)
      requires Valid() && pinNumber < 64 && ((pawn == 'P' && king == 'K') || (pawn == 'p' && king == 'k'))
      modifies this`ply, this`plySincePonr, this`enPassant, this`enPassantSquare, this`shellObj,
        this`whiteKingside, this`whiteQueenside, this`blackKingside, this`blackQueenside, board
      ensures Valid() && pinNumber == old(pinNumber)
      ensures var c := if pawn == 'P' then White else Black;
        View() == MovePiece(c, old(View()), pinNumber).(current := old(current), stateVal := old(stateVal))
    {
      Land();
      CheckEnPassant(pinNumber, pawn);
      HandlePonr(pinNumber, pawn);
      Settle(pawn, king);
    }

    /** The branch of `white_capture_run` and `black_capture_run` that lands the piece. */
    method FinishCapture(pawn: char, king: char, isEnPassant: bool)
      requires Valid() && pinNumber < 64 && ((pawn == 'P' && king == 'K') || (pawn == 'p' && king == 'k'))
      requires isEnPassant == (enPassant && enPassantSquare == pinNumber)
      modifies this`ply, this`plySincePonr, this`enPassant, this`shellObj,
        this`whiteKingside, this`whiteQueenside, this`blackKingside, this`blackQueenside, board
      ensures Valid() && pinNumber == old(pinNumber)
      ensures var c := if pawn == 'P' then White else Black;
        View() == CapturePiece(c, old(View()), pinNumber).(current := old(current), stateVal := old(stateVal))
    {
      Land();
      if isEnPassant { board[y] := EMPTY; }
      assert board[..] == CapturedBoard(old(View()), pinNumber);
      plySincePonr := 0;
      enPassant := false;
      Settle(pawn, king);
    }

    // ----- white -----

    method WhiteRun()
      requires Loaded()
      modifies this`current, this`stateVal, this`directToError, this`x, this`y
      ensures Valid() && View() == RunTurn(White, old(View()), old(pinNumber), old(isUp))
    {
      if directToError {
        Enter(Error);
        return;
      }
      if isDown || isEmptySquare {
        Enter(Error);
      } else if CanCastle(Turn(White), pinNumber) {
        Enter(Castling(White));
      } else if isWhitePiece {
        x := pinNumber;
        Enter(Move(White));
      } else {
        y := pinNumber;
        Enter(EnemyCapture(White));
      }
    }

    method WhiteMoveRun()
      requires Loaded()
      modifies this, board
      ensures Valid() && View() == RunMove(White, old(View()), old(pinNumber), old(isUp))
    {
      var isXDown := isDown && x == pinNumber;
      if isXDown {
        Enter(Turn(White));
      } else if isDown {
        Enter(Turn(Black));
        FinishMove('P', 'K');
      } else if isBlackPiece {
        y := pinNumber;
        Enter(Capture(White));
      } else {
        Enter(Error);
      }
    }

    method WhiteCaptureRun()
      requires Loaded()
      modifies this, board
      ensures Valid() && View() == RunCapture(White, old(View()), old(pinNumber), old(isUp))
    {
      var isYDown := isDown && y == pinNumber;
      var isEnPassant := isDown && enPassant && enPassantSquare == pinNumber;
      if isYDown || isEnPassant {
        Enter(Turn(Black));
        FinishCapture('P', 'K', isEnPassant);
      } else {
        stateVal := Error;
        SetState(Turn(Black));
      }
    }

    method WhiteEnemyCaptureRun()
      requires Loaded()
      modifies this`current, this`stateVal, this`directToError, this`x, this`y
      ensures Valid() && View() == RunEnemyCapture(White, old(View()), old(pinNumber), old(isUp))
    {
      if isUp && isWhitePiece {
        x := pinNumber;
        Enter(Capture(White));
      } else if isUp {
        Enter(Error);
      } else if pinNumber == y {
        Enter(Turn(White));
      } else if isDown {
        Enter(Error);
      }
    }

    method WhiteCastlingRun()
      requires Loaded() && isStarted && !terminated && current == Castling(White)
      modifies this, board
      ensures Valid() && View() == RunCastling(White, old(View()), old(pinNumber), old(isUp))
      decreases 1, 1
    {
      if isDown { WhiteCastlingPut(); } else { WhiteCastlingLift(); }
    }

    method WhiteCastlingPut()
      requires isDown
      requires Loaded() && isStarted && !terminated && current == Castling(White)
      modifies this, board
      ensures Valid() && View() == RunCastling(White, old(View()), old(pinNumber), old(isUp))
      decreases 1, 0
    {
      if pinNumber == WHITE_KING_STARTINGSQUARE {
        Enter(Turn(White));
      } else if pinNumber == WHITE_KING_KINGSIDE_CASTLESQUARE && whiteKingside {
        Enter(KingDown(White, KingSide));
      } else if pinNumber == WHITE_KING_QUEENSIDE_CASTLESQUARE && whiteQueenside {
        Enter(KingDown(White, QueenSide));
      } else {
        x := WHITE_KING_STARTINGSQUARE;
        Enter(Move(White));
        PinChange(pinNumber, isUp);
      }
    }

    method WhiteCastlingLift()
      requires isUp
      requires Loaded() && isStarted && !terminated && current == Castling(White)
      modifies this`current, this`stateVal, this`directToError, this`x, this`y
      ensures Valid() && View() == RunCastling(White, old(View()), old(pinNumber), old(isUp))
    {
      if isWhitePiece {
        if board[pinNumber] == 'R' {
          if pinNumber == WHITE_ROOK_KINGSIDE_STARTINGSQUARE && whiteKingside {
            Enter(KingUpRookUp(White, KingSide));
          } else if pinNumber == WHITE_ROOK_QUEENSIDE_STARTINGSQUARE && whiteQueenside {
            Enter(KingUpRookUp(White, QueenSide));
          } else {
            Enter(Error);
          }
        } else {
          Enter(Error);
        }
      } else if isBlackPiece {
        Enter(Capture(White));
        y := pinNumber;
        x := WHITE_KING_STARTINGSQUARE;
      }
    }

    method WhiteCastlingKingsideKingDownRun()
      requires Loaded()
      modifies this`current, this`stateVal, this`directToError, this`x, this`y
      ensures Valid() && View() == RunKingDown(White, KingSide, old(View()), old(pinNumber), old(isUp))
    {
      if isUp && board[pinNumber] == 'R' && pinNumber == WHITE_ROOK_KINGSIDE_STARTINGSQUARE {
        Enter(KingDownRookUp(White, KingSide));
      } else {
        Enter(Error);
      }
    }

    /** END_KINGSIDE_CASTLING_WHITE */
    method EndCastlingKingsideWhite()
      requires Valid()
      modifies this`whiteKingside, this`whiteQueenside, this`ply, this`enPassant, board
      ensures Valid()
      ensures View() == EndCastling(White, KingSide, old(View())).(current := current, stateVal := stateVal,
          record := shellObj)
    {
      whiteKingside, whiteQueenside := false, false;
      ply := (ply + 1) % 256;
      enPassant := false;
      assert View() == old(View()).(rights := old(View()).rights.Set(White, false, false), ply := ply,
                                    enPassant := false);
      PlaceCastled(WHITE_ROOK_KINGSIDE_STARTINGSQUARE, WHITE_ROOK_KINGSIDE_CASTLESQUARE, 'R',
                   WHITE_KING_STARTINGSQUARE, WHITE_KING_KINGSIDE_CASTLESQUARE, 'K');
    }

    method WhiteCastlingKingsideKingDownRookUpRun()
      requires Loaded()
      modifies this, board
      ensures Valid() && View() == RunKingDownRookUp(White, KingSide, old(View()), old(pinNumber), old(isUp))
    {
      if isDown && pinNumber == WHITE_ROOK_KINGSIDE_CASTLESQUARE {
        EndCastlingKingsideWhite();
        Enter(Turn(Black));
        SendMoveCastleKingside(true);
      } else {
        Enter(Error);
      }
    }

    method WhiteCastlingKingsideKingUpRookUpRun()
      requires Loaded()
      modifies this`current, this`stateVal, this`directToError, this`x, this`y
      ensures Valid() && View() == RunKingUpRookUp(White, KingSide, old(View()), old(pinNumber), old(isUp))
    {
      if isDown && pinNumber == WHITE_KING_KINGSIDE_CASTLESQUARE {
        Enter(KingDownRookUp(White, KingSide));
      } else if isDown && pinNumber == WHITE_ROOK_KINGSIDE_CASTLESQUARE {
        Enter(KingUpRookDown(White, KingSide));
      } else {
        Enter(Error);
      }
    }

    method WhiteCastlingKingsideKingUpRookDownRun()
      requires Loaded()
      modifies this, board
      ensures Valid() && View() == RunKingUpRookDown(White, KingSide, old(View()), old(pinNumber), old(isUp))
    {
      if isDown && pinNumber == WHITE_KING_KINGSIDE_CASTLESQUARE {
        EndCastlingKingsideWhite();
        Enter(Turn(Black));
        SendMoveCastleKingside(true);
      } else {
        Enter(Error);
      }
    }

    method WhiteCastlingQueensideKingDownRun()
      requires Loaded()
      modifies this`current, this`stateVal, this`directToError, this`x, this`y
      ensures Valid() && View() == RunKingDown(White, QueenSide, old(View()), old(pinNumber), old(isUp))
    {
      if isUp && board[pinNumber] == 'R' && pinNumber == WHITE_ROOK_QUEENSIDE_STARTINGSQUARE {
        Enter(KingDownRookUp(White, QueenSide));
      } else {
        Enter(Error);
      }
    }

    /** END_QUEENSIDE_CASTLING_WHITE */
    method EndCastlingQueensideWhite()
      requires Valid()
      modifies this`whiteKingside, this`whiteQueenside, this`ply, this`enPassant, board
      ensures Valid()
      ensures View() == EndCastling(White, QueenSide, old(View())).(current := current, stateVal := stateVal,
          record := shellObj)
    {
      whiteKingside, whiteQueenside := false, false;
      ply := (ply + 1) % 256;
      enPassant := false;
      assert View() == old(View()).(rights := old(View()).rights.Set(White, false, false), ply := ply,
                                    enPassant := false);
      PlaceCastled(WHITE_ROOK_QUEENSIDE_STARTINGSQUARE, WHITE_ROOK_QUEENSIDE_CASTLESQUARE, 'R',
                   WHITE_KING_STARTINGSQUARE, WHITE_KING_QUEENSIDE_CASTLESQUARE, 'K');
    }

    method WhiteCastlingQueensideKingDownRookUpRun()
      requires Loaded()
      modifies this, board
      ensures Valid() && View() == RunKingDownRookUp(White, QueenSide, old(View()), old(pinNumber), old(isUp))
    {
      if isDown && pinNumber == WHITE_ROOK_QUEENSIDE_CASTLESQUARE {
        EndCastlingQueensideWhite();
        Enter(Turn(Black));
        SendMoveCastleQueenside(true);
      } else {
        Enter(Error);
      }
    }

    method WhiteCastlingQueensideKingUpRookUpRun()
      requires Loaded()
      modifies this`current, this`stateVal, this`directToError, this`x, this`y
      ensures Valid() && View() == RunKingUpRookUp(White, QueenSide, old(View()), old(pinNumber), old(isUp))
    {
      if isDown && pinNumber == WHITE_KING_QUEENSIDE_CASTLESQUARE {
        Enter(KingDownRookUp(White, QueenSide));
      } else if isDown && pinNumber == WHITE_ROOK_QUEENSIDE_CASTLESQUARE {
        Enter(KingUpRookDown(White, QueenSide));
      } else {
        Enter(Error);
      }
    }

    method WhiteCastlingQueensideKingUpRookDownRun()
      requires Loaded()
      modifies this, board
      ensures Valid() && View() == RunKingUpRookDown(White, QueenSide, old(View()), old(pinNumber), old(isUp))
    {
      if isDown && pinNumber == WHITE_KING_QUEENSIDE_CASTLESQUARE {
        EndCastlingQueensideWhite();
        Enter(Turn(Black));
        SendMoveCastleQueenside(true);
      } else {
        Enter(Error);
      }
    }

    // ----- black -----

    method BlackRun()
      requires Loaded()
      modifies this`current, this`stateVal, this`directToError, this`x, this`y
      ensures Valid() && View() == RunTurn(Black, old(View()), old(pinNumber), old(isUp))
    {
      if directToError {
        Enter(Error);
        return;
      }
      if isDown || isEmptySquare {
        Enter(Error);
      } else if CanCastle(Turn(Black), pinNumber) {
        Enter(Castling(Black));
      } else if isBlackPiece {
        x := pinNumber;
        Enter(Move(Black));
      } else {
        y := pinNumber;
        Enter(EnemyCapture(Black));
      }
    }

    method BlackMoveRun()
      requires Loaded()
      modifies this, board
      ensures Valid() && View() == RunMove(Black, old(View()), old(pinNumber), old(isUp))
    {
      var isXDown := isDown && x == pinNumber;
      if isXDown {
        Enter(Turn(Black));
      } else if isDown {
        Enter(Turn(White));
        FinishMove('p', 'k');
      } else if isWhitePiece {
        y := pinNumber;
        Enter(Capture(Black));
      } else {
        Enter(Error);
      }
    }

    method BlackCaptureRun()
      requires Loaded()
      modifies this, board
      ensures Valid() && View() == RunCapture(Black, old(View()), old(pinNumber), old(isUp))
    {
      var isYDown := isDown && y == pinNumber;
      var isEnPassant := isDown && enPassant && enPassantSquare == pinNumber;
      if isYDown || isEnPassant {
        Enter(Turn(White));
        FinishCapture('p', 'k', isEnPassant);
      } else {
        Enter(Error);
      }
    }

    method BlackEnemyCaptureRun()
      requires Loaded()
      modifies this`current, this`stateVal, this`directToError, this`x, this`y
      ensures Valid() && View() == RunEnemyCapture(Black, old(View()), old(pinNumber), old(isUp))
    {
      if isUp && isBlackPiece {
        x := pinNumber;
        Enter(Capture(Black));
      } else if isUp {
        Enter(Error);
      } else if pinNumber == y {
        Enter(Turn(Black));
      } else if isDown {
        Enter(Error);
      }
    }

    method BlackCastlingRun()
      requires Loaded() && isStarted && !terminated && current == Castling(Black)
      modifies this, board
      ensures Valid() && View() == RunCastling(Black, old(View()), old(pinNumber), old(isUp))
      decreases 1, 1
    {
      if isDown { BlackCastlingPut(); } else { BlackCastlingLift(); }
    }

    method BlackCastlingPut()
      requires isDown
      requires Loaded() && isStarted && !terminated && current == Castling(Black)
      modifies this, board
      ensures Valid() && View() == RunCastling(Black, old(View()), old(pinNumber), old(isUp))
      decreases 1, 0
    {
      if pinNumber == BLACK_KING_STARTINGSQUARE {
        Enter(Turn(Black));
      } else if pinNumber == BLACK_KING_KINGSIDE_CASTLESQUARE && blackKingside {
        Enter(KingDown(Black, KingSide));
      } else if pinNumber == BLACK_KING_QUEENSIDE_CASTLESQUARE && blackQueenside {
        Enter(KingDown(Black, QueenSide));
      } else {
        x := BLACK_KING_STARTINGSQUARE;
        Enter(Move(Black));
        PinChange(pinNumber, isUp);
      }
    }

    method BlackCastlingLift()
      requires isUp
      requires Loaded() && isStarted && !terminated && current == Castling(Black)
      modifies this`current, this`stateVal, this`directToError, this`x, this`y
      ensures Valid() && View() == RunCastling(Black, old(View()), old(pinNumber), old(isUp))
    {
      if isBlackPiece {
        if board[pinNumber] == 'r' {
          if pinNumber == BLACK_ROOK_KINGSIDE_STARTINGSQUARE && blackKingside {
            Enter(KingUpRookUp(Black, KingSide));
          } else if pinNumber == BLACK_ROOK_QUEENSIDE_STARTINGSQUARE && blackQueenside {
            Enter(KingUpRookUp(Black, QueenSide));
          } else {
            Enter(Error);
          }
        } else {
          Enter(Error);
        }
      } else if isWhitePiece {
        Enter(Capture(Black));
        y := pinNumber;
        x := BLACK_KING_STARTINGSQUARE;
      }
    }

    method BlackCastlingKingsideKingDownRun()
      requires Loaded()
      modifies this`current, this`stateVal, this`directToError, this`x, this`y
      ensures Valid() && View() == RunKingDown(Black, KingSide, old(View()), old(pinNumber), old(isUp))
    {
      if isUp && board[pinNumber] == 'r' && pinNumber == BLACK_ROOK_KINGSIDE_STARTINGSQUARE {
        Enter(KingDownRookUp(Black, KingSide));
      } else {
        Enter(Error);
      }
    }

    /** END_KINGSIDE_CASTLING_BLACK */
    method EndCastlingKingsideBlack()
      requires Valid()
      modifies this`blackKingside, this`blackQueenside, this`ply, this`enPassant, board
      ensures Valid()
      ensures View() == EndCastling(Black, KingSide, old(View())).(current := current, stateVal := stateVal,
          record := shellObj)
    {
      blackKingside, blackQueenside := false, false;
      ply := (ply + 1) % 256;
      enPassant := false;
      assert View() == old(View()).(rights := old(View()).rights.Set(Black, false, false), ply := ply,
                                    enPassant := false);
      PlaceCastled(BLACK_ROOK_KINGSIDE_STARTINGSQUARE, BLACK_ROOK_KINGSIDE_CASTLESQUARE, 'r',
                   BLACK_KING_STARTINGSQUARE, BLACK_KING_KINGSIDE_CASTLESQUARE, 'k');
    }

    method BlackCastlingKingsideKingDownRookUpRun()
      requires Loaded()
      modifies this, board
      ensures Valid() && View() == RunKingDownRookUp(Black, KingSide, old(View()), old(pinNumber), old(isUp))
    {
      if isDown && pinNumber == BLACK_ROOK_KINGSIDE_CASTLESQUARE {
        EndCastlingKingsideBlack();
        Enter(Turn(White));
        SendMoveCastleKingside(false);
      } else {
        Enter(Error);
      }
    }

    method BlackCastlingKingsideKingUpRookUpRun()
      requires Loaded()
      modifies this`current, this`stateVal, this`directToError, this`x, this`y
      ensures Valid() && View() == RunKingUpRookUp(Black, KingSide, old(View()), old(pinNumber), old(isUp))
    {
      if isDown && pinNumber == BLACK_KING_KINGSIDE_CASTLESQUARE {
        Enter(KingDownRookUp(Black, KingSide));
      } else if isDown && pinNumber == BLACK_ROOK_KINGSIDE_CASTLESQUARE {
        Enter(KingUpRookDown(Black, KingSide));
      } else {
        Enter(Error);
      }
    }

    method BlackCastlingKingsideKingUpRookDownRun()
      requires Loaded()
      modifies this, board
      ensures Valid() && View() == RunKingUpRookDown(Black, KingSide, old(View()), old(pinNumber), old(isUp))
    {
      if isDown && pinNumber == BLACK_KING_KINGSIDE_CASTLESQUARE {
        EndCastlingKingsideBlack();
        Enter(Turn(White));
        SendMoveCastleKingside(false);
      } else {
        Enter(Error);
      }
    }

    method BlackCastlingQueensideKingDownRun()
      requires Loaded()
      modifies this`current, this`stateVal, this`directToError, this`x, this`y
      ensures Valid() && View() == RunKingDown(Black, QueenSide, old(View()), old(pinNumber), old(isUp))
    {
      if isUp && board[pinNumber] == 'r' && pinNumber == BLACK_ROOK_QUEENSIDE_STARTINGSQUARE {
        Enter(KingDownRookUp(Black, QueenSide));
      } else {
        Enter(Error);
      }
    }

    /** END_QUEENSIDE_CASTLING_BLACK */
    method EndCastlingQueensideBlack()
      requires Valid()
      modifies this`blackKingside, this`blackQueenside, this`ply, this`enPassant, board
      ensures Valid()
      ensures View() == EndCastling(Black, QueenSide, old(View())).(current := current, stateVal := stateVal,
          record := shellObj)
    {
      blackKingside, blackQueenside := false, false;
      ply := (ply + 1) % 256;
      enPassant := false;
      assert View() == old(View()).(rights := old(View()).rights.Set(Black, false, false), ply := ply,
                                    enPassant := false);
      PlaceCastled(BLACK_ROOK_QUEENSIDE_STARTINGSQUARE, BLACK_ROOK_QUEENSIDE_CASTLESQUARE, 'r',
                   BLACK_KING_STARTINGSQUARE, BLACK_KING_QUEENSIDE_CASTLESQUARE, 'k');
    }

    method BlackCastlingQueensideKingDownRookUpRun()
      requires Loaded()
      modifies this, board
      ensures Valid() && View() == RunKingDownRookUp(Black, QueenSide, old(View()), old(pinNumber), old(isUp))
    {
      if isDown && pinNumber == BLACK_ROOK_QUEENSIDE_CASTLESQUARE {
        EndCastlingQueensideBlack();
        Enter(Turn(White));
        SendMoveCastleQueenside(false);
      } else {
        Enter(Error);
      }
    }

    method BlackCastlingQueensideKingUpRookUpRun()
      requires Loaded()
      modifies this`current, this`stateVal, this`directToError, this`x, this`y
      ensures Valid() && View() == RunKingUpRookUp(Black, QueenSide, old(View()), old(pinNumber), old(isUp))
    {
      if isDown && pinNumber == BLACK_KING_QUEENSIDE_CASTLESQUARE {
        Enter(KingDownRookUp(Black, QueenSide));
      } else if isDown && pinNumber == BLACK_ROOK_QUEENSIDE_CASTLESQUARE {
        Enter(KingUpRookDown(Black, QueenSide));
      } else {
        Enter(Error);
      }
    }

    method BlackCastlingQueensideKingUpRookDownRun()
      requires Loaded()
      modifies this, board
      ensures Valid() && View() == RunKingUpRookDown(Black, QueenSide, old(View()), old(pinNumber), old(isUp))
    {
      if isDown && pinNumber == BLACK_KING_QUEENSIDE_CASTLESQUARE {
        EndCastlingQueensideBlack();
        Enter(Turn(White));
        SendMoveCastleQueenside(false);
      } else {
        Enter(Error);
      }
    }

    // ----- dispatch -----

    method ErrorRun()
      modifies this`terminated
      ensures terminated
    {
      terminated := true;
    }

    /** `smf_run_state`: the state's own run function, unless the machine is terminated. */
    method RunCurrentState()
      requires Loaded() && isStarted
      modifies this, board
      ensures Valid() && View() == RunState(old(View()), old(pinNumber), old(isUp))
      decreases if current.Castling? then 1 else 0, 2
    {
      if terminated { return; }
      match current
      case Turn(White) => WhiteRun();
      case Turn(Black) => BlackRun();
      case Move(White) => WhiteMoveRun();
      case Move(Black) => BlackMoveRun();
      case Capture(White) => WhiteCaptureRun();
      case Capture(Black) => BlackCaptureRun();
      case EnemyCapture(White) => WhiteEnemyCaptureRun();
      case EnemyCapture(Black) => BlackEnemyCaptureRun();
      case Castling(White) => WhiteCastlingRun();
      case Castling(Black) => BlackCastlingRun();
      case Error => ErrorRun();
      case KingDown(White, _) => RunWhiteWing();
      case KingUpRookUp(White, _) => RunWhiteWing();
      case KingDownRookUp(White, _) => RunWhiteWing();
      case KingUpRookDown(White, _) => RunWhiteWing();
      case KingDown(Black, _) => RunBlackWing();
      case KingUpRookUp(Black, _) => RunBlackWing();
      case KingDownRookUp(Black, _) => RunBlackWing();
      case KingUpRookDown(Black, _) => RunBlackWing();
    }

    ghost predicate OnWing(c: Colour)
      reads this
    {
      (current.KingDown? || current.KingUpRookUp? || current.KingDownRookUp? || current.KingUpRookDown?)
          && current.c == c
    }

    method RunWhiteWing()
      requires Loaded() && isStarted && !terminated && OnWing(White)
      modifies this, board
      ensures Valid() && View() == RunState(old(View()), old(pinNumber), old(isUp))
    {
      match current
      case KingDown(_, KingSide) => WhiteCastlingKingsideKingDownRun();
      case KingDown(_, QueenSide) => WhiteCastlingQueensideKingDownRun();
      case KingUpRookUp(_, KingSide) => WhiteCastlingKingsideKingUpRookUpRun();
      case KingUpRookUp(_, QueenSide) => WhiteCastlingQueensideKingUpRookUpRun();
      case KingDownRookUp(_, KingSide) => WhiteCastlingKingsideKingDownRookUpRun();
      case KingDownRookUp(_, QueenSide) => WhiteCastlingQueensideKingDownRookUpRun();
      case KingUpRookDown(_, KingSide) => WhiteCastlingKingsideKingUpRookDownRun();
      case KingUpRookDown(_, QueenSide) => WhiteCastlingQueensideKingUpRookDownRun();
    }

    method RunBlackWing()
      requires Loaded() && isStarted && !terminated && OnWing(Black)
      modifies this, board
      ensures Valid() && View() == RunState(old(View()), old(pinNumber), old(isUp))
    {
      match current
      case KingDown(_, KingSide) => BlackCastlingKingsideKingDownRun();
      case KingDown(_, QueenSide) => BlackCastlingQueensideKingDownRun();
      case KingUpRookUp(_, KingSide) => BlackCastlingKingsideKingUpRookUpRun();
      case KingUpRookUp(_, QueenSide) => BlackCastlingQueensideKingUpRookUpRun();
      case KingDownRookUp(_, KingSide) => BlackCastlingKingsideKingDownRookUpRun();
      case KingDownRookUp(_, QueenSide) => BlackCastlingQueensideKingDownRookUpRun();
      case KingUpRookDown(_, KingSide) => BlackCastlingKingsideKingUpRookDownRun();
      case KingUpRookDown(_, QueenSide) => BlackCastlingQueensideKingUpRookDownRun();
    }

    method LoadPin(pin: nat, up: bool)
      requires Valid() && pin < 64
      modifies this`pinNumber, this`isUp, this`isDown, this`piece
      ensures View() == old(View()) && pinNumber == pin && isUp == up && isDown == !up && piece == board[pin]
    {
      pinNumber := pin;
      isUp := up;
      isDown := !up;
      piece := board[pinNumber];
    }

    method Classify()
      requires Valid()
      modifies this`isEmptySquare, this`isBlackPiece, this`isWhitePiece
      ensures View() == old(View())
      ensures isEmptySquare == (piece == EMPTY) && isWhitePiece == IsOf(White, piece)
          && isBlackPiece == IsOf(Black, piece)
    {
      isEmptySquare := piece == ' ';
      isBlackPiece := !isEmptySquare && !(piece < 'a');
      isWhitePiece := !isEmptySquare && !(piece > 'a');
    }

    /** The first half of `pin_change`: take in the event. */
    method LoadEvent(pin: nat, up: bool)
      requires Valid() && pin < 64
      modifies this`pinNumber, this`isUp, this`isDown, this`piece, this`isEmptySquare, this`isBlackPiece,
          this`isWhitePiece, this`canCastle
      ensures Loaded() && pinNumber == pin && isUp == up && View() == old(View())
    {
      LoadPin(pin, up);
      Classify();
      if stateVal == Turn(Black) || stateVal == Turn(White) {
        canCastle := CanCastle(stateVal, pinNumber);
      }
    }

    /** `smf_set_initial` */
    method Start()
      requires Valid() && pinNumber < 64
      modifies this`isStarted, this`terminated, this`current, this`directToError
      ensures Valid() && isStarted && View() == Started(old(View()))
    {
      if !isStarted {
        isStarted := true;
        terminated := false;
        SetState(Turn(White));
      }
    }

    /** `pin_change`: the whole machine refines `Step`. */
    method PinChange(pin: nat, up: bool)
      requires Valid() && pin < 64
      modifies this, board
      ensures Valid() && View() == Step(old(View()), pin, up)
      decreases if current.Castling? then 1 else 0, 3
    {
      ghost var s := View();
      LoadEvent(pin, up);
      Start();
      StepIs(s, pin, up);
      RunCurrentState();
    }
  }

  lemma StepIs(s: Chess, pin: nat, up: bool)
    requires Ok(s) && pin < 64
    ensures Step(s, pin, up) == RunState(Started(s), pin, up)
  {
  }
}
