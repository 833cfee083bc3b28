/** The pieces on the board in memory, counted: captures take them away and promotions exchange them. */
module ChessMaterial {
  import opened ChessModel
  import opened ChessCastling
  import opened ChessOccupancy
  import opened ChessRecords

  /** The move is that of a pawn which its record calls a queen. */
  predicate Promotes(s: Chess, s': Chess)
    requires Ok(s)
  {
    && Completes(s, s') && Usable(s') && s'.record.value.moveType.NormalMove?
    && s.board[s'.record.value.from] == Pawn(s.current.c) && s'.record.value.piece == Queen(s.current.c)
  }

  /** A capture leaves its square empty, and a promotion brings a queen. */
  function Comes(s: Chess, s': Chess): multiset<char>
    requires Ok(s)
  {
    (if Completes(s, s') && s.current.Capture? then multiset{EMPTY} else multiset{}) +
    (if Promotes(s, s') then multiset{Queen(s.current.c)} else multiset{})
  }

  /** The captured piece, and the pawn that is promoted. */
  function Goes(s: Chess, s': Chess): multiset<char>
    requires Ok(s)
  {
    (if Completes(s, s') && s.current.Capture? then multiset{s.board[s.y]} else multiset{}) +
    (if Promotes(s, s') then multiset{Pawn(s.current.c)} else multiset{})
  }

  predicate Balanced(s: Chess, s': Chess)
    requires Ok(s)
  {
    multiset(s'.board) + Goes(s, s') == multiset(s.board) + Comes(s, s')
  }

  // ----- one event -----

  lemma Replace(b: seq<char>, i: nat, p: char)
    requires i < |b|
    ensures multiset(b[i := p]) + multiset{b[i]} == multiset(b) + multiset{p}
  {
  }

  /** A piece that goes to an empty square. */
  lemma MovedPieces(b: seq<char>, x: nat, pin: nat)
    requires x < |b| && pin < |b| && x != pin && b[pin] == EMPTY
    ensures multiset(b[pin := b[x]][x := EMPTY]) == multiset(b)
  {
    Replace(b, pin, b[x]);
    Replace(b[pin := b[x]], x, EMPTY);
  }

  lemma PromotedPieces(c: Colour, b: seq<char>, pin: nat)
    requires pin < |b|
    ensures var q := Promoted(c, b[pin], pin);
      multiset(b[pin := q]) + (if b[pin] == Pawn(c) && q == Queen(c) then multiset{Pawn(c)} else multiset{})
      == multiset(b) + (if b[pin] == Pawn(c) && q == Queen(c) then multiset{Queen(c)} else multiset{})
  {
    Replace(b, pin, Promoted(c, b[pin], pin));
    if Promoted(c, b[pin], pin) == b[pin] { assert b[pin := b[pin]] == b; }
  }

  lemma MoveBalances(c: Colour, s: Chess, pin: nat)
    requires Ok(s) && pin < 64 && s.x != pin && s.board[pin] == EMPTY
    requires s.current == Move(c) || s.current == Castling(c)
    ensures Balanced(s, MovePiece(c, s, pin))
  {
    MovedPieces(s.board, s.x, pin);
    PromotedPieces(c, s.board[pin := s.board[s.x]][s.x := EMPTY], pin);
  }

  lemma CapturedPieces(s: Chess, pin: nat)
    requires Ok(s) && pin < 64 && s.x != s.y && s.x != pin && s.board[s.y] != EMPTY
    requires if TakesEnPassant(s, pin) then s.board[pin] == EMPTY else pin == s.y
    ensures multiset(CapturedBoard(s, pin)) + multiset{s.board[s.y]} == multiset(s.board) + multiset{EMPTY}
    ensures CapturedBoard(s, pin)[pin] == s.board[s.x]
  {
    var landed := s.board[pin := s.board[s.x]][s.x := EMPTY];
    if TakesEnPassant(s, pin) {
      MovedPieces(s.board, s.x, pin);
      Replace(landed, s.y, EMPTY);
    } else {
      Replace(s.board, pin, s.board[s.x]);
      Replace(s.board[pin := s.board[s.x]], s.x, EMPTY);
    }
  }

  lemma AddUp(a: multiset<char>, b: multiset<char>, c: multiset<char>, gone: multiset<char>, come: multiset<char>,
              gone': multiset<char>, come': multiset<char>)
    requires b + gone == a + come && c + gone' == b + come'
    ensures c + (gone + gone') == a + (come + come')
  {
    assert c + (gone + gone') == (c + gone') + gone == (b + come') + gone == (b + gone) + come';
  }

  lemma CaptureTrades(c: Colour, s: Chess, pin: nat, promoted: bool)
    requires Ok(s) && pin < 64 && s.current == Capture(c) && CapturedBoard(s, pin)[pin] == s.board[s.x]
    requires promoted <==> s.board[s.x] == Pawn(c) && Promoted(c, s.board[s.x], pin) == Queen(c)
    ensures var s' := CapturePiece(c, s, pin);
      && Goes(s, s') == multiset{s.board[s.y]} + (if promoted then multiset{Pawn(c)} else multiset{})
      && Comes(s, s') == multiset{EMPTY} + (if promoted then multiset{Queen(c)} else multiset{})
  {
    assert Promotes(s, CapturePiece(c, s, pin)) == promoted;
  }

  lemma CaptureBalances(c: Colour, s: Chess, pin: nat)
    requires Ok(s) && pin < 64 && s.x != s.y && s.x != pin && s.board[s.y] != EMPTY && s.current == Capture(c)
    requires if TakesEnPassant(s, pin) then s.board[pin] == EMPTY else pin == s.y
    ensures Balanced(s, CapturePiece(c, s, pin))
  {
    var b, s' := CapturedBoard(s, pin), CapturePiece(c, s, pin);
    var promoted := b[pin] == Pawn(c) && Promoted(c, b[pin], pin) == Queen(c);
    CapturedPieces(s, pin);
    PromotedPieces(c, b, pin);
    CaptureTrades(c, s, pin, promoted);
    AddUp(multiset(s.board), multiset(b), multiset(s'.board), multiset{s.board[s.y]}, multiset{EMPTY},
          if promoted then multiset{Pawn(c)} else multiset{}, if promoted then multiset{Queen(c)} else multiset{});
  }

  lemma CastlingBalances(c: Colour, w: Wing, s: Chess)
    requires CastlingSquares(c, w, s) && (s.current == KingDownRookUp(c, w) || s.current == KingUpRookDown(c, w))
    ensures Balanced(s, EndCastling(c, w, s))
  {
    CastledPieces(c, w, s);
    assert !Promotes(s, EndCastling(c, w, s));
  }

  lemma IdleBalances(s: Chess, s': Chess)
    requires Ok(s) && !Completes(s, s') && s'.board == s.board
    ensures Balanced(s, s')
  {
  }

  lemma KingMoveBalances(c: Colour, s: Chess, pin: nat)
    requires Ok(s) && pin < 64 && s.current == Castling(c) && !KingStays(c, s.rights, pin) && s.board[pin] == EMPTY
    ensures Balanced(s, RunCastling(c, s, pin, false))
  {
    var t := Goto(s, Move(c)).(x := KingHome(c));
    var s' := MovePiece(c, t, pin);
    KingMovesOn(c, s, pin);
    assert RunCastling(c, s, pin, false) == s';
    MoveBalances(c, t, pin);
    assert Promotes(s, s') == Promotes(t, s') && Completes(s, s') && Completes(t, s');
  }

  /** The pieces that a possible event without mistake takes from the board are the captured one and
      the promoted pawn, and those it brings are promoted queens. */
  lemma StepBalances(s: Chess, occ: set<nat>, e: Event)
    requires Coherent(s, occ, {}) && Possible(occ, e) && !MistakenEnPassant(s, e)
    requires Step(s, e.pin, e.up).stateVal != Error
    ensures Balanced(s, Step(s, e.pin, e.up))
  {
    var s' := Step(s, e.pin, e.up);
    StepStarts(s, e.pin, e.up);
    if s.current.Move? { LandingBalances(s.current.c, s, occ, e); }
    else if s.current.Capture? { CaptureLandsBalanced(s.current.c, s, occ, e); }
    else if s.current.Castling? { CastlingPutBalances(s.current.c, s, occ, e); }
    else if s.current.KingDownRookUp? || s.current.KingUpRookDown? { CastledBalances(s, occ, e); }
    else {
      NothingCompletes(s, e);
      IdleBalances(s, s');
    }
  }

  lemma LandingBalances(c: Colour, s: Chess, occ: set<nat>, e: Event)
    requires Coherent(s, occ, {}) && Possible(occ, e) && s.current == Move(c)
    ensures Balanced(s, RunMove(c, s, e.pin, e.up))
  {
    if !e.up && s.x != e.pin { MoveBalances(c, s, e.pin); } else { IdleBalances(s, RunMove(c, s, e.pin, e.up)); }
  }

  lemma CaptureLandsBalanced(c: Colour, s: Chess, occ: set<nat>, e: Event)
    requires Coherent(s, occ, {}) && Possible(occ, e) && !MistakenEnPassant(s, e) && s.current == Capture(c)
    ensures Balanced(s, RunCapture(c, s, e.pin, e.up))
  {
    if !e.up && (s.y == e.pin || TakesEnPassant(s, e.pin)) {
      CaptureBalances(c, s, e.pin);
    } else {
      IdleBalances(s, RunCapture(c, s, e.pin, e.up));
    }
  }

  lemma CastlingPutBalances(c: Colour, s: Chess, occ: set<nat>, e: Event)
    requires Coherent(s, occ, {}) && Possible(occ, e) && s.current == Castling(c)
    ensures Balanced(s, RunCastling(c, s, e.pin, e.up))
  {
    LiftCompletesNothing(c, s, e.pin);
    KingLiftWaits(c, s, e.pin);
    if e.up || KingStays(c, s.rights, e.pin) {
      IdleBalances(s, RunCastling(c, s, e.pin, e.up));
    } else {
      KingMoveBalances(c, s, e.pin);
    }
  }

  lemma CastledBalances(s: Chess, occ: set<nat>, e: Event)
    requires Coherent(s, occ, {}) && Possible(occ, e)
    requires s.current.KingDownRookUp? || s.current.KingUpRookDown?
    ensures Balanced(s, RunState(s, e.pin, e.up))
  {
    var c, w, s' := s.current.c, s.current.w, RunState(s, e.pin, e.up);
    if s' == Goto(s, Error) { IdleBalances(s, s'); } else { CastlingBalances(c, w, s); }
  }

  // ----- runs -----

  function GoneBy(s: Chess, es: seq<Event>): multiset<char>
    requires Ok(s) && ValidEvents(es)
    decreases |es|
  {
    if es == [] then multiset{}
    else
      var n := |es| - 1;
      var t := Run(s, es[..n]);
      GoneBy(s, es[..n]) + Goes(Started(t), Step(t, es[n].pin, es[n].up))
  }

  function ComeBy(s: Chess, es: seq<Event>): multiset<char>
    requires Ok(s) && ValidEvents(es)
    decreases |es|
  {
    if es == [] then multiset{}
    else
      var n := |es| - 1;
      var t := Run(s, es[..n]);
      ComeBy(s, es[..n]) + Comes(Started(t), Step(t, es[n].pin, es[n].up))
  }

  /** Over every clean run without mistake: the board holds the pieces it began with, less the captured
      ones and the promoted pawns, and with a queen for each of these. */
  lemma {:induction false} PiecesBalance(s: Chess, es: seq<Event>)
    requires Fresh(s) && ValidEvents(es) && CleanRun(s, Occupied(s.board), es) && NoMistake(s, es)
    ensures multiset(Run(s, es).board) + GoneBy(s, es) == multiset(s.board) + ComeBy(s, es)
    decreases |es|
  {
    if es == [] {
    } else {
      var n := |es| - 1;
      var t, s' := Run(s, es[..n]), Run(s, es);
      PiecesBalance(s, es[..n]);
      LastEventBalances(s, es);
      AddUp(multiset(s.board), multiset(t.board), multiset(s'.board), GoneBy(s, es[..n]), ComeBy(s, es[..n]),
            Goes(Started(t), s'), Comes(Started(t), s'));
    }
  }

  lemma LastEventBalances(s: Chess, es: seq<Event>)
    requires Fresh(s) && ValidEvents(es) && CleanRun(s, Occupied(s.board), es) && NoMistake(s, es) && es != []
    ensures Balanced(Started(Run(s, es[..|es| - 1])), Run(s, es))
  {
    var before, e := es[..|es| - 1], es[|es| - 1];
    var t, occ := Started(Run(s, before)), OccupiedAfter(Occupied(s.board), before);
    CleanRunsCoherent(s, before);
    NoMistakeNoLoss(s, before);
    StepStarts(Run(s, before), e.pin, e.up);
    StepBalances(t, occ, e);
  }
}
