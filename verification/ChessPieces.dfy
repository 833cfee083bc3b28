/** Which piece stands where: the letters of the board in memory against the pieces on the table. */
module ChessPieces {
  import opened ChessModel
  import opened ChessCastling
  import opened ChessOccupancy
  import opened ChessMirrorRuns

  /** The pieces on the table, and those in the players' hands by the squares they were lifted from. */
  datatype World = World(table: map<nat, char>, hand: map<nat, char>)

  /** A sensor only tells the square. The players know which piece they put. */
  datatype Act = Lift(pin: nat) | Put(pin: nat, origin: nat)

  function EventOf(a: Act): Event { Event(a.pin, a.Lift?) }

  predicate Can(w: World, a: Act) {
    a.pin < 64 && if a.Lift? then a.pin in w.table else a.pin !in w.table && a.origin in w.hand
  }

  function Do(w: World, a: Act): World {
    if !Can(w, a) then w
    else
      match a
      case Lift(pin) => World(w.table - {pin}, w.hand[pin := w.table[pin]])
      case Put(pin, origin) => World(w.table[pin := w.hand[origin]], w.hand - {origin})
  }

  /** When the turn is over, a captured piece is put aside. */
  function Tidy(w: World, s': Chess): World { if s'.current.Turn? then World(w.table, map[]) else w }

  /** The sensors cannot tell two pieces in hand apart: in a capture the own piece lands, and the king
      and the rook go each to its square. With one piece in hand there is no choice. */
  predicate AsMeant(s: Chess, a: Act) {
    match s.current
    case Capture(_) => a.Put? ==> a.origin == s.x
    case KingUpRookUp(c, w) => a.Put? ==> a.origin == if a.pin == KingCastled(c, w) then KingHome(c) else RookHome(c, w)
    case _ => true
  }

  /** The piece, or the pawn that has become it. */
  predicate StandsFor(p: char, letter: char) {
    p == letter || (p == Pawn(White) && letter == Queen(White)) || (p == Pawn(Black) && letter == Queen(Black))
  }

  /** The letter that the state and the board give a piece on the table. */
  function LetterOn(s: Chess, i: nat): char
    requires Ok(s) && i < 64
  {
    match s.current
    case KingDown(c, w) => if i == KingCastled(c, w) then King(c) else s.board[i]
    case KingDownRookUp(c, w) => if i == KingCastled(c, w) then King(c) else s.board[i]
    case KingUpRookDown(c, w) => if i == RookCastled(c, w) then Rook(c) else s.board[i]
    case _ => s.board[i]
  }

  /** The squares whose pieces are in the air. */
  function InAir(s: Chess): set<nat> {
    match s.current
    case Move(_) => {s.x}
    case Capture(_) => {s.x, s.y}
    case EnemyCapture(_) => {s.y}
    case Castling(c) => {KingHome(c)}
    case KingUpRookUp(c, w) => {KingHome(c), RookHome(c, w)}
    case KingDownRookUp(c, w) => {RookHome(c, w)}
    case KingUpRookDown(c, w) => {KingHome(c)}
    case _ => {}
  }

  predicate Shows(s: Chess, w: World)
    requires Ok(s)
  {
    && (forall i :: i in w.table ==> i < 64 && StandsFor(w.table[i], LetterOn(s, i)))
    && w.hand.Keys == InAir(s)
    && (forall i :: i in w.hand ==> i < 64 && StandsFor(w.hand[i], s.board[i]))
  }

  /** Model and world agree on squares and pieces, and the act is possible, meant and no mistake. */
  predicate Ready(s: Chess, w: World, a: Act) {
    && Coherent(s, w.table.Keys, {}) && Shows(s, w)
    && Can(w, a) && AsMeant(s, a) && !MistakenEnPassant(s, EventOf(a))
  }

  predicate StillShows(s': Chess, w: World, a: Act)
    requires Ok(s') && Can(w, a)
  {
    s'.stateVal == Error || Shows(s', Tidy(Do(w, a), s'))
  }

  // ----- one act -----

  lemma LiftShows(s: Chess, s': Chess, w: World, pin: nat)
    requires Ok(s) && Ok(s') && Shows(s, w) && pin < 64 && pin in w.table
    requires s'.board == s.board && InAir(s') == InAir(s) + {pin} && LetterOn(s, pin) == s.board[pin]
    requires forall i :: i in w.table && i != pin ==> LetterOn(s', i) == LetterOn(s, i)
    ensures !s'.current.Turn? ==> Shows(s', Tidy(Do(w, Lift(pin)), s'))
  {
  }

  /** A piece lands and the turn goes on. */
  lemma PutShows(s: Chess, s': Chess, w: World, a: Act)
    requires Ok(s) && Ok(s') && Shows(s, w) && a.Put? && Can(w, a) && !s'.current.Turn?
    requires s'.board == s.board && InAir(s') == InAir(s) - {a.origin}
    requires StandsFor(w.hand[a.origin], LetterOn(s', a.pin))
    requires forall i :: i in w.table ==> LetterOn(s', i) == LetterOn(s, i)
    ensures Shows(s', Tidy(Do(w, a), s'))
  {
  }

  /** A piece lands and the turn is over. */
  lemma LandingShows(s: Chess, s': Chess, w: World, a: Act)
    requires Ok(s) && Ok(s') && Shows(s, w) && a.Put? && Can(w, a) && s'.current.Turn?
    requires StandsFor(w.hand[a.origin], s'.board[a.pin])
    requires forall i :: i in w.table ==> s'.board[i] == LetterOn(s, i)
    ensures Shows(s', Tidy(Do(w, a), s'))
  {
  }

  lemma TurnShows(c: Colour, s: Chess, w: World, a: Act)
    requires Ready(s, w, a) && s.current == Turn(c)
    ensures StillShows(RunTurn(c, s, a.pin, a.Lift?), w, a)
  {
    var s' := RunTurn(c, s, a.pin, a.Lift?);
    if a.Lift? && s'.stateVal != Error { LiftShows(s, s', w, a.pin); }
  }

  lemma PromotedStandsFor(c: Colour, p: char, letter: char, pin: nat)
    requires StandsFor(p, letter)
    ensures StandsFor(p, Promoted(c, letter, pin))
  {
  }

  lemma MoveShows(c: Colour, s: Chess, w: World, a: Act)
    requires Ready(s, w, a) && s.current == Move(c)
    ensures StillShows(RunMove(c, s, a.pin, a.Lift?), w, a)
  {
    var s' := RunMove(c, s, a.pin, a.Lift?);
    if a.Put? {
      PromotedStandsFor(c, w.hand[s.x], s.board[s.x], a.pin);
      LandingShows(s, s', w, a);
    } else if s'.stateVal != Error {
      LiftShows(s, s', w, a.pin);
    }
  }

  lemma CaptureShows(c: Colour, s: Chess, w: World, a: Act)
    requires Ready(s, w, a) && s.current == Capture(c)
    ensures StillShows(RunCapture(c, s, a.pin, a.Lift?), w, a)
  {
    if a.Put? && (s.y == a.pin || TakesEnPassant(s, a.pin)) {
      LandedPiece(c, s, a.pin);
      PromotedStandsFor(c, w.hand[s.x], s.board[s.x], a.pin);
      LandingShows(s, CapturePiece(c, s, a.pin), w, a);
    }
  }

  /** What a capture that is no mistake leaves on the board. */
  lemma LandedPiece(c: Colour, s: Chess, pin: nat)
    requires Ok(s) && pin < 64 && s.x != s.y && s.board[s.x] != EMPTY && s.board[s.y] != EMPTY
    requires if TakesEnPassant(s, pin) then s.board[pin] == EMPTY else pin == s.y
    ensures var b := CapturePiece(c, s, pin).board;
      && b[pin] == Promoted(c, s.board[s.x], pin)
      && forall i :: 0 <= i < 64 && i != pin && i != s.x && i != s.y ==> b[i] == s.board[i]
  {
  }

  lemma EnemyCaptureShows(c: Colour, s: Chess, w: World, a: Act)
    requires Ready(s, w, a) && s.current == EnemyCapture(c)
    ensures StillShows(RunEnemyCapture(c, s, a.pin, a.Lift?), w, a)
  {
  }

  lemma CastlingLiftShows(c: Colour, s: Chess, w: World, a: Act)
    requires Ready(s, w, a) && s.current == Castling(c) && a.Lift?
    ensures StillShows(RunCastling(c, s, a.pin, true), w, a)
  {
    var s' := RunCastling(c, s, a.pin, true);
    KingLiftWaits(c, s, a.pin);
    if s'.stateVal != Error {
      KingLiftAir(c, s, a.pin);
      LiftShows(s, s', w, a.pin);
    }
  }

  lemma KingLiftAir(c: Colour, s: Chess, pin: nat)
    requires Ok(s) && pin < 64 && s.current == Castling(c) && s.board[pin] != EMPTY
    requires RunCastling(c, s, pin, true).stateVal != Error
    ensures InAir(RunCastling(c, s, pin, true)) == {KingHome(c), pin}
    ensures forall i: nat :: i < 64 ==> LetterOn(RunCastling(c, s, pin, true), i) == s.board[i]
  {
    KingLiftGoes(c, s, pin);
  }

  lemma KingLiftGoes(c: Colour, s: Chess, pin: nat)
    requires Ok(s) && pin < 64 && s.board[pin] != EMPTY && RunCastling(c, s, pin, true).stateVal != Error
    ensures var s' := RunCastling(c, s, pin, true);
      || (s' == Goto(s, KingUpRookUp(c, KingSide)) && pin == RookHome(c, KingSide))
      || (s' == Goto(s, KingUpRookUp(c, QueenSide)) && pin == RookHome(c, QueenSide))
      || s' == Goto(s, Capture(c)).(y := pin, x := KingHome(c))
  {
  }

  lemma CastlingPutShows(c: Colour, s: Chess, w: World, a: Act)
    requires Ready(s, w, a) && s.current == Castling(c) && a.Put?
    ensures StillShows(RunCastling(c, s, a.pin, false), w, a)
  {
    if KingStays(c, s.rights, a.pin) {
      KingStaysShows(c, s, w, a);
    } else {
      var t := Goto(s, Move(c)).(x := KingHome(c));
      KingMovesOn(c, s, a.pin);
      assert Ready(t, w, a);
      MoveShows(c, t, w, a);
    }
  }

  lemma KingStaysShows(c: Colour, s: Chess, w: World, a: Act)
    requires Ready(s, w, a) && s.current == Castling(c) && a.Put? && KingStays(c, s.rights, a.pin)
    ensures StillShows(RunCastling(c, s, a.pin, false), w, a)
  {
    var s' := RunCastling(c, s, a.pin, false);
    if s'.current.Turn? { LandingShows(s, s', w, a); } else { PutShows(s, s', w, a); }
  }

  lemma KingDownShows(c: Colour, wing: Wing, s: Chess, w: World, a: Act)
    requires Ready(s, w, a) && s.current == KingDown(c, wing)
    ensures StillShows(RunKingDown(c, wing, s, a.pin, a.Lift?), w, a)
  {
    var s' := RunKingDown(c, wing, s, a.pin, a.Lift?);
    if s'.stateVal != Error { LiftShows(s, s', w, a.pin); }
  }

  lemma BothUpShows(c: Colour, wing: Wing, s: Chess, w: World, a: Act)
    requires Ready(s, w, a) && s.current == KingUpRookUp(c, wing)
    ensures StillShows(RunKingUpRookUp(c, wing, s, a.pin, a.Lift?), w, a)
  {
    if a.Put? && a.pin == KingCastled(c, wing) {
      KingPutShows(c, wing, s, w, a);
    } else if a.Put? && a.pin == RookCastled(c, wing) {
      RookPutShows(c, wing, s, w, a);
    }
  }

  lemma KingPutShows(c: Colour, wing: Wing, s: Chess, w: World, a: Act)
    requires Ready(s, w, a) && s.current == KingUpRookUp(c, wing) && a.Put? && a.pin == KingCastled(c, wing)
    ensures Shows(Goto(s, KingDownRookUp(c, wing)), Do(w, a))
  {
    PutShows(s, Goto(s, KingDownRookUp(c, wing)), w, a);
  }

  lemma RookPutShows(c: Colour, wing: Wing, s: Chess, w: World, a: Act)
    requires Ready(s, w, a) && s.current == KingUpRookUp(c, wing) && a.Put? && a.pin == RookCastled(c, wing)
    ensures Shows(Goto(s, KingUpRookDown(c, wing)), Do(w, a))
  {
    PutShows(s, Goto(s, KingUpRookDown(c, wing)), w, a);
  }

  lemma RookUpShows(c: Colour, wing: Wing, s: Chess, w: World, a: Act)
    requires Ready(s, w, a) && s.current == KingDownRookUp(c, wing)
    ensures StillShows(RunKingDownRookUp(c, wing, s, a.pin, a.Lift?), w, a)
  {
    if a.Put? && a.pin == RookCastled(c, wing) { LandingShows(s, EndCastling(c, wing, s), w, a); }
  }

  lemma KingUpShows(c: Colour, wing: Wing, s: Chess, w: World, a: Act)
    requires Ready(s, w, a) && s.current == KingUpRookDown(c, wing)
    ensures StillShows(RunKingUpRookDown(c, wing, s, a.pin, a.Lift?), w, a)
  {
    if a.Put? && a.pin == KingCastled(c, wing) { LandingShows(s, EndCastling(c, wing, s), w, a); }
  }

  lemma StateShows(s: Chess, w: World, a: Act)
    requires Ready(s, w, a)
    ensures StillShows(RunState(s, a.pin, a.Lift?), w, a)
  {
    match s.current
    case Turn(c) => TurnShows(c, s, w, a);
    case Move(c) => MoveShows(c, s, w, a);
    case Capture(c) => CaptureShows(c, s, w, a);
    case EnemyCapture(c) => EnemyCaptureShows(c, s, w, a);
    case Castling(c) => if a.Lift? { CastlingLiftShows(c, s, w, a); } else { CastlingPutShows(c, s, w, a); }
    case KingDown(c, wing) => KingDownShows(c, wing, s, w, a);
    case KingUpRookUp(c, wing) => BothUpShows(c, wing, s, w, a);
    case KingDownRookUp(c, wing) => RookUpShows(c, wing, s, w, a);
    case KingUpRookDown(c, wing) => KingUpShows(c, wing, s, w, a);
  }

  /** Model and world agree on squares and pieces. */
  predicate Agree(s: Chess, w: World) { Coherent(s, w.table.Keys, {}) && Shows(s, w) }

  lemma SenseIsDo(s: Chess, w: World, a: Act)
    requires Can(w, a)
    ensures Tidy(Do(w, a), s).table.Keys == Sense(w.table.Keys, EventOf(a)) && Possible(w.table.Keys, EventOf(a))
  {
  }

  lemma ActAgrees(s: Chess, w: World, a: Act)
    requires Agree(s, w) && Can(w, a) && AsMeant(s, a) && !MistakenEnPassant(s, EventOf(a))
    requires Step(s, a.pin, a.Lift?).stateVal != Error
    ensures Agree(Step(s, a.pin, a.Lift?), Tidy(Do(w, a), Step(s, a.pin, a.Lift?)))
  {
    var s' := Step(s, a.pin, a.Lift?);
    ActCoherent(s, w, a);
    StateShows(s, w, a);
    SenseIsDo(s', w, a);
  }

  lemma ActCoherent(s: Chess, w: World, a: Act)
    requires Coherent(s, w.table.Keys, {}) && Can(w, a) && !MistakenEnPassant(s, EventOf(a))
    requires Step(s, a.pin, a.Lift?).stateVal != Error
    ensures Coherent(Step(s, a.pin, a.Lift?), Sense(w.table.Keys, EventOf(a)), {})
  {
    StepCoherent(s, w.table.Keys, {}, EventOf(a));
  }

  // ----- whole games -----

  predicate OnSquares(acts: seq<Act>) { forall i :: 0 <= i < |acts| ==> acts[i].pin < 64 }

  function EventsOf(acts: seq<Act>): (es: seq<Event>)
    requires OnSquares(acts)
    ensures ValidEvents(es)
  {
    if acts == [] then [] else EventsOf(acts[..|acts| - 1]) + [EventOf(acts[|acts| - 1])]
  }

  /** The machine after these acts. */
  function Played(s: Chess, acts: seq<Act>): (s': Chess)
    requires Ok(s) && OnSquares(acts)
    ensures Ok(s')
  {
    Run(s, EventsOf(acts))
  }

  lemma LastAct(s: Chess, acts: seq<Act>)
    requires Ok(s) && OnSquares(acts) && acts != []
    ensures var before, a := acts[..|acts| - 1], acts[|acts| - 1];
      Played(s, acts) == Step(Played(s, before), a.pin, a.Lift?)
  {
    var before := EventsOf(acts[..|acts| - 1]);
    assert EventsOf(acts)[..|EventsOf(acts)| - 1] == before;
  }

  function WorldAfter(s: Chess, w: World, acts: seq<Act>): World
    requires Ok(s) && OnSquares(acts)
    decreases |acts|
  {
    if acts == [] then w
    else
      var before, a := acts[..|acts| - 1], acts[|acts| - 1];
      Tidy(Do(WorldAfter(s, w, before), a), Played(s, acts))
  }

  /** Every act is possible and meant, no capture is mistaken, and the machine meets no error. */
  predicate Game(s: Chess, w: World, acts: seq<Act>)
    requires Ok(s) && OnSquares(acts)
    decreases |acts|
  {
    acts == [] ||
    (var before, a := acts[..|acts| - 1], acts[|acts| - 1];
     && Game(s, w, before)
     && Can(WorldAfter(s, w, before), a) && AsMeant(Played(s, before), a)
     && !MistakenEnPassant(Played(s, before), EventOf(a)) && Played(s, acts).stateVal != Error)
  }

  /** The pieces set up as the board says. */
  function SetUp(board: seq<char>): World {
    World(map i: nat | i < |board| && board[i] != EMPTY :: board[i], map[])
  }

  /** Only the first event starts the machine, and it finds it on White's turn. */
  lemma {:induction false} GamesAgree(s: Chess, acts: seq<Act>)
    requires Fresh(s) && OnSquares(acts) && Game(s, SetUp(s.board), acts)
    ensures Agree(Started(Played(s, acts)), WorldAfter(s, SetUp(s.board), acts))
    ensures Played(s, acts).started || Played(s, acts) == s
    decreases |acts|
  {
    if acts == [] {
      assert SetUp(s.board).table.Keys == Occupied(s.board);
    } else {
      var before, a := acts[..|acts| - 1], acts[|acts| - 1];
      var t := Played(s, before);
      GamesAgree(s, before);
      LastAct(s, acts);
      StepStarts(t, a.pin, a.Lift?);
      SameWhenStarted(t, a);
      ActAgrees(Started(t), WorldAfter(s, SetUp(s.board), before), a);
    }
  }

  lemma SameWhenStarted(t: Chess, a: Act)
    requires Ok(t) && a.pin < 64 && (t.started || Fresh(t))
    ensures AsMeant(t, a) == AsMeant(Started(t), a)
    ensures MistakenEnPassant(t, EventOf(a)) == MistakenEnPassant(Started(t), EventOf(a))
  {
  }

  /** After every such game, whenever it is a player's turn, pieces stand on the squares that the board
      in memory shows, and each is the piece it shows, or the pawn that memory has made a queen. */
  lemma BoardShowsPieces(board: seq<char>, acts: seq<Act>)
    requires Inv(Reset(board)) && OnSquares(acts) && Game(Reset(board), SetUp(board), acts)
    requires Played(Reset(board), acts).stateVal.Turn?
    ensures var s, w := Played(Reset(board), acts), WorldAfter(Reset(board), SetUp(board), acts);
      && w.table.Keys == Occupied(s.board)
      && forall i :: i in w.table ==> StandsFor(w.table[i], s.board[i])
  {
    GamesAgree(Reset(board), acts);
  }

  /** Without `AsMeant` memory can be wrong: after a reset, lifting the pawns on e2 and e7 and
      putting the black one back is taken for a capture on e7. */
  lemma WrongPieceGoesUnnoticed()
    ensures var s := Step(Step(Step(Reset(START_BOARD), 52, true), 12, true), 12, false);
      s.current == s.stateVal == Turn(Black) && s.board[12] == 'P'
    ensures var w, lift, put := Do(SetUp(START_BOARD), Lift(52)), Lift(12), Put(12, 12);
      && Can(SetUp(START_BOARD), Lift(52)) && Can(w, lift) && Can(Do(w, lift), put)
      && Do(Do(w, lift), put).table[12] == 'p'
  {
    StartPieces();
    TwoLifts(Reset(START_BOARD), 52, 12);
  }
}
