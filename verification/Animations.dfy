/** The animation differ: which moves, additions and removals turn one position into another.

    Keys of a position may be visited in any order. */
module Animations {
  import opened Basics
  import opened Board

  datatype Animation =
    | Move(source: Square, destination: Square, piece: Piece)
    | Add(square: Square, piece: Piece)
    | Clear(square: Square, piece: Piece)

  // ----- what a list of animations does -----

  /** Sources of moves and cleared squares. */
  function Removed(anims: seq<Animation>): set<Square> {
    if anims == [] then {}
    else
      Removed(anims[..|anims| - 1]) +
      match anims[|anims| - 1]
      case Move(s, _, _) => {s}
      case Add(_, _) => {}
      case Clear(s, _) => {s}
  }

  /** Pieces that are moved or added, by the square they end on. */
  function Placed(anims: seq<Animation>): Position {
    if anims == [] then map[]
    else
      Placed(anims[..|anims| - 1]) +
      match anims[|anims| - 1]
      case Move(_, d, p) => map[d := p]
      case Add(s, p) => map[s := p]
      case Clear(_, _) => map[]
  }

  /** Everything is taken off the board before anything is put down. */
  function Apply(position: Position, anims: seq<Animation>): Position {
    position - Removed(anims) + Placed(anims)
  }

  predicate DistinctMoves(anims: seq<Animation>) {
    forall i, j :: 0 <= i < j < |anims| && anims[i].Move? && anims[j].Move? ==>
      anims[i].source != anims[j].source && anims[i].destination != anims[j].destination
  }

  /** Every move carries the piece that stands on its source. */
  predicate OwnPieces(position: Position, anims: seq<Animation>) {
    forall i :: 0 <= i < |anims| && anims[i].Move?
        ==> anims[i].source in position && position[anims[i].source] == anims[i].piece
  }

  /** The number of moves of this kind of piece. */
  function MoveCount(anims: seq<Animation>, p: Piece): nat {
    if anims == [] then 0
    else
      var last := anims[|anims| - 1];
      MoveCount(anims[..|anims| - 1], p) + if last.Move? && last.piece == p then 1 else 0
  }

  function Squares(position: Position, p: Piece): set<Square> {
    set s | s in position && position[s] == p
  }

  function PieceCount(position: Position, p: Piece): nat { |Squares(position, p)| }

  /** What is left of `a` when squares with the same piece in `b` are dropped. */
  function Leftover(a: Position, b: Position): Position {
    map s | s in a && !(s in b && b[s] == a[s]) :: a[s]
  }

  // ----- the nearest piece -----

  /** Within n squares of each other, by file and by rank. */
  lemma DistanceIsReach(a: Square, b: Square, n: nat)
    ensures Distance(a, b) <= n <==> a.col - n <= b.col <= a.col + n && a.row - n <= b.row <= a.row + n
    ensures Distance(a, b) == 0 <==> a == b
  {
  }

  function Distance(a: Square, b: Square): nat {
    var dx := if a.col < b.col then b.col - a.col else a.col - b.col;
    var dy := if a.row < b.row then b.row - a.row else a.row - b.row;
    if dx >= dy then dx else dy
  }

  predicate Unique(s: seq<Square>) { forall i, j :: 0 <= i < j < |s| ==> s[i] != s[j] }

  predicate SortedFrom(square: Square, s: seq<Square>) {
    forall i, j :: 0 <= i < j < |s| ==> Distance(square, s[i]) <= Distance(square, s[j])
  }

  lemma InsertedAt(square: Square, sorted: seq<Square>, k: nat, s: Square)
    requires SortedFrom(square, sorted) && Unique(sorted) && s !in sorted && k <= |sorted|
    requires k > 0 ==> Distance(square, sorted[k - 1]) <= Distance(square, s)
    requires forall i :: k <= i < |sorted| ==> Distance(square, s) < Distance(square, sorted[i])
    ensures var r := sorted[..k] + [s] + sorted[k..];
      SortedFrom(square, r) && Unique(r) && forall q :: q in r <==> q in sorted || q == s
  {
    var r := sorted[..k] + [s] + sorted[k..];
    forall i, j | 0 <= i < j < |r| ensures Distance(square, r[i]) <= Distance(square, r[j]) && r[i] != r[j] {
      if i < k {
        assert r[i] == sorted[i] && (k > 0 ==> Distance(square, sorted[i]) <= Distance(square, sorted[k - 1]));
      }
      if j > k { assert r[j] == sorted[j - 1]; }
      if i > k { assert r[i] == sorted[i - 1]; }
    }
    InsertedMembers(sorted, k, s);
  }

  lemma InsertedMembers(sorted: seq<Square>, k: nat, s: Square)
    requires k <= |sorted|
    ensures forall q :: q in sorted[..k] + [s] + sorted[k..] <==> q in sorted || q == s
  {
    assert sorted == sorted[..k] + sorted[k..];
  }

  /** Put a square into a sorted list behind those that are not farther away. */
  method Insert(square: Square, sorted: seq<Square>, s: Square) returns (r: seq<Square>)
    requires SortedFrom(square, sorted) && Unique(sorted) && s !in sorted
    ensures SortedFrom(square, r) && Unique(r) && forall q :: q in r <==> q in sorted || q == s
  {
    var k := |sorted|;
    while k > 0 && Distance(square, sorted[k - 1]) > Distance(square, s)
      invariant 0 <= k <= |sorted|
      invariant forall i :: k <= i < |sorted| ==> Distance(square, sorted[i]) > Distance(square, s)
    {
      k := k - 1;
    }
    r := sorted[..k] + [s] + sorted[k..];
    InsertedAt(square, sorted, k, s);
  }

  /** The squares before column i, and those of column i before row j, without the one in the middle. */
  predicate Seen(square: Square, i: nat, j: nat, q: Square) {
    OnBoard(q) && q != square && (q.col < i || (q.col == i && q.row <= j))
  }

  /** `createRadius`: all other squares, the nearest first. The library sort is an insertion sort here. */
  method CreateRadius(square: Square) returns (r: seq<Square>)
    ensures SortedFrom(square, r) && Unique(r)
    ensures forall q :: q in r <==> OnBoard(q) && q != square
  {
    r := [];
    for i := 0 to 8
      invariant SortedFrom(square, r) && Unique(r)
      invariant forall q :: q in r <==> Seen(square, i, 0, q)
    {
      for j := 0 to 8
        invariant SortedFrom(square, r) && Unique(r)
        invariant forall q :: q in r <==> Seen(square, i, j, q)
      {
        var s := Square(i, j + 1);
        if s != square {
          r := Insert(square, r, s);
        }
      }
    }
  }

  /** `findClosestPiece`: a nearest square with this piece, other than the square itself. */
  method FindClosestPiece(position: Position, piece: Piece, square: Square) returns (r: Option<Square>)
    requires SquaresOnBoard(position)
    ensures r.Some? <==> exists s :: s in Squares(position, piece) && s != square
    ensures r.Some? ==>
      && r.value in Squares(position, piece) && r.value != square
      && forall s :: s in Squares(position, piece) && s != square ==> Distance(square, r.value) <= Distance(square, s)
  {
    var closest := CreateRadius(square);
    for i := 0 to |closest|
      invariant forall k :: 0 <= k < i ==> closest[k] !in Squares(position, piece)
    {
      var s := closest[i];
      assert s in closest && s != square;
      if s in position && position[s] == piece {
        forall q | q in Squares(position, piece) && q != square ensures Distance(square, s) <= Distance(square, q) {
          assert q in closest;
        }
        assert s in Squares(position, piece) && s != square;
        return Some(s);
      }
    }
    forall q | q in Squares(position, piece) ensures q == square { assert q != square ==> q in closest; }
    r := None;
  }

  // ----- pairing pieces by moves -----

  /** The moves made so far and what is left of the two positions. */
  ghost predicate Paired(base1: Position, base2: Position, pos1: Position, pos2: Position, moves: seq<Animation>) {
    && (forall i :: 0 <= i < |moves| ==>
          moves[i].Move? && moves[i].source in Removed(moves) && moves[i].destination in Placed(moves))
    && DistinctMoves(moves) && OwnPieces(base1, moves)
    && Removed(moves) <= base1.Keys && pos1 == base1 - Removed(moves)
    && Placed(moves).Keys <= base2.Keys && pos2 == base2 - Placed(moves).Keys
    && (forall d :: d in Placed(moves) ==> Placed(moves)[d] == base2[d])
    && (forall p :: PieceCount(pos1, p) + MoveCount(moves, p) == PieceCount(base1, p))
    && (forall p :: PieceCount(pos2, p) + MoveCount(moves, p) == PieceCount(base2, p))
  }

  /** Deleting one square lowers the count of its piece by one. */
  lemma CountDelete(position: Position, s: Square, p: Piece)
    requires s in position
    ensures PieceCount(position - {s}, p) == PieceCount(position, p) - if position[s] == p then 1 else 0
  {
    if position[s] == p {
      assert Squares(position, p) == Squares(position - {s}, p) + {s};
    } else {
      assert Squares(position, p) == Squares(position - {s}, p);
    }
  }

  lemma AppendOne(anims: seq<Animation>, a: Animation)
    ensures Removed(anims + [a]) == Removed(anims)
        + (match a case Move(s, _, _) => {s} case Add(_, _) => {} case Clear(s, _) => {s})
    ensures Placed(anims + [a]) == Placed(anims)
        + (match a case Move(_, d, p) => map[d := p] case Add(s, p) => map[s := p] case Clear(_, _) => map[])
    ensures forall p :: MoveCount(anims + [a], p) == MoveCount(anims, p) + if a.Move? && a.piece == p then 1 else 0
  {
    assert (anims + [a])[..|anims|] == anims;
  }

  lemma PairOne(base1: Position, base2: Position, pos1: Position, pos2: Position, moves: seq<Animation>, s: Square,
                d: Square)
    requires Paired(base1, base2, pos1, pos2, moves)
    requires s in pos1 && d in pos2 && pos1[s] == pos2[d]
    ensures Paired(base1, base2, pos1 - {s}, pos2 - {d}, moves + [Move(s, d, pos2[d])])
    ensures Placed(moves + [Move(s, d, pos2[d])]).Keys == Placed(moves).Keys + {d}
  {
    var p := pos2[d];
    AppendOne(moves, Move(s, d, p));
    forall q ensures PieceCount(pos1 - {s}, q) == PieceCount(pos1, q) - (if q == p then 1 else 0)
      ensures PieceCount(pos2 - {d}, q) == PieceCount(pos2, q) - (if q == p then 1 else 0)
    {
      CountDelete(pos1, s, q);
      CountDelete(pos2, d, q);
    }
  }

  /** The state of the loop: no piece is left for the wanted squares that have had their turn. */
  ghost predicate Pairing(base1: Position, base2: Position, pos1: Position, pos2: Position, moves: seq<Animation>,
                          movedTo: set<Square>, todo: set<Square>) {
    && Paired(base1, base2, pos1, pos2, moves) && movedTo == Placed(moves).Keys && todo <= pos2.Keys
    && forall i :: i in pos2 && i !in todo ==> Squares(pos1, pos2[i]) == {}
  }

  lemma StartPairing(base1: Position, base2: Position)
    ensures Pairing(base1, base2, base1, base2, [], {}, base2.Keys)
  {
    assert base1 - {} == base1 && base2 - {} == base2;
  }

  lemma PairFound(base1: Position, base2: Position, pos1: Position, pos2: Position, moves: seq<Animation>,
                  movedTo: set<Square>, todo: set<Square>, s: Square, d: Square)
    requires Pairing(base1, base2, pos1, pos2, moves, movedTo, todo) && d in todo && s in Squares(pos1, pos2[d])
    ensures Pairing(base1, base2, pos1 - {s}, pos2 - {d}, moves + [Move(s, d, pos2[d])], movedTo + {d}, todo - {d})
  {
    PairOne(base1, base2, pos1, pos2, moves, s, d);
    forall i | i in pos2 && i !in todo ensures Squares(pos1 - {s}, pos2[i]) == {} {
      assert Squares(pos1 - {s}, pos2[i]) <= Squares(pos1, pos2[i]);
    }
  }

  /** The loop over the wanted pieces. Afterwards no piece is both left over and still wanted. */
  method FindMoves(base1: Position, base2: Position)
    returns (moves: seq<Animation>, pos1: Position, pos2: Position, movedTo: set<Square>)
    requires SquaresOnBoard(base1)
    requires forall s :: s in base1 && s in base2 ==> base1[s] != base2[s]
    ensures Paired(base1, base2, pos1, pos2, moves) && movedTo == Placed(moves).Keys
    ensures forall i :: i in pos2 ==> Squares(pos1, pos2[i]) == {}
  {
    moves, pos1, pos2, movedTo := [], base1, base2, {};
    var todo := pos2.Keys;
    StartPairing(base1, base2);
    while todo != {}
      invariant Pairing(base1, base2, pos1, pos2, moves, movedTo, todo)
      decreases |todo|
    {
      var i :| i in todo;
      var closest := FindClosestPiece(pos1, pos2[i], i);
      if closest.Some? {
        PairFound(base1, base2, pos1, pos2, moves, movedTo, todo, closest.value, i);
        moves := moves + [Move(closest.value, i, pos2[i])];
        movedTo := movedTo + {i};
        pos1 := pos1 - {closest.value};
        pos2 := pos2 - {i};
      } else {
        assert i !in Squares(pos1, pos2[i]);
      }
      todo := todo - {i};
    }
  }

  // ----- additions and removals -----

  /** The moves of a list have been extended by additions and removals only. */
  ghost predicate SameMoves(anims: seq<Animation>, moves: seq<Animation>) {
    && DistinctMoves(anims) && (forall p :: MoveCount(anims, p) == MoveCount(moves, p))
    && forall i :: 0 <= i < |anims| && anims[i].Move? ==> anims[i] in moves
  }

  lemma AppendAdd(base: Position, wanted: Position, anims: seq<Animation>, moves: seq<Animation>, i: Square)
    requires Placed(anims) == base - wanted.Keys && SameMoves(anims, moves)
    requires i in wanted && i in base && wanted[i] == base[i]
    ensures var r := anims + [Add(i, wanted[i])];
      Placed(r) == base - (wanted - {i}).Keys && Removed(r) == Removed(anims) && SameMoves(r, moves)
  {
    AppendOne(anims, Add(i, wanted[i]));
  }

  lemma AppendClear(anims: seq<Animation>, moves: seq<Animation>, i: Square, p: Piece)
    requires SameMoves(anims, moves)
    ensures var r := anims + [Clear(i, p)];
      Placed(r) == Placed(anims) && Removed(r) == Removed(anims) + {i} && SameMoves(r, moves)
  {
    AppendOne(anims, Clear(i, p));
  }

  /** The loop over the pieces that no move brings. */
  method AddAnimations(base: Position, left: Position, moves: seq<Animation>) returns (anims: seq<Animation>)
    requires Placed(moves) == base - left.Keys && SameMoves(moves, moves)
    requires forall s :: s in left ==> s in base && left[s] == base[s]
    ensures Placed(anims) == base && Removed(anims) == Removed(moves) && SameMoves(anims, moves)
  {
    anims := moves;
    var pos2 := left;
    while pos2.Keys != {}
      invariant forall s :: s in pos2 ==> s in base && pos2[s] == base[s]
      invariant Placed(anims) == base - pos2.Keys && Removed(anims) == Removed(moves) && SameMoves(anims, moves)
      decreases |pos2.Keys|
    {
      var i :| i in pos2.Keys;
      AppendAdd(base, pos2, anims, moves, i);
      anims := anims + [Add(i, pos2[i])];
      pos2 := pos2 - {i};
    }
  }

  /** All leftovers outside `todo` are cleared, but for the squares that a move ends on. */
  ghost predicate ClearedBut(todo: set<Square>, left: set<Square>, movedTo: set<Square>, anims: seq<Animation>,
                             added: seq<Animation>) {
    && todo <= left && Placed(anims) == Placed(added) && SameMoves(anims, added)
    && Removed(anims) == Removed(added) + (left - todo - movedTo)
  }

  lemma ClearStep(todo: set<Square>, left: set<Square>, movedTo: set<Square>, anims: seq<Animation>,
                  added: seq<Animation>, i: Square, p: Piece)
    requires ClearedBut(todo, left, movedTo, anims, added) && i in todo
    ensures ClearedBut(todo - {i}, left, movedTo, if i in movedTo then anims else anims + [Clear(i, p)], added)
  {
    AppendClear(anims, added, i, p);
  }

  /** The loop over the pieces that go away, except under a moved piece. */
  method ClearAnimations(left: Position, movedTo: set<Square>, added: seq<Animation>) returns (anims: seq<Animation>)
    requires SameMoves(added, added)
    ensures Placed(anims) == Placed(added) && Removed(anims) == Removed(added) + (left.Keys - movedTo)
        && SameMoves(anims, added)
  {
    anims := added;
    var todo := left.Keys;
    while todo != {}
      invariant ClearedBut(todo, left.Keys, movedTo, anims, added)
      decreases |todo|
    {
      var i :| i in todo;
      ClearStep(todo, left.Keys, movedTo, anims, added, i, left[i]);
      todo := todo - {i};
      if i !in movedTo {
        anims := anims + [Clear(i, left[i])];
      }
    }
  }

  // ----- the whole -----

  /** Dropping the squares on which the two positions agree. */
  method DropEqual(p1: Position, p2: Position) returns (pos1: Position, pos2: Position)
    ensures pos1 == Leftover(p1, p2) && pos2 == Leftover(p2, p1)
  {
    pos1, pos2 := p1, p2;
    var todo := p2.Keys;
    while todo != {}
      invariant todo <= p2.Keys
      invariant pos1 == map s | s in p1 && !(s in p2 && s !in todo && p2[s] == p1[s]) :: p1[s]
      invariant pos2 == map s | s in p2 && !(s in p1 && s !in todo && p1[s] == p2[s]) :: p2[s]
      decreases |todo|
    {
      var i :| i in todo;
      todo := todo - {i};
      if i in pos1 && pos1[i] == pos2[i] {
        pos1 := pos1 - {i};
        pos2 := pos2 - {i};
      }
    }
  }

  function Min(a: nat, b: nat): nat { if a < b then a else b }

  lemma MovesAreMinimum(base1: Position, base2: Position, pos1: Position, pos2: Position, moves: seq<Animation>,
                        p: Piece)
    requires Paired(base1, base2, pos1, pos2, moves) && forall i :: i in pos2 ==> Squares(pos1, pos2[i]) == {}
    ensures MoveCount(moves, p) == Min(PieceCount(base1, p), PieceCount(base2, p))
  {
    assert PieceCount(pos1, p) + MoveCount(moves, p) == PieceCount(base1, p);
    assert PieceCount(pos2, p) + MoveCount(moves, p) == PieceCount(base2, p);
    if Squares(pos2, p) != {} {
      var i :| i in Squares(pos2, p);
      assert Squares(pos1, p) == {};
    }
  }

  /** Lifting all that differs and placing all that is wanted gives the second position. */
  lemma ApplyGives(pos1: Position, pos2: Position, anims: seq<Animation>)
    requires Placed(anims) == Leftover(pos2, pos1)
    requires Removed(anims) <= Leftover(pos1, pos2).Keys <= Removed(anims) + Placed(anims).Keys
    ensures Apply(pos1, anims) == pos2
  {
    var r := Apply(pos1, anims);
    forall s ensures s in r <==> s in pos2
      ensures s in pos2 ==> s in r && r[s] == pos2[s]
    {
      if s in pos1 && s !in Leftover(pos1, pos2) {
        assert s in pos2 && pos1[s] == pos2[s] && s !in Placed(anims);
      }
    }
  }

  /** `calculateAnimations`: what it returns turns the first position into the second; no piece is
      moved twice and no square is moved to twice; squares that agree are left alone; and as many
      pieces of every kind are moved as both leftovers allow. */
  method CalculateAnimations(p1: Position, p2: Position) returns (anims: seq<Animation>)
    requires SquaresOnBoard(p1)
    ensures Apply(p1, anims) == p2
    ensures DistinctMoves(anims) && OwnPieces(p1, anims)
    ensures Removed(anims) <= Leftover(p1, p2).Keys && Placed(anims) == Leftover(p2, p1)
    ensures forall p :: MoveCount(anims, p) == Min(PieceCount(Leftover(p1, p2), p), PieceCount(Leftover(p2, p1), p))
  {
    var base1, base2 := DropEqual(p1, p2);
    var moves, pos1, pos2, movedTo := FindMoves(base1, base2);
    forall p ensures MoveCount(moves, p) == Min(PieceCount(base1, p), PieceCount(base2, p)) {
      MovesAreMinimum(base1, base2, pos1, pos2, moves, p);
    }
    var added := AddAnimations(base2, pos2, moves);
    anims := ClearAnimations(pos1, movedTo, added);
    MovesThenRest(base1, base2, pos1, pos2, moves, added, anims);
    ApplyGives(p1, p2, anims);
  }

  /** The three loops together: every leftover is taken away or covered, by the moves of the first loop. */
  lemma MovesThenRest(base1: Position, base2: Position, pos1: Position, pos2: Position, moves: seq<Animation>,
                      added: seq<Animation>, anims: seq<Animation>)
    requires Paired(base1, base2, pos1, pos2, moves)
    requires Placed(added) == base2 && Removed(added) == Removed(moves) && SameMoves(added, moves)
    requires Placed(anims) == base2 && Removed(anims) == Removed(added) + (pos1.Keys - Placed(moves).Keys)
    requires SameMoves(anims, added)
    ensures SameMoves(anims, moves) && OwnPieces(base1, anims)
    ensures Removed(anims) <= base1.Keys <= Removed(anims) + Placed(anims).Keys
  {
    assert forall i :: 0 <= i < |anims| && anims[i].Move? ==> anims[i] in moves;
  }
}
