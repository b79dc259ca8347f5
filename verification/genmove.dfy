/** Move enumeration of the perft generator (`generate_moves_you`,
    `generate_moves_all`).

    A snake's own legal moves come from `Snake::get_moves`, which is not part
    of this model: every member takes it as the parameter `getMoves`. */
module MoveGeneration {
  import opened Common
  import opened Snakes
  import opened Boards
  import opened CartesianProducts

  /** `generate_moves_you`: nothing once the game counts as over, otherwise
      the moves of the `you` snake. */
  function GenerateMovesYou(r: Snapshot, getMoves: Snake -> seq<Move>): (res: seq<Move>)
    ensures GameOver(r) ==> res == []
    ensures !GameOver(r) ==> res == getMoves(r.you)
  {
    if GameOver(r) then [] else getMoves(r.you)
  }

  /** The snakes whose id is not `youId`, in board order. */
  function Others(snakes: seq<Snake>, youId: string): (res: seq<Snake>)
    ensures |res| <= |snakes|
    ensures forall i :: 0 <= i < |res| ==> res[i].id != youId && res[i] in snakes
    decreases |snakes|
  {
    if snakes == [] then []
    else
      var s := snakes[|snakes| - 1];
      Others(snakes[..|snakes| - 1], youId) + (if s.id != youId then [s] else [])
  }

  /** The lists `generate_moves_all` pushes for the snakes other than `you`. */
  function OtherMoveLists(snakes: seq<Snake>, youId: string, getMoves: Snake -> seq<Move>): (res: seq<seq<Move>>)
    ensures |res| == |Others(snakes, youId)|
    ensures forall i :: 0 <= i < |res| ==> res[i] == getMoves(Others(snakes, youId)[i])
  {
    var others := Others(snakes, youId);
    seq(|others|, i requires 0 <= i < |others| => getMoves(others[i]))
  }

  /** The factors of the product: the other snakes' lists, then `[you_move]`. */
  function MoveLists(r: Snapshot, youMove: Move, getMoves: Snake -> seq<Move>): seq<seq<Move>>
  {
    OtherMoveLists(r.board.snakes, r.you.id, getMoves) + [[youMove]]
  }

  /** What `generate_moves_all` returns. */
  function MoveSets(r: Snapshot, youMove: Move, getMoves: Snake -> seq<Move>): seq<seq<Move>>
  {
    if GameOver(r) then [] else CartesianProduct(MoveLists(r, youMove, getMoves))
  }

  /** `generate_moves_all`: the push loop over the board's snakes, then the
      product. The request is only read. */
  method GenerateMovesAll(request: Request, youMove: Move, getMoves: Snake -> seq<Move>)
    returns (sets: seq<seq<Move>>)
    ensures sets == MoveSets(request.Value(), youMove, getMoves)
  {
    if GameOver(request.Value()) {
      return [];
    }
    var snakes := request.board.snakes;
    var allMoves := [];
    for i := 0 to |snakes|
      invariant allMoves == OtherMoveLists(snakes[..i], request.you.id, getMoves)
    {
      assert snakes[..i + 1][..i] == snakes[..i];
      if snakes[i].id != request.you.id {
        allMoves := allMoves + [getMoves(snakes[i])];
      }
    }
    assert snakes[..|snakes|] == snakes;
    allMoves := allMoves + [[youMove]];
    sets := CartesianProduct(allMoves);
  }

  // ---------------------------------------------------------------------
  // Properties of the enumeration

  /** When no snake carries `youId`, every snake is one of the others. */
  lemma {:induction false} OthersWithoutYou(snakes: seq<Snake>, youId: string)
    requires !HasId(snakes, youId)
    ensures Others(snakes, youId) == snakes
    decreases |snakes|
  {
    if snakes != [] {
      var front := snakes[..|snakes| - 1];
      OthersWithoutYou(front, youId);
      assert snakes == front + [snakes[|snakes| - 1]];
    }
  }

  /** The other snakes are exactly the board's snakes whose id is not
      `youId`, in board order. */
  lemma {:induction false} OthersShape(snakes: seq<Snake>, youId: string)
    ensures forall s :: s in Others(snakes, youId) <==> s in snakes && s.id != youId
    ensures SubsequenceOf(Others(snakes, youId), snakes)
    decreases |snakes|
  {
    if snakes != [] {
      var front, last := snakes[..|snakes| - 1], snakes[|snakes| - 1];
      OthersShape(front, youId);
      assert snakes == front + [last];
      if last.id != youId {
        SubsequenceKeep(Others(front, youId), front, last);
      } else {
        assert Others(snakes, youId) == Others(front, youId);
        SubsequenceSkip(Others(front, youId), front, last);
        assert SubsequenceOf(Others(snakes, youId), front + [last]);
      }
    }
  }

  lemma ProductWithSingleton(lists: seq<seq<Move>>, youMove: Move)
    ensures ProductOfLengths(lists + [[youMove]]) == ProductOfLengths(lists)
    decreases |lists|
  {
    if lists != [] {
      assert (lists + [[youMove]])[1..] == lists[1..] + [[youMove]];
      ProductWithSingleton(lists[1..], youMove);
    }
  }

  /** The number of joint moves: none once the game counts as over, otherwise
      the product of the other snakes' move counts, in board order. */
  lemma MoveSetCount(r: Snapshot, youMove: Move, getMoves: Snake -> seq<Move>)
    ensures GameOver(r) ==> MoveSets(r, youMove, getMoves) == []
    ensures !GameOver(r) ==>
      |MoveSets(r, youMove, getMoves)| == ProductOfLengths(OtherMoveLists(r.board.snakes, r.you.id, getMoves))
  {
    if !GameOver(r) {
      CartesianProductLength(MoveLists(r, youMove, getMoves));
      ProductWithSingleton(OtherMoveLists(r.board.snakes, r.you.id, getMoves), youMove);
    }
  }

  /** A joint move is exactly one move from each other snake's list, in board
      order, followed by `you_move`. */
  lemma MoveSetMembers(r: Snapshot, youMove: Move, getMoves: Snake -> seq<Move>, t: seq<Move>)
    ensures t in MoveSets(r, youMove, getMoves) <==>
      && !GameOver(r)
      && |t| == |Others(r.board.snakes, r.you.id)| + 1
      && t[|t| - 1] == youMove
      && forall i :: 0 <= i < |t| - 1 ==> t[i] in getMoves(Others(r.board.snakes, r.you.id)[i])
  {
    var lists := MoveLists(r, youMove, getMoves);
    if !GameOver(r) {
      CartesianProductMembers(lists, t);
      if InProduct(t, lists) {
        assert t[|t| - 1] in lists[|lists| - 1];
      }
    }
  }

  /** `n` to the power `k`. */
  function Power(n: nat, k: nat): nat
    decreases k
  {
    if k == 0 then 1 else n * Power(n, k - 1)
  }

  lemma {:induction false} UniformProduct(lists: seq<seq<Move>>, n: nat)
    requires forall i :: 0 <= i < |lists| ==> |lists[i]| == n
    ensures ProductOfLengths(lists) == Power(n, |lists|)
    decreases |lists|
  {
    if lists != [] {
      UniformProduct(lists[1..], n);
    }
  }

  /** When every other snake has `n` moves there are `n` to the number of
      other snakes joint moves; with four moves each, `4^k`. */
  lemma UniformMoveSetCount(r: Snapshot, youMove: Move, getMoves: Snake -> seq<Move>, n: nat)
    requires !GameOver(r)
    requires forall s :: s in r.board.snakes ==> |getMoves(s)| == n
    ensures |MoveSets(r, youMove, getMoves)| == Power(n, |Others(r.board.snakes, r.you.id)|)
  {
    MoveSetCount(r, youMove, getMoves);
    UniformProduct(OtherMoveLists(r.board.snakes, r.you.id, getMoves), n);
  }

  /** As written, `game_over` holds whenever the `you` snake is still on the
      board, so neither generator proposes anything while it is alive. */
  lemma YouOnBoardNoMoves(r: Snapshot, youMove: Move, getMoves: Snake -> seq<Move>)
    requires HasId(r.board.snakes, r.you.id)
    ensures GenerateMovesYou(r, getMoves) == []
    ensures MoveSets(r, youMove, getMoves) == []
  {
  }
}
