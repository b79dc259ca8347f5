/** The perft leaf counter of the perft generator (`perft`).

    Two plies alternate: with no pending move the `you` snake proposes each
    of its moves; with a pending move every joint move of the other snakes is
    played on a clone of the request. Both plies spend one unit of depth. A
    panic anywhere in the search ends the whole count; the model reports the
    first one as `Err`. */
module PerftCounting {
  import opened Common
  import opened Snakes
  import opened Boards
  import opened TurnFacts
  import opened CartesianProducts
  import opened MoveGeneration

  /** The value `perft(r, depth, temp)` computes. */
  function PerftCount(r: Snapshot, depth: nat, temp: Option<Move>, getMoves: Snake -> seq<Move>): Result<nat>
    decreases depth, 2, 0
  {
    if depth == 0 then Ok(1)
    else
      match temp
      case Some(youMove) => SumReplies(r, MoveSets(r, youMove, getMoves), depth - 1, getMoves)
      case None => SumProposals(r, GenerateMovesYou(r, getMoves), depth - 1, getMoves)
  }

  /** Adding one more count to a running sum: a panic already met, or met
      now, ends the loop with that panic. */
  function Combine(sum: Result<nat>, n: Result<nat>): (r: Result<nat>)
    ensures r.Ok? <==> sum.Ok? && n.Ok?
    ensures sum.Err? ==> r == sum
    ensures sum.Ok? && n.Err? ==> r == n
    ensures r.Ok? ==> r.value == sum.value + n.value
  {
    match sum
    case Err(_) => sum
    case Ok(s) =>
      match n
      case Err(_) => n
      case Ok(k) => Ok(s + k)
  }

  /** The loop of the pending-move ply: for each joint move, in order, play
      it on a copy of `r` and count below it with no pending move. */
  function SumReplies(r: Snapshot, sets: seq<seq<Move>>, depth: nat, getMoves: Snake -> seq<Move>): Result<nat>
    decreases depth + 1, 1, |sets|
  {
    if sets == [] then Ok(0)
    else Combine(SumReplies(r, sets[..|sets| - 1], depth, getMoves), Reply(r, sets[|sets| - 1], depth, getMoves))
  }

  /** One pass of that loop: the count below `joint` played on a copy of
      `r`. */
  function Reply(r: Snapshot, joint: seq<Move>, depth: nat, getMoves: Snake -> seq<Move>): Result<nat>
    decreases depth + 1, 0, 1
  {
    CountAfterTurn(r, joint, depth, getMoves)
  }

  /** Play `joint` on `r`: a panic of the turn is the pass's result,
      otherwise the count below the new position with no pending move. It
      sits one call below `Reply` so that unfolding the sum of the loop stops
      short of unfolding a whole turn. */
  function CountAfterTurn(r: Snapshot, joint: seq<Move>, depth: nat, getMoves: Snake -> seq<Move>): Result<nat>
    decreases depth + 1, 0, 0
  {
    match Turn(r, joint)
    case Err(e) => Err(e)
    case Ok(next) => PerftCount(next, depth, None, getMoves)
  }

  /** The loop of the proposing ply: for each move of `you`, in order, count
      below `r` with that move pending. */
  function SumProposals(r: Snapshot, moves: seq<Move>, depth: nat, getMoves: Snake -> seq<Move>): Result<nat>
    decreases depth + 1, 1, |moves|
  {
    if moves == [] then Ok(0)
    else Combine(SumProposals(r, moves[..|moves| - 1], depth, getMoves), PerftCount(r, depth, Some(moves[|moves| - 1]), getMoves))
  }

  lemma SumRepliesStep(r: Snapshot, sets: seq<seq<Move>>, i: nat, depth: nat, getMoves: Snake -> seq<Move>)
    requires i < |sets|
    ensures SumReplies(r, sets[..i + 1], depth, getMoves) ==
      Combine(SumReplies(r, sets[..i], depth, getMoves), Reply(r, sets[i], depth, getMoves))
  {
    assert sets[..i + 1][..i] == sets[..i];
  }

  lemma SumProposalsStep(r: Snapshot, moves: seq<Move>, i: nat, depth: nat, getMoves: Snake -> seq<Move>)
    requires i < |moves|
    ensures SumProposals(r, moves[..i + 1], depth, getMoves) ==
      Combine(SumProposals(r, moves[..i], depth, getMoves), PerftCount(r, depth, Some(moves[i]), getMoves))
  {
    assert moves[..i + 1][..i] == moves[..i];
  }

  /** Once a prefix of the replies panics, the whole loop ends with that
      panic. */
  lemma {:induction false} SumRepliesStops(r: Snapshot, sets: seq<seq<Move>>, i: nat, depth: nat, getMoves: Snake -> seq<Move>)
    requires i <= |sets| && SumReplies(r, sets[..i], depth, getMoves).Err?
    ensures SumReplies(r, sets, depth, getMoves) == SumReplies(r, sets[..i], depth, getMoves)
    decreases |sets|
  {
    if i < |sets| {
      var front := sets[..|sets| - 1];
      assert front[..i] == sets[..i];
      SumRepliesStops(r, front, i, depth, getMoves);
    } else {
      assert sets[..i] == sets;
    }
  }

  /** Once a prefix of the proposals panics, the whole loop ends with that
      panic. */
  lemma {:induction false} SumProposalsStops(r: Snapshot, moves: seq<Move>, i: nat, depth: nat, getMoves: Snake -> seq<Move>)
    requires i <= |moves| && SumProposals(r, moves[..i], depth, getMoves).Err?
    ensures SumProposals(r, moves, depth, getMoves) == SumProposals(r, moves[..i], depth, getMoves)
    decreases |moves|
  {
    if i < |moves| {
      var front := moves[..|moves| - 1];
      assert front[..i] == moves[..i];
      SumProposalsStops(r, front, i, depth, getMoves);
    } else {
      assert moves[..i] == moves;
    }
  }

  /** `perft`. The request passed in is never modified (the method has no
      `modifies` clause); each joint move is played on a fresh clone. */
  method Perft(request: Request, depth: U8, tempMove: Option<Move>, getMoves: Snake -> seq<Move>)
    returns (res: Result<nat>)
    ensures res == PerftCount(request.Value(), depth, tempMove, getMoves)
    decreases depth, 2
  {
    if depth == 0 {
      return Ok(1);
    }
    ghost var r := request.Value();
    if tempMove.Some? {
      var sets := GenerateMovesAll(request, tempMove.value, getMoves);
      res := CountReplies(request, sets, depth - 1, getMoves);
      assert res == SumReplies(r, MoveSets(r, tempMove.value, getMoves), depth - 1, getMoves);
    } else {
      var moves := GenerateMovesYou(request.Value(), getMoves);
      res := CountProposals(request, moves, depth - 1, getMoves);
      assert res == SumProposals(r, GenerateMovesYou(r, getMoves), depth - 1, getMoves);
    }
  }

  /** The `for` loop of the pending-move ply. */
  method CountReplies(request: Request, sets: seq<seq<Move>>, depth: U8, getMoves: Snake -> seq<Move>)
    returns (res: Result<nat>)
    ensures res == SumReplies(request.Value(), sets, depth, getMoves)
    decreases depth + 1, 1
  {
    ghost var r := request.Value();
    var sum := 0;
    for i := 0 to |sets|
      invariant request.Value() == r
      invariant SumReplies(r, sets[..i], depth, getMoves) == Ok(sum)
    {
      var n := PlayReply(request, sets[i], depth, getMoves);
      SumRepliesStep(r, sets, i, depth, getMoves);
      if n.Err? {
        SumRepliesStops(r, sets, i + 1, depth, getMoves);
        return n;
      }
      sum := sum + n.value;
    }
    assert sets[..|sets|] == sets;
    return Ok(sum);
  }

  /** The body of that loop: clone the request, play the joint move on the
      clone, count below it. */
  method PlayReply(request: Request, joint: seq<Move>, depth: U8, getMoves: Snake -> seq<Move>)
    returns (res: Result<nat>)
    ensures res == Reply(request.Value(), joint, depth, getMoves)
    decreases depth + 1, 0
  {
    var clone := new Request.Clone(request);
    var outcome := clone.MakeMoves(joint);
    if outcome.Fail? {
      return Err(outcome.error);
    }
    res := Perft(clone, depth, None, getMoves);
  }

  /** The `for` loop of the proposing ply. */
  method CountProposals(request: Request, moves: seq<Move>, depth: U8, getMoves: Snake -> seq<Move>)
    returns (res: Result<nat>)
    ensures res == SumProposals(request.Value(), moves, depth, getMoves)
    decreases depth + 1, 1
  {
    ghost var r := request.Value();
    var sum := 0;
    for i := 0 to |moves|
      invariant request.Value() == r
      invariant SumProposals(r, moves[..i], depth, getMoves) == Ok(sum)
    {
      var n := Perft(request, depth, Some(moves[i]), getMoves);
      SumProposalsStep(r, moves, i, depth, getMoves);
      if n.Err? {
        SumProposalsStops(r, moves, i + 1, depth, getMoves);
        return n;
      }
      sum := sum + n.value;
    }
    assert moves[..|moves|] == moves;
    return Ok(sum);
  }

  // ---------------------------------------------------------------------
  // Properties of the count

  /** Depth 0 counts the position itself. */
  lemma PerftDepthZero(r: Snapshot, temp: Option<Move>, getMoves: Snake -> seq<Move>)
    ensures PerftCount(r, 0, temp, getMoves) == Ok(1)
  {
  }

  /** Past depth 0, a position whose game counts as over has no leaves, in
      either ply. */
  lemma PerftGameOver(r: Snapshot, depth: nat, temp: Option<Move>, getMoves: Snake -> seq<Move>)
    requires depth > 0 && GameOver(r)
    ensures PerftCount(r, depth, temp, getMoves) == Ok(0)
  {
  }

  /** As written, any position in which the `you` snake is still on the
      board counts zero leaves past depth 0. */
  lemma PerftYouOnBoard(r: Snapshot, depth: nat, temp: Option<Move>, getMoves: Snake -> seq<Move>)
    requires depth > 0 && HasId(r.board.snakes, r.you.id)
    ensures PerftCount(r, depth, temp, getMoves) == Ok(0)
  {
    PerftGameOver(r, depth, temp, getMoves);
  }

  lemma {:induction false} SumProposalsLeaves(r: Snapshot, moves: seq<Move>, getMoves: Snake -> seq<Move>)
    ensures SumProposals(r, moves, 0, getMoves) == Ok(|moves|)
    decreases |moves|
  {
    if moves != [] {
      SumProposalsLeaves(r, moves[..|moves| - 1], getMoves);
    }
  }

  /** One proposing ply counts the moves of `you`. */
  lemma PerftOneProposal(r: Snapshot, getMoves: Snake -> seq<Move>)
    ensures PerftCount(r, 1, None, getMoves) == Ok(|GenerateMovesYou(r, getMoves)|)
  {
    SumProposalsLeaves(r, GenerateMovesYou(r, getMoves), getMoves);
  }

  /** Every snake's own move list only holds moves carrying its id. */
  ghost predicate OwnMoves(getMoves: Snake -> seq<Move>)
  {
    forall s: Snake, i :: 0 <= i < |getMoves(s)| ==> getMoves(s)[i].id == s.id
  }

  /** A joint move proposed while the game is not over names every snake on
      the board: `you` is then absent, so every snake is one of the others. */
  lemma MoveSetsCover(r: Snapshot, youMove: Move, getMoves: Snake -> seq<Move>, t: seq<Move>)
    requires OwnMoves(getMoves)
    requires t in MoveSets(r, youMove, getMoves)
    ensures Covers(t, r.board.snakes)
  {
    MoveSetMembers(r, youMove, getMoves, t);
    OthersWithoutYou(r.board.snakes, r.you.id);
    var snakes := r.board.snakes;
    forall i | 0 <= i < |snakes| ensures exists k :: 0 <= k < |t| && t[k].id == snakes[i].id {
      assert t[i] in getMoves(snakes[i]);
    }
  }

  lemma AllMoveSetsCover(r: Snapshot, youMove: Move, getMoves: Snake -> seq<Move>)
    requires OwnMoves(getMoves)
    ensures var sets := MoveSets(r, youMove, getMoves);
      forall k :: 0 <= k < |sets| ==> Covers(sets[k], r.board.snakes)
  {
    var sets := MoveSets(r, youMove, getMoves);
    forall k | 0 <= k < |sets| ensures Covers(sets[k], r.board.snakes) {
      MoveSetsCover(r, youMove, getMoves, sets[k]);
    }
  }

  /** On a well-formed board, with move lists that only hold each snake's own
      moves, the search never panics. */
  lemma {:induction false} PerftNoPanic(r: Snapshot, depth: nat, temp: Option<Move>, getMoves: Snake -> seq<Move>)
    requires WellFormed(r.board.snakes) && OwnMoves(getMoves)
    ensures PerftCount(r, depth, temp, getMoves).Ok?
    decreases depth, 2, 0
  {
    if depth > 0 {
      if temp.Some? {
        ReplyPlyNoPanic(r, depth, temp.value, getMoves);
      } else {
        ProposalPlyNoPanic(r, depth, getMoves);
      }
    }
  }

  lemma {:induction false} ReplyPlyNoPanic(r: Snapshot, depth: nat, youMove: Move, getMoves: Snake -> seq<Move>)
    requires depth > 0
    requires WellFormed(r.board.snakes) && OwnMoves(getMoves)
    ensures PerftCount(r, depth, Some(youMove), getMoves).Ok?
    decreases depth, 1, 0
  {
    var sets := MoveSets(r, youMove, getMoves);
    AllMoveSetsCover(r, youMove, getMoves);
    RepliesNoPanic(r, sets, depth - 1, getMoves);
  }

  lemma {:induction false} ProposalPlyNoPanic(r: Snapshot, depth: nat, getMoves: Snake -> seq<Move>)
    requires depth > 0
    requires WellFormed(r.board.snakes) && OwnMoves(getMoves)
    ensures PerftCount(r, depth, None, getMoves).Ok?
    decreases depth, 1, 0
  {
    var moves := GenerateMovesYou(r, getMoves);
    assert SumProposals(r, moves, depth - 1, getMoves).Ok? by {
      ProposalsNoPanic(r, moves, depth - 1, getMoves);
    }
    assert PerftCount(r, depth, None, getMoves) == SumProposals(r, moves, depth - 1, getMoves);
  }

  lemma {:induction false} RepliesNoPanic(r: Snapshot, sets: seq<seq<Move>>, depth: nat, getMoves: Snake -> seq<Move>)
    requires WellFormed(r.board.snakes) && OwnMoves(getMoves)
    requires forall k :: 0 <= k < |sets| ==> Covers(sets[k], r.board.snakes)
    ensures SumReplies(r, sets, depth, getMoves).Ok?
    decreases depth + 1, 0, |sets|
  {
    if sets != [] {
      RepliesNoPanic(r, sets[..|sets| - 1], depth, getMoves);
      ReplyNoPanic(r, sets[|sets| - 1], depth, getMoves);
    }
  }

  lemma {:induction false} ReplyNoPanic(r: Snapshot, joint: seq<Move>, depth: nat, getMoves: Snake -> seq<Move>)
    requires WellFormed(r.board.snakes) && OwnMoves(getMoves)
    requires Covers(joint, r.board.snakes)
    ensures Reply(r, joint, depth, getMoves).Ok?
    decreases depth + 1, 0, 0
  {
    TurnKeepsWellFormed(r, joint);
    PerftNoPanic(Turn(r, joint).value, depth, None, getMoves);
  }

  lemma {:induction false} ProposalsNoPanic(r: Snapshot, moves: seq<Move>, depth: nat, getMoves: Snake -> seq<Move>)
    requires WellFormed(r.board.snakes) && OwnMoves(getMoves)
    ensures SumProposals(r, moves, depth, getMoves).Ok?
    decreases depth + 1, 0, |moves|
  {
    if moves != [] {
      ProposalsNoPanic(r, moves[..|moves| - 1], depth, getMoves);
      PerftNoPanic(r, depth, Some(moves[|moves| - 1]), getMoves);
    }
  }

  lemma {:induction false} RepliesLeaves(r: Snapshot, sets: seq<seq<Move>>, getMoves: Snake -> seq<Move>)
    requires WellFormed(r.board.snakes)
    requires forall k :: 0 <= k < |sets| ==> Covers(sets[k], r.board.snakes)
    ensures SumReplies(r, sets, 0, getMoves) == Ok(|sets|)
    decreases |sets|
  {
    if sets != [] {
      var front, last := sets[..|sets| - 1], sets[|sets| - 1];
      assert SumReplies(r, front, 0, getMoves) == Ok(|front|) by {
        RepliesLeaves(r, front, getMoves);
      }
      assert Reply(r, last, 0, getMoves) == Ok(1) by {
        ReplyLeaf(r, last, getMoves);
      }
    }
  }

  lemma ReplyLeaf(r: Snapshot, joint: seq<Move>, getMoves: Snake -> seq<Move>)
    requires WellFormed(r.board.snakes) && Covers(joint, r.board.snakes)
    ensures Reply(r, joint, 0, getMoves) == Ok(1)
  {
    TurnKeepsWellFormed(r, joint);
  }

  /** One reply ply on a well-formed board counts the joint moves: the
      product of the other snakes' move counts. */
  lemma PerftOneReply(r: Snapshot, youMove: Move, getMoves: Snake -> seq<Move>)
    requires WellFormed(r.board.snakes) && OwnMoves(getMoves) && !GameOver(r)
    ensures PerftCount(r, 1, Some(youMove), getMoves) ==
      Ok(ProductOfLengths(OtherMoveLists(r.board.snakes, r.you.id, getMoves)))
  {
    AllMoveSetsCover(r, youMove, getMoves);
    RepliesLeaves(r, MoveSets(r, youMove, getMoves), getMoves);
    MoveSetCount(r, youMove, getMoves);
  }
}
