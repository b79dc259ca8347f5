/** The `standard` ruleset of the data generator: a second turn step that
    works in place on an owned board (`Standard::step_board`), plus the
    ruleset's `name` and `game_over`.

    Snakes here carry an `alive` flag instead of being removed, health is an
    `i8`, and the step only moves, starves and feeds; nothing is eliminated.
    Placing new food is random and is not part of this model: the two board
    methods it calls are parameters. */
module StandardRules {
  import opened Common
  import opened Geometry

  /** A snake of the data generator. */
  datatype Snake = Snake(body: seq<Coordinate>, health: I8, alive: bool)

  /** The board of the data generator. Hazards are carried, never read. */
  datatype Board = Board(
    food: seq<Coordinate>,
    snakes: seq<Snake>,
    hazards: seq<Coordinate>,
    hazardDamage: int)

  /** A move names the snake by its index on the board. */
  datatype Move = Move(idx: nat, direction: Direction)

  /** The ruleset's configuration. */
  datatype Standard = Standard(foodSpawnChance: U8, numPlayers: U8, width: U32, height: U32)

  // ---------------------------------------------------------------------
  // name and game_over

  function DigitChar(d: nat): (c: char)
    requires d < 10
    ensures '0' <= c <= '9'
  {
    "0123456789"[d]
  }

  function DigitValue(c: char): (d: nat)
    requires '0' <= c <= '9'
    ensures d < 10
  {
    (c as int - '0' as int) as nat
  }

  predicate AllDigits(s: string)
  {
    forall i :: 0 <= i < |s| ==> '0' <= s[i] <= '9'
  }

  /** The decimal digits of `n`, most significant first, as `format!`
      writes them. */
  function Decimal(n: nat): (r: string)
    ensures |r| >= 1 && AllDigits(r)
    ensures |r| > 1 ==> r[0] != '0'
    decreases n
  {
    if n < 10 then [DigitChar(n)] else Decimal(n / 10) + [DigitChar(n % 10)]
  }

  /** Reads a string of decimal digits back as a number. */
  function ParseDecimal(s: string): nat
    requires AllDigits(s)
    decreases |s|
  {
    if s == [] then 0 else ParseDecimal(s[..|s| - 1]) * 10 + DigitValue(s[|s| - 1])
  }

  lemma DigitRoundTrip(d: nat)
    requires d < 10
    ensures DigitValue(DigitChar(d)) == d
  {
  }

  /** Reading back the digits of `n` gives `n`. */
  lemma {:induction false} DecimalRoundTrip(n: nat)
    ensures ParseDecimal(Decimal(n)) == n
    decreases n
  {
    DigitRoundTrip(n % 10);
    if n >= 10 {
      DecimalRoundTrip(n / 10);
      var r := Decimal(n);
      assert r[..|r| - 1] == Decimal(n / 10);
    }
  }

  /** `name`: `standard_<number of players>_players`. */
  function Name(std: Standard): string
  {
    "standard_" + Decimal(std.numPlayers) + "_players"
  }

  /** The name starts with `standard_`, ends with `_players`, and what lies
      between reads back as the number of players. */
  lemma NameParts(std: Standard)
    ensures var r := Name(std);
      && |r| >= 18
      && r[..9] == "standard_"
      && r[|r| - 8..] == "_players"
      && AllDigits(r[9..|r| - 8])
      && ParseDecimal(r[9..|r| - 8]) == std.numPlayers
  {
    var r := Name(std);
    assert r[9..|r| - 8] == Decimal(std.numPlayers);
    DecimalRoundTrip(std.numPlayers);
  }

  /** Rulesets with different numbers of players have different names. */
  lemma NamesDistinguishPlayers(a: Standard, b: Standard)
    requires a.numPlayers != b.numPlayers
    ensures Name(a) != Name(b)
  {
    NameParts(a);
    NameParts(b);
  }

  /** `game_over`: this ruleset never ends a game. */
  function GameOver(std: Standard, board: Board): (r: bool)
    ensures !r
  {
    false
  }

  // ---------------------------------------------------------------------
  // Movement

  /** The new head `step_board` computes for each direction, exactly as
      written: Up adds nothing and Right moves along `y`. */
  function Shift(c: Coordinate, d: Direction): Coordinate
  {
    match d
    case Up => Coordinate(c.x, c.y + 0)
    case Down => Coordinate(c.x, c.y - 1)
    case Left => Coordinate(c.x - 1, c.y)
    case Right => Coordinate(c.x, c.y + 1)
  }

  /** As written, Up leaves the head where it is, and Right moves it where
      the coordinate type's own Up would; only Down and Left agree with the
      coordinate type's translation. */
  lemma ShiftAsWritten(c: Coordinate)
    ensures Shift(c, Up) == c
    ensures Shift(c, Right) == Translate(c, Up)
    ensures Shift(c, Down) == Translate(c, Down) && Shift(c, Left) == Translate(c, Left)
    ensures Manhattan(c, Shift(c, Up)) == 0
    ensures Shift(c, Right) != Translate(c, Right)
  {
  }

  /** The evidently intended head offset: the unit step of the direction. */
  function IntendedShift(c: Coordinate, d: Direction): Coordinate
  {
    Translate(c, d)
  }

  /** Every direction moves the head exactly one cell, and the four
      directions lead to four different cells. */
  lemma IntendedShiftIsUnitStep(c: Coordinate, d1: Direction, d2: Direction)
    ensures Manhattan(c, IntendedShift(c, d1)) == 1
    ensures IntendedShift(c, d1) == IntendedShift(c, d2) <==> d1 == d2
  {
    TranslateIsUnitStep(c, d1, c);
    NeighboursDistinct(c, d1, d2);
  }

  /** Every live snake has at least a head. */
  predicate AliveHaveBodies(snakes: seq<Snake>)
  {
    forall i :: 0 <= i < |snakes| && snakes[i].alive ==> |snakes[i].body| >= 1
  }

  /** `body.insert(0, new_head); body.pop()`. */
  function Slither(s: Snake, d: Direction): (r: Snake)
    requires |s.body| >= 1
    ensures |r.body| == |s.body|
    ensures r.body[0] == Shift(s.body[0], d) && r.body[1..] == s.body[..|s.body| - 1]
    ensures r.health == s.health && r.alive == s.alive
  {
    var inserted := [Shift(s.body[0], d)] + s.body;
    s.(body := inserted[..|inserted| - 1])
  }

  /** One pass of the movement loop. Indexing past the snakes, moving a dead
      snake and reading the head of an empty body all panic. */
  function MoveOne(snakes: seq<Snake>, m: Move): (r: Result<seq<Snake>>)
    ensures r.Ok? <==> m.idx < |snakes| && snakes[m.idx].alive && |snakes[m.idx].body| >= 1
    ensures m.idx < |snakes| && !snakes[m.idx].alive ==> r == Err(DeadSnakeMoved)
    ensures r.Ok? ==> r.value == snakes[m.idx := Slither(snakes[m.idx], m.direction)]
  {
    if m.idx >= |snakes| then Err(IndexOutOfBounds)
    else if !snakes[m.idx].alive then Err(DeadSnakeMoved)
    else if |snakes[m.idx].body| == 0 then Err(IndexOutOfBounds)
    else Ok(snakes[m.idx := Slither(snakes[m.idx], m.direction)])
  }

  /** `snakes` and `moved` differ only in where the bodies lie: the same
      number of snakes, each as long and as alive as before. */
  predicate SameShape(moved: seq<Snake>, snakes: seq<Snake>)
  {
    && |moved| == |snakes|
    && forall i :: 0 <= i < |snakes| ==>
      moved[i].alive == snakes[i].alive && |moved[i].body| == |snakes[i].body|
  }

  /** The movement loop, move by move in the given order; the first move
      that panics ends the step. */
  function MoveAll(snakes: seq<Snake>, moves: seq<Move>): (r: Result<seq<Snake>>)
    ensures r.Ok? ==> SameShape(r.value, snakes)
    ensures r.Ok? ==> forall i :: 0 <= i < |snakes| ==> r.value[i].health == snakes[i].health
    decreases |moves|
  {
    if moves == [] then Ok(snakes)
    else
      match MoveAll(snakes, moves[..|moves| - 1])
      case Err(e) => Err(e)
      case Ok(done) => MoveOne(done, moves[|moves| - 1])
  }

  /** One more move: the loop either panics there or applies it. */
  lemma MoveAllStep(snakes: seq<Snake>, moves: seq<Move>, k: nat)
    requires k < |moves|
    ensures MoveAll(snakes, moves[..k + 1]) ==
      match MoveAll(snakes, moves[..k])
      case Err(e) => Err(e)
      case Ok(done) => MoveOne(done, moves[k])
  {
    assert moves[..k + 1][..k] == moves[..k];
  }

  /** Once a move has panicked, the later ones never run. */
  lemma {:induction false} MoveAllStopsAtPanic(snakes: seq<Snake>, moves: seq<Move>, k: nat)
    requires k <= |moves| && MoveAll(snakes, moves[..k]).Err?
    ensures MoveAll(snakes, moves) == MoveAll(snakes, moves[..k])
    decreases |moves| - k
  {
    if k < |moves| {
      MoveAllStep(snakes, moves, k);
      MoveAllStopsAtPanic(snakes, moves, k + 1);
    } else {
      assert moves[..k] == moves;
    }
  }

  /** A move leaves every other snake as it was and keeps the moved one's
      length, health and liveness. */
  lemma MoveOneOthersUnchanged(snakes: seq<Snake>, m: Move, j: nat)
    requires MoveOne(snakes, m).Ok? && j < |snakes| && j != m.idx
    ensures MoveOne(snakes, m).value[j] == snakes[j]
  {
  }

  // ---------------------------------------------------------------------
  // Health

  /** The health loop: every live snake loses one point, in board order; the
      `i8` subtraction panics below -128. Dead snakes are skipped. */
  function Drain(snakes: seq<Snake>): (r: Result<seq<Snake>>)
    ensures r.Ok? ==> SameShape(r.value, snakes)
    decreases |snakes|
  {
    if snakes == [] then Ok([])
    else
      var s := snakes[|snakes| - 1];
      match Drain(snakes[..|snakes| - 1])
      case Err(e) => Err(e)
      case Ok(done) =>
        if !s.alive then Ok(done + [s])
        else if s.health == -128 then Err(SubtractOverflow)
        else Ok(done + [s.(health := s.health - 1)])
  }

  /** What one snake becomes in the health loop. */
  function Starved(s: Snake): Snake
    requires !s.alive || s.health > -128
  {
    if s.alive then s.(health := s.health - 1) else s
  }

  /** The health loop panics exactly when a live snake is at -128; otherwise
      each live snake has exactly one point less and dead snakes are as
      they were. */
  lemma {:induction false} DrainPointwise(snakes: seq<Snake>)
    ensures Drain(snakes).Ok? <==> forall i :: 0 <= i < |snakes| && snakes[i].alive ==> snakes[i].health > -128
    ensures Drain(snakes).Err? ==> Drain(snakes).error == SubtractOverflow
    ensures Drain(snakes).Ok? ==>
      && |Drain(snakes).value| == |snakes|
      && forall i :: 0 <= i < |snakes| ==> Drain(snakes).value[i] == Starved(snakes[i])
    decreases |snakes|
  {
    if snakes != [] {
      var n := |snakes| - 1;
      var front := snakes[..n];
      DrainPointwise(front);
      assert forall i :: 0 <= i < n ==> front[i] == snakes[i];
    }
  }

  // ---------------------------------------------------------------------
  // Feeding

  /** `health = 100; body.push(*body.last().unwrap())`. */
  function Grow(s: Snake): (r: Snake)
    requires |s.body| >= 1
    ensures r.body == s.body + [s.body[|s.body| - 1]]
    ensures r.health == 100 && r.alive == s.alive
  {
    s.(health := 100, body := s.body + [s.body[|s.body| - 1]])
  }

  /** A live snake whose head is on `f`. */
  predicate EatsFrom(s: Snake, f: Coordinate)
  {
    s.alive && |s.body| >= 1 && s.body[0] == f
  }

  /** The inner feeding loop for one food item: every live snake with its
      head on it grows. */
  function FeedEach(snakes: seq<Snake>, f: Coordinate): (r: seq<Snake>)
    requires AliveHaveBodies(snakes)
    ensures |r| == |snakes|
    ensures forall i :: 0 <= i < |snakes| ==> r[i] == if EatsFrom(snakes[i], f) then Grow(snakes[i]) else snakes[i]
  {
    seq(|snakes|, i requires 0 <= i < |snakes| =>
      if snakes[i].alive && snakes[i].body[0] == f then Grow(snakes[i]) else snakes[i])
  }

  /** Feeding changes no snake's liveness or head, and only lengthens
      bodies. */
  predicate SameHeads(fed: seq<Snake>, snakes: seq<Snake>)
  {
    && |fed| == |snakes|
    && forall i :: 0 <= i < |snakes| ==>
      && fed[i].alive == snakes[i].alive
      && |fed[i].body| >= |snakes[i].body|
      && (|snakes[i].body| >= 1 ==> fed[i].body[0] == snakes[i].body[0])
  }

  /** The outer feeding loop over the food in board order. */
  function FeedAll(snakes: seq<Snake>, food: seq<Coordinate>): (r: seq<Snake>)
    requires AliveHaveBodies(snakes)
    ensures SameHeads(r, snakes) && AliveHaveBodies(r)
    decreases |food|
  {
    if food == [] then snakes
    else FeedEach(FeedAll(snakes, food[..|food| - 1]), food[|food| - 1])
  }

  /** Some live snake has its head on `f`. */
  predicate Eaten(f: Coordinate, snakes: seq<Snake>)
  {
    exists i :: 0 <= i < |snakes| && EatsFrom(snakes[i], f)
  }

  /** `new_food`: the food no live snake reached, in board order. */
  function Uneaten(food: seq<Coordinate>, snakes: seq<Snake>): seq<Coordinate>
    decreases |food|
  {
    if food == [] then []
    else
      var f := food[|food| - 1];
      Uneaten(food[..|food| - 1], snakes) + (if Eaten(f, snakes) then [] else [f])
  }

  /** Feeding does not change which food is reachable. */
  lemma SameHeadsEaten(fed: seq<Snake>, snakes: seq<Snake>, f: Coordinate)
    requires SameHeads(fed, snakes) && AliveHaveBodies(snakes)
    ensures Eaten(f, fed) <==> Eaten(f, snakes)
  {
    if Eaten(f, fed) {
      var i :| 0 <= i < |fed| && EatsFrom(fed[i], f);
      assert EatsFrom(snakes[i], f);
    }
    if Eaten(f, snakes) {
      var i :| 0 <= i < |snakes| && EatsFrom(snakes[i], f);
      assert EatsFrom(fed[i], f);
    }
  }

  /** One more food item for the outer loop. */
  lemma FeedStep(snakes: seq<Snake>, food: seq<Coordinate>, j: nat)
    requires AliveHaveBodies(snakes) && j < |food|
    ensures FeedAll(snakes, food[..j + 1]) == FeedEach(FeedAll(snakes, food[..j]), food[j])
    ensures Uneaten(food[..j + 1], snakes) ==
      Uneaten(food[..j], snakes) + (if Eaten(food[j], snakes) then [] else [food[j]])
  {
    assert food[..j + 1][..j] == food[..j];
  }

  /** A snake grown `n` times. */
  function GrowTimes(s: Snake, n: nat): (r: Snake)
    requires |s.body| >= 1
    decreases n
  {
    if n == 0 then s else Grow(GrowTimes(s, n - 1))
  }

  /** Growing `n > 0` times restores full health and appends `n` copies of
      the tail cell; liveness and the head are unchanged. */
  lemma {:induction false} GrowTimesShape(s: Snake, n: nat)
    requires |s.body| >= 1
    ensures GrowTimes(s, n).body == s.body + seq(n, _ => s.body[|s.body| - 1])
    ensures |GrowTimes(s, n).body| == |s.body| + n
    ensures GrowTimes(s, n).health == if n == 0 then s.health else 100
    ensures GrowTimes(s, n).alive == s.alive
    decreases n
  {
    if n > 0 {
      GrowTimesShape(s, n - 1);
      var t := s.body[|s.body| - 1];
      var g := GrowTimes(s, n - 1).body;
      assert g[|g| - 1] == t;
      assert seq(n - 1, _ => t) + [t] == seq(n, _ => t);
    }
  }

  /** After the whole feeding loop, each live snake has grown once per food
      item on its head and each dead snake is as it was. */
  lemma {:induction false} FeedAllCounts(snakes: seq<Snake>, food: seq<Coordinate>, i: nat)
    requires AliveHaveBodies(snakes) && i < |snakes|
    ensures snakes[i].alive ==> FeedAll(snakes, food)[i] == GrowTimes(snakes[i], multiset(food)[snakes[i].body[0]])
    ensures !snakes[i].alive ==> FeedAll(snakes, food)[i] == snakes[i]
    decreases |food|
  {
    if food != [] {
      var front := food[..|food| - 1];
      assert food == front + [food[|food| - 1]];
      FeedAllCounts(snakes, front, i);
    }
  }

  /** A food item survives exactly when no live snake's head is on it, and
      the survivors keep their order. */
  lemma {:induction false} UneatenShape(food: seq<Coordinate>, snakes: seq<Snake>)
    ensures forall f :: f in Uneaten(food, snakes) <==> f in food && !Eaten(f, snakes)
    ensures SubsequenceOf(Uneaten(food, snakes), food)
    decreases |food|
  {
    if food != [] {
      var front := food[..|food| - 1];
      var f := food[|food| - 1];
      UneatenShape(front, snakes);
      assert food == front + [f];
      if Eaten(f, snakes) {
        assert Uneaten(food, snakes) == Uneaten(front, snakes);
        SubsequenceSkip(Uneaten(front, snakes), front, f);
        assert SubsequenceOf(Uneaten(food, snakes), front + [f]);
      } else {
        SubsequenceKeep(Uneaten(front, snakes), front, f);
      }
    }
  }

  // ---------------------------------------------------------------------
  // The whole step

  /** What `step_board` returns: unchanged for no moves; otherwise validated,
      moved, starved and fed, after which the food placement runs when
      `check_food_needed` asks for food. */
  function StepOutcome(board: Board, moves: seq<Move>, foodNeeded: Board -> nat,
                       placeFood: (Board, nat) -> Board): Result<Board>
  {
    if moves == [] then Ok(board)
    else if !AliveHaveBodies(board.snakes) then Err(ZeroLengthSnake)
    else
      match MoveAll(board.snakes, moves)
      case Err(e) => Err(e)
      case Ok(moved) =>
        match Drain(moved)
        case Err(e) => Err(e)
        case Ok(drained) =>
          var fed := board.(snakes := FeedAll(drained, board.food), food := Uneaten(board.food, drained));
          var needed := foodNeeded(fed);
          Ok(if needed > 0 then placeFood(fed, needed) else fed)
  }

  /** `step_board`. The board is owned by the call and updated in place. */
  method StepBoard(board: Board, moves: seq<Move>, foodNeeded: Board -> nat,
                   placeFood: (Board, nat) -> Board)
    returns (res: Result<Board>)
    ensures res == StepOutcome(board, moves, foodNeeded, placeFood)
  {
    if |moves| == 0 {
      return Ok(board);
    }
    var valid := CheckBodies(board.snakes);
    if !valid {
      return Err(ZeroLengthSnake);
    }
    var b := board;
    var movedRes := MoveSnakes(b.snakes, moves);
    if movedRes.Err? {
      return Err(movedRes.error);
    }
    var drainedRes := ReduceHealth(movedRes.value);
    if drainedRes.Err? {
      return Err(drainedRes.error);
    }
    b := b.(snakes := drainedRes.value);
    var fedSnakes, newFood := FeedSnakes(b.snakes, b.food);
    b := b.(snakes := fedSnakes);
    b := b.(food := newFood);
    var needed := foodNeeded(b);
    if needed > 0 {
      b := placeFood(b, needed);
    }
    return Ok(b);
  }

  /** The validation loop: a live snake with an empty body makes the step
      panic. */
  method CheckBodies(snakes: seq<Snake>) returns (ok: bool)
    ensures ok <==> AliveHaveBodies(snakes)
  {
    for i := 0 to |snakes|
      invariant forall k :: 0 <= k < i && snakes[k].alive ==> |snakes[k].body| >= 1
    {
      if snakes[i].alive && |snakes[i].body| == 0 {
        return false;
      }
    }
    return true;
  }

  /** The movement loop, in place on the board's snakes. */
  method MoveSnakes(snakes: seq<Snake>, moves: seq<Move>) returns (res: Result<seq<Snake>>)
    ensures res == MoveAll(snakes, moves)
  {
    var current := snakes;
    for k := 0 to |moves|
      invariant MoveAll(snakes, moves[..k]) == Ok(current)
    {
      MoveAllStep(snakes, moves, k);
      var m := moves[k];
      if m.idx >= |current| {
        MoveAllStopsAtPanic(snakes, moves, k + 1);
        return Err(IndexOutOfBounds);
      }
      if !current[m.idx].alive {
        MoveAllStopsAtPanic(snakes, moves, k + 1);
        return Err(DeadSnakeMoved);
      }
      var s := current[m.idx];
      if |s.body| == 0 {
        MoveAllStopsAtPanic(snakes, moves, k + 1);
        return Err(IndexOutOfBounds);
      }
      var newHead := Shift(s.body[0], m.direction);
      var body := [newHead] + s.body;
      body := body[..|body| - 1];
      current := current[m.idx := s.(body := body)];
    }
    assert moves[..|moves|] == moves;
    return Ok(current);
  }

  /** The health loop, in place. */
  method ReduceHealth(snakes: seq<Snake>) returns (res: Result<seq<Snake>>)
    ensures res == Drain(snakes)
  {
    DrainPointwise(snakes);
    var current := snakes;
    for i := 0 to |snakes|
      invariant |current| == |snakes|
      invariant forall k :: 0 <= k < i ==> snakes[k].alive ==> snakes[k].health > -128
      invariant forall k :: 0 <= k < i ==> current[k] == Starved(snakes[k])
      invariant forall k :: i <= k < |snakes| ==> current[k] == snakes[k]
    {
      if current[i].alive {
        if current[i].health == -128 {
          return Err(SubtractOverflow);
        }
        current := current[i := current[i].(health := current[i].health - 1)];
      }
    }
    assert current == Drain(snakes).value;
    return Ok(current);
  }

  /** The feeding loops, in place on the snakes, building the new food list. */
  method FeedSnakes(snakes: seq<Snake>, food: seq<Coordinate>)
    returns (fed: seq<Snake>, newFood: seq<Coordinate>)
    requires AliveHaveBodies(snakes)
    ensures fed == FeedAll(snakes, food)
    ensures newFood == Uneaten(food, snakes)
  {
    fed := snakes;
    newFood := [];
    for j := 0 to |food|
      invariant fed == FeedAll(snakes, food[..j])
      invariant newFood == Uneaten(food[..j], snakes)
    {
      FeedStep(snakes, food, j);
      var eaten;
      fed, eaten := FeedOne(fed, food[j]);
      SameHeadsEaten(FeedAll(snakes, food[..j]), snakes, food[j]);
      if !eaten {
        newFood := newFood + [food[j]];
      }
    }
    assert food[..|food|] == food;
  }

  /** The inner feeding loop for one food item; `eaten` tells whether some
      live snake had its head on it. */
  method FeedOne(snakes: seq<Snake>, f: Coordinate) returns (fed: seq<Snake>, eaten: bool)
    requires AliveHaveBodies(snakes)
    ensures fed == FeedEach(snakes, f)
    ensures eaten <==> Eaten(f, snakes)
  {
    fed := snakes;
    eaten := false;
    for i := 0 to |snakes|
      invariant |fed| == |snakes|
      invariant forall k :: 0 <= k < i ==> fed[k] == FeedEach(snakes, f)[k]
      invariant forall k :: i <= k < |snakes| ==> fed[k] == snakes[k]
      invariant eaten <==> exists k :: 0 <= k < i && EatsFrom(snakes[k], f)
    {
      var s := fed[i];
      if s.alive && s.body[0] == f {
        s := s.(health := 100);
        s := s.(body := s.body + [s.body[|s.body| - 1]]);
        fed := fed[i := s];
        eaten := true;
      }
    }
  }

  // ---------------------------------------------------------------------
  // Properties of the whole step

  /** No moves: the board comes back untouched, whatever it holds. */
  lemma StepWithoutMoves(board: Board, foodNeeded: Board -> nat, placeFood: (Board, nat) -> Board)
    ensures StepOutcome(board, [], foodNeeded, placeFood) == Ok(board)
  {
  }

  /** With at least one move the step panics on a live snake with an empty
      body before anything moves, and only then with that panic. */
  lemma StepPanicsOnEmptyBody(board: Board, moves: seq<Move>, foodNeeded: Board -> nat, placeFood: (Board, nat) -> Board)
    requires moves != []
    ensures StepOutcome(board, moves, foodNeeded, placeFood) == Err(ZeroLengthSnake) <==>
      exists i :: 0 <= i < |board.snakes| && board.snakes[i].alive && |board.snakes[i].body| == 0
  {
    if AliveHaveBodies(board.snakes) {
      var r := MoveAll(board.snakes, moves);
      assert r.Err? ==> r.error != ZeroLengthSnake by {
        MoveAllPanics(board.snakes, moves);
      }
      if r.Ok? {
        DrainPointwise(r.value);
      }
    }
  }

  /** The movement loop only panics on a bad index, a dead snake or an empty
      body. */
  lemma {:induction false} MoveAllPanics(snakes: seq<Snake>, moves: seq<Move>)
    ensures MoveAll(snakes, moves).Err? ==>
      MoveAll(snakes, moves).error in {IndexOutOfBounds, DeadSnakeMoved}
    decreases |moves|
  {
    if moves != [] {
      MoveAllPanics(snakes, moves[..|moves| - 1]);
    }
  }

  /** A first move aimed at a dead snake makes a valid board panic. */
  lemma StepRejectsDeadSnake(board: Board, moves: seq<Move>, foodNeeded: Board -> nat, placeFood: (Board, nat) -> Board)
    requires moves != [] && AliveHaveBodies(board.snakes)
    requires moves[0].idx < |board.snakes| && !board.snakes[moves[0].idx].alive
    ensures StepOutcome(board, moves, foodNeeded, placeFood) == Err(DeadSnakeMoved)
  {
    MoveAllStep(board.snakes, moves, 0);
    assert moves[..0] == [];
    MoveAllStopsAtPanic(board.snakes, moves, 1);
  }

  /** When nothing panics, every snake keeps its liveness, live snakes that
      did not reach food have one health point less and as long a body as
      before, and the food that is left before placement is the uneaten
      food in its original order. */
  lemma StepOutcomeShape(board: Board, moves: seq<Move>, i: nat)
    requires moves != [] && AliveHaveBodies(board.snakes)
    requires MoveAll(board.snakes, moves).Ok? && Drain(MoveAll(board.snakes, moves).value).Ok?
    requires i < |board.snakes|
    ensures var moved := MoveAll(board.snakes, moves).value;
      var fed := FeedAll(Drain(moved).value, board.food);
      && |fed| == |board.snakes|
      && fed[i].alive == board.snakes[i].alive
      && (board.snakes[i].alive && moved[i].body[0] !in board.food ==>
            fed[i].health == board.snakes[i].health - 1 && |fed[i].body| == |board.snakes[i].body|)
      && (board.snakes[i].alive && moved[i].body[0] in board.food ==> fed[i].health == 100)
      && (!board.snakes[i].alive ==> fed[i] == board.snakes[i])
  {
    var moved := MoveAll(board.snakes, moves).value;
    var drained := Drain(moved).value;
    assert drained[i] == Starved(moved[i]) by {
      DrainPointwise(moved);
    }
    var s := drained[i];
    if s.alive {
      var n := multiset(board.food)[s.body[0]];
      assert FeedAll(drained, board.food)[i] == GrowTimes(s, n) by {
        FeedAllCounts(drained, board.food, i);
      }
      GrowTimesShape(s, n);
      assert s.body[0] in board.food <==> n > 0;
    } else {
      assert FeedAll(drained, board.food)[i] == s by {
        FeedAllCounts(drained, board.food, i);
      }
      DeadStayPut(board.snakes, moves, i);
    }
  }

  /** A dead snake is never changed by the movement loop. */
  lemma {:induction false} DeadStayPut(snakes: seq<Snake>, moves: seq<Move>, i: nat)
    requires MoveAll(snakes, moves).Ok? && i < |snakes| && !snakes[i].alive
    ensures MoveAll(snakes, moves).value[i] == snakes[i]
    decreases |moves|
  {
    if moves != [] {
      DeadStayPut(snakes, moves[..|moves| - 1], i);
    }
  }
}
