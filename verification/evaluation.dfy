/** The heuristic evaluator (`evaluateBoard`): one pass over the board that
    scores material, critical cells and threats, with terminal sentinels. */
module Evaluator {
  import opened Grid

  /** The sentinel for a won board. */
  const Win: real := 10000.0
  /** The sentinel for a lost board. */
  const Loss: real := -10000.0

  /** A value of `Math.random() * 0.5`, the tie-breaking jitter. */
  type Jitter = r: real | 0.0 <= r < 0.5

  /** The three accumulators of the pass. */
  datatype Totals = Totals(score: int, mine: nat, enemy: nat)

  function Plus(a: Totals, b: Totals): Totals {
    Totals(a.score + b.score, a.mine + b.mine, a.enemy + b.enemy)
  }

  /** What one cell adds to the score: nothing when it is unowned or
      blocked; for `player`'s own cell twice its orbs, plus 3 when it is
      critical (one orb below capacity) and 5 more at capacity 2 or 3 more
      at capacity 3; for another player's critical cell minus `6 - cap`. */
  function CellScore(env: Env, b: Board, player: int, c: Coord): (r: int)
    requires Shaped(env, b) && InBounds(env, c)
    ensures var cell := At(env, b, c);
      && (cell.owner == Unowned || cell.blocked ==> r == 0)
      && (cell.owner == player && player != Unowned && !cell.blocked ==> 2 * cell.count <= r <= 2 * cell.count + 8)
      && (r < 0 ==> cell.owner != player && cell.count == Cap(env, c) - 1)
      && (cell.owner != player && cell.count != Cap(env, c) - 1 ==> r == 0)
  {
    var cell := At(env, b, c);
    if cell.owner == Unowned || cell.blocked then 0
    else
      var cap := Cap(env, c);
      var critical := cell.count == cap - 1;
      if cell.owner == player then
        cell.count * 2 + (if critical then 3 + (if cap == 2 then 5 else if cap == 3 then 3 else 0) else 0)
      else if critical then -(6 - cap)
      else 0
  }

  /** The orbs of `player` a cell adds: all of them on a non-blocked cell
      `player` owns. */
  function OwnOrbs(env: Env, b: Board, player: int, c: Coord): nat
    requires Shaped(env, b) && InBounds(env, c)
  {
    var cell := At(env, b, c);
    if cell.owner == Unowned || cell.blocked || cell.owner != player then 0 else cell.count
  }

  /** The rival orbs a cell adds: all of them on a non-blocked cell
      another player owns. */
  function RivalOrbs(env: Env, b: Board, player: int, c: Coord): nat
    requires Shaped(env, b) && InBounds(env, c)
  {
    var cell := At(env, b, c);
    if cell.owner == Unowned || cell.blocked || cell.owner == player then 0 else cell.count
  }

  /** What one cell adds to the three accumulators. */
  function Contribution(env: Env, b: Board, player: int, c: Coord): Totals
    requires Shaped(env, b) && InBounds(env, c)
  {
    Totals(CellScore(env, b, player, c), OwnOrbs(env, b, player, c), RivalOrbs(env, b, player, c))
  }

  /** The accumulators after visiting `cs`. */
  function TallyOver(env: Env, b: Board, player: int, cs: seq<Coord>): Totals
    requires Shaped(env, b) && AllIn(env, cs)
  {
    if cs == [] then Totals(0, 0, 0)
    else Plus(TallyOver(env, b, player, cs[..|cs| - 1]), Contribution(env, b, player, cs[|cs| - 1]))
  }

  /** The accumulators after the whole pass. */
  function Tally(env: Env, b: Board, player: int): Totals
    requires Shaped(env, b)
  {
    TallyOver(env, b, player, AllCells(env))
  }

  /** `evaluateBoard(board, player)` with the random jitter given. Unless
      it is a sentinel, it lies less than half a point above the score. */
  function Evaluation(env: Env, b: Board, player: int, jitter: Jitter): (r: real)
    requires Shaped(env, b)
    ensures var score := Tally(env, b, player).score as real;
      r == Win || r == Loss || score <= r < score + 0.5
  {
    var t := Tally(env, b, player);
    if t.mine > 0 && t.enemy == 0 then Win
    else if t.mine == 0 && t.enemy > 0 then Loss
    else t.score as real + jitter
  }

  /** Cell `c` is a non-blocked cell of `player` holding orbs. */
  predicate HoldsOrbs(env: Env, b: Board, player: int, c: Coord)
    requires Shaped(env, b) && InBounds(env, c)
  {
    var cell := At(env, b, c);
    !cell.blocked && cell.owner != Unowned && cell.owner == player && cell.count > 0
  }

  /** Cell `c` is a non-blocked cell of some other player holding orbs. */
  predicate RivalHoldsOrbs(env: Env, b: Board, player: int, c: Coord)
    requires Shaped(env, b) && InBounds(env, c)
  {
    var cell := At(env, b, c);
    !cell.blocked && cell.owner != Unowned && cell.owner != player && cell.count > 0
  }

  ghost predicate HasOrbs(env: Env, b: Board, player: int)
    requires Shaped(env, b)
  {
    exists c :: InBounds(env, c) && HoldsOrbs(env, b, player, c)
  }

  ghost predicate RivalsHaveOrbs(env: Env, b: Board, player: int)
    requires Shaped(env, b)
  {
    exists c :: InBounds(env, c) && RivalHoldsOrbs(env, b, player, c)
  }

  /** A cell adds orbs to a side's total exactly when it holds orbs of
      that side. */
  lemma ContributionOrbs(env: Env, b: Board, player: int, c: Coord)
    requires Shaped(env, b) && InBounds(env, c)
    ensures Contribution(env, b, player, c).mine == 0 <==> !HoldsOrbs(env, b, player, c)
    ensures Contribution(env, b, player, c).enemy == 0 <==> !RivalHoldsOrbs(env, b, player, c)
  {
  }

  /** A non-empty list is its prefix followed by its last element. */
  lemma LastSplit<T>(s: seq<T>)
    requires s != []
    ensures s == s[..|s| - 1] + [s[|s| - 1]]
    ensures forall x :: x in s <==> x in s[..|s| - 1] || x == s[|s| - 1]
  {
    assert s == s[..|s| - 1] + [s[|s| - 1]];
  }

  /** A zero mine total means no visited cell holds orbs of the player. */
  lemma {:induction false} TallyMineZero(env: Env, b: Board, player: int, cs: seq<Coord>)
    requires Shaped(env, b) && AllIn(env, cs)
    requires TallyOver(env, b, player, cs).mine == 0
    ensures forall c :: c in cs ==> !HoldsOrbs(env, b, player, c)
  {
    if cs != [] {
      var init, last := cs[..|cs| - 1], cs[|cs| - 1];
      LastSplit(cs);
      ContributionOrbs(env, b, player, last);
      TallyMineZero(env, b, player, init);
    }
  }

  /** A positive mine total has a visited cell holding orbs of the player
      behind it. */
  lemma {:induction false} TallyMineWitness(env: Env, b: Board, player: int, cs: seq<Coord>)
    requires Shaped(env, b) && AllIn(env, cs)
    requires TallyOver(env, b, player, cs).mine != 0
    ensures exists c :: c in cs && HoldsOrbs(env, b, player, c)
  {
    var init, last := cs[..|cs| - 1], cs[|cs| - 1];
    ContributionOrbs(env, b, player, last);
    assert cs == init + [last];
    if TallyOver(env, b, player, init).mine != 0 {
      TallyMineWitness(env, b, player, init);
      var c :| c in init && HoldsOrbs(env, b, player, c);
      assert c in cs;
    } else {
      assert last in cs;
    }
  }

  /** The mine total is zero exactly when no visited cell holds orbs of
      the player. */
  lemma TallyMine(env: Env, b: Board, player: int, cs: seq<Coord>)
    requires Shaped(env, b) && AllIn(env, cs)
    ensures TallyOver(env, b, player, cs).mine == 0 <==> forall c :: c in cs ==> !HoldsOrbs(env, b, player, c)
  {
    if TallyOver(env, b, player, cs).mine == 0 {
      TallyMineZero(env, b, player, cs);
    } else {
      TallyMineWitness(env, b, player, cs);
    }
  }

  /** A zero enemy total means no visited cell holds orbs of another player. */
  lemma {:induction false} TallyEnemyZero(env: Env, b: Board, player: int, cs: seq<Coord>)
    requires Shaped(env, b) && AllIn(env, cs)
    requires TallyOver(env, b, player, cs).enemy == 0
    ensures forall c :: c in cs ==> !RivalHoldsOrbs(env, b, player, c)
  {
    if cs != [] {
      var init, last := cs[..|cs| - 1], cs[|cs| - 1];
      LastSplit(cs);
      ContributionOrbs(env, b, player, last);
      TallyEnemyZero(env, b, player, init);
    }
  }

  /** A positive enemy total has a visited cell holding orbs of another player
      behind it. */
  lemma {:induction false} TallyEnemyWitness(env: Env, b: Board, player: int, cs: seq<Coord>)
    requires Shaped(env, b) && AllIn(env, cs)
    requires TallyOver(env, b, player, cs).enemy != 0
    ensures exists c :: c in cs && RivalHoldsOrbs(env, b, player, c)
  {
    var init, last := cs[..|cs| - 1], cs[|cs| - 1];
    ContributionOrbs(env, b, player, last);
    assert cs == init + [last];
    if TallyOver(env, b, player, init).enemy != 0 {
      TallyEnemyWitness(env, b, player, init);
      var c :| c in init && RivalHoldsOrbs(env, b, player, c);
      assert c in cs;
    } else {
      assert last in cs;
    }
  }

  /** The enemy total is zero exactly when no visited cell holds orbs of
      another player. */
  lemma TallyEnemy(env: Env, b: Board, player: int, cs: seq<Coord>)
    requires Shaped(env, b) && AllIn(env, cs)
    ensures TallyOver(env, b, player, cs).enemy == 0 <==> forall c :: c in cs ==> !RivalHoldsOrbs(env, b, player, c)
  {
    if TallyOver(env, b, player, cs).enemy == 0 {
      TallyEnemyZero(env, b, player, cs);
    } else {
      TallyEnemyWitness(env, b, player, cs);
    }
  }

  /** A pass over cells that are all unowned or blocked adds nothing. */
  lemma {:induction false} TallyOfEmpty(env: Env, b: Board, player: int, cs: seq<Coord>)
    requires Shaped(env, b) && AllIn(env, cs)
    requires forall c :: c in cs ==> At(env, b, c).owner == Unowned || At(env, b, c).blocked
    ensures TallyOver(env, b, player, cs) == Totals(0, 0, 0)
  {
    if cs != [] {
      TallyOfEmpty(env, b, player, cs[..|cs| - 1]);
    }
  }

  /** Terminal detection: the evaluation is exactly `Win` when `player`
      holds orbs and nobody else does, exactly `Loss` in the reverse case,
      and otherwise the heuristic score plus the jitter. */
  lemma EvaluationCases(env: Env, b: Board, player: int, jitter: Jitter)
    requires Shaped(env, b)
    ensures var e := Evaluation(env, b, player, jitter);
      && (HasOrbs(env, b, player) && !RivalsHaveOrbs(env, b, player) ==> e == Win)
      && (!HasOrbs(env, b, player) && RivalsHaveOrbs(env, b, player) ==> e == Loss)
      && ((HasOrbs(env, b, player) == RivalsHaveOrbs(env, b, player))
            ==> e == Tally(env, b, player).score as real + jitter)
  {
    TallyMine(env, b, player, AllCells(env));
    TallyEnemy(env, b, player, AllCells(env));
  }

  /** A board on which every non-blocked orb belongs to `p`, and there is
      one, is a win for `p` and a loss for every other player. */
  lemma SoleOwner(env: Env, b: Board, p: int, q: int, jitter: Jitter)
    requires Shaped(env, b) && p != Unowned && q != p
    requires forall c :: InBounds(env, c) && !At(env, b, c).blocked && At(env, b, c).count > 0
                         ==> At(env, b, c).owner == p
    requires HasOrbs(env, b, p)
    ensures Evaluation(env, b, p, jitter) == Win
    ensures Evaluation(env, b, q, jitter) == Loss
  {
    TallyMine(env, b, p, AllCells(env));
    TallyEnemy(env, b, p, AllCells(env));
    TallyMine(env, b, q, AllCells(env));
    TallyEnemy(env, b, q, AllCells(env));
    var c :| InBounds(env, c) && HoldsOrbs(env, b, p, c);
    assert RivalHoldsOrbs(env, b, q, c);
  }

  /** An empty board (every cell unowned or blocked) is not terminal: its
      evaluation is the jitter alone, strictly between the sentinels. */
  lemma EmptyBoard(env: Env, b: Board, player: int, jitter: Jitter)
    requires Shaped(env, b)
    requires forall c :: InBounds(env, c) ==> At(env, b, c).owner == Unowned || At(env, b, c).blocked
    ensures Evaluation(env, b, player, jitter) == jitter
    ensures Loss < Evaluation(env, b, player, jitter) < Win
  {
    TallyOfEmpty(env, b, player, AllCells(env));
  }

  /** One step of the pass: cell `(x, y)` adds its contribution. */
  lemma TallyStep(env: Env, b: Board, player: int, y: nat, x: nat)
    requires Shaped(env, b) && y < env.rows && x < env.cols
    ensures AllIn(env, Before(env.cols, y, x)) && AllIn(env, Before(env.cols, y, x + 1))
    ensures TallyOver(env, b, player, Before(env.cols, y, x + 1))
            == Plus(TallyOver(env, b, player, Before(env.cols, y, x)), Contribution(env, b, player, Coord(x, y)))
  {
    BeforeInBounds(env, y, x);
    BeforeInBounds(env, y, x + 1);
    var cs := Before(env.cols, y, x);
    assert Before(env.cols, y, x + 1) == cs + [Coord(x, y)];
    assert (cs + [Coord(x, y)])[..|cs|] == cs;
  }

  /** The body of `evaluateBoard`'s inner loop: the accumulators after
      visiting cell `(x, y)`. */
  method VisitCell(env: Env, board: Board, player: int, x: int, y: int,
                   score: int, myOrbs: nat, enemyOrbs: nat)
    returns (score': int, myOrbs': nat, enemyOrbs': nat)
    requires Shaped(env, board) && InBounds(env, Coord(x, y))
    ensures Totals(score', myOrbs', enemyOrbs')
            == Plus(Totals(score, myOrbs, enemyOrbs), Contribution(env, board, player, Coord(x, y)))
  {
    score', myOrbs', enemyOrbs' := score, myOrbs, enemyOrbs;
    var cell := board[y][x];
    if !(cell.owner == Unowned || cell.blocked) {
      var cap := env.geom.capacity(x, y, env.rows, env.cols);
      var isCritical := cell.count == cap - 1;
      if cell.owner == player {
        myOrbs' := myOrbs' + cell.count;
        score' := score' + cell.count * 2;
        if isCritical {
          score' := score' + 3;
          if cap == 2 {
            score' := score' + 5;
          } else if cap == 3 {
            score' := score' + 3;
          }
        }
      } else {
        enemyOrbs' := enemyOrbs' + cell.count;
        if isCritical {
          score' := score' - (6 - cap);
        }
      }
    }
  }

  /** `evaluateBoard`: the nested loops updating `score`, `myOrbs` and
      `enemyOrbs`, then the terminal tests. */
  method EvaluateBoard(env: Env, board: Board, player: int, jitter: Jitter) returns (e: real)
    requires Shaped(env, board)
    ensures e == Evaluation(env, board, player, jitter)
  {
    var score: int, myOrbs: nat, enemyOrbs: nat := 0, 0, 0;
    var y := 0;
    BeforeInBounds(env, 0, 0);
    while y < env.rows
      invariant 0 <= y <= env.rows
      invariant AllIn(env, Before(env.cols, y, 0))
      invariant Totals(score, myOrbs, enemyOrbs) == TallyOver(env, board, player, Before(env.cols, y, 0))
    {
      var x := 0;
      while x < env.cols
        invariant 0 <= x <= env.cols
        invariant AllIn(env, Before(env.cols, y, x))
        invariant Totals(score, myOrbs, enemyOrbs) == TallyOver(env, board, player, Before(env.cols, y, x))
      {
        TallyStep(env, board, player, y, x);
        score, myOrbs, enemyOrbs := VisitCell(env, board, player, x, y, score, myOrbs, enemyOrbs);
        x := x + 1;
      }
      assert Before(env.cols, y + 1, 0) == Before(env.cols, y, env.cols);
      BeforeInBounds(env, y + 1, 0);
      y := y + 1;
    }
    if myOrbs > 0 && enemyOrbs == 0 {
      return Win;
    }
    if myOrbs == 0 && enemyOrbs > 0 {
      return Loss;
    }
    return score as real + jitter;
  }
}
