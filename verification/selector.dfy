/** The move picker (`makeAIMove`): the legal moves of the deciding
    player, a random pick in easy mode, otherwise a search depth chosen from
    the difficulty and the first candidate, in shuffled order, whose search
    value is strictly greater than every earlier one. */
module Selector {
  import opened Grid
  import opened Simulation
  import opened Evaluator
  import opened Pruning
  import opened Search

  datatype Option<T> = None | Some(value: T)

  /** A value of `Math.random()`. */
  type Unit = r: real | 0.0 <= r < 1.0

  // ---------------------------------------------------------------------
  // The random choices, given as parameters.

  /** `Math.floor(Math.random() * n)`: an index of a list of `n` moves. */
  function EasyIndex(u: Unit, n: nat): (k: nat)
    requires n > 0
    ensures k < n
  {
    assert u * n as real < n as real by {
      assert (1.0 - u) * n as real > 0.0;
    }
    (u * n as real).Floor
  }

  /** `0, 1, ..., n - 1`. */
  function Range(n: nat): (r: seq<nat>)
    ensures |r| == n && forall i :: 0 <= i < n ==> r[i] == i
  {
    seq(n, i requires 0 <= i < n => i)
  }

  /** `order` lists every index below `n` exactly once: the outcome of
      sorting a list of `n` moves with a random comparator. */
  predicate IsPermutation(order: seq<nat>, n: nat) {
    multiset(order) == multiset(Range(n))
  }

  lemma PermutationFacts(order: seq<nat>, n: nat)
    requires IsPermutation(order, n)
    ensures |order| == n
    ensures forall i :: 0 <= i < n ==> order[i] < n
    ensures forall k: nat :: k < n ==> k in order
  {
    assert |multiset(order)| == |multiset(Range(n))|;
    forall i | 0 <= i < n ensures order[i] < n {
      assert order[i] in multiset(order);
    }
    forall k: nat | k < n ensures k in order {
      assert Range(n)[k] == k;
      assert k in multiset(Range(n));
    }
  }

  /** `valid.sort(() => Math.random() - 0.5)`, the random order given as
      the permutation `order`: position `i` receives move `order[i]`. */
  function Shuffle(valid: seq<Coord>, order: seq<nat>): (r: seq<Coord>)
    requires IsPermutation(order, |valid|)
    ensures |r| == |valid|
    ensures forall c :: c in r ==> c in valid
  {
    PermutationFacts(order, |valid|);
    seq(|valid|, i requires 0 <= i < |valid| => valid[order[i]])
  }

  /** The shuffle keeps exactly the moves it was given. */
  lemma ShuffleMembers(valid: seq<Coord>, order: seq<nat>)
    requires IsPermutation(order, |valid|)
    ensures forall c :: c in Shuffle(valid, order) <==> c in valid
  {
    PermutationFacts(order, |valid|);
    var r := Shuffle(valid, order);
    forall c | c in valid ensures c in r {
      var k :| 0 <= k < |valid| && valid[k] == c;
      assert k in order;
      var i :| 0 <= i < |order| && order[i] == k;
      assert r[i] == c;
    }
  }

  // ---------------------------------------------------------------------
  // The search depth.

  /** The cells of one row whose owner is not `Unowned`, counted: at most
      the row's length, and none exactly when every cell is unowned. */
  function OwnedInRow(row: seq<Cell>): (r: nat)
    ensures r <= |row|
    ensures r == 0 <==> forall i :: 0 <= i < |row| ==> row[i].owner == Unowned
  {
    if row == [] then 0
    else
      var init := row[..|row| - 1];
      assert forall i :: 0 <= i < |init| ==> init[i] == row[i];
      OwnedInRow(init) + (if row[|row| - 1].owner != Unowned then 1 else 0)
  }

  /** `board.flat().filter(c => c.owner !== -1).length`: the owned cells of
      every row, blocked or not; none exactly when no cell is owned. */
  function Occupied(b: Board): (r: nat)
    ensures r == 0 <==> forall y, x :: 0 <= y < |b| && 0 <= x < |b[y]| ==> b[y][x].owner == Unowned
  {
    if b == [] then 0
    else
      var init := b[..|b| - 1];
      assert forall y :: 0 <= y < |init| ==> init[y] == b[y];
      Occupied(init) + OwnedInRow(b[|b| - 1])
  }

  /** One more row of `cols` cells adds `cols` to a bound of `n * cols`. */
  lemma RowMore(k: nat, m: nat, n: nat, cols: nat)
    requires k <= n * cols && m <= cols
    ensures k + m <= (n + 1) * cols
  {
  }

  lemma {:induction false} OccupiedRows(b: Board, cols: nat)
    requires forall y :: 0 <= y < |b| ==> |b[y]| == cols
    ensures Occupied(b) <= |b| * cols
  {
    if b != [] {
      var init, last := b[..|b| - 1], b[|b| - 1];
      assert forall y :: 0 <= y < |init| ==> init[y] == b[y];
      OccupiedRows(init, cols);
      RowMore(Occupied(init), OwnedInRow(last), |init|, cols);
    }
  }

  /** At most every cell is occupied, and none is exactly when every
      cell is unowned. */
  lemma OccupiedBounds(env: Env, b: Board)
    requires Shaped(env, b)
    ensures Occupied(b) <= env.rows * env.cols
    ensures Occupied(b) == 0 <==> forall c :: InBounds(env, c) ==> At(env, b, c).owner == Unowned
  {
    OccupiedRows(b, env.cols);
    if Occupied(b) != 0 {
      var y, x :| 0 <= y < |b| && 0 <= x < env.cols && b[y][x].owner != Unowned;
      assert At(env, b, Coord(x, y)).owner != Unowned;
    }
  }

  /** The depth for a difficulty: 2 for `"hard"`; for `"hint"` 5 when more
      than 80% of the cells are owned, else 2; 1 for anything else. The
      ratio has no value on a board without cells, and the test fails. */
  function SearchDepth(env: Env, b: Board, difficulty: string): (r: nat)
    requires Shaped(env, b)
    ensures r == 1 || r == 2 || r == 5
    ensures r == 1 <==> difficulty != "hard" && difficulty != "hint"
    ensures r == 5 ==> difficulty == "hint"
  {
    if difficulty == "hard" then 2
    else if difficulty == "hint" then
      (if env.rows * env.cols > 0 && Occupied(b) as real / (env.rows * env.cols) as real > 0.8 then 5 else 2)
    else 1
  }

  lemma ProductSign(a: real, n: real)
    requires n > 0.0
    ensures a > 0.0 ==> a * n > 0.0
    ensures a >= 0.0 ==> a * n >= 0.0
  {
  }

  /** The occupancy test on exact ratios: `occupied / cells > 0.8`
      exactly when `5 * occupied > 4 * cells`. */
  lemma RatioTest(occupied: nat, cells: nat)
    requires cells > 0
    ensures occupied as real / cells as real > 0.8 <==> 5 * occupied > 4 * cells
  {
    var o, n := occupied as real, cells as real;
    var ratio := o / n;
    assert ratio * n == o;
    if ratio > 0.8 {
      ProductSign(ratio - 0.8, n);
      assert o - 0.8 * n > 0.0;
      assert (5 * occupied) as real > (4 * cells) as real;
    } else {
      ProductSign(0.8 - ratio, n);
      assert 0.8 * n - o >= 0.0;
      assert (5 * occupied) as real <= (4 * cells) as real;
    }
  }

  /** Hard and hint search two plies or more, every other difficulty one;
      a hint searches five exactly when `5 * occupied > 4 * rows * cols`. */
  lemma DepthCases(env: Env, b: Board, difficulty: string)
    requires Shaped(env, b)
    ensures difficulty == "hard" ==> SearchDepth(env, b, difficulty) == 2
    ensures difficulty == "hint" ==>
              (SearchDepth(env, b, difficulty) == 5 <==> 5 * Occupied(b) > 4 * env.rows * env.cols)
    ensures difficulty == "hint" ==> SearchDepth(env, b, difficulty) in {2, 5}
    ensures difficulty != "hard" && difficulty != "hint" ==> SearchDepth(env, b, difficulty) == 1
  {
    if difficulty == "hint" {
      var cells := env.rows * env.cols;
      assert 4 * env.rows * env.cols == 4 * cells;
      if cells > 0 {
        RatioTest(Occupied(b), cells);
      } else {
        OccupiedBounds(env, b);
      }
    }
  }

  /** A hint on a board where no cell is owned searches two plies. */
  lemma EmptyHintDepth(env: Env, b: Board)
    requires Shaped(env, b)
    requires forall c :: InBounds(env, c) ==> At(env, b, c).owner == Unowned
    ensures SearchDepth(env, b, "hint") == 2
  {
    OccupiedBounds(env, b);
    DepthCases(env, b, "hint");
  }

  // ---------------------------------------------------------------------
  // The choice among the candidates.

  /** The score of candidate `m`: the board after the deciding player
      plays it, searched by `minimax` from the full window one ply
      shallower with the opponent to move when `depth > 1`, and otherwise
      evaluated. A move that decides the game at once scores its sentinel
      at every depth. */
  function Candidate(env: Env, b: Board, p: int, players: int, depth: nat, jit: Oracle, m: Coord): (r: real)
    requires ValidGeometry(env) && Shaped(env, b) && players > 0 && p >= 0 && InBounds(env, m)
    ensures var e := Evaluation(env, Child(env, b, m, p), p, jit([m]));
      e == Win || e == Loss ==> r == e
  {
    var next := Child(env, b, m, p);
    if depth > 1 then AlphaBeta(env, next, depth - 1, false, p, players, NegInf, PosInf, jit, [m])
    else Evaluation(env, next, p, jit([m]))
  }

  /** With the search value, a candidate's score is its exact minimax
      value: pruning does not change which move is chosen. */
  lemma CandidateIsMinimax(env: Env, b: Board, p: int, players: int, depth: nat, jit: Oracle, m: Coord)
    requires ValidGeometry(env) && Shaped(env, b) && players > 0 && p >= 0 && InBounds(env, m)
    requires depth > 1
    ensures Candidate(env, b, p, players, depth, jit, m)
            == Value(env, Child(env, b, m, p), depth - 1, false, p, players, jit, [m])
  {
    RootExact(env, Child(env, b, m, p), depth - 1, false, p, players, jit, [m]);
  }

  /** The scores of the candidates `ms`, in order. */
  function Scores(env: Env, b: Board, p: int, players: int, depth: nat, jit: Oracle, ms: seq<Coord>)
    : (r: seq<real>)
    requires ValidGeometry(env) && Shaped(env, b) && players > 0 && p >= 0 && AllIn(env, ms)
    ensures |r| == |ms|
  {
    seq(|ms|, i requires 0 <= i < |ms| => Candidate(env, b, p, players, depth, jit, ms[i]))
  }

  /** The loop's `bestMove` (`None` for `null`) and `bestVal`. */
  datatype Choice = Choice(move: Option<Coord>, best: Ext)

  /** The candidate loop over `ms` with scores `vs`: a candidate replaces
      the best so far only when its score is strictly greater. */
  function Pick(ms: seq<Coord>, vs: seq<real>): (r: Choice)
    requires |ms| == |vs|
    ensures r.move.Some? <==> ms != []
    ensures r.move.Some? ==> r.move.value in ms
  {
    if ms == [] then Choice(None, NegInf)
    else
      var prev := Pick(ms[..|ms| - 1], vs[..|vs| - 1]);
      var last := ms[|ms| - 1];
      if Lt(prev.best, Fin(vs[|vs| - 1])) then Choice(Some(last), Fin(vs[|vs| - 1]))
      else Choice(prev.move, prev.best)
  }

  /** The loop one candidate further. */
  lemma PickStep(ms: seq<Coord>, vs: seq<real>, i: nat)
    requires |ms| == |vs| && i < |ms|
    ensures var prev := Pick(ms[..i], vs[..i]);
            Pick(ms[..i + 1], vs[..i + 1])
            == if Lt(prev.best, Fin(vs[i])) then Choice(Some(ms[i]), Fin(vs[i])) else prev
  {
    assert ms[..i + 1][..i] == ms[..i] && vs[..i + 1][..i] == vs[..i];
  }

  /** Position `k` holds a greatest score, and every earlier score is
      strictly smaller. */
  predicate FirstBest(vs: seq<real>, k: int) {
    && 0 <= k < |vs|
    && (forall j :: 0 <= j < |vs| ==> vs[j] <= vs[k])
    && (forall j :: 0 <= j < k ==> vs[j] < vs[k])
  }

  /** The loop keeps the first candidate with the greatest score. */
  lemma {:induction false} PickFirstBest(ms: seq<Coord>, vs: seq<real>)
    requires |ms| == |vs| && ms != []
    ensures exists k :: FirstBest(vs, k) && Pick(ms, vs) == Choice(Some(ms[k]), Fin(vs[k]))
  {
    var n := |ms|;
    if n == 1 {
      assert FirstBest(vs, 0);
    } else {
      var ms', vs' := ms[..n - 1], vs[..n - 1];
      PickFirstBest(ms', vs');
      var k :| FirstBest(vs', k) && Pick(ms', vs') == Choice(Some(ms'[k]), Fin(vs'[k]));
      var top := vs[n - 1];
      assert forall j :: 0 <= j < n - 1 ==> vs[j] == vs'[j];
      if vs'[k] < top {
        assert Pick(ms, vs) == Choice(Some(ms[n - 1]), Fin(top));
        assert FirstBest(vs, n - 1);
      } else {
        assert Pick(ms, vs) == Pick(ms', vs');
        assert ms[k] == ms'[k];
        assert FirstBest(vs, k);
      }
    }
  }

  /** `makeAIMove(board, p, difficulty)` with the random choices given:
      `None` for `null`. */
  function ChooseMove(env: Env, b: Board, p: int, difficulty: string, players: int, jit: Oracle,
                      pick: Unit, order: seq<nat>): (r: Option<Coord>)
    requires ValidGeometry(env) && Shaped(env, b) && players > 0 && p >= 0
    requires IsPermutation(order, |Moves(env, b, p)|)
    ensures r.None? <==> forall c :: InBounds(env, c) ==> !Legal(env, b, p, c)
    ensures r.Some? ==> InBounds(env, r.value) && Legal(env, b, p, r.value)
  {
    var valid := Moves(env, b, p);
    if valid == [] then None
    else if difficulty == "easy" then
      assert valid[0] in valid;
      Some(valid[EasyIndex(pick, |valid|)])
    else
      var depth := SearchDepth(env, b, difficulty);
      var shuffled := Shuffle(valid, order);
      ShuffleMembers(valid, order);
      var c := Pick(shuffled, Scores(env, b, p, players, depth, jit, shuffled));
      var first := shuffled[0];
      if c.move.Some? then c.move else Some(first)
  }

  /** In easy mode a legal move is drawn at the random index. */
  lemma EasyPick(env: Env, b: Board, p: int, players: int, jit: Oracle, pick: Unit, order: seq<nat>)
    requires ValidGeometry(env) && Shaped(env, b) && players > 0 && p >= 0
    requires IsPermutation(order, |Moves(env, b, p)|) && Moves(env, b, p) != []
    ensures ChooseMove(env, b, p, "easy", players, jit, pick, order)
            == Some(Moves(env, b, p)[EasyIndex(pick, |Moves(env, b, p)|)])
  {
  }

  /** Otherwise the move is the first candidate, in shuffled order, whose
      score is greatest; with a search depth above one the scores are the
      exact minimax values of the candidates. */
  lemma ChosenIsFirstBest(env: Env, b: Board, p: int, difficulty: string, players: int, jit: Oracle,
                          pick: Unit, order: seq<nat>)
    requires ValidGeometry(env) && Shaped(env, b) && players > 0 && p >= 0
    requires IsPermutation(order, |Moves(env, b, p)|) && Moves(env, b, p) != []
    requires difficulty != "easy"
    ensures var shuffled := Shuffle(Moves(env, b, p), order);
            var scores := Scores(env, b, p, players, SearchDepth(env, b, difficulty), jit, shuffled);
            exists k :: FirstBest(scores, k)
                     && ChooseMove(env, b, p, difficulty, players, jit, pick, order) == Some(shuffled[k])
  {
    var valid := Moves(env, b, p);
    var shuffled := Shuffle(valid, order);
    ShuffleMembers(valid, order);
    var scores := Scores(env, b, p, players, SearchDepth(env, b, difficulty), jit, shuffled);
    PickFirstBest(shuffled, scores);
  }

  // ---------------------------------------------------------------------
  // The picker as a procedure.

  /** One candidate scored: simulated, then searched or evaluated. */
  method ScoreMove(env: Env, board: Board, p: int, players: int, depth: nat, jit: Oracle, m: Coord)
    returns (val: real)
    requires ValidGeometry(env) && Shaped(env, board) && players > 0 && p >= 0 && InBounds(env, m)
    ensures val == Candidate(env, board, p, players, depth, jit, m)
  {
    var nextBoard := SimulateBoardState(env, board, m.x, m.y, p);
    if depth > 1 {
      val := Minimax(env, nextBoard, depth - 1, false, p, players, NegInf, PosInf, jit, [m]);
    } else {
      val := EvaluateBoard(env, nextBoard, p, jit([m]));
    }
  }

  /** The loop over the shuffled candidates, keeping `bestMove` and
      `bestVal` and replacing them only on a strictly greater score. */
  method PickBest(env: Env, board: Board, p: int, players: int, depth: nat, jit: Oracle,
                  valid: seq<Coord>, ghost scores: seq<real>)
    returns (bestMove: Option<Coord>, bestVal: Ext)
    requires ValidGeometry(env) && Shaped(env, board) && players > 0 && p >= 0 && AllIn(env, valid)
    requires scores == Scores(env, board, p, players, depth, jit, valid)
    ensures Choice(bestMove, bestVal) == Pick(valid, scores)
  {
    bestMove, bestVal := None, NegInf;
    for i := 0 to |valid|
      invariant Choice(bestMove, bestVal) == Pick(valid[..i], scores[..i])
    {
      var m := valid[i];
      var val := ScoreMove(env, board, p, players, depth, jit, m);
      PickStep(valid, scores, i);
      if Lt(bestVal, Fin(val)) {
        bestVal := Fin(val);
        bestMove := Some(m);
      }
    }
    assert valid[..|valid|] == valid && scores[..|scores|] == scores;
  }

  /** `makeAIMove`: the scan for legal moves, the easy pick, the depth,
      the shuffle, and the loop keeping the strictly best candidate, with
      the first shuffled move as the fallback. */
  method MakeAIMove(env: Env, board: Board, p: int, difficulty: string, players: int, jit: Oracle,
                    pick: Unit, order: seq<nat>) returns (r: Option<Coord>)
    requires ValidGeometry(env) && Shaped(env, board) && players > 0 && p >= 0
    requires IsPermutation(order, |Moves(env, board, p)|)
    ensures r == ChooseMove(env, board, p, difficulty, players, jit, pick, order)
  {
    var valid := LegalMoves(env, board, p);
    if |valid| == 0 {
      return None;
    }
    if difficulty == "easy" {
      return Some(valid[EasyIndex(pick, |valid|)]);
    }
    var depth := SearchDepth(env, board, difficulty);
    ghost var legal := valid;
    valid := Shuffle(valid, order);
    ShuffleMembers(legal, order);
    var fallback := valid[0];
    var bestMove, bestVal := PickBest(env, board, p, players, depth, jit, valid,
                                      Scores(env, board, p, players, depth, jit, valid));
    r := if bestMove.Some? then bestMove else Some(fallback);
  }
}
