/** The game-tree search (`minimax`): depth-limited minimax with alpha-beta
    pruning over boards produced by the simulator, scored by the evaluator. */
module Search {
  import opened Grid
  import opened Simulation
  import opened Evaluator
  import opened Pruning

  /** Which evaluation jitter each evaluated node receives: one draw per
      node, the node named by the moves leading to it from the position
      being decided. */
  type Oracle = seq<Coord> -> Jitter

  /** A cell `who` may play: not blocked, and empty or already `who`'s. */
  predicate Legal(env: Env, b: Board, who: int, c: Coord)
    requires Shaped(env, b) && InBounds(env, c)
    ensures Legal(env, b, who, c) ==> !At(env, b, c).blocked
    ensures At(env, b, c).owner != Unowned && At(env, b, c).owner != who ==> !Legal(env, b, who, c)
    ensures !At(env, b, c).blocked && At(env, b, c).owner == Unowned ==> Legal(env, b, who, c)
    ensures !At(env, b, c).blocked && At(env, b, c).owner == who ==> Legal(env, b, who, c)
  {
    var cell := At(env, b, c);
    !cell.blocked && (cell.owner == Unowned || cell.owner == who)
  }

  /** The legal cells among `cs`, in the order of `cs`. */
  function MovesIn(env: Env, b: Board, who: int, cs: seq<Coord>): seq<Coord>
    requires Shaped(env, b) && AllIn(env, cs)
  {
    if cs == [] then []
    else
      var last := cs[|cs| - 1];
      MovesIn(env, b, who, cs[..|cs| - 1]) + (if Legal(env, b, who, last) then [last] else [])
  }

  lemma {:induction false} MovesInMembers(env: Env, b: Board, who: int, cs: seq<Coord>)
    requires Shaped(env, b) && AllIn(env, cs)
    ensures forall c :: c in MovesIn(env, b, who, cs) <==> c in cs && Legal(env, b, who, c)
  {
    if cs != [] {
      var init, last := cs[..|cs| - 1], cs[|cs| - 1];
      MovesInMembers(env, b, who, init);
      assert forall c :: c in cs <==> c in init || c == last by {
        assert cs == init + [last];
      }
    }
  }

  /** The legal moves of `who`, in row-major scan order: exactly the
      in-bounds cells `who` may play. */
  function Moves(env: Env, b: Board, who: int): (r: seq<Coord>)
    requires Shaped(env, b)
    ensures forall c :: c in r <==> InBounds(env, c) && Legal(env, b, who, c)
  {
    MovesInMembers(env, b, who, AllCells(env));
    MovesIn(env, b, who, AllCells(env))
  }

  lemma MovesStep(env: Env, b: Board, who: int, y: nat, x: nat)
    requires Shaped(env, b) && y < env.rows && x < env.cols
    ensures AllIn(env, Before(env.cols, y, x)) && AllIn(env, Before(env.cols, y, x + 1))
    ensures MovesIn(env, b, who, Before(env.cols, y, x + 1))
            == MovesIn(env, b, who, Before(env.cols, y, x))
               + (if Legal(env, b, who, Coord(x, y)) then [Coord(x, y)] else [])
  {
    BeforeInBounds(env, y, x);
    BeforeInBounds(env, y, x + 1);
    var cs := Before(env.cols, y, x);
    assert Before(env.cols, y, x + 1) == cs + [Coord(x, y)];
    assert (cs + [Coord(x, y)])[..|cs|] == cs;
  }

  /** The scan that collects the legal moves of `who`. */
  method LegalMoves(env: Env, board: Board, who: int) returns (moves: seq<Coord>)
    requires Shaped(env, board)
    ensures moves == Moves(env, board, who)
  {
    moves := [];
    var y := 0;
    BeforeInBounds(env, 0, 0);
    while y < env.rows
      invariant 0 <= y <= env.rows
      invariant AllIn(env, Before(env.cols, y, 0))
      invariant moves == MovesIn(env, board, who, Before(env.cols, y, 0))
    {
      var x := 0;
      while x < env.cols
        invariant 0 <= x <= env.cols
        invariant AllIn(env, Before(env.cols, y, x))
        invariant moves == MovesIn(env, board, who, Before(env.cols, y, x))
      {
        MovesStep(env, board, who, y, x);
        var cell := board[y][x];
        if !cell.blocked && (cell.owner == Unowned || cell.owner == who) {
          moves := moves + [Coord(x, y)];
        }
        x := x + 1;
      }
      assert Before(env.cols, y + 1, 0) == Before(env.cols, y, env.cols);
      BeforeInBounds(env, y + 1, 0);
      y := y + 1;
    }
  }

  /** The player to move: the searching player at maximizing nodes, the
      next player in turn order at minimizing nodes. */
  function Mover(maximizing: bool, ai: int, players: int): (r: int)
    requires players > 0 && ai >= 0
    ensures maximizing ==> r == ai
    ensures !maximizing ==> 0 <= r < players && (ai < players - 1 ==> r == ai + 1) && (ai == players - 1 ==> r == 0)
  {
    if maximizing then ai else (ai + 1) % players
  }

  /** The node `b` is a leaf: a sentinel evaluation (`|e| >= 10000`) or
      depth zero. Both sentinels stop the search. */
  predicate Cutoff(e: real, depth: nat)
    ensures Cutoff(e, depth) <==> (if e < 0.0 then -e else e) >= 10000.0 || depth == 0
    ensures e == Win || e == Loss ==> Cutoff(e, depth)
  {
    e >= Win || e <= Loss || depth == 0
  }

  /** The board after `who` plays `m`. */
  function Child(env: Env, b: Board, m: Coord, who: int): (r: Board)
    requires ValidGeometry(env) && Shaped(env, b) && InBounds(env, m)
    ensures Shaped(env, r)
  {
    Simulate(env, b, m, who).board
  }

  // ---------------------------------------------------------------------
  // The search as written: alpha-beta with early exit.

  /** The search of the child reached by playing `m`, one ply shallower
      and with the other role, in the window `(a, c)`. */
  function MoveSearch(env: Env, b: Board, depth: nat, maximizing: bool, ai: int, players: int,
                      m: Coord, a: Ext, c: Ext, jit: Oracle, path: seq<Coord>): real
    requires ValidGeometry(env) && Shaped(env, b) && players > 0 && ai >= 0 && depth > 0 && InBounds(env, m)
    decreases depth, 0
  {
    AlphaBeta(env, Child(env, b, m, Mover(maximizing, ai, players)), depth - 1, !maximizing,
              ai, players, a, c, jit, path + [m])
  }

  /** The search of child `j` of a node with moves `ms`. */
  function ChildSearch(env: Env, b: Board, depth: nat, maximizing: bool, ai: int, players: int,
                       ms: seq<Coord>, j: nat, a: Ext, c: Ext, jit: Oracle, path: seq<Coord>): real
    requires ValidGeometry(env) && Shaped(env, b) && players > 0 && ai >= 0 && depth > 0 && AllIn(env, ms)
    decreases depth, 1
  {
    if j < |ms| then MoveSearch(env, b, depth, maximizing, ai, players, ms[j], a, c, jit, path) else 0.0
  }

  /** The searches of the children of a node with moves `ms`: move `j`
      played by the player to move, then searched one ply shallower with
      the other role, in the window given. */
  function Children(env: Env, b: Board, depth: nat, maximizing: bool, ai: int, players: int,
                    ms: seq<Coord>, jit: Oracle, path: seq<Coord>): Searches
    requires ValidGeometry(env) && Shaped(env, b) && players > 0 && ai >= 0 && depth > 0 && AllIn(env, ms)
    decreases depth, 2
  {
    (j: nat, a: Ext, c: Ext) => ChildSearch(env, b, depth, maximizing, ai, players, ms, j, a, c, jit, path)
  }

  /** `minimax(b, depth, maximizing, ai, players, alpha, beta)`: the
      evaluation at a leaf (a sentinel, depth zero, or no legal move), and
      otherwise the maximizing or minimizing loop over the legal moves of
      the player to move. */
  function AlphaBeta(env: Env, b: Board, depth: nat, maximizing: bool, ai: int, players: int,
                     alpha: Ext, beta: Ext, jit: Oracle, path: seq<Coord>): (r: real)
    requires ValidGeometry(env) && Shaped(env, b) && players > 0 && ai >= 0
    ensures var e := Evaluation(env, b, ai, jit(path));
      Cutoff(e, depth) || Moves(env, b, Mover(maximizing, ai, players)) == [] ==> r == e
    decreases depth, 3
  {
    var e := Evaluation(env, b, ai, jit(path));
    if Cutoff(e, depth) then e
    else
      var ms := Moves(env, b, Mover(maximizing, ai, players));
      if ms == [] then e
      else
        var search := Children(env, b, depth, maximizing, ai, players, ms, jit, path);
        if maximizing then MaxLoop(search, |ms|, 0, alpha, beta, NegInf).v
        else MinLoop(search, |ms|, 0, alpha, beta, PosInf).v
  }

  // ---------------------------------------------------------------------
  // The reference: plain minimax over the same tree, without pruning.

  /** The true values of the children of a node with moves `ms`. */
  function ChildValues(env: Env, b: Board, depth: nat, maximizing: bool, ai: int, players: int,
                       ms: seq<Coord>, jit: Oracle, path: seq<Coord>): Values
    requires ValidGeometry(env) && Shaped(env, b) && players > 0 && ai >= 0 && depth > 0 && AllIn(env, ms)
    decreases depth, 0
  {
    (j: nat) =>
      if j < |ms| then
        Value(env, Child(env, b, ms[j], Mover(maximizing, ai, players)), depth - 1, !maximizing,
              ai, players, jit, path + [ms[j]])
      else 0.0
  }

  /** The minimax value of `b`, every move examined. */
  function Value(env: Env, b: Board, depth: nat, maximizing: bool, ai: int, players: int,
                 jit: Oracle, path: seq<Coord>): real
    requires ValidGeometry(env) && Shaped(env, b) && players > 0 && ai >= 0
    decreases depth, 1
  {
    var e := Evaluation(env, b, ai, jit(path));
    if Cutoff(e, depth) then e
    else
      var ms := Moves(env, b, Mover(maximizing, ai, players));
      if ms == [] then e
      else
        var value := ChildValues(env, b, depth, maximizing, ai, players, ms, jit, path);
        if maximizing then MaxOver(value, |ms|, 0, NegInf).v
        else MinOver(value, |ms|, 0, PosInf).v
  }

  // ---------------------------------------------------------------------
  // Pruning is sound.

  /** The search of child `j` is fail-soft with respect to its true value. */
  lemma ChildSound(env: Env, b: Board, depth: nat, maximizing: bool, ai: int, players: int,
                   ms: seq<Coord>, jit: Oracle, path: seq<Coord>, j: nat, a: Ext, c: Ext)
    requires ValidGeometry(env) && Shaped(env, b) && players > 0 && ai >= 0 && depth > 0 && AllIn(env, ms)
    requires j < |ms| && Lt(a, c)
    ensures FailSoft(Fin(Children(env, b, depth, maximizing, ai, players, ms, jit, path)(j, a, c)),
                     Fin(ChildValues(env, b, depth, maximizing, ai, players, ms, jit, path)(j)), a, c)
    decreases depth, 0
  {
    var child := Child(env, b, ms[j], Mover(maximizing, ai, players));
    AlphaBetaSound(env, child, depth - 1, !maximizing, ai, players, a, c, jit, path + [ms[j]]);
    assert Children(env, b, depth, maximizing, ai, players, ms, jit, path)(j, a, c)
        == MoveSearch(env, b, depth, maximizing, ai, players, ms[j], a, c, jit, path);
  }

  /** The child searches of a node are fail-soft with respect to the
      children's true values. */
  lemma ChildrenSound(env: Env, b: Board, depth: nat, maximizing: bool, ai: int, players: int,
                      ms: seq<Coord>, jit: Oracle, path: seq<Coord>)
    requires ValidGeometry(env) && Shaped(env, b) && players > 0 && ai >= 0 && depth > 0 && AllIn(env, ms)
    ensures SoundChildren(Children(env, b, depth, maximizing, ai, players, ms, jit, path),
                          ChildValues(env, b, depth, maximizing, ai, players, ms, jit, path), |ms|)
    decreases depth, 1
  {
    var search := Children(env, b, depth, maximizing, ai, players, ms, jit, path);
    var value := ChildValues(env, b, depth, maximizing, ai, players, ms, jit, path);
    forall j: nat, a, c | j < |ms| && Lt(a, c)
      ensures FailSoft(Fin(search(j, a, c)), Fin(value(j)), a, c)
    {
      ChildSound(env, b, depth, maximizing, ai, players, ms, jit, path, j, a, c);
    }
  }

  /** Alpha-beta with early exit is fail-soft with respect to plain
      minimax, in every window with `alpha < beta`: the exact value inside
      the window, and a bound on the correct side outside it. */
  lemma AlphaBetaSound(env: Env, b: Board, depth: nat, maximizing: bool, ai: int, players: int,
                       alpha: Ext, beta: Ext, jit: Oracle, path: seq<Coord>)
    requires ValidGeometry(env) && Shaped(env, b) && players > 0 && ai >= 0
    requires Lt(alpha, beta)
    ensures FailSoft(Fin(AlphaBeta(env, b, depth, maximizing, ai, players, alpha, beta, jit, path)),
                     Fin(Value(env, b, depth, maximizing, ai, players, jit, path)), alpha, beta)
    decreases depth, 2
  {
    var e := Evaluation(env, b, ai, jit(path));
    if !Cutoff(e, depth) {
      var ms := Moves(env, b, Mover(maximizing, ai, players));
      if ms != [] {
        var search := Children(env, b, depth, maximizing, ai, players, ms, jit, path);
        var value := ChildValues(env, b, depth, maximizing, ai, players, ms, jit, path);
        ChildrenSound(env, b, depth, maximizing, ai, players, ms, jit, path);
        if maximizing {
          MaxSound(search, value, |ms|, alpha, beta);
        } else {
          MinSound(search, value, |ms|, alpha, beta);
        }
      }
    }
  }

  /** Searched from the root window `(-Infinity, Infinity)`, alpha-beta
      returns exactly the minimax value. */
  lemma RootExact(env: Env, b: Board, depth: nat, maximizing: bool, ai: int, players: int,
                  jit: Oracle, path: seq<Coord>)
    requires ValidGeometry(env) && Shaped(env, b) && players > 0 && ai >= 0
    ensures AlphaBeta(env, b, depth, maximizing, ai, players, NegInf, PosInf, jit, path)
            == Value(env, b, depth, maximizing, ai, players, jit, path)
  {
    AlphaBetaSound(env, b, depth, maximizing, ai, players, NegInf, PosInf, jit, path);
  }

  /** A leaf (a sentinel evaluation, depth zero, or no legal move for the
      player to move) is worth its evaluation, whatever the window. */
  lemma LeafValue(env: Env, b: Board, depth: nat, maximizing: bool, ai: int, players: int,
                  alpha: Ext, beta: Ext, jit: Oracle, path: seq<Coord>)
    requires ValidGeometry(env) && Shaped(env, b) && players > 0 && ai >= 0
    requires Cutoff(Evaluation(env, b, ai, jit(path)), depth) || Moves(env, b, Mover(maximizing, ai, players)) == []
    ensures AlphaBeta(env, b, depth, maximizing, ai, players, alpha, beta, jit, path) == Evaluation(env, b, ai, jit(path))
    ensures Value(env, b, depth, maximizing, ai, players, jit, path) == Evaluation(env, b, ai, jit(path))
  {
  }

  // ---------------------------------------------------------------------
  // The search as a procedure.

  /** `minimax`: evaluate, stop at a leaf, otherwise collect the moves of
      the player to move and loop over them, simulating each and searching
      the result, with `alpha`/`beta` updated and the loop cut off when
      `beta <= alpha`. */
  method Minimax(env: Env, board: Board, depth: nat, maximizing: bool, ai: int, players: int,
                 alpha: Ext, beta: Ext, jit: Oracle, path: seq<Coord>) returns (r: real)
    requires ValidGeometry(env) && Shaped(env, board) && players > 0 && ai >= 0
    ensures r == AlphaBeta(env, board, depth, maximizing, ai, players, alpha, beta, jit, path)
    decreases depth, 3
  {
    var currentEval := EvaluateBoard(env, board, ai, jit(path));
    if currentEval >= Win || currentEval <= Loss || depth == 0 {
      return currentEval;
    }
    var currentPlayer := Mover(maximizing, ai, players);
    var moves := LegalMoves(env, board, currentPlayer);
    if |moves| == 0 {
      return currentEval;
    }
    ghost var search := Children(env, board, depth, maximizing, ai, players, moves, jit, path);
    if maximizing {
      r := MaxMoves(env, board, depth, ai, players, moves, alpha, beta, jit, path, search);
    } else {
      r := MinMoves(env, board, depth, ai, players, moves, alpha, beta, jit, path, search);
    }
  }

  /** One iteration's child search: simulate move `i` for the player to
      move and search the result one ply shallower with the other role. */
  method SearchChild(env: Env, board: Board, depth: nat, maximizing: bool, ai: int, players: int,
                     moves: seq<Coord>, i: nat, alpha: Ext, beta: Ext, jit: Oracle, path: seq<Coord>,
                     ghost search: Searches)
    returns (v: real)
    requires ValidGeometry(env) && Shaped(env, board) && players > 0 && ai >= 0 && depth > 0
    requires AllIn(env, moves) && i < |moves|
    requires search == Children(env, board, depth, maximizing, ai, players, moves, jit, path)
    ensures v == search(i, alpha, beta)
    decreases depth, 0
  {
    var m := moves[i];
    var nextBoard := SimulateBoardState(env, board, m.x, m.y, Mover(maximizing, ai, players));
    v := Minimax(env, nextBoard, depth - 1, !maximizing, ai, players, alpha, beta, jit, path + [m]);
    assert search(i, alpha, beta) == MoveSearch(env, board, depth, maximizing, ai, players, m, alpha, beta, jit, path);
  }

  /** One pass of the maximizing loop's body: search child `i`, then raise
      `maxEval` and `alpha` to its result. */
  method MaxVisit(env: Env, board: Board, depth: nat, ai: int, players: int, moves: seq<Coord>,
                  i: nat, alpha: Ext, beta: Ext, maxEval: Ext, jit: Oracle, path: seq<Coord>,
                  ghost search: Searches)
    returns (maxEval': Ext, alpha': Ext)
    requires ValidGeometry(env) && Shaped(env, board) && players > 0 && ai >= 0 && depth > 0
    requires AllIn(env, moves) && i < |moves| && !maxEval.PosInf?
    requires search == Children(env, board, depth, true, ai, players, moves, jit, path)
    ensures maxEval'.Fin? && alpha' == Max(alpha, maxEval')
    ensures MaxLoop(search, |moves|, i, alpha, beta, maxEval)
            == if Le(beta, alpha') then maxEval' else MaxLoop(search, |moves|, i + 1, alpha', beta, maxEval')
    decreases depth, 1
  {
    var v := SearchChild(env, board, depth, true, ai, players, moves, i, alpha, beta, jit, path, search);
    MaxLoopNext(search, |moves|, i, alpha, beta, maxEval, v);
    maxEval' := Max(maxEval, Fin(v));
    alpha' := Max(alpha, maxEval');
  }

  /** One pass of the minimizing loop's body: search child `i`, then lower
      `minEval` and `beta` to its result. */
  method MinVisit(env: Env, board: Board, depth: nat, ai: int, players: int, moves: seq<Coord>,
                  i: nat, alpha: Ext, beta: Ext, minEval: Ext, jit: Oracle, path: seq<Coord>,
                  ghost search: Searches)
    returns (minEval': Ext, beta': Ext)
    requires ValidGeometry(env) && Shaped(env, board) && players > 0 && ai >= 0 && depth > 0
    requires AllIn(env, moves) && i < |moves| && !minEval.NegInf?
    requires search == Children(env, board, depth, false, ai, players, moves, jit, path)
    ensures minEval'.Fin? && beta' == Min(beta, minEval')
    ensures MinLoop(search, |moves|, i, alpha, beta, minEval)
            == if Le(beta', alpha) then minEval' else MinLoop(search, |moves|, i + 1, alpha, beta', minEval')
    decreases depth, 1
  {
    var v := SearchChild(env, board, depth, false, ai, players, moves, i, alpha, beta, jit, path, search);
    MinLoopNext(search, |moves|, i, alpha, beta, minEval, v);
    minEval' := Min(minEval, Fin(v));
    beta' := Min(beta, minEval');
  }

  /** The maximizing loop of `minimax` over `moves`. */
  method MaxMoves(env: Env, board: Board, depth: nat, ai: int, players: int, moves: seq<Coord>,
                  alpha0: Ext, beta: Ext, jit: Oracle, path: seq<Coord>, ghost search: Searches) returns (r: real)
    requires ValidGeometry(env) && Shaped(env, board) && players > 0 && ai >= 0 && depth > 0
    requires AllIn(env, moves) && moves != []
    requires search == Children(env, board, depth, true, ai, players, moves, jit, path)
    ensures Fin(r) == MaxLoop(search,
                              |moves|, 0, alpha0, beta, NegInf)
    decreases depth, 2
  {
    var maxEval := NegInf;
    var alpha := alpha0;
    var i := 0;
    while i < |moves|
      invariant 0 <= i <= |moves|
      invariant i == 0 ==> maxEval == NegInf
      invariant i > 0 ==> maxEval.Fin?
      invariant MaxLoop(search, |moves|, i, alpha, beta, maxEval) == MaxLoop(search, |moves|, 0, alpha0, beta, NegInf)
    {
      maxEval, alpha := MaxVisit(env, board, depth, ai, players, moves, i, alpha, beta, maxEval, jit, path, search);
      if Le(beta, alpha) {
        return maxEval.v;
      }
      i := i + 1;
    }
    return maxEval.v;
  }

  /** The minimizing loop of `minimax` over `moves`. */
  method MinMoves(env: Env, board: Board, depth: nat, ai: int, players: int, moves: seq<Coord>,
                  alpha: Ext, beta0: Ext, jit: Oracle, path: seq<Coord>, ghost search: Searches) returns (r: real)
    requires ValidGeometry(env) && Shaped(env, board) && players > 0 && ai >= 0 && depth > 0
    requires AllIn(env, moves) && moves != []
    requires search == Children(env, board, depth, false, ai, players, moves, jit, path)
    ensures Fin(r) == MinLoop(search,
                              |moves|, 0, alpha, beta0, PosInf)
    decreases depth, 2
  {
    var minEval := PosInf;
    var beta := beta0;
    var i := 0;
    while i < |moves|
      invariant 0 <= i <= |moves|
      invariant i == 0 ==> minEval == PosInf
      invariant i > 0 ==> minEval.Fin?
      invariant MinLoop(search, |moves|, i, alpha, beta, minEval) == MinLoop(search, |moves|, 0, alpha, beta0, PosInf)
    {
      minEval, beta := MinVisit(env, board, depth, ai, players, moves, i, alpha, beta, minEval, jit, path, search);
      if Le(beta, alpha) {
        return minEval.v;
      }
      i := i + 1;
    }
    return minEval.v;
  }
}
