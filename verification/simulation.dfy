/** The chain-reaction simulator (`simulateBoardState`): one placement on a
    copy of the board, then explosions resolved in deduplicated waves, at
    most `WaveCap` of them. */
module Simulation {
  import opened Grid

  /** The safety valve on the number of waves. */
  const WaveCap: nat := 200

  /** The board after the placement: the target belongs to `who` and holds
      one more orb; every other cell is as it was. */
  function Place(env: Env, b: Board, c: Coord, who: int): (r: Board)
    requires Shaped(env, b) && InBounds(env, c)
    ensures Shaped(env, r)
    ensures At(env, r, c).owner == who
    ensures At(env, r, c).count == At(env, b, c).count + 1
    ensures At(env, r, c).blocked == At(env, b, c).blocked
    ensures forall d :: InBounds(env, d) && d != c ==> At(env, r, d) == At(env, b, d)
  {
    var cell := At(env, b, c);
    SetCell(env, b, c, cell.(owner := who, count := cell.count + 1))
  }

  /** A cell the initial scan puts in the queue: never an obstacle, and
      holding enough orbs to pay for its explosion. */
  predicate Unstable(env: Env, b: Board, c: Coord)
    requires Shaped(env, b) && InBounds(env, c)
    ensures At(env, b, c).blocked ==> !Unstable(env, b, c)
    ensures Unstable(env, b, c) ==> At(env, b, c).count >= Cap(env, c)
  {
    !At(env, b, c).blocked && At(env, b, c).count >= Cap(env, c)
  }

  /** The queue the scan over `cs` builds. */
  function SeedIn(env: Env, b: Board, cs: seq<Coord>): seq<Coord>
    requires Shaped(env, b) && AllIn(env, cs)
  {
    if cs == [] then []
    else
      var last := cs[|cs| - 1];
      SeedIn(env, b, cs[..|cs| - 1]) + (if Unstable(env, b, last) then [last] else [])
  }

  /** One step of the scan: cell `(x, y)` is appended when it is unstable. */
  lemma ScanStep(env: Env, b: Board, y: nat, x: nat)
    requires Shaped(env, b) && y < env.rows && x < env.cols
    ensures AllIn(env, Before(env.cols, y, x)) && AllIn(env, Before(env.cols, y, x + 1))
    ensures SeedIn(env, b, Before(env.cols, y, x + 1))
            == SeedIn(env, b, Before(env.cols, y, x)) + (if Unstable(env, b, Coord(x, y)) then [Coord(x, y)] else [])
  {
    BeforeInBounds(env, y, x);
    BeforeInBounds(env, y, x + 1);
    var cs := Before(env.cols, y, x);
    assert Before(env.cols, y, x + 1) == cs + [Coord(x, y)];
    assert (cs + [Coord(x, y)])[..|cs|] == cs;
  }

  lemma {:induction false} SeedInMembers(env: Env, b: Board, cs: seq<Coord>)
    requires Shaped(env, b) && AllIn(env, cs)
    ensures forall c :: c in SeedIn(env, b, cs) <==> c in cs && Unstable(env, b, c)
  {
    if cs != [] {
      SeedInMembers(env, b, cs[..|cs| - 1]);
      assert cs == cs[..|cs| - 1] + [cs[|cs| - 1]];
    }
  }

  /** The initial queue: a scan of the whole board. It holds exactly the
      unstable cells, and so never an obstacle. */
  function Seed(env: Env, b: Board): (r: seq<Coord>)
    requires Shaped(env, b)
    ensures forall c :: c in r <==> InBounds(env, c) && Unstable(env, b, c)
  {
    SeedInMembers(env, b, AllCells(env));
    SeedIn(env, b, AllCells(env))
  }

  /** The coordinates of a wave: the queue with repeats removed, each kept
      at its first occurrence (the order of a JavaScript `Set`). */
  function Dedup(q: seq<Coord>): (r: seq<Coord>)
    ensures Distinct(r)
    ensures forall c :: c in r <==> c in q
  {
    if q == [] then []
    else
      var d := Dedup(q[..|q| - 1]);
      if q[|q| - 1] in d then d else d + [q[|q| - 1]]
  }

  /** The state of the cascade: the board, the queue for the next wave and,
      for the statement of what a cascade can change, every cell that has
      exploded or received an orb from an explosion so far. */
  datatype Sandbox = Sandbox(board: Board, queue: seq<Coord>, touched: set<Coord>)

  /** Every coordinate in `cs` is a non-blocked cell of `b`. */
  ghost predicate Open(env: Env, b: Board, cs: set<Coord>)
    requires Shaped(env, b)
  {
    forall c :: c in cs ==> InBounds(env, c) && !At(env, b, c).blocked
  }

  /** From `b`/`t` to `b2`/`t2`: obstacles stay obstacles, the touched set
      only grows, and a cell outside it has not changed. */
  ghost predicate Frames(env: Env, b: Board, t: set<Coord>, b2: Board, t2: set<Coord>) {
    && Shaped(env, b) && Shaped(env, b2) && t <= t2
    && (forall d :: InBounds(env, d) ==> At(env, b2, d).blocked == At(env, b, d).blocked)
    && (forall d :: InBounds(env, d) && d !in t2 ==> At(env, b2, d) == At(env, b, d))
  }

  /** A neighbour receives an orb and changes hands; nothing else changes. */
  function Bump(env: Env, b: Board, n: Coord, who: int): (r: Board)
    requires Shaped(env, b) && InBounds(env, n)
    ensures Shaped(env, r)
    ensures At(env, r, n).count == At(env, b, n).count + 1
    ensures At(env, r, n).owner == who && At(env, r, n).blocked == At(env, b, n).blocked
    ensures forall d :: InBounds(env, d) && d != n ==> At(env, r, d) == At(env, b, d)
  {
    var cell := At(env, b, n);
    SetCell(env, b, n, cell.(owner := who, count := cell.count + 1))
  }

  /** The inner loop over the neighbours `ns` of an exploding cell. The
      touched set only grows, and the queue is only appended to. */
  function SpreadFrom(env: Env, s: Sandbox, ns: seq<Coord>, who: int): (r: Sandbox)
    requires Shaped(env, s.board) && AllIn(env, ns)
    ensures Shaped(env, r.board)
    ensures s.touched <= r.touched
    ensures |s.queue| <= |r.queue| && r.queue[..|s.queue|] == s.queue
    decreases |ns|
  {
    if ns == [] then s
    else
      var n := ns[0];
      var b := Bump(env, s.board, n, who);
      var q := if At(env, b, n).count >= Cap(env, n) then s.queue + [n] else s.queue;
      var r := SpreadFrom(env, Sandbox(b, q, s.touched + {n}), ns[1..], who);
      assert r.queue[..|s.queue|] == r.queue[..|q|][..|s.queue|];
      r
  }

  /** What the spread does to one cell: it gains one orb per occurrence in
      `ns` and, if it occurs at all, now belongs to `who`; obstacles stay. */
  lemma {:induction false} SpreadCell(env: Env, s: Sandbox, ns: seq<Coord>, who: int, d: Coord)
    requires Shaped(env, s.board) && AllIn(env, ns) && InBounds(env, d)
    ensures var r := SpreadFrom(env, s, ns, who);
      && At(env, r.board, d).count == At(env, s.board, d).count + multiset(ns)[d]
      && At(env, r.board, d).owner == (if d in ns then who else At(env, s.board, d).owner)
      && At(env, r.board, d).blocked == At(env, s.board, d).blocked
    decreases |ns|
  {
    if ns != [] {
      var n := ns[0];
      var b := Bump(env, s.board, n, who);
      var q := if At(env, b, n).count >= Cap(env, n) then s.queue + [n] else s.queue;
      assert ns == [n] + ns[1..];
      SpreadCell(env, Sandbox(b, q, s.touched + {n}), ns[1..], who, d);
    }
  }

  /** The spread adds exactly the neighbours to the touched set. */
  lemma {:induction false} SpreadTouches(env: Env, s: Sandbox, ns: seq<Coord>, who: int)
    requires Shaped(env, s.board) && AllIn(env, ns)
    ensures SpreadFrom(env, s, ns, who).touched == s.touched + set n | n in ns
    decreases |ns|
  {
    if ns != [] {
      var n := ns[0];
      var b := Bump(env, s.board, n, who);
      var q := if At(env, b, n).count >= Cap(env, n) then s.queue + [n] else s.queue;
      assert ns == [n] + ns[1..];
      SpreadTouches(env, Sandbox(b, q, s.touched + {n}), ns[1..], who);
    }
  }

  /** The spread only appends to the queue, and only neighbours. */
  lemma {:induction false} SpreadAppends(env: Env, s: Sandbox, ns: seq<Coord>, who: int)
    requires Shaped(env, s.board) && AllIn(env, ns)
    ensures var r := SpreadFrom(env, s, ns, who);
      && |s.queue| <= |r.queue| && r.queue[..|s.queue|] == s.queue
      && (forall n :: n in r.queue[|s.queue|..] ==> n in ns)
    decreases |ns|
  {
    if ns != [] {
      var n := ns[0];
      var b := Bump(env, s.board, n, who);
      var q := if At(env, b, n).count >= Cap(env, n) then s.queue + [n] else s.queue;
      var s' := Sandbox(b, q, s.touched + {n});
      assert ns == [n] + ns[1..];
      SpreadAppends(env, s', ns[1..], who);
      var r := SpreadFrom(env, s', ns[1..], who);
      assert r.queue[..|s.queue|] == r.queue[..|q|][..|s.queue|];
      DropPrefix(s.queue, q, r.queue);
    }
  }

  /** The spread appends exactly the neighbours that end at or above their
      capacity (a neighbour reported twice may be appended twice). */
  lemma {:induction false} SpreadEnqueues(env: Env, s: Sandbox, ns: seq<Coord>, who: int)
    requires Shaped(env, s.board) && AllIn(env, ns)
    ensures var r := SpreadFrom(env, s, ns, who);
      |s.queue| <= |r.queue| &&
      forall n :: n in r.queue[|s.queue|..] <==> n in ns && At(env, r.board, n).count >= Cap(env, n)
    decreases |ns|
  {
    SpreadAppends(env, s, ns, who);
    if ns != [] {
      var n := ns[0];
      var b := Bump(env, s.board, n, who);
      var q := if At(env, b, n).count >= Cap(env, n) then s.queue + [n] else s.queue;
      var s' := Sandbox(b, q, s.touched + {n});
      assert ns == [n] + ns[1..];
      SpreadAppends(env, s', ns[1..], who);
      SpreadEnqueues(env, s', ns[1..], who);
      var r := SpreadFrom(env, s', ns[1..], who);
      SpreadCell(env, s', ns[1..], who, n);
      assert At(env, r.board, n).count >= At(env, b, n).count;
      DropPrefix(s.queue, q, r.queue);
      forall m ensures m in r.queue[|s.queue|..] <==> m in ns && At(env, r.board, m).count >= Cap(env, m) {
        assert m in ns <==> m == n || m in ns[1..];
      }
    }
  }

  /** What `c` adds after `a`, when `b` extends `a` and `c` extends `b`. */
  lemma DropPrefix(a: seq<Coord>, b: seq<Coord>, c: seq<Coord>)
    requires |a| <= |b| <= |c| && b[..|a|] == a && c[..|b|] == b
    ensures c[|a|..] == b[|a|..] + c[|b|..]
  {
    assert c[|a|..] == c[|a|..|b|] + c[|b|..];
  }

  /** The exploding cell gives up `Cap` orbs and loses its owner when it is
      emptied; nothing else changes. */
  function Drain(env: Env, b: Board, c: Coord): (r: Board)
    requires Shaped(env, b) && InBounds(env, c) && At(env, b, c).count >= Cap(env, c)
    ensures Shaped(env, r)
    ensures At(env, r, c).count + Cap(env, c) == At(env, b, c).count
    ensures At(env, r, c).owner == (if At(env, r, c).count == 0 then Unowned else At(env, b, c).owner)
    ensures At(env, r, c).blocked == At(env, b, c).blocked
    ensures forall d :: InBounds(env, d) && d != c ==> At(env, r, d) == At(env, b, d)
  {
    var cell := At(env, b, c);
    var left := cell.count - Cap(env, c);
    SetCell(env, b, c, cell.(count := left, owner := if left == 0 then Unowned else cell.owner))
  }

  /** One queued coordinate of a wave: skipped below capacity, otherwise
      drained and its orbs spread over the neighbours the geometry reports
      for the drained board. */
  function Explode(env: Env, s: Sandbox, c: Coord, who: int): (r: Sandbox)
    requires ValidGeometry(env) && Shaped(env, s.board) && InBounds(env, c)
    ensures Shaped(env, r.board)
    ensures AllIn(env, s.queue) ==> AllIn(env, r.queue)
  {
    if At(env, s.board, c).count < Cap(env, c) then s
    else
      var b := Drain(env, s.board, c);
      var ns := Neighbors(env, b, c);
      var s' := Sandbox(b, s.queue, s.touched + {c});
      SpreadAppends(env, s', ns, who);
      SpreadFrom(env, s', ns, who)
  }

  /** The loop over the coordinates of one wave. */
  function WaveFrom(env: Env, s: Sandbox, wave: seq<Coord>, who: int): (r: Sandbox)
    requires ValidGeometry(env) && Shaped(env, s.board) && AllIn(env, wave)
    ensures Shaped(env, r.board)
    ensures AllIn(env, s.queue) ==> AllIn(env, r.queue)
    decreases |wave|
  {
    if wave == [] then s
    else WaveFrom(env, Explode(env, s, wave[0], who), wave[1..], who)
  }

  /** Where a cascade stopped: the board, what was still queued, every cell
      touched, and how many waves ran. */
  datatype Outcome = Outcome(board: Board, pending: seq<Coord>, touched: set<Coord>, waves: nat)

  /** The `while` loop over waves with `fuel` waves left: it stops when the
      queue is empty or the fuel is spent, and in no other case. */
  function Cascade(env: Env, s: Sandbox, fuel: nat, who: int): (r: Outcome)
    requires ValidGeometry(env) && Shaped(env, s.board) && AllIn(env, s.queue)
    ensures Shaped(env, r.board) && AllIn(env, r.pending)
    ensures r.waves <= fuel
    ensures r.waves < fuel ==> r.pending == []
    decreases fuel
  {
    if |s.queue| == 0 || fuel == 0 then Outcome(s.board, s.queue, s.touched, 0)
    else
      var w := WaveFrom(env, Sandbox(s.board, [], s.touched), Dedup(s.queue), who);
      var r := Cascade(env, w, fuel - 1, who);
      r.(waves := r.waves + 1)
  }

  /** `simulateBoardState(board, x, y, who)`: placement, the initial scan,
      then at most `WaveCap` waves. */
  function Simulate(env: Env, b: Board, c: Coord, who: int): (r: Outcome)
    requires ValidGeometry(env) && Shaped(env, b) && InBounds(env, c)
    ensures Shaped(env, r.board)
    ensures r.waves <= WaveCap
    ensures r.waves < WaveCap ==> r.pending == []
  {
    var p := Place(env, b, c, who);
    Cascade(env, Sandbox(p, Seed(env, p), {}), WaveCap, who)
  }

  /** The explosion rule, for any cell `d`: below capacity nothing happens;
      otherwise the exploding cell loses exactly `Cap` orbs (and its owner iff
      it is emptied), each reported neighbour gains one orb per report and
      now belongs to `who`, the touched set gains the cell and its
      neighbours, and the queue gains exactly the neighbours that end at or
      above capacity. */
  lemma ExplosionRule(env: Env, s: Sandbox, c: Coord, who: int, d: Coord)
    requires ValidGeometry(env) && Shaped(env, s.board) && InBounds(env, c) && InBounds(env, d)
    ensures var cell := At(env, s.board, c);
      var cap := Cap(env, c);
      var r := Explode(env, s, c, who);
      && (cell.count < cap ==> r == s)
      && (cell.count >= cap ==>
            var ns := Neighbors(env, Drain(env, s.board, c), c);
            && At(env, r.board, d).count
                 == At(env, s.board, d).count - (if d == c then cap else 0) + multiset(ns)[d]
            && At(env, r.board, d).owner
                 == (if d in ns then who
                     else if d == c && cell.count == cap then Unowned
                     else At(env, s.board, d).owner)
            && At(env, r.board, d).blocked == At(env, s.board, d).blocked
            && r.touched == s.touched + {c} + (set n | n in ns)
            && |s.queue| <= |r.queue| && r.queue[..|s.queue|] == s.queue
            && (forall n :: n in r.queue[|s.queue|..] ==> n in ns)
            && (forall n :: n in r.queue[|s.queue|..] <==>
                  n in ns && At(env, r.board, n).count >= Cap(env, n)))
  {
    var cell := At(env, s.board, c);
    if cell.count >= Cap(env, c) {
      var b := Drain(env, s.board, c);
      var ns := Neighbors(env, b, c);
      var s' := Sandbox(b, s.queue, s.touched + {c});
      SpreadCell(env, s', ns, who, d);
      SpreadTouches(env, s', ns, who);
      SpreadAppends(env, s', ns, who);
      SpreadEnqueues(env, s', ns, who);
    }
  }

  /** An explosion keeps obstacles, changes only what it touches, and
      touches and queues only open cells when it starts from an open cell. */
  lemma ExplodeFrames(env: Env, s: Sandbox, c: Coord, who: int)
    requires ValidGeometry(env) && Shaped(env, s.board) && InBounds(env, c)
    ensures var r := Explode(env, s, c, who);
      && Frames(env, s.board, s.touched, r.board, r.touched)
      && ((Open(env, s.board, s.touched) && Open(env, s.board, set k | k in s.queue) && !At(env, s.board, c).blocked)
            ==> Open(env, r.board, r.touched) && Open(env, r.board, set k | k in r.queue))
  {
    var r := Explode(env, s, c, who);
    forall d | InBounds(env, d)
      ensures At(env, r.board, d).blocked == At(env, s.board, d).blocked
      ensures d !in r.touched ==> At(env, r.board, d) == At(env, s.board, d)
    {
      ExplosionRule(env, s, c, who, d);
    }
    if At(env, s.board, c).count >= Cap(env, c) {
      ExplosionRule(env, s, c, who, c);
      var ns := Neighbors(env, Drain(env, s.board, c), c);
      assert NeighborsOk(env, Drain(env, s.board, c), ns);
    }
  }

  /** A wave keeps obstacles and changes only what it touches; started from
      open cells it touches and queues only open cells. */
  lemma {:induction false} WaveFrames(env: Env, s: Sandbox, wave: seq<Coord>, who: int)
    requires ValidGeometry(env) && Shaped(env, s.board) && AllIn(env, wave)
    ensures var r := WaveFrom(env, s, wave, who);
      && Frames(env, s.board, s.touched, r.board, r.touched)
      && ((Open(env, s.board, s.touched) && Open(env, s.board, set k | k in s.queue) && Open(env, s.board, set k | k in wave))
            ==> Open(env, r.board, r.touched) && Open(env, r.board, set k | k in r.queue))
    decreases |wave|
  {
    if wave != [] {
      var m := Explode(env, s, wave[0], who);
      ExplodeFrames(env, s, wave[0], who);
      WaveFrames(env, m, wave[1..], who);
    }
  }

  /** A cascade keeps obstacles and changes only what it touches; started
      from open cells it touches only open cells. */
  lemma {:induction false} CascadeFrames(env: Env, s: Sandbox, fuel: nat, who: int)
    requires ValidGeometry(env) && Shaped(env, s.board) && AllIn(env, s.queue)
    ensures var r := Cascade(env, s, fuel, who);
      && Frames(env, s.board, s.touched, r.board, r.touched)
      && (Open(env, s.board, s.touched) && Open(env, s.board, set k | k in s.queue) ==> Open(env, r.board, r.touched))
    decreases fuel
  {
    if |s.queue| != 0 && fuel != 0 {
      var wave := Dedup(s.queue);
      var w := WaveFrom(env, Sandbox(s.board, [], s.touched), wave, who);
      WaveFrames(env, Sandbox(s.board, [], s.touched), wave, who);
      CascadeFrames(env, w, fuel - 1, who);
    }
  }

  /** What `simulateBoardState` can change: obstacles stay obstacles; a cell
      other than the target that never exploded and never received an orb
      keeps its owner and count; no obstacle is ever touched, so an obstacle
      other than the target comes back unchanged. */
  lemma SimulateFrames(env: Env, b: Board, c: Coord, who: int)
    requires ValidGeometry(env) && Shaped(env, b) && InBounds(env, c)
    ensures var r := Simulate(env, b, c, who);
      && (forall d :: InBounds(env, d) ==> At(env, r.board, d).blocked == At(env, b, d).blocked)
      && (forall d :: InBounds(env, d) && d != c && d !in r.touched ==> At(env, r.board, d) == At(env, b, d))
      && (forall d :: d in r.touched ==> InBounds(env, d) && !At(env, b, d).blocked)
      && (forall d :: InBounds(env, d) && d != c && At(env, b, d).blocked ==> At(env, r.board, d) == At(env, b, d))
  {
    var p := Place(env, b, c, who);
    CascadeFrames(env, Sandbox(p, Seed(env, p), {}), WaveCap, who);
  }

  /** The array read back as a board. */
  function Snapshot(a: array2<Cell>): Board
    reads a
  {
    seq(a.Length0, y requires 0 <= y < a.Length0 reads a =>
      seq(a.Length1, x requires 0 <= x < a.Length1 reads a => a[y, x]))
  }

  /** The array holds exactly the board `g`. */
  ghost predicate Mirrors(env: Env, a: array2<Cell>, g: Board)
    reads a
  {
    && a.Length0 == env.rows && a.Length1 == env.cols && Shaped(env, g)
    && forall c :: InBounds(env, c) ==> a[c.y, c.x] == At(env, g, c)
  }

  lemma MirrorSnapshot(env: Env, a: array2<Cell>, g: Board)
    requires Mirrors(env, a, g)
    ensures Snapshot(a) == g
  {
    var s := Snapshot(a);
    forall y | 0 <= y < |g| ensures s[y] == g[y] {
      forall x | 0 <= x < env.cols ensures s[y][x] == g[y][x] {
        assert a[y, x] == At(env, g, Coord(x, y));
      }
    }
  }

  /** The test of the initial scan on one cell of the copy. */
  method IsUnstable(env: Env, clone: array2<Cell>, ghost g: Board, xx: int, yy: int) returns (unstable: bool)
    requires Mirrors(env, clone, g) && InBounds(env, Coord(xx, yy))
    ensures unstable == Unstable(env, g, Coord(xx, yy))
  {
    var cell := clone[yy, xx];
    assert cell == At(env, g, Coord(xx, yy));
    unstable := !cell.blocked && cell.count >= env.geom.capacity(xx, yy, env.rows, env.cols);
  }

  /** The initial scan over row `yy` of the copy, appending to `q0`. */
  method ScanRow(env: Env, clone: array2<Cell>, ghost g: Board, yy: nat, q0: seq<Coord>)
    returns (q: seq<Coord>)
    requires Mirrors(env, clone, g) && yy < env.rows
    requires AllIn(env, Before(env.cols, yy, 0)) && q0 == SeedIn(env, g, Before(env.cols, yy, 0))
    ensures AllIn(env, Before(env.cols, yy, env.cols))
    ensures q == SeedIn(env, g, Before(env.cols, yy, env.cols))
  {
    q := q0;
    var xx := 0;
    while xx < env.cols
      invariant 0 <= xx <= env.cols
      invariant AllIn(env, Before(env.cols, yy, xx))
      invariant q == SeedIn(env, g, Before(env.cols, yy, xx))
    {
      ScanStep(env, g, yy, xx);
      var unstable := IsUnstable(env, clone, g, xx, yy);
      if unstable {
        q := q + [Coord(xx, yy)];
      }
      xx := xx + 1;
    }
  }

  /** The initial scan of `simulateBoardState` over the copy. */
  method ScanUnstable(env: Env, clone: array2<Cell>, ghost g: Board) returns (q: seq<Coord>)
    requires Mirrors(env, clone, g)
    ensures q == Seed(env, g)
  {
    q := [];
    var yy := 0;
    BeforeInBounds(env, 0, 0);
    while yy < env.rows
      invariant 0 <= yy <= env.rows
      invariant AllIn(env, Before(env.cols, yy, 0))
      invariant q == SeedIn(env, g, Before(env.cols, yy, 0))
    {
      q := ScanRow(env, clone, g, yy, q);
      assert Before(env.cols, yy + 1, 0) == Before(env.cols, yy, env.cols);
      yy := yy + 1;
    }
  }

  /** `[...new Set(q)]`: the distinct queued coordinates in first-seen order. */
  method Deduplicate(q: seq<Coord>) returns (wave: seq<Coord>)
    ensures wave == Dedup(q)
  {
    wave := [];
    var i := 0;
    while i < |q|
      invariant 0 <= i <= |q|
      invariant wave == Dedup(q[..i])
    {
      if q[i] !in wave {
        wave := wave + [q[i]];
      }
      assert q[..i + 1][..i] == q[..i];
      i := i + 1;
    }
    assert q[..|q|] == q;
  }

  /** One neighbour receives an orb in place on the copy; its new count is returned. */
  method BumpAt(env: Env, clone: array2<Cell>, ghost g: Board, n: Coord, who: int) returns (count: nat)
    requires Mirrors(env, clone, g) && InBounds(env, n)
    modifies clone
    ensures Mirrors(env, clone, Bump(env, g, n, who))
    ensures count == At(env, Bump(env, g, n, who), n).count
  {
    assert clone[n.y, n.x] == At(env, g, n);
    var bumped := clone[n.y, n.x].(owner := who, count := clone[n.y, n.x].count + 1);
    clone[n.y, n.x] := bumped;
    count := bumped.count;
  }

  /** The loop over the neighbours of an exploding cell, in place on the copy. */
  method SpreadAt(env: Env, clone: array2<Cell>, q: seq<Coord>, ghost g: Board, ghost touched: set<Coord>,
                  ns: seq<Coord>, who: int)
    returns (q2: seq<Coord>, ghost g2: Board, ghost touched2: set<Coord>)
    requires Mirrors(env, clone, g) && AllIn(env, ns)
    modifies clone
    ensures Mirrors(env, clone, g2)
    ensures Sandbox(g2, q2, touched2) == SpreadFrom(env, Sandbox(g, q, touched), ns, who)
  {
    q2, g2, touched2 := q, g, touched;
    var j := 0;
    while j < |ns|
      invariant 0 <= j <= |ns|
      invariant Mirrors(env, clone, g2)
      invariant SpreadFrom(env, Sandbox(g2, q2, touched2), ns[j..], who)
                == SpreadFrom(env, Sandbox(g, q, touched), ns, who)
    {
      var n := ns[j];
      assert n in ns;
      var count := BumpAt(env, clone, g2, n, who);
      g2 := Bump(env, g2, n, who);
      touched2 := touched2 + {n};
      if count >= env.geom.capacity(n.x, n.y, env.rows, env.cols) {
        q2 := q2 + [n];
      }
      assert ns[j..][1..] == ns[j + 1..];
      j := j + 1;
    }
  }

  /** One queued coordinate of a wave, processed in place on the copy. */
  method ExplodeAt(env: Env, clone: array2<Cell>, q: seq<Coord>, ghost g: Board, ghost touched: set<Coord>,
                   c: Coord, who: int)
    returns (q2: seq<Coord>, ghost g2: Board, ghost touched2: set<Coord>)
    requires ValidGeometry(env) && Mirrors(env, clone, g) && InBounds(env, c)
    modifies clone
    ensures Mirrors(env, clone, g2)
    ensures Sandbox(g2, q2, touched2) == Explode(env, Sandbox(g, q, touched), c, who)
  {
    var cap := env.geom.capacity(c.x, c.y, env.rows, env.cols);
    var cell := clone[c.y, c.x];
    assert cell == At(env, g, c);
    if cell.count < cap {
      q2, g2, touched2 := q, g, touched;
      return;
    }
    var left := cell.count - cap;
    var drained := cell.(count := left, owner := if left == 0 then Unowned else cell.owner);
    clone[c.y, c.x] := drained;
    ghost var b := SetCell(env, g, c, drained);
    assert b == Drain(env, g, c);
    MirrorSnapshot(env, clone, b);
    var ns := env.geom.neighbors(c.x, c.y, env.rows, env.cols, Snapshot(clone));
    q2, g2, touched2 := SpreadAt(env, clone, q, b, touched + {c}, ns, who);
  }

  /** One wave: the queue is emptied and every coordinate of the wave is
      processed in order, refilling it. */
  method RunWave(env: Env, clone: array2<Cell>, wave: seq<Coord>, ghost g: Board, ghost touched: set<Coord>,
                 who: int)
    returns (q: seq<Coord>, ghost g2: Board, ghost touched2: set<Coord>)
    requires ValidGeometry(env) && Mirrors(env, clone, g) && AllIn(env, wave)
    modifies clone
    ensures Mirrors(env, clone, g2)
    ensures Sandbox(g2, q, touched2) == WaveFrom(env, Sandbox(g, [], touched), wave, who)
  {
    q, g2, touched2 := [], g, touched;
    var k := 0;
    while k < |wave|
      invariant 0 <= k <= |wave|
      invariant Mirrors(env, clone, g2)
      invariant WaveFrom(env, Sandbox(g2, q, touched2), wave[k..], who)
                == WaveFrom(env, Sandbox(g, [], touched), wave, who)
    {
      assert wave[k..][1..] == wave[k + 1..];
      q, g2, touched2 := ExplodeAt(env, clone, q, g2, touched2, wave[k], who);
      k := k + 1;
    }
  }

  /** The deep copy of the board in a fresh 2-D array, with the orb of
      `who` placed on `(x, y)`. */
  method CloneAndPlace(env: Env, initialBoard: Board, x: int, y: int, who: int)
    returns (clone: array2<Cell>)
    requires Shaped(env, initialBoard) && InBounds(env, Coord(x, y))
    ensures fresh(clone)
    ensures Mirrors(env, clone, Place(env, initialBoard, Coord(x, y), who))
  {
    clone := new Cell[env.rows, env.cols]((i: nat, j: nat) requires i < env.rows && j < env.cols =>
                                            initialBoard[i][j]);
    var target := clone[y, x];
    clone[y, x] := target.(owner := who, count := target.count + 1);
  }

  /** `simulateBoardState`: a deep copy of the board in a fresh 2-D array,
      the placement, the scan that seeds the queue, and the wave loop, all
      updating the copy in place. The input board is a value and is never
      changed; the result is exactly `Simulate`. */
  method SimulateBoardState(env: Env, initialBoard: Board, x: int, y: int, who: int)
    returns (next: Board)
    requires ValidGeometry(env) && Shaped(env, initialBoard) && InBounds(env, Coord(x, y))
    ensures next == Simulate(env, initialBoard, Coord(x, y), who).board
  {
    var clone := CloneAndPlace(env, initialBoard, x, y, who);
    ghost var g := Place(env, initialBoard, Coord(x, y), who);
    var q := ScanUnstable(env, clone, g);
    ghost var touched: set<Coord> := {};
    ghost var total := Simulate(env, initialBoard, Coord(x, y), who);
    var loops := 0;
    while |q| > 0 && loops < WaveCap
      invariant 0 <= loops <= WaveCap
      invariant Mirrors(env, clone, g) && AllIn(env, q)
      invariant Cascade(env, Sandbox(g, q, touched), WaveCap - loops, who).board == total.board
      decreases WaveCap - loops
    {
      loops := loops + 1;
      var wave := Deduplicate(q);
      q, g, touched := RunWave(env, clone, wave, g, touched, who);
    }
    MirrorSnapshot(env, clone, g);
    next := Snapshot(clone);
  }
}
