/** Worked cases of the simulator on a concrete geometry: a chain reaction
    that settles after one wave, and a pair of cells that keep exploding
    into each other until the wave cap stops the cascade. */
module Scenarios {
  import opened Grid
  import opened Simulation

  /** Cell `(x, y)` exists on the board and is not an obstacle. */
  predicate OpenAt(x: int, y: int, rows: int, cols: int, b: Board) {
    0 <= y < rows && 0 <= x < cols && y < |b| && x < |b[y]| && !b[y][x].blocked
  }

  /** The orthogonally adjacent open cells: left, right, up, down. */
  function Adjacent(x: int, y: int, rows: int, cols: int, b: Board): (r: seq<Coord>)
    ensures forall n :: n in r ==> OpenAt(n.x, n.y, rows, cols, b)
  {
    (if OpenAt(x - 1, y, rows, cols, b) then [Coord(x - 1, y)] else [])
    + (if OpenAt(x + 1, y, rows, cols, b) then [Coord(x + 1, y)] else [])
    + (if OpenAt(x, y - 1, rows, cols, b) then [Coord(x, y - 1)] else [])
    + (if OpenAt(x, y + 1, rows, cols, b) then [Coord(x, y + 1)] else [])
  }

  /** Reporting the adjacent open cells meets what the engine assumes of
      a geometry's neighbours. */
  lemma AdjacentValid(env: Env)
    requires forall c :: InBounds(env, c) ==> Cap(env, c) >= 1
    requires forall b, c :: Neighbors(env, b, c) == Adjacent(c.x, c.y, env.rows, env.cols, b)
    ensures ValidGeometry(env)
  {
    forall b, c | Shaped(env, b) && InBounds(env, c)
      ensures NeighborsOk(env, b, Neighbors(env, b, c))
    {
      var ns := Neighbors(env, b, c);
      forall n | n in ns ensures InBounds(env, n) && !At(env, b, n).blocked {
        assert OpenAt(n.x, n.y, env.rows, env.cols, b);
      }
    }
  }

  /** A geometry where every cell holds `cap` orbs before it explodes and
      the neighbours are the adjacent open cells. */
  function Uniform(cap: int, rows: nat, cols: nat): (env: Env)
    requires cap >= 1
    ensures ValidGeometry(env) && env.rows == rows && env.cols == cols
    ensures forall c :: Cap(env, c) == cap
    ensures forall b, c :: Neighbors(env, b, c) == Adjacent(c.x, c.y, rows, cols, b)
  {
    var env := Env(Geometry((x: int, y: int, rs: int, cs: int) => cap, Adjacent), rows, cols);
    AdjacentValid(env);
    env
  }

  const Empty: Cell := Cell(Unowned, 0, false)

  // ---------------------------------------------------------------------
  // A chain reaction on a row of three cells of capacity 2.

  const Row3Placed: Board := [[Cell(0, 2, false), Empty, Empty]]
  const Row3After: Board := [[Empty, Cell(0, 1, false), Empty]]

  lemma Row3Seed()
    ensures Seed(Uniform(2, 1, 3), Row3Placed) == [Coord(0, 0)]
  {
    var env := Uniform(2, 1, 3);
    var cs := [Coord(0, 0), Coord(1, 0), Coord(2, 0)];
    assert AllCells(env) == cs;
    assert cs[..1] == [Coord(0, 0)] && cs[..2] == [Coord(0, 0), Coord(1, 0)];
    assert SeedIn(env, Row3Placed, cs[..1]) == [Coord(0, 0)];
    assert SeedIn(env, Row3Placed, cs[..2]) == [Coord(0, 0)];
    assert SeedIn(env, Row3Placed, cs) == [Coord(0, 0)];
  }

  lemma Row3Wave()
    ensures WaveFrom(Uniform(2, 1, 3), Sandbox(Row3Placed, [], {}), [Coord(0, 0)], 0)
            == Sandbox(Row3After, [], {Coord(0, 0), Coord(1, 0)})
  {
    var env := Uniform(2, 1, 3);
    var drained := [[Empty, Empty, Empty]];
    assert Drain(env, Row3Placed, Coord(0, 0)) == drained by {
      assert Row3Placed[0][0 := Empty] == drained[0];
    }
    assert Neighbors(env, drained, Coord(0, 0)) == [Coord(1, 0)];
    assert Bump(env, drained, Coord(1, 0), 0) == Row3After by {
      assert drained[0][1 := Cell(0, 1, false)] == Row3After[0];
    }
    assert SpreadFrom(env, Sandbox(drained, [], {Coord(0, 0)}), [Coord(1, 0)], 0)
        == Sandbox(Row3After, [], {Coord(0, 0), Coord(1, 0)});
  }

  /** On a 1x3 board where every cell holds 2, player 0 adds an orb to the
      left cell that already holds one of theirs: the left cell explodes
      and is emptied, the middle one receives the orb and belongs to player
      0, the right one is untouched, and the cascade ends after one wave. */
  lemma ChainExample()
    ensures var r := Simulate(Uniform(2, 1, 3), [[Cell(0, 1, false), Empty, Empty]], Coord(0, 0), 0);
            && r.board == [[Empty, Cell(0, 1, false), Empty]]
            && r.waves == 1 && r.pending == []
  {
    var env := Uniform(2, 1, 3);
    var b := [[Cell(0, 1, false), Empty, Empty]];
    assert Place(env, b, Coord(0, 0), 0) == Row3Placed by {
      assert b[0][0 := Cell(0, 2, false)] == Row3Placed[0];
    }
    Row3Seed();
    assert Dedup([Coord(0, 0)]) == [Coord(0, 0)];
    Row3Wave();
  }

  // ---------------------------------------------------------------------
  // Two cells of capacity 1 that keep exploding into each other.

  const PairLeft: Board := [[Cell(0, 1, false), Empty]]
  const PairRight: Board := [[Empty, Cell(0, 1, false)]]
  const PairDrained: Board := [[Empty, Empty]]

  lemma PairWaveLeft(t: set<Coord>)
    ensures WaveFrom(Uniform(1, 1, 2), Sandbox(PairLeft, [], t), Dedup([Coord(0, 0)]), 0)
            == Sandbox(PairRight, [Coord(1, 0)], t + {Coord(0, 0), Coord(1, 0)})
  {
    var env := Uniform(1, 1, 2);
    assert Dedup([Coord(0, 0)]) == [Coord(0, 0)];
    assert Drain(env, PairLeft, Coord(0, 0)) == PairDrained by {
      assert PairLeft[0][0 := Empty] == PairDrained[0];
    }
    assert Neighbors(env, PairDrained, Coord(0, 0)) == [Coord(1, 0)];
    assert Bump(env, PairDrained, Coord(1, 0), 0) == PairRight by {
      assert PairDrained[0][1 := Cell(0, 1, false)] == PairRight[0];
    }
    assert SpreadFrom(env, Sandbox(PairDrained, [], t + {Coord(0, 0)}), [Coord(1, 0)], 0)
        == Sandbox(PairRight, [Coord(1, 0)], t + {Coord(0, 0), Coord(1, 0)});
  }

  lemma PairWaveRight(t: set<Coord>)
    ensures WaveFrom(Uniform(1, 1, 2), Sandbox(PairRight, [], t), Dedup([Coord(1, 0)]), 0)
            == Sandbox(PairLeft, [Coord(0, 0)], t + {Coord(0, 0), Coord(1, 0)})
  {
    var env := Uniform(1, 1, 2);
    assert Dedup([Coord(1, 0)]) == [Coord(1, 0)];
    assert Drain(env, PairRight, Coord(1, 0)) == PairDrained by {
      assert PairRight[0][1 := Empty] == PairDrained[0];
    }
    assert Neighbors(env, PairDrained, Coord(1, 0)) == [Coord(0, 0)];
    assert Bump(env, PairDrained, Coord(0, 0), 0) == PairLeft by {
      assert PairDrained[0][0 := Cell(0, 1, false)] == PairLeft[0];
    }
    assert SpreadFrom(env, Sandbox(PairDrained, [], t + {Coord(1, 0)}), [Coord(0, 0)], 0)
        == Sandbox(PairLeft, [Coord(0, 0)], t + {Coord(0, 0), Coord(1, 0)});
  }

  /** A cascade with work queued and fuel left runs one wave, then goes on
      from where that wave left the sandbox. */
  lemma CascadeStep(env: Env, s: Sandbox, w: Sandbox, fuel: nat, who: int)
    requires ValidGeometry(env) && Shaped(env, s.board) && AllIn(env, s.queue)
    requires s.queue != [] && fuel > 0
    requires WaveFrom(env, Sandbox(s.board, [], s.touched), Dedup(s.queue), who) == w
    ensures Shaped(env, w.board) && AllIn(env, w.queue)
    ensures Cascade(env, s, fuel, who).waves == Cascade(env, w, fuel - 1, who).waves + 1
    ensures Cascade(env, s, fuel, who).pending == Cascade(env, w, fuel - 1, who).pending
  {
  }

  /** The pair with its single orb on the left (or right) cell, that cell
      queued, and `t` touched so far. */
  function Loaded(left: bool, t: set<Coord>): (s: Sandbox)
    ensures |s.queue| == 1 && s.touched == t
  {
    if left then Sandbox(PairLeft, [Coord(0, 0)], t) else Sandbox(PairRight, [Coord(1, 0)], t)
  }

  /** One wave from either loaded state leads to the other one. */
  lemma PairWave(left: bool, t: set<Coord>)
    ensures var s := Loaded(left, t);
            WaveFrom(Uniform(1, 1, 2), Sandbox(s.board, [], s.touched), Dedup(s.queue), 0)
            == Loaded(!left, t + {Coord(0, 0), Coord(1, 0)})
  {
    if left {
      PairWaveLeft(t);
    } else {
      PairWaveRight(t);
    }
  }

  /** Under any geometry where one wave from either loaded state leads to
      the other one, a cascade from a loaded state uses all of its fuel and
      stops with a cell still queued. */
  lemma {:induction false} Oscillates(env: Env, fuel: nat, left: bool, t: set<Coord>)
    requires ValidGeometry(env) && Shaped(env, PairLeft) && Shaped(env, PairRight)
    requires InBounds(env, Coord(0, 0)) && InBounds(env, Coord(1, 0))
    requires forall l, u :: WaveFrom(env, Sandbox(Loaded(l, u).board, [], u), Dedup(Loaded(l, u).queue), 0)
                            == Loaded(!l, u + {Coord(0, 0), Coord(1, 0)})
    ensures var r := Cascade(env, Loaded(left, t), fuel, 0);
            r.waves == fuel && r.pending != []
    decreases fuel
  {
    if fuel > 0 {
      var t' := t + {Coord(0, 0), Coord(1, 0)};
      CascadeStep(env, Loaded(left, t), Loaded(!left, t'), fuel, 0);
      Oscillates(env, fuel - 1, !left, t');
    }
  }

  /** From either loaded state the pair keeps exploding: every wave moves
      the single orb to the other cell and queues that cell again, so the
      cascade uses all of its fuel and stops with a cell still queued. */
  lemma PairOscillates(fuel: nat, left: bool, t: set<Coord>)
    ensures var r := Cascade(Uniform(1, 1, 2), Loaded(left, t), fuel, 0);
            r.waves == fuel && r.pending != []
  {
    var env := Uniform(1, 1, 2);
    forall l, u
      ensures WaveFrom(env, Sandbox(Loaded(l, u).board, [], u), Dedup(Loaded(l, u).queue), 0)
              == Loaded(!l, u + {Coord(0, 0), Coord(1, 0)})
    {
      PairWave(l, u);
    }
    Oscillates(env, fuel, left, t);
  }

  lemma PairPlace()
    ensures Place(Uniform(1, 1, 2), [[Empty, Empty]], Coord(0, 0), 0) == PairLeft
  {
    assert [Empty, Empty][0 := Cell(0, 1, false)] == PairLeft[0];
  }

  lemma PairSeed()
    ensures Seed(Uniform(1, 1, 2), PairLeft) == [Coord(0, 0)]
  {
    var env := Uniform(1, 1, 2);
    var cs := [Coord(0, 0), Coord(1, 0)];
    assert AllCells(env) == cs;
    assert cs[..1] == [Coord(0, 0)];
    assert SeedIn(env, PairLeft, cs[..1]) == [Coord(0, 0)];
    assert SeedIn(env, PairLeft, cs) == [Coord(0, 0)];
  }

  /** Player 0 playing the empty left cell of the pair starts a reaction
      that never settles: the simulator stops it after exactly `WaveCap`
      waves with a cell still queued. */
  lemma WaveCapReached()
    ensures var r := Simulate(Uniform(1, 1, 2), [[Empty, Empty]], Coord(0, 0), 0);
            r.waves == WaveCap && r.pending != []
  {
    PairPlace();
    PairSeed();
    PairOscillates(WaveCap, true, {});
  }
}
