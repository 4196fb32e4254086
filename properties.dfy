/** What one step guarantees, and where it departs from a textbook
    integrator: force balance, the per-vertex update on square grids, the
    pinned first column, the stale corner on wide grids, and the surface
    frame. */
module StepProperties {
  import opened Vectors
  import opened Grid
  import opened Passes
  import opened Springs
  import opened Simulation

  /** Springs only move force between vertices: the total force after the
      step is the total external force (gravity plus wind). */
  lemma StepConservesForce(cfg: Config, fr: Frame, wind: Vec3)
    requires StepReady(cfg, fr)
    ensures Total(StepForce(cfg, fr, wind)) ==
            Total(WithExternal(cfg, Zeros(cfg.rows * cfg.cols), fr.normals, fr.velocity, wind))
  {
    var m, n := cfg.rows, cfg.cols;
    var external := WithExternal(cfg, Zeros(m * n), fr.normals, fr.velocity, wind);
    var bent := Scatter(cfg.maths, cfg.springs, n, fr.currPos, fr.velocity, external, BendPasses(m, n));
    ScatterConserves(cfg.maths, cfg.springs, n, fr.currPos, fr.velocity, external, BendPasses(m, n));
    ScatterConserves(cfg.maths, cfg.springs, n, fr.currPos, fr.velocity, bent, ShortPasses(m, n));
  }

  /** One coordinate of the velocity update: the displacement over one step
      divided by dt is the old velocity plus half the acceleration times dt. */
  lemma CoordinateGain(c: real, v: real, f: real, dt: real, g: real)
    requires dt != 0.0
    ensures (1.0 / dt) * ((c + dt * v + g * dt * dt * f) - c) == v + g * dt * f
  {
    assert (c + dt * v + g * dt * dt * f) - c == dt * (v + g * dt * f);
    assert (1.0 / dt) * dt == 1.0;
  }

  lemma VelocityGain(cfg: Config, cur: Vec3, v: Vec3, f: Vec3)
    requires cfg.mass != 0.0 && cfg.dt != 0.0
    ensures Scale(1.0 / cfg.dt, Sub(NextPosition(cfg, cur, v, f), cur)) ==
            Add(v, Scale(0.5 * (1.0 / cfg.mass) * cfg.dt, f))
  {
    var g := 0.5 * (1.0 / cfg.mass);
    CoordinateGain(cur.x, v.x, f.x, cfg.dt, g);
    CoordinateGain(cur.y, v.y, f.y, cfg.dt, g);
    CoordinateGain(cur.z, v.z, f.z, cfg.dt, g);
  }

  /** The iteration that visits vertex (r, c), for c >= 1. */
  lemma IterationOf(m: nat, n: nat, r: nat, c: nat) returns (a: nat)
    requires n >= 2 && r < m && 1 <= c < n
    ensures a < |IntRows(m, n)| && IntRows(m, n)[a] == Cell(r, c)
  {
    IntRowsAt(m, n);
    a := r * (n - 1) + (c - 1);
    LemmaFundamentalDivMod(a, n - 1, r, c - 1);
    MulMono(r + 1, m, n - 1);
  }

  /** On a square grid, every vertex outside the first column moves by
      `vel*dt + force/(2*mass)*dt*dt`, and its velocity gains
      `force/(2*mass)*dt`, whatever force the step accumulated. */
  lemma SquareGridIntegrates(cfg: Config, fr: Frame, force: seq<Vec3>, r: nat, c: nat)
    requires Sized(cfg, fr) && |force| == cfg.rows * cfg.cols && cfg.rows == cfg.cols
    requires r < cfg.rows && 1 <= c < cfg.cols
    ensures Idx(cfg.cols, r, c) < cfg.rows * cfg.cols
    ensures var k, s := Idx(cfg.cols, r, c), Advance(cfg, fr, force);
      s.currPos[k] == NextPosition(cfg, fr.currPos[k], fr.velocity[k], force[k]) &&
      s.velocity[k] == Add(fr.velocity[k], Scale(0.5 * (1.0 / cfg.mass) * cfg.dt, force[k]))
  {
    var m, n := cfg.rows, cfg.cols;
    IdxBound(m, n, r, c);
    var k := Idx(n, r, c);
    var s := Advance(cfg, fr, force);
    var a := IterationOf(m, n, r, c);
    AdvanceIntegrates(cfg, fr, force);
    IntRowsDistinct(m, n);
    IntegrateAt(cfg, fr.currPos, force, Buffers(fr.prevPos, fr.velocity), IntRows(m, n), a);
    VelocityGain(cfg, fr.currPos[k], fr.velocity[k], force[k]);
  }

  /** On a square grid the first column is never integrated: its position
      buffer and velocity are left as they were, so a first-column vertex
      whose two position buffers agree stays where it is (the pinned edge). */
  lemma SquareGridPinsFirstColumn(cfg: Config, fr: Frame, force: seq<Vec3>, r: nat)
    requires Sized(cfg, fr) && |force| == cfg.rows * cfg.cols && cfg.rows == cfg.cols && r < cfg.rows
    ensures Idx(cfg.cols, r, 0) < cfg.rows * cfg.cols
    ensures var k, s := Idx(cfg.cols, r, 0), Advance(cfg, fr, force);
      s.currPos[k] == fr.prevPos[k] && s.velocity[k] == fr.velocity[k] &&
      (fr.prevPos[k] == fr.currPos[k] ==> s.prevPos[k] == fr.currPos[k] && s.currPos[k] == fr.currPos[k])
  {
    var m, n := cfg.rows, cfg.cols;
    IdxBound(m, n, r, 0);
    var k := Idx(n, r, 0);
    var s := Advance(cfg, fr, force);
    var cells := IntRows(m, n);
    AdvanceIntegrates(cfg, fr, force);
    IntRowsCells(m, n);
    forall i | 0 <= i < |cells| ensures IndexOf(n, cells[i]) != k {
      assert cells[i] in cells;
      IdxDecode(n, cells[i].row, cells[i].col);
      IdxDecode(n, r, 0);
    }
    IntegrateUntouched(cfg, fr.currPos, force, Buffers(fr.prevPos, fr.velocity), cells, k);
  }

  /** With no more rows than columns the first column is never integrated,
      so its velocity is left as it was. */
  lemma FirstColumnVelocityKept(cfg: Config, fr: Frame, force: seq<Vec3>, r: nat)
    requires Sized(cfg, fr) && |force| == cfg.rows * cfg.cols && r < cfg.rows
    ensures Idx(cfg.cols, r, 0) < cfg.rows * cfg.cols
    ensures var k := Idx(cfg.cols, r, 0);
      Advance(cfg, fr, force).velocity[k] == fr.velocity[k]
  {
    var m, n := cfg.rows, cfg.cols;
    IdxBound(m, n, r, 0);
    var k := Idx(n, r, 0);
    var cells := IntRows(m, n);
    AdvanceIntegrates(cfg, fr, force);
    IntRowsCells(m, n);
    forall i | 0 <= i < |cells| ensures IndexOf(n, cells[i]) != k {
      assert cells[i] in cells;
      IdxDecode(n, cells[i].row, cells[i].col);
      IdxDecode(n, r, 0);
    }
    IntegrateUntouched(cfg, fr.currPos, force, Buffers(fr.prevPos, fr.velocity), cells, k);
  }

  /** With fewer rows than columns, every iteration past row 0 writes its
      new position inside the buffer but into a slot below its own, which
      belongs to another vertex. */
  lemma WideWriteMisplaced(m: nat, n: nat, j: nat, i: nat)
    requires 2 <= m < n && 1 <= j < m && i < n
    ensures WriteIdx(m, Cell(j, i)) < Idx(n, j, i) < m * n
  {
    IdxBound(m, n, j, i);
    MulMono(1, j, n - m);
    assert j * n - j * m == j * (n - m);
  }

  /** On a wide grid iteration (1, n-m) of the integration loop writes its
      new position into the slot of vertex (1, 0), so the first column is
      not pinned there. */
  lemma WideGridOverwritesFirstColumn(m: nat, n: nat)
    requires 2 <= m < n
    ensures Cell(1, n - m) in IntRows(m, n)
    ensures WriteIdx(m, Cell(1, n - m)) == Idx(n, 1, 0)
  {
    var a := (n - 1) + (n - m - 1);
    IntRowsAt(m, n);
    assert a < m * (n - 1) by {
      MulMono(2, m, n - 1);
    }
    LemmaFundamentalDivMod(a, n - 1, 1, n - m - 1);
    assert IntRows(m, n)[a] == Cell(1, n - m);
  }

  /** With fewer rows than columns, no write index of the integration loop
      reaches the last vertex. */
  lemma WriteMissesLastVertex(m: nat, n: nat, c: Cell)
    requires 2 <= m < n && InGrid(m, n, c)
    ensures WriteIdx(m, c) < m * n - 1
  {
    assert c.row * m <= (m - 1) * m by {
      MulMono(c.row, m - 1, m);
    }
    assert m * n - (m - 1) * m - n == (m - 1) * (n - m);
    MulMono(1, m - 1, n - m);
  }

  /** The integration loop ends with iteration (m-1, n-1). */
  lemma LastIteration(m: nat, n: nat)
    requires m >= 1 && n >= 2
    ensures |IntRows(m, n)| > 0 && IntRows(m, n)[|IntRows(m, n)| - 1] == Cell(m - 1, n - 1)
  {
    assert IntRows(m, n) == (IntRows(m - 1, n) + IntRow(m - 1, n - 1)) + [Cell(m - 1, n - 1)];
  }

  /** If the last iteration reads vertex k and no iteration writes
      position k, the loop leaves position k alone and derives velocity k
      from it. */
  lemma {:induction false} IntegrateLastReadsStale(cfg: Config, cur: seq<Vec3>, force: seq<Vec3>, b: Buffers,
                                                   cells: seq<Cell>, k: nat)
    requires cfg.mass != 0.0 && cfg.dt != 0.0
    requires |b.prev| == |b.vel| == |cur| == |force| && k < |cur| && cells != []
    requires forall i :: 0 <= i < |cells| ==> Fits(cfg, |cur|, cells[i])
    requires forall i :: 0 <= i < |cells| ==> WriteIdx(cfg.rows, cells[i]) != k
    requires IndexOf(cfg.cols, cells[|cells| - 1]) == k
    ensures var r := Integrate(cfg, cur, force, b, cells);
      r.prev[k] == b.prev[k] && r.vel[k] == Scale(1.0 / cfg.dt, Sub(b.prev[k], cur[k]))
  {
    var p := cells[..|cells| - 1];
    assert forall i :: 0 <= i < |p| ==> p[i] == cells[i];
    IntegrateUntouched(cfg, cur, force, b, p, k);
  }

  /** The integration loop on a wide grid leaves the last position entry
      alone and derives the last velocity from it. */
  lemma IntegrateMissesCorner(cfg: Config, cur: seq<Vec3>, force: seq<Vec3>, b: Buffers)
    requires 2 <= cfg.rows < cfg.cols && cfg.mass != 0.0 && cfg.dt != 0.0
    requires |b.prev| == |b.vel| == |cur| == |force| == cfg.rows * cfg.cols
    requires forall i :: 0 <= i < |IntRows(cfg.rows, cfg.cols)| ==>
               Fits(cfg, |cur|, IntRows(cfg.rows, cfg.cols)[i])
    ensures var N, r := |cur|, Integrate(cfg, cur, force, b, IntRows(cfg.rows, cfg.cols));
      r.prev[N - 1] == b.prev[N - 1] && r.vel[N - 1] == Scale(1.0 / cfg.dt, Sub(b.prev[N - 1], cur[N - 1]))
  {
    var m, n := cfg.rows, cfg.cols;
    var cells := IntRows(m, n);
    LastIteration(m, n);
    WideWritesMissLast(m, n);
    LastCellIndex(m, n);
    IntegrateLastReadsStale(cfg, cur, force, b, cells, m * n - 1);
  }

  /** On a wide grid no iteration of the integration loop writes the last
      position entry. */
  lemma WideWritesMissLast(m: nat, n: nat)
    requires 2 <= m < n
    ensures forall i :: 0 <= i < |IntRows(m, n)| ==> WriteIdx(m, IntRows(m, n)[i]) != m * n - 1
  {
    var cells := IntRows(m, n);
    IntRowsCells(m, n);
    forall i | 0 <= i < |cells| ensures WriteIdx(m, cells[i]) != m * n - 1 {
      assert cells[i] in cells;
      WriteMissesLastVertex(m, n, cells[i]);
    }
  }

  /** The last vertex is the bottom-right corner. */
  lemma LastCellIndex(m: nat, n: nat)
    requires 1 <= m && 1 <= n
    ensures IndexOf(n, Cell(m - 1, n - 1)) == m * n - 1
  {
    assert (m - 1) * n + n == m * n;
  }

  /** The last vertex of `next` sits where `prior` held it two steps
      before, and its velocity is computed from that stale position. */
  predicate CornerStale(cfg: Config, prior: Frame, next: Frame)
    requires Shaped(cfg, prior) && Shaped(cfg, next) && cfg.rows * cfg.cols > 0 && cfg.dt != 0.0
  {
    var N := cfg.rows * cfg.cols;
    next.currPos[N - 1] == prior.prevPos[N - 1] &&
    next.velocity[N - 1] == Scale(1.0 / cfg.dt, Sub(prior.prevPos[N - 1], prior.currPos[N - 1]))
  }

  /** With fewer rows than columns the last vertex is never advanced: its
      new position is the one from two steps before, and its velocity is
      computed from that stale position. */
  lemma WideGridCornerStale(cfg: Config, fr: Frame, force: seq<Vec3>)
    requires Sized(cfg, fr) && |force| == cfg.rows * cfg.cols && cfg.rows < cfg.cols
    ensures cfg.rows * cfg.cols > 0
    ensures CornerStale(cfg, fr, Advance(cfg, fr, force))
  {
    MulMono(1, cfg.rows, cfg.cols);
    var s := Advance(cfg, fr, force);
    AdvanceIntegrates(cfg, fr, force);
    IntegrateMissesCorner(cfg, fr.currPos, force, Buffers(fr.prevPos, fr.velocity));
  }

  /** The new positions and velocities are the integration loop's result. */
  lemma AdvanceIntegrates(cfg: Config, fr: Frame, force: seq<Vec3>)
    requires Sized(cfg, fr) && |force| == cfg.rows * cfg.cols
    ensures forall i :: 0 <= i < |IntRows(cfg.rows, cfg.cols)| ==>
              Fits(cfg, cfg.rows * cfg.cols, IntRows(cfg.rows, cfg.cols)[i])
    ensures var s := Advance(cfg, fr, force);
      var b := Integrate(cfg, fr.currPos, force, Buffers(fr.prevPos, fr.velocity), IntRows(cfg.rows, cfg.cols));
      s.currPos == b.prev && s.velocity == b.vel
  {
    IntegrationFits(cfg);
  }

  /** Tangents, bitangents and normals come from the positions the step
      started from, which after the swap are the previous positions: the
      surface frame lags the geometry by one step. At interior vertices the
      normal is perpendicular to both frame vectors. */
  lemma FrameFromPreviousPositions(cfg: Config, fr: Frame, force: seq<Vec3>, k: nat)
    requires Sized(cfg, fr) && |force| == cfg.rows * cfg.cols && k < cfg.rows * cfg.cols && Interior(cfg.rows, cfg.cols, k)
    ensures var s := Advance(cfg, fr, force);
      k + cfg.cols < |s.prevPos| && k + 1 < |s.prevPos| &&
      s.tangents[k] == TangentAt(cfg.maths, cfg.cols, s.prevPos, k) &&
      s.bitangents[k] == BitangentAt(cfg.maths, s.prevPos, k) &&
      s.normals[k] == Cross(s.bitangents[k], s.tangents[k]) &&
      Dot(s.normals[k], s.tangents[k]) == 0.0 && Dot(s.normals[k], s.bitangents[k]) == 0.0
  {
    var s := Advance(cfg, fr, force);
    CopyBoundaryKeepsInterior(cfg.rows, cfg.cols, Normals(cfg, fr.currPos, fr.normals), k);
    CrossOrthogonal(s.bitangents[k], s.tangents[k]);
  }

  /** Vertices on the last row or column keep the tangent and bitangent they
      had: only interior vertices get a new frame. */
  lemma BoundaryFrameKept(cfg: Config, fr: Frame, force: seq<Vec3>, k: nat)
    requires Sized(cfg, fr) && |force| == cfg.rows * cfg.cols && k < cfg.rows * cfg.cols && !Interior(cfg.rows, cfg.cols, k)
    ensures Advance(cfg, fr, force).tangents[k] == fr.tangents[k]
    ensures Advance(cfg, fr, force).bitangents[k] == fr.bitangents[k]
  {
  }
}
