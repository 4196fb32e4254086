/** The Fabric class: the cloth's constants, its seven per-vertex buffers,
    the constructor that lays out the grid, the accessors and the
    fixed-time-step update. */
module Cloth {
  import opened Vectors
  import opened Grid
  import opened Springs
  import opened Simulation
  import opened Phases

  // ----- the initial grid -----

  /** Where the constructor puts vertex (row, col) of an m x n grid with
      spacing dx: centred on the origin in x and z, rows running towards -z,
      and a small ripple in y. */
  function RestPosition(maths: Maths, m: nat, n: nat, dx: real, row: nat, col: nat): Vec3 {
    var halfWidth := (n as real - 1.0) * dx * 0.5;
    var halfDepth := (m as real - 1.0) * dx * 0.5;
    var z := halfDepth - row as real * dx;
    var x := -halfWidth + col as real * dx;
    Vec3(x, Ripple(maths, x, z), z)
  }

  /** The initial height of the vertex at (x, z). */
  function Ripple(maths: Maths, x: real, z: real): real {
    0.1 * maths.sin(x * z)
  }

  /** The rest positions of every vertex, in index order. */
  function Layout(maths: Maths, m: nat, n: nat, dx: real): (r: seq<Vec3>)
    ensures |r| == m * n
  {
    if n == 0 then []
    else seq(m * n, k requires 0 <= k < m * n => RestPosition(maths, m, n, dx, k / n, k % n))
  }

  /** Vertex (row, col) of the layout is its rest position. */
  lemma LayoutAt(maths: Maths, m: nat, n: nat, dx: real, row: nat, col: nat)
    requires row < m && col < n
    ensures Idx(n, row, col) < m * n
    ensures Layout(maths, m, n, dx)[Idx(n, row, col)] == RestPosition(maths, m, n, dx, row, col)
  {
    IdxBound(m, n, row, col);
    IdxDecode(n, row, col);
  }

  /** Neighbouring vertices of the layout are dx apart: one column to the
      right is +dx in x, one row down is -dx in z. */
  lemma LayoutSpacing(maths: Maths, m: nat, n: nat, dx: real, row: nat, col: nat)
    ensures RestPosition(maths, m, n, dx, row, col + 1).x == RestPosition(maths, m, n, dx, row, col).x + dx
    ensures RestPosition(maths, m, n, dx, row, col + 1).z == RestPosition(maths, m, n, dx, row, col).z
    ensures RestPosition(maths, m, n, dx, row + 1, col).z == RestPosition(maths, m, n, dx, row, col).z - dx
    ensures RestPosition(maths, m, n, dx, row + 1, col).x == RestPosition(maths, m, n, dx, row, col).x
  {
  }

  /** The layout is centred: mirrored vertices have opposite x and z. */
  lemma LayoutCentred(maths: Maths, m: nat, n: nat, dx: real, row: nat, col: nat)
    requires row < m && col < n
    ensures RestPosition(maths, m, n, dx, row, n - 1 - col).x == -RestPosition(maths, m, n, dx, row, col).x
    ensures RestPosition(maths, m, n, dx, m - 1 - row, col).z == -RestPosition(maths, m, n, dx, row, col).z
  {
  }

  /** Iteration (i, j) of the constructor's grid loop. */
  method PlaceVertex(maths: Maths, m: nat, n: nat, dx: real, pos: seq<Vec3>, nrm: seq<Vec3>, i: nat, j: nat)
    returns (pos': seq<Vec3>, nrm': seq<Vec3>)
    requires i < m && j < n
    requires DoneBelow(Zeros(m * n), Layout(maths, m, n, dx), pos, i * n + j)
    requires DoneBelow(Zeros(m * n), Ups(m * n), nrm, i * n + j)
    ensures DoneBelow(Zeros(m * n), Layout(maths, m, n, dx), pos', i * n + j + 1)
    ensures DoneBelow(Zeros(m * n), Ups(m * n), nrm', i * n + j + 1)
  {
    LayoutAt(maths, m, n, dx, i, j);
    var halfWidth := (n as real - 1.0) * dx * 0.5;
    var halfDepth := (m as real - 1.0) * dx * 0.5;
    var z := halfDepth - i as real * dx;
    var x := -halfWidth + j as real * dx;
    pos' := pos[i * n + j := Vec3(x, Ripple(maths, x, z), z)];
    nrm' := nrm[i * n + j := Up];
    assert pos'[i * n + j] == RestPosition(maths, m, n, dx, i, j);
    DoneWrite(Zeros(m * n), Layout(maths, m, n, dx), pos, i * n + j, RestPosition(maths, m, n, dx, i, j));
    DoneWrite(Zeros(m * n), Ups(m * n), nrm, i * n + j, Up);
  }

  /** Row i of the constructor's grid loop. */
  method PlaceRow(maths: Maths, m: nat, n: nat, dx: real, pos: seq<Vec3>, nrm: seq<Vec3>, i: nat)
    returns (pos': seq<Vec3>, nrm': seq<Vec3>)
    requires i < m
    requires DoneBelow(Zeros(m * n), Layout(maths, m, n, dx), pos, i * n)
    requires DoneBelow(Zeros(m * n), Ups(m * n), nrm, i * n)
    ensures DoneBelow(Zeros(m * n), Layout(maths, m, n, dx), pos', (i + 1) * n)
    ensures DoneBelow(Zeros(m * n), Ups(m * n), nrm', (i + 1) * n)
  {
    pos', nrm' := pos, nrm;
    for j := 0 to n
      invariant DoneBelow(Zeros(m * n), Layout(maths, m, n, dx), pos', i * n + j)
      invariant DoneBelow(Zeros(m * n), Ups(m * n), nrm', i * n + j)
    {
      pos', nrm' := PlaceVertex(maths, m, n, dx, pos', nrm', i, j);
    }
    RowSpan(m, n, i);
  }

  /** The constructor's grid loop over zero-filled buffers: every position
      is its rest position and every normal points up. */
  method PlaceGrid(maths: Maths, m: nat, n: nat, dx: real) returns (pos: seq<Vec3>, nrm: seq<Vec3>)
    ensures pos == Layout(maths, m, n, dx)
    ensures nrm == Ups(m * n)
  {
    pos, nrm := Zeros(m * n), Zeros(m * n);
    for i := 0 to m
      invariant DoneBelow(Zeros(m * n), Layout(maths, m, n, dx), pos, i * n)
      invariant DoneBelow(Zeros(m * n), Ups(m * n), nrm, i * n)
    {
      pos, nrm := PlaceRow(maths, m, n, dx, pos, nrm, i);
    }
    DoneTail(Zeros(m * n), Layout(maths, m, n, dx), pos, m * n);
    DoneTail(Zeros(m * n), Ups(m * n), nrm, m * n);
  }

  function Ups(N: nat): (r: seq<Vec3>)
    ensures |r| == N && forall k :: 0 <= k < N ==> r[k] == Up
  {
    seq(N, _ => Up)
  }

  // ----- the step, on the buffers' values -----

  /** The force phases in source order: reset, gravity and wind, bend
      springs, structural and shear springs. */
  method AccumulateForce(cfg: Config, fr: Frame, windX: real, windY: real, windZ: real) returns (f: seq<Vec3>)
    requires StepReady(cfg, fr)
    ensures f == StepForce(cfg, fr, Vec3(windX, windY, windZ))
  {
    var reset := ResetForces(cfg.rows, cfg.cols, fr.force);
    var external := AddExternalForces(cfg, reset, fr.normals, fr.velocity, windX, windY, windZ);
    var bent := BendPhase(cfg, fr.currPos, fr.velocity, external);
    f := ShortPhase(cfg, fr.currPos, fr.velocity, bent);
    ForcePhasesCompose(cfg, fr, Vec3(windX, windY, windZ), reset, external, bent);
  }

  /** The phases after the force accumulation: integration, the frame loop
      and the boundary copy. */
  method AdvancePhases(cfg: Config, fr: Frame, force: seq<Vec3>) returns (b: Buffers, basis: Basis, normals: seq<Vec3>)
    requires Sized(cfg, fr) && |force| == cfg.rows * cfg.cols
    ensures Advance(cfg, fr, force) == Frame(fr.currPos, b.prev, b.vel, normals, basis.tangents, basis.bitangents, force)
  {
    b := IntegratePass(cfg, fr.currPos, force, Buffers(fr.prevPos, fr.velocity));
    basis := RecomputeFrames(cfg, fr.currPos, Basis(fr.tangents, fr.bitangents, fr.normals));
    normals := CopyBoundaryNormals(cfg.rows, cfg.cols, basis.normals);
    AdvanceComposes(cfg, fr, force, b, basis, normals);
  }

  /** A step is the Advance of the step's accumulated force. */
  lemma StepIsAdvance(cfg: Config, fr: Frame, wind: Vec3, force: seq<Vec3>)
    requires StepReady(cfg, fr) && force == StepForce(cfg, fr, wind)
    ensures Step(cfg, fr, wind) == Advance(cfg, fr, force)
  {
  }

  // ----- the class -----

  class Fabric {
    /** Grid shape, time step, mass, gravity, wind influence, spring
        coefficients (with dx) and numeric primitives. */
    const cfg: Config
    const vertexCount: nat
    const triangleCount: nat

    /** The time accumulated since the last step. */
    var t: real

    var prevPos: seq<Vec3>
    var currPos: seq<Vec3>
    var velocity: seq<Vec3>
    var normals: seq<Vec3>
    var tangents: seq<Vec3>
    var bitangents: seq<Vec3>
    var force: seq<Vec3>

    /** The seven buffers as one value. */
    function Snapshot(): Frame
      reads this`prevPos, this`currPos, this`velocity, this`normals, this`tangents, this`bitangents, this`force
    {
      Frame(prevPos, currPos, velocity, normals, tangents, bitangents, force)
    }

    /** Every buffer has one entry per vertex, and the counts are those the
        constructor computed. */
    ghost predicate Valid()
      reads this`prevPos, this`currPos, this`velocity, this`normals, this`tangents, this`bitangents, this`force
    {
      Shaped(cfg, Snapshot()) &&
      cfg.rows < SIZE && cfg.cols < SIZE && cfg.rows * cfg.cols < SIZE &&
      vertexCount == cfg.rows * cfg.cols && triangleCount == TriangleCountOf(cfg.rows, cfg.cols)
    }

    /** Lays out an m x n grid with spacing ddx: positions at rest, zero
        velocity, upward normals, zero tangents, bitangents and force. */
    constructor (m: nat, n: nat, ddx: real, ddt: real, spring1: real, spring2: real, damp1: real, damp2: real,
                 M: real, gravity: real, windInfl: real, maths: Maths)
      requires m < SIZE && n < SIZE && m * n < SIZE
      ensures Valid() && vertexCount == m * n
      ensures triangleCount == ((m - 1) * (n - 1) * 2) % SIZE
      ensures 1 <= m && 1 <= n && (m - 1) * (n - 1) * 2 < SIZE ==> triangleCount == (m - 1) * (n - 1) * 2
      ensures cfg == Config(m, n, ddt, M, gravity, windInfl, Coefficients(ddx, spring1, damp1, spring2, damp2), maths)
      ensures t == 0.0
      ensures currPos == Layout(maths, m, n, ddx) && prevPos == currPos
      ensures velocity == Zeros(m * n) && normals == Ups(m * n)
      ensures tangents == Zeros(m * n) && bitangents == Zeros(m * n) && force == Zeros(m * n)
    {
      cfg := Config(m, n, ddt, M, gravity, windInfl, Coefficients(ddx, spring1, damp1, spring2, damp2), maths);
      vertexCount := SizeMul(m, n);
      triangleCount := TriangleCountOf(m, n);
      TriangleCountWraps(m, n);
      if 1 <= m && 1 <= n && (m - 1) * (n - 1) * 2 < SIZE {
        TriangleCountExact(m, n);
      }
      var pos, nrm := PlaceGrid(maths, m, n, ddx);
      prevPos, currPos := pos, pos;
      velocity, force := Zeros(m * n), Zeros(m * n);
      normals, tangents, bitangents := nrm, Zeros(m * n), Zeros(m * n);
      t := 0.0;
    }

    /** The number of rows; times the number of columns it is the length
        of every buffer. */
    function RowCount(): (r: nat)
      reads this
      ensures r == cfg.rows
      ensures Valid() ==> r * cfg.cols == |currPos| == |prevPos| == |velocity| == |force|
    {
      cfg.rows
    }

    /** The number of columns; the number of rows times it is the length
        of every buffer. */
    function ColumnCount(): (r: nat)
      reads this
      ensures r == cfg.cols
      ensures Valid() ==> cfg.rows * r == |currPos| == |normals| == |tangents| == |bitangents|
    {
      cfg.cols
    }

    /** The vertex count is the length of every buffer. */
    function VertexCount(): (r: nat)
      requires Valid()
      reads this
      ensures r == |currPos| == |normals| == |tangents| == |bitangents|
    {
      vertexCount
    }

    /** Two triangles per grid quad, when the grid is not empty and the
        count fits; in general that count wrapped to size_t. */
    function TriangleCount(): (r: nat)
      requires Valid()
      reads this
      ensures r == ((cfg.rows - 1) * (cfg.cols - 1) * 2) % SIZE
      ensures 1 <= cfg.rows && 1 <= cfg.cols && (cfg.rows - 1) * (cfg.cols - 1) * 2 < SIZE ==>
                r == (cfg.rows - 1) * (cfg.cols - 1) * 2
    {
      TriangleCountWraps(cfg.rows, cfg.cols);
      if 1 <= cfg.rows && 1 <= cfg.cols && (cfg.rows - 1) * (cfg.cols - 1) * 2 < SIZE then
        TriangleCountExact(cfg.rows, cfg.cols);
        triangleCount
      else
        triangleCount
    }

    /** The extent of the rest layout in x from the first to the last
        column, plus one spacing. */
    function Width(): (r: real)
      reads this
      ensures 1 <= cfg.cols ==>
                r == RestPosition(cfg.maths, cfg.rows, cfg.cols, cfg.springs.dx, 0, cfg.cols - 1).x
                     - RestPosition(cfg.maths, cfg.rows, cfg.cols, cfg.springs.dx, 0, 0).x + cfg.springs.dx
    {
      cfg.cols as real * cfg.springs.dx
    }

    /** The extent of the rest layout in z from the first to the last row,
        plus one spacing. */
    function Depth(): (r: real)
      reads this
      ensures 1 <= cfg.rows ==>
                r == RestPosition(cfg.maths, cfg.rows, cfg.cols, cfg.springs.dx, 0, 0).z
                     - RestPosition(cfg.maths, cfg.rows, cfg.cols, cfg.springs.dx, cfg.rows - 1, 0).z + cfg.springs.dx
    {
      cfg.rows as real * cfg.springs.dx
    }

    /** The current position of vertex i. */
    function Position(i: nat): (p: Vec3)
      requires Valid() && i < vertexCount
      reads this
      ensures p == Snapshot().currPos[i]
    {
      currPos[i]
    }

    function Normal(i: nat): (v: Vec3)
      requires Valid() && i < vertexCount
      reads this
      ensures v == Snapshot().normals[i]
    {
      normals[i]
    }

    function Tangent(i: nat): (v: Vec3)
      requires Valid() && i < vertexCount
      reads this
      ensures v == Snapshot().tangents[i]
    {
      tangents[i]
    }

    function Bitangent(i: nat): (v: Vec3)
      requires Valid() && i < vertexCount
      reads this
      ensures v == Snapshot().bitangents[i]
    {
      bitangents[i]
    }

    /** One physics step: the force phases, integration into the second
        position buffer, the frame loop, the boundary copy and the swap. */
    method StepBuffers(windX: real, windY: real, windZ: real)
      requires Valid() && StepReady(cfg, Snapshot())
      modifies this`prevPos, this`currPos, this`velocity, this`normals, this`tangents, this`bitangents, this`force
      ensures Valid()
      ensures Snapshot() == Step(cfg, old(Snapshot()), Vec3(windX, windY, windZ))
    {
      var fr := Snapshot();
      force := AccumulateForce(cfg, fr, windX, windY, windZ);
      var b, basis, nrm := AdvancePhases(cfg, fr, force);
      prevPos, velocity := b.prev, b.vel;
      tangents, bitangents, normals := basis.tangents, basis.bitangents, nrm;
      prevPos, currPos := currPos, prevPos;
      StepIsAdvance(cfg, fr, Vec3(windX, windY, windZ), force);
    }

    /** Accumulates ddt; once a full time step has built up, performs one
        physics step and restarts the accumulator. */
    method Update(ddt: real, windX: real, windY: real, windZ: real)
      requires Valid()
      requires t + ddt >= cfg.dt ==> StepReady(cfg, Snapshot())
      modifies this
      ensures Valid()
      ensures old(t) + ddt >= cfg.dt ==>
                t == 0.0 && Snapshot() == Step(cfg, old(Snapshot()), Vec3(windX, windY, windZ))
      ensures old(t) + ddt < cfg.dt ==> t == old(t) + ddt && Snapshot() == old(Snapshot())
    {
      t := t + ddt;
      if t >= cfg.dt {
        StepBuffers(windX, windY, windZ);
        t := 0.0;
      }
    }
  }
}
