/** What one physics step of the cloth computes, phase by phase, as pure
    functions of the state before the step. The methods in module Phases
    are proved to compute exactly these, and Cloth.Fabric.Update is proved
    to compose them. */
module Simulation {
  import opened Vectors
  import opened Grid
  import opened Passes
  import opened Springs

  /** The constants a Fabric holds: grid shape, time step, mass, gravity,
      wind influence, spring coefficients and the numeric primitives. */
  datatype Config = Config(
    rows: nat, cols: nat,
    dt: real, mass: real, gravity: real, windInfl: real,
    springs: Coefficients, maths: Maths)

  /** The seven co-indexed per-vertex buffers. */
  datatype Frame = Frame(
    prevPos: seq<Vec3>, currPos: seq<Vec3>, velocity: seq<Vec3>,
    normals: seq<Vec3>, tangents: seq<Vec3>, bitangents: seq<Vec3>,
    force: seq<Vec3>)

  /** All seven buffers have one entry per grid vertex. */
  predicate Shaped(cfg: Config, fr: Frame) {
    var N := cfg.rows * cfg.cols;
    |fr.prevPos| == N && |fr.currPos| == N && |fr.velocity| == N &&
    |fr.normals| == N && |fr.tangents| == N && |fr.bitangents| == N && |fr.force| == N
  }

  /** Every spring the bend and the short passes visit has non-zero length
      under `pos`, so no edge force divides by zero; StretchedSprings says
      which springs of the grid these are. */
  ghost predicate Stretched(cfg: Config, pos: seq<Vec3>) {
    2 <= cfg.rows && 2 <= cfg.cols &&
    AllTaut(cfg.maths, cfg.cols, pos, BendPasses(cfg.rows, cfg.cols)) &&
    AllTaut(cfg.maths, cfg.cols, pos, ShortPasses(cfg.rows, cfg.cols))
  }

  /** A step needs exactly the structural, shear and bend springs of the
      grid to be taut, except the bend springs the passes skip (BendGap). */
  lemma StretchedSprings(cfg: Config, pos: seq<Vec3>)
    requires 2 <= cfg.rows && 2 <= cfg.cols
    ensures Stretched(cfg, pos) <==>
              (forall l {:trigger IsShortLink(cfg.rows, cfg.cols, l)} ::
                 IsShortLink(cfg.rows, cfg.cols, l) ==> Taut(cfg.maths, cfg.cols, pos, l)) &&
              (forall l {:trigger IsBendLink(cfg.rows, cfg.cols, l)} ::
                 IsBendLink(cfg.rows, cfg.cols, l) && !BendGap(cfg.rows, cfg.cols, l) ==> Taut(cfg.maths, cfg.cols, pos, l))
  {
    var m, n := cfg.rows, cfg.cols;
    forall l
      ensures l in BendPasses(m, n) <==> IsBendLink(m, n, l) && !BendGap(m, n, l)
      ensures l in ShortPasses(m, n) <==> IsShortLink(m, n, l)
    {
      BendCoverage(m, n, l);
      ShortCoverage(m, n, l);
      VisitsIn(BendPasses(m, n), l);
      VisitsIn(ShortPasses(m, n), l);
    }
  }

  /** What a step needs so that every index it uses is in range and every
      division it performs is defined: at least two rows and two columns
      (otherwise the size_t bounds `n - 2`, `m - 2` wrap), no more rows than
      columns (otherwise the integration writes past the buffer), non-zero
      mass and time step, and no zero-length spring among those the passes
      visit. */
  ghost predicate StepReady(cfg: Config, fr: Frame) {
    Sized(cfg, fr) && Stretched(cfg, fr.currPos)
  }

  /** The part of StepReady that the phases after the force accumulation
      need. */
  predicate Sized(cfg: Config, fr: Frame) {
    2 <= cfg.rows <= cfg.cols && cfg.mass != 0.0 && cfg.dt != 0.0 && Shaped(cfg, fr)
  }

  // ----- force reset and external forces -----

  function Zeros(N: nat): (r: seq<Vec3>)
    ensures |r| == N && forall k :: 0 <= k < N ==> r[k] == Zero
  {
    seq(N, _ => Zero)
  }

  /** Gravity plus the wind term: the x-component of the drag,
      `normal.x * (wind.x + velocity.x)`, scaled by the wind influence, is
      added to all three axes; gravity `mass * gravity` acts along y. */
  function ExternalForce(cfg: Config, normal: Vec3, vel: Vec3, wind: Vec3): (F: Vec3)
    ensures F.x == F.z
    ensures F.y == cfg.mass * cfg.gravity + F.x
  {
    var wfx := normal.x * (wind.x + vel.x);
    Vec3(cfg.windInfl * wfx, cfg.mass * cfg.gravity + cfg.windInfl * wfx, cfg.windInfl * wfx)
  }

  /** The y and z components of the wind never reach the force. */
  lemma WindIgnoresYZ(cfg: Config, normal: Vec3, vel: Vec3, wind: Vec3, wy: real, wz: real)
    ensures ExternalForce(cfg, normal, vel, Vec3(wind.x, wy, wz)) == ExternalForce(cfg, normal, vel, wind)
  {
  }

  function WithExternal(cfg: Config, f: seq<Vec3>, normals: seq<Vec3>, vel: seq<Vec3>, wind: Vec3): (r: seq<Vec3>)
    requires |normals| == |vel| == |f|
    ensures |r| == |f|
  {
    seq(|f|, k requires 0 <= k < |f| => Add(f[k], ExternalForce(cfg, normals[k], vel[k], wind)))
  }

  // ----- spring passes -----

  /** The accumulator after the three bend passes. */
  function BendForces(cfg: Config, pos: seq<Vec3>, vel: seq<Vec3>, f: seq<Vec3>): (r: seq<Vec3>)
    requires 2 <= cfg.rows && 2 <= cfg.cols && AllTaut(cfg.maths, cfg.cols, pos, BendPasses(cfg.rows, cfg.cols))
    requires |vel| == |pos| == |f|
    ensures |r| == |f|
  {
    Scatter(cfg.maths, cfg.springs, cfg.cols, pos, vel, f, BendPasses(cfg.rows, cfg.cols))
  }

  /** The accumulator after the three structural-and-shear passes. */
  function ShortForces(cfg: Config, pos: seq<Vec3>, vel: seq<Vec3>, f: seq<Vec3>): (r: seq<Vec3>)
    requires 2 <= cfg.rows && 2 <= cfg.cols && AllTaut(cfg.maths, cfg.cols, pos, ShortPasses(cfg.rows, cfg.cols))
    requires |vel| == |pos| == |f|
    ensures |r| == |f|
  {
    Scatter(cfg.maths, cfg.springs, cfg.cols, pos, vel, f, ShortPasses(cfg.rows, cfg.cols))
  }

  // ----- integration -----

  /** The index line 484 of the source writes for iteration (j, i):
      `j * numRows + i`, with the row count where the column count belongs. */
  function WriteIdx(m: nat, c: Cell): nat {
    c.row * m + c.col
  }

  /** `cur + vel*dt + force * 0.5 * (1/mass) * dt*dt`. */
  function NextPosition(cfg: Config, cur: Vec3, vel: Vec3, force: Vec3): Vec3
    requires cfg.mass != 0.0
  {
    Add(Add(cur, Scale(cfg.dt, vel)), Scale(0.5 * (1.0 / cfg.mass) * cfg.dt * cfg.dt, force))
  }

  datatype Buffers = Buffers(prev: seq<Vec3>, vel: seq<Vec3>)

  predicate Fits(cfg: Config, N: nat, c: Cell) {
    WriteIdx(cfg.rows, c) < N && IndexOf(cfg.cols, c) < N
  }

  /** One iteration (j, i) of the integration loop, as written: the new
      position goes to `prev[j*m + i]`, the velocity is read back from
      `prev[j*n + i]`. */
  function IntegrateCell(cfg: Config, cur: seq<Vec3>, force: seq<Vec3>, b: Buffers, c: Cell): (r: Buffers)
    requires cfg.mass != 0.0 && cfg.dt != 0.0
    requires |b.prev| == |b.vel| == |cur| == |force| && Fits(cfg, |cur|, c)
    ensures |r.prev| == |r.vel| == |cur|
  {
    var k := IndexOf(cfg.cols, c);
    var prev := b.prev[WriteIdx(cfg.rows, c) := NextPosition(cfg, cur[k], b.vel[k], force[k])];
    Buffers(prev, b.vel[k := Scale(1.0 / cfg.dt, Sub(prev[k], cur[k]))])
  }

  /** The integration loop run over `cells` in order. */
  function Integrate(cfg: Config, cur: seq<Vec3>, force: seq<Vec3>, b: Buffers, cells: seq<Cell>): (r: Buffers)
    requires cfg.mass != 0.0 && cfg.dt != 0.0
    requires |b.prev| == |b.vel| == |cur| == |force|
    requires forall i :: 0 <= i < |cells| ==> Fits(cfg, |cur|, cells[i])
    ensures |r.prev| == |r.vel| == |cur|
    decreases |cells|
  {
    if cells == [] then b
    else IntegrateCell(cfg, cur, force, Integrate(cfg, cur, force, b, cells[..|cells| - 1]), cells[|cells| - 1])
  }

  /** Row j of the integration loop, columns 1 .. i-1 (column 0 is skipped). */
  function IntRow(j: nat, i: nat): seq<Cell>
    decreases i
  {
    if i <= 1 then [] else IntRow(j, i - 1) + [Cell(j, i - 1)]
  }

  /** Rows 0 .. j-1 of the integration loop over a grid with n columns. */
  function IntRows(j: nat, n: nat): seq<Cell>
    decreases j
  {
    if j == 0 then [] else IntRows(j - 1, n) + IntRow(j - 1, n)
  }

  lemma {:induction false} IntRowCells(j: nat, i: nat)
    ensures forall c :: c in IntRow(j, i) ==> c.row == j && 1 <= c.col < i
    decreases i
  {
    if i > 1 {
      IntRowCells(j, i - 1);
    }
  }

  lemma IntRowsCells(j: nat, n: nat)
    ensures forall c :: c in IntRows(j, n) ==> c.row < j && 1 <= c.col < n
  {
    forall c | c in IntRows(j, n) ensures c.row < j && 1 <= c.col < n {
      IntRowsCell(j, n, c);
    }
  }

  lemma {:induction false} IntRowsCell(j: nat, n: nat, c: Cell)
    requires c in IntRows(j, n)
    ensures c.row < j && 1 <= c.col < n
    decreases j
  {
    if j > 0 {
      assert IntRows(j, n) == IntRows(j - 1, n) + IntRow(j - 1, n);
      if c in IntRows(j - 1, n) {
        IntRowsCell(j - 1, n, c);
      } else {
        IntRowCells(j - 1, n);
      }
    }
  }

  /** With no more rows than columns, the write index `j*m + i` and the read
      index `j*n + i` of every grid vertex are in range. */
  lemma WriteIdxInRange(m: nat, n: nat, c: Cell)
    requires m <= n && InGrid(m, n, c)
    ensures WriteIdx(m, c) < m * n && IndexOf(n, c) < m * n
  {
    IdxBound(m, n, c.row, c.col);
    MulMono(m, n, c.row);
    assert c.row * m <= c.row * n;
  }

  /** With more rows than columns, the last iteration (m-1, n-1) writes at
      or past the end of the buffers. */
  lemma WriteIdxOverflows(m: nat, n: nat)
    requires 2 <= n < m
    ensures WriteIdx(m, Cell(m - 1, n - 1)) >= m * n
  {
    var d := m - n;
    assert (m - 1) * m == (m - 1) * n + (m - 1) * d;
    assert (m - 1) * d >= m - 1 by {
      MulMono(1, d, m - 1);
    }
    assert (m - 1) * n + n == m * n;
  }

  /** The integration loop's last iteration is (m-1, n-1). */
  lemma LastCellVisited(m: nat, n: nat)
    requires m >= 1 && n >= 2
    ensures Cell(m - 1, n - 1) in IntRows(m, n)
  {
    assert IntRow(m - 1, n) == IntRow(m - 1, n - 1) + [Cell(m - 1, n - 1)];
  }

  /** The integration loop's write at line 484 stays inside the buffers for
      every iteration exactly when the grid has no more rows than columns. */
  lemma IntegrationWriteInBounds(m: nat, n: nat)
    requires m >= 2 && n >= 2
    ensures (forall c :: c in IntRows(m, n) ==> WriteIdx(m, c) < m * n) <==> m <= n
  {
    if m <= n {
      IntRowsCells(m, n);
      forall c | c in IntRows(m, n) ensures WriteIdx(m, c) < m * n {
        WriteIdxInRange(m, n, c);
      }
    } else {
      LastCellVisited(m, n);
      WriteIdxOverflows(m, n);
    }
  }

  lemma IntegrationFits(cfg: Config)
    requires 2 <= cfg.rows <= cfg.cols
    ensures forall i :: 0 <= i < |IntRows(cfg.rows, cfg.cols)| ==>
              Fits(cfg, cfg.rows * cfg.cols, IntRows(cfg.rows, cfg.cols)[i])
  {
    IntRowsCells(cfg.rows, cfg.cols);
    forall i | 0 <= i < |IntRows(cfg.rows, cfg.cols)|
      ensures Fits(cfg, cfg.rows * cfg.cols, IntRows(cfg.rows, cfg.cols)[i])
    {
      WriteIdxInRange(cfg.rows, cfg.cols, IntRows(cfg.rows, cfg.cols)[i]);
    }
  }

  /** No two cells of `cells` share a linear index. */
  predicate Distinct(n: nat, cells: seq<Cell>) {
    forall a, b :: 0 <= a < |cells| && 0 <= b < |cells| && a != b ==>
      IndexOf(n, cells[a]) != IndexOf(n, cells[b])
  }

  lemma {:induction false} IntRowAt(j: nat, i: nat)
    requires i >= 1
    ensures |IntRow(j, i)| == i - 1
    ensures forall a :: 0 <= a < i - 1 ==> IntRow(j, i)[a] == Cell(j, a + 1)
    decreases i
  {
    if i > 1 {
      IntRowAt(j, i - 1);
    }
  }

  /** The a-th iteration of the integration loop visits row a/(n-1),
      column a%(n-1) + 1. */
  lemma {:induction false} IntRowsAt(j: nat, n: nat)
    requires n >= 2
    ensures |IntRows(j, n)| == j * (n - 1)
    ensures forall a :: 0 <= a < j * (n - 1) ==> IntRows(j, n)[a] == Cell(a / (n - 1), a % (n - 1) + 1)
    decreases j
  {
    if j > 0 {
      IntRowsAt(j - 1, n);
      IntRowAt(j - 1, n);
      IterationsConcat(j - 1, n, IntRows(j - 1, n), IntRow(j - 1, n));
    }
  }

  /** Appending row j to the iterations of rows 0 .. j-1. */
  lemma IterationsConcat(j: nat, n: nat, P: seq<Cell>, R: seq<Cell>)
    requires n >= 2 && |P| == j * (n - 1) && |R| == n - 1
    requires forall b :: 0 <= b < j * (n - 1) ==> P[b] == Cell(b / (n - 1), b % (n - 1) + 1)
    requires forall b :: 0 <= b < n - 1 ==> R[b] == Cell(j, b + 1)
    ensures |P + R| == (j + 1) * (n - 1)
    ensures forall a :: 0 <= a < (j + 1) * (n - 1) ==> (P + R)[a] == Cell(a / (n - 1), a % (n - 1) + 1)
  {
    assert j * (n - 1) + (n - 1) == (j + 1) * (n - 1);
    forall a | 0 <= a < (j + 1) * (n - 1)
      ensures (P + R)[a] == Cell(a / (n - 1), a % (n - 1) + 1)
    {
      IterationAt(j, n, P, R, a);
    }
  }

  /** One iteration of the loop over rows 0 .. j: an earlier row's, or
      row j's. */
  lemma IterationAt(j: nat, n: nat, P: seq<Cell>, R: seq<Cell>, a: nat)
    requires n >= 2 && |P| == j * (n - 1) && |R| == n - 1 && a < |P| + |R|
    requires forall b :: 0 <= b < j * (n - 1) ==> P[b] == Cell(b / (n - 1), b % (n - 1) + 1)
    requires forall b :: 0 <= b < n - 1 ==> R[b] == Cell(j, b + 1)
    ensures (P + R)[a] == Cell(a / (n - 1), a % (n - 1) + 1)
  {
    if a >= |P| {
      LemmaFundamentalDivMod(a, n - 1, j, a - |P|);
    }
  }

  /** Distinct cells of one row width have distinct linear indices. */
  lemma IdxDistinct(n: nat, r1: nat, c1: nat, r2: nat, c2: nat)
    requires c1 < n && c2 < n && (r1 != r2 || c1 != c2)
    ensures Idx(n, r1, c1) != Idx(n, r2, c2)
  {
    IdxDecode(n, r1, c1);
    IdxDecode(n, r2, c2);
  }

  /** Distinct iteration numbers visit distinct vertices. */
  lemma IterationsDistinct(n: nat, a: nat, b: nat)
    requires n >= 2 && a != b
    ensures Idx(n, a / (n - 1), a % (n - 1) + 1) != Idx(n, b / (n - 1), b % (n - 1) + 1)
  {
    var qa, ra := Split(a, n - 1);
    var qb, rb := Split(b, n - 1);
    if qa == qb && ra == rb {
      assert false;
    } else {
      IdxDistinct(n, qa, ra + 1, qb, rb + 1);
    }
  }

  /** Quotient and remainder of `a` by `d`. */
  lemma Split(a: nat, d: nat) returns (q: nat, r: nat)
    requires d > 0
    ensures q == a / d && r == a % d && a == q * d + r && r < d
  {
    q, r := a / d, a % d;
  }

  /** No two iterations of the integration loop visit the same vertex. */
  lemma IntRowsDistinct(j: nat, n: nat)
    requires n >= 2
    ensures Distinct(n, IntRows(j, n))
  {
    var cells := IntRows(j, n);
    IntRowsAt(j, n);
    forall a, b | 0 <= a < |cells| && 0 <= b < |cells| && a != b
      ensures IndexOf(n, cells[a]) != IndexOf(n, cells[b])
    {
      IterationsDistinct(n, a, b);
    }
  }

  /** A buffer entry no iteration writes keeps its value. */
  lemma {:induction false} IntegrateUntouched(cfg: Config, cur: seq<Vec3>, force: seq<Vec3>, b: Buffers,
                                              cells: seq<Cell>, k: nat)
    requires cfg.mass != 0.0 && cfg.dt != 0.0
    requires |b.prev| == |b.vel| == |cur| == |force| && k < |cur|
    requires forall i :: 0 <= i < |cells| ==> Fits(cfg, |cur|, cells[i])
    ensures (forall i :: 0 <= i < |cells| ==> WriteIdx(cfg.rows, cells[i]) != k) ==>
              Integrate(cfg, cur, force, b, cells).prev[k] == b.prev[k]
    ensures (forall i :: 0 <= i < |cells| ==> IndexOf(cfg.cols, cells[i]) != k) ==>
              Integrate(cfg, cur, force, b, cells).vel[k] == b.vel[k]
    decreases |cells|
  {
    if cells != [] {
      IntegrateUntouched(cfg, cur, force, b, cells[..|cells| - 1], k);
    }
  }

  /** On a square grid every iteration writes its own vertex, once: the
      vertex's new position is `NextPosition` of its old position, velocity
      and force, and its new velocity is the displacement divided by dt. */
  lemma {:induction false} IntegrateAt(cfg: Config, cur: seq<Vec3>, force: seq<Vec3>, b: Buffers,
                                       cells: seq<Cell>, idx: nat)
    requires cfg.mass != 0.0 && cfg.dt != 0.0 && cfg.rows == cfg.cols
    requires |b.prev| == |b.vel| == |cur| == |force|
    requires forall i :: 0 <= i < |cells| ==> Fits(cfg, |cur|, cells[i])
    requires Distinct(cfg.cols, cells) && idx < |cells|
    ensures var k, r := IndexOf(cfg.cols, cells[idx]), Integrate(cfg, cur, force, b, cells);
      r.prev[k] == NextPosition(cfg, cur[k], b.vel[k], force[k]) &&
      r.vel[k] == Scale(1.0 / cfg.dt, Sub(r.prev[k], cur[k]))
    decreases |cells|
  {
    var k := IndexOf(cfg.cols, cells[idx]);
    var p := cells[..|cells| - 1];
    assert forall i :: 0 <= i < |p| ==> p[i] == cells[i];
    if idx == |cells| - 1 {
      forall i | 0 <= i < |p| ensures IndexOf(cfg.cols, p[i]) != k {
        assert IndexOf(cfg.cols, cells[i]) != IndexOf(cfg.cols, cells[idx]);
      }
      IntegrateUntouched(cfg, cur, force, b, p, k);
    } else {
      IntegrateAt(cfg, cur, force, b, p, idx);
      assert IndexOf(cfg.cols, cells[|cells| - 1]) != k;
    }
  }

  // ----- tangent, bitangent and normal recomputation -----

  /** Vertex k has a vertex below it and a vertex to its right. */
  predicate Interior(m: nat, n: nat, k: nat) {
    0 < n && k % n + 1 < n && k + n < m * n
  }

  function TangentAt(maths: Maths, n: nat, pos: seq<Vec3>, k: nat): Vec3
    requires k + n < |pos|
  {
    maths.normalize(Sub(pos[k + n], pos[k]))
  }

  function BitangentAt(maths: Maths, pos: seq<Vec3>, k: nat): Vec3
    requires k + 1 < |pos|
  {
    maths.normalize(Sub(pos[k + 1], pos[k]))
  }

  function NormalAt(maths: Maths, n: nat, pos: seq<Vec3>, k: nat): Vec3
    requires k + n < |pos| && k + 1 < |pos|
  {
    Cross(BitangentAt(maths, pos, k), TangentAt(maths, n, pos, k))
  }

  function Tangents(cfg: Config, pos: seq<Vec3>, prior: seq<Vec3>): (r: seq<Vec3>)
    requires |pos| == |prior| == cfg.rows * cfg.cols
    ensures |r| == |prior|
  {
    seq(|prior|, k requires 0 <= k < |prior| =>
      if Interior(cfg.rows, cfg.cols, k) then TangentAt(cfg.maths, cfg.cols, pos, k) else prior[k])
  }

  function Bitangents(cfg: Config, pos: seq<Vec3>, prior: seq<Vec3>): (r: seq<Vec3>)
    requires |pos| == |prior| == cfg.rows * cfg.cols
    ensures |r| == |prior|
  {
    seq(|prior|, k requires 0 <= k < |prior| =>
      if Interior(cfg.rows, cfg.cols, k) then BitangentAt(cfg.maths, pos, k) else prior[k])
  }

  function Normals(cfg: Config, pos: seq<Vec3>, prior: seq<Vec3>): (r: seq<Vec3>)
    requires |pos| == |prior| == cfg.rows * cfg.cols
    ensures |r| == |prior|
  {
    seq(|prior|, k requires 0 <= k < |prior| =>
      if Interior(cfg.rows, cfg.cols, k) then NormalAt(cfg.maths, cfg.cols, pos, k) else prior[k])
  }

  // ----- boundary normals -----

  /** The vertex whose normal vertex (r, c) ends up with after the two
      copy loops: the last column copies column n-2, then the last row
      copies row m-2 (including the corner that the first loop just set). */
  function BoundarySource(m: nat, n: nat, r: nat, c: nat): Cell
    requires m >= 2 && n >= 2
  {
    if r == m - 1 then Cell(m - 2, if c == n - 1 then n - 2 else c)
    else if c == n - 1 then Cell(r, n - 2)
    else Cell(r, c)
  }

  function SourceIndex(m: nat, n: nat, k: nat): (s: nat)
    requires m >= 2 && n >= 2 && k < m * n
    ensures s < m * n
  {
    IndexCell(m, n, k);
    var src := BoundarySource(m, n, k / n, k % n);
    IdxBound(m, n, src.row, src.col);
    IndexOf(n, src)
  }

  function CopyBoundary(m: nat, n: nat, normals: seq<Vec3>): (r: seq<Vec3>)
    requires m >= 2 && n >= 2 && |normals| == m * n
    ensures |r| == |normals|
  {
    seq(|normals|, k requires 0 <= k < |normals| => normals[SourceIndex(m, n, k)])
  }

  /** The normal vertex (r, c) holds after the copy. */
  lemma CopyBoundaryAt(m: nat, n: nat, normals: seq<Vec3>, r: nat, c: nat)
    requires m >= 2 && n >= 2 && |normals| == m * n && r < m && c < n
    ensures Idx(n, r, c) < m * n
    ensures CopyBoundary(m, n, normals)[Idx(n, r, c)] == normals[IndexOf(n, BoundarySource(m, n, r, c))]
  {
    IdxBound(m, n, r, c);
    IdxDecode(n, r, c);
  }

  /** After the copy, the last-column normal of row j equals its left
      neighbour's. */
  lemma BoundaryColumnAgrees(m: nat, n: nat, normals: seq<Vec3>, j: nat)
    requires m >= 2 && n >= 2 && |normals| == m * n && j < m
    ensures Idx(n, j, n - 1) < m * n && Idx(n, j, n - 2) < m * n
    ensures CopyBoundary(m, n, normals)[Idx(n, j, n - 1)] == CopyBoundary(m, n, normals)[Idx(n, j, n - 2)]
  {
    CopyBoundaryAt(m, n, normals, j, n - 1);
    CopyBoundaryAt(m, n, normals, j, n - 2);
  }

  /** After the copy, the last-row normal of column i equals the normal
      above it. */
  lemma BoundaryRowAgrees(m: nat, n: nat, normals: seq<Vec3>, i: nat)
    requires m >= 2 && n >= 2 && |normals| == m * n && i < n
    ensures Idx(n, m - 1, i) < m * n && Idx(n, m - 2, i) < m * n
    ensures CopyBoundary(m, n, normals)[Idx(n, m - 1, i)] == CopyBoundary(m, n, normals)[Idx(n, m - 2, i)]
  {
    CopyBoundaryAt(m, n, normals, m - 1, i);
    CopyBoundaryAt(m, n, normals, m - 2, i);
    if i == n - 1 {
      CopyBoundaryAt(m, n, normals, m - 2, n - 2);
    }
  }

  /** Interior normals are left alone by the copy. */
  lemma CopyBoundaryKeepsInterior(m: nat, n: nat, normals: seq<Vec3>, k: nat)
    requires m >= 2 && n >= 2 && |normals| == m * n && k < m * n && Interior(m, n, k)
    ensures CopyBoundary(m, n, normals)[k] == normals[k]
  {
    IndexCell(m, n, k);
  }

  // ----- the whole step -----

  /** The force accumulator at the end of the force phases: reset, gravity
      and wind, then the bend and the short springs. */
  function StepForce(cfg: Config, fr: Frame, wind: Vec3): (r: seq<Vec3>)
    requires StepReady(cfg, fr)
    ensures |r| == cfg.rows * cfg.cols
  {
    var external := WithExternal(cfg, Zeros(cfg.rows * cfg.cols), fr.normals, fr.velocity, wind);
    ShortForces(cfg, fr.currPos, fr.velocity, BendForces(cfg, fr.currPos, fr.velocity, external))
  }

  /** The phases after the force accumulation, given the accumulated
      `force`: integration into the second position buffer, tangent frames
      and normals from the positions the step started from, the boundary
      copy, and the buffer swap. */
  function Advance(cfg: Config, fr: Frame, force: seq<Vec3>): (r: Frame)
    requires Sized(cfg, fr) && |force| == cfg.rows * cfg.cols
    ensures Shaped(cfg, r) && r.force == force
  {
    var m, n := cfg.rows, cfg.cols;
    IntegrationFits(cfg);
    var b := Integrate(cfg, fr.currPos, force, Buffers(fr.prevPos, fr.velocity), IntRows(m, n));
    Frame(
      fr.currPos, b.prev, b.vel,
      CopyBoundary(m, n, Normals(cfg, fr.currPos, fr.normals)),
      Tangents(cfg, fr.currPos, fr.tangents),
      Bitangents(cfg, fr.currPos, fr.bitangents),
      force)
  }

  /** One physics step: the force phases, then the phases that advance the
      cloth under the accumulated force. */
  function Step(cfg: Config, fr: Frame, wind: Vec3): (r: Frame)
    requires StepReady(cfg, fr)
    ensures Shaped(cfg, r)
  {
    Advance(cfg, fr, StepForce(cfg, fr, wind))
  }
}
