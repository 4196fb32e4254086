/** The loops of Fabric::Update, one method per loop nest, each proved to
    compute the phase of Simulation.Step it implements. */
module Phases {
  import opened Vectors
  import opened Grid
  import opened Passes
  import opened Springs
  import opened Simulation

  /** The shape every force pass needs: a grid of at least 2 x 2 and
      co-sized buffers. Each pass also needs the springs it visits to be
      taut, and asks for those alone. */
  predicate PassReady(cfg: Config, pos: seq<Vec3>, vel: seq<Vec3>, f: seq<Vec3>) {
    2 <= cfg.rows && 2 <= cfg.cols &&
    |pos| == cfg.rows * cfg.cols && |vel| == |pos| && |f| == |pos|
  }

  /** Row j of an m-by-n grid spans indices j*n .. (j+1)*n - 1. */
  lemma RowSpan(m: nat, n: nat, j: nat)
    requires j < m
    ensures (j + 1) * n == j * n + n && j * n + n <= m * n
  {
    MulMono(j + 1, m, n);
  }

  // ----- force reset and external forces -----

  /** Zeroes the force accumulator, row by row. */
  method ResetForces(m: nat, n: nat, f: seq<Vec3>) returns (r: seq<Vec3>)
    requires |f| == m * n
    ensures r == Zeros(m * n)
  {
    r := f;
    var j, k := 0, 0;
    while j < m
      invariant 0 <= j <= m && |r| == m * n
      invariant k == j * n && k <= m * n
      invariant forall x :: 0 <= x < k ==> r[x] == Zero
    {
      assert k + n <= m * n by {
        MulMono(j + 1, m, n);
      }
      var i := 0;
      while i < n
        invariant 0 <= i <= n && |r| == m * n
        invariant k == j * n + i && k + n - i <= m * n
        invariant forall x :: 0 <= x < k ==> r[x] == Zero
      {
        r := r[k := Zero];
        i, k := i + 1, k + 1;
      }
      assert k == (j + 1) * n;
      j := j + 1;
    }
  }

  /** The accumulator holds the external force added to `f` at the first
      `k` vertices and is still `f` at the others. */
  ghost predicate ExternalUpTo(cfg: Config, f: seq<Vec3>, normals: seq<Vec3>, vel: seq<Vec3>, wind: Vec3,
                               r: seq<Vec3>, k: nat)
    requires |normals| == |f| && |vel| == |f|
  {
    |r| == |f| && k <= |f| &&
    (forall x :: 0 <= x < k ==> r[x] == Add(f[x], ExternalForce(cfg, normals[x], vel[x], wind))) &&
    (forall x :: k <= x < |f| ==> r[x] == f[x])
  }

  /** Row j of the wind and gravity loop (the body of the source's
      parallel_for lambda): each vertex of the row gains its external
      force. */
  method AddExternalRow(cfg: Config, f: seq<Vec3>, normals: seq<Vec3>, vel: seq<Vec3>,
                        windX: real, windY: real, windZ: real, r: seq<Vec3>, j: nat) returns (r': seq<Vec3>)
    requires |f| == cfg.rows * cfg.cols && |normals| == |f| && |vel| == |f| && j < cfg.rows
    requires ExternalUpTo(cfg, f, normals, vel, Vec3(windX, windY, windZ), r, j * cfg.cols)
    ensures ExternalUpTo(cfg, f, normals, vel, Vec3(windX, windY, windZ), r', (j + 1) * cfg.cols)
  {
    var k := j * cfg.cols;
    RowSpan(cfg.rows, cfg.cols, j);
    r' := r;
    for i := 0 to cfg.cols
      invariant ExternalUpTo(cfg, f, normals, vel, Vec3(windX, windY, windZ), r', k + i)
    {
      r' := AddExternalAt(cfg, f, normals, vel, windX, windY, windZ, r', k + i);
    }
  }

  /** Vertex x of the wind and gravity loop. */
  method AddExternalAt(cfg: Config, f: seq<Vec3>, normals: seq<Vec3>, vel: seq<Vec3>,
                       windX: real, windY: real, windZ: real, r: seq<Vec3>, x: nat) returns (r': seq<Vec3>)
    requires |normals| == |f| && |vel| == |f| && x < |f|
    requires ExternalUpTo(cfg, f, normals, vel, Vec3(windX, windY, windZ), r, x)
    ensures ExternalUpTo(cfg, f, normals, vel, Vec3(windX, windY, windZ), r', x + 1)
  {
    var wfx := normals[x].x * (windX + vel[x].x);
    r' := r[x := Vec3(r[x].x + cfg.windInfl * wfx,
                      r[x].y + (cfg.mass * cfg.gravity + cfg.windInfl * wfx),
                      r[x].z + cfg.windInfl * wfx)];
  }

  /** Adds wind and gravity to every vertex, row by row. */
  method AddExternalForces(cfg: Config, f: seq<Vec3>, normals: seq<Vec3>, vel: seq<Vec3>,
                           windX: real, windY: real, windZ: real) returns (r: seq<Vec3>)
    requires |f| == cfg.rows * cfg.cols && |normals| == |f| && |vel| == |f|
    ensures r == WithExternal(cfg, f, normals, vel, Vec3(windX, windY, windZ))
  {
    r := f;
    for j := 0 to cfg.rows
      invariant ExternalUpTo(cfg, f, normals, vel, Vec3(windX, windY, windZ), r, j * cfg.cols)
    {
      r := AddExternalRow(cfg, f, normals, vel, windX, windY, windZ, r, j);
    }
  }

  // ----- bend springs -----

  /** Row j of the main bend pass is part of the pass, so its springs are
      taut when the pass's are. */
  lemma BendMainRowTaut(cfg: Config, pos: seq<Vec3>, j: nat)
    requires 2 <= cfg.rows && 2 <= cfg.cols && j + 2 < cfg.rows
    requires AllTaut(cfg.maths, cfg.cols, pos, BendMain(cfg.rows - 2, cfg.cols - 2))
    ensures AllTaut(cfg.maths, cfg.cols, pos, BendMainRow(j, cfg.cols - 2))
  {
    BendMainRowWithin(cfg.rows - 2, cfg.cols - 2, j);
    AllTautWithin(cfg.maths, cfg.cols, pos, BendMain(cfg.rows - 2, cfg.cols - 2), BendMainRow(j, cfg.cols - 2));
  }

  /** Two springs sharing their first vertex, scattered one after the
      other, in the order the source writes the accumulator. */
  lemma ApplyShared(r: seq<Vec3>, a: nat, b1: nat, b2: nat, F1: Vec3, F2: Vec3)
    requires a < |r| && b1 < |r| && b2 < |r| && a != b1 && a != b2 && b1 != b2
    ensures var r1 := r[b1 := Sub(r[b1], F1)];
            var r2 := r1[a := Add(r1[a], F1)];
            var r3 := r2[a := Add(r2[a], F2)];
            Apply(Apply(r, a, b1, F1), a, b2, F2) == r3[b2 := Sub(r3[b2], F2)]
  {
  }

  /** The row-major indices of a vertex and of the vertices two rows down
      and two columns right. */
  lemma BendCellIndices(m: nat, n: nat, j: nat, i: nat)
    requires j + 2 < m && i + 2 < n
    ensures Idx(n, j + 2, i) == Idx(n, j, i) + 2 * n && Idx(n, j, i + 2) == Idx(n, j, i) + 2
    ensures Idx(n, j + 2, i) < m * n
  {
    IdxBound(m, n, j + 2, i);
  }

  /** One iteration of the main bend pass, written as the source writes it
      (subtract F1 below, add F1 and F2 here, subtract F2 to the right),
      scatters the iteration's two springs. */
  lemma BendCellScatter(cfg: Config, pos: seq<Vec3>, vel: seq<Vec3>, r: seq<Vec3>, j: nat, i: nat)
    requires |pos| == cfg.rows * cfg.cols && |vel| == |pos| && |r| == |pos|
    requires j + 2 < cfg.rows && i + 2 < cfg.cols
    requires AllTaut(cfg.maths, cfg.cols, pos, BendCellLinks(j, i))
    ensures var n := cfg.cols;
      var L := BendCellLinks(j, i);
      var F1, F2 := LinkForce(cfg.maths, cfg.springs, n, pos, vel, L[0]), LinkForce(cfg.maths, cfg.springs, n, pos, vel, L[1]);
      var a, below, right := Idx(n, j, i), Idx(n, j + 2, i), Idx(n, j, i + 2);
      a < |r| && below < |r| && right < |r| &&
      Scatter(cfg.maths, cfg.springs, n, pos, vel, r, L) ==
        var r1 := r[below := Sub(r[below], F1)];
        var r2 := r1[a := Add(r1[a], F1)];
        var r3 := r2[a := Add(r2[a], F2)];
        r3[right := Sub(r3[right], F2)]
  {
    var m, n := cfg.rows, cfg.cols;
    var L := BendCellLinks(j, i);
    BendCellIndices(m, n, j, i);
    var a, below, right := Idx(n, j, i), Idx(n, j + 2, i), Idx(n, j, i + 2);
    var F1, F2 := LinkForce(cfg.maths, cfg.springs, n, pos, vel, L[0]), LinkForce(cfg.maths, cfg.springs, n, pos, vel, L[1]);
    assert L == [L[0], L[1]];
    ScatterPair(cfg.maths, cfg.springs, n, pos, vel, r, L[0], L[1]);
    ApplyShared(r, a, below, right, F1, F2);
  }

  /** The two springs of iteration (j, i) belong to row j of the main bend
      pass, so they are taut when the row's are. */
  lemma BendCellTaut(cfg: Config, pos: seq<Vec3>, j: nat, i: nat)
    requires 2 <= cfg.cols && i + 2 < cfg.cols
    requires AllTaut(cfg.maths, cfg.cols, pos, BendMainRow(j, cfg.cols - 2))
    ensures AllTaut(cfg.maths, cfg.cols, pos, BendCellLinks(j, i))
  {
    BendCellWithin(j, cfg.cols - 2, i);
    AllTautWithin(cfg.maths, cfg.cols, pos, BendMainRow(j, cfg.cols - 2), BendCellLinks(j, i));
  }

  /** Iteration (j, i) of the main bend pass extends row j by the
      iteration's two springs. */
  lemma BendMainStep(cfg: Config, pos: seq<Vec3>, vel: seq<Vec3>, r0: seq<Vec3>, r: seq<Vec3>, j: nat, i: nat)
    requires PassReady(cfg, pos, vel, r0) && |r| == |r0|
    requires j + 2 < cfg.rows && i + 2 < cfg.cols
    requires AllTaut(cfg.maths, cfg.cols, pos, BendMainRow(j, i)) && AllTaut(cfg.maths, cfg.cols, pos, BendCellLinks(j, i))
    requires r == Scatter(cfg.maths, cfg.springs, cfg.cols, pos, vel, r0, BendMainRow(j, i))
    ensures AllTaut(cfg.maths, cfg.cols, pos, BendMainRow(j, i + 1))
    ensures var n := cfg.cols;
      var L := BendCellLinks(j, i);
      var F1, F2 := LinkForce(cfg.maths, cfg.springs, n, pos, vel, L[0]), LinkForce(cfg.maths, cfg.springs, n, pos, vel, L[1]);
      var a, below, right := Idx(n, j, i), Idx(n, j + 2, i), Idx(n, j, i + 2);
      a < |r| && below < |r| && right < |r| &&
      Scatter(cfg.maths, cfg.springs, n, pos, vel, r0, BendMainRow(j, i + 1)) ==
        var r1 := r[below := Sub(r[below], F1)];
        var r2 := r1[a := Add(r1[a], F1)];
        var r3 := r2[a := Add(r2[a], F2)];
        r3[right := Sub(r3[right], F2)]
  {
    var n := cfg.cols;
    var L := BendCellLinks(j, i);
    BendCellScatter(cfg, pos, vel, r, j, i);
    ScatterConcat(cfg.maths, cfg.springs, n, pos, vel, r0, BendMainRow(j, i), L);
  }

  /** Iteration (j, i) of the main bend pass: the vertical bend spring to
      (j+2, i) and the horizontal one to (j, i+2), written as the source
      writes them (subtract F1 below, add F1 and F2 here, subtract F2 to
      the right). */
  method BendMainCell(cfg: Config, pos: seq<Vec3>, vel: seq<Vec3>, f: seq<Vec3>, r: seq<Vec3>, j: nat, i: nat)
    returns (r': seq<Vec3>)
    requires PassReady(cfg, pos, vel, f) && |r| == |f| && j + 2 < cfg.rows && i + 2 < cfg.cols
    requires AllTaut(cfg.maths, cfg.cols, pos, BendMainRow(j, i)) && AllTaut(cfg.maths, cfg.cols, pos, BendCellLinks(j, i))
    requires r == Scatter(cfg.maths, cfg.springs, cfg.cols, pos, vel, f, BendMainRow(j, i))
    ensures AllTaut(cfg.maths, cfg.cols, pos, BendMainRow(j, i + 1))
    ensures r' == Scatter(cfg.maths, cfg.springs, cfg.cols, pos, vel, f, BendMainRow(j, i + 1))
  {
    var n := cfg.cols;
    BendMainStep(cfg, pos, vel, f, r, j, i);
    var L := BendCellLinks(j, i);
    var a, below, right := Idx(n, j, i), Idx(n, j + 2, i), Idx(n, j, i + 2);
    var F1 := LinkForce(cfg.maths, cfg.springs, n, pos, vel, L[0]);
    var F2 := LinkForce(cfg.maths, cfg.springs, n, pos, vel, L[1]);
    r' := r[below := Sub(r[below], F1)];
    r' := r'[a := Add(r'[a], F1)];
    r' := r'[a := Add(r'[a], F2)];
    r' := r'[right := Sub(r'[right], F2)];
  }

  /** Row j of the main bend pass (the body of the source's parallel_for
      lambda): for each column i < n-2, the vertical bend spring to
      (j+2, i) and the horizontal one to (j, i+2). */
  method BendMainRowPass(cfg: Config, pos: seq<Vec3>, vel: seq<Vec3>, f: seq<Vec3>, j: nat) returns (r: seq<Vec3>)
    requires PassReady(cfg, pos, vel, f) && j + 2 < cfg.rows
    requires AllTaut(cfg.maths, cfg.cols, pos, BendMainRow(j, cfg.cols - 2))
    ensures r == Scatter(cfg.maths, cfg.springs, cfg.cols, pos, vel, f, BendMainRow(j, cfg.cols - 2))
  {
    r := f;
    for i := 0 to cfg.cols - 2
      invariant |r| == |f|
      invariant AllTaut(cfg.maths, cfg.cols, pos, BendMainRow(j, i))
      invariant r == Scatter(cfg.maths, cfg.springs, cfg.cols, pos, vel, f, BendMainRow(j, i))
    {
      BendCellTaut(cfg, pos, j, i);
      r := BendMainCell(cfg, pos, vel, f, r, j, i);
    }
  }

  /** Row j of the main bend pass continues the rows before it. */
  lemma BendMainNext(cfg: Config, pos: seq<Vec3>, vel: seq<Vec3>, f: seq<Vec3>, r0: seq<Vec3>, r: seq<Vec3>, j: nat)
    requires 2 <= cfg.cols && |vel| == |pos| && |f| == |pos| && |r0| == |pos|
    requires AllTaut(cfg.maths, cfg.cols, pos, BendMain(j, cfg.cols - 2))
    requires AllTaut(cfg.maths, cfg.cols, pos, BendMainRow(j, cfg.cols - 2))
    requires r0 == Scatter(cfg.maths, cfg.springs, cfg.cols, pos, vel, f, BendMain(j, cfg.cols - 2))
    requires r == Scatter(cfg.maths, cfg.springs, cfg.cols, pos, vel, r0, BendMainRow(j, cfg.cols - 2))
    ensures AllTaut(cfg.maths, cfg.cols, pos, BendMain(j + 1, cfg.cols - 2))
    ensures r == Scatter(cfg.maths, cfg.springs, cfg.cols, pos, vel, f, BendMain(j + 1, cfg.cols - 2))
  {
    ScatterConcat(cfg.maths, cfg.springs, cfg.cols, pos, vel, f, BendMain(j, cfg.cols - 2), BendMainRow(j, cfg.cols - 2));
  }

  /** The main bend pass: rows j < m-2, in order. */
  method BendMainPass(cfg: Config, pos: seq<Vec3>, vel: seq<Vec3>, f: seq<Vec3>) returns (r: seq<Vec3>)
    requires PassReady(cfg, pos, vel, f)
    requires AllTaut(cfg.maths, cfg.cols, pos, BendMain(cfg.rows - 2, cfg.cols - 2))
    ensures r == Scatter(cfg.maths, cfg.springs, cfg.cols, pos, vel, f, BendMain(cfg.rows - 2, cfg.cols - 2))
  {
    r := f;
    for j := 0 to cfg.rows - 2
      invariant |r| == |f|
      invariant AllTaut(cfg.maths, cfg.cols, pos, BendMain(j, cfg.cols - 2))
      invariant r == Scatter(cfg.maths, cfg.springs, cfg.cols, pos, vel, f, BendMain(j, cfg.cols - 2))
    {
      var r0 := r;
      BendMainRowTaut(cfg, pos, j);
      r := BendMainRowPass(cfg, pos, vel, r0, j);
      BendMainNext(cfg, pos, vel, f, r0, r, j);
    }
  }
  // ----- structural and shear springs -----

  /** Row j of the main short pass is part of the pass, so its springs are
      taut when the pass's are. */
  lemma ShortMainRowTaut(cfg: Config, pos: seq<Vec3>, j: nat)
    requires 2 <= cfg.rows && 2 <= cfg.cols && j + 1 < cfg.rows
    requires AllTaut(cfg.maths, cfg.cols, pos, ShortMain(cfg.rows - 1, cfg.cols - 1))
    ensures AllTaut(cfg.maths, cfg.cols, pos, ShortMainRow(j, cfg.cols - 1))
  {
    ShortMainRowWithin(cfg.rows - 1, cfg.cols - 1, j);
    AllTautWithin(cfg.maths, cfg.cols, pos, ShortMain(cfg.rows - 1, cfg.cols - 1), ShortMainRow(j, cfg.cols - 1));
  }

  /** The four springs of iteration (j, i) belong to row j of the main
      short pass, so they are taut when the row's are. */
  lemma ShortCellTaut(cfg: Config, pos: seq<Vec3>, j: nat, i: nat)
    requires 1 <= cfg.cols && i + 1 < cfg.cols
    requires AllTaut(cfg.maths, cfg.cols, pos, ShortMainRow(j, cfg.cols - 1))
    ensures AllTaut(cfg.maths, cfg.cols, pos, ShortCellLinks(j, i))
  {
    ShortCellWithin(j, cfg.cols - 1, i);
    AllTautWithin(cfg.maths, cfg.cols, pos, ShortMainRow(j, cfg.cols - 1), ShortCellLinks(j, i));
  }

  /** The row-major indices of a vertex, its right neighbour, the vertex
      below and the vertex diagonally below-right. */
  lemma ShortCellIndices(m: nat, n: nat, j: nat, i: nat)
    requires j + 1 < m && i + 1 < n
    ensures Idx(n, j, i + 1) == Idx(n, j, i) + 1 && Idx(n, j + 1, i) == Idx(n, j, i) + n
    ensures Idx(n, j + 1, i + 1) == Idx(n, j, i) + n + 1 && Idx(n, j + 1, i + 1) < m * n
  {
    IdxBound(m, n, j + 1, i + 1);
  }

  /** The four springs of a short-pass iteration, scattered in turn, leave
      the accumulator as the source's eight writes do: F1, F3 and F4 added
      at the vertex, then F1 subtracted diagonally below-right, F3
      subtracted and F2 added at the right neighbour, and F4 and F2
      subtracted below. */
  lemma ShortCellWrites(r: seq<Vec3>, a: nat, right: nat, below: nat, diag: nat, F1: Vec3, F2: Vec3, F3: Vec3, F4: Vec3)
    requires a < |r| && right < |r| && below < |r| && diag < |r|
    requires a != right && a != below && a != diag && right != below && right != diag && below != diag
    ensures var r1 := r[a := Add(r[a], F1)];
            var r2 := r1[a := Add(r1[a], F3)];
            var r3 := r2[a := Add(r2[a], F4)];
            var r4 := r3[diag := Sub(r3[diag], F1)];
            var r5 := r4[right := Sub(r4[right], F3)];
            var r6 := r5[right := Add(r5[right], F2)];
            var r7 := r6[below := Sub(r6[below], F4)];
            Apply(Apply(Apply(Apply(r, a, diag, F1), a, right, F3), a, below, F4), right, below, F2) ==
              r7[below := Sub(r7[below], F2)]
  {
  }

  /** One iteration of the main short pass, written as the source writes
      it, scatters the iteration's four springs. */
  lemma ShortCellScatter(cfg: Config, pos: seq<Vec3>, vel: seq<Vec3>, r: seq<Vec3>, j: nat, i: nat)
    requires |pos| == cfg.rows * cfg.cols && |vel| == |pos| && |r| == |pos|
    requires j + 1 < cfg.rows && i + 1 < cfg.cols
    requires AllTaut(cfg.maths, cfg.cols, pos, ShortCellLinks(j, i))
    ensures var n := cfg.cols;
      var L := ShortCellLinks(j, i);
      var F1, F3 := LinkForce(cfg.maths, cfg.springs, n, pos, vel, L[0]), LinkForce(cfg.maths, cfg.springs, n, pos, vel, L[1]);
      var F4, F2 := LinkForce(cfg.maths, cfg.springs, n, pos, vel, L[2]), LinkForce(cfg.maths, cfg.springs, n, pos, vel, L[3]);
      var a, right, below, diag := Idx(n, j, i), Idx(n, j, i + 1), Idx(n, j + 1, i), Idx(n, j + 1, i + 1);
      a < |r| && right < |r| && below < |r| && diag < |r| &&
      Scatter(cfg.maths, cfg.springs, n, pos, vel, r, L) ==
        var r1 := r[a := Add(r[a], F1)];
        var r2 := r1[a := Add(r1[a], F3)];
        var r3 := r2[a := Add(r2[a], F4)];
        var r4 := r3[diag := Sub(r3[diag], F1)];
        var r5 := r4[right := Sub(r4[right], F3)];
        var r6 := r5[right := Add(r5[right], F2)];
        var r7 := r6[below := Sub(r6[below], F4)];
        r7[below := Sub(r7[below], F2)]
  {
    var m, n := cfg.rows, cfg.cols;
    var L := ShortCellLinks(j, i);
    ShortCellIndices(m, n, j, i);
    var a, right, below, diag := Idx(n, j, i), Idx(n, j, i + 1), Idx(n, j + 1, i), Idx(n, j + 1, i + 1);
    var F1, F3 := LinkForce(cfg.maths, cfg.springs, n, pos, vel, L[0]), LinkForce(cfg.maths, cfg.springs, n, pos, vel, L[1]);
    var F4, F2 := LinkForce(cfg.maths, cfg.springs, n, pos, vel, L[2]), LinkForce(cfg.maths, cfg.springs, n, pos, vel, L[3]);
    ScatterFour(cfg.maths, cfg.springs, n, pos, vel, r, L);
    ShortCellWrites(r, a, right, below, diag, F1, F2, F3, F4);
  }

  /** Iteration (j, i) of the main short pass extends row j by the
      iteration's four springs. */
  lemma ShortMainStep(cfg: Config, pos: seq<Vec3>, vel: seq<Vec3>, r0: seq<Vec3>, r: seq<Vec3>, j: nat, i: nat)
    requires PassReady(cfg, pos, vel, r0) && |r| == |r0|
    requires j + 1 < cfg.rows && i + 1 < cfg.cols
    requires AllTaut(cfg.maths, cfg.cols, pos, ShortMainRow(j, i)) && AllTaut(cfg.maths, cfg.cols, pos, ShortCellLinks(j, i))
    requires r == Scatter(cfg.maths, cfg.springs, cfg.cols, pos, vel, r0, ShortMainRow(j, i))
    ensures AllTaut(cfg.maths, cfg.cols, pos, ShortMainRow(j, i + 1))
    ensures var n := cfg.cols;
      var L := ShortCellLinks(j, i);
      var F1, F3 := LinkForce(cfg.maths, cfg.springs, n, pos, vel, L[0]), LinkForce(cfg.maths, cfg.springs, n, pos, vel, L[1]);
      var F4, F2 := LinkForce(cfg.maths, cfg.springs, n, pos, vel, L[2]), LinkForce(cfg.maths, cfg.springs, n, pos, vel, L[3]);
      var a, right, below, diag := Idx(n, j, i), Idx(n, j, i + 1), Idx(n, j + 1, i), Idx(n, j + 1, i + 1);
      a < |r| && right < |r| && below < |r| && diag < |r| &&
      Scatter(cfg.maths, cfg.springs, n, pos, vel, r0, ShortMainRow(j, i + 1)) ==
        var r1 := r[a := Add(r[a], F1)];
        var r2 := r1[a := Add(r1[a], F3)];
        var r3 := r2[a := Add(r2[a], F4)];
        var r4 := r3[diag := Sub(r3[diag], F1)];
        var r5 := r4[right := Sub(r4[right], F3)];
        var r6 := r5[right := Add(r5[right], F2)];
        var r7 := r6[below := Sub(r6[below], F4)];
        r7[below := Sub(r7[below], F2)]
  {
    var n := cfg.cols;
    ShortCellScatter(cfg, pos, vel, r, j, i);
    ScatterConcat(cfg.maths, cfg.springs, n, pos, vel, r0, ShortMainRow(j, i), ShortCellLinks(j, i));
  }

  /** Iteration (j, i) of the main short pass: the diagonal to (j+1, i+1)
      (F1), the diagonal from (j, i+1) to (j+1, i) (F2), the horizontal
      (F3) and the vertical (F4) structural spring, accumulated in the
      source's order. */
  method ShortMainCell(cfg: Config, pos: seq<Vec3>, vel: seq<Vec3>, f: seq<Vec3>, r: seq<Vec3>, j: nat, i: nat)
    returns (r': seq<Vec3>)
    requires PassReady(cfg, pos, vel, f) && |r| == |f| && j + 1 < cfg.rows && i + 1 < cfg.cols
    requires AllTaut(cfg.maths, cfg.cols, pos, ShortMainRow(j, i)) && AllTaut(cfg.maths, cfg.cols, pos, ShortCellLinks(j, i))
    requires r == Scatter(cfg.maths, cfg.springs, cfg.cols, pos, vel, f, ShortMainRow(j, i))
    ensures AllTaut(cfg.maths, cfg.cols, pos, ShortMainRow(j, i + 1))
    ensures r' == Scatter(cfg.maths, cfg.springs, cfg.cols, pos, vel, f, ShortMainRow(j, i + 1))
  {
    var n := cfg.cols;
    ShortMainStep(cfg, pos, vel, f, r, j, i);
    var L := ShortCellLinks(j, i);
    var a, right, below, diag := Idx(n, j, i), Idx(n, j, i + 1), Idx(n, j + 1, i), Idx(n, j + 1, i + 1);
    var F1 := LinkForce(cfg.maths, cfg.springs, n, pos, vel, L[0]);
    var F2 := LinkForce(cfg.maths, cfg.springs, n, pos, vel, L[3]);
    var F4 := LinkForce(cfg.maths, cfg.springs, n, pos, vel, L[2]);
    var F3 := LinkForce(cfg.maths, cfg.springs, n, pos, vel, L[1]);
    r' := r[a := Add(r[a], F1)];
    r' := r'[a := Add(r'[a], F3)];
    r' := r'[a := Add(r'[a], F4)];
    r' := r'[diag := Sub(r'[diag], F1)];
    r' := r'[right := Sub(r'[right], F3)];
    r' := r'[right := Add(r'[right], F2)];
    r' := r'[below := Sub(r'[below], F4)];
    r' := r'[below := Sub(r'[below], F2)];
  }

  /** Row j of the main short pass (the body of the source's parallel_for
      lambda), columns i < n-1. */
  method ShortMainRowPass(cfg: Config, pos: seq<Vec3>, vel: seq<Vec3>, f: seq<Vec3>, j: nat) returns (r: seq<Vec3>)
    requires PassReady(cfg, pos, vel, f) && j + 1 < cfg.rows
    requires AllTaut(cfg.maths, cfg.cols, pos, ShortMainRow(j, cfg.cols - 1))
    ensures r == Scatter(cfg.maths, cfg.springs, cfg.cols, pos, vel, f, ShortMainRow(j, cfg.cols - 1))
  {
    r := f;
    for i := 0 to cfg.cols - 1
      invariant |r| == |f|
      invariant AllTaut(cfg.maths, cfg.cols, pos, ShortMainRow(j, i))
      invariant r == Scatter(cfg.maths, cfg.springs, cfg.cols, pos, vel, f, ShortMainRow(j, i))
    {
      ShortCellTaut(cfg, pos, j, i);
      r := ShortMainCell(cfg, pos, vel, f, r, j, i);
    }
  }

  /** Row j of the main short pass continues the rows before it. */
  lemma ShortMainNext(cfg: Config, pos: seq<Vec3>, vel: seq<Vec3>, f: seq<Vec3>, r0: seq<Vec3>, r: seq<Vec3>, j: nat)
    requires 1 <= cfg.cols && |vel| == |pos| && |f| == |pos| && |r0| == |pos|
    requires AllTaut(cfg.maths, cfg.cols, pos, ShortMain(j, cfg.cols - 1))
    requires AllTaut(cfg.maths, cfg.cols, pos, ShortMainRow(j, cfg.cols - 1))
    requires r0 == Scatter(cfg.maths, cfg.springs, cfg.cols, pos, vel, f, ShortMain(j, cfg.cols - 1))
    requires r == Scatter(cfg.maths, cfg.springs, cfg.cols, pos, vel, r0, ShortMainRow(j, cfg.cols - 1))
    ensures AllTaut(cfg.maths, cfg.cols, pos, ShortMain(j + 1, cfg.cols - 1))
    ensures r == Scatter(cfg.maths, cfg.springs, cfg.cols, pos, vel, f, ShortMain(j + 1, cfg.cols - 1))
  {
    ScatterConcat(cfg.maths, cfg.springs, cfg.cols, pos, vel, f, ShortMain(j, cfg.cols - 1), ShortMainRow(j, cfg.cols - 1));
  }

  /** The main short pass: rows j < m-1, in order. */
  method ShortMainPass(cfg: Config, pos: seq<Vec3>, vel: seq<Vec3>, f: seq<Vec3>) returns (r: seq<Vec3>)
    requires PassReady(cfg, pos, vel, f)
    requires AllTaut(cfg.maths, cfg.cols, pos, ShortMain(cfg.rows - 1, cfg.cols - 1))
    ensures r == Scatter(cfg.maths, cfg.springs, cfg.cols, pos, vel, f, ShortMain(cfg.rows - 1, cfg.cols - 1))
  {
    r := f;
    for j := 0 to cfg.rows - 1
      invariant |r| == |f|
      invariant AllTaut(cfg.maths, cfg.cols, pos, ShortMain(j, cfg.cols - 1))
      invariant r == Scatter(cfg.maths, cfg.springs, cfg.cols, pos, vel, f, ShortMain(j, cfg.cols - 1))
    {
      var r0 := r;
      ShortMainRowTaut(cfg, pos, j);
      r := ShortMainRowPass(cfg, pos, vel, r0, j);
      ShortMainNext(cfg, pos, vel, f, r0, r, j);
    }
  }

  // ----- single-spring passes along the last row and column -----

  /** The spring of iteration i of the last-row bend pass, from (m-1, i) to
      (m-1, i+2), extends the pass. */
  lemma BendLastRowLink(cfg: Config, pos: seq<Vec3>, i: nat)
    requires 2 <= cfg.rows && 2 <= cfg.cols && |pos| == cfg.rows * cfg.cols
    requires i + 2 < cfg.cols
    ensures var m, n := cfg.rows, cfg.cols;
      var l := Link(Bend, Cell(m - 1, i), Cell(m - 1, i + 2));
      BendLastRow(m, i + 1) == BendLastRow(m, i) + [l] &&
      IndexOf(n, l.from) == Idx(n, m - 1, i) && IndexOf(n, l.to) == Idx(n, m - 1, i + 2) && Idx(n, m - 1, i) != Idx(n, m - 1, i + 2) &&
      Idx(n, m - 1, i) < |pos| && Idx(n, m - 1, i + 2) < |pos|
  {
    var m, n := cfg.rows, cfg.cols;
    IdxBound(m, n, m - 1, i + 2);
  }

  /** The two writes of iteration i, in the order the source makes them,
      extend the pass's scatter by the iteration's spring. */
  lemma BendLastRowStep(cfg: Config, pos: seq<Vec3>, vel: seq<Vec3>, f: seq<Vec3>, r: seq<Vec3>, i: nat, r1: seq<Vec3>, r2: seq<Vec3>)
    requires PassReady(cfg, pos, vel, f) && |r| == |f| && i + 2 < cfg.cols
    requires AllTaut(cfg.maths, cfg.cols, pos, BendLastRow(cfg.rows, i + 1))
    requires r == Scatter(cfg.maths, cfg.springs, cfg.cols, pos, vel, f, BendLastRow(cfg.rows, i))
    requires Taut(cfg.maths, cfg.cols, pos, Link(Bend, Cell(cfg.rows - 1, i), Cell(cfg.rows - 1, i + 2)))
    requires var m, n := cfg.rows, cfg.cols;
      var a, b := Idx(n, m - 1, i), Idx(n, m - 1, i + 2);
      var F := LinkForce(cfg.maths, cfg.springs, n, pos, vel, Link(Bend, Cell(m - 1, i), Cell(m - 1, i + 2)));
      a < |r| && b < |r| && r1 == r[b := Sub(r[b], F)] && r2 == r1[a := Add(r1[a], F)]
    ensures r2 == Scatter(cfg.maths, cfg.springs, cfg.cols, pos, vel, f, BendLastRow(cfg.rows, i + 1))
  {
    var m, n := cfg.rows, cfg.cols;
    var l := Link(Bend, Cell(m - 1, i), Cell(m - 1, i + 2));
    BendLastRowLink(cfg, pos, i);
    ScatterSnoc(cfg.maths, cfg.springs, n, pos, vel, f, BendLastRow(m, i), l);
    ApplyFarEndFirst(r, Idx(n, m - 1, i), Idx(n, m - 1, i + 2), LinkForce(cfg.maths, cfg.springs, n, pos, vel, l));
  }

  /** Iteration i of the last-row bend pass: the bend spring from (m-1, i)
      to (m-1, i+2), subtracted at the far end before it is added at the
      near one. */
  method BendLastRowSpring(cfg: Config, pos: seq<Vec3>, vel: seq<Vec3>, f: seq<Vec3>, r: seq<Vec3>, i: nat) returns (r': seq<Vec3>)
    requires PassReady(cfg, pos, vel, f) && |r| == |f| && i + 2 < cfg.cols
    requires AllTaut(cfg.maths, cfg.cols, pos, BendLastRow(cfg.rows, i + 1))
    requires r == Scatter(cfg.maths, cfg.springs, cfg.cols, pos, vel, f, BendLastRow(cfg.rows, i))
    ensures r' == Scatter(cfg.maths, cfg.springs, cfg.cols, pos, vel, f, BendLastRow(cfg.rows, i + 1))
  {
    var m, n := cfg.rows, cfg.cols;
    var l := Link(Bend, Cell(m - 1, i), Cell(m - 1, i + 2));
    BendLastRowLink(cfg, pos, i);
    assert l in BendLastRow(m, i + 1);
    var a, b := Idx(n, m - 1, i), Idx(n, m - 1, i + 2);
    var F := LinkForce(cfg.maths, cfg.springs, n, pos, vel, l);
    var r1 := r[b := Sub(r[b], F)];
    r' := r1[a := Add(r1[a], F)];
    BendLastRowStep(cfg, pos, vel, f, r, i, r1, r');
  }

  /** The springs of the last-row bend pass up to iteration i
      belong to the pass, so they are taut when the pass's springs are. */
  lemma BendLastRowTaut(cfg: Config, pos: seq<Vec3>, i: nat)
    requires 2 <= cfg.rows && 2 <= cfg.cols && i + 2 < cfg.cols
    requires AllTaut(cfg.maths, cfg.cols, pos, BendLastRow(cfg.rows, cfg.cols - 2))
    ensures AllTaut(cfg.maths, cfg.cols, pos, BendLastRow(cfg.rows, i + 1))
  {
    forall l | l in BendLastRow(cfg.rows, i + 1)
      ensures Taut(cfg.maths, cfg.cols, pos, l)
    {
      BendLastRowMembers(cfg.rows, i + 1, l);
      BendLastRowMembers(cfg.rows, cfg.cols - 2, l);
    }
  }

  /** The last-row bend pass: the horizontal bend springs of row m-1. */
  method BendLastRowPass(cfg: Config, pos: seq<Vec3>, vel: seq<Vec3>, f: seq<Vec3>) returns (r: seq<Vec3>)
    requires PassReady(cfg, pos, vel, f)
    requires AllTaut(cfg.maths, cfg.cols, pos, BendLastRow(cfg.rows, cfg.cols - 2))
    ensures r == Scatter(cfg.maths, cfg.springs, cfg.cols, pos, vel, f, BendLastRow(cfg.rows, cfg.cols - 2))
  {
    r := f;
    for i := 0 to cfg.cols - 2
      invariant |r| == |f|
      invariant AllTaut(cfg.maths, cfg.cols, pos, BendLastRow(cfg.rows, i))
      invariant r == Scatter(cfg.maths, cfg.springs, cfg.cols, pos, vel, f, BendLastRow(cfg.rows, i))
    {
      BendLastRowTaut(cfg, pos, i);
      r := BendLastRowSpring(cfg, pos, vel, f, r, i);
    }
  }

  /** The spring of iteration j of the last-column bend pass, from (j, n-1)
      to (j+2, n-1), extends the pass. */
  lemma BendLastColLink(cfg: Config, pos: seq<Vec3>, j: nat)
    requires 2 <= cfg.rows && 2 <= cfg.cols && |pos| == cfg.rows * cfg.cols
    requires j + 2 < cfg.rows
    ensures var m, n := cfg.rows, cfg.cols;
      var l := Link(Bend, Cell(j, n - 1), Cell(j + 2, n - 1));
      BendLastCol(n, j + 1) == BendLastCol(n, j) + [l] &&
      IndexOf(n, l.from) == Idx(n, j, n - 1) && IndexOf(n, l.to) == Idx(n, j + 2, n - 1) && Idx(n, j, n - 1) != Idx(n, j + 2, n - 1) &&
      Idx(n, j, n - 1) < |pos| && Idx(n, j + 2, n - 1) < |pos|
  {
    var m, n := cfg.rows, cfg.cols;
    IdxBound(m, n, j + 2, n - 1);
  }

  /** The two writes of iteration j, in the order the source makes them,
      extend the pass's scatter by the iteration's spring. */
  lemma BendLastColStep(cfg: Config, pos: seq<Vec3>, vel: seq<Vec3>, f: seq<Vec3>, r: seq<Vec3>, j: nat, r1: seq<Vec3>, r2: seq<Vec3>)
    requires PassReady(cfg, pos, vel, f) && |r| == |f| && j + 2 < cfg.rows
    requires AllTaut(cfg.maths, cfg.cols, pos, BendLastCol(cfg.cols, j + 1))
    requires r == Scatter(cfg.maths, cfg.springs, cfg.cols, pos, vel, f, BendLastCol(cfg.cols, j))
    requires Taut(cfg.maths, cfg.cols, pos, Link(Bend, Cell(j, cfg.cols - 1), Cell(j + 2, cfg.cols - 1)))
    requires var n := cfg.cols;
      var a, b := Idx(n, j, n - 1), Idx(n, j + 2, n - 1);
      var F := LinkForce(cfg.maths, cfg.springs, n, pos, vel, Link(Bend, Cell(j, n - 1), Cell(j + 2, n - 1)));
      a < |r| && b < |r| && r1 == r[b := Sub(r[b], F)] && r2 == r1[a := Add(r1[a], F)]
    ensures r2 == Scatter(cfg.maths, cfg.springs, cfg.cols, pos, vel, f, BendLastCol(cfg.cols, j + 1))
  {
    var n := cfg.cols;
    var l := Link(Bend, Cell(j, n - 1), Cell(j + 2, n - 1));
    BendLastColLink(cfg, pos, j);
    ScatterSnoc(cfg.maths, cfg.springs, n, pos, vel, f, BendLastCol(n, j), l);
    ApplyFarEndFirst(r, Idx(n, j, n - 1), Idx(n, j + 2, n - 1), LinkForce(cfg.maths, cfg.springs, n, pos, vel, l));
  }

  /** Iteration j of the last-column bend pass: the bend spring from
      (j, n-1) to (j+2, n-1), far end first. */
  method BendLastColSpring(cfg: Config, pos: seq<Vec3>, vel: seq<Vec3>, f: seq<Vec3>, r: seq<Vec3>, j: nat) returns (r': seq<Vec3>)
    requires PassReady(cfg, pos, vel, f) && |r| == |f| && j + 2 < cfg.rows
    requires AllTaut(cfg.maths, cfg.cols, pos, BendLastCol(cfg.cols, j + 1))
    requires r == Scatter(cfg.maths, cfg.springs, cfg.cols, pos, vel, f, BendLastCol(cfg.cols, j))
    ensures r' == Scatter(cfg.maths, cfg.springs, cfg.cols, pos, vel, f, BendLastCol(cfg.cols, j + 1))
  {
    var n := cfg.cols;
    var l := Link(Bend, Cell(j, n - 1), Cell(j + 2, n - 1));
    BendLastColLink(cfg, pos, j);
    assert l in BendLastCol(n, j + 1);
    var a, b := Idx(n, j, n - 1), Idx(n, j + 2, n - 1);
    var F := LinkForce(cfg.maths, cfg.springs, n, pos, vel, l);
    var r1 := r[b := Sub(r[b], F)];
    r' := r1[a := Add(r1[a], F)];
    BendLastColStep(cfg, pos, vel, f, r, j, r1, r');
  }

  /** The springs of the last-column bend pass up to iteration j
      belong to the pass, so they are taut when the pass's springs are. */
  lemma BendLastColTaut(cfg: Config, pos: seq<Vec3>, j: nat)
    requires 2 <= cfg.rows && 2 <= cfg.cols && j + 2 < cfg.rows
    requires AllTaut(cfg.maths, cfg.cols, pos, BendLastCol(cfg.cols, cfg.rows - 2))
    ensures AllTaut(cfg.maths, cfg.cols, pos, BendLastCol(cfg.cols, j + 1))
  {
    forall l | l in BendLastCol(cfg.cols, j + 1)
      ensures Taut(cfg.maths, cfg.cols, pos, l)
    {
      BendLastColMembers(cfg.cols, j + 1, l);
      BendLastColMembers(cfg.cols, cfg.rows - 2, l);
    }
  }

  /** The last-column bend pass: the vertical bend springs of column n-1. */
  method BendLastColPass(cfg: Config, pos: seq<Vec3>, vel: seq<Vec3>, f: seq<Vec3>) returns (r: seq<Vec3>)
    requires PassReady(cfg, pos, vel, f)
    requires AllTaut(cfg.maths, cfg.cols, pos, BendLastCol(cfg.cols, cfg.rows - 2))
    ensures r == Scatter(cfg.maths, cfg.springs, cfg.cols, pos, vel, f, BendLastCol(cfg.cols, cfg.rows - 2))
  {
    r := f;
    for j := 0 to cfg.rows - 2
      invariant |r| == |f|
      invariant AllTaut(cfg.maths, cfg.cols, pos, BendLastCol(cfg.cols, j))
      invariant r == Scatter(cfg.maths, cfg.springs, cfg.cols, pos, vel, f, BendLastCol(cfg.cols, j))
    {
      BendLastColTaut(cfg, pos, j);
      r := BendLastColSpring(cfg, pos, vel, f, r, j);
    }
  }

  /** The spring of iteration i of the last-row short pass, from (m-1, i) to
      (m-1, i+1), extends the pass. */
  lemma ShortLastRowLink(cfg: Config, pos: seq<Vec3>, i: nat)
    requires 2 <= cfg.rows && 2 <= cfg.cols && |pos| == cfg.rows * cfg.cols
    requires i + 1 < cfg.cols
    ensures var m, n := cfg.rows, cfg.cols;
      var l := Link(Structural, Cell(m - 1, i), Cell(m - 1, i + 1));
      ShortLastRow(m, i + 1) == ShortLastRow(m, i) + [l] &&
      IndexOf(n, l.from) == Idx(n, m - 1, i) && IndexOf(n, l.to) == Idx(n, m - 1, i + 1) && Idx(n, m - 1, i) != Idx(n, m - 1, i + 1) &&
      Idx(n, m - 1, i) < |pos| && Idx(n, m - 1, i + 1) < |pos|
  {
    var m, n := cfg.rows, cfg.cols;
    IdxBound(m, n, m - 1, i + 1);
  }

  /** The two writes of iteration i, in the order the source makes them,
      extend the pass's scatter by the iteration's spring. */
  lemma ShortLastRowStep(cfg: Config, pos: seq<Vec3>, vel: seq<Vec3>, f: seq<Vec3>, r: seq<Vec3>, i: nat, r1: seq<Vec3>, r2: seq<Vec3>)
    requires PassReady(cfg, pos, vel, f) && |r| == |f| && i + 1 < cfg.cols
    requires AllTaut(cfg.maths, cfg.cols, pos, ShortLastRow(cfg.rows, i + 1))
    requires r == Scatter(cfg.maths, cfg.springs, cfg.cols, pos, vel, f, ShortLastRow(cfg.rows, i))
    requires Taut(cfg.maths, cfg.cols, pos, Link(Structural, Cell(cfg.rows - 1, i), Cell(cfg.rows - 1, i + 1)))
    requires var m, n := cfg.rows, cfg.cols;
      var a, b := Idx(n, m - 1, i), Idx(n, m - 1, i + 1);
      var F := LinkForce(cfg.maths, cfg.springs, n, pos, vel, Link(Structural, Cell(m - 1, i), Cell(m - 1, i + 1)));
      a < |r| && b < |r| && r1 == r[b := Sub(r[b], F)] && r2 == r1[a := Add(r1[a], F)]
    ensures r2 == Scatter(cfg.maths, cfg.springs, cfg.cols, pos, vel, f, ShortLastRow(cfg.rows, i + 1))
  {
    var m, n := cfg.rows, cfg.cols;
    var l := Link(Structural, Cell(m - 1, i), Cell(m - 1, i + 1));
    ShortLastRowLink(cfg, pos, i);
    ScatterSnoc(cfg.maths, cfg.springs, n, pos, vel, f, ShortLastRow(m, i), l);
    ApplyFarEndFirst(r, Idx(n, m - 1, i), Idx(n, m - 1, i + 1), LinkForce(cfg.maths, cfg.springs, n, pos, vel, l));
  }

  /** Iteration i of the last-row short pass: the structural spring from
      (m-1, i) to (m-1, i+1), far end first. */
  method ShortLastRowSpring(cfg: Config, pos: seq<Vec3>, vel: seq<Vec3>, f: seq<Vec3>, r: seq<Vec3>, i: nat) returns (r': seq<Vec3>)
    requires PassReady(cfg, pos, vel, f) && |r| == |f| && i + 1 < cfg.cols
    requires AllTaut(cfg.maths, cfg.cols, pos, ShortLastRow(cfg.rows, i + 1))
    requires r == Scatter(cfg.maths, cfg.springs, cfg.cols, pos, vel, f, ShortLastRow(cfg.rows, i))
    ensures r' == Scatter(cfg.maths, cfg.springs, cfg.cols, pos, vel, f, ShortLastRow(cfg.rows, i + 1))
  {
    var m, n := cfg.rows, cfg.cols;
    var l := Link(Structural, Cell(m - 1, i), Cell(m - 1, i + 1));
    ShortLastRowLink(cfg, pos, i);
    assert l in ShortLastRow(m, i + 1);
    var a, b := Idx(n, m - 1, i), Idx(n, m - 1, i + 1);
    var F := LinkForce(cfg.maths, cfg.springs, n, pos, vel, l);
    var r1 := r[b := Sub(r[b], F)];
    r' := r1[a := Add(r1[a], F)];
    ShortLastRowStep(cfg, pos, vel, f, r, i, r1, r');
  }

  /** The springs of the last-row short pass up to iteration i
      belong to the pass, so they are taut when the pass's springs are. */
  lemma ShortLastRowTaut(cfg: Config, pos: seq<Vec3>, i: nat)
    requires 2 <= cfg.rows && 2 <= cfg.cols && i + 1 < cfg.cols
    requires AllTaut(cfg.maths, cfg.cols, pos, ShortLastRow(cfg.rows, cfg.cols - 1))
    ensures AllTaut(cfg.maths, cfg.cols, pos, ShortLastRow(cfg.rows, i + 1))
  {
    forall l | l in ShortLastRow(cfg.rows, i + 1)
      ensures Taut(cfg.maths, cfg.cols, pos, l)
    {
      ShortLastRowMembers(cfg.rows, i + 1, l);
      ShortLastRowMembers(cfg.rows, cfg.cols - 1, l);
    }
  }

  /** The last-row short pass: the horizontal structural springs of row m-1. */
  method ShortLastRowPass(cfg: Config, pos: seq<Vec3>, vel: seq<Vec3>, f: seq<Vec3>) returns (r: seq<Vec3>)
    requires PassReady(cfg, pos, vel, f)
    requires AllTaut(cfg.maths, cfg.cols, pos, ShortLastRow(cfg.rows, cfg.cols - 1))
    ensures r == Scatter(cfg.maths, cfg.springs, cfg.cols, pos, vel, f, ShortLastRow(cfg.rows, cfg.cols - 1))
  {
    r := f;
    for i := 0 to cfg.cols - 1
      invariant |r| == |f|
      invariant AllTaut(cfg.maths, cfg.cols, pos, ShortLastRow(cfg.rows, i))
      invariant r == Scatter(cfg.maths, cfg.springs, cfg.cols, pos, vel, f, ShortLastRow(cfg.rows, i))
    {
      ShortLastRowTaut(cfg, pos, i);
      r := ShortLastRowSpring(cfg, pos, vel, f, r, i);
    }
  }

  /** The spring of iteration j of the last-column short pass, from (j, n-1)
      to (j+1, n-1), extends the pass. */
  lemma ShortLastColLink(cfg: Config, pos: seq<Vec3>, j: nat)
    requires 2 <= cfg.rows && 2 <= cfg.cols && |pos| == cfg.rows * cfg.cols
    requires j + 1 < cfg.rows
    ensures var m, n := cfg.rows, cfg.cols;
      var l := Link(Structural, Cell(j, n - 1), Cell(j + 1, n - 1));
      ShortLastCol(n, j + 1) == ShortLastCol(n, j) + [l] &&
      IndexOf(n, l.from) == Idx(n, j, n - 1) && IndexOf(n, l.to) == Idx(n, j + 1, n - 1) && Idx(n, j, n - 1) != Idx(n, j + 1, n - 1) &&
      Idx(n, j, n - 1) < |pos| && Idx(n, j + 1, n - 1) < |pos|
  {
    var m, n := cfg.rows, cfg.cols;
    IdxBound(m, n, j + 1, n - 1);
  }

  /** The two writes of iteration j, in the order the source makes them,
      extend the pass's scatter by the iteration's spring. */
  lemma ShortLastColStep(cfg: Config, pos: seq<Vec3>, vel: seq<Vec3>, f: seq<Vec3>, r: seq<Vec3>, j: nat, r1: seq<Vec3>, r2: seq<Vec3>)
    requires PassReady(cfg, pos, vel, f) && |r| == |f| && j + 1 < cfg.rows
    requires AllTaut(cfg.maths, cfg.cols, pos, ShortLastCol(cfg.cols, j + 1))
    requires r == Scatter(cfg.maths, cfg.springs, cfg.cols, pos, vel, f, ShortLastCol(cfg.cols, j))
    requires Taut(cfg.maths, cfg.cols, pos, Link(Structural, Cell(j, cfg.cols - 1), Cell(j + 1, cfg.cols - 1)))
    requires var n := cfg.cols;
      var a, b := Idx(n, j, n - 1), Idx(n, j + 1, n - 1);
      var F := LinkForce(cfg.maths, cfg.springs, n, pos, vel, Link(Structural, Cell(j, n - 1), Cell(j + 1, n - 1)));
      a < |r| && b < |r| && r1 == r[a := Add(r[a], F)] && r2 == r1[b := Sub(r1[b], F)]
    ensures r2 == Scatter(cfg.maths, cfg.springs, cfg.cols, pos, vel, f, ShortLastCol(cfg.cols, j + 1))
  {
    var n := cfg.cols;
    var l := Link(Structural, Cell(j, n - 1), Cell(j + 1, n - 1));
    ShortLastColLink(cfg, pos, j);
    ScatterSnoc(cfg.maths, cfg.springs, n, pos, vel, f, ShortLastCol(n, j), l);
  }

  /** Iteration j of the last-column short pass: the structural spring from
      (j, n-1) to (j+1, n-1); unlike the other single-spring passes, the
      source adds at the near end first. */
  method ShortLastColSpring(cfg: Config, pos: seq<Vec3>, vel: seq<Vec3>, f: seq<Vec3>, r: seq<Vec3>, j: nat) returns (r': seq<Vec3>)
    requires PassReady(cfg, pos, vel, f) && |r| == |f| && j + 1 < cfg.rows
    requires AllTaut(cfg.maths, cfg.cols, pos, ShortLastCol(cfg.cols, j + 1))
    requires r == Scatter(cfg.maths, cfg.springs, cfg.cols, pos, vel, f, ShortLastCol(cfg.cols, j))
    ensures r' == Scatter(cfg.maths, cfg.springs, cfg.cols, pos, vel, f, ShortLastCol(cfg.cols, j + 1))
  {
    var n := cfg.cols;
    var l := Link(Structural, Cell(j, n - 1), Cell(j + 1, n - 1));
    ShortLastColLink(cfg, pos, j);
    assert l in ShortLastCol(n, j + 1);
    var a, b := Idx(n, j, n - 1), Idx(n, j + 1, n - 1);
    var F := LinkForce(cfg.maths, cfg.springs, n, pos, vel, l);
    var r1 := r[a := Add(r[a], F)];
    r' := r1[b := Sub(r1[b], F)];
    ShortLastColStep(cfg, pos, vel, f, r, j, r1, r');
  }

  /** The springs of the last-column short pass up to iteration j
      belong to the pass, so they are taut when the pass's springs are. */
  lemma ShortLastColTaut(cfg: Config, pos: seq<Vec3>, j: nat)
    requires 2 <= cfg.rows && 2 <= cfg.cols && j + 1 < cfg.rows
    requires AllTaut(cfg.maths, cfg.cols, pos, ShortLastCol(cfg.cols, cfg.rows - 1))
    ensures AllTaut(cfg.maths, cfg.cols, pos, ShortLastCol(cfg.cols, j + 1))
  {
    forall l | l in ShortLastCol(cfg.cols, j + 1)
      ensures Taut(cfg.maths, cfg.cols, pos, l)
    {
      ShortLastColMembers(cfg.cols, j + 1, l);
      ShortLastColMembers(cfg.cols, cfg.rows - 1, l);
    }
  }

  /** The last-column short pass: the vertical structural springs of column
      n-1. */
  method ShortLastColPass(cfg: Config, pos: seq<Vec3>, vel: seq<Vec3>, f: seq<Vec3>) returns (r: seq<Vec3>)
    requires PassReady(cfg, pos, vel, f)
    requires AllTaut(cfg.maths, cfg.cols, pos, ShortLastCol(cfg.cols, cfg.rows - 1))
    ensures r == Scatter(cfg.maths, cfg.springs, cfg.cols, pos, vel, f, ShortLastCol(cfg.cols, cfg.rows - 1))
  {
    r := f;
    for j := 0 to cfg.rows - 1
      invariant |r| == |f|
      invariant AllTaut(cfg.maths, cfg.cols, pos, ShortLastCol(cfg.cols, j))
      invariant r == Scatter(cfg.maths, cfg.springs, cfg.cols, pos, vel, f, ShortLastCol(cfg.cols, j))
    {
      ShortLastColTaut(cfg, pos, j);
      r := ShortLastColSpring(cfg, pos, vel, f, r, j);
    }
  }

  // ----- the spring phases -----

  /** Each of the three bend passes visits only taut springs when all of
      them together do. */
  lemma BendPassesTaut(cfg: Config, pos: seq<Vec3>)
    requires 2 <= cfg.rows && 2 <= cfg.cols && AllTaut(cfg.maths, cfg.cols, pos, BendPasses(cfg.rows, cfg.cols))
    ensures AllTaut(cfg.maths, cfg.cols, pos, BendMain(cfg.rows - 2, cfg.cols - 2))
    ensures AllTaut(cfg.maths, cfg.cols, pos, BendLastRow(cfg.rows, cfg.cols - 2))
    ensures AllTaut(cfg.maths, cfg.cols, pos, BendLastCol(cfg.cols, cfg.rows - 2))
  {
    AllTautParts(cfg.maths, cfg.cols, pos, BendMain(cfg.rows - 2, cfg.cols - 2), BendLastRow(cfg.rows, cfg.cols - 2), BendLastCol(cfg.cols, cfg.rows - 2));
  }

  /** The three bend passes applied in turn yield the bend forces. */
  lemma BendForcesSplit(cfg: Config, pos: seq<Vec3>, vel: seq<Vec3>, f: seq<Vec3>, r1: seq<Vec3>, r2: seq<Vec3>, r: seq<Vec3>)
    requires PassReady(cfg, pos, vel, f) && AllTaut(cfg.maths, cfg.cols, pos, BendPasses(cfg.rows, cfg.cols))
    requires AllTaut(cfg.maths, cfg.cols, pos, BendMain(cfg.rows - 2, cfg.cols - 2)) && r1 == Scatter(cfg.maths, cfg.springs, cfg.cols, pos, vel, f, BendMain(cfg.rows - 2, cfg.cols - 2))
    requires AllTaut(cfg.maths, cfg.cols, pos, BendLastRow(cfg.rows, cfg.cols - 2)) && r2 == Scatter(cfg.maths, cfg.springs, cfg.cols, pos, vel, r1, BendLastRow(cfg.rows, cfg.cols - 2))
    requires AllTaut(cfg.maths, cfg.cols, pos, BendLastCol(cfg.cols, cfg.rows - 2)) && r == Scatter(cfg.maths, cfg.springs, cfg.cols, pos, vel, r2, BendLastCol(cfg.cols, cfg.rows - 2))
    ensures r == BendForces(cfg, pos, vel, f)
  {
    ScatterThree(cfg.maths, cfg.springs, cfg.cols, pos, vel, f, BendPasses(cfg.rows, cfg.cols), BendMain(cfg.rows - 2, cfg.cols - 2), BendLastRow(cfg.rows, cfg.cols - 2), BendLastCol(cfg.cols, cfg.rows - 2));
  }

  /** The three bend passes in source order: main, last row, last column. */
  method BendPhase(cfg: Config, pos: seq<Vec3>, vel: seq<Vec3>, f: seq<Vec3>) returns (r: seq<Vec3>)
    requires PassReady(cfg, pos, vel, f) && AllTaut(cfg.maths, cfg.cols, pos, BendPasses(cfg.rows, cfg.cols))
    ensures r == BendForces(cfg, pos, vel, f)
  {
    BendPassesTaut(cfg, pos);
    var r1 := BendMainPass(cfg, pos, vel, f);
    var r2 := BendLastRowPass(cfg, pos, vel, r1);
    r := BendLastColPass(cfg, pos, vel, r2);
    BendForcesSplit(cfg, pos, vel, f, r1, r2, r);
  }

  /** Each of the three structural-and-shear passes visits only taut springs when all of
      them together do. */
  lemma ShortPassesTaut(cfg: Config, pos: seq<Vec3>)
    requires 2 <= cfg.rows && 2 <= cfg.cols && AllTaut(cfg.maths, cfg.cols, pos, ShortPasses(cfg.rows, cfg.cols))
    ensures AllTaut(cfg.maths, cfg.cols, pos, ShortMain(cfg.rows - 1, cfg.cols - 1))
    ensures AllTaut(cfg.maths, cfg.cols, pos, ShortLastRow(cfg.rows, cfg.cols - 1))
    ensures AllTaut(cfg.maths, cfg.cols, pos, ShortLastCol(cfg.cols, cfg.rows - 1))
  {
    AllTautParts(cfg.maths, cfg.cols, pos, ShortMain(cfg.rows - 1, cfg.cols - 1), ShortLastRow(cfg.rows, cfg.cols - 1), ShortLastCol(cfg.cols, cfg.rows - 1));
  }

  /** The three short passes applied in turn yield the short forces. */
  lemma ShortForcesSplit(cfg: Config, pos: seq<Vec3>, vel: seq<Vec3>, f: seq<Vec3>, r1: seq<Vec3>, r2: seq<Vec3>, r: seq<Vec3>)
    requires PassReady(cfg, pos, vel, f) && AllTaut(cfg.maths, cfg.cols, pos, ShortPasses(cfg.rows, cfg.cols))
    requires AllTaut(cfg.maths, cfg.cols, pos, ShortMain(cfg.rows - 1, cfg.cols - 1)) && r1 == Scatter(cfg.maths, cfg.springs, cfg.cols, pos, vel, f, ShortMain(cfg.rows - 1, cfg.cols - 1))
    requires AllTaut(cfg.maths, cfg.cols, pos, ShortLastRow(cfg.rows, cfg.cols - 1)) && r2 == Scatter(cfg.maths, cfg.springs, cfg.cols, pos, vel, r1, ShortLastRow(cfg.rows, cfg.cols - 1))
    requires AllTaut(cfg.maths, cfg.cols, pos, ShortLastCol(cfg.cols, cfg.rows - 1)) && r == Scatter(cfg.maths, cfg.springs, cfg.cols, pos, vel, r2, ShortLastCol(cfg.cols, cfg.rows - 1))
    ensures r == ShortForces(cfg, pos, vel, f)
  {
    ScatterThree(cfg.maths, cfg.springs, cfg.cols, pos, vel, f, ShortPasses(cfg.rows, cfg.cols), ShortMain(cfg.rows - 1, cfg.cols - 1), ShortLastRow(cfg.rows, cfg.cols - 1), ShortLastCol(cfg.cols, cfg.rows - 1));
  }

  /** The three structural-and-shear passes in source order: main, last
      row, last column. */
  method ShortPhase(cfg: Config, pos: seq<Vec3>, vel: seq<Vec3>, f: seq<Vec3>) returns (r: seq<Vec3>)
    requires PassReady(cfg, pos, vel, f) && AllTaut(cfg.maths, cfg.cols, pos, ShortPasses(cfg.rows, cfg.cols))
    ensures r == ShortForces(cfg, pos, vel, f)
  {
    ShortPassesTaut(cfg, pos);
    var r1 := ShortMainPass(cfg, pos, vel, f);
    var r2 := ShortLastRowPass(cfg, pos, vel, r1);
    r := ShortLastColPass(cfg, pos, vel, r2);
    ShortForcesSplit(cfg, pos, vel, f, r1, r2, r);
  }

  // ----- integration -----

  /** What the integration loop needs: non-zero mass and time step, no more
      rows than columns, and co-sized buffers. */
  predicate IntegrateReady(cfg: Config, cur: seq<Vec3>, force: seq<Vec3>, b0: Buffers) {
    cfg.mass != 0.0 && cfg.dt != 0.0 && 2 <= cfg.rows <= cfg.cols &&
    |cur| == cfg.rows * cfg.cols && |force| == |cur| && |b0.prev| == |cur| && |b0.vel| == |cur|
  }

  /** Every iteration of a list of grid vertices writes and reads inside the
      buffers. */
  lemma GridCellsFit(cfg: Config, cells: seq<Cell>)
    requires 2 <= cfg.rows <= cfg.cols
    requires forall c :: c in cells ==> InGrid(cfg.rows, cfg.cols, c)
    ensures forall x :: 0 <= x < |cells| ==> Fits(cfg, cfg.rows * cfg.cols, cells[x])
  {
    forall x | 0 <= x < |cells| ensures Fits(cfg, cfg.rows * cfg.cols, cells[x]) {
      assert cells[x] in cells;
      WriteIdxInRange(cfg.rows, cfg.cols, cells[x]);
    }
  }

  /** The iterations of rows 0 .. j-1 and of columns 1 .. i-1 of row j are
      grid vertices. */
  lemma PrefixInGrid(m: nat, n: nat, j: nat, i: nat)
    requires j < m && i <= n
    ensures forall c :: c in IntRows(j, n) + IntRow(j, i) ==> InGrid(m, n, c)
  {
    IntRowsCells(j, n);
    IntRowCells(j, i);
  }

  /** The buffers once the integration loop has done rows 0 .. j-1. */
  function IntegratedRows(cfg: Config, cur: seq<Vec3>, force: seq<Vec3>, b0: Buffers, j: nat): Buffers
    requires IntegrateReady(cfg, cur, force, b0) && j <= cfg.rows
  {
    IntRowsCells(j, cfg.cols);
    GridCellsFit(cfg, IntRows(j, cfg.cols));
    Integrate(cfg, cur, force, b0, IntRows(j, cfg.cols))
  }

  /** The buffers once the integration loop has done rows 0 .. j-1 and
      columns 1 .. i-1 of row j. */
  function IntegratedUpTo(cfg: Config, cur: seq<Vec3>, force: seq<Vec3>, b0: Buffers, j: nat, i: nat): Buffers
    requires IntegrateReady(cfg, cur, force, b0) && j < cfg.rows && 1 <= i <= cfg.cols
  {
    PrefixInGrid(cfg.rows, cfg.cols, j, i);
    GridCellsFit(cfg, IntRows(j, cfg.cols) + IntRow(j, i));
    Integrate(cfg, cur, force, b0, IntRows(j, cfg.cols) + IntRow(j, i))
  }

  /** Iteration (j, i) extends the loop by one cell. */
  lemma IntegratedNext(cfg: Config, cur: seq<Vec3>, force: seq<Vec3>, b0: Buffers, j: nat, i: nat)
    requires IntegrateReady(cfg, cur, force, b0) && j < cfg.rows && 1 <= i < cfg.cols
    ensures Fits(cfg, |cur|, Cell(j, i))
    ensures IntegratedUpTo(cfg, cur, force, b0, j, i + 1) ==
            IntegrateCell(cfg, cur, force, IntegratedUpTo(cfg, cur, force, b0, j, i), Cell(j, i))
  {
    var cells := IntRows(j, cfg.cols) + IntRow(j, i);
    var cells' := IntRows(j, cfg.cols) + IntRow(j, i + 1);
    WriteIdxInRange(cfg.rows, cfg.cols, Cell(j, i));
    assert cells' == cells + [Cell(j, i)];
    assert cells'[..|cells'| - 1] == cells;
  }

  /** A row starts where the previous rows ended ... */
  lemma IntegratedRowStart(cfg: Config, cur: seq<Vec3>, force: seq<Vec3>, b0: Buffers, j: nat)
    requires IntegrateReady(cfg, cur, force, b0) && j < cfg.rows
    ensures IntegratedUpTo(cfg, cur, force, b0, j, 1) == IntegratedRows(cfg, cur, force, b0, j)
  {
    assert IntRows(j, cfg.cols) + IntRow(j, 1) == IntRows(j, cfg.cols);
  }

  /** ... and ends where the next rows start. */
  lemma IntegratedRowEnd(cfg: Config, cur: seq<Vec3>, force: seq<Vec3>, b0: Buffers, j: nat)
    requires IntegrateReady(cfg, cur, force, b0) && j < cfg.rows
    ensures IntegratedUpTo(cfg, cur, force, b0, j, cfg.cols) == IntegratedRows(cfg, cur, force, b0, j + 1)
  {
  }

  /** Iteration (j, i) of the integration loop: the new position of vertex
      j*n + i is written at j*m + i, and the velocity is read back from
      j*n + i. */
  method IntegrateVertex(cfg: Config, cur: seq<Vec3>, force: seq<Vec3>, b0: Buffers, b: Buffers, j: nat, i: nat)
    returns (b': Buffers)
    requires IntegrateReady(cfg, cur, force, b0) && j < cfg.rows && 1 <= i < cfg.cols
    requires b == IntegratedUpTo(cfg, cur, force, b0, j, i)
    ensures b' == IntegratedUpTo(cfg, cur, force, b0, j, i + 1)
  {
    IntegratedNext(cfg, cur, force, b0, j, i);
    var k, w := j * cfg.cols + i, j * cfg.rows + i;
    var prev := b.prev[w := NextPosition(cfg, cur[k], b.vel[k], force[k])];
    var vel := b.vel[k := Scale(1.0 / cfg.dt, Sub(prev[k], cur[k]))];
    b' := Buffers(prev, vel);
  }

  /** Row j of the integration loop, columns 1 .. n-1. */
  method IntegrateRow(cfg: Config, cur: seq<Vec3>, force: seq<Vec3>, b0: Buffers, b: Buffers, j: nat)
    returns (b': Buffers)
    requires IntegrateReady(cfg, cur, force, b0) && j < cfg.rows
    requires b == IntegratedRows(cfg, cur, force, b0, j)
    ensures b' == IntegratedRows(cfg, cur, force, b0, j + 1)
  {
    IntegratedRowStart(cfg, cur, force, b0, j);
    b' := b;
    for i := 1 to cfg.cols
      invariant b' == IntegratedUpTo(cfg, cur, force, b0, j, i)
    {
      b' := IntegrateVertex(cfg, cur, force, b0, b', j, i);
    }
    IntegratedRowEnd(cfg, cur, force, b0, j);
  }

  /** The integration loop over every row. */
  method IntegratePass(cfg: Config, cur: seq<Vec3>, force: seq<Vec3>, b0: Buffers) returns (b: Buffers)
    requires IntegrateReady(cfg, cur, force, b0)
    ensures b == IntegratedRows(cfg, cur, force, b0, cfg.rows)
  {
    b := b0;
    for j := 0 to cfg.rows
      invariant b == IntegratedRows(cfg, cur, force, b0, j)
    {
      b := IntegrateRow(cfg, cur, force, b0, b, j);
    }
  }

  // ----- tangent frames and normals -----

  /** The three per-vertex direction buffers the frame loop writes. */
  datatype Basis = Basis(tangents: seq<Vec3>, bitangents: seq<Vec3>, normals: seq<Vec3>)

  predicate BasisSized(cfg: Config, pos: seq<Vec3>, prior: Basis) {
    2 <= cfg.rows && 2 <= cfg.cols && |pos| == cfg.rows * cfg.cols &&
    |prior.tangents| == |pos| && |prior.bitangents| == |pos| && |prior.normals| == |pos|
  }

  /** The buffers once the frame loop is over. */
  function Recomputed(cfg: Config, pos: seq<Vec3>, prior: Basis): Basis
    requires BasisSized(cfg, pos, prior)
  {
    Basis(Tangents(cfg, pos, prior.tangents), Bitangents(cfg, pos, prior.bitangents),
          Normals(cfg, pos, prior.normals))
  }

  /** `cur` holds `target` below index k and `prior` from k on. */
  ghost predicate DoneBelow(prior: seq<Vec3>, target: seq<Vec3>, cur: seq<Vec3>, k: nat) {
    |prior| == |target| == |cur| && k <= |cur| &&
    forall x :: 0 <= x < |cur| ==> cur[x] == if x < k then target[x] else prior[x]
  }

  /** The frame loop has handled every vertex below index k. */
  ghost predicate BasisBelow(cfg: Config, pos: seq<Vec3>, prior: Basis, cur: Basis, k: nat)
    requires BasisSized(cfg, pos, prior)
  {
    var target := Recomputed(cfg, pos, prior);
    DoneBelow(prior.tangents, target.tangents, cur.tangents, k) &&
    DoneBelow(prior.bitangents, target.bitangents, cur.bitangents, k) &&
    DoneBelow(prior.normals, target.normals, cur.normals, k)
  }

  /** Vertex (j, i) with j < m-1 and i < n-1 is interior; its neighbour
      below is k + n. */
  lemma InteriorAt(m: nat, n: nat, j: nat, i: nat)
    requires j + 1 < m && i + 1 < n
    ensures Interior(m, n, j * n + i) && (j + 1) * n + i == j * n + i + n
  {
    RowSpan(m, n, j);
    RowSpan(m, n, j + 1);
    IdxDecode(n, j, i);
  }

  /** Skipping an index whose target is its prior value keeps the loop's
      invariant. */
  lemma DoneSkip(prior: seq<Vec3>, target: seq<Vec3>, cur: seq<Vec3>, k: nat)
    requires DoneBelow(prior, target, cur, k) && k < |cur| && target[k] == prior[k]
    ensures DoneBelow(prior, target, cur, k + 1)
  {
  }

  /** Writing the target value at index k extends the done prefix. */
  lemma DoneWrite(prior: seq<Vec3>, target: seq<Vec3>, cur: seq<Vec3>, k: nat, v: Vec3)
    requires DoneBelow(prior, target, cur, k) && k < |cur| && target[k] == v
    ensures DoneBelow(prior, target, cur[k := v], k + 1)
  {
  }

  /** Once every remaining index keeps its prior value, the loop is done. */
  lemma DoneTail(prior: seq<Vec3>, target: seq<Vec3>, cur: seq<Vec3>, k: nat)
    requires DoneBelow(prior, target, cur, k)
    requires forall x :: k <= x < |cur| ==> target[x] == prior[x]
    ensures cur == target
  {
  }

  /** The last vertex of a row is not interior, so the frame loop may skip
      it. */
  lemma BasisRowEnd(cfg: Config, pos: seq<Vec3>, prior: Basis, cur: Basis, j: nat)
    requires BasisSized(cfg, pos, prior) && j + 1 < cfg.rows
    requires BasisBelow(cfg, pos, prior, cur, j * cfg.cols + cfg.cols - 1)
    ensures BasisBelow(cfg, pos, prior, cur, (j + 1) * cfg.cols)
  {
    var k := j * cfg.cols + cfg.cols - 1;
    RowSpan(cfg.rows, cfg.cols, j);
    IdxDecode(cfg.cols, j, cfg.cols - 1);
    assert !Interior(cfg.rows, cfg.cols, k);
    var target := Recomputed(cfg, pos, prior);
    DoneSkip(prior.tangents, target.tangents, cur.tangents, k);
    DoneSkip(prior.bitangents, target.bitangents, cur.bitangents, k);
    DoneSkip(prior.normals, target.normals, cur.normals, k);
  }

  /** The last row has no row below it, so nothing from (m-1)*n on is
      interior. */
  lemma BasisLastRow(cfg: Config, pos: seq<Vec3>, prior: Basis, cur: Basis)
    requires BasisSized(cfg, pos, prior)
    requires BasisBelow(cfg, pos, prior, cur, (cfg.rows - 1) * cfg.cols)
    ensures cur == Recomputed(cfg, pos, prior)
  {
    var k := (cfg.rows - 1) * cfg.cols;
    RowSpan(cfg.rows, cfg.cols, cfg.rows - 1);
    assert forall x :: k <= x < |pos| ==> !Interior(cfg.rows, cfg.cols, x);
    var target := Recomputed(cfg, pos, prior);
    DoneTail(prior.tangents, target.tangents, cur.tangents, k);
    DoneTail(prior.bitangents, target.bitangents, cur.bitangents, k);
    DoneTail(prior.normals, target.normals, cur.normals, k);
  }

  /** Vertex (j, i) of the frame loop is interior, so its recomputed
      tangent, bitangent and normal are those the iteration writes. */
  lemma FrameTarget(cfg: Config, pos: seq<Vec3>, prior: Basis, j: nat, i: nat)
    requires BasisSized(cfg, pos, prior) && j + 1 < cfg.rows && i + 1 < cfg.cols
    ensures var k := j * cfg.cols + i;
      k + cfg.cols < |pos| &&
      var T, B := TangentAt(cfg.maths, cfg.cols, pos, k), BitangentAt(cfg.maths, pos, k);
      var target := Recomputed(cfg, pos, prior);
      target.tangents[k] == T && target.bitangents[k] == B && target.normals[k] == Cross(B, T)
  {
    InteriorAt(cfg.rows, cfg.cols, j, i);
  }

  /** Writing the tangent, bitangent and normal of iteration (j, i) extends
      the handled prefix by one vertex. */
  lemma FrameVertexStep(cfg: Config, pos: seq<Vec3>, prior: Basis, cur: Basis, j: nat, i: nat)
    requires BasisSized(cfg, pos, prior) && j + 1 < cfg.rows && i + 1 < cfg.cols
    requires BasisBelow(cfg, pos, prior, cur, j * cfg.cols + i)
    ensures var k := j * cfg.cols + i;
      k + cfg.cols < |pos| && |cur.tangents| == |cur.bitangents| == |cur.normals| == |pos| &&
      var T, B := TangentAt(cfg.maths, cfg.cols, pos, k), BitangentAt(cfg.maths, pos, k);
      BasisBelow(cfg, pos, prior, Basis(cur.tangents[k := T], cur.bitangents[k := B], cur.normals[k := Cross(B, T)]), k + 1)
  {
    var k := j * cfg.cols + i;
    FrameTarget(cfg, pos, prior, j, i);
    var T, B := TangentAt(cfg.maths, cfg.cols, pos, k), BitangentAt(cfg.maths, pos, k);
    var target := Recomputed(cfg, pos, prior);
    DoneWrite(prior.tangents, target.tangents, cur.tangents, k, T);
    DoneWrite(prior.bitangents, target.bitangents, cur.bitangents, k, B);
    DoneWrite(prior.normals, target.normals, cur.normals, k, Cross(B, T));
  }

  /** Iteration (j, i) of the frame loop: the tangent towards the vertex
      below, the bitangent towards the vertex to the right, and their cross
      product as the normal. */
  method FrameVertex(cfg: Config, pos: seq<Vec3>, prior: Basis, cur: Basis, j: nat, i: nat) returns (cur': Basis)
    requires BasisSized(cfg, pos, prior) && j + 1 < cfg.rows && i + 1 < cfg.cols
    requires BasisBelow(cfg, pos, prior, cur, j * cfg.cols + i)
    ensures BasisBelow(cfg, pos, prior, cur', j * cfg.cols + i + 1)
  {
    var k := j * cfg.cols + i;
    FrameVertexStep(cfg, pos, prior, cur, j, i);
    var t := cur.tangents[k := TangentAt(cfg.maths, cfg.cols, pos, k)];
    var b := cur.bitangents[k := BitangentAt(cfg.maths, pos, k)];
    var nr := cur.normals[k := Cross(b[k], t[k])];
    cur' := Basis(t, b, nr);
  }

  /** Row j of the frame loop, columns 0 .. n-2. */
  method FrameRow(cfg: Config, pos: seq<Vec3>, prior: Basis, cur: Basis, j: nat) returns (cur': Basis)
    requires BasisSized(cfg, pos, prior) && j + 1 < cfg.rows
    requires BasisBelow(cfg, pos, prior, cur, j * cfg.cols)
    ensures BasisBelow(cfg, pos, prior, cur', (j + 1) * cfg.cols)
  {
    cur' := cur;
    for i := 0 to cfg.cols - 1
      invariant BasisBelow(cfg, pos, prior, cur', j * cfg.cols + i)
    {
      cur' := FrameVertex(cfg, pos, prior, cur', j, i);
    }
    BasisRowEnd(cfg, pos, prior, cur', j);
  }

  /** The frame loop over rows 0 .. m-2. */
  method RecomputeFrames(cfg: Config, pos: seq<Vec3>, prior: Basis) returns (cur: Basis)
    requires BasisSized(cfg, pos, prior)
    ensures cur == Recomputed(cfg, pos, prior)
  {
    cur := prior;
    for j := 0 to cfg.rows - 1
      invariant BasisBelow(cfg, pos, prior, cur, j * cfg.cols)
    {
      cur := FrameRow(cfg, pos, prior, cur, j);
    }
    BasisLastRow(cfg, pos, prior, cur);
  }

  // ----- boundary normals -----

  /** The vertex whose normal x holds once the first copy loop has done
      rows 0 .. j-1: a last-column vertex of those rows takes its left
      neighbour's. */
  function ColumnSource(n: nat, j: nat, x: nat): (s: nat)
    requires 2 <= n
    ensures s <= x
  {
    if 0 < x && x % n == n - 1 && x < j * n then x - 1 else x
  }

  /** The vertex whose normal x holds once the second copy loop has done
      columns 0 .. i-1: a last-row vertex of those columns takes the normal
      above it. */
  function RowSource(m: nat, n: nat, i: nat, x: nat): (s: nat)
    requires 2 <= n
    ensures s <= x
  {
    if n <= x && (m - 1) * n <= x && x % n < i then x - n else x
  }

  /** `cur` is `prior` with every normal x taken from `source(x)`. */
  ghost predicate ColumnsCopied(n: nat, prior: seq<Vec3>, cur: seq<Vec3>, j: nat) {
    2 <= n && |cur| == |prior| && forall x :: 0 <= x < |cur| ==> cur[x] == prior[ColumnSource(n, j, x)]
  }

  ghost predicate RowsCopied(m: nat, n: nat, prior: seq<Vec3>, cur: seq<Vec3>, i: nat) {
    2 <= n && |cur| == |prior| && forall x :: 0 <= x < |cur| ==> cur[x] == prior[RowSource(m, n, i, x)]
  }

  /** Iteration j of the first copy loop. */
  method CopyColumnAt(m: nat, n: nat, prior: seq<Vec3>, cur: seq<Vec3>, j: nat) returns (cur': seq<Vec3>)
    requires 2 <= n && |prior| == m * n && j < m && ColumnsCopied(n, prior, cur, j)
    ensures ColumnsCopied(n, prior, cur', j + 1)
  {
    var k := j * n + n - 1;
    RowSpan(m, n, j);
    IdxDecode(n, j, n - 1);
    IdxDecode(n, j, n - 2);
    cur' := cur[k := cur[k - 1]];
    forall x | 0 <= x < |cur'| ensures cur'[x] == prior[ColumnSource(n, j + 1, x)] {
      if x != k && x % n == n - 1 && j * n <= x < j * n + n {
        LemmaFundamentalDivMod(x, n, j, x - j * n);
        assert false;
      }
    }
  }

  /** Iteration i of the second copy loop. */
  method CopyRowAt(m: nat, n: nat, prior: seq<Vec3>, cur: seq<Vec3>, i: nat) returns (cur': seq<Vec3>)
    requires 2 <= m && 2 <= n && |prior| == m * n && i < n && RowsCopied(m, n, prior, cur, i)
    ensures RowsCopied(m, n, prior, cur', i + 1)
  {
    var k := (m - 1) * n + i;
    RowSpan(m, n, m - 2);
    IdxBound(m, n, m - 1, i);
    IdxDecode(n, m - 1, i);
    IdxDecode(n, m - 2, i);
    cur' := cur[k := cur[(m - 2) * n + i]];
    forall x | 0 <= x < |cur'| ensures cur'[x] == prior[RowSource(m, n, i + 1, x)] {
      if x != k && (m - 1) * n <= x < m * n && x % n == i {
        LemmaFundamentalDivMod(x, n, m - 1, x - (m - 1) * n);
        assert false;
      }
    }
  }

  /** After both loops, every normal comes from the vertex BoundarySource
      names. */
  lemma CopiedSourceAt(m: nat, n: nat, x: nat)
    requires 2 <= m && 2 <= n && x < m * n
    ensures ColumnSource(n, m, RowSource(m, n, n, x)) == SourceIndex(m, n, x)
  {
    IndexCell(m, n, x);
    CopiedSourceOf(m, n, x / n, x % n);
  }

  /** The same, for vertex (r, c). */
  lemma CopiedSourceOf(m: nat, n: nat, r: nat, c: nat)
    requires 2 <= m && 2 <= n && r < m && c < n
    ensures ColumnSource(n, m, RowSource(m, n, n, Idx(n, r, c))) == IndexOf(n, BoundarySource(m, n, r, c))
  {
    RowSpan(m, n, m - 2);
    IdxDecode(n, r, c);
    if r == m - 1 {
      MulMono(1, m - 1, n);
      IdxDecode(n, m - 2, c);
      assert RowSource(m, n, n, Idx(n, r, c)) == Idx(n, m - 2, c);
    } else {
      RowSpan(m, n, r);
      MulMono(r + 1, m - 1, n);
      assert RowSource(m, n, n, Idx(n, r, c)) == Idx(n, r, c);
    }
  }

  /** The first copy loop: each row's last-column normal takes its left
      neighbour's. */
  method CopyLastColumn(m: nat, n: nat, normals: seq<Vec3>) returns (r: seq<Vec3>)
    requires 2 <= n && |normals| == m * n
    ensures ColumnsCopied(n, normals, r, m)
  {
    r := normals;
    for j := 0 to m
      invariant ColumnsCopied(n, normals, r, j)
    {
      r := CopyColumnAt(m, n, normals, r, j);
    }
  }

  /** The second copy loop: each last-row normal takes the one above it. */
  method CopyLastRow(m: nat, n: nat, normals: seq<Vec3>) returns (r: seq<Vec3>)
    requires 2 <= m && 2 <= n && |normals| == m * n
    ensures RowsCopied(m, n, normals, r, n)
  {
    r := normals;
    for i := 0 to n
      invariant RowsCopied(m, n, normals, r, i)
    {
      r := CopyRowAt(m, n, normals, r, i);
    }
  }

  /** The two loops in turn perform the boundary copy. */
  lemma CopiesCompose(m: nat, n: nat, normals: seq<Vec3>, mid: seq<Vec3>, r: seq<Vec3>)
    requires 2 <= m && 2 <= n && |normals| == m * n
    requires ColumnsCopied(n, normals, mid, m) && RowsCopied(m, n, mid, r, n)
    ensures r == CopyBoundary(m, n, normals)
  {
    forall x | 0 <= x < |r| ensures r[x] == CopyBoundary(m, n, normals)[x] {
      CopiedSourceAt(m, n, x);
    }
  }

  /** Both copy loops: the last column takes column n-2, then the last row
      takes row m-2. */
  method CopyBoundaryNormals(m: nat, n: nat, normals: seq<Vec3>) returns (r: seq<Vec3>)
    requires 2 <= m && 2 <= n && |normals| == m * n
    ensures r == CopyBoundary(m, n, normals)
  {
    var mid := CopyLastColumn(m, n, normals);
    r := CopyLastRow(m, n, mid);
    CopiesCompose(m, n, normals, mid, r);
  }

  // ----- the whole step -----

  /** The buffers the update leaves after integration, the frame loop, the
      boundary copy and the swap are the Advance of the accumulated force. */
  lemma AdvanceComposes(cfg: Config, fr: Frame, force: seq<Vec3>, b: Buffers, basis: Basis, normals: seq<Vec3>)
    requires Sized(cfg, fr) && |force| == cfg.rows * cfg.cols
    requires b == IntegratedRows(cfg, fr.currPos, force, Buffers(fr.prevPos, fr.velocity), cfg.rows)
    requires basis == Recomputed(cfg, fr.currPos, Basis(fr.tangents, fr.bitangents, fr.normals))
    requires normals == CopyBoundary(cfg.rows, cfg.cols, basis.normals)
    ensures Advance(cfg, fr, force) == Frame(fr.currPos, b.prev, b.vel, normals, basis.tangents, basis.bitangents, force)
  {
  }

  /** The force phases in source order accumulate the step's force. */
  lemma ForcePhasesCompose(cfg: Config, fr: Frame, wind: Vec3, reset: seq<Vec3>, external: seq<Vec3>, bent: seq<Vec3>)
    requires StepReady(cfg, fr)
    requires reset == Zeros(cfg.rows * cfg.cols)
    requires external == WithExternal(cfg, reset, fr.normals, fr.velocity, wind)
    requires bent == BendForces(cfg, fr.currPos, fr.velocity, external)
    ensures StepForce(cfg, fr, wind) == ShortForces(cfg, fr.currPos, fr.velocity, bent)
  {
  }
}
