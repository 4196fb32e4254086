/** The m x n vertex grid: size_t arithmetic, linear indices `row*n + col`,
    and the springs (links) that connect grid vertices. */
module Grid {

  /** 2^64: every std::size_t computation in the source wraps modulo this. */
  const SIZE: nat := 0x1_0000_0000_0000_0000

  /** `a - b` on std::size_t: wraps to a huge value when b > a. */
  function SizeSub(a: nat, b: nat): (r: nat)
    requires a < SIZE && b < SIZE
    ensures r < SIZE
    ensures b <= a ==> r == a - b
    ensures a < b ==> r == SIZE - (b - a)
  {
    (a - b) % SIZE
  }

  /** `a * b` on std::size_t. */
  function SizeMul(a: nat, b: nat): (r: nat)
    ensures r < SIZE
    ensures a * b < SIZE ==> r == a * b
  {
    (a * b) % SIZE
  }

  /** `(m - 1) * (n - 1) * 2` exactly as the constructor computes it on size_t. */
  function TriangleCountOf(m: nat, n: nat): nat
    requires m < SIZE && n < SIZE
  {
    SizeMul(SizeMul(SizeSub(m, 1), SizeSub(n, 1)), 2)
  }

  /** On a non-empty grid whose count fits in size_t, two triangles per quad. */
  lemma TriangleCountExact(m: nat, n: nat)
    requires 1 <= m < SIZE && 1 <= n < SIZE
    requires (m - 1) * (n - 1) * 2 < SIZE
    ensures TriangleCountOf(m, n) == (m - 1) * (n - 1) * 2
  {
    assert (m - 1) * (n - 1) < SIZE;
  }

  /** The constructor's count is the integer `(m-1)*(n-1)*2` reduced modulo
      2^64, on every grid, so an empty grid stores a wrapped value close to
      2^64 (for 0 x 5, `2^64 - 8`). */
  lemma TriangleCountWraps(m: nat, n: nat)
    requires m < SIZE && n < SIZE
    ensures TriangleCountOf(m, n) == ((m - 1) * (n - 1) * 2) % SIZE
  {
    var x, y := m - 1, n - 1;
    assert SizeSub(m, 1) == x % SIZE && SizeSub(n, 1) == y % SIZE;
    calc {
      SizeMul(x % SIZE, y % SIZE);
      ((x % SIZE) * (y % SIZE)) % SIZE;
      { ModMulLeft(x, y % SIZE); }
      (x * (y % SIZE)) % SIZE;
      { assert x * (y % SIZE) == (y % SIZE) * x; }
      ((y % SIZE) * x) % SIZE;
      { ModMulLeft(y, x); }
      (y * x) % SIZE;
    }
    assert y * x == x * y;
    ModMulLeft(x * y, 2);
  }

  /** Reducing a factor modulo 2^64 first does not change the product
      modulo 2^64. */
  lemma ModMulLeft(a: int, b: int)
    ensures ((a % SIZE) * b) % SIZE == (a * b) % SIZE
  {
    var q, r := a / SIZE, a % SIZE;
    assert a * b == r * b + (q * b) * SIZE by {
      assert a == q * SIZE + r;
    }
    ModShift(r * b, q * b);
  }

  /** Adding a multiple of 2^64 does not change a value modulo 2^64. */
  lemma ModShift(x: int, k: int)
    ensures (x + k * SIZE) % SIZE == x % SIZE
  {
    var q, r := x / SIZE, x % SIZE;
    assert x + k * SIZE == (q + k) * SIZE + r;
    ModUnique(x + k * SIZE, q + k, r);
  }

  /** Euclidean remainder by 2^64 is the unique r in [0, 2^64) with
      y = Q*2^64 + r. */
  lemma ModUnique(y: int, Q: int, r: int)
    requires 0 <= r < SIZE && y == Q * SIZE + r
    ensures y % SIZE == r
  {
    var q', r' := y / SIZE, y % SIZE;
    assert y == q' * SIZE + r';
    assert (Q - q') * SIZE == r' - r;
  }

  /** The linear index of vertex (row, col) in a grid with n columns. */
  function Idx(n: nat, row: nat, col: nat): nat {
    row * n + col
  }

  lemma IdxBound(m: nat, n: nat, row: nat, col: nat)
    requires row < m && col < n
    ensures Idx(n, row, col) < m * n
  {
    assert (row + 1) * n <= m * n by {
      MulMono(row + 1, m, n);
    }
  }

  lemma MulMono(a: nat, b: nat, c: nat)
    requires a <= b
    ensures a * c <= b * c
  {
  }

  /** A linear index determines its row and column. */
  lemma IdxDecode(n: nat, row: nat, col: nat)
    requires col < n
    ensures Idx(n, row, col) / n == row
    ensures Idx(n, row, col) % n == col
  {
    LemmaFundamentalDivMod(row * n + col, n, row, col);
  }

  lemma LemmaFundamentalDivMod(k: nat, n: nat, q: nat, r: nat)
    requires r < n && k == q * n + r
    ensures k / n == q && k % n == r
  {
    var q', r' := k / n, k % n;
    assert k == q' * n + r';
    if q' < q {
      MulMono(q' + 1, q, n);
    } else if q < q' {
      MulMono(q + 1, q', n);
    }
  }

  /** Every index in range is the linear index of a vertex of the grid. */
  lemma IndexCell(m: nat, n: nat, k: nat)
    requires k < m * n
    ensures n > 0 && k / n < m && k % n < n && Idx(n, k / n, k % n) == k
  {
    if k / n >= m {
      MulMono(m, k / n, n);
    }
  }

  datatype Cell = Cell(row: nat, col: nat)

  predicate InGrid(m: nat, n: nat, c: Cell) {
    c.row < m && c.col < n
  }

  function IndexOf(n: nat, c: Cell): nat {
    Idx(n, c.row, c.col)
  }

  /** The three spring classes. */
  datatype Kind = Structural | Shear | Bend

  /** A spring from vertex `from` to vertex `to`. The update computes the
      displacement `to - from` and adds the edge force to `from`, subtracting
      it from `to`. */
  datatype Link = Link(kind: Kind, from: Cell, to: Cell)

  /** Every spring of `inner` is also visited by `outer`. */
  predicate Within(inner: seq<Link>, outer: seq<Link>) {
    forall l :: l in inner ==> l in outer
  }

  function Right(c: Cell, k: nat): Cell { Cell(c.row, c.col + k) }
  function Down(c: Cell, k: nat): Cell { Cell(c.row + k, c.col) }

  /** A structural or shear spring of the m x n grid: to the right, down,
      down-right, or (shear, "right to left") down-left. */
  predicate IsShortLink(m: nat, n: nat, l: Link) {
    InGrid(m, n, l.from) && InGrid(m, n, l.to) &&
    match l.kind
    case Structural => l.to == Right(l.from, 1) || l.to == Down(l.from, 1)
    case Shear =>
      l.to == Cell(l.from.row + 1, l.from.col + 1) ||
      (1 <= l.from.col && l.to == Cell(l.from.row + 1, l.from.col - 1))
    case Bend => false
  }

  /** A bend spring of the m x n grid: two vertices apart along a row or a
      column. */
  predicate IsBendLink(m: nat, n: nat, l: Link) {
    InGrid(m, n, l.from) && InGrid(m, n, l.to) &&
    l.kind == Bend && (l.to == Right(l.from, 2) || l.to == Down(l.from, 2))
  }

  /** Both endpoints of every spring of the grid have linear indices in
      `[0, m*n)`. */
  lemma LinkIndicesInRange(m: nat, n: nat, l: Link)
    requires IsShortLink(m, n, l) || IsBendLink(m, n, l)
    ensures IndexOf(n, l.from) < m * n && IndexOf(n, l.to) < m * n
  {
    IdxBound(m, n, l.from.row, l.from.col);
    IdxBound(m, n, l.to.row, l.to.col);
  }
}
