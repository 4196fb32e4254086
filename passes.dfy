/** The order in which each spring pass of the update visits springs, as
    lists of links, and which springs of the grid those passes cover. */
module Passes {
  import opened Grid

  // ----- bend springs (rest length 2*dx) -----

  /** The two bend springs one iteration (j, i) of the main bend pass
      visits: vertical (F1) then horizontal (F2). */
  function BendCellLinks(j: nat, i: nat): seq<Link> {
    [Link(Bend, Cell(j, i), Cell(j + 2, i)), Link(Bend, Cell(j, i), Cell(j, i + 2))]
  }

  /** Row j of the main bend pass, columns 0 .. i-1. */
  function BendMainRow(j: nat, i: nat): seq<Link>
    decreases i
  {
    if i == 0 then [] else BendMainRow(j, i - 1) + BendCellLinks(j, i - 1)
  }

  /** Rows 0 .. rows-1 of the main bend pass, each `width` columns wide. */
  function BendMain(rows: nat, width: nat): seq<Link>
    decreases rows
  {
    if rows == 0 then [] else BendMain(rows - 1, width) + BendMainRow(rows - 1, width)
  }

  /** The last-row bend pass: horizontal bends of row m-1, columns 0 .. i-1. */
  function BendLastRow(m: nat, i: nat): seq<Link>
    requires m >= 1
    decreases i
  {
    if i == 0 then []
    else BendLastRow(m, i - 1) + [Link(Bend, Cell(m - 1, i - 1), Cell(m - 1, i + 1))]
  }

  /** The last-column bend pass: vertical bends of column n-1, rows 0 .. j-1. */
  function BendLastCol(n: nat, j: nat): seq<Link>
    requires n >= 1
    decreases j
  {
    if j == 0 then []
    else BendLastCol(n, j - 1) + [Link(Bend, Cell(j - 1, n - 1), Cell(j + 1, n - 1))]
  }

  /** All bend springs in the order the update visits them. */
  function BendPasses(m: nat, n: nat): seq<Link>
    requires m >= 2 && n >= 2
  {
    BendMain(m - 2, n - 2) + BendLastRow(m, n - 2) + BendLastCol(n, m - 2)
  }

  /** A bend spring the passes never reach: horizontal in row m-2, or
      vertical in column n-2. */
  predicate BendGap(m: nat, n: nat, l: Link) {
    (l.to == Right(l.from, 2) && l.from.row + 2 == m) ||
    (l.to == Down(l.from, 2) && l.from.col + 2 == n)
  }

  predicate IsMainBend(l: Link) {
    l.kind == Bend && (l.to == Down(l.from, 2) || l.to == Right(l.from, 2))
  }

  /** How many times the link list `s` visits `l`. */
  function Visits(s: seq<Link>, l: Link): nat {
    if s == [] then 0 else (if s[0] == l then 1 else 0) + Visits(s[1..], l)
  }

  lemma {:induction false} VisitsConcat(a: seq<Link>, b: seq<Link>, l: Link)
    ensures Visits(a + b, l) == Visits(a, l) + Visits(b, l)
    decreases |a|
  {
    if a != [] {
      assert (a + b)[1..] == a[1..] + b;
      VisitsConcat(a[1..], b, l);
    } else {
      assert a + b == b;
    }
  }

  lemma VisitsSnoc(a: seq<Link>, x: Link, l: Link)
    ensures Visits(a + [x], l) == Visits(a, l) + (if x == l then 1 else 0)
  {
    VisitsConcat(a, [x], l);
  }

  /** A list visits `l` at all exactly when `l` is one of its elements. */
  lemma {:induction false} VisitsIn(s: seq<Link>, l: Link)
    ensures Visits(s, l) > 0 <==> l in s
    decreases |s|
  {
    if s != [] {
      VisitsIn(s[1..], l);
      assert s == [s[0]] + s[1..];
    }
  }

  /** Counting over rows 0 .. rows-1 splits into the rows before the last
      and the last one. */
  lemma RowSplit(p: bool, row: nat, col: nat, rows: nat, width: nat, before: nat, last: nat)
    requires rows > 0
    requires before == if p && row < rows - 1 && col < width then 1 else 0
    requires last == if p && row == rows - 1 && col < width then 1 else 0
    ensures before + last == if p && row < rows && col < width then 1 else 0
  {
  }

  lemma {:induction false} BendMainRowCount(j: nat, i: nat, l: Link)
    ensures Visits(BendMainRow(j, i), l) ==
              if IsMainBend(l) && l.from.row == j && l.from.col < i then 1 else 0
    decreases i
  {
    if i > 0 {
      var prefix, cell := BendMainRow(j, i - 1), BendCellLinks(j, i - 1);
      VisitsConcat(prefix, cell, l);
      BendMainRowCount(j, i - 1, l);
      VisitsSnoc([cell[0]], cell[1], l);
      VisitsSnoc([], cell[0], l);
      assert cell == [] + [cell[0]] + [cell[1]];
    }
  }

  lemma {:induction false} BendMainCount(rows: nat, width: nat, l: Link)
    ensures Visits(BendMain(rows, width), l) ==
              if IsMainBend(l) && l.from.row < rows && l.from.col < width then 1 else 0
    decreases rows
  {
    if rows > 0 {
      var done, row := BendMain(rows - 1, width), BendMainRow(rows - 1, width);
      assert BendMain(rows, width) == done + row;
      VisitsConcat(done, row, l);
      BendMainCount(rows - 1, width, l);
      BendMainRowCount(rows - 1, width, l);
      RowSplit(IsMainBend(l), l.from.row, l.from.col, rows, width, Visits(done, l), Visits(row, l));
    }
  }

  lemma {:induction false} BendLastRowCount(m: nat, i: nat, l: Link)
    requires m >= 1
    ensures Visits(BendLastRow(m, i), l) ==
              if l.kind == Bend && l.from.row == m - 1 && l.to == Right(l.from, 2) && l.from.col < i
              then 1 else 0
    decreases i
  {
    if i > 0 {
      VisitsSnoc(BendLastRow(m, i - 1), Link(Bend, Cell(m - 1, i - 1), Cell(m - 1, i + 1)), l);
      BendLastRowCount(m, i - 1, l);
    }
  }

  lemma {:induction false} BendLastColCount(n: nat, j: nat, l: Link)
    requires n >= 1
    ensures Visits(BendLastCol(n, j), l) ==
              if l.kind == Bend && l.from.col == n - 1 && l.to == Down(l.from, 2) && l.from.row < j
              then 1 else 0
    decreases j
  {
    if j > 0 {
      VisitsSnoc(BendLastCol(n, j - 1), Link(Bend, Cell(j - 1, n - 1), Cell(j + 1, n - 1)), l);
      BendLastColCount(n, j - 1, l);
    }
  }

  /** The springs of each bend pass, as membership conditions. */
  lemma BendMainMembers(rows: nat, width: nat, l: Link)
    ensures l in BendMain(rows, width) <==> IsMainBend(l) && l.from.row < rows && l.from.col < width
  {
    BendMainCount(rows, width, l);
    VisitsIn(BendMain(rows, width), l);
  }

  lemma BendMainRowMembers(j: nat, i: nat, l: Link)
    ensures l in BendMainRow(j, i) <==> IsMainBend(l) && l.from.row == j && l.from.col < i
  {
    BendMainRowCount(j, i, l);
    VisitsIn(BendMainRow(j, i), l);
  }

  lemma BendLastRowMembers(m: nat, i: nat, l: Link)
    requires m >= 1
    ensures l in BendLastRow(m, i) <==>
              l.kind == Bend && l.from.row == m - 1 && l.to == Right(l.from, 2) && l.from.col < i
  {
    BendLastRowCount(m, i, l);
    VisitsIn(BendLastRow(m, i), l);
  }

  lemma BendLastColMembers(n: nat, j: nat, l: Link)
    requires n >= 1
    ensures l in BendLastCol(n, j) <==>
              l.kind == Bend && l.from.col == n - 1 && l.to == Down(l.from, 2) && l.from.row < j
  {
    BendLastColCount(n, j, l);
    VisitsIn(BendLastCol(n, j), l);
  }

  /** Bend-spring coverage: every bend spring of the grid except those in
      row m-2 (horizontal) and column n-2 (vertical) is visited exactly once;
      those and every other link are never visited. */
  lemma BendCoverage(m: nat, n: nat, l: Link)
    requires m >= 2 && n >= 2
    ensures Visits(BendPasses(m, n), l) ==
              if IsBendLink(m, n, l) && !BendGap(m, n, l) then 1 else 0
  {
    var main, lastRow, lastCol := BendMain(m - 2, n - 2), BendLastRow(m, n - 2), BendLastCol(n, m - 2);
    assert BendPasses(m, n) == main + lastRow + lastCol;
    assert Visits(BendPasses(m, n), l) == Visits(main, l) + Visits(lastRow, l) + Visits(lastCol, l) by {
      VisitsConcat(main + lastRow, lastCol, l);
      VisitsConcat(main, lastRow, l);
    }
    BendMainCount(m - 2, n - 2, l);
    BendLastRowCount(m, n - 2, l);
    BendLastColCount(n, m - 2, l);
    BendCases(m, n, l, Visits(main, l), Visits(lastRow, l), Visits(lastCol, l));
  }

  /** The case analysis behind BendCoverage, on the three per-pass counts. */
  lemma BendCases(m: nat, n: nat, l: Link, main: nat, lastRow: nat, lastCol: nat)
    requires m >= 2 && n >= 2
    requires main == if IsMainBend(l) && l.from.row < m - 2 && l.from.col < n - 2 then 1 else 0
    requires lastRow == if l.kind == Bend && l.from.row == m - 1 && l.to == Right(l.from, 2) && l.from.col < n - 2
                        then 1 else 0
    requires lastCol == if l.kind == Bend && l.from.col == n - 1 && l.to == Down(l.from, 2) && l.from.row < m - 2
                        then 1 else 0
    ensures main + lastRow + lastCol == if IsBendLink(m, n, l) && !BendGap(m, n, l) then 1 else 0
  {
  }

  /** The horizontal bend spring at the start of row m-2 exists whenever the
      grid has at least three columns, and the bend passes never visit it. */
  lemma BendRowGap(m: nat, n: nat)
    requires m >= 2 && n >= 3
    ensures IsBendLink(m, n, Link(Bend, Cell(m - 2, 0), Cell(m - 2, 2)))
    ensures Link(Bend, Cell(m - 2, 0), Cell(m - 2, 2)) !in BendPasses(m, n)
  {
    BendCoverage(m, n, Link(Bend, Cell(m - 2, 0), Cell(m - 2, 2)));
    VisitsIn(BendPasses(m, n), Link(Bend, Cell(m - 2, 0), Cell(m - 2, 2)));
  }

  /** The vertical bend spring at the top of column n-2 exists whenever the
      grid has at least three rows, and the bend passes never visit it. */
  lemma BendColumnGap(m: nat, n: nat)
    requires m >= 3 && n >= 2
    ensures IsBendLink(m, n, Link(Bend, Cell(0, n - 2), Cell(2, n - 2)))
    ensures Link(Bend, Cell(0, n - 2), Cell(2, n - 2)) !in BendPasses(m, n)
  {
    BendCoverage(m, n, Link(Bend, Cell(0, n - 2), Cell(2, n - 2)));
    VisitsIn(BendPasses(m, n), Link(Bend, Cell(0, n - 2), Cell(2, n - 2)));
  }

  // ----- structural and shear springs (rest lengths dx and sqrt_2*dx) -----

  /** The four springs one iteration (j, i) of the main short pass visits,
      in the order their forces reach the accumulator: the down-right
      diagonal (F1), the horizontal (F3) and the vertical (F4) structural
      spring, and the down-left diagonal from (j, i+1) (F2). */
  function ShortCellLinks(j: nat, i: nat): seq<Link> {
    [Link(Shear, Cell(j, i), Cell(j + 1, i + 1)),
     Link(Structural, Cell(j, i), Cell(j, i + 1)),
     Link(Structural, Cell(j, i), Cell(j + 1, i)),
     Link(Shear, Cell(j, i + 1), Cell(j + 1, i))]
  }

  /** Row j of the main short pass, columns 0 .. i-1. */
  function ShortMainRow(j: nat, i: nat): seq<Link>
    decreases i
  {
    if i == 0 then [] else ShortMainRow(j, i - 1) + ShortCellLinks(j, i - 1)
  }

  /** Rows 0 .. rows-1 of the main short pass, each `width` columns wide. */
  function ShortMain(rows: nat, width: nat): seq<Link>
    decreases rows
  {
    if rows == 0 then [] else ShortMain(rows - 1, width) + ShortMainRow(rows - 1, width)
  }

  /** The last-row short pass: horizontal structural springs of row m-1. */
  function ShortLastRow(m: nat, i: nat): seq<Link>
    requires m >= 1
    decreases i
  {
    if i == 0 then []
    else ShortLastRow(m, i - 1) + [Link(Structural, Cell(m - 1, i - 1), Cell(m - 1, i))]
  }

  /** The last-column short pass: vertical structural springs of column n-1. */
  function ShortLastCol(n: nat, j: nat): seq<Link>
    requires n >= 1
    decreases j
  {
    if j == 0 then []
    else ShortLastCol(n, j - 1) + [Link(Structural, Cell(j - 1, n - 1), Cell(j, n - 1))]
  }

  /** All structural and shear springs in the order the update visits them. */
  function ShortPasses(m: nat, n: nat): seq<Link>
    requires m >= 1 && n >= 1
  {
    ShortMain(m - 1, n - 1) + ShortLastRow(m, n - 1) + ShortLastCol(n, m - 1)
  }

  /** The iteration of the main short pass that would visit `l`. */
  function ShortCellOf(l: Link): Cell {
    if l.kind == Shear && l.to.col + 1 == l.from.col then Cell(l.from.row, l.to.col) else l.from
  }

  /** `l` has the shape of a structural or shear spring: one of the four
      springs of the main-pass iteration at ShortCellOf(l). */
  predicate IsMainShort(l: Link) {
    match l.kind
    case Structural => l.to == Right(l.from, 1) || l.to == Down(l.from, 1)
    case Shear =>
      l.to == Cell(l.from.row + 1, l.from.col + 1) ||
      (1 <= l.from.col && l.to == Cell(l.from.row + 1, l.from.col - 1))
    case Bend => false
  }

  lemma ShortCellLinksCount(j: nat, i: nat, l: Link)
    ensures Visits(ShortCellLinks(j, i), l) ==
              if IsMainShort(l) && ShortCellOf(l) == Cell(j, i) then 1 else 0
  {
    var c := ShortCellLinks(j, i);
    VisitsSnoc([], c[0], l);
    VisitsSnoc([c[0]], c[1], l);
    VisitsSnoc([c[0], c[1]], c[2], l);
    VisitsSnoc([c[0], c[1], c[2]], c[3], l);
    assert [c[0]] == [] + [c[0]];
    assert [c[0], c[1]] == [c[0]] + [c[1]];
    assert [c[0], c[1], c[2]] == [c[0], c[1]] + [c[2]];
    assert c == [c[0], c[1], c[2]] + [c[3]];
  }

  lemma {:induction false} ShortMainRowCount(j: nat, i: nat, l: Link)
    ensures Visits(ShortMainRow(j, i), l) ==
              if IsMainShort(l) && ShortCellOf(l).row == j && ShortCellOf(l).col < i then 1 else 0
    decreases i
  {
    if i > 0 {
      VisitsConcat(ShortMainRow(j, i - 1), ShortCellLinks(j, i - 1), l);
      ShortMainRowCount(j, i - 1, l);
      ShortCellLinksCount(j, i - 1, l);
    }
  }

  lemma {:induction false} ShortMainCount(rows: nat, width: nat, l: Link)
    ensures Visits(ShortMain(rows, width), l) ==
              if IsMainShort(l) && ShortCellOf(l).row < rows && ShortCellOf(l).col < width then 1 else 0
    decreases rows
  {
    if rows > 0 {
      var done, row := ShortMain(rows - 1, width), ShortMainRow(rows - 1, width);
      assert ShortMain(rows, width) == done + row;
      VisitsConcat(done, row, l);
      ShortMainCount(rows - 1, width, l);
      ShortMainRowCount(rows - 1, width, l);
      RowSplit(IsMainShort(l), ShortCellOf(l).row, ShortCellOf(l).col, rows, width, Visits(done, l), Visits(row, l));
    }
  }

  lemma {:induction false} ShortLastRowCount(m: nat, i: nat, l: Link)
    requires m >= 1
    ensures Visits(ShortLastRow(m, i), l) ==
              if l.kind == Structural && l.from.row == m - 1 && l.to == Right(l.from, 1) && l.from.col < i
              then 1 else 0
    decreases i
  {
    if i > 0 {
      VisitsSnoc(ShortLastRow(m, i - 1), Link(Structural, Cell(m - 1, i - 1), Cell(m - 1, i)), l);
      ShortLastRowCount(m, i - 1, l);
    }
  }

  lemma {:induction false} ShortLastColCount(n: nat, j: nat, l: Link)
    requires n >= 1
    ensures Visits(ShortLastCol(n, j), l) ==
              if l.kind == Structural && l.from.col == n - 1 && l.to == Down(l.from, 1) && l.from.row < j
              then 1 else 0
    decreases j
  {
    if j > 0 {
      VisitsSnoc(ShortLastCol(n, j - 1), Link(Structural, Cell(j - 1, n - 1), Cell(j, n - 1)), l);
      ShortLastColCount(n, j - 1, l);
    }
  }

  /** The springs of each structural/shear pass, as membership conditions. */
  lemma ShortMainMembers(rows: nat, width: nat, l: Link)
    ensures l in ShortMain(rows, width) <==>
              IsMainShort(l) && ShortCellOf(l).row < rows && ShortCellOf(l).col < width
  {
    ShortMainCount(rows, width, l);
    VisitsIn(ShortMain(rows, width), l);
  }

  lemma ShortMainRowMembers(j: nat, i: nat, l: Link)
    ensures l in ShortMainRow(j, i) <==>
              IsMainShort(l) && ShortCellOf(l).row == j && ShortCellOf(l).col < i
  {
    ShortMainRowCount(j, i, l);
    VisitsIn(ShortMainRow(j, i), l);
  }

  lemma ShortLastRowMembers(m: nat, i: nat, l: Link)
    requires m >= 1
    ensures l in ShortLastRow(m, i) <==>
              l.kind == Structural && l.from.row == m - 1 && l.to == Right(l.from, 1) && l.from.col < i
  {
    ShortLastRowCount(m, i, l);
    VisitsIn(ShortLastRow(m, i), l);
  }

  lemma ShortLastColMembers(n: nat, j: nat, l: Link)
    requires n >= 1
    ensures l in ShortLastCol(n, j) <==>
              l.kind == Structural && l.from.col == n - 1 && l.to == Down(l.from, 1) && l.from.row < j
  {
    ShortLastColCount(n, j, l);
    VisitsIn(ShortLastCol(n, j), l);
  }

  /** Row j of the main bend pass is part of its first k rows, for j < k. */
  lemma {:induction false} BendMainRowWithin(k: nat, w: nat, j: nat)
    requires j < k
    ensures Within(BendMainRow(j, w), BendMain(k, w))
    decreases k
  {
    assert BendMain(k, w) == BendMain(k - 1, w) + BendMainRow(k - 1, w);
    if j + 1 < k {
      BendMainRowWithin(k - 1, w, j);
    }
  }

  /** The two springs of iteration (j, i) are part of row j of the main
      bend pass once it is w columns wide, for i < w. */
  lemma {:induction false} BendCellWithin(j: nat, w: nat, i: nat)
    requires i < w
    ensures Within(BendCellLinks(j, i), BendMainRow(j, w))
    decreases w
  {
    assert BendMainRow(j, w) == BendMainRow(j, w - 1) + BendCellLinks(j, w - 1);
    if i + 1 < w {
      BendCellWithin(j, w - 1, i);
    }
  }

  /** Row j of the main short pass is part of its first k rows, for j < k. */
  lemma {:induction false} ShortMainRowWithin(k: nat, w: nat, j: nat)
    requires j < k
    ensures Within(ShortMainRow(j, w), ShortMain(k, w))
    decreases k
  {
    assert ShortMain(k, w) == ShortMain(k - 1, w) + ShortMainRow(k - 1, w);
    if j + 1 < k {
      ShortMainRowWithin(k - 1, w, j);
    }
  }

  /** The four springs of iteration (j, i) are part of row j of the main
      short pass once it is w columns wide, for i < w. */
  lemma {:induction false} ShortCellWithin(j: nat, w: nat, i: nat)
    requires i < w
    ensures Within(ShortCellLinks(j, i), ShortMainRow(j, w))
    decreases w
  {
    assert ShortMainRow(j, w) == ShortMainRow(j, w - 1) + ShortCellLinks(j, w - 1);
    if i + 1 < w {
      ShortCellWithin(j, w - 1, i);
    }
  }

  /** Structural/shear coverage: the main pass together with the last-row
      and last-column passes visits every structural and shear spring of the
      grid exactly once, and nothing else. */
  lemma ShortCoverage(m: nat, n: nat, l: Link)
    requires m >= 1 && n >= 1
    ensures Visits(ShortPasses(m, n), l) == if IsShortLink(m, n, l) then 1 else 0
  {
    var main, lastRow, lastCol := ShortMain(m - 1, n - 1), ShortLastRow(m, n - 1), ShortLastCol(n, m - 1);
    assert ShortPasses(m, n) == main + lastRow + lastCol;
    assert Visits(ShortPasses(m, n), l) == Visits(main, l) + Visits(lastRow, l) + Visits(lastCol, l) by {
      VisitsConcat(main + lastRow, lastCol, l);
      VisitsConcat(main, lastRow, l);
    }
    ShortMainCount(m - 1, n - 1, l);
    ShortLastRowCount(m, n - 1, l);
    ShortLastColCount(n, m - 1, l);
    ShortCases(m, n, l, Visits(main, l), Visits(lastRow, l), Visits(lastCol, l));
  }

  /** The case analysis behind ShortCoverage, on the three per-pass counts. */
  lemma ShortCases(m: nat, n: nat, l: Link, main: nat, lastRow: nat, lastCol: nat)
    requires m >= 1 && n >= 1
    requires main == if IsMainShort(l) && ShortCellOf(l).row < m - 1 && ShortCellOf(l).col < n - 1 then 1 else 0
    requires lastRow == if l.kind == Structural && l.from.row == m - 1 && l.to == Right(l.from, 1) && l.from.col < n - 1
                        then 1 else 0
    requires lastCol == if l.kind == Structural && l.from.col == n - 1 && l.to == Down(l.from, 1) && l.from.row < m - 1
                        then 1 else 0
    ensures main + lastRow + lastCol == if IsShortLink(m, n, l) then 1 else 0
  {
  }

  /** Every spring a pass visits is a spring of the grid, so all indices the
      force passes read or write lie in `[0, m*n)`. */
  lemma PassIndicesInRange(m: nat, n: nat)
    requires m >= 2 && n >= 2
    ensures forall l :: l in BendPasses(m, n) ==> IsBendLink(m, n, l)
    ensures forall l :: l in ShortPasses(m, n) ==> IsShortLink(m, n, l)
    ensures forall l :: l in BendPasses(m, n) + ShortPasses(m, n) ==>
              IndexOf(n, l.from) < m * n && IndexOf(n, l.to) < m * n
  {
    forall l | l in BendPasses(m, n) + ShortPasses(m, n)
      ensures l in BendPasses(m, n) ==> IsBendLink(m, n, l)
      ensures l in ShortPasses(m, n) ==> IsShortLink(m, n, l)
      ensures IndexOf(n, l.from) < m * n && IndexOf(n, l.to) < m * n
    {
      BendCoverage(m, n, l);
      ShortCoverage(m, n, l);
      VisitsIn(BendPasses(m, n), l);
      VisitsIn(ShortPasses(m, n), l);
      LinkIndicesInRange(m, n, l);
    }
  }
}
