/** The spring-damper primitive and the scatter of edge forces into the
    per-vertex force accumulator. */
module Springs {
  import opened Vectors
  import opened Grid

  /** The four spring/damper coefficients and the grid spacing, fixed at
      construction: "short" for structural and shear springs, "long" for
      bend springs. */
  datatype Coefficients = Coefficients(
    dx: real,
    shortSpring: real, shortDamp: real,
    longSpring: real, longDamp: real)

  /** Rest length of each spring class: dx, sqrt_2*dx and 2*dx. */
  function RestLength(kind: Kind, dx: real, sqrt2: real): (rest: real)
    ensures kind == Structural ==> rest == dx
    ensures kind == Shear ==> rest == sqrt2 * dx
    ensures kind == Bend ==> rest == 2.0 * dx
  {
    match kind
    case Structural => dx
    case Shear => sqrt2 * dx
    case Bend => 2.0 * dx
  }

  function SpringConstant(kind: Kind, c: Coefficients): real {
    if kind == Bend then c.longSpring else c.shortSpring
  }

  function DampingConstant(kind: Kind, c: Coefficients): real {
    if kind == Bend then c.longDamp else c.shortDamp
  }

  /** The edge force for displacement `d = pos[b] - pos[a]`, relative
      velocity `dv = vel[b] - vel[a]` and length `len = |d|`: Hooke's law
      along `d` plus a damper along `dv`. */
  function SpringForce(d: Vec3, dv: Vec3, len: real, rest: real, spring: real, damp: real): (F: Vec3)
    requires len > 0.0
    ensures len == rest && dv == Zero ==> F == Zero
    ensures dv == Zero ==> F == Scale(spring * (len - rest) / len, d)
    ensures d == Zero ==> F == Scale(damp, dv)
  {
    var k := spring * (len - rest) * (1.0 / len);
    Add(Scale(k, d), Scale(damp, dv))
  }

  /** Orienting a spring the other way round negates its force: the edge
      force does not depend on which endpoint is called `a`. */
  lemma SpringForceOddInOrientation(d: Vec3, dv: Vec3, len: real, rest: real, spring: real, damp: real)
    requires len > 0.0
    ensures SpringForce(Neg(d), Neg(dv), len, rest, spring, damp) == Neg(SpringForce(d, dv, len, rest, spring, damp))
  {
    var k := spring * (len - rest) * (1.0 / len);
    assert Scale(k, Neg(d)) == Neg(Scale(k, d));
    assert Scale(damp, Neg(dv)) == Neg(Scale(damp, dv));
  }

  /** A stretched spring at rest relative to its endpoints pulls `a`
      towards `b`: the force has positive component along `d`. */
  lemma StretchedSpringPulls(d: Vec3, len: real, rest: real, spring: real, damp: real)
    requires len > rest && len > 0.0 && spring > 0.0 && d != Zero
    ensures Dot(SpringForce(d, Zero, len, rest, spring, damp), d) > 0.0
  {
    var k := spring * (len - rest) / len;
    StretchedGainPositive(len, rest, spring);
    SqLenPositive(d);
    DotScale(k, d);
    var s := SqLen(d);
    assert k * s > 0.0;
  }

  /** The Hooke gain `spring * (len - rest) / len` of a stretched spring
      with positive stiffness is positive. */
  lemma StretchedGainPositive(len: real, rest: real, spring: real)
    requires len > rest && len > 0.0 && spring > 0.0
    ensures spring * (len - rest) / len > 0.0
  {
    var x := spring * (len - rest);
    assert x > 0.0;
    assert x / len * len == x;
  }

  /** The displacement of a spring under positions `pos` (`n` columns). */
  function Displacement(n: nat, pos: seq<Vec3>, l: Link): Vec3
    requires IndexOf(n, l.from) < |pos| && IndexOf(n, l.to) < |pos|
  {
    Sub(pos[IndexOf(n, l.to)], pos[IndexOf(n, l.from)])
  }

  /** Both endpoints of `l` are vertices of `pos` and the spring has
      positive length, so the edge force is defined. */
  predicate Taut(maths: Maths, n: nat, pos: seq<Vec3>, l: Link) {
    IndexOf(n, l.from) < |pos| && IndexOf(n, l.to) < |pos| &&
    maths.sqrt(SqLen(Displacement(n, pos, l))) > 0.0
  }

  /** Every spring of `links` is taut under `pos`. */
  predicate AllTaut(maths: Maths, n: nat, pos: seq<Vec3>, links: seq<Link>) {
    forall l :: l in links ==> Taut(maths, n, pos, l)
  }

  /** The force the update computes for spring `l`. */
  function LinkForce(maths: Maths, c: Coefficients, n: nat, pos: seq<Vec3>, vel: seq<Vec3>, l: Link): Vec3
    requires |vel| == |pos| && Taut(maths, n, pos, l)
  {
    var a, b := IndexOf(n, l.from), IndexOf(n, l.to);
    var d := Displacement(n, pos, l);
    SpringForce(d, Sub(vel[b], vel[a]), maths.sqrt(SqLen(d)),
                RestLength(l.kind, c.dx, maths.sqrt2), SpringConstant(l.kind, c), DampingConstant(l.kind, c))
  }

  /** One scatter: `force[a] += F; force[b] -= F`. */
  function Apply(f: seq<Vec3>, a: nat, b: nat, F: Vec3): (r: seq<Vec3>)
    requires a < |f| && b < |f|
    ensures |r| == |f|
    ensures a != b ==> r[a] == Add(f[a], F) && r[b] == Sub(f[b], F)
    ensures a == b ==> r[a] == f[a]
    ensures forall k :: 0 <= k < |f| && k != a && k != b ==> r[k] == f[k]
  {
    var f1 := f[a := Add(f[a], F)];
    f1[b := Sub(f1[b], F)]
  }

  /** The two writes of one scatter commute when its ends differ: the
      update may subtract at `b` before adding at `a`. */
  lemma ApplyFarEndFirst(f: seq<Vec3>, a: nat, b: nat, F: Vec3)
    requires a < |f| && b < |f| && a != b
    ensures Apply(f, a, b, F) == var f1 := f[b := Sub(f[b], F)]; f1[a := Add(f1[a], F)]
  {
    var f1 := f[b := Sub(f[b], F)];
    assert forall k :: 0 <= k < |f| ==> Apply(f, a, b, F)[k] == f1[a := Add(f1[a], F)][k];
  }

  /** The force accumulator after scattering every spring of `links`, in
      order, starting from `f`. */
  function Scatter(maths: Maths, c: Coefficients, n: nat, pos: seq<Vec3>, vel: seq<Vec3>,
                   f: seq<Vec3>, links: seq<Link>): (r: seq<Vec3>)
    requires |vel| == |pos| == |f| && AllTaut(maths, n, pos, links)
    ensures |r| == |f|
    decreases |links|
  {
    if links == [] then f
    else
      var l := links[|links| - 1];
      assert forall x :: x in links[..|links| - 1] ==> x in links;
      Apply(Scatter(maths, c, n, pos, vel, f, links[..|links| - 1]),
            IndexOf(n, l.from), IndexOf(n, l.to), LinkForce(maths, c, n, pos, vel, l))
  }

  /** Scattering one more spring applies its force to the accumulator. */
  lemma ScatterSnoc(maths: Maths, c: Coefficients, n: nat, pos: seq<Vec3>, vel: seq<Vec3>,
                    f: seq<Vec3>, links: seq<Link>, l: Link)
    requires |vel| == |pos| == |f| && AllTaut(maths, n, pos, links) && Taut(maths, n, pos, l)
    ensures AllTaut(maths, n, pos, links + [l])
    ensures Scatter(maths, c, n, pos, vel, f, links + [l]) ==
            Apply(Scatter(maths, c, n, pos, vel, f, links),
                  IndexOf(n, l.from), IndexOf(n, l.to), LinkForce(maths, c, n, pos, vel, l))
  {
    assert (links + [l])[..|links|] == links;
  }

  /** Scattering a list of two springs applies both, first to last. */
  lemma ScatterPair(maths: Maths, c: Coefficients, n: nat, pos: seq<Vec3>, vel: seq<Vec3>,
                    f: seq<Vec3>, l0: Link, l1: Link)
    requires |vel| == |pos| == |f| && Taut(maths, n, pos, l0) && Taut(maths, n, pos, l1)
    ensures AllTaut(maths, n, pos, [l0, l1])
    ensures Scatter(maths, c, n, pos, vel, f, [l0, l1]) ==
            Apply(Apply(f, IndexOf(n, l0.from), IndexOf(n, l0.to), LinkForce(maths, c, n, pos, vel, l0)),
                  IndexOf(n, l1.from), IndexOf(n, l1.to), LinkForce(maths, c, n, pos, vel, l1))
  {
    ScatterSnoc(maths, c, n, pos, vel, f, [], l0);
    ScatterSnoc(maths, c, n, pos, vel, f, [l0], l1);
    assert [] + [l0] == [l0] && [l0] + [l1] == [l0, l1];
  }

  /** Scattering two lists in turn is scattering their concatenation. */
  lemma {:induction false} ScatterConcat(maths: Maths, c: Coefficients, n: nat, pos: seq<Vec3>, vel: seq<Vec3>,
                                         f: seq<Vec3>, A: seq<Link>, B: seq<Link>)
    requires |vel| == |pos| == |f| && AllTaut(maths, n, pos, A) && AllTaut(maths, n, pos, B)
    ensures AllTaut(maths, n, pos, A + B)
    ensures Scatter(maths, c, n, pos, vel, f, A + B) ==
            Scatter(maths, c, n, pos, vel, Scatter(maths, c, n, pos, vel, f, A), B)
    decreases |B|
  {
    if B == [] {
      assert A + B == A;
    } else {
      var B' := B[..|B| - 1];
      assert forall x :: x in B' ==> x in B;
      assert (A + B)[..|A + B| - 1] == A + B';
      ScatterConcat(maths, c, n, pos, vel, f, A, B');
    }
  }

  /** Scattering four springs applies their forces one after another. */
  lemma ScatterFour(maths: Maths, c: Coefficients, n: nat, pos: seq<Vec3>, vel: seq<Vec3>,
                    f: seq<Vec3>, L: seq<Link>)
    requires |vel| == |pos| == |f| && |L| == 4 && AllTaut(maths, n, pos, L)
    ensures Scatter(maths, c, n, pos, vel, f, L) ==
            Apply(Apply(Apply(Apply(f, IndexOf(n, L[0].from), IndexOf(n, L[0].to), LinkForce(maths, c, n, pos, vel, L[0])),
                                    IndexOf(n, L[1].from), IndexOf(n, L[1].to), LinkForce(maths, c, n, pos, vel, L[1])),
                              IndexOf(n, L[2].from), IndexOf(n, L[2].to), LinkForce(maths, c, n, pos, vel, L[2])),
                        IndexOf(n, L[3].from), IndexOf(n, L[3].to), LinkForce(maths, c, n, pos, vel, L[3]))
  {
    assert L == [L[0], L[1]] + [L[2], L[3]];
    assert Taut(maths, n, pos, L[0]) && Taut(maths, n, pos, L[1]);
    assert Taut(maths, n, pos, L[2]) && Taut(maths, n, pos, L[3]);
    ScatterPair(maths, c, n, pos, vel, f, L[0], L[1]);
    var h := Scatter(maths, c, n, pos, vel, f, [L[0], L[1]]);
    ScatterPair(maths, c, n, pos, vel, h, L[2], L[3]);
    ScatterConcat(maths, c, n, pos, vel, f, [L[0], L[1]], [L[2], L[3]]);
  }

  /** Scattering three lists in turn is scattering their concatenation. */
  lemma ScatterThree(maths: Maths, c: Coefficients, n: nat, pos: seq<Vec3>, vel: seq<Vec3>,
                     f: seq<Vec3>, links: seq<Link>, A: seq<Link>, B: seq<Link>, C: seq<Link>)
    requires |vel| == |pos| == |f| && links == A + B + C
    requires AllTaut(maths, n, pos, A) && AllTaut(maths, n, pos, B) && AllTaut(maths, n, pos, C)
    ensures AllTaut(maths, n, pos, links)
    ensures Scatter(maths, c, n, pos, vel, f, links) ==
            Scatter(maths, c, n, pos, vel, Scatter(maths, c, n, pos, vel, Scatter(maths, c, n, pos, vel, f, A), B), C)
  {
    ScatterConcat(maths, c, n, pos, vel, f, A, B);
    ScatterConcat(maths, c, n, pos, vel, f, A + B, C);
  }

  /** Every part of a list whose springs are taut has taut springs. */
  /** A list within a list of taut springs holds only taut springs. */
  lemma AllTautWithin(maths: Maths, n: nat, pos: seq<Vec3>, outer: seq<Link>, inner: seq<Link>)
    requires AllTaut(maths, n, pos, outer) && Within(inner, outer)
    ensures AllTaut(maths, n, pos, inner)
  {
  }

  lemma AllTautParts(maths: Maths, n: nat, pos: seq<Vec3>, A: seq<Link>, B: seq<Link>, C: seq<Link>)
    requires AllTaut(maths, n, pos, A + B + C)
    ensures AllTaut(maths, n, pos, A) && AllTaut(maths, n, pos, B) && AllTaut(maths, n, pos, C)
  {
    forall l | l in A || l in B || l in C
      ensures Taut(maths, n, pos, l)
    {
      assert l in A + B + C;
    }
  }

  /** The vector sum of all entries. */
  function Total(s: seq<Vec3>): Vec3 {
    if s == [] then Zero else Add(Total(s[..|s| - 1]), s[|s| - 1])
  }

  /** Replacing one entry changes the total by the difference. */
  lemma {:induction false} TotalUpdate(s: seq<Vec3>, k: nat, v: Vec3)
    requires k < |s|
    ensures Total(s[k := v]) == Add(Sub(Total(s), s[k]), v)
    decreases |s|
  {
    var t := s[k := v];
    if k == |s| - 1 {
      assert t[..|t| - 1] == s[..|s| - 1];
    } else {
      assert t[..|t| - 1] == s[..|s| - 1][k := v];
      TotalUpdate(s[..|s| - 1], k, v);
    }
  }

  /** One scatter conserves the total force (Newton's third law). */
  lemma ApplyConserves(f: seq<Vec3>, a: nat, b: nat, F: Vec3)
    requires a < |f| && b < |f|
    ensures Total(Apply(f, a, b, F)) == Total(f)
  {
    var f1 := f[a := Add(f[a], F)];
    TotalUpdate(f, a, Add(f[a], F));
    TotalUpdate(f1, b, Sub(f1[b], F));
  }

  /** Translational force balance: scattering any list of springs leaves the
      total force unchanged. */
  lemma {:induction false} ScatterConserves(maths: Maths, c: Coefficients, n: nat, pos: seq<Vec3>, vel: seq<Vec3>,
                                            f: seq<Vec3>, links: seq<Link>)
    requires |vel| == |pos| == |f| && AllTaut(maths, n, pos, links)
    ensures Total(Scatter(maths, c, n, pos, vel, f, links)) == Total(f)
    decreases |links|
  {
    if links != [] {
      var l := links[|links| - 1];
      assert forall x :: x in links[..|links| - 1] ==> x in links;
      var prefix := Scatter(maths, c, n, pos, vel, f, links[..|links| - 1]);
      ScatterConserves(maths, c, n, pos, vel, f, links[..|links| - 1]);
      ApplyConserves(prefix, IndexOf(n, l.from), IndexOf(n, l.to), LinkForce(maths, c, n, pos, vel, l));
    }
  }
}
