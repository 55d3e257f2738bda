/** The two queries of a merged t-digest. Node `i` sits at its centre, the count before it plus half
    its own; between two centres both queries follow the straight line through the two nodes. */
module TDigestQueries {

  import opened Options
  import opened TDigests

  /** Distances to a centre up to this size count as none. */
  const TINY: real := 0.000000001

  ghost predicate Digest(s: seq<Node>) {
    s != [] && Positive(s) && Sorted(s)
  }

  function Before(s: seq<Node>, i: nat): real
    requires i <= |s|
  {
    CountSum(s[..i])
  }

  function Centre(s: seq<Node>, i: nat): real
    requires i < |s|
  {
    Before(s, i) + s[i].count / 2.0
  }

  // ----- centres -----

  lemma BeforeNext(s: seq<Node>, i: nat)
    requires i < |s|
    ensures Before(s, i + 1) == Before(s, i) + s[i].count
  {
    assert s[..i + 1] == s[..i] + [s[i]];
    SumsSnoc(s[..i], s[i]);
  }

  lemma {:induction false} BeforeGrows(s: seq<Node>, i: nat, j: nat)
    requires Positive(s) && i <= j <= |s|
    ensures Before(s, i) <= Before(s, j) && (i < j ==> Before(s, i) < Before(s, j))
    decreases j - i
  {
    if i < j {
      BeforeNext(s, i);
      BeforeGrows(s, i + 1, j);
    }
  }

  lemma CentresGrow(s: seq<Node>, i: nat, j: nat)
    requires Positive(s) && i < j < |s|
    ensures Centre(s, i) < Before(s, i + 1) <= Before(s, j) < Centre(s, j)
  {
    BeforeNext(s, i);
    BeforeGrows(s, i + 1, j);
  }

  lemma StepOfCentres(s: seq<Node>, i: nat)
    requires i + 1 < |s|
    ensures Centre(s, i + 1) == Centre(s, i) + (s[i].count / 2.0 + s[i + 1].count / 2.0)
    ensures Centre(s, i) == Before(s, i + 1) - s[i].count / 2.0
  {
    BeforeNext(s, i);
  }

  // ----- the value at a quantile -----

  /** The first node, from `i` on, whose end lies past `goal`; `|s|` when there is none. */
  function Locate(s: seq<Node>, goal: real, i: nat): (r: nat)
    requires i <= |s|
    ensures i <= r <= |s|
    decreases |s| - i
  {
    if i == |s| || Before(s, i + 1) > goal then i else Locate(s, goal, i + 1)
  }

  /** The height at `g` of the line through nodes `j` and `j + 1`. */
  function Line(s: seq<Node>, j: nat, g: real): real
    requires j + 1 < |s| && s[j].count > 0.0 && s[j + 1].count > 0.0
  {
    (s[j + 1].mean - s[j].mean) / (s[j].count / 2.0 + s[j + 1].count / 2.0) * (g - Centre(s, j)) + s[j].mean
  }

  /** The value standing at `goal` of the total count. */
  ghost function ValueOf(s: seq<Node>, goal: real): real
    requires Digest(s)
  {
    var i := Locate(s, goal, 0);
    if i == |s| then s[|s| - 1].mean
    else
      var off := goal - Centre(s, i);
      if -TINY <= off <= TINY then s[i].mean
      else if off > 0.0 then if i + 1 == |s| then s[i].mean else Line(s, i, goal)
      else if i == 0 then s[0].mean
      else Line(s, i - 1, goal)
  }

  /** The number of centres at or before `goal`, given the node it falls into. */
  ghost function Passed(s: seq<Node>, goal: real): (r: nat)
    ensures r <= |s|
  {
    var i := Locate(s, goal, 0);
    if i < |s| && Centre(s, i) <= goal then i + 1 else i
  }

  /** The mean to the left of the gap between centres `p - 1` and `p`; the outermost means go on. */
  ghost function Floor(s: seq<Node>, p: nat): real
    requires s != [] && p <= |s|
  {
    if p == 0 then s[0].mean else s[p - 1].mean
  }

  ghost function Ceiling(s: seq<Node>, p: nat): real
    requires s != [] && p <= |s|
  {
    if p == |s| then s[|s| - 1].mean else s[p].mean
  }

  lemma {:induction false} LocateFinds(s: seq<Node>, goal: real, i: nat)
    requires i <= |s| && (i > 0 ==> Before(s, i) <= goal)
    ensures var r := Locate(s, goal, i); (r > 0 && r > i ==> Before(s, r) <= goal) && (r < |s| ==> goal < Before(s, r + 1))
    decreases |s| - i
  {
    if i < |s| && Before(s, i + 1) <= goal {
      LocateFinds(s, goal, i + 1);
    }
  }

  lemma {:induction false} LocateGrows(s: seq<Node>, g: real, h: real, i: nat)
    requires i <= |s| && g <= h
    ensures Locate(s, g, i) <= Locate(s, h, i)
    decreases |s| - i
  {
    if i < |s| && Before(s, i + 1) <= g {
      LocateGrows(s, g, h, i + 1);
    }
  }

  /** A point between two neighbouring centres stands between their means, in order. */
  lemma LineIsBetween(s: seq<Node>, j: nat, g: real, h: real)
    requires Digest(s) && j + 1 < |s|
    requires Centre(s, j) <= g <= h <= Centre(s, j + 1)
    ensures s[j].mean <= Line(s, j, g) <= Line(s, j, h) <= s[j + 1].mean
  {
    hide Centre;
    StepOfCentres(s, j);
    var rise, run := s[j + 1].mean - s[j].mean, s[j].count / 2.0 + s[j + 1].count / 2.0;
    Slope(rise, run, g - Centre(s, j), h - Centre(s, j));
  }

  lemma Slope(rise: real, run: real, x: real, y: real)
    requires rise >= 0.0 && run > 0.0 && 0.0 <= x <= y <= run
    ensures 0.0 <= rise / run * x <= rise / run * y <= rise
  {
    var m := rise / run;
    assert run * m == rise;
    Cancel(run, 0.0, m);
    Times(m, 0.0, x);
    Times(m, x, y);
    Times(m, y, run);
  }

  /** Where `ValueOf` lies: in the gap its goal falls into. */
  lemma ValueInGap(s: seq<Node>, goal: real)
    requires Digest(s) && goal >= 0.0
    ensures var p := Passed(s, goal); Floor(s, p) <= ValueOf(s, goal) <= Ceiling(s, p)
  {
    hide Centre, Line, Before, Locate;
    var i := Locate(s, goal, 0);
    LocateFinds(s, goal, 0);
    if i < |s| {
      if Centre(s, i) <= goal {
        if i + 1 < |s| {
          CentresGrow(s, i, i + 1);
          LineIsBetween(s, i, goal, goal);
        }
      } else if i > 0 {
        CentresGrow(s, i - 1, i);
        LineIsBetween(s, i - 1, goal, goal);
      }
    }
  }

  lemma PassedGrows(s: seq<Node>, g: real, h: real)
    requires Digest(s) && g <= h
    ensures Passed(s, g) <= Passed(s, h)
    ensures Passed(s, g) == Passed(s, h) && Locate(s, g, 0) == Locate(s, h, 0) ==>
      Locate(s, g, 0) < |s| ==> (Centre(s, Locate(s, g, 0)) <= g <==> Centre(s, Locate(s, h, 0)) <= h)
  {
    hide Centre, Before;
    LocateGrows(s, g, h, 0);
  }

  /** Inside one gap the value does not fall. */
  lemma ValueGrowsInGap(s: seq<Node>, g: real, h: real)
    requires Digest(s) && 0.0 <= g <= h && Passed(s, g) == Passed(s, h)
    ensures ValueOf(s, g) <= ValueOf(s, h)
  {
    hide Centre, Line, Before, Locate;
    var p := Passed(s, g);
    LocateGrows(s, g, h, 0);
    ValueInGap(s, g);
    ValueInGap(s, h);
    LocateFinds(s, g, 0);
    LocateFinds(s, h, 0);
    if 0 < p < |s| {
      var i, j := Locate(s, g, 0), Locate(s, h, 0);
      assert p - 1 <= i <= j <= p;
      CentresGrow(s, p - 1, p);
      LineIsBetween(s, p - 1, g, h);
    }
  }

  /** Later quantiles have no smaller values. */
  lemma ValueIsMonotone(s: seq<Node>, g: real, h: real)
    requires Digest(s) && 0.0 <= g <= h
    ensures s[0].mean <= ValueOf(s, g) <= ValueOf(s, h) <= s[|s| - 1].mean
  {
    hide Centre, Locate, Passed, ValueOf;
    var p, q := Passed(s, g), Passed(s, h);
    PassedGrows(s, g, h);
    ValueInGap(s, g);
    ValueInGap(s, h);
    if p == q {
      ValueGrowsInGap(s, g, h);
    } else {
      assert Ceiling(s, p) <= Floor(s, q);
    }
  }

  /** At its own centre a node's mean is found. */
  lemma ValueAtCentre(s: seq<Node>, i: nat)
    requires Digest(s) && i < |s|
    ensures ValueOf(s, Centre(s, i)) == s[i].mean && Centre(s, i) > 0.0
  {
    hide Before, Line;
    LocateFinds(s, Centre(s, i), 0);
    BeforeNext(s, i);
    BeforeGrows(s, 0, i);
    EmptySum(s[..0]);
    assert Before(s, 0) == 0.0 by { assert s[..0] == []; NothingBefore(s); }
    LocateIs(s, Centre(s, i), i);
  }

  lemma NothingBefore(s: seq<Node>)
    ensures Before(s, 0) == 0.0
  {
  }

  /** Only one node holds a given count. */
  lemma LocateIs(s: seq<Node>, goal: real, i: nat)
    requires Positive(s) && i < |s| && Before(s, i) <= goal < Before(s, i + 1) && goal >= 0.0
    ensures Locate(s, goal, 0) == i
  {
    hide Before;
    LocateFinds(s, goal, 0);
    var r := Locate(s, goal, 0);
    NothingBefore(s);
    if r < i {
      BeforeGrows(s, r + 1, i);
    } else if i < r {
      BeforeGrows(s, i + 1, r);
    }
  }

  // ----- the quantile of a value -----

  /** The first node, from `i` on, whose mean reaches `v`. */
  function FirstAtLeast(s: seq<Node>, v: real, i: nat): (r: nat)
    requires i <= |s|
    ensures i <= r <= |s| && (r < |s| ==> s[r].mean >= v) && forall j :: i <= j < r ==> s[j].mean < v
    decreases |s| - i
  {
    if i == |s| || s[i].mean >= v then i else FirstAtLeast(s, v, i + 1)
  }

  /** The end of the run of nodes, from `i` on, whose mean is `v`. */
  function RunEnd(s: seq<Node>, v: real, i: nat): (r: nat)
    requires i <= |s|
    ensures i <= r <= |s| && (r < |s| ==> s[r].mean != v) && forall j :: i <= j < r ==> s[j].mean == v
    decreases |s| - i
  {
    if i == |s| || s[i].mean != v then i else RunEnd(s, v, i + 1)
  }

  /** The count standing below `v`; half of the count at `v` is taken to be below. */
  ghost function Rank(s: seq<Node>, v: real): real
    requires Digest(s)
  {
    var i := FirstAtLeast(s, v, 0);
    if i == |s| then Before(s, |s|)
    else if s[i].mean == v then Before(s, i) + (Before(s, RunEnd(s, v, i + 1)) - Before(s, i)) / 2.0
    else if i == 0 then 0.0
    else Centre(s, i - 1) + Inverse(s[i].mean - s[i - 1].mean, s[i - 1].count / 2.0 + s[i].count / 2.0, v - s[i - 1].mean)
  }

  /** How far along a line of the given rise and run the height `d` is reached. */
  function Inverse(rise: real, run: real, d: real): (x: real)
    requires rise > 0.0 && run > 0.0
  {
    assert (rise / run) * run == rise;
    d / (rise / run)
  }

  lemma InverseInverts(rise: real, run: real, d: real)
    requires rise > 0.0 && run > 0.0
    ensures rise / run > 0.0 && rise / run * Inverse(rise, run, d) == d
  {
    assert (rise / run) * run == rise;
  }

  lemma InverseGrows(rise: real, run: real, d: real, e: real)
    requires rise > 0.0 && run > 0.0 && 0.0 <= d <= e <= rise
    ensures 0.0 <= Inverse(rise, run, d) <= Inverse(rise, run, e) <= run
    ensures 0.0 < d ==> 0.0 < Inverse(rise, run, d)
    ensures d < rise ==> Inverse(rise, run, d) < run
  {
    hide Inverse;
    InverseInverts(rise, run, d);
    InverseInverts(rise, run, e);
    var m, x, y := rise / run, Inverse(rise, run, d), Inverse(rise, run, e);
    assert m * run == rise;
    Cancel(m, 0.0, x);
    Cancel(m, x, y);
    Cancel(m, y, run);
  }

  /** The rank lies between the centres around the first node reaching `v`. */
  lemma RankIsPlaced(s: seq<Node>, v: real)
    requires Digest(s)
    ensures var i := FirstAtLeast(s, v, 0);
      && 0.0 <= Rank(s, v) <= Before(s, |s|)
      && (i > 0 ==> Centre(s, i - 1) <= Rank(s, v))
      && (i < |s| && s[i].mean != v ==> Rank(s, v) <= Centre(s, i))
      && (i < |s| && s[i].mean == v ==>
            Centre(s, i) <= Rank(s, v) <= Centre(s, RunEnd(s, v, i + 1) - 1))
  {
    hide Before, Inverse, Centre;
    var i := FirstAtLeast(s, v, 0);
    if i < |s| {
      CentreIsInside(s, i);
      if s[i].mean == v {
        RankAtMean(s, v);
        CentreIsInside(s, RunEnd(s, v, i + 1) - 1);
        if i > 0 {
          CentresGrow(s, i - 1, i);
        }
      } else if i > 0 {
        CentreIsInside(s, i - 1);
        StepOfCentres(s, i - 1);
        InverseGrows(s[i].mean - s[i - 1].mean, s[i - 1].count / 2.0 + s[i].count / 2.0, v - s[i - 1].mean, v - s[i - 1].mean);
      }
    } else {
      CentreIsInside(s, i - 1);
    }
  }

  lemma CentreIsInside(s: seq<Node>, i: nat)
    requires Positive(s) && i < |s|
    ensures 0.0 < Centre(s, i) < Before(s, |s|)
  {
    hide Before;
    NothingBefore(s);
    BeforeGrows(s, 0, i);
    BeforeNext(s, i);
    BeforeGrows(s, i + 1, |s|);
  }

  lemma RankAtMean(s: seq<Node>, v: real)
    requires Digest(s)
    ensures var i := FirstAtLeast(s, v, 0);
      i < |s| && s[i].mean == v ==> Centre(s, i) <= Rank(s, v) <= Centre(s, RunEnd(s, v, i + 1) - 1)
  {
    hide Before, Inverse;
    var i := FirstAtLeast(s, v, 0);
    if i < |s| && s[i].mean == v {
      var e := RunEnd(s, v, i + 1);
      BeforeNext(s, i);
      BeforeNext(s, e - 1);
      BeforeGrows(s, i, e - 1);
      BeforeGrows(s, i + 1, e);
    }
  }

  /** Larger values have no smaller quantiles, and every rank lies within the total count. */
  lemma RankIsMonotone(s: seq<Node>, v: real, w: real)
    requires Digest(s) && v <= w
    ensures 0.0 <= Rank(s, v) <= Rank(s, w) <= Before(s, |s|)
  {
    hide Before, Centre, Inverse, Rank;
    RankIsPlaced(s, v);
    RankIsPlaced(s, w);
    var i, j := FirstAtLeast(s, v, 0), FirstAtLeast(s, w, 0);
    assert i <= j;
    if i < j {
      var last := if s[i].mean == v then RunEnd(s, v, i + 1) - 1 else i;
      assert last < j;
      if last < j - 1 {
        CentresGrow(s, last, j - 1);
      }
    } else if v < w {
      RankGrowsInGap(s, v, w);
    }
  }

  lemma RankGrowsInGap(s: seq<Node>, v: real, w: real)
    requires Digest(s) && v < w && FirstAtLeast(s, v, 0) == FirstAtLeast(s, w, 0)
    ensures Rank(s, v) <= Rank(s, w)
  {
    hide Before, Centre, Inverse;
    var i := FirstAtLeast(s, v, 0);
    RankIsPlaced(s, v);
    RankIsPlaced(s, w);
    if 0 < i < |s| && s[i].mean != w {
      InverseGrows(s[i].mean - s[i - 1].mean, s[i - 1].count / 2.0 + s[i].count / 2.0, v - s[i - 1].mean, w - s[i - 1].mean);
    }
  }

  // ----- the two queries invert each other -----

  ghost predicate IsMean(s: seq<Node>, v: real) {
    exists i :: 0 <= i < |s| && s[i].mean == v
  }

  /** Is `goal` so near the centre of the node it falls into that the node's mean is returned? */
  ghost predicate Snaps(s: seq<Node>, goal: real) {
    var i := Locate(s, goal, 0);
    i < |s| && -TINY <= goal - Centre(s, i) <= TINY
  }

  /** The value at the rank of a mean is that mean, also inside a run of equal means. */
  lemma ValueOfRankOfMean(s: seq<Node>, v: real)
    requires Digest(s) && IsMean(s, v)
    ensures ValueOf(s, Rank(s, v)) == v
  {
    hide Before, Centre, ValueOf, Rank;
    RankIsPlaced(s, v);
    var i := FirstAtLeast(s, v, 0);
    var k :| 0 <= k < |s| && s[k].mean == v;
    assert i <= k;
    var e := RunEnd(s, v, i + 1) - 1;
    ValueAtCentre(s, i);
    ValueAtCentre(s, e);
    ValueIsMonotone(s, Centre(s, i), Rank(s, v));
    ValueIsMonotone(s, Rank(s, v), Centre(s, e));
  }

  /** Between two means the value at the rank of `v` is `v` exactly when no snapping happens. */
  lemma ValueOfRankBetween(s: seq<Node>, v: real)
    requires Digest(s) && s[0].mean < v < s[|s| - 1].mean && !IsMean(s, v)
    ensures ValueOf(s, Rank(s, v)) == v <==> !Snaps(s, Rank(s, v))
  {
    hide Before, Centre, Inverse, Snaps, ValueOf, IsMean;
    var i := FirstAtLeast(s, v, 0);
    assert 0 < i < |s|;
    NotMean(s, v, i);
    var rise, run, d := s[i].mean - s[i - 1].mean, s[i - 1].count / 2.0 + s[i].count / 2.0, v - s[i - 1].mean;
    InverseGrows(rise, run, d, d);
    InverseInverts(rise, run, d);
    StepOfCentres(s, i - 1);
    var g := Rank(s, v);
    assert Centre(s, i - 1) < g < Centre(s, i);
    assert g - Centre(s, i - 1) == Inverse(rise, run, d);
    assert Line(s, i - 1, g) == rise / run * (g - Centre(s, i - 1)) + s[i - 1].mean;
    ValueBetween(s, g, i);
  }

  lemma NotMean(s: seq<Node>, v: real, i: nat)
    requires i < |s| && !IsMean(s, v)
    ensures s[i].mean != v
  {
  }

  lemma ValueBetween(s: seq<Node>, g: real, i: nat)
    requires Digest(s) && 0 < i < |s| && Centre(s, i - 1) < g < Centre(s, i)
    ensures !Snaps(s, g) ==> ValueOf(s, g) == Line(s, i - 1, g)
    ensures Snaps(s, g) ==> IsMean(s, ValueOf(s, g))
  {
    hide Before, Centre, Line, Locate;
    LocateBetween(s, g, i);
  }

  lemma LocateBetween(s: seq<Node>, g: real, i: nat)
    requires Digest(s) && 0 < i < |s| && Centre(s, i - 1) < g < Centre(s, i)
    ensures i - 1 <= Locate(s, g, 0) <= i && g > 0.0
  {
    hide Before;
    BeforeNext(s, i - 1);
    BeforeNext(s, i);
    NothingBefore(s);
    BeforeGrows(s, 0, i - 1);
    if g < Before(s, i) {
      LocateIs(s, g, i - 1);
    } else {
      LocateIs(s, g, i);
    }
  }

  // ----- the queries of a histogram -----

  /** The count that stands for quantile `q`. */
  function Goal(q: real, total: real): real {
    q * total
  }

  /** What `ValueAt` returns never falls as the quantile grows and stays between the outermost means,
      the end `q = 1` included. */
  lemma ValueAtIsMonotone(s: seq<Node>, q: real, r: real)
    requires Digest(s) && 0.0 <= q <= r <= 1.0
    ensures s[0].mean <= ValueOf(s, Goal(q, CountSum(s))) <= ValueOf(s, Goal(r, CountSum(s))) <= s[|s| - 1].mean
  {
    hide ValueOf;
    CountSumPositive(s);
    Times(CountSum(s), 0.0, q);
    Times(CountSum(s), q, r);
    ValueIsMonotone(s, Goal(q, CountSum(s)), Goal(r, CountSum(s)));
  }

  /** What `QuantileOf` returns never falls as the value grows and is a proper quantile. */
  lemma QuantileOfIsMonotone(s: seq<Node>, v: real, w: real)
    requires Digest(s) && v <= w
    ensures CountSum(s) > 0.0
    ensures 0.0 <= Rank(s, v) / CountSum(s) <= Rank(s, w) / CountSum(s) <= 1.0
  {
    hide Rank, CountSum;
    CountSumPositive(s);
    RankIsMonotone(s, v, w);
    assert s[..|s|] == s;
    DivideAll(Rank(s, v), Rank(s, w), CountSum(s));
  }

  lemma DivideAll(x: real, y: real, total: real)
    requires 0.0 <= x <= y <= total && total > 0.0
    ensures 0.0 <= x / total <= y / total <= 1.0
  {
    var p := Quotient(x, total);
    var q := Quotient(y, total);
    Cancel(total, 0.0, p);
    Cancel(total, p, q);
    PartOfWhole(y, total);
  }

  lemma PartOfWhole(y: real, total: real)
    requires 0.0 <= y <= total && total > 0.0
    ensures y / total <= 1.0
  {
    var q := Quotient(y, total);
    var part := total * q;
    assert part <= total;
    AtMostOne(total, q);
  }

  lemma Quotient(x: real, total: real) returns (q: real)
    requires total > 0.0
    ensures q == x / total && total * q == x
  {
    q := x / total;
  }

  lemma AtMostOne(total: real, q: real)
    requires total > 0.0 && total * q <= total
    ensures q <= 1.0
  {
    var more := q - 1.0;
    assert total * more == total * q - total;
    Cancel(total, more, 0.0);
  }

  /** The value at quantile `q`; `None` stands for the NaN of a bad quantile or an empty digest. */
  method ValueAt(h: Histogram, q: real) returns (r: Option<real>)
    requires h.Valid()
    modifies h, h.nodes
    ensures h.Valid() && h.unmergedNodes == 0
    ensures h.mergedCount == h.TotalCount() == old(h.TotalCount()) && MassSum(h.Used()) == old(MassSum(h.Used()))
    ensures r.None? <==> q < 0.0 || q > 1.0 || h.Used() == []
    ensures r.Some? ==> Digest(h.Used()) && r == Some(ValueOf(h.Used(), Goal(q, h.mergedCount)))
  {
    hide Before, Centre, Locate, Goal, ValueOf, Packed, MassSum, CountSum;
    h.Flush();
    if q < 0.0 || q > 1.0 || h.mergedNodes == 0 {
      return None;
    }
    ghost var s := h.Used();
    var value := Search(h, q);
    assert h.Used() == s;
    r := Some(value);
  }

  method Search(h: Histogram, q: real) returns (value: real)
    requires h.Valid() && h.unmergedNodes == 0 && h.mergedNodes > 0 && 0.0 <= q <= 1.0
    ensures Digest(h.Used()) && value == ValueOf(h.Used(), Goal(q, h.mergedCount))
  {
    hide Before, Centre, Locate, ValueOf, CountSum;
    WholeIsTotal(h);
    var total := h.mergedCount;
    var goal := Goal(q, total);
    Times(h.mergedCount, q, 1.0);
    Times(h.mergedCount, 0.0, q);
    ghost var s := h.Used();
    var i, k := FindNode(h, goal);
    assert h.Used() == s && h.Valid();
    value := Read(h, goal, i, k);
    assert h.Used() == s;
  }

  lemma WholeIsTotal(h: Histogram)
    requires h.Valid() && h.unmergedNodes == 0 && h.mergedNodes > 0
    ensures Digest(h.Used()) && Before(h.Used(), h.mergedNodes) == h.mergedCount && h.mergedCount > 0.0
  {
    hide CountSum;
    var s := h.Used();
    assert s == h.nodes[..h.mergedNodes];
    assert s[..h.mergedNodes] == s;
    CountSumPositive(s);
  }

  /** The scan of both queries: stop at the first node that ends past the goal. */
  method FindNode(h: Histogram, goal: real) returns (i: nat, k: real)
    requires h.Valid() && h.unmergedNodes == 0 && h.mergedNodes > 0
    ensures i <= h.mergedNodes && i == Locate(h.Used(), goal, 0) && k == Before(h.Used(), i)
  {
    ghost var s := h.Used();
    i, k := 0, 0.0;
    NothingBefore(s);
    while i < h.mergedNodes
      invariant i <= h.mergedNodes && k == Before(s, i)
      invariant Locate(s, goal, 0) == Locate(s, goal, i)
    {
      BeforeNext(s, i);
      if k + h.nodes[i].count > goal {
        return;
      }
      k := k + h.nodes[i].count;
      i := i + 1;
    }
  }

  method Read(h: Histogram, goal: real, at: nat, before: real) returns (value: real)
    requires h.Valid() && h.unmergedNodes == 0 && h.mergedNodes > 0
    requires at <= h.mergedNodes && at == Locate(h.Used(), goal, 0) && before == Before(h.Used(), at)
    requires Digest(h.Used()) && 0.0 <= goal <= Before(h.Used(), h.mergedNodes)
    ensures value == ValueOf(h.Used(), goal)
  {
    hide Before, Locate;
    ghost var s := h.Used();
    var i, k := at, before;
    var n := h.nodes[if i == h.mergedNodes then i - 1 else i];
    var off := goal - k - n.count / 2.0;
    if -TINY <= off <= TINY {
      return n.mean;
    }
    var right := off > 0.0;
    if (right && i + 1 == h.mergedNodes) || (!right && i == 0) {
      return n.mean;
    }
    var left, next := n, n;
    if right {
      next := h.nodes[i + 1];
      k := k + left.count / 2.0;
    } else {
      left := h.nodes[i - 1];
      k := k - left.count / 2.0;
      StepBack(s, i);
    }
    var x := goal - k;
    var m := (next.mean - left.mean) / (left.count / 2.0 + next.count / 2.0);
    value := m * x + left.mean;
  }

  lemma StepBack(s: seq<Node>, i: nat)
    requires 0 < i <= |s|
    ensures Before(s, i) - s[i - 1].count / 2.0 == Centre(s, i - 1)
  {
    BeforeNext(s, i - 1);
  }

  /** The quantile of `v`, or `None` for an empty digest. */
  method QuantileOf(h: Histogram, v: real) returns (r: Option<real>)
    requires h.Valid()
    modifies h, h.nodes
    ensures h.Valid() && h.unmergedNodes == 0
    ensures h.mergedCount == h.TotalCount() == old(h.TotalCount()) && MassSum(h.Used()) == old(MassSum(h.Used()))
    ensures r.None? <==> h.Used() == []
    ensures r.Some? ==> Digest(h.Used()) && h.mergedCount > 0.0 && r.value == Rank(h.Used(), v) / h.mergedCount
  {
    hide Before, Centre, Packed, MassSum, CountSum, Rank;
    h.Flush();
    if h.mergedNodes == 0 {
      return None;
    }
    WholeIsTotal(h);
    var k := CountBelow(h, v);
    r := Some(k / h.mergedCount);
  }

  /** The count below `v`; the program's early `1` is the whole count over itself. */
  method CountBelow(h: Histogram, v: real) returns (k: real)
    requires h.Valid() && h.unmergedNodes == 0 && h.mergedNodes > 0 && Digest(h.Used())
    ensures k == Rank(h.Used(), v)
  {
    hide Before, Centre, Inverse, Positive, Sorted;
    ghost var s := h.Used();
    var i: nat;
    i, k := ScanBelow(h, v);
    assert h.Used() == s;
    if i == h.mergedNodes {
      return;
    }
    var n := h.nodes[i];
    if v == n.mean {
      var at := CountAt(h, v, i);
      assert h.Used() == s;
      return k + at / 2.0;
    } else if i == 0 {
      return 0.0;
    }
    var left := h.nodes[i - 1];
    assert left == s[i - 1] && n == s[i] && left.count > 0.0 && n.count > 0.0 by { Counted(h, i - 1); Counted(h, i); }
    StepBack(s, i);
    k := k - left.count / 2.0;
    var x := Inverse(n.mean - left.mean, left.count / 2.0 + n.count / 2.0, v - left.mean);
    k := k + x;
  }

  lemma Counted(h: Histogram, i: nat)
    requires h.Valid() && i < h.mergedNodes && h.unmergedNodes == 0
    ensures h.nodes[i].count > 0.0 && h.Used()[i] == h.nodes[i]
  {
    assert h.Used()[i].count > 0.0;
  }

  method ScanBelow(h: Histogram, v: real) returns (i: nat, k: real)
    requires h.Valid() && h.unmergedNodes == 0
    ensures i <= h.mergedNodes && i == FirstAtLeast(h.Used(), v, 0) && k == Before(h.Used(), i)
  {
    hide Before;
    ghost var s := h.Used();
    i, k := 0, 0.0;
    NothingBefore(s);
    while i < h.mergedNodes && h.nodes[i].mean < v
      invariant i <= h.mergedNodes && k == Before(s, i)
      invariant FirstAtLeast(s, v, 0) == FirstAtLeast(s, v, i)
    {
      BeforeNext(s, i);
      k := k + h.nodes[i].count;
      i := i + 1;
    }
  }

  method CountAt(h: Histogram, v: real, i: nat) returns (at: real)
    requires h.Valid() && h.unmergedNodes == 0 && i < h.mergedNodes && h.nodes[i].mean == v
    ensures at == Before(h.Used(), RunEnd(h.Used(), v, i + 1)) - Before(h.Used(), i)
  {
    ghost var s := h.Used();
    BeforeNext(s, i);
    at := h.nodes[i].count;
    var j := i + 1;
    while j < h.mergedNodes && h.nodes[j].mean == v
      invariant i < j <= h.mergedNodes && at == Before(s, j) - Before(s, i)
      invariant RunEnd(s, v, i + 1) == RunEnd(s, v, j)
    {
      BeforeNext(s, j);
      at := at + h.nodes[j].count;
      j := j + 1;
    }
  }
}
