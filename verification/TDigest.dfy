/** The t-digest: a buffer of weighted means that is merged in place. Doubles are reals here, and
    the size limit of a merged node is an arbitrary policy. */
module TDigests {

  datatype Node = Node(mean: real, count: real)

  const ZERO: Node := Node(0.0, 0.0)

  /** May a node of the proposed count be formed after `soFar` of `total`? */
  type Policy = (real, real, real) -> bool

  function CountSum(s: seq<Node>): real {
    if s == [] then 0.0 else CountSum(s[..|s| - 1]) + s[|s| - 1].count
  }

  function Mass(n: Node): real {
    n.mean * n.count
  }

  function MassSum(s: seq<Node>): real {
    if s == [] then 0.0 else MassSum(s[..|s| - 1]) + Mass(s[|s| - 1])
  }

  ghost predicate Positive(s: seq<Node>) {
    forall i :: 0 <= i < |s| ==> s[i].count > 0.0
  }

  ghost predicate Sorted(s: seq<Node>) {
    forall i, j :: 0 <= i <= j < |s| ==> s[i].mean <= s[j].mean
  }

  // ----- sums -----

  lemma {:induction false} SumsConcat(s: seq<Node>, t: seq<Node>)
    ensures CountSum(s + t) == CountSum(s) + CountSum(t)
    ensures MassSum(s + t) == MassSum(s) + MassSum(t)
    decreases |t|
  {
    if t == [] {
      assert s + t == s;
    } else {
      var front := t[..|t| - 1];
      SumsConcat(s, front);
      assert (s + t)[..|s + t| - 1] == s + front;
    }
  }

  lemma SumsSnoc(s: seq<Node>, n: Node)
    ensures CountSum(s + [n]) == CountSum(s) + n.count
    ensures MassSum(s + [n]) == MassSum(s) + Mass(n)
  {
    assert (s + [n])[..|s|] == s;
  }

  /** Taking one node out of the middle. */
  lemma SumsWithout(t: seq<Node>, i: nat)
    requires i < |t|
    ensures CountSum(t) == CountSum(t[..i] + t[i + 1..]) + t[i].count
    ensures MassSum(t) == MassSum(t[..i] + t[i + 1..]) + Mass(t[i])
    ensures multiset(t) == multiset(t[..i] + t[i + 1..]) + multiset{t[i]}
  {
    hide CountSum, MassSum;
    assert t == (t[..i] + [t[i]]) + t[i + 1..];
    SumsConcat(t[..i], t[i + 1..]);
    SumsConcat(t[..i] + [t[i]], t[i + 1..]);
    SumsSnoc(t[..i], t[i]);
  }

  lemma MultisetCancels(a: multiset<Node>, b: multiset<Node>, n: Node)
    requires a + multiset{n} == b + multiset{n}
    ensures a == b
  {
    assert a == (a + multiset{n}) - multiset{n};
    assert b == (b + multiset{n}) - multiset{n};
  }

  /** Reordering changes no sum. */
  lemma {:induction false} SumsPermute(s: seq<Node>, t: seq<Node>)
    requires multiset(s) == multiset(t)
    ensures CountSum(s) == CountSum(t) && MassSum(s) == MassSum(t)
    decreases |s|
  {
    hide CountSum, MassSum;
    if s == [] {
      assert |multiset(t)| == 0;
      assert t == [];
    } else {
      var last := |s| - 1;
      assert s[last] in multiset(t);
      var i :| 0 <= i < |t| && t[i] == s[last];
      SumsWithout(s, last);
      SumsWithout(t, i);
      var front, rest := s[..last] + s[last + 1..], t[..i] + t[i + 1..];
      MultisetCancels(multiset(front), multiset(rest), s[last]);
      SumsPermute(front, rest);
    }
  }

  lemma {:induction false} CountSumPositive(s: seq<Node>)
    requires Positive(s)
    ensures CountSum(s) >= 0.0 && (s != [] ==> CountSum(s) > 0.0)
    decreases |s|
  {
    if s != [] {
      CountSumPositive(s[..|s| - 1]);
    }
  }

  // ----- sorting -----

  function Insert(s: seq<Node>, n: Node): seq<Node> {
    if s == [] || s[|s| - 1].mean <= n.mean then s + [n]
    else Insert(s[..|s| - 1], n) + [s[|s| - 1]]
  }

  function Sort(s: seq<Node>): seq<Node> {
    if s == [] then [] else Insert(Sort(s[..|s| - 1]), s[|s| - 1])
  }

  lemma {:induction false} InsertPermutes(s: seq<Node>, n: Node)
    ensures multiset(Insert(s, n)) == multiset(s) + multiset{n}
    decreases |s|
  {
    if s != [] && s[|s| - 1].mean > n.mean {
      var front, last := s[..|s| - 1], s[|s| - 1];
      InsertPermutes(front, n);
      assert s == front + [last];
    }
  }

  /** The means of `s` do not exceed `m`. */
  ghost predicate UpTo(s: seq<Node>, m: real) {
    forall i :: 0 <= i < |s| ==> s[i].mean <= m
  }

  lemma SortedSnoc(s: seq<Node>, n: Node)
    requires Sorted(s) && UpTo(s, n.mean)
    ensures Sorted(s + [n])
  {
  }

  lemma {:induction false} InsertSorts(s: seq<Node>, n: Node, m: real)
    requires Sorted(s) && UpTo(s, m) && n.mean <= m
    ensures Sorted(Insert(s, n)) && UpTo(Insert(s, n), m)
    decreases |s|
  {
    if s == [] || s[|s| - 1].mean <= n.mean {
      SortedSnoc(s, n);
    } else {
      var front, last := s[..|s| - 1], s[|s| - 1];
      InsertSorts(front, n, last.mean);
      SortedSnoc(Insert(front, n), last);
    }
  }

  lemma {:induction false} SortSorts(s: seq<Node>)
    ensures Sorted(Sort(s)) && multiset(Sort(s)) == multiset(s) && |Sort(s)| == |s|
    decreases |s|
  {
    hide Insert;
    if s != [] {
      var front, last := s[..|s| - 1], s[|s| - 1];
      var t := Sort(front);
      SortSorts(front);
      InsertPermutes(t, last);
      var m := if t == [] || t[|t| - 1].mean <= last.mean then last.mean else t[|t| - 1].mean;
      InsertSorts(t, last, m);
      assert s == front + [last];
      assert |multiset(Sort(s))| == |Sort(s)| && |multiset(s)| == |s|;
    }
  }

  /** The library sort the merge relies on: some sorted reordering of the first `n` nodes. */
  method QSort(a: array<Node>, n: nat)
    requires n <= a.Length
    modifies a
    ensures Sorted(a[..n]) && multiset(a[..n]) == multiset(old(a[..n]))
    ensures a[n..] == old(a[n..])
  {
    hide Sort, Sorted;
    var t := Sort(a[..n]);
    SortSorts(a[..n]);
    forall i | 0 <= i < n {
      a[i] := t[i];
    }
    assert a[..n] == t;
  }

  // ----- joining two nodes -----

  /** The node that stands for `x` and `y` together. */
  function Join(x: Node, y: Node): Node
    requires x.count + y.count != 0.0
  {
    var delta := y.mean - x.mean;
    Node(x.mean + (delta * y.count) / (x.count + y.count), x.count + y.count)
  }

  lemma Times(a: real, x: real, y: real)
    requires a >= 0.0 && x <= y
    ensures a * x <= a * y && x * a <= y * a
  {
    assert 0.0 <= a * (y - x);
  }

  lemma TimesStrictly(a: real, x: real, y: real)
    requires a > 0.0 && x < y
    ensures a * x < a * y
  {
    assert 0.0 < a * (y - x);
  }

  /** A common positive factor cancels. */
  lemma Cancel(a: real, x: real, y: real)
    requires a > 0.0 && a * x <= a * y
    ensures x <= y
  {
    if y < x {
      TimesStrictly(a, y, x);
    }
  }

  lemma Share(d: real, a: real, b: real)
    requires d >= 0.0 && a > 0.0 && b > 0.0
    ensures 0.0 <= (d * b) / (a + b) <= d
    ensures ((d * b) / (a + b)) * (a + b) == d * b
  {
    var q := (d * b) / (a + b);
    assert (a + b) * q == d * b;
    Times(d, 0.0, b);
    Times(d, b, a + b);
    Cancel(a + b, 0.0, q);
    Cancel(a + b, q, d);
  }

  /** Joining keeps count and mass; the joined mean lies between the two. */
  lemma JoinConserves(x: Node, y: Node)
    requires x.count > 0.0 && y.count > 0.0 && x.mean <= y.mean
    ensures Join(x, y).count == x.count + y.count
    ensures Mass(Join(x, y)) == Mass(x) + Mass(y)
    ensures x.mean <= Join(x, y).mean <= y.mean
  {
    var d := y.mean - x.mean;
    Share(d, x.count, y.count);
    var q := (d * y.count) / (x.count + y.count);
    var c := x.count + y.count;
    assert (x.mean + q) * c == x.mean * c + q * c;
    assert x.mean * c == x.mean * x.count + x.mean * y.count;
    assert d * y.count == y.mean * y.count - x.mean * y.count;
  }

  // ----- what one merge pass makes of sorted nodes -----

  /** The next node either joins the last one formed or starts a new one. */
  function Step(p: seq<Node>, b: Node, total: real, policy: Policy): (r: seq<Node>)
    requires p != [] && Positive(p) && b.count > 0.0
    ensures 1 <= |r| <= |p| + 1 && Positive(r)
  {
    var front, cur := p[..|p| - 1], p[|p| - 1];
    if policy(cur.count + b.count, CountSum(front), total) then front + [Join(cur, b)] else p + [b]
  }

  /** The nodes a pass has formed once it has seen the first `n` of `s`. */
  function Packed(s: seq<Node>, n: nat, total: real, policy: Policy): (p: seq<Node>)
    requires 1 <= n <= |s| && Positive(s)
    ensures 1 <= |p| <= n && Positive(p)
  {
    if n == 1 then [s[0]] else Step(Packed(s, n - 1, total, policy), s[n - 1], total, policy)
  }

  lemma StepConserves(p: seq<Node>, b: Node, total: real, policy: Policy)
    requires p != [] && Positive(p) && Sorted(p) && UpTo(p, b.mean) && b.count > 0.0
    ensures CountSum(Step(p, b, total, policy)) == CountSum(p) + b.count
    ensures MassSum(Step(p, b, total, policy)) == MassSum(p) + Mass(b)
    ensures Sorted(Step(p, b, total, policy)) && UpTo(Step(p, b, total, policy), b.mean)
  {
    hide CountSum, MassSum, Join, Mass;
    var front, cur := p[..|p| - 1], p[|p| - 1];
    assert p == front + [cur];
    JoinConserves(cur, b);
    SumsSnoc(front, cur);
    SumsSnoc(front, Join(cur, b));
    SumsSnoc(p, b);
    SortedSnoc(front, Join(cur, b));
    SortedSnoc(p, b);
  }

  /** A whole pass over sorted nodes keeps count and mass and leaves the formed means sorted. */
  lemma {:induction false} PackedConserves(s: seq<Node>, n: nat, total: real, policy: Policy)
    requires 1 <= n <= |s| && Positive(s) && Sorted(s)
    ensures CountSum(Packed(s, n, total, policy)) == CountSum(s[..n])
    ensures MassSum(Packed(s, n, total, policy)) == MassSum(s[..n])
    ensures Sorted(Packed(s, n, total, policy)) && UpTo(Packed(s, n, total, policy), s[n - 1].mean)
  {
    hide CountSum, MassSum, Mass, Step;
    if n == 1 {
      assert s[..1] == [s[0]];
    } else {
      PackedConserves(s, n - 1, total, policy);
      assert s[..n] == s[..n - 1] + [s[n - 1]];
      SumsSnoc(s[..n - 1], s[n - 1]);
      StepConserves(Packed(s, n - 1, total, policy), s[n - 1], total, policy);
    }
  }

  // ----- the histogram -----

  class Histogram {
    const nodes: array<Node>
    const policy: Policy
    var mergedNodes: nat
    var unmergedNodes: nat
    var mergedCount: real
    var unmergedCount: real

    constructor (cap: nat, policy: Policy)
      requires cap >= 1
      ensures Valid() && fresh(nodes) && nodes.Length == cap
      ensures Used() == [] && TotalCount() == 0.0
    {
      this.policy := policy;
      nodes := new Node[cap](i => ZERO);
      mergedNodes, unmergedNodes, mergedCount, unmergedCount := 0, 0, 0.0, 0.0;
    }

    ghost predicate Bounded() reads this {
      mergedNodes + unmergedNodes <= nodes.Length && nodes.Length >= 1
    }

    ghost predicate Valid() reads this, nodes {
      && Bounded()
      && Positive(Used()) && Sorted(nodes[..mergedNodes])
      && mergedCount == CountSum(nodes[..mergedNodes])
      && mergedCount + unmergedCount == CountSum(Used())
    }

    /** The nodes in use, merged ones first. */
    ghost function Used(): seq<Node>
      requires Bounded()
      reads this, nodes
    {
      nodes[..mergedNodes + unmergedNodes]
    }

    function TotalCount(): real reads this {
      mergedCount + unmergedCount
    }

    method TotalSum() returns (sum: real)
      requires Valid()
      ensures sum == MassSum(Used())
    {
      sum := 0.0;
      for i := 0 to mergedNodes + unmergedNodes
        invariant sum == MassSum(nodes[..i])
      {
        SumsSnoc(nodes[..i], nodes[i]);
        assert nodes[..i + 1] == nodes[..i] + [nodes[i]];
        sum := sum + nodes[i].mean * nodes[i].count;
      }
    }

    /** Sort, then join neighbours in place; `order` is the order the sort chose. */
    method Merge() returns (ghost order: seq<Node>)
      requires Valid()
      modifies this, nodes
      ensures Valid() && unmergedNodes == 0 && unmergedCount == 0.0
      ensures TotalCount() == old(TotalCount()) && MassSum(Used()) == old(MassSum(Used()))
      ensures mergedNodes <= old(mergedNodes + unmergedNodes)
      ensures old(unmergedNodes) == 0 ==> nodes[..] == old(nodes[..]) && mergedNodes == old(mergedNodes)
      ensures old(unmergedNodes) > 0 ==>
        && mergedNodes >= 1
        && Sorted(order) && multiset(order) == multiset(old(Used())) && Positive(order) && order != []
        && Used() == Packed(order, |order|, old(TotalCount()), policy)
    {
      hide CountSum, MassSum, Mass, Step, Packed, Sorted, Positive;
      order := [];
      if unmergedNodes == 0 {
        return;
      }
      var n := mergedNodes + unmergedNodes;
      var total := mergedCount + unmergedCount;
      var cur: nat;
      cur, order := SortAndPack(n, total);
      mergedNodes := cur + 1;
      mergedCount := total;
      unmergedNodes := 0;
      unmergedCount := 0.0;
    }

    /** A merge whose order nobody needs. */
    method Flush()
      requires Valid()
      modifies this, nodes
      ensures Valid() && unmergedNodes == 0 && unmergedCount == 0.0
      ensures TotalCount() == old(TotalCount()) && MassSum(Used()) == old(MassSum(Used()))
    {
      hide *;
      var _ := Merge();
    }

    method SortAndPack(n: nat, total: real) returns (cur: nat, ghost order: seq<Node>)
      requires 1 <= n <= nodes.Length && Positive(nodes[..n])
      modifies nodes
      ensures cur < n == |order| && Sorted(order) && multiset(order) == multiset(old(nodes[..n])) && Positive(order)
      ensures nodes[..cur + 1] == Packed(order, n, total, policy)
      ensures Sorted(nodes[..cur + 1]) && Positive(nodes[..cur + 1])
      ensures CountSum(nodes[..cur + 1]) == CountSum(old(nodes[..n]))
      ensures MassSum(nodes[..cur + 1]) == MassSum(old(nodes[..n]))
    {
      hide CountSum, MassSum, Mass, Step, Sorted;
      ghost var used := nodes[..n];
      QSort(nodes, n);
      order := nodes[..n];
      PermutedIsPositive(order, used);
      SumsPermute(order, used);
      cur := Pack(n, total);
      PackedConserves(order, n, total, policy);
      assert order[..n] == order;
    }

    /** The joining loop over the first `n` nodes; cells it empties become zero. */
    method Pack(n: nat, total: real) returns (cur: nat)
      requires 1 <= n <= nodes.Length && Positive(nodes[..n])
      modifies nodes
      ensures cur < n && nodes[..cur + 1] == Packed(old(nodes[..n]), n, total, policy)
      ensures forall j :: cur < j < n ==> nodes[j] == ZERO
      ensures nodes[n..] == old(nodes[n..])
    {
      hide CountSum, MassSum, Step;
      ghost var s := nodes[..n];
      cur := 0;
      var soFar := 0.0;
      assert nodes[..1] == [s[0]];
      EmptySum(nodes[..0]);
      for i := 1 to n
        invariant cur < i && nodes[..cur + 1] == Packed(s, i, total, policy)
        invariant soFar == CountSum(nodes[..cur])
        invariant forall j :: cur < j < i ==> nodes[j] == ZERO
        invariant forall j :: i <= j < n ==> nodes[j] == s[j]
        invariant forall j :: n <= j < nodes.Length ==> nodes[j] == old(nodes[j])
      {
        cur, soFar := PackOne(cur, i, soFar, total);
      }
    }

    /** One turn of the joining loop: node `i` joins node `cur` or moves up behind it. */
    method PackOne(cur: nat, i: nat, soFar: real, total: real) returns (next: nat, more: real)
      requires cur < i < nodes.Length && Positive(nodes[..cur + 1]) && nodes[i].count > 0.0
      requires soFar == CountSum(nodes[..cur])
      requires forall j :: cur < j < i ==> nodes[j] == ZERO
      modifies nodes
      ensures next <= i && nodes[..next + 1] == Step(old(nodes[..cur + 1]), old(nodes[i]), total, policy)
      ensures more == CountSum(nodes[..next])
      ensures forall j :: next < j <= i ==> nodes[j] == ZERO
      ensures forall j :: i < j < nodes.Length ==> nodes[j] == old(nodes[j])
    {
      hide CountSum, MassSum, Join;
      ghost var p, front := nodes[..cur + 1], nodes[..cur];
      var a, b := nodes[cur], nodes[i];
      assert p == front + [a] && p[..|p| - 1] == front;
      next, more := cur, soFar;
      if policy(a.count + b.count, soFar, total) {
        nodes[cur] := Join(a, b);
        assert nodes[..cur] == front;
        assert nodes[..cur + 1] == front + [Join(a, b)];
      } else {
        SumsSnoc(front, a);
        more := more + a.count;
        next := cur + 1;
        nodes[next] := b;
        assert nodes[..next] == p;
        assert nodes[..next + 1] == p + [b];
      }
      ghost var q, done := nodes[..next + 1], nodes[..next];
      if next != i {
        nodes[i] := ZERO;
      }
      assert nodes[..next + 1] == q && nodes[..next] == done;
    }

    /** Buffer one weighted mean, merging first when the array is full. `ok` is false when the merge
        freed no cell; nothing is lost then and nothing is added. */
    method Add(mean: real, count: real) returns (ok: bool)
      requires Valid() && count > 0.0
      modifies this, nodes
      ensures Valid()
      ensures old(mergedNodes + unmergedNodes) < nodes.Length ==> ok && Used() == old(Used()) + [Node(mean, count)]
      ensures TotalCount() == old(TotalCount()) + if ok then count else 0.0
      ensures MassSum(Used()) == old(MassSum(Used())) + if ok then Mass(Node(mean, count)) else 0.0
    {
      hide CountSum, MassSum, Mass, Packed;
      if mergedNodes + unmergedNodes == nodes.Length {
        Flush();
      }
      var next := mergedNodes + unmergedNodes;
      ok := next < nodes.Length;
      if ok {
        ghost var was, front := Used(), nodes[..mergedNodes];
        nodes[next] := Node(mean, count);
        unmergedNodes := unmergedNodes + 1;
        unmergedCount := unmergedCount + count;
        assert Used() == was + [Node(mean, count)] && nodes[..mergedNodes] == front;
        SumsSnoc(was, Node(mean, count));
      }
    }

    /** Empty `from` into this histogram, node by node; `added` nodes found room. */
    method MergeFrom(from: Histogram) returns (added: nat)
      requires Valid() && from.Valid() && from != this && from.nodes != nodes
      modifies this, nodes, from, from.nodes
      ensures Valid() && from.Valid() && from.unmergedNodes == 0
      ensures from.TotalCount() == old(from.TotalCount()) && MassSum(from.Used()) == old(MassSum(from.Used()))
      ensures added <= from.mergedNodes
      ensures TotalCount() == old(TotalCount()) + CountSum(from.Used()[..added])
      ensures MassSum(Used()) == old(MassSum(Used())) + MassSum(from.Used()[..added])
      ensures added == from.mergedNodes ==>
        && TotalCount() == old(TotalCount() + from.TotalCount())
        && MassSum(Used()) == old(MassSum(Used()) + MassSum(from.Used()))
    {
      hide CountSum, MassSum, Mass, Packed, Sorted, Positive;
      Flush();
      from.Flush();
      ghost var other := from.Used();
      added := Pour(from);
      assert other[..|other|] == other;
    }

    method Pour(from: Histogram) returns (added: nat)
      requires Valid() && from.Valid() && from.unmergedNodes == 0 && from != this && from.nodes != nodes
      modifies this, nodes
      ensures Valid() && added <= from.mergedNodes
      ensures TotalCount() == old(TotalCount()) + CountSum(from.Used()[..added])
      ensures MassSum(Used()) == old(MassSum(Used())) + MassSum(from.Used()[..added])
    {
      hide CountSum, MassSum, Mass, Packed, Sorted;
      ghost var other := from.Used();
      added := 0;
      EmptySum(other[..0]);
      for i := 0 to from.mergedNodes
        invariant Valid() && added <= i
        invariant TotalCount() == old(TotalCount()) + CountSum(other[..added])
        invariant MassSum(Used()) == old(MassSum(Used())) + MassSum(other[..added])
      {
        var node := from.nodes[i];
        assert node == other[i];
        if added == i {
          var ok := Add(node.mean, node.count);
          if ok {
            SumsSnoc(other[..i], node);
            assert other[..i + 1] == other[..i] + [node];
            added := added + 1;
          }
        }
      }
    }
  }

  lemma EmptySum(s: seq<Node>)
    requires s == []
    ensures CountSum(s) == 0.0 && MassSum(s) == 0.0
  {
  }

  lemma PermutedIsPositive(s: seq<Node>, t: seq<Node>)
    requires multiset(s) == multiset(t) && Positive(t)
    ensures Positive(s) && |s| == |t|
  {
    assert |multiset(s)| == |multiset(t)|;
    forall i | 0 <= i < |s| ensures s[i].count > 0.0 {
      assert s[i] in multiset(t);
    }
  }
}
