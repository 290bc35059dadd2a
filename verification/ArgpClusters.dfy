/** The order of option clusters in help output. */
module ArgpClusters {

  /** A cluster of the help table; the fields never change once it is made. */
  class Cluster {
    const index: int
    const group: int
    const parent: Cluster?
    const depth: nat

    /** hol_add_cluster. */
    constructor (group: int, index: int, parent: Cluster?)
      ensures this.group == group && this.index == index && this.parent == parent
      ensures depth == if parent == null then 0 else parent.depth + 1
    {
      this.group, this.index, this.parent := group, index, parent;
      this.depth := if parent == null then 0 else parent.depth + 1;
    }
  }

  /** The depth fields count the ancestors. */
  ghost predicate WellFormed(c: Cluster)
    decreases c.depth
  {
    if c.parent == null then c.depth == 0 else c.depth == c.parent.depth + 1 && WellFormed(c.parent)
  }

  /** The clusters from the root down to C. */
  ghost function Path(c: Cluster): (r: seq<Cluster>)
    requires WellFormed(c)
    ensures |r| == c.depth + 1 && r[c.depth] == c
    decreases c.depth
  {
    if c.parent == null then [c] else Path(c.parent) + [c]
  }

  /** Positive when GROUP2 comes first, negative when GROUP1 does; equal groups leave the answer to EQ. */
  function GroupCmp(group1: int, group2: int, eq: int): int {
    if group1 == group2 then eq
    else if (group1 < 0 && group2 < 0) || (group1 >= 0 && group2 >= 0) then group1 - group2
    else group2 - group1
  }

  /** The place of a group in that order: non-negative groups first, in order, then the negative ones. */
  predicate GroupBefore(g: int, h: int) {
    if (g < 0) == (h < 0) then g < h else g >= 0
  }

  /** C comes before D among siblings: by group, and within a group the one with the HIGHER index. */
  predicate SiblingBefore(c: Cluster, d: Cluster) {
    GroupBefore(c.group, d.group) || (c.group == d.group && c.index > d.index)
  }

  function SiblingCmp(c: Cluster, d: Cluster): int {
    GroupCmp(c.group, d.group, d.index - c.index)
  }

  lemma SiblingCmpSign(c: Cluster, d: Cluster)
    ensures SiblingCmp(c, d) < 0 <==> SiblingBefore(c, d)
    ensures SiblingCmp(c, d) > 0 <==> SiblingBefore(d, c)
    ensures SiblingCmp(c, d) == -SiblingCmp(d, c)
  {
  }

  lemma SiblingTransitive(a: Cluster, b: Cluster, c: Cluster)
    requires SiblingBefore(a, b) && SiblingBefore(b, c)
    ensures SiblingBefore(a, c) && a != c
  {
  }

  // ---------- the comparison, as the code makes it ----------

  /** How the comparison ends: with a number, or by following the parent of a root cluster. */
  datatype Comparison = Compared(r: int) | NullParent

  /** What it returns for clusters of the same depth. */
  ghost function Cmp(c: Cluster, d: Cluster): int
    requires WellFormed(c) && WellFormed(d) && c.depth == d.depth
    decreases c.depth
  {
    if c.parent == d.parent then SiblingCmp(c, d) else Cmp(c.parent, d.parent)
  }

  /** hol_cluster_cmp.  The first two loops move the cluster that is LESS deep, so they only stop in
      time when the depths are equal to begin with. */
  method ClusterCmp(cl1: Cluster, cl2: Cluster) returns (r: Comparison)
    requires WellFormed(cl1) && WellFormed(cl2)
    ensures r.Compared? <==> cl1.depth == cl2.depth
    ensures r.Compared? ==> r.r == Cmp(cl1, cl2)
  {
    var c1: Cluster? := cl1;
    while c1 != null && c1.depth < cl2.depth
      invariant c1 == null ==> cl1.depth < cl2.depth
      invariant c1 != null ==> WellFormed(c1) && c1.depth <= cl1.depth && (cl1.depth >= cl2.depth ==> c1 == cl1)
      decreases c1 != null, if c1 == null then 0 else c1.depth
    {
      c1 := c1.parent;
    }
    if c1 == null {
      return NullParent;
    }
    var c2: Cluster? := cl2;
    while c2 != null && c2.depth < c1.depth
      invariant c2 == null ==> cl2.depth < cl1.depth
      invariant c2 != null ==> WellFormed(c2) && c2.depth <= cl2.depth && (cl2.depth >= cl1.depth ==> c2 == cl2)
      decreases c2 != null, if c2 == null then 0 else c2.depth
    {
      c2 := c2.parent;
    }
    if c2 == null {
      return NullParent;
    }
    var a: Cluster, b: Cluster := c1, c2;
    while a.parent != b.parent
      invariant WellFormed(a) && WellFormed(b) && a.depth == b.depth && Cmp(a, b) == Cmp(cl1, cl2)
      decreases a.depth
    {
      a, b := a.parent, b.parent;
    }
    r := Compared(GroupCmp(a.group, b.group, b.index - a.index));
  }

  /** A cluster and one inside it: both argument orders end at the parent of the root, though the
      order they should appear in is meant to be found for any two clusters. */
  method NestedClusters() returns (r: Comparison, s: Comparison)
    ensures r == NullParent && s == NullParent
  {
    var outer := new Cluster(0, 0, null);
    var inner := new Cluster(0, 0, outer);
    r := ClusterCmp(outer, inner);
    s := ClusterCmp(inner, outer);
  }

  // ---------- what the comparison compares ----------

  /** P and Q first differ at K. */
  ghost predicate DiffersFirstAt(p: seq<Cluster>, q: seq<Cluster>, k: nat) {
    k < |p| && k < |q| && p[k] != q[k] && forall i :: 0 <= i < k ==> p[i] == q[i]
  }

  /** The comparison is between the two ancestors just below the lowest common ancestor. */
  lemma {:induction false} CmpBelowCommonAncestor(c: Cluster, d: Cluster) returns (k: nat)
    requires WellFormed(c) && WellFormed(d) && c.depth == d.depth && c != d
    ensures DiffersFirstAt(Path(c), Path(d), k)
    ensures Cmp(c, d) == SiblingCmp(Path(c)[k], Path(d)[k])
    decreases c.depth
  {
    if c.parent == d.parent {
      k := c.depth;
    } else {
      k := CmpBelowCommonAncestor(c.parent, d.parent);
    }
  }

  lemma FirstDifferenceUnique(p: seq<Cluster>, q: seq<Cluster>, j: nat, k: nat)
    requires DiffersFirstAt(p, q, j) && DiffersFirstAt(p, q, k)
    ensures j == k
  {
  }

  lemma {:induction false} CmpAntisymmetric(c: Cluster, d: Cluster)
    requires WellFormed(c) && WellFormed(d) && c.depth == d.depth
    ensures Cmp(c, d) == -Cmp(d, c)
    decreases c.depth
  {
    if c.parent != d.parent {
      CmpAntisymmetric(c.parent, d.parent);
    }
  }

  /** First differences chain: A to B to C. */
  lemma FirstDifferenceChain(p: seq<Cluster>, q: seq<Cluster>, r: seq<Cluster>, j: nat, k: nat)
    requires DiffersFirstAt(p, q, j) && DiffersFirstAt(q, r, k) && |p| == |q| == |r|
    ensures j < k ==> DiffersFirstAt(p, r, j) && q[j] == r[j]
    ensures k < j ==> DiffersFirstAt(p, r, k) && p[k] == q[k]
    ensures j == k && p[j] != r[j] ==> DiffersFirstAt(p, r, j)
  {
  }

  /** Strictly before is transitive, without any condition on siblings. */
  lemma CmpTransitive(a: Cluster, b: Cluster, c: Cluster)
    requires WellFormed(a) && WellFormed(b) && WellFormed(c) && a.depth == b.depth == c.depth
    requires Cmp(a, b) < 0 && Cmp(b, c) < 0
    ensures Cmp(a, c) < 0
  {
    var j := CmpBelowCommonAncestor(a, b);
    var k := CmpBelowCommonAncestor(b, c);
    var p, q, r := Path(a), Path(b), Path(c);
    SiblingCmpSign(p[j], q[j]);
    SiblingCmpSign(q[k], r[k]);
    if j == k {
      SiblingTransitive(p[j], q[j], r[j]);
    }
    FirstDifferenceChain(p, q, r, j, k);
    var m := CmpBelowCommonAncestor(a, c);
    FirstDifferenceUnique(p, r, m, if j <= k then j else k);
    SiblingCmpSign(p[m], r[m]);
  }

  /** Siblings differ in group or index. */
  ghost predicate SiblingsDiffer(c: Cluster, d: Cluster) {
    c != d && c.parent == d.parent ==> c.group != d.group || c.index != d.index
  }

  lemma {:induction false} ParentOnPath(c: Cluster, k: nat)
    requires WellFormed(c) && k <= c.depth
    ensures Path(c)[k].parent == if k == 0 then null else Path(c)[k - 1]
    decreases c.depth
  {
    if k < c.depth {
      ParentOnPath(c.parent, k);
    }
  }

  /** Only a cluster compares equal to itself, when the two ancestors compared are told apart by group
      or index. */
  lemma CmpTotal(c: Cluster, d: Cluster)
    requires WellFormed(c) && WellFormed(d) && c.depth == d.depth
    requires forall j :: 0 <= j <= c.depth ==> SiblingsDiffer(Path(c)[j], Path(d)[j])
    ensures Cmp(c, d) == 0 <==> c == d
    decreases c.depth
  {
    if c != d {
      var k := CmpBelowCommonAncestor(c, d);
      ParentOnPath(c, k);
      ParentOnPath(d, k);
      if k > 0 {
        assert Path(c)[k - 1] == Path(d)[k - 1];
      }
      assert SiblingsDiffer(Path(c)[k], Path(d)[k]);
      SiblingCmpSign(Path(c)[k], Path(d)[k]);
    } else {
      CmpAntisymmetric(c, d);
    }
  }
}
