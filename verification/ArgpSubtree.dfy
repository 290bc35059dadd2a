/** Where the nodes of the tree of argps are in the array of groups. */
module ArgpSubtree {
  import opened Maybes
  import opened ArgpTypes
  import opened ArgpGroups

  /** PATH, a list of child numbers, leads from ARGP to one of its descendants, or to itself. */
  predicate IsPath(argp: Argp, path: seq<nat>)
    decreases |path|
  {
    path == [] || (path[0] < Count(argp.children) && IsPath(Nth(argp.children, path[0]), path[1..]))
  }

  function NodeAt(argp: Argp, path: seq<nat>): Argp
    requires IsPath(argp, path)
    decreases |path|
  {
    if path == [] then argp else NodeAt(Nth(argp.children, path[0]), path[1..])
  }

  /** The groups of the first I trees of CS. */
  function GroupsBefore(cs: Children, i: nat): nat
    requires i <= Count(cs)
  {
    if i == 0 then 0 else TreeSizes(cs.argp).groups + GroupsBefore(cs.rest, i - 1)
  }

  /** How many groups are entered before the node at PATH: its own group number, if it needs a group. */
  function GroupNumber(argp: Argp, path: seq<nat>): nat
    requires IsPath(argp, path)
    decreases |path|
  {
    if path == [] then 0
    else
      (if NeedsGroup(argp) then 1 else 0) + GroupsBefore(argp.children, path[0])
      + GroupNumber(Nth(argp.children, path[0]), path[1..])
  }

  /** PATH leads to a node that has a group. */
  predicate HasGroup(argp: Argp, path: seq<nat>) {
    IsPath(argp, path) && NeedsGroup(NodeAt(argp, path))
  }

  lemma {:induction false} NodeHasGroup(argp: Argp, path: seq<nat>, parent: Maybe<nat>, index: nat, base: nat, inputs: nat)
    requires HasGroup(argp, path)
    ensures var f, n := Flatten(argp, parent, index, base, inputs), GroupNumber(argp, path);
            n < |f| && f[n].argp == NodeAt(argp, path)
    decreases argp, 0
  {
    if path != [] {
      if NeedsGroup(argp) {
        NthHasGroup(argp.children, path[0], path[1..], Some(base), 0, base + 1, inputs + Count(argp.children));
      } else {
        NthHasGroup(argp.children, path[0], path[1..], None, 0, base, inputs);
      }
    }
  }

  lemma {:induction false} NthHasGroup(cs: Children, i: nat, path: seq<nat>, parent: Maybe<nat>, index: nat, base: nat, inputs: nat)
    requires i < Count(cs) && HasGroup(Nth(cs, i), path)
    ensures var f, n := FlattenAll(cs, parent, index, base, inputs), GroupsBefore(cs, i) + GroupNumber(Nth(cs, i), path);
            n < |f| && f[n].argp == NodeAt(Nth(cs, i), path)
    decreases cs, 1
  {
    var a := Flatten(cs.argp, parent, index, base, inputs);
    FlattenSize(cs.argp, parent, index, base, inputs);
    if i == 0 {
      NodeHasGroup(cs.argp, path, parent, index, base, inputs);
    } else {
      NthHasGroup(cs.rest, i - 1, path, parent, index + 1, base + |a|, inputs + SlotCount(cs.argp));
    }
  }

  lemma NumberInRange(argp: Argp, path: seq<nat>)
    requires HasGroup(argp, path)
    ensures GroupNumber(argp, path) < TreeSizes(argp).groups
  {
    NodeHasGroup(argp, path, None, 0, 0, 0);
    FlattenSize(argp, None, 0, 0, 0);
  }

  /** The way to a descendant goes through the node. */
  lemma {:induction false} PathThrough(argp: Argp, path: seq<nat>, more: seq<nat>)
    requires IsPath(argp, path)
    ensures IsPath(argp, path + more) <==> IsPath(NodeAt(argp, path), more)
    ensures IsPath(argp, path + more) ==>
              && NodeAt(argp, path + more) == NodeAt(NodeAt(argp, path), more)
              && GroupNumber(argp, path + more) == GroupNumber(argp, path) + GroupNumber(NodeAt(argp, path), more)
    decreases |path|
  {
    if path == [] {
      assert path + more == more;
    } else {
      assert (path + more)[1..] == path[1..] + more;
      PathThrough(Nth(argp.children, path[0]), path[1..], more);
    }
  }

  /** Every group belongs to a node. */
  lemma {:induction false} NodeOfGroup(argp: Argp, k: nat) returns (path: seq<nat>)
    requires k < TreeSizes(argp).groups
    ensures HasGroup(argp, path) && GroupNumber(argp, path) == k
    decreases argp, 0
  {
    if NeedsGroup(argp) && k == 0 {
      path := [];
    } else {
      var i, rest := NthOfGroup(argp.children, if NeedsGroup(argp) then k - 1 else k);
      path := [i] + rest;
      assert path[1..] == rest;
    }
  }

  lemma {:induction false} NthOfGroup(cs: Children, k: nat) returns (i: nat, path: seq<nat>)
    requires k < ForestSizes(cs).groups
    ensures i < Count(cs) && HasGroup(Nth(cs, i), path) && GroupsBefore(cs, i) + GroupNumber(Nth(cs, i), path) == k
    decreases cs, 1
  {
    var n := TreeSizes(cs.argp).groups;
    if k < n {
      i := 0;
      path := NodeOfGroup(cs.argp, k);
    } else {
      i, path := NthOfGroup(cs.rest, k - n);
      i := i + 1;
    }
  }

  lemma {:induction false} BeforeGrows(cs: Children, i: nat, j: nat)
    requires i < j <= Count(cs)
    ensures GroupsBefore(cs, i) + TreeSizes(Nth(cs, i)).groups <= GroupsBefore(cs, j)
  {
    if i > 0 {
      BeforeGrows(cs.rest, i - 1, j - 1);
    }
  }

  /** No two nodes have the same group. */
  lemma {:induction false} NumberIsUnique(argp: Argp, p: seq<nat>, q: seq<nat>)
    requires HasGroup(argp, p) && HasGroup(argp, q) && GroupNumber(argp, p) == GroupNumber(argp, q)
    ensures p == q
    decreases |p|
  {
    if p != [] && q != [] {
      NumberInRange(Nth(argp.children, p[0]), p[1..]);
      NumberInRange(Nth(argp.children, q[0]), q[1..]);
      if p[0] < q[0] {
        BeforeGrows(argp.children, p[0], q[0]);
      } else if q[0] < p[0] {
        BeforeGrows(argp.children, q[0], p[0]);
      } else {
        NumberIsUnique(Nth(argp.children, p[0]), p[1..], q[1..]);
        assert p == [p[0]] + p[1..] && q == [q[0]] + q[1..];
      }
    }
  }

  /** The groups of a node and of everything below it, also below argps without a group of their own, are the
      groups from its own number on, and no others. */
  lemma SubtreeIsRange(argp: Argp, p: seq<nat>, q: seq<nat>)
    requires HasGroup(argp, p) && HasGroup(argp, q)
    ensures p <= q <==>
            GroupNumber(argp, p) <= GroupNumber(argp, q) < GroupNumber(argp, p) + TreeSizes(NodeAt(argp, p)).groups
  {
    var node, n, k := NodeAt(argp, p), GroupNumber(argp, p), GroupNumber(argp, q);
    if p <= q {
      var more := q[|p|..];
      assert q == p + more;
      PathThrough(argp, p, more);
      NumberInRange(node, more);
    }
    if n <= k < n + TreeSizes(node).groups {
      var more := NodeOfGroup(node, k - n);
      PathThrough(argp, p, more);
      NumberIsUnique(argp, q, p + more);
    }
  }

  /** A node comes before everything below it. */
  lemma BelowIsAfter(argp: Argp, p: seq<nat>, q: seq<nat>)
    requires HasGroup(argp, p) && HasGroup(argp, q) && p < q
    ensures GroupNumber(argp, p) < GroupNumber(argp, q)
  {
    SubtreeIsRange(argp, p, q);
    if GroupNumber(argp, p) == GroupNumber(argp, q) {
      NumberIsUnique(argp, p, q);
    }
  }
}
