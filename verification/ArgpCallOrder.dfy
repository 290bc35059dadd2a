/** The order in which the parsing functions are called. */
module ArgpCallOrder {
  import opened Maybes
  import opened ArgpTypes
  import opened ArgpParser
  import opened ArgpModes
  import opened ArgpLifecycle
  import opened ArgpGroups
  import opened ArgpSubtree

  predicate Precedes(up: bool, g: nat, h: nat) {
    if up then g < h else g > h
  }

  ghost predicate Monotone(order: seq<nat>, up: bool) {
    forall i, j :: 0 <= i < j < |order| ==> Precedes(up, order[i], order[j])
  }

  /** T is S followed by KEY calls to groups of ORDER that keep its direction. */
  ghost predicate SweepAdds(s: seq<Call>, t: seq<Call>, order: seq<nat>, key: Key, up: bool) {
    && s <= t
    && (forall i :: |s| <= i < |t| ==> t[i].key == key && t[i].group in order)
    && (forall i, j :: |s| <= i < j < |t| ==> Precedes(up, t[i].group, t[j].group))
  }

  lemma {:induction false} SweepIsOrdered(cfg: Config, trace: seq<Call>, order: seq<nat>, key: Key, up: bool)
    requires InRange(order, |cfg.groups|) && Monotone(order, up)
    ensures SweepAdds(trace, Sweep(cfg, trace, order, key).1, order, key, up)
    decreases |order|
  {
    if order != [] {
      var (e, t) := GroupParse(cfg, trace, order[0], key, None);
      if !e.Hard? {
        SweepIsOrdered(cfg, t, order[1..], key, up);
      }
    }
  }

  lemma {:induction false} SweepAllIsOrdered(cfg: Config, trace: seq<Call>, order: seq<nat>, key: Key, up: bool)
    requires InRange(order, |cfg.groups|) && Monotone(order, up)
    ensures SweepAdds(trace, SweepAll(cfg, trace, order, key), order, key, up)
    decreases |order|
  {
    if order != [] {
      SweepAllIsOrdered(cfg, GroupParse(cfg, trace, order[0], key, None).1, order[1..], key, up);
    }
  }

  lemma {:induction false} IdleMonotone(processed: seq<nat>)
    ensures Monotone(Idle(processed), true)
  {
    if processed != [] {
      IdleAreIdle(processed[..|processed| - 1]);
      IdleMonotone(processed[..|processed| - 1]);
    }
  }

  /** The stages of a parse, in order. */
  function Stage(k: Key): nat {
    match k
    case KeyInit => 0
    case KeyOption(_) => 1
    case KeyArg => 1
    case KeyArgs => 1
    case KeyNoArgs => 2
    case KeyEnd => 3
    case KeySuccess => 4
    case KeyError => 4
    case KeyFini => 5
  }

  /** Stages follow each other; INIT goes up the group array, END, SUCCESS and FINI go down. */
  ghost predicate Staged(trace: seq<Call>) {
    forall i, j :: 0 <= i < j < |trace| ==>
      && Stage(trace[i].key) <= Stage(trace[j].key)
      && (trace[i].key == trace[j].key == KeyInit ==> trace[i].group < trace[j].group)
      && (trace[i].key == trace[j].key && trace[i].key in {KeyEnd, KeySuccess, KeyFini} ==> trace[i].group > trace[j].group)
  }

  ghost predicate UpTo(trace: seq<Call>, stage: nat) {
    forall c <- trace :: Stage(c.key) <= stage
  }

  lemma SweepStaged(s: seq<Call>, t: seq<Call>, order: seq<nat>, key: Key, up: bool)
    requires Staged(s) && SweepAdds(s, t, order, key, up)
    requires s == [] || (Stage(key) > 0 && UpTo(s, Stage(key) - 1))
    requires (key == KeyInit ==> up) && (key in {KeyEnd, KeySuccess, KeyFini} ==> !up)
    ensures Staged(t) && UpTo(t, Stage(key))
  {
    forall i, j | 0 <= i < j < |t| && i < |s|
      ensures t[i] in s && t[i] == s[i] && (j < |s| ==> t[j] == s[j])
    {
    }
  }

  lemma SweepKeepsStaged(cfg: Config, trace: seq<Call>, order: seq<nat>, key: Key, up: bool)
    requires InRange(order, |cfg.groups|) && Monotone(order, up)
    requires Staged(trace) && (trace == [] || (Stage(key) > 0 && UpTo(trace, Stage(key) - 1)))
    requires (key == KeyInit ==> up) && (key in {KeyEnd, KeySuccess, KeyFini} ==> !up)
    ensures var t := Sweep(cfg, trace, order, key).1; Staged(t) && UpTo(t, Stage(key))
  {
    SweepIsOrdered(cfg, trace, order, key, up);
    SweepStaged(trace, Sweep(cfg, trace, order, key).1, order, key, up);
  }

  lemma SweepAllKeepsStaged(cfg: Config, trace: seq<Call>, order: seq<nat>, key: Key, up: bool)
    requires InRange(order, |cfg.groups|) && Monotone(order, up)
    requires Staged(trace) && (trace == [] || (Stage(key) > 0 && UpTo(trace, Stage(key) - 1)))
    requires (key == KeyInit ==> up) && (key in {KeyEnd, KeySuccess, KeyFini} ==> !up)
    ensures var t := SweepAll(cfg, trace, order, key); Staged(t) && UpTo(t, Stage(key))
  {
    SweepAllIsOrdered(cfg, trace, order, key, up);
    SweepStaged(trace, SweepAll(cfg, trace, order, key), order, key, up);
  }

  lemma UpToMore(trace: seq<Call>, stage: nat, more: nat)
    requires UpTo(trace, stage) && stage <= more
    ensures UpTo(trace, more)
  {
  }

  lemma ExtendStaged(cfg: Config, s: seq<Call>, t: seq<Call>)
    requires Staged(s) && UpTo(s, 0) && Extends(cfg, s, t, true, true)
    ensures Staged(t) && UpTo(t, 1)
  {
    forall i | 0 <= i < |t|
      ensures Stage(t[i].key) == if i < |s| then 0 else 1
    {
      if i < |s| {
        assert t[i] == s[i] && s[i] in s;
      } else {
        assert t[i] == t[|s|..][i - |s|];
      }
    }
    assert forall i :: 0 <= i < |s| ==> t[i] == s[i];
  }

  lemma VerdictStaged(cfg: Config, s: State, err: Error, canReturn: bool)
    requires |s.processed| == |cfg.groups| && Staged(s.trace) && UpTo(s.trace, 1)
    ensures var t := Verdict(cfg, s, err, canReturn).1; Staged(t) && UpTo(t, 3)
  {
    IdleMonotone(s.processed);
    SweepKeepsStaged(cfg, s.trace, Idle(s.processed), KeyNoArgs, true);
    var t := Sweep(cfg, s.trace, Idle(s.processed), KeyNoArgs).1;
    SweepKeepsStaged(cfg, t, Downwards(|cfg.groups|), KeyEnd, false);
    UpToMore(t, 2, 3);
    UpToMore(s.trace, 1, 3);
  }

  lemma ConcludeStaged(cfg: Config, err: Error, trace: seq<Call>)
    requires Staged(trace) && UpTo(trace, 3)
    ensures Staged(Conclude(cfg, err, trace).1)
  {
    var up, down := Upwards(|cfg.groups|), Downwards(|cfg.groups|);
    if err != Zero {
      SweepAllKeepsStaged(cfg, trace, up, KeyError, true);
      SweepAllKeepsStaged(cfg, SweepAll(cfg, trace, up, KeyError), down, KeyFini, false);
    } else {
      SweepKeepsStaged(cfg, trace, down, KeySuccess, false);
      SweepAllKeepsStaged(cfg, Sweep(cfg, trace, down, KeySuccess).1, down, KeyFini, false);
    }
  }

  /** The calls of any parse come in stages, up the group array in INIT and down in END, SUCCESS and FINI. */
  lemma CallOrder(cfg: Config, argv: seq<string>, parseArgv0: bool, canReturn: bool)
    ensures var r := Parse(cfg, argv, parseArgv0, canReturn); r.Returned? ==> Staged(r.trace)
  {
    var up := Upwards(|cfg.groups|);
    SweepKeepsStaged(cfg, [], up, KeyInit, true);
    var (e, s) := Initialize(cfg, argv, parseArgv0);
    if e == Zero {
      var (t, o) := Run(cfg, s);
      RunExtends(cfg, s);
      RunKeepsGroups(cfg, s);
      ExtendStaged(cfg, s.trace, t.trace);
      VerdictStaged(cfg, t, ErrorOf(o), canReturn);
      ConcludeStaged(cfg, Verdict(cfg, t, ErrorOf(o), canReturn).0, Verdict(cfg, t, ErrorOf(o), canReturn).1);
    }
  }

  /** Group A of the tree is the parent of group C, or the parent of its parent, and so on. */
  ghost predicate Above(argp: Argp, a: nat, c: nat)
    decreases c
  {
    StorageAccounting(argp);
    var f := GroupsOf(argp);
    && c < |f| && f[c].parent.Some?
    && (assert ParentIn(f, 0, c); f[c].parent.value == a || Above(argp, a, f[c].parent.value))
  }

  lemma {:induction false} AboveIsBefore(argp: Argp, a: nat, c: nat)
    requires Above(argp, a, c)
    ensures a < c < |GroupsOf(argp)|
    decreases c
  {
    StorageAccounting(argp);
    var f := GroupsOf(argp);
    assert ParentIn(f, 0, c);
    if f[c].parent.value != a {
      AboveIsBefore(argp, a, f[c].parent.value);
    }
  }

  /** For every tree of argps and every parse with it: a group gets INIT before the groups that have it as their
      parent, or their parent's, and so on, and END, SUCCESS and FINI after them. */
  lemma ParentsFirst(cfg: Config, argp: Argp, argv: seq<string>, parseArgv0: bool, canReturn: bool, i: nat, j: nat)
    requires cfg.groups == GroupTable(GroupsOf(argp))
    ensures var r := Parse(cfg, argv, parseArgv0, canReturn);
            r.Returned? && i < |r.trace| && j < |r.trace|
            && r.trace[i].key == r.trace[j].key && Above(argp, r.trace[i].group, r.trace[j].group) ==>
              && (r.trace[i].key == KeyInit ==> i < j)
              && (r.trace[i].key in {KeyEnd, KeySuccess, KeyFini} ==> j < i)
  {
    var r := Parse(cfg, argv, parseArgv0, canReturn);
    CallOrder(cfg, argv, parseArgv0, canReturn);
    if r.Returned? && i < |r.trace| && j < |r.trace| && Above(argp, r.trace[i].group, r.trace[j].group) {
      AboveIsBefore(argp, r.trace[i].group, r.trace[j].group);
    }
  }

  /** The same for the tree itself, where groups may lie below argps that have no group of their own: the group
      of a node gets INIT before all groups below the node, and END, SUCCESS and FINI after them. */
  lemma NodesAroundDescendants(cfg: Config, argp: Argp, argv: seq<string>, parseArgv0: bool, canReturn: bool,
                               p: seq<nat>, q: seq<nat>, i: nat, j: nat)
    requires cfg.groups == GroupTable(GroupsOf(argp))
    requires HasGroup(argp, p) && HasGroup(argp, q) && p < q
    ensures var r := Parse(cfg, argv, parseArgv0, canReturn);
            r.Returned? && i < |r.trace| && j < |r.trace| && r.trace[i].key == r.trace[j].key
            && r.trace[i].group == GroupNumber(argp, p) && r.trace[j].group == GroupNumber(argp, q) ==>
              && (r.trace[i].key == KeyInit ==> i < j)
              && (r.trace[i].key in {KeyEnd, KeySuccess, KeyFini} ==> j < i)
    ensures var f := GroupsOf(argp); GroupNumber(argp, p) < |f| && f[GroupNumber(argp, p)].argp == NodeAt(argp, p)
  {
    CallOrder(cfg, argv, parseArgv0, canReturn);
    BelowIsAfter(argp, p, q);
    NodeHasGroup(argp, p, None, 0, 0, 0);
  }
}
