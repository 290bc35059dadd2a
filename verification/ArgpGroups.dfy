/** The tables of parser_convert: the tree of argps flattened into an array of groups, each with
    its share of the array of child inputs. */
module ArgpGroups {
  import opened Maybes
  import opened ArgpTypes
  import opened ArgpLookup

  datatype GroupRecord = GroupRecord(argp: Argp, parent: Maybe<nat>, parentIndex: nat, inputs: nat)

  function Count(cs: Children): nat {
    if cs.Nil? then 0 else 1 + Count(cs.rest)
  }

  function Nth(cs: Children, i: nat): Argp
    requires i < Count(cs)
  {
    if i == 0 then cs.argp else Nth(cs.rest, i - 1)
  }

  // ---------- calc_sizes ----------

  datatype Sizes = Sizes(groups: nat, childInputs: nat)

  function TreeSizes(argp: Argp): Sizes
    decreases argp, 0
  {
    var s := ForestSizes(argp.children);
    if NeedsGroup(argp) then s.(groups := s.groups + 1) else s
  }

  function ForestSizes(cs: Children): Sizes
    decreases cs, 1
  {
    if cs.Nil? then Sizes(0, 0)
    else
      var a, b := TreeSizes(cs.argp), ForestSizes(cs.rest);
      Sizes(a.groups + b.groups, a.childInputs + b.childInputs + 1)
  }

  method CalcSizes(argp: Argp, szs: Sizes) returns (r: Sizes)
    ensures r == Sizes(szs.groups + TreeSizes(argp).groups, szs.childInputs + TreeSizes(argp).childInputs)
    decreases argp
  {
    r := szs;
    if NeedsGroup(argp) {
      r := r.(groups := r.groups + 1);
    }
    ghost var start := r;
    var child := argp.children;
    while child.Child?
      invariant child == argp.children || child < argp.children
      invariant r.groups + ForestSizes(child).groups == start.groups + ForestSizes(argp.children).groups
      invariant r.childInputs + ForestSizes(child).childInputs == start.childInputs + ForestSizes(argp.children).childInputs
      decreases child
    {
      r := CalcSizes(child.argp, r);
      r := r.(childInputs := r.childInputs + 1);
      child := child.rest;
    }
  }

  // ---------- convert_options ----------

  /** The child input slots that the groups of a tree get. */
  function SlotCount(argp: Argp): nat
    decreases argp, 0
  {
    (if NeedsGroup(argp) then Count(argp.children) else 0) + SlotCountAll(argp.children)
  }

  function SlotCountAll(cs: Children): nat
    decreases cs, 1
  {
    if cs.Nil? then 0 else SlotCount(cs.argp) + SlotCountAll(cs.rest)
  }

  /** The groups of ARGP when it is child number INDEX of group PARENT, the next free group is BASE
      and the next free slot is INPUTS. */
  function Flatten(argp: Argp, parent: Maybe<nat>, index: nat, base: nat, inputs: nat): seq<GroupRecord>
    decreases argp, 0
  {
    if NeedsGroup(argp) then
      [GroupRecord(argp, parent, index, inputs)]
      + FlattenAll(argp.children, Some(base), 0, base + 1, inputs + Count(argp.children))
    else FlattenAll(argp.children, None, 0, base, inputs)
  }

  function FlattenAll(cs: Children, parent: Maybe<nat>, index: nat, base: nat, inputs: nat): seq<GroupRecord>
    decreases cs, 1
  {
    if cs.Nil? then []
    else
      var f := Flatten(cs.argp, parent, index, base, inputs);
      f + FlattenAll(cs.rest, parent, index + 1, base + |f|, inputs + SlotCount(cs.argp))
  }

  /** All groups of the tree handed to parser_init. */
  function GroupsOf(argp: Argp): seq<GroupRecord> {
    Flatten(argp, None, 0, 0, 0)
  }

  /** The groups as the parser sees them. */
  function GroupTable(records: seq<GroupRecord>): (r: seq<Group>)
    ensures |r| == |records|
  {
    seq(|records|, i requires 0 <= i < |records| => Group(Options(records[i].argp), records[i].argp.parser))
  }

  lemma {:induction false} FlattenSize(argp: Argp, parent: Maybe<nat>, index: nat, base: nat, inputs: nat)
    ensures |Flatten(argp, parent, index, base, inputs)| == TreeSizes(argp).groups
    ensures SlotCount(argp) <= TreeSizes(argp).childInputs
    decreases argp, 0
  {
    FlattenAllSize(argp.children, if NeedsGroup(argp) then Some(base) else None, 0,
                   if NeedsGroup(argp) then base + 1 else base,
                   if NeedsGroup(argp) then inputs + Count(argp.children) else inputs);
  }

  lemma {:induction false} FlattenAllSize(cs: Children, parent: Maybe<nat>, index: nat, base: nat, inputs: nat)
    ensures |FlattenAll(cs, parent, index, base, inputs)| == ForestSizes(cs).groups
    ensures SlotCountAll(cs) + Count(cs) <= ForestSizes(cs).childInputs
    decreases cs, 1
  {
    if cs.Child? {
      FlattenSize(cs.argp, parent, index, base, inputs);
      FlattenAllSize(cs.rest, parent, index + 1, base + |Flatten(cs.argp, parent, index, base, inputs)|, inputs + SlotCount(cs.argp));
    }
  }

  lemma OneChild(groups: seq<GroupRecord>, cs: Children, parent: Maybe<nat>, index: nat, inputs: nat)
    requires cs.Child?
    ensures var more := groups + Flatten(cs.argp, parent, index, |groups|, inputs);
            && |more| == |groups| + TreeSizes(cs.argp).groups
            && groups + FlattenAll(cs, parent, index, |groups|, inputs)
               == more + FlattenAll(cs.rest, parent, index + 1, |more|, inputs + SlotCount(cs.argp))
  {
    FlattenSize(cs.argp, parent, index, |groups|, inputs);
  }

  /** The tables being filled by convert_options; CAPACITY is the number of groups that
      parser_init has made room for. */
  class ConvertState {
    const capacity: nat
    var groups: seq<GroupRecord>
    var inputsEnd: nat

    constructor (capacity: nat)
      ensures this.capacity == capacity && groups == [] && inputsEnd == 0
    {
      this.capacity, groups, inputsEnd := capacity, [], 0;
    }

    /** Enters ARGP and its descendants.  There is room for all of them. */
    method ConvertOptions(argp: Argp, parent: Maybe<nat>, parentIndex: nat)
      requires |groups| + TreeSizes(argp).groups <= capacity
      modifies this
      ensures groups == old(groups) + Flatten(argp, parent, parentIndex, old(|groups|), old(inputsEnd))
      ensures inputsEnd == old(inputsEnd) + SlotCount(argp)
      decreases argp, 0
    {
      if NeedsGroup(argp) {
        var group := |groups|;
        assert group < capacity;
        groups := groups + [GroupRecord(argp, parent, parentIndex, inputsEnd)];
        inputsEnd := inputsEnd + Count(argp.children);
        ConvertChildren(argp.children, Some(group));
      } else {
        ConvertChildren(argp.children, None);
      }
    }

    /** The loop of convert_options over the child vector. */
    method ConvertChildren(children: Children, parent: Maybe<nat>)
      requires |groups| + ForestSizes(children).groups <= capacity
      modifies this
      ensures groups == old(groups) + FlattenAll(children, parent, 0, old(|groups|), old(inputsEnd))
      ensures inputsEnd == old(inputsEnd) + SlotCountAll(children)
      decreases children, 1
    {
      ghost var all := groups + FlattenAll(children, parent, 0, |groups|, inputsEnd);
      var child, index: nat := children, 0;
      while child.Child?
        invariant child == children || child < children
        invariant |groups| + ForestSizes(child).groups <= capacity
        invariant inputsEnd + SlotCountAll(child) == old(inputsEnd) + SlotCountAll(children)
        invariant groups + FlattenAll(child, parent, index, |groups|, inputsEnd) == all
        decreases child
      {
        OneChild(groups, child, parent, index, inputsEnd);
        ConvertOptions(child.argp, parent, index);
        child, index := child.rest, index + 1;
      }
    }
  }

  // ---------- what the tables guarantee ----------

  function SlotsEnd(g: GroupRecord): nat {
    g.inputs + Count(g.argp.children)
  }

  /** Record number K of F, which starts at group BASE, is a child of an earlier record of F: the
      child its parentIndex says. */
  ghost predicate ParentIn(f: seq<GroupRecord>, base: nat, k: nat)
    requires k < |f|
  {
    && f[k].parent.Some? && base <= f[k].parent.value < base + k
    && var p := f[f[k].parent.value - base];
       f[k].parentIndex < Count(p.argp.children) && Nth(p.argp.children, f[k].parentIndex) == f[k].argp
  }

  /** Record number K of F is child number INDEX or later of CS, in a vector owned by PARENT. */
  ghost predicate ChildOf(f: seq<GroupRecord>, k: nat, cs: Children, parent: Maybe<nat>, index: nat)
    requires k < |f|
  {
    && f[k].parent == parent && index <= f[k].parentIndex < index + Count(cs)
    && Nth(cs, f[k].parentIndex - index) == f[k].argp
  }

  lemma ParentInShift(a: seq<GroupRecord>, f: seq<GroupRecord>, b: seq<GroupRecord>, base: nat, k: nat)
    requires k < |f| && |a| <= base && ParentIn(f, base, k)
    ensures ParentIn(a + f + b, base - |a|, |a| + k)
  {
    var p := f[k].parent.value - base;
    assert (a + f + b)[|a| + p] == f[p];
  }

  lemma ParentInLeft(a: seq<GroupRecord>, b: seq<GroupRecord>, base: nat, k: nat)
    requires k < |a| && ParentIn(a, base, k)
    ensures ParentIn(a + b, base, k)
  {
    ParentInShift([], a, b, base, k);
    assert [] + a + b == a + b;
  }

  lemma ParentInRight(a: seq<GroupRecord>, b: seq<GroupRecord>, base: nat, k: nat)
    requires k < |b| && ParentIn(b, base + |a|, k)
    ensures ParentIn(a + b, base, |a| + k)
  {
    ParentInShift(a, b, [], base + |a|, k);
    assert a + b + [] == a + b;
  }

  lemma {:induction false} FlattenParents(argp: Argp, parent: Maybe<nat>, index: nat, base: nat, inputs: nat, k: nat)
    requires k < |Flatten(argp, parent, index, base, inputs)|
    ensures var f := Flatten(argp, parent, index, base, inputs);
            || (k == 0 && f[0].argp == argp && f[0].parent == parent && f[0].parentIndex == index)
            || f[k].parent.None?
            || ParentIn(f, base, k)
    decreases argp, 0
  {
    if NeedsGroup(argp) {
      var head := GroupRecord(argp, parent, index, inputs);
      if k > 0 {
        var g := FlattenAll(argp.children, Some(base), 0, base + 1, inputs + Count(argp.children));
        FlattenAllParents(argp.children, Some(base), 0, base + 1, inputs + Count(argp.children), k - 1);
        if g[k - 1].parent.Some? && ParentIn(g, base + 1, k - 1) {
          ParentInRight([head], g, base, k - 1);
        }
      }
    } else {
      FlattenAllParents(argp.children, None, 0, base, inputs, k);
    }
  }

  lemma {:induction false} FlattenAllParents(cs: Children, parent: Maybe<nat>, index: nat, base: nat, inputs: nat, k: nat)
    requires k < |FlattenAll(cs, parent, index, base, inputs)|
    ensures var f := FlattenAll(cs, parent, index, base, inputs);
            ChildOf(f, k, cs, parent, index) || f[k].parent.None? || ParentIn(f, base, k)
    decreases cs, 1
  {
    var a := Flatten(cs.argp, parent, index, base, inputs);
    var b := FlattenAll(cs.rest, parent, index + 1, base + |a|, inputs + SlotCount(cs.argp));
    assert FlattenAll(cs, parent, index, base, inputs) == a + b;
    if k < |a| {
      FlattenParents(cs.argp, parent, index, base, inputs, k);
      FirstChild(a, b, cs, parent, index, base, k);
    } else {
      FlattenAllParents(cs.rest, parent, index + 1, base + |a|, inputs + SlotCount(cs.argp), k - |a|);
      LaterChild(a, b, cs, parent, index, base, k - |a|);
    }
  }

  lemma FirstChild(a: seq<GroupRecord>, b: seq<GroupRecord>, cs: Children, parent: Maybe<nat>, index: nat, base: nat, k: nat)
    requires k < |a| && cs.Child?
    requires || (k == 0 && a[0].argp == cs.argp && a[0].parent == parent && a[0].parentIndex == index)
             || a[k].parent.None? || ParentIn(a, base, k)
    ensures ChildOf(a + b, k, cs, parent, index) || (a + b)[k].parent.None? || ParentIn(a + b, base, k)
  {
    if ParentIn(a, base, k) {
      ParentInLeft(a, b, base, k);
    }
  }

  lemma LaterChild(a: seq<GroupRecord>, b: seq<GroupRecord>, cs: Children, parent: Maybe<nat>, index: nat, base: nat, k: nat)
    requires k < |b| && cs.Child?
    requires ChildOf(b, k, cs.rest, parent, index + 1) || b[k].parent.None? || ParentIn(b, base + |a|, k)
    ensures var f := a + b;
            ChildOf(f, |a| + k, cs, parent, index) || f[|a| + k].parent.None? || ParentIn(f, base, |a| + k)
  {
    if ParentIn(b, base + |a|, k) {
      ParentInRight(a, b, base, k);
    }
  }

  /** The slots of F lie between LO and HI, and each record's before those of the next. */
  ghost predicate Stacked(f: seq<GroupRecord>, lo: nat, hi: nat) {
    && (forall k :: 0 <= k < |f| ==> lo <= f[k].inputs && SlotsEnd(f[k]) <= hi)
    && (forall j, k :: 0 <= j < k < |f| ==> SlotsEnd(f[j]) <= f[k].inputs)
  }

  lemma StackedConcat(a: seq<GroupRecord>, b: seq<GroupRecord>, lo: nat, mid: nat, hi: nat)
    requires Stacked(a, lo, mid) && Stacked(b, mid, hi) && lo <= mid <= hi
    ensures Stacked(a + b, lo, hi)
  {
  }

  lemma {:induction false} FlattenStacked(argp: Argp, parent: Maybe<nat>, index: nat, base: nat, inputs: nat)
    ensures Stacked(Flatten(argp, parent, index, base, inputs), inputs, inputs + SlotCount(argp))
    decreases argp, 0
  {
    if NeedsGroup(argp) {
      var mid := inputs + Count(argp.children);
      FlattenAllStacked(argp.children, Some(base), 0, base + 1, mid);
      StackedConcat([GroupRecord(argp, parent, index, inputs)],
                    FlattenAll(argp.children, Some(base), 0, base + 1, mid), inputs, mid, inputs + SlotCount(argp));
    } else {
      FlattenAllStacked(argp.children, None, 0, base, inputs);
    }
  }

  lemma {:induction false} FlattenAllStacked(cs: Children, parent: Maybe<nat>, index: nat, base: nat, inputs: nat)
    ensures Stacked(FlattenAll(cs, parent, index, base, inputs), inputs, inputs + SlotCountAll(cs))
    decreases cs, 1
  {
    if cs.Child? {
      var a := Flatten(cs.argp, parent, index, base, inputs);
      var mid := inputs + SlotCount(cs.argp);
      FlattenStacked(cs.argp, parent, index, base, inputs);
      FlattenAllStacked(cs.rest, parent, index + 1, base + |a|, mid);
      StackedConcat(a, FlattenAll(cs.rest, parent, index + 1, base + |a|, mid), inputs, mid, inputs + SlotCountAll(cs));
    }
  }

  /** For every tree: calc_sizes counts the groups exactly and the slots generously; the slots of
      different groups are disjoint; and a group with a parent comes after it and is the child that
      its parent_index says, so its input is one of its parent's own slots. */
  lemma StorageAccounting(argp: Argp)
    ensures var f := GroupsOf(argp); var szs := TreeSizes(argp);
            && |f| == szs.groups
            && Stacked(f, 0, szs.childInputs)
            && forall k :: 0 <= k < |f| && f[k].parent.Some? ==> ParentIn(f, 0, k)
  {
    var f := GroupsOf(argp);
    FlattenSize(argp, None, 0, 0, 0);
    FlattenStacked(argp, None, 0, 0, 0);
    forall k | 0 <= k < |f| && f[k].parent.Some?
      ensures ParentIn(f, 0, k)
    {
      FlattenParents(argp, None, 0, 0, 0, k);
    }
  }

  // ---------- passing inputs down in parser_init ----------

  /** What an INIT call does: whether it fails, with another error than EBADKEY, and what it leaves in the
      slots of its group; 0 models the NULL pointer. */
  datatype InitReply = InitReply(failed: bool, slots: seq<int>)

  /** The INIT calls, given the number of the group and its input. */
  type Initializer = (nat, int) -> InitReply

  /** The contents of the slots of group K after its turn: the parsing function's doing, or for an
      argp without one, its own input in the first slot. */
  function Stored(user: Initializer, g: GroupRecord, k: nat, input: int): (r: seq<int>)
    ensures |r| == Count(g.argp.children)
  {
    var n := Count(g.argp.children);
    if g.argp.parser then
      var s := user(k, input).slots;
      if |s| == n then s else seq(n, _ => 0)
    else seq(n, i => if i == 0 then input else 0)
  }

  /** Group K has the input it should have: the caller's for the first group, otherwise what its
      parent left in the slot of this child. */
  ghost predicate InputRight(f: seq<GroupRecord>, user: Initializer, input: int, inputs: seq<int>, k: nat)
    requires k < |f| && k < |inputs|
  {
    if k == 0 then inputs[0] == input
    else match f[k].parent
      case None => inputs[k] == 0
      case Some(p) =>
        && ParentIn(f, 0, k)
        && inputs[k] == Stored(user, f[p], p, inputs[p])[f[k].parentIndex]
  }

  /** The slots of group J hold what it stored. */
  ghost predicate SlotsHeld(f: seq<GroupRecord>, user: Initializer, inputs: seq<int>, slots: seq<int>, j: nat)
    requires j < |f| && j < |inputs|
  {
    SlotsEnd(f[j]) <= |slots| && slots[f[j].inputs..SlotsEnd(f[j])] == Stored(user, f[j], j, inputs[j])
  }

  predicate Fails(f: seq<GroupRecord>, user: Initializer, k: nat, input: int)
    requires k < |f|
  {
    f[k].argp.parser && user(k, input).failed
  }

  ghost predicate AllRight(f: seq<GroupRecord>, user: Initializer, input: int, inputs: seq<int>) {
    |inputs| <= |f| && forall k :: 0 <= k < |inputs| ==> InputRight(f, user, input, inputs, k)
  }

  ghost predicate AllHeld(f: seq<GroupRecord>, user: Initializer, inputs: seq<int>, slots: seq<int>) {
    |inputs| <= |f| && forall j :: 0 <= j < |inputs| ==> SlotsHeld(f, user, inputs, slots, j)
  }

  /** FAILED says that the last of the groups that had their turn fails, and it is the only one. */
  ghost predicate StopsRight(f: seq<GroupRecord>, user: Initializer, inputs: seq<int>, failed: bool) {
    && |inputs| <= |f| && (failed ==> inputs != []) && (!failed ==> !FailsAny(f, user, inputs, |inputs|))
    && (failed ==> Fails(f, user, |inputs| - 1, inputs[|inputs| - 1]) && !FailsAny(f, user, inputs, |inputs| - 1))
  }

  /** One of the first N groups fails. */
  ghost predicate FailsAny(f: seq<GroupRecord>, user: Initializer, inputs: seq<int>, n: nat)
    requires n <= |inputs| <= |f|
  {
    exists k :: 0 <= k < n && Fails(f, user, k, inputs[k])
  }

  lemma StopsNext(f: seq<GroupRecord>, user: Initializer, inputs: seq<int>, own: int)
    requires |inputs| < |f| && StopsRight(f, user, inputs, false)
    ensures StopsRight(f, user, inputs + [own], Fails(f, user, |inputs|, own))
  {
    forall k | 0 <= k < |inputs|
      ensures !Fails(f, user, k, (inputs + [own])[k])
    {
      assert (inputs + [own])[k] == inputs[k];
    }
  }

  /** The INIT loop: every group in turn takes its input from its parent's slot and fills its own, until the
      call of one fails; INPUTS are those of the groups that had their turn. */
  method PassInputs(argp: Argp, user: Initializer, input: int) returns (inputs: seq<int>, failed: bool)
    ensures var f := GroupsOf(argp);
            && AllRight(f, user, input, inputs) && StopsRight(f, user, inputs, failed)
            && (!failed ==> |inputs| == |f|)
  {
    StorageAccounting(argp);
    var szs := CalcSizes(argp, Sizes(0, 0));
    var cvt := new ConvertState(szs.groups);
    cvt.ConvertOptions(argp, None, 0);
    var f := cvt.groups;
    var slots := new int[szs.childInputs](_ => 0);
    inputs, failed := [], false;
    while |inputs| < |f| && !failed
      invariant f == GroupsOf(argp) && AllRight(f, user, input, inputs) && AllHeld(f, user, inputs, slots[..])
      invariant StopsRight(f, user, inputs, failed)
      decreases |f| - |inputs|, !failed
    {
      var k := |inputs|;
      assert f[k].parent.Some? ==> ParentIn(f, 0, k);
      var own := Turn(f, user, input, inputs, slots);
      StopsNext(f, user, inputs, own);
      inputs, failed := inputs + [own], Fails(f, user, k, own);
    }
  }

  /** Every child of a group gets what its parent's parsing function left in the slot of that child; under a group
      without such a function the first child gets the group's own input, and the others none. */
  lemma ChildInput(f: seq<GroupRecord>, user: Initializer, input: int, inputs: seq<int>, k: nat)
    requires AllRight(f, user, input, inputs) && 0 < k < |inputs| && f[k].parent.Some?
    ensures var p, i := f[k].parent.value, f[k].parentIndex;
            && p < k && i < Count(f[p].argp.children) && Nth(f[p].argp.children, i) == f[k].argp
            && (!f[p].argp.parser ==> inputs[k] == if i == 0 then inputs[p] else 0)
            && (f[p].argp.parser && |user(p, inputs[p]).slots| == Count(f[p].argp.children) ==>
                  inputs[k] == user(p, inputs[p]).slots[i])
  {
    assert InputRight(f, user, input, inputs, k);
  }

  /** The first group gets the caller's input, and other groups without a parent get none. */
  lemma OrphanInput(f: seq<GroupRecord>, user: Initializer, input: int, inputs: seq<int>, k: nat)
    requires AllRight(f, user, input, inputs) && k < |inputs|
    ensures k == 0 ==> inputs[k] == input
    ensures k > 0 && f[k].parent.None? ==> inputs[k] == 0
  {
    assert InputRight(f, user, input, inputs, k);
  }

  /** The turn of the next group. */
  method Turn(f: seq<GroupRecord>, user: Initializer, input: int, inputs: seq<int>, slots: array<int>)
    returns (own: int)
    requires |inputs| < |f| && Stacked(f, 0, slots.Length)
    requires f[|inputs|].parent.Some? ==> ParentIn(f, 0, |inputs|)
    requires AllRight(f, user, input, inputs) && AllHeld(f, user, inputs, slots[..])
    modifies slots
    ensures AllRight(f, user, input, inputs + [own]) && AllHeld(f, user, inputs + [own], slots[..])
  {
    var k := |inputs|;
    own := OwnInput(f, user, input, inputs, slots, k);
    RightNext(f, user, input, inputs, own);
    ghost var before := slots[..];
    FillSlots(slots, f[k].inputs, Stored(user, f[k], k, own));
    HeldNext(f, user, inputs, own, before, slots[..]);
  }

  lemma RightNext(f: seq<GroupRecord>, user: Initializer, input: int, inputs: seq<int>, own: int)
    requires |inputs| < |f| && AllRight(f, user, input, inputs) && InputRight(f, user, input, inputs + [own], |inputs|)
    ensures AllRight(f, user, input, inputs + [own])
  {
    forall j | 0 <= j < |inputs|
      ensures InputRight(f, user, input, inputs + [own], j)
    {
      assert InputRight(f, user, input, inputs, j);
    }
  }

  /** Filling the slots of the next group does not touch those of the groups before. */
  lemma HeldNext(f: seq<GroupRecord>, user: Initializer, inputs: seq<int>, own: int, before: seq<int>, slots: seq<int>)
    requires |inputs| < |f| && |before| == |slots| && Stacked(f, 0, |slots|) && AllHeld(f, user, inputs, before)
    requires var g := f[|inputs|];
      && slots[g.inputs..SlotsEnd(g)] == Stored(user, g, |inputs|, own)
      && forall i :: 0 <= i < |slots| && !(g.inputs <= i < SlotsEnd(g)) ==> slots[i] == before[i]
    ensures AllHeld(f, user, inputs + [own], slots)
  {
    forall j | 0 <= j < |inputs|
      ensures SlotsHeld(f, user, inputs + [own], slots, j)
    {
      assert SlotsHeld(f, user, inputs, before, j);
      assert slots[f[j].inputs..SlotsEnd(f[j])] == before[f[j].inputs..SlotsEnd(f[j])];
    }
    assert SlotsHeld(f, user, inputs + [own], slots, |inputs|);
  }

  /** The input of group K: what its parent left for it. */
  method OwnInput(f: seq<GroupRecord>, user: Initializer, input: int, inputs: seq<int>, slots: array<int>, k: nat)
    returns (own: int)
    requires k < |f| && |inputs| == k && Stacked(f, 0, slots.Length)
    requires f[k].parent.Some? ==> ParentIn(f, 0, k)
    requires AllHeld(f, user, inputs, slots[..])
    ensures InputRight(f, user, input, inputs + [own], k)
  {
    own := if k == 0 then input else 0;
    if f[k].parent.Some? {
      var p := f[k].parent.value;
      own := slots[f[p].inputs + f[k].parentIndex];
      assert SlotsHeld(f, user, inputs, slots[..], p);
      assert own == slots[..][f[p].inputs..SlotsEnd(f[p])][f[k].parentIndex];
    }
  }

  method FillSlots(slots: array<int>, at: nat, values: seq<int>)
    requires at + |values| <= slots.Length
    modifies slots
    ensures slots[at..at + |values|] == values
    ensures forall i :: 0 <= i < slots.Length && !(at <= i < at + |values|) ==> slots[i] == old(slots[i])
  {
    for i := 0 to |values|
      invariant forall j :: 0 <= j < i ==> slots[at + j] == values[j]
      invariant forall j :: 0 <= j < slots.Length && !(at <= j < at + |values|) ==> slots[j] == old(slots[j])
    {
      slots[at + i] := values[i];
    }
  }
}
