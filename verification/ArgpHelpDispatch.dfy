/** What help shows for an option letter, and what the parser does with it. */
module ArgpHelpDispatch {
  import opened Maybes
  import opened Sequences
  import opened ArgpTypes
  import opened ArgpLookup
  import opened ArgpGroups
  import opened ArgpHelpTable

  // ---------- walking an entry with a function ----------

  /** The (option, option it stands for) pairs that a walk hands to the function, up to the first for which
      it does not return 0.  Only visible options are handed out. */
  function Visits(opts: seq<ArgpOption>, picked: seq<bool>, actual: ArgpOption, f: (ArgpOption, ArgpOption) -> int): seq<(ArgpOption, ArgpOption)>
    requires |picked| == |opts|
  {
    if opts == [] then []
    else if !picked[0] then Visits(opts[1..], picked[1..], actual, f)
    else
      var r := if opts[0].alias then actual else opts[0];
      if opts[0].hidden then Visits(opts[1..], picked[1..], r, f)
      else if f(opts[0], r) != 0 then [(opts[0], r)]
      else [(opts[0], r)] + Visits(opts[1..], picked[1..], r, f)
  }

  predicate PickedNext(opts: seq<ArgpOption>, so: string) {
    opts != [] && IsShort(opts[0]) && so != "" && so[0] as int == opts[0].key
  }

  /** VISITED, and what is still to be handed out of OPTS, are all visits. */
  ghost predicate Shows(all: seq<(ArgpOption, ArgpOption)>, visited: seq<(ArgpOption, ArgpOption)>,
                        opts: seq<ArgpOption>, so: string, actual: ArgpOption, f: (ArgpOption, ArgpOption) -> int) {
    all == visited + Visits(opts, Walk(opts, so), actual, f)
  }

  /** One round of the loop below. */
  lemma NextVisit(all: seq<(ArgpOption, ArgpOption)>, visited: seq<(ArgpOption, ArgpOption)>,
                  opts: seq<ArgpOption>, so: string, actual: ArgpOption, f: (ArgpOption, ArgpOption) -> int)
    requires opts != [] && Shows(all, visited, opts, so, actual, f)
    ensures var o := opts[0]; var r := if o.alias then actual else o;
            if !PickedNext(opts, so) then Shows(all, visited, opts[1..], so, actual, f)
            else if o.hidden then Shows(all, visited, opts[1..], so[1..], r, f)
            else if f(o, r) != 0 then all == visited + [(o, r)]
            else Shows(all, visited + [(o, r)], opts[1..], so[1..], r, f)
  {
    var o := opts[0];
    var r := if o.alias then actual else o;
    if PickedNext(opts, so) {
      assert Walk(opts, so)[1..] == Walk(opts[1..], so[1..]);
      Assoc(visited, [(o, r)], Visits(opts[1..], Walk(opts[1..], so[1..]), r, f));
    } else {
      assert Walk(opts, so)[1..] == Walk(opts[1..], so);
    }
  }

  /** hol_entry_short_iterate. */
  method ShortIterate(e: Entry, shortOptions: string, f: (ArgpOption, ArgpOption) -> int)
    returns (val: int, visited: seq<(ArgpOption, ArgpOption)>)
    requires EntryShape(e) && e.shortOptions <= |shortOptions|
    ensures visited == Visits(e.opts, Walk(e.opts, shortOptions[e.shortOptions..]), e.opts[0], f)
    ensures val == if visited == [] then 0 else var (o, r) := visited[|visited| - 1]; f(o, r)
  {
    ghost var all := Visits(e.opts, Walk(e.opts, shortOptions[e.shortOptions..]), e.opts[0], f);
    var actual, so, i := e.opts[0], e.shortOptions, 0;
    val, visited := 0, [];
    while i < |e.opts| && val == 0
      invariant 0 <= i <= |e.opts| && 0 <= so <= |shortOptions|
      invariant val == 0 ==> Shows(all, visited, e.opts[i..], shortOptions[so..], actual, f)
      invariant val != 0 ==> all == visited
      invariant val == if visited == [] then 0 else var (o, r) := visited[|visited| - 1]; f(o, r)
    {
      var opt := e.opts[i];
      ghost var opts, text := e.opts[i..], shortOptions[so..];
      assert opts[0] == opt && opts[1..] == e.opts[i + 1..];
      assert so < |shortOptions| ==> text[0] == shortOptions[so] && text[1..] == shortOptions[so + 1..];
      NextVisit(all, visited, opts, text, actual, f);
      if IsShort(opt) && so < |shortOptions| && shortOptions[so] as int == opt.key {
        if !opt.alias {
          actual := opt;
        }
        if !opt.hidden {
          val := f(opt, actual);
          visited := visited + [(opt, actual)];
        }
        so := so + 1;
      }
      i := i + 1;
    }
  }

  /** Every option is handed out with the first option of its entry as the one it stands for. */
  lemma {:induction false} RealIsFirst(e: Entry, i: nat, picked: seq<bool>, f: (ArgpOption, ArgpOption) -> int)
    requires EntryShape(e) && i <= |e.opts| && |picked| == |e.opts| - i
    ensures forall v <- Visits(e.opts[i..], picked, e.opts[0], f) :: v.1 == e.opts[0]
    decreases |e.opts| - i
  {
    if i < |e.opts| {
      assert e.opts[i..][1..] == e.opts[i + 1..];
      RealIsFirst(e, i + 1, picked[1..], f);
    }
  }

  /** The options that are picked and not hidden. */
  function Visible(opts: seq<ArgpOption>, picked: seq<bool>): seq<ArgpOption>
    requires |picked| == |opts|
  {
    if opts == [] then []
    else (if picked[0] && !opts[0].hidden then [opts[0]] else []) + Visible(opts[1..], picked[1..])
  }

  ghost predicate VisitsSome(vs: seq<(ArgpOption, ArgpOption)>, shown: seq<ArgpOption>, f: (ArgpOption, ArgpOption) -> int) {
    && |vs| <= |shown| && (forall i :: 0 <= i < |vs| ==> vs[i].0 == shown[i])
    && (forall i :: 0 <= i < |vs| - 1 ==> f(vs[i].0, vs[i].1) == 0)
    && (|vs| < |shown| ==> vs != [] && f(vs[|vs| - 1].0, vs[|vs| - 1].1) != 0)
  }

  /** The function gets all visible options in order, up to the first for which it does not return 0. */
  lemma {:induction false} VisitsVisible(opts: seq<ArgpOption>, picked: seq<bool>, actual: ArgpOption, f: (ArgpOption, ArgpOption) -> int)
    requires |picked| == |opts|
    ensures VisitsSome(Visits(opts, picked, actual, f), Visible(opts, picked), f)
  {
    if opts != [] {
      var o := opts[0];
      var r := if picked[0] && !o.alias then o else actual;
      var vs, shown := Visits(opts[1..], picked[1..], r, f), Visible(opts[1..], picked[1..]);
      VisitsVisible(opts[1..], picked[1..], r, f);
      if picked[0] && !o.hidden {
        assert Visible(opts, picked) == [o] + shown;
        if f(o, r) == 0 {
          VisitsFirst((o, r), vs, shown, f);
        } else {
          VisitsStop((o, r), shown, f);
        }
      } else {
        assert Visible(opts, picked) == shown;
      }
    }
  }

  lemma VisitsStop(v: (ArgpOption, ArgpOption), shown: seq<ArgpOption>, f: (ArgpOption, ArgpOption) -> int)
    requires f(v.0, v.1) != 0
    ensures VisitsSome([v], [v.0] + shown, f)
  {
  }

  lemma VisitsFirst(v: (ArgpOption, ArgpOption), vs: seq<(ArgpOption, ArgpOption)>, shown: seq<ArgpOption>,
                    f: (ArgpOption, ArgpOption) -> int)
    requires VisitsSome(vs, shown, f) && f(v.0, v.1) == 0
    ensures VisitsSome([v] + vs, [v.0] + shown, f)
  {
    var ws := [v] + vs;
    forall i | 0 <= i < |ws| - 1 ensures f(ws[i].0, ws[i].1) == 0 {
      if i > 0 {
        assert ws[i] == vs[i - 1];
      }
    }
    assert vs != [] ==> ws[|ws| - 1] == vs[|vs| - 1];
  }

  // ---------- the parser's side ----------

  /** The options of the slots from group G on. */
  function OptionsFrom(groups: seq<Group>, g: nat): seq<ArgpOption>
    decreases |groups| - g
  {
    if g >= |groups| then [] else groups[g].options + OptionsFrom(groups, g + 1)
  }

  ghost predicate SameOptions(slots: seq<Slot>, opts: seq<ArgpOption>) {
    |slots| == |opts| && forall j :: 0 <= j < |opts| ==> slots[j].option == opts[j]
  }

  lemma SameOptionsCons(slot: Slot, slots: seq<Slot>, opts: seq<ArgpOption>)
    requires SameOptions(slots, opts)
    ensures SameOptions([slot] + slots, [slot.option] + opts)
  {
  }

  lemma {:induction false} SlotOptions(groups: seq<Group>, g: nat, i: nat)
    requires g < |groups| && i <= |groups[g].options|
    ensures SameOptions(SlotsFrom(groups, g, i), groups[g].options[i..] + OptionsFrom(groups, g + 1))
    decreases |groups| - g, |groups[g].options| - i
  {
    var options, later := groups[g].options, OptionsFrom(groups, g + 1);
    if i < |options| {
      SlotOptions(groups, g, i + 1);
      SameOptionsCons(Slot(g, options[i]), SlotsFrom(groups, g, i + 1), options[i + 1..] + later);
      assert options[i..] == [options[i]] + options[i + 1..];
      Assoc([options[i]], options[i + 1..], later);
    } else {
      assert options[i..] + later == later;
      NextGroup(groups, g);
      if g + 1 < |groups| {
        SlotOptions(groups, g + 1, 0);
        assert groups[g + 1].options[0..] == groups[g + 1].options;
      }
    }
  }

  lemma {:induction false} RecordOptions(a: seq<GroupRecord>, b: seq<GroupRecord>, g: nat)
    requires g <= |a|
    ensures OptionsFrom(GroupTable(a + b), g) == OptionsFrom(GroupTable(a), g) + OptionsFrom(GroupTable(b), 0)
    decreases |a| - g
  {
    if g < |a| {
      RecordOptions(a, b, g + 1);
    } else {
      ShiftOptions(a, b, 0);
    }
  }

  lemma {:induction false} ShiftOptions(a: seq<GroupRecord>, b: seq<GroupRecord>, g: nat)
    requires g <= |b|
    ensures OptionsFrom(GroupTable(a + b), |a| + g) == OptionsFrom(GroupTable(b), g)
    decreases |b| - g
  {
    if g < |b| {
      ShiftOptions(a, b, g + 1);
    }
  }

  /** The options of the groups of a tree, in group order, are those of the tree in preorder. */
  lemma {:induction false} FlattenOptions(argp: Argp, parent: Maybe<nat>, index: nat, base: nat, inputs: nat)
    ensures OptionsFrom(GroupTable(Flatten(argp, parent, index, base, inputs)), 0) == Preorder(argp)
    decreases argp, 0
  {
    if NeedsGroup(argp) {
      var rest := FlattenAll(argp.children, Some(base), 0, base + 1, inputs + Count(argp.children));
      var head := [GroupRecord(argp, parent, index, inputs)];
      FlattenAllOptions(argp.children, Some(base), 0, base + 1, inputs + Count(argp.children));
      RecordOptions(head, rest, 0);
      assert OptionsFrom(GroupTable(head), 0) == Options(argp) + OptionsFrom(GroupTable(head), 1) == Options(argp);
    } else {
      FlattenAllOptions(argp.children, None, 0, base, inputs);
      assert [] + PreorderAll(argp.children) == PreorderAll(argp.children);
    }
  }

  lemma {:induction false} FlattenAllOptions(cs: Children, parent: Maybe<nat>, index: nat, base: nat, inputs: nat)
    ensures OptionsFrom(GroupTable(FlattenAll(cs, parent, index, base, inputs)), 0) == PreorderAll(cs)
    decreases cs, 1
  {
    if cs.Child? {
      var f := Flatten(cs.argp, parent, index, base, inputs);
      FlattenOptions(cs.argp, parent, index, base, inputs);
      FlattenAllOptions(cs.rest, parent, index + 1, base + |f|, inputs + SlotCount(cs.argp));
      RecordOptions(f, FlattenAll(cs.rest, parent, index + 1, base + |f|, inputs + SlotCount(cs.argp)), 0);
    }
  }

  /** The slots the parser searches for a tree. */
  function SlotsOf(argp: Argp): seq<Slot> {
    Slots(GroupTable(GroupsOf(argp)))
  }

  lemma SlotsArePreorder(argp: Argp)
    ensures SameOptions(SlotsOf(argp), Preorder(argp))
  {
    var groups := GroupTable(GroupsOf(argp));
    FlattenOptions(argp, None, 0, 0, 0);
    if groups != [] {
      SlotOptions(groups, 0, 0);
      assert groups[0].options[0..] == groups[0].options;
    }
  }

  // ---------- the comparison ----------

  /** Option J is the one that find_short_option returns for K. */
  predicate Dispatched(slots: seq<Slot>, k: int, j: nat)
    requires j < |slots|
  {
    slots[j].option.key == k && forall i :: 0 <= i < j ==> slots[i].option.key != k
  }

  lemma {:induction false} FirstIsDispatched(slots: seq<Slot>, k: int)
    ensures match FirstWithKey(slots, k)
            case None => forall j :: 0 <= j < |slots| ==> !Dispatched(slots, k, j)
            case Some(s) => exists j :: 0 <= j < |slots| && Dispatched(slots, k, j) && slots[j] == s
  {
    if slots != [] {
      if slots[0].option.key == k {
        assert Dispatched(slots, k, 0);
      } else {
        FirstIsDispatched(slots[1..], k);
        if FirstWithKey(slots, k).Some? {
          var j :| 0 <= j < |slots[1..]| && Dispatched(slots[1..], k, j) && slots[1..][j] == FirstWithKey(slots, k).value;
          assert forall i :: 0 < i < j + 1 ==> slots[i] == slots[1..][i - 1];
          assert Dispatched(slots, k, j + 1);
        }
      }
    }
  }

  /** Help presents option J as the meaning of K. */
  predicate Shown(all: seq<ArgpOption>, k: int, j: nat)
    requires j < |all|
  {
    Unshadowed(all, j) && all[j].key == k
  }

  lemma OnlyPrintable(all: seq<ArgpOption>, k: int, j: nat)
    requires j < |all| && Shown(all, k, j)
    ensures ' ' as int <= k <= '~' as int && !all[j].isDoc
  {
  }

  /** The first option with key K is only documentation: the parser still takes it for an option. */
  predicate DocFirst(all: seq<ArgpOption>, k: int) {
    exists j :: 0 <= j < |all| && all[j].key == k && all[j].isDoc && forall i :: 0 <= i < j ==> all[i].key != k
  }

  /** For every tree and every printable key, help and the parser mean the same option by it, if and
      only if no documentation option comes first with that key. */
  lemma HelpAgreesWithDispatch(argp: Argp, k: int)
    requires 32 <= k <= 126
    ensures var all, slots := Preorder(argp), SlotsOf(argp);
            && |slots| == |all|
            && ((forall j :: 0 <= j < |all| ==> (Shown(all, k, j) <==> Dispatched(slots, k, j))) <==> !DocFirst(all, k))
  {
    var all, slots := Preorder(argp), SlotsOf(argp);
    SlotsArePreorder(argp);
    if DocFirst(all, k) {
      var j :| 0 <= j < |all| && all[j].key == k && all[j].isDoc && forall i :: 0 <= i < j ==> all[i].key != k;
      assert Dispatched(slots, k, j) && !Shown(all, k, j);
    } else {
      forall j | 0 <= j < |all|
        ensures Shown(all, k, j) <==> Dispatched(slots, k, j)
      {
        if Shown(all, k, j) {
          NoneEarlier(all, k, j);
        }
      }
    }
  }

  lemma NoneEarlier(all: seq<ArgpOption>, k: int, j: nat)
    requires j < |all| && Shown(all, k, j) && !DocFirst(all, k)
    ensures forall i :: 0 <= i < j ==> all[i].key != k
  {
    if i :| 0 <= i < j && all[i].key == k {
      var m := LeastWithKey(all, k, i);
    }
  }

  lemma LeastWithKey(all: seq<ArgpOption>, k: int, i: nat) returns (m: nat)
    requires i < |all| && all[i].key == k
    ensures m <= i && all[m].key == k && forall n :: 0 <= n < m ==> all[n].key != k
  {
    m := 0;
    while all[m].key != k
      invariant m <= i && forall n :: 0 <= n < m ==> all[n].key != k
      decreases i - m
    {
      m := m + 1;
    }
  }

  /** In the table that argp_hol builds, walking entry I picks its option J for the key K exactly when
      J is the option the parser finds for K. */
  lemma EntryOfDispatched(argp: Argp, entries: seq<Entry>, shortOptions: string, k: int, i: nat, j: nat)
    requires Represents(entries, shortOptions) && Concat(entries) == Preorder(argp)
    requires 32 <= k <= 126 && !DocFirst(Preorder(argp), k)
    requires i < |entries| && j < |entries[i].opts|
    ensures var e := entries[i]; var at := Offset(entries, i);
            && e.shortOptions <= |shortOptions| && at + j < |SlotsOf(argp)|
            && (Walk(e.opts, shortOptions[e.shortOptions..])[j] && e.opts[j].key == k <==> Dispatched(SlotsOf(argp), k, at + j))
  {
    var all, at, e := Preorder(argp), Offset(entries, i), entries[i];
    WalkIsExact(entries, shortOptions, i);
    EntryAt(entries, i);
    HelpAgreesWithDispatch(argp, k);
    assert all[at..at + |e.opts|][j] == all[at + j];
    assert Shown(all, k, at + j) <==> Dispatched(SlotsOf(argp), k, at + j);
  }

  const DOC_X := ArgpOption(None, 'x' as int, false, false, false, false, true, 0)
  const PLAIN_X := ArgpOption(None, 'x' as int, true, false, false, false, false, 0)

  /** A documentation line with the key x before the option x: help shows the option, the parser
      calls with the documentation line, which takes no argument. */
  lemma DocFirstDisagrees()
    ensures var argp := Argp(Some([DOC_X, PLAIN_X]), true, None, Nil);
            && DocFirst(Preorder(argp), 'x' as int)
            && Shown(Preorder(argp), 'x' as int, 1)
            && FirstWithKey(SlotsOf(argp), 'x' as int) == Some(Slot(0, DOC_X))
  {
    var argp := Argp(Some([DOC_X, PLAIN_X]), true, None, Nil);
    assert Preorder(argp) == [DOC_X, PLAIN_X];
    SlotsArePreorder(argp);
    assert SlotsOf(argp)[0].option == DOC_X;
  }
}
