/** The help table (hol): which short options belong to an entry is kept as one string for the
    whole table and a start position per entry. */
module ArgpHelpTable {
  import opened ArgpTypes

  // ---------- what the string and the positions stand for ----------

  /** Option J of ALL is the first with its short key. */
  predicate Unshadowed(all: seq<ArgpOption>, j: nat)
    requires j < |all|
  {
    IsShort(all[j]) && forall i :: 0 <= i < j ==> !(IsShort(all[i]) && all[i].key == all[j].key)
  }

  /** The keys of the unshadowed options before N, in order. */
  function FirstKeys(all: seq<ArgpOption>, n: nat): string
    requires n <= |all|
  {
    if n == 0 then "" else FirstKeys(all, n - 1) + if Unshadowed(all, n - 1) then [all[n - 1].key as char] else ""
  }

  lemma {:induction false} KeysBefore(all: seq<ArgpOption>, n: nat, c: char)
    requires n <= |all|
    ensures c in FirstKeys(all, n) <==> exists i :: 0 <= i < n && IsShort(all[i]) && all[i].key == c as int
  {
    if n > 0 {
      KeysBefore(all, n - 1, c);
      if IsShort(all[n - 1]) && all[n - 1].key == c as int {
        assert exists i :: 0 <= i < n && IsShort(all[i]) && all[i].key == c as int;
      }
    }
  }

  lemma {:induction false} KeysGrow(all: seq<ArgpOption>, m: nat, n: nat)
    requires m <= n <= |all|
    ensures FirstKeys(all, m) <= FirstKeys(all, n)
    decreases n
  {
    if m < n {
      KeysGrow(all, m, n - 1);
    }
  }

  /** What is left of the whole string at option N. */
  function KeysFrom(all: seq<ArgpOption>, n: nat): string
    requires n <= |all|
  {
    KeysGrow(all, n, |all|);
    FirstKeys(all, |all|)[|FirstKeys(all, n)|..]
  }

  lemma KeysFromStep(all: seq<ArgpOption>, n: nat)
    requires n < |all|
    ensures KeysFrom(all, n) == (if Unshadowed(all, n) then [all[n].key as char] else "") + KeysFrom(all, n + 1)
  {
    KeysGrow(all, n, n + 1);
    KeysGrow(all, n + 1, |all|);
  }

  /** The next key in the string is that of a later unshadowed option. */
  lemma NextKey(all: seq<ArgpOption>, n: nat)
    requires n <= |all|
    ensures KeysFrom(all, n) != "" ==>
              exists m :: n <= m < |all| && Unshadowed(all, m) && all[m].key == KeysFrom(all, n)[0] as int
    decreases |all| - n
  {
    if n < |all| {
      KeysFromStep(all, n);
      if !Unshadowed(all, n) {
        NextKey(all, n + 1);
      } else {
        assert KeysFrom(all, n)[0] as int == all[n].key;
      }
    }
  }

  /** The greedy test, does the next key in the string match this option, recognizes exactly the
      unshadowed options. */
  lemma GreedyTest(all: seq<ArgpOption>, n: nat)
    requires n < |all|
    ensures (IsShort(all[n]) && KeysFrom(all, n) != "" && KeysFrom(all, n)[0] as int == all[n].key) <==> Unshadowed(all, n)
  {
    KeysFromStep(all, n);
    NextKey(all, n);
  }

  // ---------- the table ----------

  /** An entry: an option with its aliases, and where its keys start in the string. */
  datatype Entry = Entry(opts: seq<ArgpOption>, shortOptions: nat)

  function Concat(entries: seq<Entry>): seq<ArgpOption> {
    if entries == [] then [] else Concat(entries[..|entries| - 1]) + entries[|entries| - 1].opts
  }

  /** The number of options in the entries before I. */
  function Offset(entries: seq<Entry>, i: nat): (r: nat)
    requires i <= |entries|
  {
    |Concat(entries[..i])|
  }

  predicate EntryShape(e: Entry) {
    e.opts != [] && !e.opts[0].alias && forall j :: 0 < j < |e.opts| ==> e.opts[j].alias
  }

  /** Every entry of ENTRIES points to where its own keys begin in the string for ALL. */
  ghost predicate Positions(entries: seq<Entry>, all: seq<ArgpOption>) {
    forall i :: 0 <= i < |entries| ==> PositionAt(entries, all, i)
  }

  predicate PositionAt(entries: seq<Entry>, all: seq<ArgpOption>, i: nat)
    requires i < |entries|
  {
    var at := Offset(entries, i);
    EntryShape(entries[i]) && at <= |all| && entries[i].shortOptions == |FirstKeys(all, at)|
  }

  /** The string holds the first occurrences of all keys, and the entries' positions fit it. */
  ghost predicate Represents(entries: seq<Entry>, shortOptions: string) {
    var all := Concat(entries);
    shortOptions == FirstKeys(all, |all|) && Positions(entries, all)
  }

  lemma ConcatAppend(entries: seq<Entry>, e: Entry)
    ensures Concat(entries + [e]) == Concat(entries) + e.opts
  {
    assert (entries + [e])[..|entries|] == entries;
  }

  lemma {:induction false} ConcatConcat(a: seq<Entry>, b: seq<Entry>)
    ensures Concat(a + b) == Concat(a) + Concat(b)
  {
    if b == [] {
      assert a + b == a;
    } else {
      var m := |b| - 1;
      ConcatConcat(a, b[..m]);
      assert (a + b)[..|a| + m] == a + b[..m];
    }
  }

  lemma {:induction false} EntryAt(entries: seq<Entry>, i: nat)
    requires i < |entries|
    ensures Offset(entries, i) + |entries[i].opts| <= |Concat(entries)|
    ensures Concat(entries)[Offset(entries, i)..Offset(entries, i) + |entries[i].opts|] == entries[i].opts
  {
    var upTo := entries[..i] + [entries[i]];
    ConcatAppend(entries[..i], entries[i]);
    assert entries == upTo + entries[i + 1..];
    ConcatConcat(upTo, entries[i + 1..]);
  }

  // ---------- the walk over one entry ----------

  /** The options that a walk over OPTS picks, given what is left of the string. */
  function Walk(opts: seq<ArgpOption>, so: string): (r: seq<bool>)
    ensures |r| == |opts|
  {
    if opts == [] then []
    else if IsShort(opts[0]) && so != "" && so[0] as int == opts[0].key then [true] + Walk(opts[1..], so[1..])
    else [false] + Walk(opts[1..], so)
  }

  lemma WalkHead(all: seq<ArgpOption>, at: nat, opts: seq<ArgpOption>)
    requires at < |all| && opts != [] && opts[0] == all[at]
    ensures Walk(opts, KeysFrom(all, at)) == [Unshadowed(all, at)] + Walk(opts[1..], KeysFrom(all, at + 1))
  {
    GreedyTest(all, at);
    KeysFromStep(all, at);
    if Unshadowed(all, at) {
      assert KeysFrom(all, at)[1..] == KeysFrom(all, at + 1);
    }
  }

  lemma {:induction false} WalkPart(all: seq<ArgpOption>, at: nat, opts: seq<ArgpOption>, j: nat)
    requires j < |opts| && at + |opts| <= |all|
    requires forall i :: 0 <= i < |opts| ==> opts[i] == all[at + i]
    ensures Walk(opts, KeysFrom(all, at))[j] == Unshadowed(all, at + j)
    decreases |opts|
  {
    WalkHead(all, at, opts);
    if j > 0 {
      WalkPart(all, at + 1, opts[1..], j - 1);
    }
  }

  /** In a table that represents its options, walking an entry picks exactly the options of that
      entry whose key occurs nowhere before in the table. */
  lemma WalkIsExact(entries: seq<Entry>, shortOptions: string, i: nat)
    requires Represents(entries, shortOptions) && i < |entries|
    ensures var all := Concat(entries); var at := Offset(entries, i); var e := entries[i];
            && at + |e.opts| <= |all| && e.shortOptions <= |shortOptions|
            && forall j :: 0 <= j < |e.opts| ==> Walk(e.opts, shortOptions[e.shortOptions..])[j] == Unshadowed(all, at + j)
  {
    var all, at, e := Concat(entries), Offset(entries, i), entries[i];
    EntryAt(entries, i);
    assert PositionAt(entries, all, i);
    KeysGrow(all, at, |all|);
    forall j | 0 <= j < |e.opts|
      ensures Walk(e.opts, shortOptions[e.shortOptions..])[j] == Unshadowed(all, at + j)
    {
      WalkPart(all, at, e.opts, j);
    }
  }

  // ---------- building and merging tables ----------

  lemma {:induction false} KeysOfPrefix(a: seq<ArgpOption>, b: seq<ArgpOption>, n: nat)
    requires n <= |a|
    ensures FirstKeys(a + b, n) == FirstKeys(a, n)
  {
    if n > 0 {
      KeysOfPrefix(a, b, n - 1);
      assert forall i :: 0 <= i < n ==> (a + b)[i] == a[i];
      assert Unshadowed(a + b, n - 1) == Unshadowed(a, n - 1);
    }
  }

  /** An option of the right part is unshadowed in the whole when it is so in its own part and the
      left part does not have its key. */
  lemma UnshadowedRight(a: seq<ArgpOption>, b: seq<ArgpOption>, j: nat)
    requires j < |b|
    ensures Unshadowed(a + b, |a| + j) <==> Unshadowed(b, j) && b[j].key as char !in FirstKeys(a, |a|)
  {
    var all := a + b;
    if IsShort(b[j]) {
      KeysBefore(a, |a|, b[j].key as char);
      assert all[|a| + j] == b[j];
      assert forall i :: 0 <= i < |a| ==> all[i] == a[i];
      assert forall i :: 0 <= i < j ==> all[|a| + i] == b[i];
      if Unshadowed(b, j) && b[j].key as char !in FirstKeys(a, |a|) {
        forall i | 0 <= i < |a| + j
          ensures !(IsShort(all[i]) && all[i].key == b[j].key)
        {
          if i >= |a| {
            assert all[i] == b[i - |a|];
          }
        }
      }
    }
  }

  /** Positions stay right when a table gets more options on the right. */
  lemma PositionsGrow(entries: seq<Entry>, b: seq<ArgpOption>)
    requires Positions(entries, Concat(entries))
    ensures Positions(entries, Concat(entries) + b)
  {
    forall i | 0 <= i < |entries|
      ensures PositionAt(entries, Concat(entries) + b, i)
    {
      assert PositionAt(entries, Concat(entries), i);
      EntryAt(entries, i);
      KeysOfPrefix(Concat(entries), b, Offset(entries, i));
    }
  }

  lemma PositionsAppend(entries: seq<Entry>, e: Entry, all: seq<ArgpOption>)
    requires Positions(entries, all) && EntryShape(e)
    requires |Concat(entries)| <= |all| && e.shortOptions == |FirstKeys(all, |Concat(entries)|)|
    ensures Positions(entries + [e], all)
  {
    var more := entries + [e];
    forall i | 0 <= i < |more|
      ensures PositionAt(more, all, i)
    {
      if i < |entries| {
        assert more[..i] == entries[..i];
        assert PositionAt(entries, all, i);
      } else {
        assert more[..i] == entries;
      }
    }
  }

  lemma EmptyTable()
    ensures Concat([]) == [] && Represents([], "")
  {
  }

  class Hol {
    var entries: seq<Entry>
    var shortOptions: string

    /** make_hol: one entry per option that is not an alias. */
    constructor Make(opts: seq<ArgpOption>)
      requires opts != [] ==> !opts[0].alias     // asserted by the original
      ensures Represents(entries, shortOptions) && Concat(entries) == opts
    {
      var es: seq<Entry>, so, o := [], "", 0;
      EmptyTable();
      assert opts[..0] == [];
      while o < |opts|
        invariant 0 <= o <= |opts| && (o < |opts| ==> !opts[o].alias)
        invariant MadeSoFar(opts, o, es, so)
      {
        var first, start := o, |so|;
        o, so := OneEntry(opts, first, so);
        MadeMore(opts, first, o, es, start, so);
        es := es + [Entry(opts[first..o], start)];
      }
      assert opts[..o] == opts;
      entries, shortOptions := es, so;
    }

    /** The inner loop of make_hol: an option and its aliases. */
    static method OneEntry(opts: seq<ArgpOption>, first: nat, before: string) returns (o: nat, so: string)
      requires first < |opts| && before == FirstKeys(opts, first) && !opts[first].alias
      ensures first < o <= |opts| && (o < |opts| ==> !opts[o].alias)
      ensures so == FirstKeys(opts, o) && EntryShape(Entry(opts[first..o], |before|))
    {
      o, so := first, before;
      while true
        invariant first <= o < |opts| && (first < o ==> opts[o].alias)
        invariant so == FirstKeys(opts, o)
        invariant forall k :: first < k < o ==> opts[k].alias
        decreases |opts| - o
      {
        KeysBefore(opts, o, if IsShort(opts[o]) then opts[o].key as char else ' ');
        if IsShort(opts[o]) && opts[o].key as char !in so {
          so := so + [opts[o].key as char];
        }
        o := o + 1;
        if o == |opts| || !opts[o].alias {
          break;
        }
      }
    }

    /** hol_append: the options of this table shadow those of MORE.  The walk over MORE filters
        only against the string this table had before. */
    method Append(more: Hol)
      requires Represents(entries, shortOptions) && Represents(more.entries, more.shortOptions) && more != this
      modifies this
      ensures Represents(entries, shortOptions)
      ensures Concat(entries) == old(Concat(entries)) + Concat(more.entries)
    {
      if more.entries == [] {
        assert Concat(entries) + [] == Concat(entries);
      } else if entries == [] {
        assert [] + Concat(more.entries) == Concat(more.entries);
        entries, shortOptions := more.entries, more.shortOptions;
      } else {
        entries, shortOptions := Merge(entries, shortOptions, more.entries, more.shortOptions);
      }
    }

    /** The case that neither table is empty. */
    static method Merge(mine: seq<Entry>, own: string, theirs: seq<Entry>, theirSo: string)
      returns (es: seq<Entry>, so: string)
      requires Represents(mine, own) && Represents(theirs, theirSo)
      ensures Represents(es, so) && Concat(es) == Concat(mine) + Concat(theirs)
    {
      ghost var left, right := Concat(mine), Concat(theirs);
      var moreSo, k := 0, 0;
      es, so := mine, own;
      MergingStart(es, own, theirs);
      while k < |theirs|
        invariant 0 <= k <= |theirs|
        invariant Merging(left, right, theirs, k, es, so, moreSo)
      {
        assert PositionAt(theirs, right, k);
        es, so, moreSo := MergeOne(left, right, theirs, k, es, own, so, moreSo, theirSo);
        k := k + 1;
      }
      MergingEnd(left, right, theirs, es, so, moreSo);
    }

    /** One round of the outer loop. */
    static method MergeOne(ghost left: seq<ArgpOption>, ghost right: seq<ArgpOption>, theirs: seq<Entry>, k: nat,
                           es: seq<Entry>, own: string, so: string, moreSo: nat, theirSo: string)
      returns (newEs: seq<Entry>, newSo: string, newMoreSo: nat)
      requires k < |theirs| && EntryShape(theirs[k]) && right == Concat(theirs)
      requires own == FirstKeys(left, |left|) && theirSo == FirstKeys(right, |right|)
      requires Merging(left, right, theirs, k, es, so, moreSo)
      ensures Merging(left, right, theirs, k + 1, newEs, newSo, newMoreSo)
    {
      MergingEntry(left, right, theirs, k, es, so, moreSo);
      newSo, newMoreSo := MergeEntry(left, right, Offset(theirs, k), theirs[k].opts, own, so, moreSo, theirSo);
      MergingNext(left, right, theirs, k, es, so, moreSo, newSo, newMoreSo);
      newEs := es + [Entry(theirs[k].opts, |so|)];
    }

    /** The inner loop of hol_append, over the options of one entry of MORE. */
    static method MergeEntry(ghost left: seq<ArgpOption>, ghost right: seq<ArgpOption>, ghost at: nat,
                      opts: seq<ArgpOption>, own: string, so: string, moreSo: nat, moreShort: string)
      returns (newSo: string, newMoreSo: nat)
      requires at + |opts| <= |right| && right[at..at + |opts|] == opts
      requires own == FirstKeys(left, |left|) && moreShort == FirstKeys(right, |right|)
      requires so == FirstKeys(left + right, |left| + at) && moreSo == |FirstKeys(right, at)|
      ensures newSo == FirstKeys(left + right, |left| + at + |opts|)
      ensures newMoreSo == |FirstKeys(right, at + |opts|)|
    {
      newSo, newMoreSo := so, moreSo;
      ghost var j := at;
      for i := 0 to |opts|
        invariant j == at + i
        invariant newSo == FirstKeys(left + right, |left| + j)
        invariant newMoreSo == |FirstKeys(right, j)|
      {
        MergeStep(left, right, j);
        assert opts[i] == right[j];
        j := j + 1;
        if IsShort(opts[i]) && newMoreSo < |moreShort| && moreShort[newMoreSo] as int == opts[i].key {
          if opts[i].key as char !in own {
            newSo := newSo + [opts[i].key as char];
          }
          newMoreSo := newMoreSo + 1;
        }
      }
    }
  }

  /** The state of make_hol when O options have been put into entries. */
  ghost predicate MadeSoFar(opts: seq<ArgpOption>, o: nat, es: seq<Entry>, so: string) {
    o <= |opts| && Concat(es) == opts[..o] && so == FirstKeys(opts, o) && Positions(es, opts)
  }

  lemma MadeMore(opts: seq<ArgpOption>, first: nat, o: nat, es: seq<Entry>, start: nat, so: string)
    requires first < o <= |opts| && MadeSoFar(opts, first, es, FirstKeys(opts, first)) && start == |FirstKeys(opts, first)|
    requires so == FirstKeys(opts, o) && EntryShape(Entry(opts[first..o], start))
    ensures MadeSoFar(opts, o, es + [Entry(opts[first..o], start)], so)
  {
    var e := Entry(opts[first..o], start);
    ConcatAppend(es, e);
    assert |opts[..first]| == first;
    PositionsAppend(es, e, opts);
    assert opts[..first] + opts[first..o] == opts[..o];
  }

  /** The state of hol_append after K entries of MORE. */
  ghost predicate Merging(left: seq<ArgpOption>, right: seq<ArgpOption>, more: seq<Entry>, k: nat,
                          es: seq<Entry>, so: string, moreSo: nat)
    requires k <= |more|
  {
    && Concat(es) == left + Concat(more[..k]) && Offset(more, k) <= |right|
    && Positions(es, left + right)
    && so == FirstKeys(left + right, |left| + Offset(more, k))
    && moreSo == |FirstKeys(right, Offset(more, k))|
  }

  lemma MergingStart(entries: seq<Entry>, shortOptions: string, more: seq<Entry>)
    requires Represents(entries, shortOptions)
    ensures Merging(Concat(entries), Concat(more), more, 0, entries, shortOptions, 0)
  {
    var left, right := Concat(entries), Concat(more);
    PositionsGrow(entries, right);
    KeysOfPrefix(left, right, |left|);
    assert left + [] == left;
  }

  lemma MergingEntry(left: seq<ArgpOption>, right: seq<ArgpOption>, more: seq<Entry>, k: nat, es: seq<Entry>, so: string, moreSo: nat)
    requires k < |more| && right == Concat(more) && Merging(left, right, more, k, es, so, moreSo)
    ensures var at := Offset(more, k);
            && at + |more[k].opts| <= |right| && right[at..at + |more[k].opts|] == more[k].opts
            && so == FirstKeys(left + right, |left| + at) && moreSo == |FirstKeys(right, at)|
  {
    EntryAt(more, k);
  }

  lemma MergingNext(left: seq<ArgpOption>, right: seq<ArgpOption>, more: seq<Entry>, k: nat, es: seq<Entry>,
                    so: string, moreSo: nat, newSo: string, newMoreSo: nat)
    requires k < |more| && EntryShape(more[k]) && Merging(left, right, more, k, es, so, moreSo)
    requires Offset(more, k) + |more[k].opts| <= |right|
    requires newSo == FirstKeys(left + right, |left| + Offset(more, k) + |more[k].opts|)
    requires newMoreSo == |FirstKeys(right, Offset(more, k) + |more[k].opts|)|
    ensures Merging(left, right, more, k + 1, es + [Entry(more[k].opts, |so|)], newSo, newMoreSo)
  {
    var e := Entry(more[k].opts, |so|);
    assert more[..k + 1] == more[..k] + [more[k]];
    ConcatAppend(more[..k], more[k]);
    ConcatAppend(es, e);
    PositionsAppend(es, e, left + right);
    assert (left + Concat(more[..k])) + e.opts == left + (Concat(more[..k]) + e.opts);
  }

  lemma MergingEnd(left: seq<ArgpOption>, right: seq<ArgpOption>, more: seq<Entry>, es: seq<Entry>, so: string, moreSo: nat)
    requires right == Concat(more) && Merging(left, right, more, |more|, es, so, moreSo)
    ensures Represents(es, so) && Concat(es) == left + right
  {
    assert more[..|more|] == more;
  }

  /** One option of the merge. */
  lemma MergeStep(left: seq<ArgpOption>, right: seq<ArgpOption>, j: nat)
    requires j < |right|
    ensures var all := left + right; var c := right[j].key; var so := FirstKeys(right, |right|); var at := |FirstKeys(right, j)|;
            && at <= |so|
            && ((IsShort(right[j]) && at < |so| && so[at] as int == c) <==> Unshadowed(right, j))
            && FirstKeys(right, j + 1) == FirstKeys(right, j) + (if Unshadowed(right, j) then [c as char] else "")
            && FirstKeys(all, |left| + j + 1) ==
               FirstKeys(all, |left| + j)
               + (if Unshadowed(right, j) && c as char !in FirstKeys(left, |left|) then [c as char] else "")
  {
    GreedyTest(right, j);
    KeysGrow(right, j, |right|);
    UnshadowedRight(left, right, j);
    assert (left + right)[|left| + j] == right[j];
  }

  /** No option vector of the tree starts with an alias, as make_hol asserts. */
  predicate NoLeadingAlias(argp: Argp)
    decreases argp, 0
  {
    (Options(argp) != [] ==> !Options(argp)[0].alias) && NoLeadingAliases(argp.children)
  }

  predicate NoLeadingAliases(cs: Children)
    decreases cs, 1
  {
    cs.Child? ==> NoLeadingAlias(cs.argp) && NoLeadingAliases(cs.rest)
  }

  /** argp_hol: the table of a whole tree, merged bottom up. */
  method ArgpHol(argp: Argp) returns (hol: Hol)
    requires NoLeadingAlias(argp)
    ensures fresh(hol)
    ensures Represents(hol.entries, hol.shortOptions) && Concat(hol.entries) == Preorder(argp)
    decreases argp
  {
    hol := new Hol.Make(Options(argp));
    var child := argp.children;
    while child.Child?
      invariant child == argp.children || child < argp.children
      invariant fresh(hol) && NoLeadingAliases(child)
      invariant Represents(hol.entries, hol.shortOptions)
      invariant Concat(hol.entries) + PreorderAll(child) == Preorder(argp)
      decreases child
    {
      var more := ArgpHol(child.argp);
      ghost var done, next, rest := Concat(hol.entries), Preorder(child.argp), PreorderAll(child.rest);
      assert (done + next) + rest == done + (next + rest);
      hol.Append(more);
      child := child.rest;
    }
  }
}
