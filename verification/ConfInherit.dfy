/** Looking up an entry along the chain of Inherits entries, and setting one. */
module ConfInherit {
  import opened Maybes
  import opened WvStrings
  import opened ConfText
  import opened ConfStore

  const INHERITS := "Inherits"

  function GetEntry(es: seq<Entry>, ename: string, default: Maybe<string>): Maybe<string> {
    var i := Find(es, ename);
    if i < |es| then Some(es[i].value) else default
  }

  /** The section of this name, if there is a name and a section. */
  function At(ss: seq<Section>, name: Maybe<string>): (m: Maybe<nat>)
    ensures m.Some? ==> m.value < |ss| && FindSection(ss, ss[m.value].name) == m.value
  {
    if name.None? then None
    else
      var i := FindSection(ss, name.value);
      if i == |ss| then None
      else
        FirstOfItsName(ss, name.value);
        Some(i)
  }

  lemma FirstOfItsName(ss: seq<Section>, name: string)
    requires FindSection(ss, name) < |ss|
    ensures FindSection(ss, ss[FindSection(ss, name)].name) == FindSection(ss, name)
  {
    var i := FindSection(ss, name);
    var j := FindSection(ss, ss[i].name);
    assert Same(ss[i].name, ss[i].name) && Same(ss[j].name, name) == Same(ss[j].name, ss[i].name);
  }

  ghost function Iterate<T>(next: T -> T, start: T, k: nat): T {
    if k == 0 then start else next(Iterate(next, start, k - 1))
  }

  lemma {:induction false} StaysThere<T>(next: T -> T, start: T, k: nat, i: nat)
    requires k <= i && next(Iterate(next, start, k)) == Iterate(next, start, k)
    ensures Iterate(next, start, i) == Iterate(next, start, k)
    decreases i
  {
    if k < i {
      StaysThere(next, start, k, i - 1);
    }
  }

  /** On a chain that is at place K where it was at place J, every place is one before K. */
  lemma {:induction false} Earlier<T>(next: T -> T, start: T, j: nat, k: nat, i: nat) returns (h: nat)
    requires j < k && Iterate(next, start, j) == Iterate(next, start, k)
    ensures h < k && Iterate(next, start, h) == Iterate(next, start, i)
    decreases i
  {
    if i < k {
      h := i;
    } else {
      h := Earlier(next, start, j, k, i - 1);
      assert Iterate(next, start, h + 1) == next(Iterate(next, start, h));
      h := if h + 1 == k then j else h + 1;
    }
  }

  /** The section that the first Inherits entry of section M names. */
  function Next(ss: seq<Section>, m: Maybe<nat>): (r: Maybe<nat>)
    ensures r.Some? ==> r.value < |ss| && FindSection(ss, ss[r.value].name) == r.value
  {
    if m.None? || m.value >= |ss| then None else At(ss, GetEntry(ss[m.value].entries, INHERITS, None))
  }

  ghost function Chain(ss: seq<Section>): Maybe<nat> -> Maybe<nat> {
    m => Next(ss, m)
  }

  /** Where the chain is after K steps; it may well go round in circles. */
  ghost function PathAt(ss: seq<Section>, section: Maybe<string>, k: nat): (m: Maybe<nat>)
    ensures m.Some? ==> m.value < |ss| && FindSection(ss, ss[m.value].name) == m.value
  {
    Iterate(Chain(ss), At(ss, section), k)
  }

  ghost predicate DefinesAt(ss: seq<Section>, section: Maybe<string>, ename: string, k: nat) {
    var m := PathAt(ss, section, k);
    m.Some? && Find(ss[m.value].entries, ename) < |ss[m.value].entries|
  }

  /** R is the entry of the first section on the chain that has it, or there is none. */
  ghost predicate Finds(ss: seq<Section>, section: Maybe<string>, ename: string, r: Maybe<string>) {
    || (exists k: nat :: FirstDefinesAt(ss, section, ename, k)
          && r == GetEntry(ss[PathAt(ss, section, k).value].entries, ename, None))
    || ((forall k: nat :: !DefinesAt(ss, section, ename, k)) && r == None)
  }

  /** What get should return: what it finds on the chain, or else the global entry, or else the default. */
  ghost predicate IsAnswer(s: Store, section: Maybe<string>, ename: string, default: Maybe<string>, r: Maybe<string>) {
    || (r.Some? && Finds(s.sections, section, ename, r))
    || (Finds(s.sections, section, ename, None) && r == GetEntry(s.global, ename, default))
  }

  ghost predicate FirstDefinesAt(ss: seq<Section>, section: Maybe<string>, ename: string, k: nat) {
    DefinesAt(ss, section, ename, k) && forall j: nat :: j < k ==> !DefinesAt(ss, section, ename, j)
  }

  lemma AnswerIsUnique(s: Store, section: Maybe<string>, ename: string, default: Maybe<string>,
                       r: Maybe<string>, t: Maybe<string>)
    requires IsAnswer(s, section, ename, default, r) && IsAnswer(s, section, ename, default, t)
    ensures r == t
  {
    forall k: nat, j: nat | FirstDefinesAt(s.sections, section, ename, k) && FirstDefinesAt(s.sections, section, ename, j)
      ensures k == j
    {
      FirstIsUnique(s.sections, section, ename, j, k);
    }
  }

  lemma FirstIsUnique(ss: seq<Section>, section: Maybe<string>, ename: string, j: nat, k: nat)
    requires FirstDefinesAt(ss, section, ename, j) && FirstDefinesAt(ss, section, ename, k)
    ensures j == k
  {
  }

  /** K sections of the chain have been looked at in vain, and CACHE has their names. */
  ghost predicate Walked(ss: seq<Section>, section: Maybe<string>, ename: string, k: nat, cache: set<string>) {
    && (forall j: nat :: j < k ==> MissedAt(ss, section, ename, j))
    && (forall name :: name in cache ==> Seen(ss, section, k, name))
  }

  ghost predicate MissedAt(ss: seq<Section>, section: Maybe<string>, ename: string, j: nat) {
    PathAt(ss, section, j).Some? && !DefinesAt(ss, section, ename, j)
  }

  ghost predicate Seen(ss: seq<Section>, section: Maybe<string>, k: nat, name: string) {
    exists j: nat :: j < k && NameAt(ss, section, j) == Some(name)
  }

  lemma SeenLater(ss: seq<Section>, section: Maybe<string>, k: nat, name: string)
    requires Seen(ss, section, k, name) || NameAt(ss, section, k) == Some(name)
    ensures Seen(ss, section, k + 1, name)
  {
    if NameAt(ss, section, k) != Some(name) {
      var j: nat :| j < k && NameAt(ss, section, j) == Some(name);
    }
  }

  ghost function NameAt(ss: seq<Section>, section: Maybe<string>, j: nat): Maybe<string> {
    var m := PathAt(ss, section, j);
    if m.None? then None else Some(ss[m.value].name)
  }

  /** The chain is at M now, after K sections without the entry. */
  ghost predicate Walking(ss: seq<Section>, section: Maybe<string>, ename: string, k: nat, cache: set<string>,
                          m: Maybe<nat>) {
    m == PathAt(ss, section, k) && Walked(ss, section, ename, k, cache)
  }

  lemma NoSteps(ss: seq<Section>, section: Maybe<string>, ename: string)
    ensures Walking(ss, section, ename, 0, {}, At(ss, section))
  {
  }

  lemma OneStep(ss: seq<Section>, section: Maybe<string>, ename: string, k: nat, cache: set<string>, m: Maybe<nat>)
    requires Walking(ss, section, ename, k, cache, m)
    requires m.Some? && GetEntry(ss[m.value].entries, ename, None).None?
    ensures Walking(ss, section, ename, k + 1, cache + {ss[m.value].name}, Next(ss, m))
  {
    var name := ss[m.value].name;
    NextPlace(ss, section, k);
    WalkedOn(ss, section, ename, k, cache, name);
  }

  lemma WalkedOn(ss: seq<Section>, section: Maybe<string>, ename: string, k: nat, cache: set<string>, name: string)
    requires Walked(ss, section, ename, k, cache) && MissedAt(ss, section, ename, k) && NameAt(ss, section, k) == Some(name)
    ensures Walked(ss, section, ename, k + 1, cache + {name})
  {
    forall j: nat | j < k + 1 ensures MissedAt(ss, section, ename, j) {
    }
    forall n | n in cache + {name} ensures Seen(ss, section, k + 1, n) {
      SeenLater(ss, section, k, n);
    }
  }

  /** The first find is the answer. */
  lemma FoundHere(ss: seq<Section>, section: Maybe<string>, ename: string, k: nat, cache: set<string>,
                  m: Maybe<nat>, r: Maybe<string>)
    requires Walking(ss, section, ename, k, cache, m) && m.Some?
    requires r.Some? && r == GetEntry(ss[m.value].entries, ename, None)
    ensures Finds(ss, section, ename, r)
  {
    forall j: nat | j < k ensures !DefinesAt(ss, section, ename, j) {
      assert MissedAt(ss, section, ename, j);
    }
    assert FirstDefinesAt(ss, section, ename, k);
  }

  /** Once the chain ends or comes back to a name in the cache, there is nothing more to find. */
  lemma NothingMore(ss: seq<Section>, section: Maybe<string>, ename: string, k: nat, cache: set<string>)
    requires Walked(ss, section, ename, k, cache)
    requires PathAt(ss, section, k).None? || ss[PathAt(ss, section, k).value].name in cache
    ensures forall i: nat :: !DefinesAt(ss, section, ename, i)
  {
    var next, start := Chain(ss), At(ss, section);
    if PathAt(ss, section, k).None? {
      forall i: nat ensures !DefinesAt(ss, section, ename, i) {
        if k <= i {
          StaysThere(next, start, k, i);
        } else {
          assert MissedAt(ss, section, ename, i);
        }
      }
    } else {
      var name := ss[PathAt(ss, section, k).value].name;
      var j: nat :| j < k && NameAt(ss, section, j) == Some(name);
      assert PathAt(ss, section, j) == PathAt(ss, section, k);
      forall i: nat ensures !DefinesAt(ss, section, ename, i) {
        var h := Earlier(next, start, j, k, i);
        assert MissedAt(ss, section, ename, h);
      }
    }
  }

  lemma NotFound(ss: seq<Section>, section: Maybe<string>, ename: string, k: nat, cache: set<string>, m: Maybe<nat>)
    requires Walking(ss, section, ename, k, cache, m)
    requires m.None? || ss[m.value].name in cache
    ensures Finds(ss, section, ename, None)
  {
    NothingMore(ss, section, ename, k, cache);
  }

  lemma NextPlace(ss: seq<Section>, section: Maybe<string>, k: nat)
    ensures PathAt(ss, section, k + 1) == Next(ss, PathAt(ss, section, k))
  {
    assert Iterate(Chain(ss), At(ss, section), k + 1) == Chain(ss)(Iterate(Chain(ss), At(ss, section), k));
  }

  // ---------- set ----------

  function WithSection(ss: seq<Section>, section: string): seq<Section> {
    if FindSection(ss, section) == |ss| then ss + [Section(section, [])] else ss
  }

  /** WvConf::set: the new store, and whether anything was changed. */
  function SetIn(s: Store, section: string, ename: string, value: string): (Store, bool) {
    var i := FindSection(s.sections, section);
    if i == |s.sections| && value == "" then (s, false)
    else
      var ss := WithSection(s.sections, section);
      if GetEntry(ss[i].entries, ename, Some("")) == Some(value) then (s.(sections := ss), false)
      else (s.(sections := ss[i := Section(ss[i].name, Set(ss[i].entries, ename, value))]), true)
  }

  /** What was set is what get returns. */
  lemma SetThenGet(s: Store, section: string, ename: string, value: string, default: Maybe<string>)
    requires Trimmed(ename) && value != ""
    ensures IsAnswer(SetIn(s, section, ename, value).0, Some(section), ename, default, Some(value))
  {
    var i, t := FindSection(s.sections, section), SetIn(s, section, ename, value).0;
    TrimmedStays(ename);
    SetFinds(s, section, ename, value);
    assert PathAt(t.sections, Some(section), 0) == Some(i);
    SetSets(if i < |s.sections| then s.sections[i].entries else [], ename, value);
    assert FirstDefinesAt(t.sections, Some(section), ename, 0);
  }

  ghost predicate TrimmedNames(es: seq<Entry>) {
    forall i :: 0 <= i < |es| ==> Trimmed(es[i].name)
  }

  ghost predicate AllTrimmed(s: Store) {
    TrimmedNames(s.global) && forall i :: 0 <= i < |s.sections| ==> TrimmedNames(s.sections[i].entries)
  }

  lemma UntrimmedIsNowhere(es: seq<Entry>, ename: string)
    requires TrimmedNames(es) && !Trimmed(ename)
    ensures Find(es, ename) == |es|
  {
    var i := Find(es, ename);
    if i < |es| {
      SameTrimmed(es[i].name, ename);
    }
  }

  lemma ReplaceKeepsTrimmed(es: seq<Entry>, name: string, value: string)
    requires TrimmedNames(es) && Trimmed(name)
    ensures TrimmedNames(Replace(es, name, value))
  {
  }

  lemma SetKeepsTrimmed(s: Store, section: string, ename: string, value: string)
    requires AllTrimmed(s)
    ensures AllTrimmed(SetIn(s, section, ename, value).0)
  {
    var i, ss := FindSection(s.sections, section), WithSection(s.sections, section);
    assert AllTrimmed(Store(s.global, ss));
    TrimIsTrimmed(ename);
    if i < |ss| {
      ReplaceKeepsTrimmed(ss[i].entries, Trim(ename), value);
    }
  }

  /** A name with blanks at its ends, with a store whose names have none: what was set is found under the
      trimmed name, and under the name as given get finds nothing at all. */
  lemma SetUntrimmedThenGet(s: Store, section: string, ename: string, value: string, default: Maybe<string>)
    requires AllTrimmed(s) && !Trimmed(ename) && value != ""
    ensures var t := SetIn(s, section, ename, value).0;
      && IsAnswer(t, Some(section), Trim(ename), default, Some(value))
      && IsAnswer(t, Some(section), ename, default, default)
  {
    var i, t := FindSection(s.sections, section), SetIn(s, section, ename, value).0;
    var es := if i < |s.sections| then s.sections[i].entries else [];
    UntrimmedIsNowhere(es, ename);
    SetFinds(s, section, ename, value);
    assert PathAt(t.sections, Some(section), 0) == Some(i);
    SetSets(es, Trim(ename), value);
    assert FirstDefinesAt(t.sections, Some(section), Trim(ename), 0);
    SetKeepsTrimmed(s, section, ename, value);
    UntrimmedIsNowhere(t.global, ename);
    forall k: nat ensures !DefinesAt(t.sections, Some(section), ename, k) {
      var m := PathAt(t.sections, Some(section), k);
      if m.Some? {
        UntrimmedIsNowhere(t.sections[m.value].entries, ename);
      }
    }
  }

  // ---------- setting the empty value ----------

  /** Deleting the first entry of a name leaves the later ones. */
  lemma DeleteUncovers(es: seq<Entry>, name: string)
    ensures var k := Find(es, name);
      GetEntry(Replace(es, name, ""), name, None) == if k < |es| then GetEntry(es[k + 1..], name, None) else None
  {
    var k := Find(es, name);
    if k < |es| {
      GetBehind(es[..k], es[k + 1..], name);
    }
  }

  lemma GetBehind(a: seq<Entry>, b: seq<Entry>, name: string)
    requires forall i :: 0 <= i < |a| ==> !Same(a[i].name, name)
    ensures GetEntry(a + b, name, None) == GetEntry(b, name, None)
  {
    FindBehind(a, b, name);
    var i := Find(b, name);
    assert i < |b| ==> (a + b)[|a| + i] == b[i];
  }

  lemma {:induction false} FindBehind(a: seq<Entry>, b: seq<Entry>, name: string)
    requires forall i :: 0 <= i < |a| ==> !Same(a[i].name, name)
    ensures Find(a + b, name) == |a| + Find(b, name)
  {
    if a == [] {
      assert a + b == b;
    } else {
      assert (a + b)[1..] == a[1..] + b;
      FindBehind(a[1..], b, name);
    }
  }

  lemma {:induction false} IterateFirst<T>(next: T -> T, start: T, k: nat)
    ensures Iterate(next, start, k + 1) == Iterate(next, next(start), k)
    decreases k
  {
    if k > 0 {
      IterateFirst(next, start, k - 1);
    }
  }

  /** A chain without its first section is the chain that starts at the section inherited from. */
  lemma PathBehind(ss: seq<Section>, section: Maybe<string>, k: nat)
    requires At(ss, section).Some?
    ensures PathAt(ss, section, k + 1)
         == PathAt(ss, GetEntry(ss[At(ss, section).value].entries, INHERITS, None), k)
  {
    IterateFirst(Chain(ss), At(ss, section), k);
  }

  lemma DefinesBehind(ss: seq<Section>, section: Maybe<string>, ename: string)
    requires At(ss, section).Some? && !DefinesAt(ss, section, ename, 0)
    ensures var behind := GetEntry(ss[At(ss, section).value].entries, INHERITS, None);
      forall k: nat :: (DefinesAt(ss, section, ename, k + 1) <==> DefinesAt(ss, behind, ename, k))
                    && PathAt(ss, section, k + 1) == PathAt(ss, behind, k)
  {
    forall k: nat
      ensures PathAt(ss, section, k + 1) == PathAt(ss, GetEntry(ss[At(ss, section).value].entries, INHERITS, None), k)
    {
      PathBehind(ss, section, k);
    }
  }

  /** When the first section of the chain does not have the entry, get goes on behind it. */
  lemma FindsBehind(ss: seq<Section>, section: Maybe<string>, ename: string, r: Maybe<string>)
    requires At(ss, section).Some? && !DefinesAt(ss, section, ename, 0)
    requires Finds(ss, GetEntry(ss[At(ss, section).value].entries, INHERITS, None), ename, r)
    ensures Finds(ss, section, ename, r)
  {
    var behind := GetEntry(ss[At(ss, section).value].entries, INHERITS, None);
    DefinesBehind(ss, section, ename);
    if k: nat :| FirstDefinesAt(ss, behind, ename, k) && r == GetEntry(ss[PathAt(ss, behind, k).value].entries, ename, None) {
      forall j: nat | j < k + 1 ensures !DefinesAt(ss, section, ename, j) {
        if j > 0 {
          assert !DefinesAt(ss, behind, ename, j - 1);
          assert DefinesAt(ss, section, ename, (j - 1) + 1) <==> DefinesAt(ss, behind, ename, j - 1);
        }
      }
      assert DefinesAt(ss, section, ename, k + 1);
      assert FirstDefinesAt(ss, section, ename, k + 1);
    } else {
      forall j: nat ensures !DefinesAt(ss, section, ename, j) {
        if j > 0 {
          assert DefinesAt(ss, section, ename, (j - 1) + 1) <==> DefinesAt(ss, behind, ename, j - 1);
        }
      }
    }
  }

  /** What get returns after the empty value was set: an empty value that was there already, which set leaves
      alone; else the next entry of that name in the section; else what the section inherits. */
  lemma SetEmptyThenGet(s: Store, section: string, ename: string, default: Maybe<string>, r: Maybe<string>)
    requires Trimmed(ename)
    ensures var i := FindSection(s.sections, section); var t := SetIn(s, section, ename, "").0;
      if i == |s.sections| then t == s else
      && FindSection(t.sections, section) == i
      && GetEntry(t.sections[i].entries, ename, None) == LeftBehind(s.sections[i].entries, ename)
      && (LeftBehind(s.sections[i].entries, ename).Some? ==>
            IsAnswer(t, Some(section), ename, default, LeftBehind(s.sections[i].entries, ename)))
      && (LeftBehind(s.sections[i].entries, ename).None?
          && IsAnswer(t, GetEntry(t.sections[i].entries, INHERITS, None), ename, default, r) ==>
            IsAnswer(t, Some(section), ename, default, r))
  {
    var i, t := FindSection(s.sections, section), SetIn(s, section, ename, "").0;
    if i < |s.sections| {
      EmptyLeaves(s, section, ename);
      if LeftBehind(s.sections[i].entries, ename).Some? {
        assert PathAt(t.sections, Some(section), 0) == Some(i);
        assert FirstDefinesAt(t.sections, Some(section), ename, 0);
      } else {
        AnswerBehind(t, section, ename, default, r);
      }
    }
  }

  /** The value under NAME in a section when its first entry of that name, unless empty, is deleted. */
  function LeftBehind(es: seq<Entry>, name: string): Maybe<string> {
    var k := Find(es, name);
    if k < |es| && es[k].value != "" then GetEntry(es[k + 1..], name, None) else GetEntry(es, name, None)
  }

  lemma EmptyLeaves(s: Store, section: string, ename: string)
    requires Trimmed(ename) && FindSection(s.sections, section) < |s.sections|
    ensures var i := FindSection(s.sections, section); var t := SetIn(s, section, ename, "").0;
      && FindSection(t.sections, section) == i
      && GetEntry(t.sections[i].entries, ename, None) == LeftBehind(s.sections[i].entries, ename)
  {
    var i := FindSection(s.sections, section);
    TrimmedStays(ename);
    DeleteUncovers(s.sections[i].entries, ename);
    DeleteKeepsPlace(s.sections, i, section, Replace(s.sections[i].entries, ename, ""));
  }

  lemma AnswerBehind(t: Store, section: string, ename: string, default: Maybe<string>, r: Maybe<string>)
    requires FindSection(t.sections, section) < |t.sections| && !DefinesAt(t.sections, Some(section), ename, 0)
    ensures IsAnswer(t, GetEntry(t.sections[FindSection(t.sections, section)].entries, INHERITS, None), ename, default, r)
      ==> IsAnswer(t, Some(section), ename, default, r)
  {
    var behind := GetEntry(t.sections[FindSection(t.sections, section)].entries, INHERITS, None);
    if Finds(t.sections, behind, ename, r) {
      FindsBehind(t.sections, Some(section), ename, r);
    }
    if Finds(t.sections, behind, ename, None) {
      FindsBehind(t.sections, Some(section), ename, None);
    }
  }

  lemma DeleteKeepsPlace(ss: seq<Section>, i: nat, section: string, es: seq<Entry>)
    requires i == FindSection(ss, section) < |ss|
    ensures FindSection(ss[i := Section(ss[i].name, es)], section) == i
  {
    var t := ss[i := Section(ss[i].name, es)];
    assert Same(t[i].name, section);
    assert forall j :: 0 <= j < i ==> t[j] == ss[j];
  }

  lemma SetSets(es: seq<Entry>, name: string, value: string)
    requires value != ""
    ensures GetEntry(Replace(es, name, value), name, None) == Some(value)
  {
    var i, t := Find(es, name), Replace(es, name, value);
    assert Same(t[i].name, name);
    assert forall j :: 0 <= j < i ==> t[j] == es[j];
  }

  lemma SetFinds(s: Store, section: string, ename: string, value: string)
    requires value != ""
    ensures var i := FindSection(s.sections, section);
      FindSection(SetIn(s, section, ename, value).0.sections, section) == i
  {
    var i, t := FindSection(s.sections, section), SetIn(s, section, ename, value).0;
    assert Same(t.sections[i].name, section);
    assert forall j :: 0 <= j < i ==> t.sections[j] == s.sections[j];
  }

  /** Setting an entry that a line can say keeps the store such that saving and loading restores it. */
  lemma SetThenReload(s: Store, section: string, ename: string, value: string)
    requires Storable(s) && section != "" && NameOk(section)
    requires value == "" || EntryOk(Entry(Trim(ename), value))
    ensures var t := SetIn(s, section, ename, value).0; Storable(t) && Load(Save(t)) == t
  {
    var i := FindSection(s.sections, section);
    if i < |s.sections| || value != "" {
      SetKeepsOk(if i < |s.sections| then s.sections[i].entries else [], ename, value);
      AnySetIsStorable(s, section, ename, value);
    }
    SaveThenLoad(SetIn(s, section, ename, value).0);
  }

  /** Does a file have room for the section?  One that is there already has a name that is right. */
  predicate SectionFits(s: Store, section: string) {
    FindSection(s.sections, section) < |s.sections| || (section != "" && NameOk(section))
  }

  lemma AnySetIsStorable(s: Store, section: string, ename: string, value: string)
    requires Storable(s) && SectionFits(s, section)
    requires var i := FindSection(s.sections, section);
      AllOk(Set(if i < |s.sections| then s.sections[i].entries else [], ename, value))
    ensures Storable(SetIn(s, section, ename, value).0)
  {
    var i := FindSection(s.sections, section);
    var ss := WithSection(s.sections, section);
    if i == |s.sections| {
      AddSection(s.sections, section);
    }
    assert SectionsOk(ss);
    var es := Set(ss[i].entries, ename, value);
    assert AllOk(es);
    ReplaceSection(ss, i, es);
  }

  lemma ReplaceSection(ss: seq<Section>, i: nat, es: seq<Entry>)
    requires SectionsOk(ss) && i < |ss| && AllOk(es)
    ensures SectionsOk(ss[i := Section(ss[i].name, es)])
  {
  }

  lemma AddSection(ss: seq<Section>, name: string)
    requires SectionsOk(ss) && name != "" && NameOk(name) && FindSection(ss, name) == |ss|
    ensures SectionsOk(ss + [Section(name, [])])
  {
  }

  lemma SetKeepsOk(es: seq<Entry>, ename: string, value: string)
    requires AllOk(es) && (value == "" || EntryOk(Entry(Trim(ename), value)))
    ensures AllOk(Set(es, ename, value))
  {
    if value != "" {
      PutKeepsOk(es, Entry(Trim(ename), value), false);
      TrimmedStays(Trim(ename));
    }
  }

  lemma DeleteKeepsOk(es: seq<Entry>, ename: string)
    requires AllOk(es)
    ensures AllOk(Set(es, ename, ""))
  {
  }

  /** The entry that set leaves behind is in the store, under the old spelling of its name or the new. */
  lemma SetLeaves(es: seq<Entry>, ename: string, value: string)
    requires value != "" && AllOk(Set(es, ename, value))
    ensures EntryOk(Entry(Trim(ename), value))
  {
    var name, t := Trim(ename), Set(es, ename, value);
    var i := Find(es, name);
    assert Same(t[i].name, name) && t[i].value == value;
    SameEntryOk(t[i].name, name, value);
  }

  /** An entry that a line can say, found under its name: set would not change it. */
  lemma AlreadyThere(es: seq<Entry>, ename: string, value: string)
    requires AllOk(es) && value != "" && GetEntry(es, ename, Some("")) == Some(value)
    ensures EntryOk(Entry(Trim(ename), value))
  {
    var i := Find(es, ename);
    SameTrimmed(es[i].name, ename);
    TrimmedStays(ename);
    SameEntryOk(es[i].name, ename, value);
  }

  /** The exact condition, for any set on a storable store: the new store survives saving and loading if and
      only if the value is empty, or a file can say section and entry. */
  lemma SetSurvivesIff(s: Store, section: string, ename: string, value: string)
    requires Storable(s)
    ensures var t := SetIn(s, section, ename, value).0;
      Load(Save(t)) == t
      <==> value == "" || (SectionFits(s, section) && EntryOk(Entry(Trim(ename), value)))
  {
    var i, t := FindSection(s.sections, section), SetIn(s, section, ename, value).0;
    var es := if i < |s.sections| then s.sections[i].entries else [];
    RoundTrip(t);
    if value == "" {
      if t != s {
        DeleteKeepsOk(es, ename);
        AnySetIsStorable(s, section, ename, value);
      }
    } else if GetEntry(es, ename, Some("")) == Some(value) {
      AlreadyThere(es, ename, value);
    } else if SectionFits(s, section) && EntryOk(Entry(Trim(ename), value)) {
      SetKeepsOk(es, ename, value);
      AnySetIsStorable(s, section, ename, value);
    } else if Storable(t) {
      assert t.sections[i].entries == Set(es, ename, value);
      SetLeaves(es, ename, value);
    }
  }

  /** A value with a blank in front, in an empty configuration, is lost. */
  lemma BlankIsLost()
    ensures var t := SetIn(EMPTY, "s", "a", " x").0; t != EMPTY && Load(Save(t)) != t
  {
    var t := SetIn(EMPTY, "s", "a", " x").0;
    assert |t.sections| == 1;
    SetSurvivesIff(EMPTY, "s", "a", " x");
    assert IsSpace(" x"[0]);
  }
}
