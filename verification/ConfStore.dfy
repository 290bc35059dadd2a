/** The configuration store: sections of entries, how a file is loaded into it, and how it is printed. */
module ConfStore {
  import opened Maybes
  import opened WvStrings
  import opened ConfText

  datatype Section = Section(name: string, entries: seq<Entry>)

  datatype Store = Store(global: seq<Entry>, sections: seq<Section>)

  /** The place of the first element with this name, or the number of elements. */
  function FindBy<T>(nameOf: T -> string, ts: seq<T>, name: string): (i: nat)
    ensures i <= |ts| && (i < |ts| ==> Same(nameOf(ts[i]), name))
    ensures forall j :: 0 <= j < i ==> !Same(nameOf(ts[j]), name)
  {
    if ts == [] || Same(nameOf(ts[0]), name) then 0 else 1 + FindBy(nameOf, ts[1..], name)
  }

  function EntryName(e: Entry): string {
    e.name
  }

  function SectionName(s: Section): string {
    s.name
  }

  function Find(es: seq<Entry>, name: string): nat {
    FindBy(EntryName, es, name)
  }

  function FindSection(ss: seq<Section>, name: string): nat {
    FindBy(SectionName, ss, name)
  }

  /** An empty value deletes. */
  function Replace(es: seq<Entry>, name: string, value: string): seq<Entry> {
    var i := Find(es, name);
    if value == "" then if i < |es| then es[..i] + es[i + 1..] else es
    else if i < |es| then es[i := Entry(es[i].name, value)]
    else es + [Entry(name, value)]
  }

  /** WvConfigSection::set. */
  function Set(es: seq<Entry>, name: string, value: string): seq<Entry> {
    Replace(es, Trim(name), value)
  }

  function QuickSet(es: seq<Entry>, name: string, value: string): seq<Entry> {
    es + [Entry(Trim(name), value)]
  }

  // ---------- loading ----------

  /** Where load_file is: the store so far, the current section (None: the global one) and quick_mode. */
  datatype Loading = Loading(store: Store, current: Maybe<nat>, quick: bool) {
    predicate Valid() {
      current.Some? ==> current.value < |store.sections|
    }

    function Entries(): seq<Entry>
      requires Valid()
    {
      if current.None? then store.global else store.sections[current.value].entries
    }

    function With(es: seq<Entry>): (r: Loading)
      requires Valid()
      ensures r.Valid() && r.Entries() == es && r.current == current && r.quick == quick
    {
      if current.None? then this.(store := store.(global := es))
      else
        var s := store.sections[current.value];
        this.(store := store.(sections := store.sections[current.value := s.(entries := es)]))
    }
  }

  function Put(es: seq<Entry>, e: Entry, quick: bool): seq<Entry> {
    if quick then QuickSet(es, e.name, e.value) else Set(es, e.name, e.value)
  }

  function OpenSection(l: Loading, name: string): (r: Loading)
    requires l.Valid()
    ensures r.Valid()
  {
    var ss := l.store.sections;
    var i := FindSection(ss, name);
    if name == "" then l.(current := None, quick := false)
    else if i < |ss| then l.(current := Some(i), quick := false)
    else Loading(l.store.(sections := ss + [Section(name, [])]), Some(|ss|), true)
  }

  function Apply(l: Loading, s: Statement): (r: Loading)
    requires l.Valid()
    ensures r.Valid()
  {
    match s
    case Opens(name) => OpenSection(l, name)
    case Says(e) => l.With(Put(l.Entries(), e, l.quick))
    case Blank => l
  }

  function ApplyAll(l: Loading, ss: seq<Statement>): (r: Loading)
    requires l.Valid()
    ensures r.Valid()
    decreases |ss|
  {
    if ss == [] then l else ApplyAll(Apply(l, ss[0]), ss[1..])
  }

  const EMPTY := Store([], [])

  /** load_file with the contents of the file, into a store. */
  function LoadInto(store: Store, text: string): Store {
    ApplyAll(Loading(store, None, false), ParseAll(Lines(text))).store
  }

  function Load(text: string): Store {
    LoadInto(EMPTY, text)
  }

  // ---------- saving ----------

  function DumpLines(es: seq<Entry>): (r: seq<string>)
    ensures |r| == |es|
  {
    if es == [] then [] else [EntryLine(es[0])] + DumpLines(es[1..])
  }

  function Header(name: string): seq<string> {
    ["", "[" + name + "]"]
  }

  function SectionLines(ss: seq<Section>): seq<string> {
    if ss == [] then [] else Header(ss[0].name) + DumpLines(ss[0].entries) + SectionLines(ss[1..])
  }

  function SaveLines(s: Store): seq<string> {
    DumpLines(s.global) + SectionLines(s.sections)
  }

  /** What save prints. */
  function Save(s: Store): string {
    Text(SaveLines(s))
  }

  // ---------- what can be loaded ----------

  ghost predicate AllOk(es: seq<Entry>) {
    forall i :: 0 <= i < |es| ==> EntryOk(es[i])
  }

  /** No empty values, and no name twice. */
  ghost predicate Settled(es: seq<Entry>) {
    && (forall i :: 0 <= i < |es| ==> es[i].value != "")
    && (forall i, j :: 0 <= i < j < |es| ==> !Same(es[i].name, es[j].name))
  }

  ghost predicate SectionsOk(ss: seq<Section>) {
    && (forall i :: 0 <= i < |ss| ==> ss[i].name != "" && NameOk(ss[i].name) && AllOk(ss[i].entries))
    && (forall i, j :: 0 <= i < j < |ss| ==> !Same(ss[i].name, ss[j].name))
  }

  /** Names and values that lines can say; no section twice; in the global section no entry twice or empty.
      Other sections may well hold an entry twice, or an empty one. */
  ghost predicate Storable(s: Store) {
    AllOk(s.global) && Settled(s.global) && SectionsOk(s.sections)
  }

  // ---------- whatever is loaded is storable ----------

  lemma PutKeepsOk(es: seq<Entry>, e: Entry, quick: bool)
    requires AllOk(es) && EntryOk(e)
    ensures AllOk(Put(es, e, quick))
  {
    TrimmedStays(e.name);
    var i := Find(es, e.name);
    if !quick && e.value != "" && i < |es| {
      SameEntryOk(e.name, es[i].name, e.value);
    }
  }

  lemma PutSettles(es: seq<Entry>, e: Entry)
    requires Settled(es) && EntryOk(e)
    ensures Settled(Put(es, e, false))
  {
    TrimmedStays(e.name);
    if e.value == "" {
      DeleteSettles(es, Find(es, e.name));
    } else {
      AddSettles(es, e);
    }
  }

  lemma DeleteSettles(es: seq<Entry>, i: nat)
    requires Settled(es) && i <= |es|
    ensures i < |es| ==> Settled(es[..i] + es[i + 1..])
  {
    if i < |es| {
      var rest := es[..i] + es[i + 1..];
      forall j | 0 <= j < |rest| ensures rest[j] == es[if j < i then j else j + 1] {
      }
    }
  }

  lemma AddSettles(es: seq<Entry>, e: Entry)
    requires Settled(es) && e.value != ""
    ensures Settled(Replace(es, e.name, e.value))
  {
  }

  /** The spelling of a name, in capitals or not, does not matter to what a line can say. */
  lemma SameEntryOk(a: string, b: string, value: string)
    requires Same(a, b) && value != "" && EntryOk(Entry(a, value))
    ensures EntryOk(Entry(b, value))
  {
    SameTrimmed(a, b);
    SameSpecials(a, b);
    if SectionLine(EntryLine(Entry(b, value))) {
      PrintedSection(b, value);
      SameBrackets(b, a);
      PrintsAsSection(a, value);
      assert false;
    }
  }

  lemma SameTrimmed(a: string, b: string)
    requires Same(a, b)
    ensures Trimmed(a) <==> Trimmed(b)
  {
    assert |Fold(a)| == |a| && |Fold(b)| == |b|;
    forall i | 0 <= i < |a| ensures IsSpace(a[i]) <==> IsSpace(b[i]) {
      assert Fold(a)[i] == Fold(b)[i];
    }
  }

  lemma SameSpecials(a: string, b: string)
    requires Same(a, b)
    ensures |a| == |b| && ('=' in a <==> '=' in b) && ('\n' in a <==> '\n' in b)
  {
    assert |Fold(a)| == |a| && |Fold(b)| == |b|;
    forall i | 0 <= i < |a| ensures (a[i] == '=' <==> b[i] == '=') && (a[i] == '\n' <==> b[i] == '\n') {
      assert Fold(a)[i] == Fold(b)[i];
    }
  }

  lemma SameBrackets(a: string, b: string)
    requires Same(a, b)
    ensures |a| == |b| && (']' in a <==> ']' in b)
    ensures a != "" && a[0] == '[' ==> b[0] == '['
  {
    assert |Fold(a)| == |a| && |Fold(b)| == |b|;
    forall i | 0 <= i < |a| ensures (a[i] == ']' <==> b[i] == ']') && (a[i] == '[' <==> b[i] == '[') {
      assert Fold(a)[i] == Fold(b)[i];
    }
  }

  lemma PrintsAsSection(name: string, value: string)
    requires name != "" && name[0] == '[' && ']' !in name
    requires value != "" && value[|value| - 1] == ']' && ']' !in value[..|value| - 1]
    ensures SectionLine(EntryLine(Entry(name, value)))
  {
    var s := EntryLine(Entry(name, value));
    assert s[..|s| - 1] == name + " = " + value[..|value| - 1];
  }

  /** Storable, and quick_mode never in the global section. */
  ghost predicate Sound(l: Loading) {
    l.Valid() && Storable(l.store) && (l.quick ==> l.current.Some?)
  }

  lemma WithIsSound(l: Loading, es: seq<Entry>)
    requires Sound(l) && AllOk(es) && (l.current.None? ==> Settled(es))
    ensures Sound(l.With(es))
  {
  }

  lemma OpenIsSound(l: Loading, name: string)
    requires Sound(l) && NameOk(name)
    ensures Sound(OpenSection(l, name))
  {
  }

  lemma ApplyIsSound(l: Loading, s: Statement)
    requires Sound(l) && StatementOk(s)
    ensures Sound(Apply(l, s))
  {
    match s
    case Opens(name) => OpenIsSound(l, name);
    case Says(e) =>
      PutKeepsOk(l.Entries(), e, l.quick);
      if l.current.None? {
        PutSettles(l.Entries(), e);
      }
      WithIsSound(l, Put(l.Entries(), e, l.quick));
    case Blank =>
  }

  lemma {:induction false} ApplyAllIsSound(l: Loading, ss: seq<Statement>)
    requires Sound(l) && AllStatementsOk(ss)
    ensures Sound(ApplyAll(l, ss))
    decreases |ss|
  {
    if ss != [] {
      ApplyIsSound(l, ss[0]);
      ApplyAllIsSound(Apply(l, ss[0]), ss[1..]);
    }
  }

  /** Every file leads to a storable store, from any such store. */
  lemma LoadIsStorable(store: Store, text: string)
    requires Storable(store)
    ensures Storable(LoadInto(store, text))
  {
    LinesEndNowhere(text);
    ParseAllIsOk(Lines(text));
    ApplyAllIsSound(Loading(store, None, false), ParseAll(Lines(text)));
  }

  // ---------- what is saved is loaded again ----------

  function AllSaid(es: seq<Entry>): seq<Statement> {
    if es == [] then [] else [Says(es[0])] + AllSaid(es[1..])
  }

  function SectionStatements(ss: seq<Section>): seq<Statement> {
    if ss == [] then [] else [Blank, Opens(ss[0].name)] + AllSaid(ss[0].entries) + SectionStatements(ss[1..])
  }

  ghost predicate NoLineEnds(lines: seq<string>) {
    forall i :: 0 <= i < |lines| ==> '\n' !in lines[i]
  }

  lemma {:induction false} ParseDump(es: seq<Entry>)
    requires AllOk(es)
    ensures ParseAll(DumpLines(es)) == AllSaid(es) && NoLineEnds(DumpLines(es))
  {
    if es != [] {
      ParseEntryLine(es[0]);
      EntryLineStays(es[0]);
      ParseDump(es[1..]);
    }
  }

  lemma ParsePair(a: string, b: string)
    ensures ParseAll([a, b]) == [Parse(a), Parse(b)]
  {
    assert [a, b][1..] == [b];
    assert ParseAll([b]) == [Parse(b)];
  }

  lemma ParseHeaderLines(name: string)
    requires NameOk(name)
    ensures ParseAll(Header(name)) == [Blank, Opens(name)]
  {
    ParsePair("", "[" + name + "]");
    ParseHeader(name);
    ParseBlank();
  }

  lemma {:induction false} ParseSections(ss: seq<Section>)
    requires SectionsOk(ss)
    ensures ParseAll(SectionLines(ss)) == SectionStatements(ss)
  {
    if ss != [] {
      var head, body, rest := Header(ss[0].name), DumpLines(ss[0].entries), SectionLines(ss[1..]);
      ParseHeaderLines(ss[0].name);
      ParseDump(ss[0].entries);
      ParseSections(ss[1..]);
      ParseAllAdd(head, body);
      ParseAllAdd(head + body, rest);
    }
  }

  lemma {:induction false} SectionsNoLineEnds(ss: seq<Section>)
    requires SectionsOk(ss)
    ensures NoLineEnds(SectionLines(ss))
  {
    if ss != [] {
      ParseDump(ss[0].entries);
      SectionsNoLineEnds(ss[1..]);
      JoinNoLineEnds(Header(ss[0].name), DumpLines(ss[0].entries));
      JoinNoLineEnds(Header(ss[0].name) + DumpLines(ss[0].entries), SectionLines(ss[1..]));
    }
  }

  lemma JoinNoLineEnds(a: seq<string>, b: seq<string>)
    requires NoLineEnds(a) && NoLineEnds(b)
    ensures NoLineEnds(a + b)
  {
  }

  lemma {:induction false} ApplyAllAdd(l: Loading, a: seq<Statement>, b: seq<Statement>)
    requires l.Valid()
    ensures ApplyAll(l, a + b) == ApplyAll(ApplyAll(l, a), b)
    decreases |a|
  {
    if a == [] {
      assert a + b == b;
    } else {
      assert (a + b)[1..] == a[1..] + b;
      ApplyAllAdd(Apply(l, a[0]), a[1..], b);
    }
  }

  function PutAll(es: seq<Entry>, more: seq<Entry>, quick: bool): seq<Entry>
    decreases |more|
  {
    if more == [] then es else PutAll(Put(es, more[0], quick), more[1..], quick)
  }

  lemma {:induction false} ApplySays(l: Loading, es: seq<Entry>)
    requires l.Valid()
    ensures ApplyAll(l, AllSaid(es)) == l.With(PutAll(l.Entries(), es, l.quick))
    decreases |es|
  {
    if es != [] {
      ApplySays(Apply(l, Says(es[0])), es[1..]);
    }
  }

  lemma {:induction false} QuickSetAppends(es: seq<Entry>, more: seq<Entry>)
    requires AllOk(more)
    ensures PutAll(es, more, true) == es + more
    decreases |more|
  {
    if more == [] {
      assert es + more == es;
    } else {
      TrimmedStays(more[0].name);
      assert (es + [more[0]]) + more[1..] == es + more;
      QuickSetAppends(es + [more[0]], more[1..]);
    }
  }

  lemma {:induction false} SetAppends(all: seq<Entry>, n: nat)
    requires n <= |all| && AllOk(all[n..]) && Settled(all)
    ensures PutAll(all[..n], all[n..], false) == all
    decreases |all| - n
  {
    if n < |all| {
      NextAppends(all, n);
      assert all[n..][1..] == all[n + 1..];
      SetAppends(all, n + 1);
    }
  }

  lemma NextAppends(all: seq<Entry>, n: nat)
    requires n < |all| && EntryOk(all[n]) && Settled(all)
    ensures Put(all[..n], all[n], false) == all[..n + 1]
  {
    TrimmedStays(all[n].name);
  }

  /** On entries without empty values and without repeated names, set and quick_set do the same. */
  lemma QuickSetAgrees(es: seq<Entry>, more: seq<Entry>)
    requires AllOk(more)
    ensures PutAll(es, more, true) == es + more
    ensures Settled(es + more) ==> PutAll(es, more, false) == es + more
  {
    QuickSetAppends(es, more);
    if Settled(es + more) {
      assert (es + more)[..|es|] == es && (es + more)[|es|..] == more;
      SetAppends(es + more, |es|);
    }
  }

  /** One section of the file. */
  lemma ApplySection(l: Loading, s: Section)
    requires l.Valid() && s.name != "" && AllOk(s.entries)
    requires FindSection(l.store.sections, s.name) == |l.store.sections|
    ensures ApplyAll(l, [Blank, Opens(s.name)] + AllSaid(s.entries)).store
         == l.store.(sections := l.store.sections + [s])
  {
    var within := OpenSection(l, s.name);
    ApplyPair(l, Blank, Opens(s.name));
    ApplyAllAdd(l, [Blank, Opens(s.name)], AllSaid(s.entries));
    ApplySays(within, s.entries);
    QuickSetAgrees([], s.entries);
    assert [] + s.entries == s.entries;
    FillNew(l, s);
  }

  lemma ApplyPair(l: Loading, a: Statement, b: Statement)
    requires l.Valid()
    ensures ApplyAll(l, [a, b]) == Apply(Apply(l, a), b)
  {
    assert [a, b][1..] == [b];
    assert ApplyAll(Apply(l, a), [b]) == Apply(Apply(l, a), b);
  }

  lemma FillNew(l: Loading, s: Section)
    requires l.Valid() && s.name != "" && FindSection(l.store.sections, s.name) == |l.store.sections|
    ensures var within := OpenSection(l, s.name);
      within.quick && within.Entries() == []
      && within.With(s.entries).store == l.store.(sections := l.store.sections + [s])
  {
  }

  lemma {:induction false} ApplySections(l: Loading, ss: seq<Section>)
    requires l.Valid() && SectionsOk(l.store.sections + ss)
    ensures ApplyAll(l, SectionStatements(ss)).store == l.store.(sections := l.store.sections + ss)
    decreases |ss|
  {
    var done := l.store.sections;
    if ss == [] {
      assert done + ss == done;
    } else {
      var next := FirstSection(l, ss);
      assert done + ss == (done + [ss[0]]) + ss[1..];
      ApplySections(next, ss[1..]);
    }
  }

  lemma FirstSection(l: Loading, ss: seq<Section>) returns (next: Loading)
    requires l.Valid() && ss != [] && SectionsOk(l.store.sections + ss)
    ensures next.Valid() && next.store == l.store.(sections := l.store.sections + [ss[0]])
    ensures ApplyAll(l, SectionStatements(ss)) == ApplyAll(next, SectionStatements(ss[1..]))
  {
    var first := [Blank, Opens(ss[0].name)] + AllSaid(ss[0].entries);
    IsNew(l.store.sections, ss);
    ApplySection(l, ss[0]);
    ApplyAllAdd(l, first, SectionStatements(ss[1..]));
    next := ApplyAll(l, first);
  }

  lemma IsNew(done: seq<Section>, ss: seq<Section>)
    requires ss != [] && SectionsOk(done + ss)
    ensures FindSection(done, ss[0].name) == |done| && ss[0].name != "" && AllOk(ss[0].entries)
  {
    assert (done + ss)[|done|] == ss[0];
    assert forall i :: 0 <= i < |done| ==> (done + ss)[i] == done[i];
  }

  lemma ParseSave(s: Store)
    requires Storable(s)
    ensures ParseAll(Lines(Save(s))) == AllSaid(s.global) + SectionStatements(s.sections)
  {
    ParseDump(s.global);
    ParseSections(s.sections);
    SectionsNoLineEnds(s.sections);
    JoinNoLineEnds(DumpLines(s.global), SectionLines(s.sections));
    LinesOfText(SaveLines(s));
    ParseAllAdd(DumpLines(s.global), SectionLines(s.sections));
  }

  lemma LoadsGlobal(es: seq<Entry>)
    requires AllOk(es) && Settled(es)
    ensures ApplyAll(Loading(EMPTY, None, false), AllSaid(es)) == Loading(Store(es, []), None, false)
  {
    ApplySays(Loading(EMPTY, None, false), es);
    assert [] + es == es;
    QuickSetAgrees([], es);
  }

  lemma ApplySave(s: Store)
    requires Storable(s)
    ensures ApplyAll(Loading(EMPTY, None, false), AllSaid(s.global) + SectionStatements(s.sections)).store == s
  {
    var next := Loading(Store(s.global, []), None, false);
    ApplyAllAdd(Loading(EMPTY, None, false), AllSaid(s.global), SectionStatements(s.sections));
    LoadsGlobal(s.global);
    assert next.store.sections + s.sections == s.sections;
    ApplySections(next, s.sections);
  }

  /** What save prints of a storable store loads as that store. */
  lemma SaveThenLoad(s: Store)
    requires Storable(s)
    ensures Load(Save(s)) == s
  {
    ParseSave(s);
    ApplySave(s);
  }

  /** A store survives being saved and loaded exactly when it is storable. */
  lemma RoundTrip(s: Store)
    ensures Load(Save(s)) == s <==> Storable(s)
  {
    if Storable(s) {
      SaveThenLoad(s);
    }
    LoadIsStorable(EMPTY, Save(s));
  }

  /** What was loaded once survives: saving a freshly loaded file loses nothing. */
  lemma LoadSaveLoad(text: string)
    ensures Load(Save(Load(text))) == Load(text)
  {
    LoadIsStorable(EMPTY, text);
    SaveThenLoad(Load(text));
  }
}
