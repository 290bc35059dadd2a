/** What a configuration file means, however it was written: line by line, and for every entry. */
module ConfMeaning {
  import opened Maybes
  import opened Sequences
  import opened WvStrings
  import opened ConfText
  import opened ConfStore
  import opened ConfInherit

  // ---------- blanks around a line and its parts ----------

  predicate Blanks(s: string) {
    forall i :: 0 <= i < |s| ==> IsSpace(s[i])
  }

  lemma {:induction false} TrimEndBlanks(s: string, b: string)
    requires Blanks(b)
    ensures TrimEnd(s + b) == TrimEnd(s)
    decreases |b|
  {
    if b == "" {
      assert s + b == s;
    } else {
      var n := |b| - 1;
      assert (s + b)[..|s| + n] == s + b[..n] && (s + b)[|s| + n] == b[n];
      TrimEndBlanks(s, b[..n]);
    }
  }

  lemma {:induction false} TrimStartBlanks(a: string, s: string)
    requires Blanks(a)
    ensures TrimStart(a + s) == TrimStart(s)
  {
    if a == "" {
      assert a + s == s;
    } else {
      assert (a + s)[1..] == a[1..] + s;
      TrimStartBlanks(a[1..], s);
    }
  }

  /** Trimming finds what stands between the blanks. */
  lemma TrimIs(a: string, m: string, b: string)
    requires Blanks(a) && Trimmed(m) && Blanks(b)
    ensures Trim(a + m + b) == m
  {
    TrimEndBlanks(a + m, b);
    TrimmedStays(m);
    if m == "" {
      assert a + m == "" + a;
      TrimEndBlanks("", a);
    } else {
      assert (a + m)[|a + m| - 1] == m[|m| - 1];
      TrimStartBlanks(a, m);
    }
  }

  lemma CutBoth(s: string, t: string, m: string)
    requires t <= s && |m| <= |t| && m == t[|t| - |m|..]
    ensures s == t[..|t| - |m|] + m + s[|t|..]
  {
    assert t == t[..|t| - |m|] + m;
  }

  lemma TrimParts(s: string) returns (a: string, b: string)
    ensures s == a + Trim(s) + b && Blanks(a) && Blanks(b)
  {
    var t, m := TrimEnd(s), Trim(s);
    TrimEndIs(s);
    TrimStartIs(t);
    CutBoth(s, t, m);
    a, b := t[..|t| - |m|], s[|t|..];
  }

  lemma {:induction false} TrimEndBehind(left: string, c: char, right: string)
    requires !IsSpace(c)
    ensures TrimEnd(left + [c] + right) == left + [c] + TrimEnd(right)
    decreases |right|
  {
    var s := left + [c] + right;
    if right == "" {
      assert s == left + [c];
    } else {
      var n := |right| - 1;
      assert s[|s| - 1] == right[n] && s[..|s| - 1] == left + [c] + right[..n];
      TrimEndBehind(left, c, right[..n]);
    }
  }

  lemma {:induction false} TrimStartBefore(left: string, c: char, right: string)
    requires !IsSpace(c)
    ensures TrimStart(left + [c] + right) == TrimStart(left) + [c] + right
  {
    var s := left + [c] + right;
    if left == "" {
      assert s[0] == c && s == [c] + right;
    } else {
      assert s[0] == left[0] && s[1..] == left[1..] + [c] + right;
      TrimStartBefore(left[1..], c, right);
    }
  }

  lemma AllBlank(s: string)
    requires Blanks(s)
    ensures TrimStart(s) == "" && TrimEnd(s) == ""
  {
    TrimStartBlanks(s, "");
    TrimEndBlanks("", s);
    assert s + "" == s && "" + s == s;
  }

  lemma TrimTwice(s: string)
    ensures Trim(TrimStart(s)) == Trim(s) && Trim(TrimEnd(s)) == Trim(s)
  {
    var a, b := TrimParts(s);
    TrimIsTrimmed(s);
    TrimTwiceParts(a, Trim(s), b);
  }

  lemma TrimTwiceParts(a: string, m: string, b: string)
    requires Blanks(a) && Blanks(b) && Trimmed(m)
    ensures Trim(TrimStart(a + m + b)) == m && Trim(TrimEnd(a + m + b)) == m
  {
    if m == "" {
      AllBlank(a + m + b);
    } else {
      TrimHalves(a, m, b);
      TrimIs("", m, b);
      TrimIs(a, m, "");
      NoBlanks(a, m, b);
    }
  }

  lemma NoBlanks(a: string, m: string, b: string)
    ensures "" + m + b == m + b && a + m + "" == a + m
  {
  }

  lemma TrimHalves(a: string, m: string, b: string)
    requires Blanks(a) && Blanks(b) && Trimmed(m) && m != ""
    ensures TrimStart(a + m + b) == m + b && TrimEnd(a + m + b) == a + m
  {
    Assoc(a, m, b);
    TrimStartBlanks(a, m + b);
    assert (m + b)[0] == m[0];
    TrimEndBlanks(a + m, b);
    assert (a + m)[|a + m| - 1] == m[|m| - 1];
  }

  // ---------- one line ----------

  lemma LineTrimmed(name: string, value: string)
    ensures Trim(name + "=" + value) == TrimStart(name) + ['='] + TrimEnd(value)
  {
    TrimEndBehind(name, '=', value);
    TrimStartBefore(name, '=', TrimEnd(value));
  }

  lemma EntryAt(left: string, right: string)
    requires '=' !in left
    ensures ParseEntry(left + ['='] + right) == (Trim(left), Trim(right))
  {
    var line := left + ['='] + right;
    assert line[..|left|] == left && line[|left| + 1..] == right;
    IndexIs(line, '=', |left|);
  }

  /** The rest of a line, after it turned out to be no section line. */
  lemma EntryOfLine(name: string, value: string)
    requires '=' !in name
    ensures ParseEntry(Trim(name + "=" + value)) == (Trim(name), Trim(value))
  {
    LineTrimmed(name, value);
    TrimStartIs(name);
    EntryAt(TrimStart(name), TrimEnd(value));
    TrimTwice(name);
    TrimTwice(value);
  }

  lemma NoSection(line: string)
    requires !SectionLine(Trim(line))
    ensures ParseSection(Trim(line)).None?
  {
    ParseSectionIs(Trim(line));
  }

  /** A line with an equal sign says that the name before the first one has the value behind it, both without the
      blanks around them; without a name it says nothing. */
  lemma LineSays(name: string, value: string)
    requires '=' !in name && !SectionLine(Trim(name + "=" + value))
    ensures Parse(name + "=" + value) == if Trim(name) == "" then Blank else Says(Entry(Trim(name), Trim(value)))
  {
    NoSection(name + "=" + value);
    EntryOfLine(name, value);
  }

  /** A line without one says that its text is a name with the empty value. */
  lemma LineNames(line: string)
    requires '=' !in line && !SectionLine(Trim(line))
    ensures Parse(line) == if Trim(line) == "" then Blank else Says(Entry(Trim(line), ""))
  {
    NoSection(line);
    TrimKeeps(line, '=');
    IndexIs(Trim(line), '=', |Trim(line)|);
    assert Trim(line)[..|Trim(line)|] == Trim(line);
    TrimIsTrimmed(line);
    TrimmedStays(Trim(line));
  }

  /** A line in brackets opens the section that they name. */
  lemma LineOpens(a: string, name: string, b: string)
    requires Blanks(a) && Blanks(b) && ']' !in name
    ensures Parse(a + ("[" + name + "]") + b) == Opens(Trim(name))
  {
    var line := "[" + name + "]";
    TrimIs(a, line, b);
    assert line[..|line| - 1] == "[" + name && line[1..|line| - 1] == name;
    ParseSectionIs(line);
    IndexIs(line, ']', |line| - 1);
  }

  // ---------- one entry ----------

  /** The values of the entries with this name, in order; get returns the first. */
  function ValuesOf(es: seq<Entry>, name: string): seq<string> {
    if es == [] then []
    else (if Same(es[0].name, name) then [es[0].value] else []) + ValuesOf(es[1..], name)
  }

  lemma {:induction false} GetIsFirst(es: seq<Entry>, name: string, default: Maybe<string>)
    ensures GetEntry(es, name, default) == if ValuesOf(es, name) == [] then default else Some(ValuesOf(es, name)[0])
  {
    if es != [] && !Same(es[0].name, name) {
      GetIsFirst(es[1..], name, default);
    }
  }

  lemma {:induction false} ValuesAdd(a: seq<Entry>, b: seq<Entry>, name: string)
    ensures ValuesOf(a + b, name) == ValuesOf(a, name) + ValuesOf(b, name)
  {
    if a == [] {
      assert a + b == b;
    } else {
      assert (a + b)[1..] == a[1..] + b;
      ValuesAdd(a[1..], b, name);
    }
  }

  lemma {:induction false} NoValues(es: seq<Entry>, name: string)
    requires forall i :: 0 <= i < |es| ==> !Same(es[i].name, name)
    ensures ValuesOf(es, name) == []
  {
    if es != [] {
      NoValues(es[1..], name);
    }
  }

  /** What set does to the values of an entry: the first is replaced, or deleted by the empty value, or there was none. */
  function SetFirst(vs: seq<string>, value: string): seq<string> {
    if value == "" then if vs == [] then [] else vs[1..]
    else if vs == [] then [value] else vs[0 := value]
  }

  lemma SplitAtFirst(es: seq<Entry>, name: string)
    requires Find(es, name) < |es|
    ensures var k := Find(es, name);
      && es == es[..k] + ([es[k]] + es[k + 1..]) && Same(es[k].name, name)
      && forall i :: 0 <= i < k ==> !Same(es[..k][i].name, name)
  {
  }

  lemma OneValue(e: Entry, name: string)
    ensures ValuesOf([e], name) == if Same(e.name, name) then [e.value] else []
  {
    assert [e][1..] == [];
  }

  lemma ValuesAround(a: seq<Entry>, e: Entry, b: seq<Entry>, name: string)
    ensures ValuesOf(a + ([e] + b), name) == ValuesOf(a, name) + ((if Same(e.name, name) then [e.value] else []) + ValuesOf(b, name))
  {
    ValuesAdd(a, [e] + b, name);
    ValuesAdd([e], b, name);
    OneValue(e, name);
  }

  lemma AddValue(es: seq<Entry>, e: Entry, other: string)
    ensures ValuesOf(es + [e], other) == ValuesOf(es, other) + if Same(e.name, other) then [e.value] else []
  {
    ValuesAdd(es, [e], other);
    OneValue(e, other);
  }

  lemma AroundFirst(a: seq<Entry>, e: Entry, b: seq<Entry>, other: string)
    requires forall i :: 0 <= i < |a| ==> !Same(a[i].name, e.name)
    ensures Same(e.name, other) ==>
      ValuesOf(a + ([e] + b), other) == [e.value] + ValuesOf(b, other) && ValuesOf(a + b, other) == ValuesOf(b, other)
    ensures !Same(e.name, other) ==>
      ValuesOf(a + ([e] + b), other) == ValuesOf(a, other) + ValuesOf(b, other) == ValuesOf(a + b, other)
  {
    ValuesAround(a, e, b, other);
    ValuesAdd(a, b, other);
    if Same(e.name, other) {
      NoValues(a, other);
    }
  }

  /** Setting one name leaves all others alone. */
  lemma SetValues(es: seq<Entry>, name: string, value: string, other: string)
    ensures ValuesOf(Replace(es, name, value), other)
         == if Same(name, other) then SetFirst(ValuesOf(es, other), value) else ValuesOf(es, other)
  {
    if Find(es, name) == |es| {
      if Same(name, other) {
        NoValues(es, other);
      }
      if value != "" {
        AddValue(es, Entry(name, value), other);
      }
    } else {
      SetValuesThere(es, name, value, other);
    }
  }

  lemma SetValuesThere(es: seq<Entry>, name: string, value: string, other: string)
    requires Find(es, name) < |es|
    ensures ValuesOf(Replace(es, name, value), other)
         == if Same(name, other) then SetFirst(ValuesOf(es, other), value) else ValuesOf(es, other)
  {
    var k := Find(es, name);
    var a, e, b := es[..k], es[k], es[k + 1..];
    SplitAtFirst(es, name);
    AroundFirst(a, e, b, other);
    AroundFirst(a, Entry(e.name, value), b, other);
    ReplaceAt(es, name, value);
    FirstChanged(e.value, value, ValuesOf(b, other));
  }

  lemma ReplaceAt(es: seq<Entry>, name: string, value: string)
    requires Find(es, name) < |es|
    ensures var k := Find(es, name);
      Replace(es, name, value) ==
      if value == "" then es[..k] + es[k + 1..] else es[..k] + ([Entry(es[k].name, value)] + es[k + 1..])
  {
  }

  lemma FirstChanged(was: string, value: string, later: seq<string>)
    ensures SetFirst([was] + later, value) == if value == "" then later else [value] + later
  {
  }

  lemma QuickSetValues(es: seq<Entry>, name: string, value: string, other: string)
    ensures ValuesOf(QuickSet(es, name, value), other)
         == ValuesOf(es, other) + if Same(Trim(name), other) then [value] else []
  {
    ValuesAdd(es, [Entry(Trim(name), value)], other);
    OneValue(Entry(Trim(name), value), other);
  }

  /** When entry K is the first with the name, set changes the value of that one entry, or takes it out; without such
      an entry, a new one with the trimmed name comes last. */
  lemma SetChangesOne(es: seq<Entry>, name: string, value: string, k: nat)
    requires k <= |es| && forall j :: 0 <= j < k ==> !Same(es[j].name, Trim(name))
    requires k < |es| ==> Same(es[k].name, Trim(name))
    ensures var t := Set(es, name, value);
      if k == |es| then t == if value == "" then es else es + [Entry(Trim(name), value)]
      else if value == "" then t == es[..k] + es[k + 1..]
      else |t| == |es| && t[k] == Entry(es[k].name, value) && forall j :: 0 <= j < |es| && j != k ==> t[j] == es[j]
  {
    assert Find(es, Trim(name)) == k;
  }

  /** set reports a change exactly when the section says something else under the name, where no entry or section
      says the same as an empty value; without a change the store is as before. */
  lemma SetReports(s: Store, section: string, ename: string, value: string)
    ensures var i := FindSection(s.sections, section); var (t, changed) := SetIn(s, section, ename, value);
      var vs := if i < |s.sections| then ValuesOf(s.sections[i].entries, ename) else [];
      && (changed <==> value != if vs == [] then "" else vs[0])
      && (!changed ==> t == s)
      && t.global == s.global
      && |t.sections| == |s.sections| + (if changed && i == |s.sections| then 1 else 0)
      && forall j :: 0 <= j < |s.sections| && j != i ==> t.sections[j] == s.sections[j]
  {
    var i := FindSection(s.sections, section);
    GetIsFirst(if i < |s.sections| then s.sections[i].entries else [], ename, Some(""));
  }

  /** get without a section, or in one that does not exist, looks in the global section, and only then takes the
      default; a section that has the entry answers first. */
  lemma GetLooks(s: Store, section: Maybe<string>, ename: string, default: Maybe<string>)
    ensures section.None? || FindSection(s.sections, section.value) == |s.sections| ==>
      IsAnswer(s, section, ename, default, if ValuesOf(s.global, ename) == [] then default else Some(ValuesOf(s.global, ename)[0]))
    ensures section.Some? && FindSection(s.sections, section.value) < |s.sections| ==>
      var vs := ValuesOf(s.sections[FindSection(s.sections, section.value)].entries, ename);
      vs != [] ==> IsAnswer(s, section, ename, default, Some(vs[0]))
  {
    GetIsFirst(s.global, ename, default);
    if section.None? || FindSection(s.sections, section.value) == |s.sections| {
      NothingThere(s.sections, section, ename);
    } else {
      GetIsFirst(s.sections[FindSection(s.sections, section.value)].entries, ename, None);
      assert PathAt(s.sections, section, 0) == Some(FindSection(s.sections, section.value));
      if DefinesAt(s.sections, section, ename, 0) {
        assert FirstDefinesAt(s.sections, section, ename, 0);
      }
    }
  }

  lemma NothingThere(ss: seq<Section>, section: Maybe<string>, ename: string)
    requires At(ss, section).None?
    ensures Finds(ss, section, ename, None)
  {
    forall k: nat ensures !DefinesAt(ss, section, ename, k) {
      StaysThere(Chain(ss), At(ss, section), 0, k);
    }
  }

  // ---------- a file ----------

  /** What there is to know about the entry NAME of section SECTION ("" for the global one) while a file is read: does
      the section exist, are we in it, was it new when we came in, and the values of the entry. */
  datatype Known = Known(present: bool, here: bool, isNew: bool, values: seq<string>)

  /** What a statement changes: a section is new the first time; in a new section values are added, otherwise the
      first is replaced or deleted. */
  function Hear(k: Known, section: string, name: string, s: Statement): Known {
    match s
    case Opens(sect) =>
      if sect == "" || section == "" then k.(here := sect == section, isNew := false)
      else if Same(sect, section) then Known(true, true, !k.present, k.values)
      else k.(here := false)
    case Says(e) =>
      if !k.here || !Same(Trim(e.name), name) then k
      else k.(values := if k.isNew then k.values + [e.value] else SetFirst(k.values, e.value))
    case Blank => k
  }

  function HearAll(k: Known, section: string, name: string, ss: seq<Statement>): Known
    decreases |ss|
  {
    if ss == [] then k else HearAll(Hear(k, section, name, ss[0]), section, name, ss[1..])
  }

  /** The entries of a section, none if there is no such section. */
  function EntriesOf(s: Store, section: string): seq<Entry> {
    if section == "" then s.global
    else
      var i := FindSection(s.sections, section);
      if i < |s.sections| then s.sections[i].entries else []
  }

  function Exists(s: Store, section: string): bool {
    section == "" || FindSection(s.sections, section) < |s.sections|
  }

  /** The place of the section in terms of load_file. */
  predicate IsHere(l: Loading, section: string)
  {
    if section == "" then l.current.None? else l.current.Some? && l.current.value == FindSection(l.store.sections, section)
  }

  predicate CurrentOk(l: Loading) {
    && l.Valid() && (l.current.Some? ==>
        FindSection(l.store.sections, l.store.sections[l.current.value].name) == l.current.value)
    && (l.current.None? ==> !l.quick)
  }

  predicate Knows(l: Loading, section: string, name: string, k: Known) {
    && CurrentOk(l) && k.present == Exists(l.store, section) && (k.here <==> IsHere(l, section))
    && (k.here ==> k.isNew == l.quick && k.present) && k.values == ValuesOf(EntriesOf(l.store, section), name)
  }

  lemma FindSame(ss: seq<Section>, a: string, b: string)
    requires Same(a, b)
    ensures FindSection(ss, a) == FindSection(ss, b)
  {
    var i, j := FindSection(ss, a), FindSection(ss, b);
    assert i < |ss| ==> Same(ss[i].name, b);
    assert j < |ss| ==> Same(ss[j].name, a);
  }

  lemma FindOther(ss: seq<Section>, a: string, b: string)
    requires !Same(a, b) && FindSection(ss, a) < |ss|
    ensures FindSection(ss, a) != FindSection(ss, b)
  {
  }

  lemma FindAppended(ss: seq<Section>, s: Section, name: string)
    ensures FindSection(ss + [s], name) ==
      if FindSection(ss, name) < |ss| then FindSection(ss, name) else if Same(s.name, name) then |ss| else |ss| + 1
  {
    var i, t := FindSection(ss, name), ss + [s];
    assert forall j :: 0 <= j < |ss| ==> t[j] == ss[j];
    assert t[|ss|] == s;
  }

  lemma OpenKnows(l: Loading, section: string, name: string, k: Known, sect: string)
    requires Knows(l, section, name, k)
    ensures Knows(OpenSection(l, sect), section, name, Hear(k, section, name, Opens(sect)))
  {
    var ss := l.store.sections;
    var i := FindSection(ss, sect);
    if sect != "" {
      if i < |ss| {
        FirstOfItsName(ss, sect);
      } else {
        FindAppended(ss, Section(sect, []), sect);
      }
      if section != "" {
        OpenKnowsSection(l, section, name, k, sect);
      }
    }
  }

  lemma OpenKnowsSection(l: Loading, section: string, name: string, k: Known, sect: string)
    requires Knows(l, section, name, k) && sect != "" && section != ""
    ensures var r := OpenSection(l, sect); var h := Hear(k, section, name, Opens(sect));
      && h.present == Exists(r.store, section) && (h.here <==> IsHere(r, section))
      && (h.here ==> h.isNew == r.quick && h.present) && h.values == ValuesOf(EntriesOf(r.store, section), name)
  {
    var ss := l.store.sections;
    if Same(sect, section) {
      FindSame(ss, sect, section);
    } else if FindSection(ss, sect) < |ss| {
      FindOther(ss, sect, section);
    }
    if FindSection(ss, sect) == |ss| {
      FindAppended(ss, Section(sect, []), section);
    }
  }

  lemma FindKept(ss: seq<Section>, i: nat, es: seq<Entry>, name: string)
    requires i < |ss|
    ensures FindSection(ss[i := Section(ss[i].name, es)], name) == FindSection(ss, name)
  {
    var t := ss[i := Section(ss[i].name, es)];
    assert forall j :: 0 <= j < |ss| ==> t[j].name == ss[j].name;
    var a, b := FindSection(t, name), FindSection(ss, name);
    assert a < |ss| ==> Same(ss[a].name, name);
    assert b < |ss| ==> Same(t[b].name, name);
  }

  lemma PutValues(es: seq<Entry>, e: Entry, quick: bool, name: string)
    ensures ValuesOf(Put(es, e, quick), name) ==
      if !Same(Trim(e.name), name) then ValuesOf(es, name)
      else if quick then ValuesOf(es, name) + [e.value] else SetFirst(ValuesOf(es, name), e.value)
  {
    if quick {
      QuickSetValues(es, e.name, e.value, name);
      assert ValuesOf(es, name) + [] == ValuesOf(es, name);
    } else {
      SetValues(es, Trim(e.name), e.value, name);
    }
  }

  lemma SayKnows(l: Loading, section: string, name: string, k: Known, e: Entry)
    requires Knows(l, section, name, k)
    ensures Knows(l.With(Put(l.Entries(), e, l.quick)), section, name, Hear(k, section, name, Says(e)))
  {
    var es := Put(l.Entries(), e, l.quick);
    PutValues(l.Entries(), e, l.quick, name);
    if l.current.Some? {
      var ss, i := l.store.sections, l.current.value;
      FindKept(ss, i, es, section);
      FindKept(ss, i, es, ss[i].name);
    }
  }

  lemma {:induction false} AllKnow(l: Loading, section: string, name: string, k: Known, ss: seq<Statement>)
    requires Knows(l, section, name, k)
    ensures Knows(ApplyAll(l, ss), section, name, HearAll(k, section, name, ss))
    decreases |ss|
  {
    if ss != [] {
      match ss[0] {
        case Opens(sect) => OpenKnows(l, section, name, k, sect);
        case Says(e) => SayKnows(l, section, name, k, e);
        case Blank =>
      }
      AllKnow(Apply(l, ss[0]), section, name, Hear(k, section, name, ss[0]), ss[1..]);
    }
  }

  /** For every file, every store that it is loaded into, every section and every entry: the values of the entry
      afterwards are those that one hears when the lines are read one after the other. */
  lemma LoadMeans(store: Store, text: string, section: string, name: string)
    ensures var start := Known(Exists(store, section), section == "", false, ValuesOf(EntriesOf(store, section), name));
      var k := HearAll(start, section, name, ParseAll(Lines(text)));
      && ValuesOf(EntriesOf(LoadInto(store, text), section), name) == k.values
      && Exists(LoadInto(store, text), section) == k.present
  {
    var start := Known(Exists(store, section), section == "", false, ValuesOf(EntriesOf(store, section), name));
    AllKnow(Loading(store, None, false), section, name, start, ParseAll(Lines(text)));
  }

  // ---------- what is printed ----------

  /** What save prints, entry by entry and section by section. */
  lemma SavePrints(e: Entry, es: seq<Entry>, name: string, ss: seq<Section>)
    ensures Save(EMPTY) == ""
    ensures Save(Store([e] + es, ss)) == (if e.value == "" then e.name + " =" else e.name + " = " + e.value) + "\n" + Save(Store(es, ss))
    ensures Save(Store([], [Section(name, es)] + ss)) == "\n" + ("[" + name + "]" + "\n" + Save(Store(es, ss)))
  {
    FirstPrinted(e, es, ss);
    SectionPrinted(name, es, ss);
  }

  lemma FirstPrinted(e: Entry, es: seq<Entry>, ss: seq<Section>)
    ensures Save(Store([e] + es, ss)) == EntryLine(e) + "\n" + Save(Store(es, ss))
  {
    assert ([e] + es)[1..] == es;
    var later := SaveLines(Store(es, ss));
    Assoc([EntryLine(e)], DumpLines(es), SectionLines(ss));
    assert ([EntryLine(e)] + later)[1..] == later;
  }

  lemma SectionPrinted(name: string, es: seq<Entry>, ss: seq<Section>)
    ensures Save(Store([], [Section(name, es)] + ss)) == "\n" + ("[" + name + "]" + "\n" + Save(Store(es, ss)))
  {
    var all, later := [Section(name, es)] + ss, SaveLines(Store(es, ss));
    assert all[1..] == ss;
    Assoc(Header(name), DumpLines(es), SectionLines(ss));
    assert SaveLines(Store([], all)) == Header(name) + later;
    TwoLines("", "[" + name + "]", later);
  }

  lemma TwoLines(a: string, b: string, later: seq<string>)
    ensures Text([a, b] + later) == a + "\n" + (b + "\n" + Text(later))
  {
    assert ([a, b] + later)[1..] == [b] + later;
    assert ([b] + later)[1..] == later;
  }
}
