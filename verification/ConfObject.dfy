/** WvConfigSection and WvConf as objects, which loading and setting change in place. */
module ConfObject {
  import opened Maybes
  import opened WvStrings
  import opened ConfText
  import opened ConfStore
  import opened ConfInherit

  class WvConfigSection {
    const name: string
    var entries: seq<Entry>

    constructor (name: string)
      ensures this.name == name && entries == []
    {
      this.name, entries := name, [];
    }

    function Now(): Section
      reads this
    {
      Section(name, entries)
    }

    /** operator[]. */
    method Lookup(ename: string) returns (i: nat)
      ensures i == Find(entries, ename)
    {
      i := 0;
      while i < |entries|
        invariant i <= |entries|
        invariant Find(entries, ename) == i + Find(entries[i..], ename)
      {
        if Same(entries[i].name, ename) {
          return;
        }
        assert entries[i..][1..] == entries[i + 1..];
        i := i + 1;
      }
    }

    method Get(ename: string, default: Maybe<string>) returns (r: Maybe<string>)
      ensures r == GetEntry(entries, ename, default)
    {
      var i := Lookup(ename);
      r := if i < |entries| then Some(entries[i].value) else default;
    }

    method SetEntry(ename: string, value: string)
      modifies this`entries
      ensures entries == Set(old(entries), ename, value)
    {
      var cleanEntry := Trim(ename);
      SetClean(cleanEntry, value);
    }

    method SetClean(cleanEntry: string, value: string)
      modifies this`entries
      ensures entries == Replace(old(entries), cleanEntry, value)
    {
      var i := Lookup(cleanEntry);
      if value == "" {
        if i < |entries| {
          entries := entries[..i] + entries[i + 1..];
        }
        return;
      }
      if i < |entries| {
        entries := entries[i := entries[i].(value := value)];
      } else {
        entries := entries + [Entry(cleanEntry, value)];
      }
    }

    method QuickSetEntry(ename: string, value: string)
      modifies this`entries
      ensures entries == QuickSet(old(entries), ename, value)
    {
      entries := entries + [Entry(Trim(ename), value)];
    }

    method Dump(out: string) returns (text: string)
      ensures text == out + Text(DumpLines(entries))
    {
      text := out;
      var i := 0;
      while i < |entries|
        invariant i <= |entries|
        invariant text + Text(DumpLines(entries[i..])) == out + Text(DumpLines(entries))
      {
        var e := entries[i];
        assert entries[i..][1..] == entries[i + 1..];
        if e.value != "" {
          text := text + (e.name + " = " + e.value + "\n");
        } else {
          text := text + (e.name + " =" + "\n");
        }
        i := i + 1;
      }
      assert entries[i..] == [];
    }
  }

  ghost function Values(ss: seq<WvConfigSection>): (r: seq<Section>)
    reads ss
    ensures |r| == |ss| && forall i :: 0 <= i < |ss| ==> r[i] == ss[i].Now()
  {
    if ss == [] then [] else Values(ss[..|ss| - 1]) + [ss[|ss| - 1].Now()]
  }

  lemma WithStore(l: Loading, es: seq<Entry>)
    requires l.Valid()
    ensures l.current.None? ==> l.With(es).store == Store(es, l.store.sections)
    ensures l.current.Some? ==> var i := l.current.value; var ss := l.store.sections;
      l.With(es).store == Store(l.store.global, ss[i := Section(ss[i].name, es)])
  {
  }

  /** One getline. */
  lemma FirstLine(l: Loading, text: string)
    requires l.Valid() && text != ""
    ensures var q := IndexOf(text, '\n');
      var rest := if q < |text| then text[q + 1..] else "";
      ApplyAll(l, ParseAll(Lines(text))) == ApplyAll(Apply(l, Parse(text[..q])), ParseAll(Lines(rest)))
  {
    var q := IndexOf(text, '\n');
    var rest := if q < |text| then text[q + 1..] else "";
    LinesUnfold(text);
    FirstStatement(l, text[..q], Lines(rest));
  }

  lemma FirstStatement(l: Loading, line: string, rest: seq<string>)
    requires l.Valid()
    ensures ApplyAll(l, ParseAll([line] + rest)) == ApplyAll(Apply(l, Parse(line)), ParseAll(rest))
  {
    assert ([line] + rest)[1..] == rest;
    assert ([Parse(line)] + ParseAll(rest))[1..] == ParseAll(rest);
  }

  lemma SaveParts(s: Store)
    ensures ConfStore.Save(s) == "" + Text(DumpLines(s.global)) + Text(SectionLines(s.sections))
  {
    TextAdd(DumpLines(s.global), SectionLines(s.sections));
  }

  /** One round of the loop of save. */
  lemma NextSectionText(ss: seq<Section>, i: nat, text: string)
    requires i < |ss|
    ensures text + Text(SectionLines(ss[i..]))
         == text + "\n[" + ss[i].name + "]\n" + Text(DumpLines(ss[i].entries)) + Text(SectionLines(ss[i + 1..]))
  {
    var head, body, rest := Header(ss[i].name), DumpLines(ss[i].entries), SectionLines(ss[i + 1..]);
    assert ss[i..][1..] == ss[i + 1..];
    TextAdd(head + body, rest);
    TextAdd(head, body);
    assert head[1..] == ["[" + ss[i].name + "]"] && head[1..][1..] == [];
    assert Text(head) == "\n[" + ss[i].name + "]\n";
    assert text + (Text(head) + Text(body) + Text(rest)) == text + Text(head) + Text(body) + Text(rest);
  }

  class WvConf {
    const globalsection: WvConfigSection
    var sections: seq<WvConfigSection>
    var dirty: bool

    ghost predicate Valid()
      reads this
    {
      && globalsection !in sections
      && forall i, j :: 0 <= i < j < |sections| ==> sections[i] != sections[j]
    }

    ghost function Now(): Store
      reads this, globalsection, sections
    {
      Store(globalsection.entries, Values(sections))
    }

    constructor ()
      ensures Valid() && Now() == EMPTY && !dirty && fresh(globalsection)
    {
      globalsection := new WvConfigSection("");
      sections, dirty := [], false;
    }

    /** operator[]; null when there is none. */
    method Lookup(name: string) returns (s: WvConfigSection?, ghost i: nat)
      ensures i == FindSection(Values(sections), name)
      ensures if i < |sections| then s == sections[i] else s == null
    {
      var k := 0;
      ghost var all := Values(sections);
      while k < |sections|
        invariant k <= |sections|
        invariant FindSection(all, name) == k + FindSection(all[k..], name)
      {
        if Same(sections[k].name, name) {
          return sections[k], k;
        }
        assert all[k..][1..] == all[k + 1..];
        k := k + 1;
      }
      return null, k;
    }

    /** The variables of load_file against the state of the specification. */
    ghost predicate Matches(l: Loading, sect: WvConfigSection, quick: bool)
      reads this, globalsection, sections
    {
      && Valid() && l.Valid() && l.store == Now() && l.quick == quick
      && sect == if l.current.None? then globalsection else sections[l.current.value]
    }

    method Append(name: string) returns (sect: WvConfigSection)
      requires Valid()
      modifies this`sections
      ensures Valid() && fresh(sect) && sections == old(sections) + [sect]
      ensures Now() == old(Now()).(sections := old(Now()).sections + [Section(name, [])])
    {
      sect := new WvConfigSection(name);
      sections := sections + [sect];
      assert sections[..|sections| - 1] == old(sections);
    }

    method Open(ghost l: Loading, name: string) returns (sect: WvConfigSection, quick: bool)
      requires Valid() && l.Valid() && l.store == Now()
      modifies this`sections
      ensures Grown(old(sections))
      ensures Matches(OpenSection(l, name), sect, quick)
    {
      if name == "" {
        assert OpenSection(l, name) == Loading(Now(), None, false);
        sect, quick := globalsection, false;
      } else {
        ghost var i: nat;
        sect, quick, i := OpenNamed(name);
        assert OpenSection(l, name) == Loading(Now(), Some(i), quick);
      }
    }

    method OpenNamed(name: string) returns (sect: WvConfigSection, quick: bool, ghost i: nat)
      requires Valid()
      modifies this`sections
      ensures Grown(old(sections)) && Valid()
      ensures i == FindSection(old(Now()).sections, name) && quick == (i == |old(sections)|)
      ensures i < |sections| && sect == sections[i]
      ensures Now() == if !quick then old(Now())
        else old(Now()).(sections := old(Now()).sections + [Section(name, [])])
    {
      var s;
      s, i := Lookup(name);
      if s != null {
        return s, false, i;
      }
      ghost var was := Now();
      sect := Append(name);
      quick := true;
      assert Now() == was.(sections := was.sections + [Section(name, [])]);
    }

    /** set or quick_set on the current section. */
    method PutInto(ghost l: Loading, sect: WvConfigSection, quick: bool, e: Entry)
      requires Matches(l, sect, quick) && sect.entries == l.Entries()
      modifies sect`entries
      ensures Matches(l.With(Put(l.Entries(), e, quick)), sect, quick)
    {
      ghost var was, now := Values(sections), Put(l.Entries(), e, quick);
      if quick {
        sect.QuickSetEntry(e.name, e.value);
      } else {
        sect.SetEntry(e.name, e.value);
      }
      assert sect.entries == now;
      WithStore(l, now);
      if l.current.Some? {
        assert Values(sections) == was[l.current.value := sect.Now()];
      } else {
        assert Values(sections) == was;
      }
    }

    /** What load_file does with a line, once it is taken apart. */
    method LoadStatement(ghost l: Loading, sect: WvConfigSection, quick: bool, st: Statement)
      returns (sect1: WvConfigSection, quick1: bool)
      requires Matches(l, sect, quick)
      modifies this`sections, globalsection, sections
      ensures Matches(Apply(l, st), sect1, quick1) && Grown(old(sections))
    {
      sect1, quick1 := sect, quick;
      match st
      case Opens(name) => sect1, quick1 := Open(l, name);
      case Says(e) =>
        assert sect.entries == l.Entries();
        PutInto(l, sect, quick, e);
      case Blank =>
    }

    /** load_file, with the contents of the file. */
    method LoadFile(text: string)
      requires Valid()
      modifies this`sections, globalsection, sections
      ensures Valid() && Now() == LoadInto(old(Now()), text) && Grown(old(sections))
    {
      var sect, quick := globalsection, false;
      ghost var l := Loading(Now(), None, false);
      var rest := text;
      while rest != ""
        invariant Grown(old(sections)) && Matches(l, sect, quick)
        invariant ApplyAll(l, ParseAll(Lines(rest))).store == LoadInto(old(Now()), text)
        decreases |rest|
      {
        FirstLine(l, rest);
        var q := IndexOf(rest, '\n');
        var st := Parse(rest[..q]);
        rest := if q < |rest| then rest[q + 1..] else "";
        sect, quick := LoadStatement(l, sect, quick, st);
        l := Apply(l, st);
      }
    }

    /** save, up to the file it goes to. */
    method Save() returns (text: string)
      requires Valid()
      ensures text == ConfStore.Save(Now())
    {
      ghost var all, goal := Values(sections), ConfStore.Save(Now());
      SaveParts(Now());
      text := globalsection.Dump("");
      var i := 0;
      assert all[i..] == all;
      while i < |sections|
        invariant i <= |sections|
        invariant text + Text(SectionLines(all[i..])) == goal
      {
        text := SaveSection(i, text, all);
        i := i + 1;
      }
      assert all[i..] == [];
    }

    method SaveSection(i: nat, text: string, ghost all: seq<Section>) returns (out: string)
      requires Valid() && i < |sections| && all == Values(sections)
      ensures out + Text(SectionLines(all[i + 1..])) == text + Text(SectionLines(all[i..]))
    {
      NextSectionText(all, i, text);
      out := text + "\n[" + sections[i].name + "]\n";
      out := sections[i].Dump(out);
    }

    /** Get, along the chain of Inherits entries. */
    method GetFrom(section: Maybe<string>, ename: string, default: Maybe<string>) returns (r: Maybe<string>)
      requires Valid()
      ensures IsAnswer(Now(), section, ename, default, r)
    {
      ghost var now := Now();
      ghost var k, m, cache;
      r, k, m, cache := Search(section, ename, now.sections);
      if r.None? {
        NotFound(now.sections, section, ename, k, cache, m);
        r := globalsection.Get(ename, default);
      } else {
        FoundHere(now.sections, section, ename, k, cache, m, r);
      }
      assert Now() == now;
    }

    /** The loop of get: it stops after K sections at place M, with the names before it in CACHE. */
    method Search(section: Maybe<string>, ename: string, ghost ss: seq<Section>)
      returns (r: Maybe<string>, ghost k: nat, ghost m: Maybe<nat>, ghost names: set<string>)
      requires Valid() && ss == Values(sections)
      ensures Walking(ss, section, ename, k, names, m)
      ensures if r.Some? then m.Some? && r == GetEntry(ss[m.value].entries, ename, None)
              else m.None? || ss[m.value].name in names
    {
      ghost var all := set s <- sections :: s.name;
      var cache: set<string> := {};
      var s := Start(section);
      r, k, m, names := None, 0, At(ss, section), cache;
      NoSteps(ss, section, ename);
      while s != null && s.name !in cache
        invariant Values(sections) == ss && Here(m, s) && names == cache && r == None
        invariant Walking(ss, section, ename, k, names, m)
        decreases all - cache
      {
        var next;
        r, next := Look(s, ename, ss, section, k, m, names);
        if r.Some? {
          return;
        }
        assert s.name in all - cache;
        cache := cache + {s.name};
        s, k, m, names := next, k + 1, Next(ss, m), cache;
      }
    }

    /** The entry in one section, and the section to look at next. */
    method Look(s: WvConfigSection, ename: string,
                ghost ss: seq<Section>, ghost section: Maybe<string>, ghost k: nat, ghost m: Maybe<nat>,
                ghost names: set<string>)
      returns (r: Maybe<string>, next: WvConfigSection?)
      requires Valid() && Here(m, s) && ss == Values(sections) && Walking(ss, section, ename, k, names, m)
      ensures m.Some? && ss[m.value].name == s.name && r == GetEntry(ss[m.value].entries, ename, None)
      ensures ss == Values(sections) && Here(Next(ss, m), next)
      ensures r == None ==> Walking(ss, section, ename, k + 1, names + {s.name}, Next(ss, m))
    {
      r := s.Get(ename, None);
      next := Inherited(s, m);
      if r == None {
        OneStep(ss, section, ename, k, names, m);
      }
    }

    /** S is the section at place M, or null when there is none. */
    ghost predicate Here(m: Maybe<nat>, s: WvConfigSection?)
      reads this
    {
      if m.None? then s == null else m.value < |sections| && s == sections[m.value]
    }

    method Start(section: Maybe<string>) returns (s: WvConfigSection?)
      requires Valid()
      ensures Here(At(Values(sections), section), s)
    {
      s := null;
      if section.Some? {
        ghost var i;
        s, i := Lookup(section.value);
      }
    }

    method Inherited(from: WvConfigSection, ghost m: Maybe<nat>) returns (s: WvConfigSection?)
      requires Valid() && Here(m, from)
      ensures Here(Next(Values(sections), m), s)
    {
      var inherits := from.Get(INHERITS, None);
      s := Start(inherits);
    }

    /** The section to set an entry in, made on demand; null when it is missing and VALUE is empty. */
    method SectionFor(section: string, value: string) returns (s: WvConfigSection?, ghost i: nat)
      requires Valid()
      modifies `sections
      ensures Valid() && Grown(old(sections)) && i == FindSection(old(Now()).sections, section)
      ensures s == null <==> i == |old(sections)| && value == ""
      ensures s == null ==> Now() == old(Now())
      ensures s != null ==> i < |sections| && s == sections[i]
      ensures s != null ==> Now() == old(Now()).(sections := WithSection(old(Now()).sections, section))
    {
      ghost var was := Now();
      s, i := Lookup(section);
      if s == null && value != "" {
        s := Append(section);
        assert Now() == was.(sections := WithSection(was.sections, section));
      }
    }

    /** set; callbacks are left out. */
    method SetIn(section: string, ename: string, value: string)
      requires Valid()
      modifies this, sections
      ensures Valid() && Grown(old(sections))
      ensures Now() == ConfInherit.SetIn(old(Now()), section, ename, value).0
      ensures dirty == (old(dirty) || ConfInherit.SetIn(old(Now()), section, ename, value).1)
    {
      var s, i := SectionFor(section, value);
      if s != null {
        SetEntryIn(s, i, ename, value);
      }
    }

    method SetEntryIn(s: WvConfigSection, ghost i: nat, ename: string, value: string)
      requires Valid() && i < |sections| && s == sections[i]
      modifies this`dirty, s`entries
      ensures Valid()
      ensures var ss := old(Now()).sections;
        if GetEntry(ss[i].entries, ename, Some("")) == Some(value) then Now() == old(Now()) && dirty == old(dirty)
        else dirty && Now() == Store(globalsection.entries, ss[i := Section(ss[i].name, Set(ss[i].entries, ename, value))])
    {
      var oldval := s.Get(ename, Some(""));
      if oldval != Some(value) {
        SetChanged(s, i, ename, value);
        dirty := true;
      }
    }

    method SetChanged(s: WvConfigSection, ghost i: nat, ename: string, value: string)
      requires Valid() && i < |sections| && s == sections[i]
      modifies s`entries
      ensures var ss := old(Now()).sections;
        Now() == Store(globalsection.entries, ss[i := Section(ss[i].name, Set(ss[i].entries, ename, value))])
      ensures globalsection.entries == old(globalsection.entries)
    {
      ghost var was, es := Values(sections), Set(s.entries, ename, value);
      s.SetEntry(ename, value);
      assert s.entries == es;
      assert Values(sections) == was[i := Section(was[i].name, es)];
    }

    /** The sections of WAS, and possibly new ones. */
    twostate predicate Grown(was: seq<WvConfigSection>)
      reads this
    {
      was <= sections && forall i :: |was| <= i < |sections| ==> fresh(sections[i])
    }
  }
}
