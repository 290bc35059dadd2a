/** What a command line means, from its text: options with their values, written in any of the ways there are, and
    arguments are read as what they were written from. */
module ArgpItems {
  import opened Maybes
  import opened Sequences
  import opened ArgpLookup
  import opened ArgpParser
  import opened ArgpScan
  import opened ArgpRuns
  import opened ArgpInOrder

  // ---------- the options of all groups ----------

  function SizeBefore(groups: seq<Group>, g: nat): nat
    requires g <= |groups|
  {
    if g == 0 then 0 else SizeBefore(groups, g - 1) + |groups[g - 1].options|
  }

  /** The searches look at the options of group 0 first, then at those of group 1, and so on. */
  lemma SlotAt(groups: seq<Group>, g: nat, i: nat)
    requires g < |groups| && i < |groups[g].options|
    ensures var slots, k := Slots(groups), SizeBefore(groups, g) + i;
            k < |slots| && slots[k] == Slot(g, groups[g].options[i])
    ensures |Slots(groups)| == SizeBefore(groups, |groups|)
  {
    SlotsSkip(groups, g, i);
    SlotsSkip(groups, |groups|, 0);
  }

  /** Behind the options before option I of group G comes the rest. */
  lemma {:induction false} SlotsSkip(groups: seq<Group>, g: nat, i: nat)
    requires g <= |groups| && (if g < |groups| then i <= |groups[g].options| else i == 0)
    ensures var slots, k := Slots(groups), SizeBefore(groups, g) + i;
            k <= |slots| && slots[k..] == SlotsFrom(groups, g, i)
    decreases g, i
  {
    if i > 0 {
      SlotsSkip(groups, g, i - 1);
      var k := SizeBefore(groups, g) + (i - 1);
      assert Slots(groups)[k..][1..] == Slots(groups)[k + 1..];
    } else if g > 0 {
      SlotsSkip(groups, g - 1, |groups[g - 1].options|);
      NextGroup(groups, g - 1);
    }
  }

  // ---------- which option a name means ----------

  lemma {:induction false} StemIs(name: string, value: string)
    requires '=' !in name
    ensures Stem(name) == name && Stem(name + "=" + value) == name
  {
    if name == "" {
      assert (name + "=" + value)[0] == '=';
    } else {
      StemIs(name[1..], value);
      StemStep(name);
      StemStep(name + "=" + value);
      assert (name + "=" + value)[1..] == name[1..] + "=" + value;
    }
  }

  lemma StemStep(s: string)
    requires s != "" && s[0] != '='
    ensures Stem(s) == [s[0]] + Stem(s[1..])
  {
  }

  ghost predicate Named(slots: seq<Slot>, i: nat, name: string) {
    i < |slots| && slots[i].option.name == Some(name)
  }

  ghost predicate Abbreviates(slots: seq<Slot>, i: nat, name: string) {
    i < |slots| && slots[i].option.name.Some? && name < slots[i].option.name.value
  }

  /** A name means the first option of that name; if there is none, the only option whose name begins with it;
      otherwise nothing.  What follows an '=' does not matter. */
  lemma NameMeans(slots: seq<Slot>, name: string, value: string, i: nat)
    requires '=' !in name
    ensures LongMatch(slots, name + "=" + value) == LongMatch(slots, name)
    ensures Named(slots, i, name) && (forall j: nat :: j < i ==> !Named(slots, j, name)) ==>
              LongMatch(slots, name) == Some(slots[i])
    ensures Abbreviates(slots, i, name) && (forall j: nat :: !Named(slots, j, name))
            && (forall j: nat :: j != i ==> !Abbreviates(slots, j, name)) ==>
              LongMatch(slots, name) == Some(slots[i])
  {
    StemIs(name, value);
    SameStem(slots, name, name + "=" + value);
    if Named(slots, i, name) && forall j: nat :: j < i ==> !Named(slots, j, name) {
      FirstExact(slots, name, i);
    }
    if Abbreviates(slots, i, name) && (forall j: nat :: !Named(slots, j, name))
       && forall j: nat :: j != i ==> !Abbreviates(slots, j, name) {
      NoExact(slots, name);
      OnlyPartial(slots, name, i);
    }
  }

  lemma {:induction false} SameStem(slots: seq<Slot>, a: string, b: string)
    requires Stem(a) == Stem(b)
    ensures Exacts(slots, a) == Exacts(slots, b) && Partials(slots, a) == Partials(slots, b)
  {
    if slots != [] {
      SameStem(slots[1..], a, b);
    }
  }

  lemma {:induction false} FirstExact(slots: seq<Slot>, name: string, i: nat)
    requires '=' !in name && Named(slots, i, name) && forall j: nat :: j < i ==> !Named(slots, j, name)
    ensures Exacts(slots, name) != [] && Exacts(slots, name)[0] == slots[i]
  {
    StemIs(name, "");
    if i > 0 {
      assert !Named(slots, 0, name);
      forall j: nat | j < i - 1 ensures !Named(slots[1..], j, name) {
        assert !Named(slots, j + 1, name);
      }
      FirstExact(slots[1..], name, i - 1);
    }
  }

  lemma {:induction false} NoExact(slots: seq<Slot>, name: string)
    requires '=' !in name && forall j: nat :: !Named(slots, j, name)
    ensures Exacts(slots, name) == []
  {
    StemIs(name, "");
    if slots != [] {
      assert !Named(slots, 0, name);
      forall j: nat ensures !Named(slots[1..], j, name) {
        assert !Named(slots, j + 1, name);
      }
      NoExact(slots[1..], name);
    }
  }

  lemma {:induction false} NoPartial(slots: seq<Slot>, name: string)
    requires '=' !in name && forall j: nat :: !Abbreviates(slots, j, name)
    ensures Partials(slots, name) == []
  {
    StemIs(name, "");
    if slots != [] {
      assert !Abbreviates(slots, 0, name);
      forall j: nat ensures !Abbreviates(slots[1..], j, name) {
        assert !Abbreviates(slots, j + 1, name);
      }
      NoPartial(slots[1..], name);
    }
  }

  lemma {:induction false} OnlyPartial(slots: seq<Slot>, name: string, i: nat)
    requires '=' !in name && Abbreviates(slots, i, name) && forall j: nat :: j != i ==> !Abbreviates(slots, j, name)
    ensures Partials(slots, name) == [slots[i]]
  {
    StemIs(name, "");
    if i == 0 {
      forall j: nat ensures !Abbreviates(slots[1..], j, name) {
        assert !Abbreviates(slots, j + 1, name);
      }
      NoPartial(slots[1..], name);
    } else {
      assert !Abbreviates(slots, 0, name);
      forall j: nat | j != i - 1 ensures !Abbreviates(slots[1..], j, name) {
        assert !Abbreviates(slots, j + 1, name);
      }
      OnlyPartial(slots[1..], name, i - 1);
    }
  }

  lemma {:induction false} PartialsHave(slots: seq<Slot>, name: string, i: nat)
    requires '=' !in name && Abbreviates(slots, i, name)
    ensures Partials(slots, name) != []
  {
    StemIs(name, "");
    if i > 0 {
      PartialsHave(slots[1..], name, i - 1);
    }
  }

  lemma {:induction false} TwoPartials(slots: seq<Slot>, name: string, i: nat, j: nat)
    requires '=' !in name && Abbreviates(slots, i, name) && Abbreviates(slots, j, name) && i < j
    ensures |Partials(slots, name)| >= 2
  {
    StemIs(name, "");
    if i == 0 {
      PartialsHave(slots[1..], name, j - 1);
    } else {
      TwoPartials(slots[1..], name, i - 1, j - 1);
    }
  }

  /** Nothing is meant by a name that no option has or begins with, nor, unless some option has it, by one that two
      options begin with. */
  lemma NameMeansNothing(slots: seq<Slot>, name: string, i: nat, j: nat)
    requires '=' !in name && forall k: nat :: !Named(slots, k, name)
    requires (forall k: nat :: !Abbreviates(slots, k, name)) || (i < j && Abbreviates(slots, i, name) && Abbreviates(slots, j, name))
    ensures LongMatch(slots, name).None?
  {
    NoExact(slots, name);
    if i < j && Abbreviates(slots, i, name) && Abbreviates(slots, j, name) {
      TwoPartials(slots, name, i, j);
    } else {
      NoPartial(slots, name);
    }
  }

  /** A letter means the first option with that key. */
  lemma {:induction false} LetterMeans(slots: seq<Slot>, key: int, i: nat)
    requires i < |slots| && slots[i].option.key == key && forall j :: 0 <= j < i ==> slots[j].option.key != key
    ensures FirstWithKey(slots, key) == Some(slots[i])
  {
    if i > 0 {
      LetterMeans(slots[1..], key, i - 1);
    }
  }

  // ---------- what an element of argv is ----------

  lemma ElementIs(cfg: Config, c: char, text: string)
    ensures Classify(cfg.longOnly, cfg.shortOpts, "") == Classify(cfg.longOnly, cfg.shortOpts, "-") == ArgToken
    ensures c != '-' ==> Classify(cfg.longOnly, cfg.shortOpts, [c] + text) == ArgToken
    ensures Classify(cfg.longOnly, cfg.shortOpts, "--") == QuoteToken
    ensures Classify(cfg.longOnly, cfg.shortOpts, "--" + [c] + text) == LongToken([c] + text)
    ensures c != '-' ==>
              Classify(cfg.longOnly, cfg.shortOpts, "-" + [c] + text) ==
              if cfg.longOnly && !(text == "" && c in cfg.shortOpts) then LongOnlyToken([c] + text) else ShortToken([c] + text)
  {
    assert ("--" + [c] + text)[2..] == [c] + text;
    assert ("-" + [c] + text)[1..] == [c] + text;
  }

  // ---------- items ----------

  /** What comes after the flags of a cluster: nothing; an option with its value behind it, or without the value
      that it need not have; or one that takes the next element. */
  datatype Tail = NoTail | Inline(slot: Slot, value: string) | Omitted(slot: Slot) | NextElement(slot: Slot, value: string)

  /** What an element of argv, or two, is written from. */
  datatype Item =
    | Word(text: string)
    | LongWith(dashes: string, name: string, slot: Slot, value: string)  // --name=value
    | LongBare(dashes: string, name: string, slot: Slot)                 // --name
    | LongNext(dashes: string, name: string, slot: Slot, value: string)  // --name value
    | Cluster(flags: seq<Slot>, tail: Tail)                              // -abc

  function Letter(s: Slot): string {
    if 0 < s.option.key < 128 then [s.option.key as char] else ""
  }

  function Letters(flags: seq<Slot>): string {
    if flags == [] then "" else Letter(flags[0]) + Letters(flags[1..])
  }

  function ClusterText(flags: seq<Slot>, tail: Tail): string {
    Letters(flags) + TailText(tail)
  }

  function TailText(tail: Tail): string {
    match tail
    case NoTail => ""
    case Inline(slot, value) => Letter(slot) + value
    case Omitted(slot) => Letter(slot)
    case NextElement(slot, _) => Letter(slot)
  }

  /** The element that a cluster takes besides its own. */
  function Took(tail: Tail): seq<string> {
    match tail
    case NextElement(_, value) => [value]
    case _ => []
  }

  /** The elements of argv for an item. */
  function Written(item: Item): seq<string> {
    match item
    case Word(text) => [text]
    case LongWith(dashes, name, _, value) => [dashes + (name + "=" + value)]
    case LongBare(dashes, name, _) => [dashes + name]
    case LongNext(dashes, name, _, value) => [dashes + name, value]
    case Cluster(flags, tail) =>
      ["-" + ClusterText(flags, tail)] + Took(tail)
  }

  function WrittenAll(items: seq<Item>): seq<string> {
    if items == [] then [] else Written(items[0]) + WrittenAll(items[1..])
  }

  function UseOf(s: Slot, value: Maybe<string>): Event {
    OptionEvent(OptionCall(s.group, s.option.key, value))
  }

  function FlagUses(flags: seq<Slot>): seq<Event> {
    if flags == [] then [] else [UseOf(flags[0], None)] + FlagUses(flags[1..])
  }

  function TailUses(tail: Tail): seq<Event> {
    match tail
    case NoTail => []
    case Inline(slot, value) => [UseOf(slot, Some(value))]
    case Omitted(slot) => [UseOf(slot, None)]
    case NextElement(slot, value) => [UseOf(slot, Some(value))]
  }

  /** What an item says. */
  function Meaning(item: Item): seq<Event> {
    match item
    case Word(text) => [ArgEvent(text)]
    case LongWith(_, _, slot, value) => [UseOf(slot, Some(value))]
    case LongBare(_, _, slot) => [UseOf(slot, None)]
    case LongNext(_, _, slot, value) => [UseOf(slot, Some(value))]
    case Cluster(flags, tail) => FlagUses(flags) + TailUses(tail)
  }

  function MeaningAll(items: seq<Item>): seq<Event> {
    if items == [] then [] else Meaning(items[0]) + MeaningAll(items[1..])
  }

  /** Two dashes, or one with LONG_ONLY, as long as it is not a short option. */
  predicate DashesOk(cfg: Config, dashes: string, text: string) {
    && text != ""
    && (dashes == "--"
        || (dashes == "-" && cfg.longOnly && text[0] != '-' && (|text| > 1 || text[0] !in cfg.shortOpts)))
  }

  predicate NameOk(cfg: Config, name: string, slot: Slot) {
    '=' !in name && LongMatch(Slots(cfg.groups), name) == Some(slot)
  }

  predicate LetterOk(cfg: Config, slot: Slot) {
    0 < slot.option.key < 128 && FirstWithKey(Slots(cfg.groups), slot.option.key) == Some(slot)
  }

  predicate FlagsOk(cfg: Config, flags: seq<Slot>) {
    forall i :: 0 <= i < |flags| ==> LetterOk(cfg, flags[i]) && !flags[i].option.takesArg
  }

  predicate TailOk(cfg: Config, tail: Tail) {
    match tail
    case NoTail => true
    case Inline(slot, value) => LetterOk(cfg, slot) && slot.option.takesArg && value != ""
    case Omitted(slot) => LetterOk(cfg, slot) && slot.option.takesArg && slot.option.argOptional
    case NextElement(slot, _) => LetterOk(cfg, slot) && slot.option.takesArg && !slot.option.argOptional
  }

  /** The item is one that can be written so: names and letters mean the options, which take the values given. */
  predicate ItemOk(cfg: Config, item: Item) {
    match item
    case Word(text) => text == "-" || !("-" <= text)
    case LongWith(dashes, name, slot, value) =>
      DashesOk(cfg, dashes, name + "=" + value) && NameOk(cfg, name, slot) && slot.option.takesArg
    case LongBare(dashes, name, slot) =>
      DashesOk(cfg, dashes, name) && NameOk(cfg, name, slot) && (!slot.option.takesArg || slot.option.argOptional)
    case LongNext(dashes, name, slot, _) =>
      DashesOk(cfg, dashes, name) && NameOk(cfg, name, slot) && slot.option.takesArg && !slot.option.argOptional
    case Cluster(flags, tail) =>
      var text := ClusterText(flags, tail);
      && FlagsOk(cfg, flags) && TailOk(cfg, tail)
      && text != "" && text[0] != '-' && (cfg.longOnly ==> |text| == 1 && text[0] in cfg.shortOpts)
  }

  predicate AllOk(cfg: Config, items: seq<Item>) {
    forall i :: 0 <= i < |items| ==> ItemOk(cfg, items[i])
  }

  // ---------- reading what was written ----------

  /** --name=value: the value is what follows the first '='. */
  lemma DecodeWith(groups: seq<Group>, name: string, value: string, slot: Slot, args: seq<string>)
    requires '=' !in name && LongMatch(Slots(groups), name) == Some(slot)
    ensures DecodeLong(groups, name + "=" + value, args) ==
            if slot.option.takesArg then Use(slot.group, slot.option.key, Some(value), "", false) else Rejected
  {
    var text := name + "=" + value;
    StemIs(name, value);
    SameStem(Slots(groups), name, text);
    assert text[|name| + 1..] == value;
  }

  /** --name: no value for an option that takes none or need not have one, otherwise the next element. */
  lemma DecodeBare(groups: seq<Group>, name: string, slot: Slot, args: seq<string>)
    requires '=' !in name && LongMatch(Slots(groups), name) == Some(slot)
    ensures DecodeLong(groups, name, args) ==
            if !slot.option.takesArg || slot.option.argOptional then Use(slot.group, slot.option.key, None, "", false)
            else if args == [] then Rejected
            else Use(slot.group, slot.option.key, Some(args[0]), "", true)
  {
    StemIs(name, "");
  }

  lemma DecodeUnknown(groups: seq<Group>, text: string, args: seq<string>)
    requires LongMatch(Slots(groups), text).None?
    ensures DecodeLong(groups, text, args) == Rejected
  {
  }

  /** A letter and what follows it in the cluster. */
  lemma DecodeLetter(groups: seq<Group>, c: char, rest: string, args: seq<string>)
    ensures c as int >= 128 ==> DecodeShort(groups, [c] + rest, args) == NotAscii
    ensures c as int < 128 ==>
              match FirstWithKey(Slots(groups), c as int)
                case None => DecodeShort(groups, [c] + rest, args) == Rejected
                case Some(slot) =>
                  var key := slot.option.key;
                  DecodeShort(groups, [c] + rest, args) ==
                  if !slot.option.takesArg then Use(slot.group, key, None, rest, false)
                  else if rest != "" then Use(slot.group, key, Some(rest), "", false)
                  else if slot.option.argOptional then Use(slot.group, key, None, "", false)
                  else if args == [] then Rejected
                  else Use(slot.group, key, Some(args[0]), "", true)
  {
    assert ([c] + rest)[1..] == rest;
  }

  lemma AfterNothing(l: Timeline)
    ensures After([], l) == l
  {
    assert [] + l.events == l.events;
  }

  lemma AfterBoth(a: seq<Event>, b: seq<Event>, l: Timeline)
    ensures After(a, After(b, l)) == After(a + b, l)
  {
    Assoc(a, b, l.events);
  }

  /** One flag of a cluster. */
  lemma ReadLetter(cfg: Config, flag: Slot, later: string, args: seq<string>)
    requires LetterOk(cfg, flag) && !flag.option.takesArg
    ensures Reading(cfg, Letter(flag) + later, args) == After([UseOf(flag, None)], Reading(cfg, later, args))
    ensures Scan(cfg, Letter(flag) + later, args) == Before([], OptionsIn([UseOf(flag, None)]), Scan(cfg, later, args))
  {
    DecodeLetter(cfg.groups, flag.option.key as char, later, args);
    UseIn(flag, None);
  }

  lemma UsesFirst(flags: seq<Slot>, tail: Tail)
    requires flags != []
    ensures var first, later := [UseOf(flags[0], None)], FlagUses(flags[1..]) + TailUses(tail);
            && FlagUses(flags) + TailUses(tail) == first + later
            && OptionsIn(FlagUses(flags) + TailUses(tail)) == OptionsIn(first) + OptionsIn(later)
  {
    Assoc([UseOf(flags[0], None)], FlagUses(flags[1..]), TailUses(tail));
    HalvesAdd([UseOf(flags[0], None)], FlagUses(flags[1..]) + TailUses(tail));
  }

  lemma TextFirst(flags: seq<Slot>, tail: Tail)
    requires flags != []
    ensures ClusterText(flags, tail) == Letter(flags[0]) + ClusterText(flags[1..], tail)
  {
    Assoc(Letter(flags[0]), Letters(flags[1..]), TailText(tail));
  }

  /** The letters of a cluster, one after the other. */
  lemma {:induction false} ReadCluster(cfg: Config, flags: seq<Slot>, tail: Tail, args: seq<string>)
    requires FlagsOk(cfg, flags) && TailOk(cfg, tail)
    ensures Reading(cfg, ClusterText(flags, tail), Took(tail) + args) ==
            After(FlagUses(flags) + TailUses(tail), Reading(cfg, "", args))
    decreases |flags|
  {
    if flags == [] {
      NoFlags(tail);
      ReadTail(cfg, tail, args);
    } else {
      TextFirst(flags, tail);
      UsesFirst(flags, tail);
      ReadLetter(cfg, flags[0], ClusterText(flags[1..], tail), Took(tail) + args);
      ReadCluster(cfg, flags[1..], tail, args);
      AfterBoth([UseOf(flags[0], None)], FlagUses(flags[1..]) + TailUses(tail), Reading(cfg, "", args));
    }
  }

  lemma NoFlags(tail: Tail)
    ensures FlagUses([]) + TailUses(tail) == TailUses(tail)
  {
  }

  /** What the tail of a cluster is decoded to. */
  lemma DecodeTail(cfg: Config, tail: Tail, args: seq<string>)
    requires TailOk(cfg, tail) && !tail.NoTail?
    ensures ClusterText([], tail) != ""
    ensures DecodeShort(cfg.groups, ClusterText([], tail), Took(tail) + args) ==
            Use(tail.slot.group, tail.slot.option.key,
                match tail case Inline(_, value) => Some(value) case NextElement(_, value) => Some(value) case _ => None,
                "", tail.NextElement?)
  {
    match tail
    case Inline(slot, value) =>
      assert ClusterText([], tail) == [slot.option.key as char] + value;
      DecodeLetter(cfg.groups, slot.option.key as char, value, Took(tail) + args);
    case Omitted(slot) =>
      assert ClusterText([], tail) == [slot.option.key as char] + "";
      DecodeLetter(cfg.groups, slot.option.key as char, "", Took(tail) + args);
    case NextElement(slot, value) =>
      assert ClusterText([], tail) == [slot.option.key as char] + "";
      DecodeLetter(cfg.groups, slot.option.key as char, "", Took(tail) + args);
  }

  lemma TookOff(tail: Tail, args: seq<string>)
    ensures (if tail.NextElement? then (Took(tail) + args)[1..] else Took(tail) + args) == args
  {
  }

  lemma ReadTail(cfg: Config, tail: Tail, args: seq<string>)
    requires TailOk(cfg, tail)
    ensures Reading(cfg, ClusterText([], tail), Took(tail) + args) == After(TailUses(tail), Reading(cfg, "", args))
  {
    TookOff(tail, args);
    if tail.NoTail? {
      assert ClusterText([], tail) == "";
      AfterNothing(Reading(cfg, "", args));
    } else {
      DecodeTail(cfg, tail, args);
    }
  }

  lemma DashedIs(cfg: Config, dashes: string, text: string)
    requires DashesOk(cfg, dashes, text)
    ensures var k := Classify(cfg.longOnly, cfg.shortOpts, dashes + text); k == LongToken(text) || k == LongOnlyToken(text)
  {
    var c, later := text[0], text[1..];
    assert text == [c] + later;
    ElementIs(cfg, c, later);
    Assoc(dashes, [c], later);
  }

  lemma ReadLong(cfg: Config, dashes: string, text: string, args: seq<string>)
    requires DashesOk(cfg, dashes, text)
    ensures Reading(cfg, "", [dashes + text] + args) == ReadingDecoded(cfg, DecodeLong(cfg.groups, text, args), args)
  {
    DashedIs(cfg, dashes, text);
    assert ([dashes + text] + args)[1..] == args;
  }

  lemma ClusterIsShort(cfg: Config, text: string)
    requires text != "" && text[0] != '-' && (cfg.longOnly ==> |text| == 1 && text[0] in cfg.shortOpts)
    ensures Classify(cfg.longOnly, cfg.shortOpts, "-" + text) == ShortToken(text)
  {
    ElementIs(cfg, text[0], text[1..]);
    assert "-" + text == "-" + [text[0]] + text[1..] && text == [text[0]] + text[1..];
  }

  lemma ShortElement(cfg: Config, text: string, args: seq<string>)
    requires text != "" && text[0] != '-' && (cfg.longOnly ==> |text| == 1 && text[0] in cfg.shortOpts)
    ensures Reading(cfg, "", ["-" + text] + args) == Reading(cfg, text, args)
    ensures Scan(cfg, "", ["-" + text] + args) == Before(["-" + text], [], Scan(cfg, text, args))
  {
    ClusterIsShort(cfg, text);
    assert (["-" + text] + args)[1..] == args;
  }

  /** One item in front of anything. */
  lemma ReadItem(cfg: Config, item: Item, args: seq<string>)
    requires ItemOk(cfg, item)
    ensures Reading(cfg, "", Written(item) + args) == After(Meaning(item), Reading(cfg, "", args))
  {
    match item
    case Word(text) =>
      assert ([text] + args)[1..] == args;
    case LongWith(dashes, name, slot, value) =>
      ReadLong(cfg, dashes, name + "=" + value, args);
      DecodeWith(cfg.groups, name, value, slot, args);
    case LongBare(dashes, name, slot) =>
      ReadLong(cfg, dashes, name, args);
      DecodeBare(cfg.groups, name, slot, args);
    case LongNext(dashes, name, slot, value) =>
      assert [dashes + name, value] + args == [dashes + name] + ([value] + args);
      ReadLong(cfg, dashes, name, [value] + args);
      DecodeBare(cfg.groups, name, slot, [value] + args);
      assert ([value] + args)[1..] == args;
    case Cluster(flags, tail) =>
      ReadClusterItem(cfg, flags, tail, args);
  }

  lemma ReadClusterItem(cfg: Config, flags: seq<Slot>, tail: Tail, args: seq<string>)
    requires ItemOk(cfg, Cluster(flags, tail))
    ensures var item := Cluster(flags, tail);
            Reading(cfg, "", Written(item) + args) == After(Meaning(item), Reading(cfg, "", args))
  {
    var text := ClusterText(flags, tail);
    Assoc(["-" + text], Took(tail), args);
    ShortElement(cfg, text, Took(tail) + args);
    ReadCluster(cfg, flags, tail, args);
  }

  /** Reading what items were written as gives what they say, whatever follows. */
  lemma {:induction false} ReadItems(cfg: Config, items: seq<Item>, args: seq<string>)
    requires AllOk(cfg, items)
    ensures Reading(cfg, "", WrittenAll(items) + args) == After(MeaningAll(items), Reading(cfg, "", args))
    decreases |items|
  {
    if items == [] {
      assert WrittenAll(items) + args == args;
      AfterNothing(Reading(cfg, "", args));
    } else {
      var later := WrittenAll(items[1..]) + args;
      assert WrittenAll(items) + args == Written(items[0]) + later;
      ReadItem(cfg, items[0], later);
      ReadItems(cfg, items[1..], args);
      AfterBoth(Meaning(items[0]), MeaningAll(items[1..]), Reading(cfg, "", args));
    }
  }

  // ---------- the same for the plan ----------

  function OptionItems(items: seq<Item>): seq<Item> {
    if items == [] then [] else (if items[0].Word? then [] else [items[0]]) + OptionItems(items[1..])
  }

  function Words(items: seq<Item>): seq<string> {
    if items == [] then [] else (if items[0].Word? then [items[0].text] else []) + Words(items[1..])
  }

  function CallsOf(items: seq<Item>): seq<OptionCall> {
    OptionsIn(MeaningAll(items))
  }

  lemma BeforeNothing(p: Plan)
    ensures Before([], [], p) == p
  {
    assert [] + p.opts == p.opts && [] + p.calls == p.calls;
  }

  lemma BeforeBoth(a: seq<string>, c: seq<OptionCall>, b: seq<string>, d: seq<OptionCall>, p: Plan)
    ensures Before(a, c, Before(b, d, p)) == Before(a + b, c + d, p)
  {
    Assoc(a, b, p.opts);
    Assoc(c, d, p.calls);
  }

  lemma UseIn(slot: Slot, value: Maybe<string>)
    ensures OptionsIn([UseOf(slot, value)]) == [OptionCall(slot.group, slot.option.key, value)]
  {
    assert [UseOf(slot, value)][..0] == [];
  }

  lemma {:induction false} ScanCluster(cfg: Config, flags: seq<Slot>, tail: Tail, args: seq<string>)
    requires FlagsOk(cfg, flags) && TailOk(cfg, tail)
    ensures Scan(cfg, ClusterText(flags, tail), Took(tail) + args) ==
            Before(Took(tail), OptionsIn(FlagUses(flags) + TailUses(tail)), Scan(cfg, "", args))
    decreases |flags|
  {
    if flags == [] {
      NoFlags(tail);
      ScanTail(cfg, tail, args);
    } else {
      TextFirst(flags, tail);
      UsesFirst(flags, tail);
      ReadLetter(cfg, flags[0], ClusterText(flags[1..], tail), Took(tail) + args);
      ScanCluster(cfg, flags[1..], tail, args);
      CallFirst(Scan(cfg, ClusterText(flags, tail), Took(tail) + args),
                Scan(cfg, ClusterText(flags[1..], tail), Took(tail) + args), Scan(cfg, "", args),
                OptionsIn([UseOf(flags[0], None)]), Took(tail), OptionsIn(FlagUses(flags[1..]) + TailUses(tail)));
    }
  }

  lemma CallFirst(p: Plan, q: Plan, later: Plan, c: seq<OptionCall>, took: seq<string>, d: seq<OptionCall>)
    requires p == Before([], c, q) && q == Before(took, d, later)
    ensures p == Before(took, c + d, later)
  {
    BeforeBoth([], c, took, d, later);
    assert [] + took == took;
  }

  lemma ScanTail(cfg: Config, tail: Tail, args: seq<string>)
    requires TailOk(cfg, tail)
    ensures Scan(cfg, ClusterText([], tail), Took(tail) + args) ==
            Before(Took(tail), OptionsIn(TailUses(tail)), Scan(cfg, "", args))
  {
    TookOff(tail, args);
    if tail.NoTail? {
      assert ClusterText([], tail) == "";
      BeforeNothing(Scan(cfg, "", args));
    } else {
      DecodeTail(cfg, tail, args);
      UseIn(tail.slot, match tail case Inline(_, value) => Some(value) case NextElement(_, value) => Some(value) case _ => None);
    }
  }

  lemma ScanLong(cfg: Config, dashes: string, text: string, args: seq<string>)
    requires DashesOk(cfg, dashes, text)
    ensures Scan(cfg, "", [dashes + text] + args) ==
            Before([dashes + text], [], ScanDecoded(cfg, DecodeLong(cfg.groups, text, args), args))
  {
    DashedIs(cfg, dashes, text);
    assert ([dashes + text] + args)[1..] == args;
  }

  /** A long option that takes the elements TOOK, none or one. */
  lemma ScanUse(cfg: Config, dashes: string, text: string, slot: Slot, value: Maybe<string>, took: seq<string>, args: seq<string>)
    requires DashesOk(cfg, dashes, text) && |took| <= 1
    requires DecodeLong(cfg.groups, text, took + args) == Use(slot.group, slot.option.key, value, "", took != [])
    ensures Scan(cfg, "", [dashes + text] + took + args) ==
            Before([dashes + text] + took, OptionsIn([UseOf(slot, value)]), Scan(cfg, "", args))
  {
    var p, c := Scan(cfg, "", args), OptionsIn([UseOf(slot, value)]);
    Assoc([dashes + text], took, args);
    ScanLong(cfg, dashes, text, took + args);
    assert (if took != [] then (took + args)[1..] else took + args) == args;
    assert took == if took != [] then [(took + args)[0]] else [];
    UseIn(slot, value);
    BeforeBoth([dashes + text], [], took, c, p);
    assert [] + c == c;
  }

  lemma ScanClusterItem(cfg: Config, flags: seq<Slot>, tail: Tail, args: seq<string>)
    requires ItemOk(cfg, Cluster(flags, tail))
    ensures var item := Cluster(flags, tail);
            Scan(cfg, "", Written(item) + args) == Before(Written(item), OptionsIn(Meaning(item)), Scan(cfg, "", args))
  {
    var text, c := ClusterText(flags, tail), OptionsIn(FlagUses(flags) + TailUses(tail));
    Assoc(["-" + text], Took(tail), args);
    ShortElement(cfg, text, Took(tail) + args);
    ScanCluster(cfg, flags, tail, args);
    BeforeBoth(["-" + text], [], Took(tail), c, Scan(cfg, "", args));
    assert [] + c == c;
  }

  /** One item: an option with its value counts as options, a word as an argument. */
  lemma ScanItem(cfg: Config, item: Item, args: seq<string>)
    requires ItemOk(cfg, item) && !item.Word?
    ensures Scan(cfg, "", Written(item) + args) == Before(Written(item), OptionsIn(Meaning(item)), Scan(cfg, "", args))
  {
    match item
    case LongWith(dashes, name, slot, value) =>
      assert [] + args == args && Written(item) + [] == Written(item);
      DecodeWith(cfg.groups, name, value, slot, args);
      ScanUse(cfg, dashes, name + "=" + value, slot, Some(value), [], args);
    case LongBare(dashes, name, slot) =>
      assert [] + args == args && Written(item) + [] == Written(item);
      DecodeBare(cfg.groups, name, slot, args);
      ScanUse(cfg, dashes, name, slot, None, [], args);
    case LongNext(dashes, name, slot, value) =>
      assert Written(item) == [dashes + name] + [value];
      DecodeBare(cfg.groups, name, slot, [value] + args);
      ScanUse(cfg, dashes, name, slot, Some(value), [value], args);
    case Cluster(flags, tail) =>
      ScanClusterItem(cfg, flags, tail, args);
  }

  lemma ScanWord(cfg: Config, text: string, args: seq<string>)
    requires cfg.ordering != RequireOrder && (text == "-" || !("-" <= text))
    ensures var p := Scan(cfg, "", args); Scan(cfg, "", [text] + args) == p.(nons := [text] + p.nons)
  {
    assert ([text] + args)[1..] == args;
  }

  ghost predicate PlanIs(p: Plan, items: seq<Item>, later: Plan) {
    && p.opts == WrittenAll(OptionItems(items)) + later.opts && p.nons == Words(items) + later.nons
    && p.rest == later.rest && p.calls == CallsOf(items) + later.calls && p.end == later.end
  }

  lemma PlanFirst(item: Item, items: seq<Item>, p: Plan, q: Plan, later: Plan)
    requires items != [] && items[0] == item && PlanIs(q, items[1..], later)
    requires p == if item.Word? then q.(nons := [item.text] + q.nons) else Before(Written(item), OptionsIn(Meaning(item)), q)
    ensures PlanIs(p, items, later)
  {
    HalvesAdd(Meaning(item), MeaningAll(items[1..]));
    if item.Word? {
      assert [Meaning(item)[0]][..0] == [];
      assert CallsOf(items) == CallsOf(items[1..]) && OptionItems(items) == OptionItems(items[1..]);
      Assoc([item.text], Words(items[1..]), later.nons);
    } else {
      assert Words(items) == Words(items[1..]);
      assert ([item] + OptionItems(items[1..]))[1..] == OptionItems(items[1..]);
      Assoc(Written(item), WrittenAll(OptionItems(items[1..])), later.opts);
      Assoc(OptionsIn(Meaning(item)), CallsOf(items[1..]), later.calls);
    }
  }

  lemma {:induction false} ScanItems(cfg: Config, items: seq<Item>, args: seq<string>)
    requires AllOk(cfg, items) && (cfg.ordering != RequireOrder || Words(items) == [])
    ensures PlanIs(Scan(cfg, "", WrittenAll(items) + args), items, Scan(cfg, "", args))
    decreases |items|
  {
    if items == [] {
      assert WrittenAll(items) + args == args;
    } else {
      var later := WrittenAll(items[1..]) + args;
      assert WrittenAll(items) + args == Written(items[0]) + later;
      ScanItems(cfg, items[1..], args);
      match items[0] {
        case Word(text) => ScanWord(cfg, text, later);
        case _ => ScanItem(cfg, items[0], later);
      }
      PlanFirst(items[0], items, Scan(cfg, "", WrittenAll(items) + args), Scan(cfg, "", later), Scan(cfg, "", args));
    }
  }

  // ---------- whole runs ----------

  /** In REQUIRE_ORDER the first word ends the options. */
  lemma WordEnds(cfg: Config, text: string, args: seq<string>)
    requires cfg.ordering == RequireOrder && (text == "-" || !("-" <= text))
    ensures Scan(cfg, "", [text] + args) == Plan([], [], [text] + args, [], Complete)
  {
  }

  lemma {:induction false} NoWords(items: seq<Item>)
    requires Words(items) == []
    ensures OptionItems(items) == items
  {
    if items != [] {
      NoWords(items[1..]);
      assert items == [items[0]] + items[1..];
    }
  }

  /** REQUIRE_ORDER: options are read up to the first word; argv stays as it was, whatever comes behind that word. */
  lemma CommandLineRequired(cfg: Config, s: State, items: seq<Item>, text: string, args: seq<string>)
    requires Fresh(cfg, s) && cfg.ordering == RequireOrder && AllOk(cfg, items) && Words(items) == []
    requires text == "-" || !("-" <= text)
    requires s.argv[s.next..] == WrittenAll(items) + ([text] + args)
    requires Run(cfg, s).1 == Done || Run(cfg, s).1 == ArgRejected
    ensures var t := Run(cfg, s).0;
            && t.argv == s.argv && OptionCalls(t.trace) == CallsOf(items)
            && (!TookAll(t.trace) ==> Delivered(t.trace) <= [text] + args)
            && (!TookAll(t.trace) && Run(cfg, s).1 == Done ==> Delivered(t.trace) == [text] + args)
  {
    PermuteRun(cfg, s);
    ScanItems(cfg, items, [text] + args);
    WordEnds(cfg, text, args);
    NoWords(items);
    EndsAsItStood(Run(cfg, s).0, Run(cfg, s).1, s.argv, s.next, Scan(cfg, "", s.argv[s.next..]), WrittenAll(items), [text] + args, CallsOf(items));
  }

  lemma EndsAsItStood(t: State, o: Outcome, orig: seq<string>, start: nat, p: Plan, opts: seq<string>, rest: seq<string>, calls: seq<OptionCall>)
    requires EndsOnPlan(t, o, orig, start, p) && (o == Done || o == ArgRejected)
    requires p == Plan(opts + [], [] + [], rest, calls + [], Complete) && start <= |orig| && orig[start..] == opts + rest
    ensures t.argv == orig && OptionCalls(t.trace) == calls
    ensures !TookAll(t.trace) ==> Delivered(t.trace) <= rest && (o == Done ==> Delivered(t.trace) == rest)
  {
    var n := start + |opts|;
    InPlace(orig, start, opts, rest);
    if !TookAll(t.trace) {
      assert t.argv[n..t.next] == t.argv[n..][..t.next - n];
    }
  }

  lemma InPlace(orig: seq<string>, start: nat, opts: seq<string>, rest: seq<string>)
    requires start <= |orig| && orig[start..] == opts + rest
    ensures orig[..start] + (opts + []) + ([] + []) + rest == orig && orig[start + |opts|..] == rest
  {
    assert orig == orig[..start] + orig[start..];
    assert orig[start..][|opts|..] == orig[start + |opts|..];
  }

  lemma QuotedRest(cfg: Config, words: seq<string>)
    ensures Reading(cfg, "", ["--"] + words) == Timeline(ArgEvents(words), Complete)
    ensures Scan(cfg, "", ["--"] + words) == Plan(["--"], [], words, [], Complete)
  {
    assert (["--"] + words)[1..] == words;
  }

  /** RETURN_IN_ORDER: when a command line written from items, with words after a "--", is parsed to its end and no
      parser takes all the rest at once, then the parsers have seen what the items say, in their order, and the words. */
  lemma CommandLineInOrder(cfg: Config, s: State, items: seq<Item>, words: seq<string>)
    requires Fresh(cfg, s) && cfg.ordering == ReturnInOrder && AllOk(cfg, items)
    requires s.argv[s.next..] == WrittenAll(items) + (["--"] + words)
    requires Run(cfg, s).1 == Done && !TookAll(Run(cfg, s).0.trace)
    ensures Events(Run(cfg, s).0.trace) == MeaningAll(items) + ArgEvents(words)
  {
    RunInOrder(cfg, s);
    ReadItems(cfg, items, ["--"] + words);
    QuotedRest(cfg, words);
  }

  /** PERMUTE: the parsers of the options are called as the items say, and argv ends up as the options with their
      values and the "--", then the words among the items, then those after the "--". */
  lemma CommandLinePermuted(cfg: Config, s: State, items: seq<Item>, words: seq<string>)
    requires Fresh(cfg, s) && cfg.ordering == Permute && AllOk(cfg, items)
    requires s.argv[s.next..] == WrittenAll(items) + (["--"] + words)
    requires Run(cfg, s).1 == Done || Run(cfg, s).1 == ArgRejected
    ensures var t := Run(cfg, s).0;
            && OptionCalls(t.trace) == CallsOf(items)
            && t.argv == s.argv[..s.next] + (WrittenAll(OptionItems(items)) + ["--"]) + Words(items) + words
  {
    PermuteRun(cfg, s);
    ScanItems(cfg, items, ["--"] + words);
    QuotedRest(cfg, words);
    var p := Scan(cfg, "", s.argv[s.next..]);
    assert p.nons == Words(items) && p.calls == CallsOf(items);
  }
}
