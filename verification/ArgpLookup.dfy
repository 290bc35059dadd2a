/** How the parser recognizes arguments and finds the option that an argument names. */
module ArgpLookup {
  import opened Maybes
  import opened ArgpTypes

  /** What the parser keeps of an argp that needs a group. */
  datatype Group = Group(options: seq<ArgpOption>, parser: bool)

  /** An option together with the index of the group that defines it. */
  datatype Slot = Slot(group: nat, option: ArgpOption)

  /** The options from option I of group G on, in the order the searches visit them. */
  function SlotsFrom(groups: seq<Group>, g: nat, i: nat): (r: seq<Slot>)
    ensures forall s <- r :: s.group < |groups|
    decreases |groups| - g, if g < |groups| then |groups[g].options| - i else 0
  {
    if g >= |groups| then []
    else if i >= |groups[g].options| then SlotsFrom(groups, g + 1, 0)
    else [Slot(g, groups[g].options[i])] + SlotsFrom(groups, g, i + 1)
  }

  function Slots(groups: seq<Group>): seq<Slot> {
    SlotsFrom(groups, 0, 0)
  }

  function FirstWithKey(slots: seq<Slot>, key: int): (r: Maybe<Slot>)
    ensures r.Some? ==> r.value in slots && r.value.option.key == key
    ensures r.None? ==> forall s <- slots :: s.option.key != key
  {
    if slots == [] then None
    else if slots[0].option.key == key then Some(slots[0])
    else FirstWithKey(slots[1..], key)
  }

  lemma LookAtSlot(groups: seq<Group>, g: nat, i: nat, key: int)
    requires g < |groups| && i < |groups[g].options|
    ensures FirstWithKey(SlotsFrom(groups, g, i), key)
         == if groups[g].options[i].key == key then Some(Slot(g, groups[g].options[i]))
            else FirstWithKey(SlotsFrom(groups, g, i + 1), key)
  {
    assert SlotsFrom(groups, g, i)[1..] == SlotsFrom(groups, g, i + 1);
  }

  lemma NextGroup(groups: seq<Group>, g: nat)
    requires g < |groups|
    ensures SlotsFrom(groups, g, |groups[g].options|) == SlotsFrom(groups, g + 1, 0)
  {
  }

  method FindShortOption(groups: seq<Group>, key: int) returns (r: Maybe<Slot>)
    ensures r == FirstWithKey(Slots(groups), key)
  {
    ghost var first := FirstWithKey(Slots(groups), key);
    var g := 0;
    while g < |groups|
      invariant 0 <= g <= |groups|
      invariant first == FirstWithKey(SlotsFrom(groups, g, 0), key)
    {
      r := FindInGroup(groups, g, key);
      if r.Some? {
        return;
      }
      g := g + 1;
    }
    r := None;
  }

  /** The inner loop of find_short_option. */
  method FindInGroup(groups: seq<Group>, g: nat, key: int) returns (r: Maybe<Slot>)
    requires g < |groups|
    ensures FirstWithKey(SlotsFrom(groups, g, 0), key)
         == if r.Some? then r else FirstWithKey(SlotsFrom(groups, g + 1, 0), key)
  {
    ghost var first := FirstWithKey(SlotsFrom(groups, g, 0), key);
    var i := 0;
    while i < |groups[g].options|
      invariant 0 <= i <= |groups[g].options|
      invariant first == FirstWithKey(SlotsFrom(groups, g, i), key)
    {
      LookAtSlot(groups, g, i, key);
      if groups[g].options[i].key == key {
        return Some(Slot(g, groups[g].options[i]));
      }
      i := i + 1;
    }
    NextGroup(groups, g);
    r := None;
  }

  /** The part of a long option argument before any '='. */
  function Stem(arg: string): (r: string)
    ensures r <= arg && '=' !in r
    ensures r == arg || (|r| < |arg| && arg[|r|] == '=')
  {
    if arg == "" || arg[0] == '=' then "" else [arg[0]] + Stem(arg[1..])
  }

  datatype MatchResult = MatchExact | MatchPartial | MatchNo

  /** The loop that compares ARG, up to its '=', with NAME character by character. */
  method MatchOption(arg: string, name: string) returns (r: MatchResult)
    ensures r.MatchExact? <==> name == Stem(arg)
    ensures r.MatchPartial? <==> Stem(arg) < name
  {
    var i := 0;
    while true
      invariant 0 <= i <= |Stem(arg)| && i <= |name|
      invariant Stem(arg)[..i] == name[..i]
      decreases |name| - i
    {
      if i == |arg| || arg[i] == '=' {
        assert Stem(arg) == arg[..i];
        assert name == name[..i] + name[i..];
        return if i < |name| then MatchPartial else MatchExact;
      }
      assert i < |Stem(arg)| && Stem(arg)[i] == arg[i];
      if i == |name| || arg[i] != name[i] {
        return MatchNo;
      }
      assert Stem(arg)[..i + 1] == Stem(arg)[..i] + [arg[i]];
      i := i + 1;
    }
  }

  predicate IsExact(s: Slot, arg: string) {
    s.option.name == Some(Stem(arg))
  }

  predicate IsPartial(s: Slot, arg: string) {
    s.option.name.Some? && Stem(arg) < s.option.name.value
  }

  function Exacts(slots: seq<Slot>, arg: string): seq<Slot> {
    if slots == [] then []
    else (if IsExact(slots[0], arg) then [slots[0]] else []) + Exacts(slots[1..], arg)
  }

  function Partials(slots: seq<Slot>, arg: string): seq<Slot> {
    if slots == [] then []
    else (if IsPartial(slots[0], arg) then [slots[0]] else []) + Partials(slots[1..], arg)
  }

  lemma ExactsArePart(slots: seq<Slot>, arg: string)
    ensures forall s :: s in Exacts(slots, arg) ==> s in slots
    ensures forall s :: s in Partials(slots, arg) ==> s in slots
  {
  }

  /** The option a long argument names: the first exact match, else the only partial match. */
  function LongMatch(slots: seq<Slot>, arg: string): (r: Maybe<Slot>)
    ensures r.Some? ==> r.value in slots
  {
    ExactsArePart(slots, arg);
    if Exacts(slots, arg) != [] then Some(Exacts(slots, arg)[0])
    else if |Partials(slots, arg)| == 1 then Some(Partials(slots, arg)[0])
    else None
  }

  /** The same search as one pass that remembers the partial matches met so far. */
  function LongScan(slots: seq<Slot>, arg: string, numPartial: nat, matched: Maybe<Slot>): Maybe<Slot> {
    if slots == [] then if numPartial == 1 then matched else None
    else if IsExact(slots[0], arg) then Some(slots[0])
    else if IsPartial(slots[0], arg) then LongScan(slots[1..], arg, numPartial + 1, Some(slots[0]))
    else LongScan(slots[1..], arg, numPartial, matched)
  }

  lemma {:induction false} LongScanIsMatch(slots: seq<Slot>, arg: string, numPartial: nat, matched: Maybe<Slot>)
    ensures LongScan(slots, arg, numPartial, matched) ==
            if Exacts(slots, arg) != [] then Some(Exacts(slots, arg)[0])
            else if numPartial + |Partials(slots, arg)| != 1 then None
            else if numPartial == 1 then matched else Some(Partials(slots, arg)[0])
  {
    if slots != [] {
      if IsPartial(slots[0], arg) {
        LongScanIsMatch(slots[1..], arg, numPartial + 1, Some(slots[0]));
      } else {
        LongScanIsMatch(slots[1..], arg, numPartial, matched);
      }
    }
  }

  lemma NextSlot(groups: seq<Group>, g: nat, i: nat)
    requires g < |groups| && i < |groups[g].options|
    ensures var all := SlotsFrom(groups, g, i);
            all != [] && all[0] == Slot(g, groups[g].options[i]) && all[1..] == SlotsFrom(groups, g, i + 1)
  {
  }

  /** The comparison FindLongOption makes for one option; options without a long name never match. */
  method MatchSlot(s: Slot, arg: string) returns (r: MatchResult)
    ensures r.MatchExact? <==> IsExact(s, arg)
    ensures r.MatchPartial? <==> IsPartial(s, arg)
  {
    if s.option.name.None? {
      return MatchNo;
    }
    r := MatchOption(arg, s.option.name.value);
  }

  method FindLongOption(groups: seq<Group>, arg: string) returns (r: Maybe<Slot>)
    ensures r == LongMatch(Slots(groups), arg)
  {
    ghost var goal := LongMatch(Slots(groups), arg);
    LongScanIsMatch(Slots(groups), arg, 0, None);
    var matched: Maybe<Slot>, numPartial := None, 0;
    var g := 0;
    while g < |groups|
      invariant 0 <= g <= |groups|
      invariant goal == LongScan(SlotsFrom(groups, g, 0), arg, numPartial, matched)
    {
      var i := 0;
      while i < |groups[g].options|
        invariant 0 <= i <= |groups[g].options|
        invariant goal == LongScan(SlotsFrom(groups, g, i), arg, numPartial, matched)
      {
        var s := Slot(g, groups[g].options[i]);
        NextSlot(groups, g, i);
        var m := MatchSlot(s, arg);
        if m.MatchExact? {
          return Some(s);
        }
        if m.MatchPartial? {
          numPartial, matched := numPartial + 1, Some(s);
        }
        i := i + 1;
      }
      g := g + 1;
    }
    r := if numPartial == 1 then matched else None;
  }

  /** What an argument looks like, with the text that option parsing starts from. */
  datatype Token = ArgToken | QuoteToken | LongToken(text: string) | LongOnlyToken(text: string) | ShortToken(text: string)

  function Classify(longOnly: bool, shortOpts: string, arg: string): (t: Token)
    ensures t.ShortToken? ==> t.text != ""
    ensures t.QuoteToken? <==> arg == "--"
    ensures t.ArgToken? <==> arg == "-" || !("-" <= arg)
  {
    if |arg| == 0 || arg[0] != '-' then ArgToken
    else if |arg| == 1 then ArgToken
    else if arg[1] == '-' then
      if |arg| == 2 then QuoteToken else LongToken(arg[2..])
    else if longOnly && (|arg| > 2 || arg[1] !in shortOpts) then LongOnlyToken(arg[1..])
    else ShortToken(arg[1..])
  }
}
