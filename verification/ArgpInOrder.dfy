/** RETURN_IN_ORDER runs: options and arguments reach the parsing functions as they stand in argv. */
module ArgpInOrder {
  import opened Maybes
  import opened Sequences
  import opened ArgpExchange
  import opened ArgpLookup
  import opened ArgpParser
  import opened ArgpScan
  import opened ArgpRuns

  /** What happens along an argv: an option is called, or an argument accepted. */
  datatype Event = OptionEvent(call: OptionCall) | ArgEvent(value: string)

  function EventOf(c: Call): seq<Event> {
    if c.key.KeyOption? then [OptionEvent(OptionCall(c.group, c.key.key, c.value))]
    else if c.key == KeyArg && c.value.Some? && c.reply == Zero then [ArgEvent(c.value.value)]
    else []
  }

  /** The events in a trace, in order. */
  function Events(trace: seq<Call>): seq<Event> {
    if trace == [] then [] else Events(trace[..|trace| - 1]) + EventOf(trace[|trace| - 1])
  }

  function ArgEvents(args: seq<string>): (r: seq<Event>)
    ensures |r| == |args|
  {
    seq(|args|, i requires 0 <= i < |args| => ArgEvent(args[i]))
  }

  datatype Timeline = Timeline(events: seq<Event>, end: ScanEnd)

  function After(events: seq<Event>, l: Timeline): Timeline {
    l.(events := events + l.events)
  }

  /** The events that one left-to-right reading of ARGS gives, after the rest CLUSTER of a short-option
      element, when every argument is accepted. */
  function Reading(cfg: Config, cluster: string, args: seq<string>): Timeline
    decreases |args|, |cluster|, 0
  {
    if cluster != "" then ReadingDecoded(cfg, DecodeShort(cfg.groups, cluster, args), args)
    else if args == [] then Timeline([], Complete)
    else match Classify(cfg.longOnly, cfg.shortOpts, args[0])
      case ArgToken => After([ArgEvent(args[0])], Reading(cfg, "", args[1..]))
      case QuoteToken => Timeline(ArgEvents(args[1..]), Complete)
      case LongToken(text) => ReadingDecoded(cfg, DecodeLong(cfg.groups, text, args[1..]), args[1..])
      case LongOnlyToken(text) => ReadingDecoded(cfg, DecodeLong(cfg.groups, text, args[1..]), args[1..])
      case ShortToken(text) => Reading(cfg, text, args[1..])
  }

  function ReadingDecoded(cfg: Config, d: Decoded, args: seq<string>): Timeline
    requires d.Use? && d.took ==> args != []
    decreases |args|, if d.Use? then |d.cluster| else 0, 1
  {
    match d
    case NotAscii => Timeline([], NonAscii)
    case Rejected => Timeline([], BrokenOption)
    case Use(g, k, v, c, took) =>
      After([OptionEvent(OptionCall(g, k, v))], Reading(cfg, c, if took then args[1..] else args))
  }

  // ---------- the two halves of a timeline ----------

  function OptionsIn(events: seq<Event>): seq<OptionCall> {
    if events == [] then []
    else OptionsIn(events[..|events| - 1]) + match events[|events| - 1] case OptionEvent(c) => [c] case ArgEvent(_) => []
  }

  function ArgsIn(events: seq<Event>): seq<string> {
    if events == [] then []
    else ArgsIn(events[..|events| - 1]) + match events[|events| - 1] case OptionEvent(_) => [] case ArgEvent(v) => [v]
  }

  lemma {:induction false} HalvesOfTrace(trace: seq<Call>)
    ensures OptionsIn(Events(trace)) == OptionCalls(trace) && ArgsIn(Events(trace)) == Delivered(trace)
  {
    if trace != [] {
      var n := |trace| - 1;
      HalvesOfTrace(trace[..n]);
      HalvesAdd(Events(trace[..n]), EventOf(trace[n]));
      HalvesOfCall(trace[n]);
    }
  }

  lemma HalvesOfCall(c: Call)
    ensures OptionsIn(EventOf(c)) == if c.key.KeyOption? then [OptionCall(c.group, c.key.key, c.value)] else []
    ensures ArgsIn(EventOf(c)) == if c.key == KeyArg && c.value.Some? && c.reply == Zero then [c.value.value] else []
  {
    if EventOf(c) != [] {
      assert EventOf(c)[..0] == [];
    }
  }

  lemma {:induction false} HalvesAdd(a: seq<Event>, b: seq<Event>)
    ensures OptionsIn(a + b) == OptionsIn(a) + OptionsIn(b) && ArgsIn(a + b) == ArgsIn(a) + ArgsIn(b)
    decreases |b|
  {
    if b == [] {
      assert a + b == a;
    } else {
      var n := |b| - 1;
      assert (a + b)[..|a| + n] == a + b[..n] && (a + b)[|a| + n] == b[n];
      HalvesAdd(a, b[..n]);
      Assoc(OptionsIn(a), OptionsIn(b[..n]), match b[n] case OptionEvent(c) => [c] case ArgEvent(_) => []);
      Assoc(ArgsIn(a), ArgsIn(b[..n]), match b[n] case OptionEvent(_) => [] case ArgEvent(v) => [v]);
    }
  }

  lemma {:induction false} HalvesOfArgs(args: seq<string>)
    ensures OptionsIn(ArgEvents(args)) == [] && ArgsIn(ArgEvents(args)) == args
  {
    if args != [] {
      var n := |args| - 1;
      HalvesOfArgs(args[..n]);
      assert ArgEvents(args)[..n] == ArgEvents(args[..n]);
      assert args == args[..n] + [args[n]];
    }
  }

  lemma HalvesFirst(e: Event, later: seq<Event>)
    ensures OptionsIn([e] + later) == (match e case OptionEvent(c) => [c] case ArgEvent(_) => []) + OptionsIn(later)
    ensures ArgsIn([e] + later) == (match e case OptionEvent(_) => [] case ArgEvent(v) => [v]) + ArgsIn(later)
  {
    HalvesAdd([e], later);
    assert [e][..0] == [];
  }

  /** The plan of an argv has the option calls and the arguments of its timeline, apart from each other. */
  lemma {:induction false} ReadingHalves(cfg: Config, cluster: string, args: seq<string>)
    requires cfg.ordering != RequireOrder
    ensures var l, p := Reading(cfg, cluster, args), Scan(cfg, cluster, args);
            OptionsIn(l.events) == p.calls && ArgsIn(l.events) == p.nons + p.rest && l.end == p.end
    decreases |args|, |cluster|, 0
  {
    if cluster != "" {
      DecodedHalves(cfg, DecodeShort(cfg.groups, cluster, args), args);
    } else if args != [] {
      match Classify(cfg.longOnly, cfg.shortOpts, args[0]) {
        case ArgToken =>
          ReadingHalves(cfg, "", args[1..]);
          HalvesFirst(ArgEvent(args[0]), Reading(cfg, "", args[1..]).events);
          var p := Scan(cfg, "", args[1..]);
          Assoc([args[0]], p.nons, p.rest);
        case QuoteToken =>
          HalvesOfArgs(args[1..]);
          assert [] + args[1..] == args[1..];
        case LongToken(text) => DecodedHalves(cfg, DecodeLong(cfg.groups, text, args[1..]), args[1..]);
        case LongOnlyToken(text) => DecodedHalves(cfg, DecodeLong(cfg.groups, text, args[1..]), args[1..]);
        case ShortToken(text) => ReadingHalves(cfg, text, args[1..]);
      }
    }
  }

  lemma DecodedHalves(cfg: Config, d: Decoded, args: seq<string>)
    requires cfg.ordering != RequireOrder && (d.Use? && d.took ==> args != [])
    ensures var l, p := ReadingDecoded(cfg, d, args), ScanDecoded(cfg, d, args);
            OptionsIn(l.events) == p.calls && ArgsIn(l.events) == p.nons + p.rest && l.end == p.end
    decreases |args|, if d.Use? then |d.cluster| else 0, 1
  {
    if d.Use? {
      var rest := if d.took then args[1..] else args;
      ReadingHalves(cfg, d.cluster, rest);
      HalvesFirst(OptionEvent(OptionCall(d.group, d.key, d.value)), Reading(cfg, d.cluster, rest).events);
    }
  }

  // ---------- what a step does to the timeline ----------

  /** The events that are still to come. */
  function Coming(cfg: Config, s: State): Timeline
    requires s.next <= |s.argv|
  {
    if s.argsOnly then Timeline(ArgEvents(s.argv[s.next..]), Complete) else Reading(cfg, s.nextchar, s.argv[s.next..])
  }

  /** The events of TRACE and then those of L are WHOLE. */
  ghost predicate Continues(trace: seq<Call>, l: Timeline, whole: Timeline) {
    whole == After(Events(trace), l)
  }

  ghost predicate InOrder(cfg: Config, s: State, whole: Timeline) {
    Valid(cfg, s) && cfg.ordering == ReturnInOrder && Continues(s.trace, Coming(cfg, s), whole)
  }

  /** What is true of the state and outcome at the end of a run. */
  ghost predicate EndsInOrder(t: State, o: Outcome, whole: Timeline) {
    && Events(t.trace) <= whole.events
    && ((o.Done? && !TookAll(t.trace)) || o.BadOption? || o.Abort? ==> Events(t.trace) == whole.events)
    && (o.Done? && !TookAll(t.trace) ==> whole.end == Complete)
    && (o.BadOption? ==> whole.end == BrokenOption)
    && (o.Abort? ==> whole.end == NonAscii)
    && (o.ArgRejected? ==>
          && t.next < |t.argv| && |Events(t.trace)| < |whole.events|
          && whole.events[|Events(t.trace)|] == ArgEvent(t.argv[t.next]))
  }

  lemma EventsAppend(trace: seq<Call>, c: Call)
    ensures Events(trace + [c]) == Events(trace) + EventOf(c)
  {
    assert (trace + [c])[..|trace|] == trace;
  }

  lemma OptionCallEvents(cfg: Config, trace: seq<Call>, d: Decoded, l: Timeline, whole: Timeline)
    requires d.Use? && d.group < |cfg.groups|
    requires Continues(trace, After([OptionEvent(OptionCall(d.group, d.key, d.value))], l), whole)
    ensures var (e, t) := GroupParse(cfg, trace, d.group, KeyOption(d.key), d.value);
            Events(t) <= whole.events && (e == Zero ==> Continues(t, l, whole))
  {
    var (e, t) := GroupParse(cfg, trace, d.group, KeyOption(d.key), d.value);
    EventsAppend(trace, Call(d.group, KeyOption(d.key), d.value, e));
    Assoc(Events(trace), [OptionEvent(OptionCall(d.group, d.key, d.value))], l.events);
  }

  lemma DispatchInOrder(cfg: Config, s: State, d: Decoded, whole: Timeline)
    requires Valid(cfg, s) && !s.argsOnly && d.Use? && d.group < |cfg.groups| && (d.took ==> s.next < |s.argv|)
    requires Continues(s.trace, ReadingDecoded(cfg, d, s.argv[s.next..]), whole)
    ensures var (t, o) := Dispatch(cfg, s, d);
            && t.next <= |t.argv|
            && Events(t.trace) <= whole.events && (o == More ==> Continues(t.trace, Coming(cfg, t), whole))
            && (o == More || o.OptionRefused?)
  {
    var t := Dispatch(cfg, s, d).0;
    var rest := if d.took then s.argv[s.next..][1..] else s.argv[s.next..];
    assert rest == t.argv[t.next..];
    OptionCallEvents(cfg, s.trace, d, Reading(cfg, d.cluster, rest), whole);
  }

  /** An offer adds the argument, if it is accepted as ARG, and nothing else. */
  lemma OfferEvents(cfg: Config, trace: seq<Call>, g: nat, value: string)
    requires g <= |cfg.groups|
    ensures var o := OfferArg(cfg, trace, g, value);
            Events(o.trace) == Events(trace) + if o.error == Zero && o.key == KeyArg then [ArgEvent(value)] else []
    decreases |cfg.groups| - g
  {
    if g < |cfg.groups| {
      var (e1, t1) := GroupParse(cfg, trace, g, KeyArg, Some(value));
      CallEvents(cfg, trace, g, KeyArg, Some(value));
      if e1 == BadKey {
        var (e2, t2) := GroupParse(cfg, t1, g, KeyArgs, None);
        CallEvents(cfg, t1, g, KeyArgs, None);
        if e2 == BadKey {
          OfferEvents(cfg, t2, g + 1, value);
        }
      }
    }
  }

  lemma CallEvents(cfg: Config, trace: seq<Call>, g: nat, key: Key, value: Maybe<string>)
    requires g < |cfg.groups| && !key.KeyOption?
    ensures var (e, t) := GroupParse(cfg, trace, g, key, value);
            Events(t) == Events(trace) + if key == KeyArg && value.Some? && e == Zero then [ArgEvent(value.value)] else []
  {
    EventsAppend(trace, Call(g, key, value, cfg.user(trace, g, key, value)));
  }

  /** When the next event is the argument at NEXT, offering it takes it from what is to come, or all of it. */
  lemma ParseArgInOrder(cfg: Config, s: State, l: Timeline, whole: Timeline)
    requires Valid(cfg, s) && s.next < |s.argv| && Continues(s.trace, After([ArgEvent(s.argv[s.next])], l), whole)
    ensures var (t, o) := ParseArg(cfg, s);
            && t == s.(next := t.next, processed := t.processed, trace := t.trace)
            && Events(t.trace) <= whole.events
            && (o == More ==> (t.next == s.next + 1 && Continues(t.trace, l, whole)) || (t.next == |t.argv| && TookAll(t.trace)))
            && (o == More || o.ArgFailed? || o.ArgRejected?)
            && (o.ArgRejected? ==> EndsInOrder(t, o, whole))
  {
    var value := s.argv[s.next];
    var o := OfferArg(cfg, s.trace, 0, value);
    OfferEvents(cfg, s.trace, 0, value);
    OfferTrace(cfg, s.trace, 0, value);
    Assoc(Events(s.trace), [ArgEvent(value)], l.events);
  }

  lemma ShortReading(cfg: Config, s: State)
    requires s.next <= |s.argv| && !s.argsOnly && s.nextchar != ""
    ensures var args := s.argv[s.next..];
            Coming(cfg, s) == ReadingDecoded(cfg, DecodeShort(cfg.groups, s.nextchar, args), args)
  {
  }

  lemma LongReading(cfg: Config, s: State, text: string)
    requires s.next < |s.argv| && !s.argsOnly && s.nextchar == ""
    requires var k := Classify(cfg.longOnly, cfg.shortOpts, s.argv[s.next]); k == LongToken(text) || k == LongOnlyToken(text)
    ensures var args := s.argv[s.next + 1..];
            Coming(cfg, s) == ReadingDecoded(cfg, DecodeLong(cfg.groups, text, args), args)
  {
    assert s.argv[s.next..][1..] == s.argv[s.next + 1..];
  }

  lemma ArgReading(cfg: Config, s: State)
    requires s.next < |s.argv| && !s.argsOnly && s.nextchar == ""
    requires Classify(cfg.longOnly, cfg.shortOpts, s.argv[s.next]) == ArgToken
    ensures Coming(cfg, s) == After([ArgEvent(s.argv[s.next])], Reading(cfg, "", s.argv[s.next + 1..]))
  {
    assert s.argv[s.next..][1..] == s.argv[s.next + 1..];
  }

  lemma LaterArgReading(cfg: Config, s: State)
    requires s.next < |s.argv| && s.argsOnly
    ensures Coming(cfg, s) == After([ArgEvent(s.argv[s.next])], Timeline(ArgEvents(s.argv[s.next + 1..]), Complete))
  {
    assert ArgEvents(s.argv[s.next..]) == [ArgEvent(s.argv[s.next])] + ArgEvents(s.argv[s.next + 1..]);
  }

  /** Either the run goes on in order, or some parser has taken all arguments and nothing is left to do,
      or this is the end. */
  ghost predicate StepsInOrder(cfg: Config, t: State, o: Outcome, whole: Timeline) {
    if o == More then
      && Valid(cfg, t) && Events(t.trace) <= whole.events
      && (InOrder(cfg, t, whole) || (TookAll(t.trace) && t.next == |t.argv| && t.nextchar == ""))
    else EndsInOrder(t, o, whole)
  }

  lemma StepShortInOrder(cfg: Config, s: State, whole: Timeline)
    requires InOrder(cfg, s, whole) && s.nextchar != ""
    ensures StepsInOrder(cfg, StepShort(cfg, s).0, StepShort(cfg, s).1, whole)
  {
    var d := DecodeShort(cfg.groups, s.nextchar, s.argv[s.next..]);
    ShortReading(cfg, s);
    if d.Use? {
      DispatchInOrder(cfg, s, d, whole);
      if StepShort(cfg, s).1 == More {
        StepShortProgress(cfg, s);
      }
    } else {
      assert Events(s.trace) + [] == Events(s.trace);
    }
  }

  lemma StepLongInOrder(cfg: Config, s: State, text: string, whole: Timeline)
    requires InOrder(cfg, s, whole) && !s.argsOnly && s.next < |s.argv| && s.nextchar == ""
    requires var k := Classify(cfg.longOnly, cfg.shortOpts, s.argv[s.next]); k == LongToken(text) || k == LongOnlyToken(text)
    ensures StepsInOrder(cfg, StepLong(cfg, s, text).0, StepLong(cfg, s, text).1, whole)
  {
    var t := s.(next := s.next + 1, argEbadkey := false);
    var d := DecodeLong(cfg.groups, text, t.argv[t.next..]);
    LongReading(cfg, s, text);
    StepLongIs(cfg, s, text);
    if d.Use? {
      DispatchInOrder(cfg, t, d, whole);
      if StepLong(cfg, s, text).1 == More {
        StepLongProgress(cfg, s, text);
      }
    } else {
      assert Events(s.trace) + [] == Events(s.trace);
    }
  }

  lemma StepArgInOrder(cfg: Config, s: State, whole: Timeline)
    requires InOrder(cfg, s, whole) && !s.argsOnly && s.next < |s.argv| && s.nextchar == ""
    requires Classify(cfg.longOnly, cfg.shortOpts, s.argv[s.next]) == ArgToken
    ensures StepsInOrder(cfg, StepArg(cfg, s).0, StepArg(cfg, s).1, whole)
  {
    ArgReading(cfg, s);
    ParseArgInOrder(cfg, s.(argEbadkey := true), Reading(cfg, "", s.argv[s.next + 1..]), whole);
    if StepArg(cfg, s).1 == More {
      StepArgProgress(cfg, s);
    }
  }

  lemma LaterArgInOrder(cfg: Config, s: State, whole: Timeline)
    requires InOrder(cfg, s, whole) && s.argsOnly && s.next < |s.argv|
    ensures StepsInOrder(cfg, ParseArg(cfg, s).0, ParseArg(cfg, s).1, whole)
  {
    LaterArgReading(cfg, s);
    ParseArgInOrder(cfg, s, Timeline(ArgEvents(s.argv[s.next + 1..]), Complete), whole);
    if ParseArg(cfg, s).1 == More {
      ParseArgProgress(cfg, s);
    }
  }

  lemma NothingComing(cfg: Config, s: State, whole: Timeline)
    requires InOrder(cfg, s, whole) && s.next == |s.argv| && s.nextchar == ""
    ensures Events(s.trace) == whole.events && whole.end == Complete
  {
    assert Events(s.trace) + [] == Events(s.trace);
  }

  lemma StepInOrder(cfg: Config, s: State, whole: Timeline)
    requires InOrder(cfg, s, whole)
    ensures StepsInOrder(cfg, Step(cfg, s).0, Step(cfg, s).1, whole)
  {
    if s.nextchar != "" {
      StepShortInOrder(cfg, s, whole);
    } else if s.next == |s.argv| {
      NothingComing(cfg, s, whole);
    } else if s.argsOnly {
      LaterArgInOrder(cfg, s.(argEbadkey := true), whole);
    } else {
      match Classify(cfg.longOnly, cfg.shortOpts, s.argv[s.next]) {
        case ArgToken => StepArgInOrder(cfg, s, whole);
        case QuoteToken => PassInOrder(cfg, s, whole);
        case LongToken(text) => StepLongInOrder(cfg, s, text, whole);
        case LongOnlyToken(text) => StepLongInOrder(cfg, s, text, whole);
        case ShortToken(_) => PassInOrder(cfg, s, whole);
      }
    }
  }

  /** A "--", or the element of a cluster of short options. */
  lemma PassInOrder(cfg: Config, s: State, whole: Timeline)
    requires InOrder(cfg, s, whole) && !s.argsOnly && s.next < |s.argv| && s.nextchar == ""
    requires var k := Classify(cfg.longOnly, cfg.shortOpts, s.argv[s.next]); k == QuoteToken || k.ShortToken?
    ensures StepsInOrder(cfg, Step(cfg, s).0, Step(cfg, s).1, whole)
  {
    assert s.argv[s.next..][1..] == s.argv[s.next + 1..];
    StepProgress(cfg, s);
  }

  // ---------- whole runs ----------

  lemma {:induction false} RunStaysInOrder(cfg: Config, s: State, whole: Timeline)
    requires InOrder(cfg, s, whole)
    ensures EndsInOrder(Run(cfg, s).0, Run(cfg, s).1, whole)
    decreases !s.argsOnly, |s.argv| - s.next, |s.nextchar|
  {
    var (t, o) := Step(cfg, s);
    StepInOrder(cfg, s, whole);
    if o == More {
      StepProgress(cfg, s);
      if InOrder(cfg, t, whole) {
        RunStaysInOrder(cfg, t, whole);
      } else {
        RunOver(cfg, t);
      }
    }
  }

  /** With nothing left of argv the run is over. */
  lemma RunOver(cfg: Config, s: State)
    requires Valid(cfg, s) && cfg.ordering == ReturnInOrder && s.next == |s.argv| && s.nextchar == ""
    ensures Run(cfg, s) == (s.(argEbadkey := true), Done)
  {
  }

  lemma StepKeepsArgv(cfg: Config, s: State)
    requires Valid(cfg, s) && cfg.ordering == ReturnInOrder
    ensures Step(cfg, s).0.argv == s.argv
  {
    StepRearranges(cfg, s);
    EmptyBlock(s.argv, 0, 0, s.next);
    if s.next < |s.argv| {
      EmptyBlock(s.argv, 0, 0, s.next + 1);
    }
  }

  lemma {:induction false} RunKeepsArgv(cfg: Config, s: State)
    requires Valid(cfg, s) && cfg.ordering == ReturnInOrder
    ensures Run(cfg, s).0.argv == s.argv
    decreases !s.argsOnly, |s.argv| - s.next, |s.nextchar|
  {
    StepKeepsArgv(cfg, s);
    if Step(cfg, s).1 == More {
      StepProgress(cfg, s);
      RunKeepsArgv(cfg, Step(cfg, s).0);
    }
  }

  lemma FreshIsInOrder(cfg: Config, s: State)
    requires Fresh(cfg, s) && cfg.ordering == ReturnInOrder
    ensures InOrder(cfg, s, Reading(cfg, "", s.argv[s.next..]))
  {
    HalvesOfTrace(s.trace);
    NoHalves(Events(s.trace));
    var l := Coming(cfg, s);
    assert [] + l.events == l.events;
  }

  lemma NoHalves(events: seq<Event>)
    requires OptionsIn(events) == [] && ArgsIn(events) == []
    ensures events == []
  {
  }

  /** RETURN_IN_ORDER, whole run and whatever its end: the option calls and the arguments accepted, as they come
      in the trace, are those that a left-to-right reading of argv gives, in that order, or the first of them.
      They are all of them if the run ends normally (unless some parser took the rest at once) or at an option
      that is none; and an argument that nobody wants is the next of them.  argv stays as it was. */
  lemma RunInOrder(cfg: Config, s: State)
    requires Fresh(cfg, s) && cfg.ordering == ReturnInOrder
    ensures EndsInOrder(Run(cfg, s).0, Run(cfg, s).1, Reading(cfg, "", s.argv[s.next..]))
    ensures Run(cfg, s).0.argv == s.argv
  {
    RunKeepsArgv(cfg, s);
    FreshIsInOrder(cfg, s);
    RunStaysInOrder(cfg, s, Reading(cfg, "", s.argv[s.next..]));
  }
}
