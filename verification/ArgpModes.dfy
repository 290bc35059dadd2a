/** What the orders have in common, and the calls that each step may make. */
module ArgpModes {
  import opened Maybes
  import opened ArgpLookup
  import opened ArgpParser
  import opened ArgpScan
  import opened ArgpRuns
  import opened ArgpInOrder

  // ---------- what a step adds to the trace ----------

  predicate IsArgKey(k: Key) {
    k == KeyArg || k == KeyArgs
  }

  /** T is S followed by calls of existing parsing functions with keys that WHICH allows. */
  ghost predicate Extends(cfg: Config, s: seq<Call>, t: seq<Call>, options: bool, arguments: bool) {
    && s <= t
    && forall c <- t[|s|..] ::
         && c.group < |cfg.groups| && cfg.groups[c.group].parser
         && ((options && c.key.KeyOption?) || (arguments && IsArgKey(c.key)))
  }

  lemma OfferExtends(cfg: Config, trace: seq<Call>, g: nat, value: string)
    requires g <= |cfg.groups|
    ensures Extends(cfg, trace, OfferArg(cfg, trace, g, value).trace, false, true)
    decreases |cfg.groups| - g
  {
    if g < |cfg.groups| {
      var (e1, t1) := GroupParse(cfg, trace, g, KeyArg, Some(value));
      var (e2, t2) := GroupParse(cfg, t1, g, KeyArgs, None);
      OfferExtends(cfg, t2, g + 1, value);
    }
  }

  /** Steps over which no parsing function is called. */
  predicate Quiet(cfg: Config, s: State) {
    && s.nextchar == "" && !s.argsOnly
    && (s.next < |s.argv| ==>
          match Classify(cfg.longOnly, cfg.shortOpts, s.argv[s.next])
            case ArgToken => cfg.ordering != ReturnInOrder
            case QuoteToken => true
            case ShortToken(_) => true
            case _ => false)
  }

  lemma QuietStep(cfg: Config, s: State)
    requires Valid(cfg, s) && Quiet(cfg, s)
    ensures var t := Step(cfg, s).0; t.trace == s.trace && t.processed == s.processed
  {
  }

  lemma CallExtends(cfg: Config, trace: seq<Call>, g: nat, key: int, value: Maybe<string>, arguments: bool)
    requires g < |cfg.groups|
    ensures Extends(cfg, trace, GroupParse(cfg, trace, g, KeyOption(key), value).1, true, arguments)
  {
  }

  lemma StepShortExtends(cfg: Config, s: State, arguments: bool)
    requires Valid(cfg, s) && s.nextchar != ""
    ensures Extends(cfg, s.trace, StepShort(cfg, s).0.trace, true, arguments)
  {
    var d := DecodeShort(cfg.groups, s.nextchar, s.argv[s.next..]);
    if d.Use? {
      CallExtends(cfg, s.trace, d.group, d.key, d.value, arguments);
    }
  }

  lemma StepLongExtends(cfg: Config, s: State, text: string, arguments: bool)
    requires Valid(cfg, s) && s.next < |s.argv|
    ensures Extends(cfg, s.trace, StepLong(cfg, s, text).0.trace, true, arguments)
  {
    var d := DecodeLong(cfg.groups, text, s.argv[s.next + 1..]);
    if d.Use? {
      CallExtends(cfg, s.trace, d.group, d.key, d.value, arguments);
    }
  }

  lemma ParseArgExtends(cfg: Config, s: State, options: bool)
    requires Valid(cfg, s) && s.next < |s.argv|
    ensures Extends(cfg, s.trace, ParseArg(cfg, s).0.trace, options, true)
  {
    OfferExtends(cfg, s.trace, 0, s.argv[s.next]);
  }

  /** While arguments are walked over, only ARG and ARGS calls are made; while options are looked
      for, only option calls, except that RETURN_IN_ORDER offers arguments as it meets them. */
  lemma StepExtends(cfg: Config, s: State)
    requires Valid(cfg, s)
    ensures Extends(cfg, s.trace, Step(cfg, s).0.trace, !s.argsOnly, s.argsOnly || cfg.ordering == ReturnInOrder)
  {
    if Quiet(cfg, s) {
      QuietStep(cfg, s);
    } else if s.nextchar != "" {
      StepShortExtends(cfg, s, cfg.ordering == ReturnInOrder);
    } else if s.next < |s.argv| {
      var t := s.(argEbadkey := true);
      if s.argsOnly {
        ParseArgExtends(cfg, t, false);
      } else {
        match Classify(cfg.longOnly, cfg.shortOpts, s.argv[s.next]) {
          case ArgToken => ParseArgExtends(cfg, t, true);
          case LongToken(text) => StepLongExtends(cfg, s, text, cfg.ordering == ReturnInOrder);
          case LongOnlyToken(text) => StepLongExtends(cfg, s, text, cfg.ordering == ReturnInOrder);
        }
      }
    }
  }

  lemma {:induction false} RunExtends(cfg: Config, s: State)
    requires Valid(cfg, s)
    ensures Extends(cfg, s.trace, Run(cfg, s).0.trace, true, true)
    decreases !s.argsOnly, |s.argv| - s.next, |s.nextchar|
  {
    StepExtends(cfg, s);
    if Step(cfg, s).1 == More {
      StepProgress(cfg, s);
      RunExtends(cfg, Step(cfg, s).0);
    }
  }

  /** The option calls come before the argument calls. */
  predicate OptionsFirst(trace: seq<Call>) {
    forall i, j :: 0 <= i < j < |trace| && IsArgKey(trace[i].key) ==> !trace[j].key.KeyOption?
  }

  predicate NoArgumentsYet(trace: seq<Call>) {
    forall c <- trace :: !IsArgKey(c.key)
  }

  lemma ExtendingDelays(cfg: Config, s: seq<Call>, t: seq<Call>, scanning: bool)
    requires OptionsFirst(s) && (scanning ==> NoArgumentsYet(s))
    requires Extends(cfg, s, t, scanning, !scanning)
    ensures OptionsFirst(t) && (scanning ==> NoArgumentsYet(t))
  {
    assert t == s + t[|s|..];
  }

  /** PERMUTE and REQUIRE_ORDER deliver no argument before the last option. */
  lemma {:induction false} RunDelays(cfg: Config, s: State)
    requires Valid(cfg, s) && cfg.ordering != ReturnInOrder
    requires OptionsFirst(s.trace) && (!s.argsOnly ==> NoArgumentsYet(s.trace))
    ensures OptionsFirst(Run(cfg, s).0.trace)
    decreases !s.argsOnly, |s.argv| - s.next, |s.nextchar|
  {
    StepExtends(cfg, s);
    var (t, o) := Step(cfg, s);
    ExtendingDelays(cfg, s.trace, t.trace, !s.argsOnly);
    if o == More {
      StepProgress(cfg, s);
      RunDelays(cfg, t);
    }
  }

  // ---------- the comparison ----------

  /** In both orders the plan of an argv is the same; the users' parsers have no say in it. */
  lemma ScanAgrees(p: Config, r: Config, cluster: string, args: seq<string>)
    requires p.groups == r.groups && p.longOnly == r.longOnly && p.shortOpts == r.shortOpts
    requires p.ordering != RequireOrder && r.ordering != RequireOrder
    ensures Scan(p, cluster, args) == Scan(r, cluster, args)
    decreases |args|, |cluster|, 0
  {
    if cluster != "" {
      DecodedAgrees(p, r, DecodeShort(p.groups, cluster, args), args);
    } else if args != [] {
      match Classify(p.longOnly, p.shortOpts, args[0]) {
        case ArgToken => ScanAgrees(p, r, "", args[1..]);
        case QuoteToken =>
        case LongToken(text) => DecodedAgrees(p, r, DecodeLong(p.groups, text, args[1..]), args[1..]);
        case LongOnlyToken(text) => DecodedAgrees(p, r, DecodeLong(p.groups, text, args[1..]), args[1..]);
        case ShortToken(text) => ScanAgrees(p, r, text, args[1..]);
      }
    }
  }

  lemma DecodedAgrees(p: Config, r: Config, d: Decoded, args: seq<string>)
    requires p.groups == r.groups && p.longOnly == r.longOnly && p.shortOpts == r.shortOpts
    requires p.ordering != RequireOrder && r.ordering != RequireOrder
    requires d.Use? && d.took ==> args != []
    ensures ScanDecoded(p, d, args) == ScanDecoded(r, d, args)
    decreases |args|, if d.Use? then |d.cluster| else 0, 1
  {
    if d.Use? {
      ScanAgrees(p, r, d.cluster, if d.took then args[1..] else args);
    }
  }

  /** When a PERMUTE run and a RETURN_IN_ORDER run over the same argv both consume every argument
      one by one, they make the same option calls and deliver the same arguments, each in the same
      order; PERMUTE only delays the arguments until after the options.  The parsing functions of
      the two runs need not be the same. */
  lemma OrdersAgree(p: Config, r: Config, s: State, t: State)
    requires p.groups == r.groups && p.longOnly == r.longOnly && p.shortOpts == r.shortOpts
    requires p.ordering == Permute && r.ordering == ReturnInOrder
    requires Fresh(p, s) && Fresh(r, t) && s.argv == t.argv && s.next == t.next && NoArgumentsYet(s.trace)
    requires Run(p, s).1 == Done && Run(r, t).1 == Done
    requires !TookAll(Run(p, s).0.trace) && !TookAll(Run(r, t).0.trace)
    ensures OptionCalls(Run(p, s).0.trace) == OptionCalls(Run(r, t).0.trace)
    ensures Delivered(Run(p, s).0.trace) == Delivered(Run(r, t).0.trace)
    ensures OptionsFirst(Run(p, s).0.trace)
  {
    var whole := Scan(p, "", s.argv[s.next..]);
    PermuteRun(p, s);
    RunDelays(p, s);
    ScanAgrees(p, r, "", s.argv[s.next..]);
    RunInOrder(r, t);
    ReadingHalves(r, "", t.argv[t.next..]);
    HalvesOfTrace(Run(r, t).0.trace);
    EndedOnPlan(Run(p, s).0, s.argv, s.next, whole);
  }

  /** A normal end means that the calls and arguments are all those of the plan. */
  lemma EndedOnPlan(s: State, orig: seq<string>, start: nat, whole: Plan)
    requires EndsOnPlan(s, Done, orig, start, whole) && !TookAll(s.trace)
    ensures OptionCalls(s.trace) == whole.calls && Delivered(s.trace) == whole.nons + whole.rest
  {
    ArgumentsOf(s.argv, orig, start, whole);
  }

  lemma ArgumentsOf(argv: seq<string>, orig: seq<string>, start: nat, whole: Plan)
    requires LaidOut(argv, orig, start, whole)
    ensures argv[start + |whole.opts|..|argv|] == argv[start + |whole.opts|..] == whole.nons + whole.rest
  {
  }
}
