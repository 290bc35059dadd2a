/** Theorems about complete runs of the scanner. */
module ArgpRuns {
  import opened ArgpExchange
  import opened ArgpLookup
  import opened ArgpParser
  import opened ArgpScan

  /** A state as parser_init leaves it, apart from the calls already made. */
  ghost predicate Fresh(cfg: Config, s: State) {
    && Valid(cfg, s) && s.first == s.last == 0 && !s.argsOnly && s.nextchar == ""
    && OptionCalls(s.trace) == [] && Delivered(s.trace) == [] && !TookAll(s.trace)
  }

  // ---------- PERMUTE and REQUIRE_ORDER ----------

  lemma FreshIsScanning(cfg: Config, s: State)
    requires Fresh(cfg, s)
    ensures Scanning(cfg, s, s.argv, s.next, Scan(cfg, "", s.argv[s.next..]))
  {
    var f := Future(cfg, s);
    assert OptsSoFar(s, s.next) + f.opts == f.opts;
    assert Skipped(s) + f.nons == f.nons;
  }

  ghost predicate OnPlan(cfg: Config, s: State, orig: seq<string>, start: nat, whole: Plan) {
    && cfg.ordering != ReturnInOrder
    && (if s.argsOnly then Arguing(cfg, s, orig, start, whole) else Scanning(cfg, s, orig, start, whole))
  }

  lemma StepShortKeepsScanning(cfg: Config, s: State, orig: seq<string>, start: nat, whole: Plan)
    requires Scanning(cfg, s, orig, start, whole) && s.nextchar != "" && StepShort(cfg, s).1 == More
    ensures Scanning(cfg, StepShort(cfg, s).0, orig, start, whole)
  {
    DispatchKeepsScanning(cfg, s, DecodeShort(cfg.groups, s.nextchar, s.argv[s.next..]), orig, start, whole);
  }

  lemma StepArgOnPlan(cfg: Config, s: State, orig: seq<string>, start: nat, whole: Plan)
    requires Scanning(cfg, s, orig, start, whole) && s.next < |s.argv| && s.nextchar == ""
    requires cfg.ordering != ReturnInOrder && Classify(cfg.longOnly, cfg.shortOpts, s.argv[s.next]) == ArgToken
    ensures OnPlan(cfg, StepArg(cfg, s).0, orig, start, whole)
  {
    if cfg.ordering == Permute {
      StepArgKeepsScanning(cfg, s, orig, start, whole);
    } else {
      StepImplicitQuoteLaysOut(cfg, s, orig, start, whole);
    }
  }

  lemma StepOnPlan(cfg: Config, s: State, orig: seq<string>, start: nat, whole: Plan)
    requires OnPlan(cfg, s, orig, start, whole) && Step(cfg, s).1 == More
    ensures OnPlan(cfg, Step(cfg, s).0, orig, start, whole)
  {
    if s.argsOnly {
      ParseArgKeepsArguing(cfg, s.(argEbadkey := true), orig, start, whole);
    } else if s.nextchar != "" {
      StepShortKeepsScanning(cfg, s, orig, start, whole);
    } else if s.next == |s.argv| {
      StepEndLaysOut(cfg, s, orig, start, whole);
    } else {
      match Classify(cfg.longOnly, cfg.shortOpts, s.argv[s.next]) {
        case ArgToken => StepArgOnPlan(cfg, s, orig, start, whole);
        case QuoteToken => StepQuoteLaysOut(cfg, s, orig, start, whole);
        case LongToken(text) => StepLongKeepsScanning(cfg, s, text, orig, start, whole);
        case LongOnlyToken(text) => StepLongKeepsScanning(cfg, s, text, orig, start, whole);
        case ShortToken(text) => StepClusterKeepsScanning(cfg, s, text, orig, start, whole);
      }
    }
  }

  /** What is true of the state and outcome at the end of a run. */
  ghost predicate EndsOnPlan(s: State, o: Outcome, orig: seq<string>, start: nat, whole: Plan) {
    && (o.Done? || o.ArgRejected? || o.ArgFailed? ==>
          LaidOut(s.argv, orig, start, whole) && OptionCalls(s.trace) == whole.calls)
    && (o.Done? ==> s.next == |s.argv|)
    && (o.ArgRejected? ==> s.next < |s.argv|)
    && ((o.Done? || o.ArgRejected?) && !TookAll(s.trace) ==>
          start + |whole.opts| <= s.next && Delivered(s.trace) == s.argv[start + |whole.opts|..s.next])
    && (o.OptionRefused? ==> OptionCalls(s.trace) <= whole.calls)
    && (o.BadOption? ==> whole.end == BrokenOption && OptionCalls(s.trace) == whole.calls)
    && (o.Abort? ==> whole.end == NonAscii && OptionCalls(s.trace) == whole.calls)
  }

  /** A refused option was the next one planned. */
  lemma RefusedOnPlan(cfg: Config, s: State, d: Decoded, orig: seq<string>, start: nat, whole: Plan)
    requires d.Use? && d.group < |cfg.groups| && (d.took ==> s.next < |s.argv|)
    requires Ends(cfg, s, orig, start)
    requires Completes(cfg, s, orig, start, whole, ScanDecoded(cfg, d, s.argv[s.next..]))
    requires Dispatch(cfg, s, d).1 != More
    ensures EndsOnPlan(Dispatch(cfg, s, d).0, Dispatch(cfg, s, d).1, orig, start, whole)
  {
    var c := OptionCall(d.group, d.key, d.value);
    var f := ScanDecoded(cfg, d, s.argv[s.next..]);
    assert f.calls == [c] + f.calls[1..];
    CallIsNext(cfg, s.trace, d, whole.calls, f.calls[1..]);
  }

  lemma CallIsNext(cfg: Config, trace: seq<Call>, d: Decoded, calls: seq<OptionCall>, later: seq<OptionCall>)
    requires d.Use? && d.group < |cfg.groups|
    requires calls == OptionCalls(trace) + ([OptionCall(d.group, d.key, d.value)] + later)
    ensures OptionCalls(GroupParse(cfg, trace, d.group, KeyOption(d.key), d.value).1) <= calls
  {
    assert calls == OptionCalls(trace) + [OptionCall(d.group, d.key, d.value)] + later;
  }

  lemma RejectedOnPlan(cfg: Config, s: State, d: Decoded, orig: seq<string>, start: nat, whole: Plan)
    requires d.Rejected? && s.next <= |s.argv|
    requires Completes(cfg, s, orig, start, whole, ScanDecoded(cfg, d, s.argv[s.next..]))
    ensures EndsOnPlan(s, BadOption, orig, start, whole)
  {
  }

  lemma StepLongIs(cfg: Config, s: State, text: string)
    requires Valid(cfg, s) && s.next < |s.argv|
    ensures var t := s.(next := s.next + 1, argEbadkey := false); var d := DecodeLong(cfg.groups, text, t.argv[t.next..]);
            && (d.Use? || d.Rejected?) && (d.Use? ==> d.group < |cfg.groups| && (d.took ==> t.next < |t.argv|))
            && StepLong(cfg, s, text) == if d.Use? then Dispatch(cfg, t, d) else (t, BadOption)
  {
  }

  lemma LastShortStep(cfg: Config, s: State, orig: seq<string>, start: nat, whole: Plan)
    requires Scanning(cfg, s, orig, start, whole) && s.nextchar != "" && StepShort(cfg, s).1 != More
    ensures EndsOnPlan(StepShort(cfg, s).0, StepShort(cfg, s).1, orig, start, whole)
  {
    var d := DecodeShort(cfg.groups, s.nextchar, s.argv[s.next..]);
    assert Future(cfg, s) == ScanDecoded(cfg, d, s.argv[s.next..]);
    if d.Use? {
      RefusedOnPlan(cfg, s, d, orig, start, whole);
    }
  }

  lemma LastLongStep(cfg: Config, s: State, text: string, orig: seq<string>, start: nat, whole: Plan)
    requires Scanning(cfg, s, orig, start, whole) && s.next < |s.argv| && s.nextchar == ""
    requires var k := Classify(cfg.longOnly, cfg.shortOpts, s.argv[s.next]); k == LongToken(text) || k == LongOnlyToken(text)
    requires StepLong(cfg, s, text).1 != More
    ensures EndsOnPlan(StepLong(cfg, s, text).0, StepLong(cfg, s, text).1, orig, start, whole)
  {
    var t := s.(next := s.next + 1, argEbadkey := false);
    var d := DecodeLong(cfg.groups, text, t.argv[t.next..]);
    LongPassed(cfg, s, text, orig, start, whole);
    StepLongIs(cfg, s, text);
    if d.Use? {
      RefusedOnPlan(cfg, t, d, orig, start, whole);
    } else {
      RejectedOnPlan(cfg, t, d, orig, start, whole);
    }
  }

  lemma LastArgStep(cfg: Config, s: State, orig: seq<string>, start: nat, whole: Plan)
    requires Arguing(cfg, s, orig, start, whole) && s.next < |s.argv| && ParseArg(cfg, s).1 != More
    ensures EndsOnPlan(ParseArg(cfg, s).0, ParseArg(cfg, s).1, orig, start, whole)
  {
    ParseArgKeepsArguing(cfg, s, orig, start, whole);
    OfferTrace(cfg, s.trace, 0, s.argv[s.next]);
  }

  lemma LastStepOnPlan(cfg: Config, s: State, orig: seq<string>, start: nat, whole: Plan)
    requires OnPlan(cfg, s, orig, start, whole) && Step(cfg, s).1 != More
    ensures EndsOnPlan(Step(cfg, s).0, Step(cfg, s).1, orig, start, whole)
  {
    if s.argsOnly {
      if s.next < |s.argv| {
        LastArgStep(cfg, s.(argEbadkey := true), orig, start, whole);
      }
    } else if s.nextchar != "" {
      LastShortStep(cfg, s, orig, start, whole);
    } else if s.next == |s.argv| {
      StepEndLaysOut(cfg, s, orig, start, whole);
      LastEnd(cfg, s, orig, start, whole);
    } else {
      match Classify(cfg.longOnly, cfg.shortOpts, s.argv[s.next]) {
        case LongToken(text) => LastLongStep(cfg, s, text, orig, start, whole);
        case LongOnlyToken(text) => LastLongStep(cfg, s, text, orig, start, whole);
        case _ =>
      }
    }
  }

  lemma LastEnd(cfg: Config, s: State, orig: seq<string>, start: nat, whole: Plan)
    requires Scanning(cfg, s, orig, start, whole) && s.nextchar == "" && s.next == |s.argv| && StepEnd(cfg, s).1 != More
    ensures EndsOnPlan(StepEnd(cfg, s).0, StepEnd(cfg, s).1, orig, start, whole)
  {
    assert Future(cfg, s) == NOTHING.(rest := s.argv[s.next..]);
    LayOutInPlace(cfg, s, orig, start, whole);
  }

  lemma {:induction false} RunOnPlan(cfg: Config, s: State, orig: seq<string>, start: nat, whole: Plan)
    requires OnPlan(cfg, s, orig, start, whole)
    ensures EndsOnPlan(Run(cfg, s).0, Run(cfg, s).1, orig, start, whole)
    decreases !s.argsOnly, |s.argv| - s.next, |s.nextchar|
  {
    if Step(cfg, s).1 == More {
      StepProgress(cfg, s);
      StepOnPlan(cfg, s, orig, start, whole);
      RunOnPlan(cfg, Step(cfg, s).0, orig, start, whole);
    } else {
      LastStepOnPlan(cfg, s, orig, start, whole);
    }
  }

  /** B is A, or A with two adjacent blocks ending at NEXT or one further exchanged. */
  ghost predicate Rearranged(a: seq<string>, b: seq<string>, first: nat, last: nat, next: nat)
    requires first <= last <= next <= |a|
  {
    b == a || b == Rotated(a, first, last, next) || (next < |a| && b == Rotated(a, first, last, next + 1))
  }

  lemma RearrangedIsPermutation(a: seq<string>, b: seq<string>, first: nat, last: nat, next: nat)
    requires first <= last <= next <= |a| && Rearranged(a, b, first, last, next)
    ensures multiset(b) == multiset(a)
  {
    if b == Rotated(a, first, last, next) {
      RotatedPermutes(a, first, last, next);
    } else if b != a {
      RotatedPermutes(a, first, last, next + 1);
    }
  }

  lemma ParseArgKeepsArgv(cfg: Config, s: State)
    requires Valid(cfg, s) && s.next < |s.argv|
    ensures ParseArg(cfg, s).0.argv == s.argv
  {
  }

  lemma StepShortKeepsArgv(cfg: Config, s: State)
    requires Valid(cfg, s) && s.nextchar != ""
    ensures StepShort(cfg, s).0.argv == s.argv
  {
  }

  lemma StepLongKeepsArgv(cfg: Config, s: State, text: string)
    requires Valid(cfg, s) && s.next < |s.argv|
    ensures StepLong(cfg, s, text).0.argv == s.argv
  {
  }

  lemma StepArgRearranges(cfg: Config, s: State)
    requires Valid(cfg, s) && s.next < |s.argv| && !s.argsOnly
    ensures Rearranged(s.argv, StepArg(cfg, s).0.argv, s.first, s.last, s.next)
  {
    if cfg.ordering == ReturnInOrder {
      ParseArgKeepsArgv(cfg, s.(argEbadkey := true));
    }
  }

  lemma StepQuoteRearranges(cfg: Config, s: State)
    requires Valid(cfg, s) && s.next < |s.argv| && !s.argsOnly
    ensures Rearranged(s.argv, StepQuote(cfg, s).0.argv, s.first, s.last, s.next)
  {
  }

  lemma StepEndRearranges(cfg: Config, s: State)
    requires Valid(cfg, s)
    ensures Rearranged(s.argv, StepEnd(cfg, s).0.argv, s.first, s.last, s.next)
  {
  }

  /** A step leaves argv alone or exchanges the skipped block with the options after it. */
  lemma StepRearranges(cfg: Config, s: State)
    requires Valid(cfg, s)
    ensures Rearranged(s.argv, Step(cfg, s).0.argv, s.first, s.last, s.next)
  {
    if s.nextchar != "" {
      StepShortKeepsArgv(cfg, s);
    } else if s.argsOnly {
      if s.next < |s.argv| {
        ParseArgKeepsArgv(cfg, s.(argEbadkey := true));
      }
    } else if s.next < |s.argv| {
      match Classify(cfg.longOnly, cfg.shortOpts, s.argv[s.next]) {
        case ArgToken => StepArgRearranges(cfg, s);
        case QuoteToken => StepQuoteRearranges(cfg, s);
        case LongToken(text) => StepLongKeepsArgv(cfg, s, text);
        case LongOnlyToken(text) => StepLongKeepsArgv(cfg, s, text);
        case ShortToken(text) =>
      }
    } else {
      StepEndRearranges(cfg, s);
    }
  }

  /** The step over a "--" marks where what is quoted begins, and no other step moves the mark. */
  lemma QuoteMarks(cfg: Config, s: State)
    requires Valid(cfg, s) && Step(cfg, s).1 == More
    ensures var t := Step(cfg, s).0;
            if s.nextchar == "" && !s.argsOnly && s.next < |s.argv| && s.argv[s.next] == "--" then t.argsOnly && t.quoted == t.next
            else t.quoted == s.quoted
  {
  }

  lemma ArgsOnlyStays(cfg: Config, s: State)
    requires Valid(cfg, s) && s.argsOnly && Step(cfg, s).1 == More
    ensures Step(cfg, s).0.argsOnly
  {
  }

  /** T comes from S by a step that went on. */
  ghost predicate Follows(cfg: Config, s: State, t: State) {
    Valid(cfg, s) && Step(cfg, s) == (t, More)
  }

  /** A sequence of states in which each follows the one before. */
  ghost predicate IsRun(cfg: Config, run: seq<State>) {
    forall i, j | 0 <= i && j == i + 1 && j < |run| :: Follows(cfg, run[i], run[j])
  }

  lemma RunFollows(cfg: Config, run: seq<State>, i: nat)
    requires IsRun(cfg, run) && 0 < i < |run|
    ensures Follows(cfg, run[i - 1], run[i])
  {
    var j := i - 1;
    assert Follows(cfg, run[j], run[i]);
  }

  lemma FollowsOnPlan(cfg: Config, s: State, t: State, orig: seq<string>, start: nat, whole: Plan)
    requires Follows(cfg, s, t) && OnPlan(cfg, s, orig, start, whole)
    ensures OnPlan(cfg, t, orig, start, whole) && multiset(t.argv) == multiset(s.argv)
  {
    StepOnPlan(cfg, s, orig, start, whole);
    StepRearranges(cfg, s);
    RearrangedIsPermutation(s.argv, t.argv, s.first, s.last, s.next);
  }

  lemma {:induction false} RunStaysOnPlan(cfg: Config, run: seq<State>, i: nat, orig: seq<string>, start: nat, whole: Plan)
    requires IsRun(cfg, run) && i < |run| && OnPlan(cfg, run[0], orig, start, whole)
    ensures OnPlan(cfg, run[i], orig, start, whole) && multiset(run[i].argv) == multiset(run[0].argv)
  {
    if i > 0 {
      RunStaysOnPlan(cfg, run, i - 1, orig, start, whole);
      RunFollows(cfg, run, i);
      FollowsOnPlan(cfg, run[i - 1], run[i], orig, start, whole);
    }
  }

  /** At every point of a PERMUTE or REQUIRE_ORDER run: argv is a permutation of the original;
      while options are looked for, everything from NEXT on is untouched; and once they are
      not, argv is the plan laid out and NEXT is past its option part and the arguments delivered. */
  lemma EveryState(cfg: Config, run: seq<State>, i: nat)
    requires IsRun(cfg, run) && i < |run| && Fresh(cfg, run[0]) && cfg.ordering != ReturnInOrder
    ensures var s, t := run[0], run[i]; var whole := Scan(cfg, "", s.argv[s.next..]);
            && multiset(t.argv) == multiset(s.argv)
            && t.first <= t.last <= t.next <= |t.argv| == |s.argv|
            && (!t.argsOnly ==> t.argv[t.next..] == s.argv[t.next..] && t.argv[..s.next] == s.argv[..s.next])
            && (t.argsOnly ==> LaidOut(t.argv, s.argv, s.next, whole) && s.next + |whole.opts| <= t.next)
            && (t.argsOnly && !TookAll(t.trace) ==> t.next == s.next + |whole.opts| + |Delivered(t.trace)|)
  {
    var s := run[0];
    FreshIsScanning(cfg, s);
    RunStaysOnPlan(cfg, run, i, s.argv, s.next, Scan(cfg, "", s.argv[s.next..]));
  }

  /** The whole run: its outcome, the final argv, the option calls and the arguments delivered
      are those of the plan. */
  lemma PermuteRun(cfg: Config, s: State)
    requires Fresh(cfg, s) && cfg.ordering != ReturnInOrder
    ensures EndsOnPlan(Run(cfg, s).0, Run(cfg, s).1, s.argv, s.next, Scan(cfg, "", s.argv[s.next..]))
  {
    FreshIsScanning(cfg, s);
    RunOnPlan(cfg, s, s.argv, s.next, Scan(cfg, "", s.argv[s.next..]));
  }
}
