/** The counts of arguments that groups have processed. */
module ArgpAccounting {
  import opened Maybes
  import opened ArgpLookup
  import opened ArgpParser
  import opened ArgpScan
  import opened ArgpModes
  import opened ArgpRuns
  import opened ArgpLifecycle

  /** Some ARG or ARGS call of group G succeeded. */
  ghost predicate Accepted(trace: seq<Call>, g: nat) {
    exists c <- trace :: c.group == g && IsArgKey(c.key) && c.reply == Zero
  }

  function Sum(s: seq<nat>): nat {
    if s == [] then 0 else s[0] + Sum(s[1..])
  }

  lemma SumUpdate(s: seq<nat>, i: nat, k: nat)
    requires i < |s|
    ensures Sum(s[i := s[i] + k]) == Sum(s) + k
  {
    if i > 0 {
      SumUpdate(s[1..], i - 1, k);
      assert s[i := s[i] + k][1..] == s[1..][i - 1 := s[1..][i - 1] + k];
    }
  }

  /** A group's count is zero exactly when it accepted nothing, and as long as arguments are taken
      one by one the counts add up to the number of arguments delivered. */
  ghost predicate Counted(cfg: Config, s: State) {
    && |s.processed| == |cfg.groups|
    && (forall g: nat :: g < |cfg.groups| ==> (s.processed[g] == 0 <==> !Accepted(s.trace, g)))
    && (!TookAll(s.trace) ==> Sum(s.processed) == |Delivered(s.trace)|)
  }

  lemma AcceptedAppend(trace: seq<Call>, c: Call, g: nat)
    ensures Accepted(trace + [c], g) <==> Accepted(trace, g) || (c.group == g && IsArgKey(c.key) && c.reply == Zero)
  {
    if Accepted(trace, g) {
      var d :| d in trace && d.group == g && IsArgKey(d.key) && d.reply == Zero;
      assert d in trace + [c];
    }
    assert c in trace + [c];
  }

  lemma OfferAccepts(cfg: Config, trace: seq<Call>, h: nat, value: string, g: nat)
    requires h <= |cfg.groups|
    ensures var o := OfferArg(cfg, trace, h, value);
            Accepted(o.trace, g) <==> Accepted(trace, g) || (o.error == Zero && o.group == g)
    decreases |cfg.groups| - h
  {
    if h < |cfg.groups| {
      var (e1, t1) := GroupParse(cfg, trace, h, KeyArg, Some(value));
      AcceptedAppend(trace, Call(h, KeyArg, Some(value), e1), g);
      if e1 == BadKey {
        var (e2, t2) := GroupParse(cfg, t1, h, KeyArgs, None);
        AcceptedAppend(t1, Call(h, KeyArgs, None, e2), g);
        if e2 == BadKey {
          OfferAccepts(cfg, t2, h + 1, value, g);
        }
      }
    }
  }

  lemma ParseArgAccepts(cfg: Config, s: State, g: nat)
    requires Valid(cfg, s) && s.next < |s.argv| && g < |cfg.groups|
    requires s.processed[g] == 0 <==> !Accepted(s.trace, g)
    ensures var t := ParseArg(cfg, s).0; |t.processed| == |cfg.groups| && (t.processed[g] == 0 <==> !Accepted(t.trace, g))
  {
    OfferAccepts(cfg, s.trace, 0, s.argv[s.next], g);
  }

  lemma ParseArgSum(cfg: Config, s: State)
    requires Valid(cfg, s) && s.next < |s.argv|
    requires !TookAll(s.trace) ==> Sum(s.processed) == |Delivered(s.trace)|
    ensures var t := ParseArg(cfg, s).0; !TookAll(t.trace) ==> Sum(t.processed) == |Delivered(t.trace)|
  {
    var o := OfferArg(cfg, s.trace, 0, s.argv[s.next]);
    OfferTrace(cfg, s.trace, 0, s.argv[s.next]);
    ParseArgCounts(cfg, s);
    if o.error == Zero {
      SumUpdate(s.processed, o.group, (if o.key == KeyArgs then |s.argv| else s.next + 1) - s.next);
    }
  }

  lemma ParseArgCounts(cfg: Config, s: State)
    requires Valid(cfg, s) && s.next < |s.argv|
    ensures var o := OfferArg(cfg, s.trace, 0, s.argv[s.next]); var t := ParseArg(cfg, s).0;
            && t.trace == o.trace
            && t.processed == if o.error != Zero then s.processed else
                 s.processed[o.group := s.processed[o.group] + ((if o.key == KeyArgs then |s.argv| else s.next + 1) - s.next)]
  {
  }

  lemma ParseArgCounted(cfg: Config, s: State)
    requires Valid(cfg, s) && s.next < |s.argv| && Counted(cfg, s)
    ensures Counted(cfg, ParseArg(cfg, s).0)
  {
    ParseArgSum(cfg, s);
    forall g: nat | g < |cfg.groups|
      ensures var t := ParseArg(cfg, s).0; |t.processed| == |cfg.groups| && (t.processed[g] == 0 <==> !Accepted(t.trace, g))
    {
      ParseArgAccepts(cfg, s, g);
    }
  }

  lemma DispatchCounted(cfg: Config, s: State, d: Decoded)
    requires d.Use? && d.group < |cfg.groups| && Counted(cfg, s)
    ensures Counted(cfg, Dispatch(cfg, s, d).0)
  {
    var e := cfg.user(s.trace, d.group, KeyOption(d.key), d.value);
    var c := Call(d.group, KeyOption(d.key), d.value, e);
    forall g: nat | g < |cfg.groups|
      ensures Accepted(s.trace + [c], g) <==> Accepted(s.trace, g)
    {
      AcceptedAppend(s.trace, c, g);
    }
    assert (s.trace + [c])[..|s.trace|] == s.trace;
    assert TookAll(s.trace + [c]) <==> TookAll(s.trace);
  }

  lemma StepShortCounted(cfg: Config, s: State)
    requires Valid(cfg, s) && s.nextchar != "" && Counted(cfg, s)
    ensures Counted(cfg, StepShort(cfg, s).0)
  {
    var d := DecodeShort(cfg.groups, s.nextchar, s.argv[s.next..]);
    if d.Use? {
      DispatchCounted(cfg, s, d);
    }
  }

  lemma StepCounted(cfg: Config, s: State)
    requires Valid(cfg, s) && Counted(cfg, s)
    ensures Counted(cfg, Step(cfg, s).0)
  {
    if Quiet(cfg, s) {
      QuietStep(cfg, s);
    } else if s.nextchar != "" {
      StepShortCounted(cfg, s);
    } else if s.next < |s.argv| {
      var t := s.(argEbadkey := true);
      if s.argsOnly {
        ParseArgCounted(cfg, t);
      } else {
        match Classify(cfg.longOnly, cfg.shortOpts, s.argv[s.next]) {
          case ArgToken => ParseArgCounted(cfg, t);
          case LongToken(text) => StepLongCounted(cfg, s, text);
          case LongOnlyToken(text) => StepLongCounted(cfg, s, text);
        }
      }
    }
  }

  lemma CountedPassed(cfg: Config, s: State)
    requires Counted(cfg, s)
    ensures Counted(cfg, s.(next := s.next + 1, argEbadkey := false))
  {
  }

  lemma StepLongCounted(cfg: Config, s: State, text: string)
    requires Valid(cfg, s) && s.next < |s.argv| && Counted(cfg, s)
    ensures Counted(cfg, StepLong(cfg, s, text).0)
  {
    var t := s.(next := s.next + 1, argEbadkey := false);
    var d := DecodeLong(cfg.groups, text, t.argv[t.next..]);
    CountedPassed(cfg, s);
    assert StepLong(cfg, s, text).0 == if d.Use? then Dispatch(cfg, t, d).0 else t;
    if d.Use? {
      DispatchCounted(cfg, t, d);
    }
  }

  lemma {:induction false} RunCounted(cfg: Config, s: State)
    requires Valid(cfg, s) && Counted(cfg, s)
    ensures Counted(cfg, Run(cfg, s).0)
    decreases !s.argsOnly, |s.argv| - s.next, |s.nextchar|
  {
    StepCounted(cfg, s);
    var (t, o) := Step(cfg, s);
    if o == More {
      StepProgress(cfg, s);
      RunCounted(cfg, t);
    }
  }

  // ---------- NO_ARGS ----------

  ghost predicate NoKey(trace: seq<Call>, key: Key) {
    forall c <- trace :: c.key != key
  }

  /** Sweeps with KEY add only KEY calls, to groups of ORDER. */
  lemma {:induction false} SweepCalls(cfg: Config, trace: seq<Call>, order: seq<nat>, key: Key)
    requires InRange(order, |cfg.groups|)
    ensures forall c <- Sweep(cfg, trace, order, key).1 :: c in trace || (c.key == key && c.group in order)
    decreases |order|
  {
    if order != [] {
      var (e, t) := GroupParse(cfg, trace, order[0], key, None);
      SweepCalls(cfg, t, order[1..], key);
    }
  }

  lemma {:induction false} SweepAllCalls(cfg: Config, trace: seq<Call>, order: seq<nat>, key: Key)
    requires InRange(order, |cfg.groups|)
    ensures forall c <- SweepAll(cfg, trace, order, key) :: c in trace || c.key == key
    decreases |order|
  {
    if order != [] {
      SweepAllCalls(cfg, GroupParse(cfg, trace, order[0], key, None).1, order[1..], key);
    }
  }

  lemma VerdictCalls(cfg: Config, s: State, err: Error, canReturn: bool)
    requires |s.processed| == |cfg.groups|
    ensures forall c <- Verdict(cfg, s, err, canReturn).1 ::
              c in s.trace || c.key == KeyEnd || (c.key == KeyNoArgs && c.group < |s.processed| && s.processed[c.group] == 0)
  {
    var order := Idle(s.processed);
    IdleAreIdle(s.processed);
    SweepCalls(cfg, s.trace, order, KeyNoArgs);
    SweepCalls(cfg, Sweep(cfg, s.trace, order, KeyNoArgs).1, Downwards(|cfg.groups|), KeyEnd);
  }

  lemma ConcludeCalls(cfg: Config, err: Error, trace: seq<Call>)
    ensures forall c <- Conclude(cfg, err, trace).1 :: c in trace || c.key == KeyError || c.key == KeySuccess || c.key == KeyFini
  {
    var n := |cfg.groups|;
    SweepAllCalls(cfg, trace, Upwards(n), KeyError);
    SweepCalls(cfg, trace, Downwards(n), KeySuccess);
    var t := if err != Zero then SweepAll(cfg, trace, Upwards(n), KeyError) else Sweep(cfg, trace, Downwards(n), KeySuccess).1;
    SweepAllCalls(cfg, t, Downwards(n), KeyFini);
  }

  lemma InitialCounts(cfg: Config, argv: seq<string>, parseArgv0: bool)
    requires Initialize(cfg, argv, parseArgv0).0 == Zero
    ensures var s := Initialize(cfg, argv, parseArgv0).1;
            Fresh(cfg, s) && Counted(cfg, s) && forall c <- s.trace :: c.key == KeyInit
  {
    var s := Initialize(cfg, argv, parseArgv0).1;
    SweepCalls(cfg, [], Upwards(|cfg.groups|), KeyInit);
    OnlyInit(s.trace);
    ZeroSum(s.processed);
  }

  lemma OnlyInit(trace: seq<Call>)
    requires forall c <- trace :: c.key == KeyInit
    ensures OptionCalls(trace) == [] && Delivered(trace) == [] && !TookAll(trace)
  {
  }

  lemma ZeroSum(s: seq<nat>)
    requires forall i :: 0 <= i < |s| ==> s[i] == 0
    ensures Sum(s) == 0
  {
  }

  /** A parsing function gets NO_ARGS only if it has accepted no argument. */
  lemma NoArgsOnlyToIdle(cfg: Config, argv: seq<string>, parseArgv0: bool, canReturn: bool)
    ensures var r := Parse(cfg, argv, parseArgv0, canReturn);
            r.Returned? ==> forall c <- r.trace :: c.key == KeyNoArgs ==> !Accepted(r.trace, c.group)
  {
    var (e, s) := Initialize(cfg, argv, parseArgv0);
    if e != Zero {
      SweepCalls(cfg, [], Upwards(|cfg.groups|), KeyInit);
    } else {
      var (t, o) := Run(cfg, s);
      InitialCounts(cfg, argv, parseArgv0);
      RunCounted(cfg, s);
      RunExtends(cfg, s);
      RunKeepsGroups(cfg, s);
      ExtendedKeys(cfg, s.trace, t.trace);
      VerdictCalls(cfg, t, ErrorOf(o), canReturn);
      var (e2, t2) := Verdict(cfg, t, ErrorOf(o), canReturn);
      ConcludeCalls(cfg, e2, t2);
      FinalAccepted(t.trace, Conclude(cfg, e2, t2).1);
    }
  }

  lemma ExtendedKeys(cfg: Config, s: seq<Call>, t: seq<Call>)
    requires Extends(cfg, s, t, true, true) && forall c <- s :: c.key == KeyInit
    ensures NoKey(t, KeyNoArgs)
  {
    assert t == s + t[|s|..];
  }

  lemma FinalAccepted(t: seq<Call>, final: seq<Call>)
    requires forall c <- final :: c in t || !IsArgKey(c.key)
    ensures forall g: nat :: Accepted(final, g) ==> Accepted(t, g)
  {
  }

  // ---------- the arguments consumed ----------

  /** The next step offers an argument to the groups. */
  predicate Offers(cfg: Config, s: State) {
    && s.nextchar == "" && s.next < |s.argv|
    && (s.argsOnly || (cfg.ordering == ReturnInOrder && Classify(cfg.longOnly, cfg.shortOpts, s.argv[s.next]) == ArgToken))
  }

  /** How many arguments the next step consumes: those it passes over, if it offers one and some parser accepts. */
  function ConsumedNext(cfg: Config, s: State): nat
    requires Valid(cfg, s)
  {
    if Offers(cfg, s) && Step(cfg, s).1 == More then
      OfferMovesOn(cfg, s);
      Step(cfg, s).0.next - s.next
    else 0
  }

  lemma OfferMovesOn(cfg: Config, s: State)
    requires Valid(cfg, s) && Offers(cfg, s)
    ensures s.next <= Step(cfg, s).0.next
  {
  }

  /** How many arguments the run from S on consumes. */
  function Consumed(cfg: Config, s: State): nat
    requires Valid(cfg, s)
    decreases !s.argsOnly, |s.argv| - s.next, |s.nextchar|
  {
    ConsumedNext(cfg, s) +
    if Step(cfg, s).1 != More then 0 else
      StepProgress(cfg, s);
      Consumed(cfg, Step(cfg, s).0)
  }

  lemma ParseArgConsumes(cfg: Config, s: State)
    requires Valid(cfg, s) && s.next < |s.argv|
    ensures var (t, o) := ParseArg(cfg, s);
            Sum(t.processed) == Sum(s.processed) + if o == More then t.next - s.next else 0
  {
    var o := OfferArg(cfg, s.trace, 0, s.argv[s.next]);
    ParseArgCounts(cfg, s);
    if o.error == Zero {
      SumUpdate(s.processed, o.group, (if o.key == KeyArgs then |s.argv| else s.next + 1) - s.next);
    }
  }

  lemma OptionCountsNothing(cfg: Config, s: State)
    requires Valid(cfg, s) && !Quiet(cfg, s) && !Offers(cfg, s)
    ensures Step(cfg, s).0.processed == s.processed
  {
  }

  lemma StepConsumes(cfg: Config, s: State)
    requires Valid(cfg, s)
    ensures Sum(Step(cfg, s).0.processed) == Sum(s.processed) + ConsumedNext(cfg, s)
  {
    if Quiet(cfg, s) {
      QuietStep(cfg, s);
    } else if Offers(cfg, s) {
      var t := s.(argEbadkey := true);
      ParseArgConsumes(cfg, t);
    } else {
      OptionCountsNothing(cfg, s);
    }
  }

  /** In every order, from every state and however the run ends: the counts grow by the arguments consumed,
      one by one or all at once. */
  lemma {:induction false} RunConsumes(cfg: Config, s: State)
    requires Valid(cfg, s)
    ensures Sum(Run(cfg, s).0.processed) == Sum(s.processed) + Consumed(cfg, s)
    decreases !s.argsOnly, |s.argv| - s.next, |s.nextchar|
  {
    StepConsumes(cfg, s);
    if Step(cfg, s).1 == More {
      StepProgress(cfg, s);
      RunConsumes(cfg, Step(cfg, s).0);
    }
  }

  /** Outside RETURN_IN_ORDER no argument is counted, and no call made on entering them, while options
      are looked for. */
  lemma ScanningCountsNothing(cfg: Config, s: State)
    requires Valid(cfg, s) && !s.argsOnly && cfg.ordering != ReturnInOrder
    ensures var (t, o) := Step(cfg, s);
            && t.processed == s.processed
            && (o == Done || (o == More && t.argsOnly) ==> t.trace == s.trace)
            && o != ArgRejected
  {
  }

  /** NEXT is past the options and the arguments counted. */
  ghost predicate CountedFrom(s: State, from: nat) {
    if s.argsOnly then s.next == from + Sum(s.processed) else Sum(s.processed) == 0
  }

  lemma ArgumentsBegin(s: State, argv: seq<string>, next: nat, from: nat)
    requires from <= next <= |argv| && Delivered(s.trace) == [] && !TookAll(s.trace)
    requires !TookAll(s.trace) ==> Delivered(s.trace) == argv[from..next]
    ensures next == from
  {
    assert |argv[from..next]| == next - from;
  }

  lemma StepCountedFrom(cfg: Config, s: State, orig: seq<string>, start: nat, whole: Plan)
    requires OnPlan(cfg, s, orig, start, whole) && CountedFrom(s, start + |whole.opts|) && Step(cfg, s).1 == More
    ensures CountedFrom(Step(cfg, s).0, start + |whole.opts|)
  {
    var t := Step(cfg, s).0;
    if s.argsOnly {
      StepConsumes(cfg, s);
      ArgsOnlyStays(cfg, s);
    } else {
      ScanningCountsNothing(cfg, s);
      StepOnPlan(cfg, s, orig, start, whole);
      if t.argsOnly {
        ArgumentsBegin(s, t.argv, t.next, start + |whole.opts|);
      }
    }
  }

  lemma LastCountedFrom(cfg: Config, s: State, orig: seq<string>, start: nat, whole: Plan)
    requires OnPlan(cfg, s, orig, start, whole) && CountedFrom(s, start + |whole.opts|)
    requires Step(cfg, s).1 == Done || Step(cfg, s).1 == ArgRejected
    ensures var t := Step(cfg, s).0; t.next == start + |whole.opts| + Sum(t.processed)
  {
    var t := Step(cfg, s).0;
    if s.argsOnly {
      StepConsumes(cfg, s);
    } else {
      ScanningCountsNothing(cfg, s);
      LastStepOnPlan(cfg, s, orig, start, whole);
      ArgumentsBegin(s, t.argv, t.next, start + |whole.opts|);
    }
  }

  lemma {:induction false} RunCountedFrom(cfg: Config, s: State, orig: seq<string>, start: nat, whole: Plan)
    requires OnPlan(cfg, s, orig, start, whole) && CountedFrom(s, start + |whole.opts|)
    requires Run(cfg, s).1 == Done || Run(cfg, s).1 == ArgRejected
    ensures var t := Run(cfg, s).0; t.next == start + |whole.opts| + Sum(t.processed)
    decreases !s.argsOnly, |s.argv| - s.next, |s.nextchar|
  {
    if Step(cfg, s).1 == More {
      StepProgress(cfg, s);
      StepOnPlan(cfg, s, orig, start, whole);
      StepCountedFrom(cfg, s, orig, start, whole);
      RunCountedFrom(cfg, Step(cfg, s).0, orig, start, whole);
    } else {
      LastCountedFrom(cfg, s, orig, start, whole);
    }
  }

  /** However a run ends, the counts add up to the arguments consumed, and as long as no parser took all at
      once, to the arguments delivered.  Outside RETURN_IN_ORDER, when the run ends normally, these are the
      elements between the options and NEXT. */
  lemma CountsAddUp(cfg: Config, s: State)
    requires Fresh(cfg, s) && Counted(cfg, s)
    ensures var (t, o) := Run(cfg, s);
            && Sum(t.processed) == Consumed(cfg, s)
            && (!TookAll(t.trace) ==> Sum(t.processed) == |Delivered(t.trace)|)
            && (cfg.ordering != ReturnInOrder && (o == Done || o == ArgRejected) ==>
                  t.next == s.next + |Scan(cfg, "", s.argv[s.next..]).opts| + Sum(t.processed))
  {
    RunCounted(cfg, s);
    RunConsumes(cfg, s);
    if cfg.ordering != ReturnInOrder && (Run(cfg, s).1 == Done || Run(cfg, s).1 == ArgRejected) {
      FreshIsScanning(cfg, s);
      RunCountedFrom(cfg, s, s.argv, s.next, Scan(cfg, "", s.argv[s.next..]));
    }
  }
}
