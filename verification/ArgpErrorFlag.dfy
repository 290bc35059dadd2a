/** The arg_ebadkey flag: does an EBADKEY come from an argument that nobody wants (which is not
    an error when the caller takes the arguments left over), or from an option? */
module ArgpErrorFlag {
  import opened Maybes
  import opened ArgpTypes
  import opened ArgpLookup
  import opened ArgpParser
  import opened ArgpRuns
  import opened ArgpLifecycle

  /** The flag says what its description promises. */
  predicate FlagRight(t: State, o: Outcome) {
    t.argEbadkey <==> o == Done || o == ArgRejected
  }

  /** The next thing to do is to call the parser of a short option. */
  predicate ShortOptionNext(cfg: Config, s: State)
    requires s.next <= |s.argv|
  {
    s.nextchar != "" && DecodeShort(cfg.groups, s.nextchar, s.argv[s.next..]).Use?
  }

  /** A step that gives EBADKEY gets the flag right exactly when it does not call the parser of a
      short option while the flag is still set: that branch returns without touching the flag. */
  lemma FlagStep(cfg: Config, s: State)
    requires Valid(cfg, s) && Step(cfg, s).1 != Abort && ErrorOf(Step(cfg, s).1) == BadKey
    ensures FlagRight(Step(cfg, s).0, Step(cfg, s).1) <==>
            !(ShortOptionNext(cfg, s) && s.argEbadkey)
  {
  }

  datatype Kind = ArgumentStep | LongStep | OtherStep

  function KindOf(cfg: Config, s: State): Kind {
    if s.nextchar != "" || s.argsOnly || s.next >= |s.argv| then OtherStep
    else match Classify(cfg.longOnly, cfg.shortOpts, s.argv[s.next])
      case ArgToken => ArgumentStep
      case LongToken(_) => LongStep
      case LongOnlyToken(_) => LongStep
      case _ => OtherStep
  }

  /** An argument was met before step N, and no long option after it. */
  ghost predicate ArgumentSinceLong(cfg: Config, run: seq<State>, n: nat)
    requires n < |run|
  {
    exists i :: 0 <= i < n && KindOf(cfg, run[i]) == ArgumentStep && forall j :: i < j < n ==> KindOf(cfg, run[j]) != LongStep
  }

  lemma FlagMoves(cfg: Config, s: State)
    requires Valid(cfg, s) && !s.argsOnly && Step(cfg, s).1 == More && !Step(cfg, s).0.argsOnly
    ensures Step(cfg, s).0.argEbadkey ==
            match KindOf(cfg, s)
              case ArgumentStep => cfg.ordering == ReturnInOrder || s.argEbadkey
              case LongStep => false
              case OtherStep => s.argEbadkey
  {
  }

  /** While options are looked for the flag is set exactly in RETURN_IN_ORDER, when an argument has
      been met since the last long option. */
  lemma {:induction false} FlagMeaning(cfg: Config, run: seq<State>, n: nat)
    requires IsRun(cfg, run) && n < |run| && !run[0].argEbadkey && !run[n].argsOnly
    ensures run[n].argEbadkey <==> cfg.ordering == ReturnInOrder && ArgumentSinceLong(cfg, run, n)
  {
    if n > 0 {
      var s := run[n - 1];
      assert Follows(cfg, s, run[n]);
      if s.argsOnly {
        ArgsOnlyStays(cfg, s);
      } else {
        FlagMeaning(cfg, run, n - 1);
        FlagMoves(cfg, s);
        SinceLongStep(cfg, run, n);
      }
    }
  }

  lemma SinceLongStep(cfg: Config, run: seq<State>, n: nat)
    requires 0 < n < |run|
    ensures ArgumentSinceLong(cfg, run, n) <==>
            match KindOf(cfg, run[n - 1])
              case ArgumentStep => true
              case LongStep => false
              case OtherStep => ArgumentSinceLong(cfg, run, n - 1)
  {
    if KindOf(cfg, run[n - 1]) == OtherStep {
      if ArgumentSinceLong(cfg, run, n - 1) {
        var i :| 0 <= i < n - 1 && KindOf(cfg, run[i]) == ArgumentStep && forall j :: i < j < n - 1 ==> KindOf(cfg, run[j]) != LongStep;
        assert forall j :: i < j < n ==> KindOf(cfg, run[j]) != LongStep;
      }
      if ArgumentSinceLong(cfg, run, n) {
        var i :| 0 <= i < n && KindOf(cfg, run[i]) == ArgumentStep && forall j :: i < j < n ==> KindOf(cfg, run[j]) != LongStep;
        assert i < n - 1 && forall j :: i < j < n - 1 ==> KindOf(cfg, run[j]) != LongStep;
      }
    }
  }

  /** The exact condition, for every run that ends in EBADKEY after the states RUN: the flag is
      wrong exactly when RETURN_IN_ORDER met an argument, then no long option, and a short option
      comes last. */
  lemma FlagRightIff(cfg: Config, run: seq<State>)
    requires IsRun(cfg, run) && run != [] && !run[0].argEbadkey && Valid(cfg, run[|run| - 1])
    requires var o := Step(cfg, run[|run| - 1]).1; o != Abort && ErrorOf(o) == BadKey
    ensures var s := run[|run| - 1]; var (t, o) := Step(cfg, s);
            FlagRight(t, o) <==>
            !(ShortOptionNext(cfg, s) && cfg.ordering == ReturnInOrder && ArgumentSinceLong(cfg, run, |run| - 1))
  {
    var s := run[|run| - 1];
    FlagStep(cfg, s);
    if s.nextchar != "" {
      FlagMeaning(cfg, run, |run| - 1);
    }
  }

  // ---------- what becomes of the parse ----------

  /** The states of a run from S on. */
  function States(cfg: Config, s: State): (run: seq<State>)
    requires Valid(cfg, s)
    ensures run != []
    decreases !s.argsOnly, |s.argv| - s.next, |s.nextchar|
  {
    var (t, o) := Step(cfg, s);
    if o != More then [s] else
      StepProgress(cfg, s);
      [s] + States(cfg, t)
  }

  lemma {:induction false} StatesAreRun(cfg: Config, s: State)
    requires Valid(cfg, s)
    ensures var run := States(cfg, s);
            && IsRun(cfg, run) && run[0] == s
            && Valid(cfg, run[|run| - 1]) && Step(cfg, run[|run| - 1]) == Run(cfg, s)
    decreases !s.argsOnly, |s.argv| - s.next, |s.nextchar|
  {
    var (t, o) := Step(cfg, s);
    if o == More {
      StepProgress(cfg, s);
      StatesAreRun(cfg, t);
      LongerRun(cfg, s, States(cfg, t));
    }
  }

  lemma LongerRun(cfg: Config, s: State, run: seq<State>)
    requires run != [] && IsRun(cfg, run) && Follows(cfg, s, run[0])
    ensures IsRun(cfg, [s] + run)
  {
    var all := [s] + run;
    forall i, j | 0 <= i && j == i + 1 && j < |all|
      ensures Follows(cfg, all[i], all[j])
    {
      if i > 0 {
        assert all[i] == run[i - 1] && all[j] == run[j - 1];
      }
    }
  }

  /** No parsing function failed; answers to FINI are never looked at. */
  ghost predicate NoFailure(calls: seq<Call>) {
    forall c <- calls :: c.key != KeyFini ==> !c.reply.Hard?
  }

  /** T is S and more calls, and OK says that none of these failed. */
  ghost predicate Adds(s: seq<Call>, t: seq<Call>, ok: bool) {
    s <= t && (ok <==> NoFailure(t[|s|..]))
  }

  lemma AddsBoth(s: seq<Call>, t: seq<Call>, u: seq<Call>, a: bool, b: bool)
    requires Adds(s, t, a) && Adds(t, u, b)
    ensures Adds(s, u, a && b)
  {
    assert u[|s|..] == t[|s|..] + u[|t|..];
  }

  lemma {:induction false} SweepAnswers(cfg: Config, trace: seq<Call>, order: seq<nat>, key: Key)
    requires InRange(order, |cfg.groups|) && key != KeyFini
    ensures Adds(trace, Sweep(cfg, trace, order, key).1, Sweep(cfg, trace, order, key).0 == Zero)
    decreases |order|
  {
    if order != [] {
      var (e, t) := GroupParse(cfg, trace, order[0], key, None);
      assert Adds(trace, t, !e.Hard?) by { assert t[|trace|..] == if cfg.groups[order[0]].parser then [Call(order[0], key, None, e)] else []; }
      if !e.Hard? {
        SweepAnswers(cfg, t, order[1..], key);
        AddsBoth(trace, t, Sweep(cfg, t, order[1..], key).1, true, Sweep(cfg, t, order[1..], key).0 == Zero);
      }
    }
  }

  lemma {:induction false} FiniAdds(cfg: Config, trace: seq<Call>, order: seq<nat>)
    requires InRange(order, |cfg.groups|)
    ensures Adds(trace, SweepAll(cfg, trace, order, KeyFini), true)
    decreases |order|
  {
    if order != [] {
      var (e, t) := GroupParse(cfg, trace, order[0], KeyFini, None);
      assert Adds(trace, t, true) by { assert t[|trace|..] == if cfg.groups[order[0]].parser then [Call(order[0], KeyFini, None, e)] else []; }
      FiniAdds(cfg, t, order[1..]);
      AddsBoth(trace, t, SweepAll(cfg, t, order[1..], KeyFini), true, true);
    }
  }

  lemma {:induction false} SweepAllExtends(cfg: Config, trace: seq<Call>, order: seq<nat>, key: Key)
    requires InRange(order, |cfg.groups|)
    ensures trace <= SweepAll(cfg, trace, order, key)
    decreases |order|
  {
    if order != [] {
      SweepAllExtends(cfg, GroupParse(cfg, trace, order[0], key, None).1, order[1..], key);
    }
  }

  lemma EndAdds(cfg: Config, s: State)
    requires |s.processed| == |cfg.groups|
    ensures Adds(s.trace, EndCalls(cfg, s).1, EndCalls(cfg, s).0 == Zero)
  {
    var (e, t) := Sweep(cfg, s.trace, Idle(s.processed), KeyNoArgs);
    SweepAnswers(cfg, s.trace, Idle(s.processed), KeyNoArgs);
    if e == Zero {
      var (e2, u) := Sweep(cfg, t, Downwards(|cfg.groups|), KeyEnd);
      SweepAnswers(cfg, t, Downwards(|cfg.groups|), KeyEnd);
      AddsBoth(s.trace, t, u, true, e2 == Zero);
    }
  }

  /** Once the first half of parser_finalize calls the parse a success, only a failing SUCCESS call
      changes that. */
  lemma SuccessAdds(cfg: Config, s: seq<Call>, trace: seq<Call>)
    requires Adds(s, trace, true)
    ensures var (e, t) := Conclude(cfg, Zero, trace); Adds(s, t, e == Zero)
  {
    var down := Downwards(|cfg.groups|);
    var (e, t) := Sweep(cfg, trace, down, KeySuccess);
    SweepAnswers(cfg, trace, down, KeySuccess);
    FiniAdds(cfg, t, down);
    AddsBoth(s, trace, t, true, e == Zero);
    AddsBoth(s, t, SweepAll(cfg, t, down, KeyFini), e == Zero, true);
  }

  /** A failure before the second half of parser_finalize stays one of the failures of the parse. */
  lemma FailureAdds(cfg: Config, s: seq<Call>, trace: seq<Call>, err: Error)
    requires Adds(s, trace, false) && err != Zero
    ensures var (e, t) := Conclude(cfg, err, trace); e != Zero && Adds(s, t, false)
  {
    var n := |cfg.groups|;
    var t := SweepAll(cfg, trace, Upwards(n), KeyError);
    SweepAllExtends(cfg, trace, Upwards(n), KeyError);
    SweepAllExtends(cfg, t, Downwards(n), KeyFini);
    var u := SweepAll(cfg, t, Downwards(n), KeyFini);
    assert u[|s|..] == trace[|s|..] + u[|trace|..];
  }

  /** parser_finalize after EBADKEY from an option: zero exactly if the flag is set, the caller
      takes the arguments left over or there are none, and no parsing function fails after that. */
  lemma FinalizeRefused(cfg: Config, s: State, canReturn: bool)
    requires |s.processed| == |cfg.groups|
    ensures var (e, t) := Finalize(cfg, s, BadKey, canReturn);
            e == Zero <==> s.argEbadkey && (canReturn || s.next == |s.argv|) && Adds(s.trace, t, true)
  {
    var (e, t) := Verdict(cfg, s, BadKey, canReturn);
    if s.argEbadkey && (canReturn || s.next == |s.argv|) {
      EndAdds(cfg, s);
      assert Adds(s.trace, s.trace, true);
      assert Adds(s.trace, t, e == Zero);
      if e == Zero {
        SuccessAdds(cfg, s.trace, t);
      } else {
        FailureAdds(cfg, s.trace, t, e);
      }
    }
  }

  /** Every parse in which an option's own parser answers EBADKEY: argp_parse returns 0 all the same if
      and only if the option is a short one, RETURN_IN_ORDER met an argument and no long option after it,
      the caller takes the arguments left over or none are left, and no parsing function fails after that. */
  lemma RefusedParse(cfg: Config, argv: seq<string>, parseArgv0: bool, canReturn: bool)
    requires Initialize(cfg, argv, parseArgv0).0 == Zero
    requires Run(cfg, Initialize(cfg, argv, parseArgv0).1).1 == OptionRefused(BadKey)
    ensures var s := Initialize(cfg, argv, parseArgv0).1; var t := Run(cfg, s).0; var run := States(cfg, s);
            var r := Parse(cfg, argv, parseArgv0, canReturn);
            && r.Returned? && Valid(cfg, run[|run| - 1])
            && (r.error == Zero <==>
                && ShortOptionNext(cfg, run[|run| - 1])
                && cfg.ordering == ReturnInOrder && ArgumentSinceLong(cfg, run, |run| - 1)
                && (canReturn || t.next == |t.argv|)
                && Adds(t.trace, r.trace, true))
  {
    var s := Initialize(cfg, argv, parseArgv0).1;
    StatesAreRun(cfg, s);
    FlagRightIff(cfg, States(cfg, s));
    RunKeepsGroups(cfg, s);
    FinalizeRefused(cfg, Run(cfg, s).0, canReturn);
  }

  // ---------- an input on which it is wrong ----------

  const OPTION_X := ArgpOption(None, 'x' as int, false, false, false, false, false, 0)

  /** One group that takes every argument and no option. */
  const PICKY := Config([Group([OPTION_X], true)], ReturnInOrder, false, "",
                        (trace: seq<Call>, g: nat, key: Key, value: Maybe<string>) => if key.KeyOption? then BadKey else Zero)

  const PFX := ["p", "f", "-x"]

  // before "f", before "-x", within it, and after it
  const S0 := State(PFX, 1, 0, 0, 0, false, "", false, [0], [Call(0, KeyInit, None, Zero)])
  const S1 := S0.(next := 2, argEbadkey := true, processed := [1], trace := S0.trace + [Call(0, KeyArg, Some("f"), Zero)])
  const S2 := S1.(next := 3, nextchar := "x")
  const S3 := S2.(nextchar := "", trace := S2.trace + [Call(0, KeyOption('x' as int), None, BadKey)])

  lemma PickyStart()
    ensures Initialize(PICKY, PFX, false) == (Zero, S0)
  {
    var init, none := Call(0, KeyInit, None, Zero), [0][1..];
    assert Upwards(1) == [0] && none == [];
    assert GroupParse(PICKY, [], 0, KeyInit, None) == (Zero, [init]) by { assert [] + [init] == [init]; }
    assert Sweep(PICKY, [init], none, KeyInit) == (Zero, [init]);
    assert Sweep(PICKY, [], [0], KeyInit) == (Zero, [init]);
    assert Initialize(PICKY, PFX, false).1.processed == [0];
  }

  lemma PickyArgument()
    ensures Valid(PICKY, S0) && Step(PICKY, S0) == (S1, More)
  {
    assert Classify(false, "", "f") == ArgToken;
    assert OfferArg(PICKY, S0.trace, 0, "f") == Offer(Zero, 0, KeyArg, S1.trace);
    assert [0][0 := 1] == [1];
  }

  lemma PickyOption()
    ensures Valid(PICKY, S1) && Step(PICKY, S1) == (S2, More)
    ensures Valid(PICKY, S2) && Step(PICKY, S2) == (S3, OptionRefused(BadKey))
  {
    assert Classify(false, "", "-x") == ShortToken("x");
    assert Slots(PICKY.groups) == [Slot(0, OPTION_X)] by {
      assert SlotsFrom(PICKY.groups, 0, 1) == [];
    }
    assert FirstWithKey(Slots(PICKY.groups), 'x' as int) == Some(Slot(0, OPTION_X));
  }

  /** "p f -x" in RETURN_IN_ORDER: the refusal of -x is taken for a normal end, and the parse
      reports success to any caller, as no argument is left over. */
  lemma RefusalSwallowed(canReturn: bool)
    ensures var r := Parse(PICKY, ["p", "f", "-x"], false, canReturn); r.Returned? && r.error == Zero
    ensures var s := Initialize(PICKY, ["p", "f", "-x"], false).1; Run(PICKY, s).1 == OptionRefused(BadKey)
  {
    PickyStart();
    PickyArgument();
    PickyOption();
    assert Run(PICKY, S0) == (S3, OptionRefused(BadKey));
    PickyEnd(canReturn);
  }

  lemma PickyEnd(canReturn: bool)
    ensures Finalize(PICKY, S3, BadKey, canReturn).0 == Zero
  {
    assert Idle([1]) == [];
    assert Downwards(1) == [0];
  }
}
