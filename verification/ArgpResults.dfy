/** What a complete argp_parse gives its caller: the error, the permuted argv and the index of the first
    argument left over. */
module ArgpResults {
  import opened Maybes
  import opened ArgpParser
  import opened ArgpScan
  import opened ArgpRuns
  import opened ArgpLifecycle
  import opened ArgpAccounting
  import opened ArgpErrorFlag

  lemma RunEndsInError(cfg: Config, s: State)
    requires Valid(cfg, s)
    ensures ErrorOf(Run(cfg, s).1) != Zero
  {
    StatesAreRun(cfg, s);
    StepError(cfg, States(cfg, s)[|States(cfg, s)| - 1]);
  }

  /** Outside RETURN_IN_ORDER the flag is right at the end of every run. */
  lemma FlagRightAtEnd(cfg: Config, s: State)
    requires Valid(cfg, s) && cfg.ordering != ReturnInOrder && !s.argEbadkey
    requires Run(cfg, s).1 != Abort && ErrorOf(Run(cfg, s).1) == BadKey
    ensures FlagRight(Run(cfg, s).0, Run(cfg, s).1)
  {
    StatesAreRun(cfg, s);
    FlagRightIff(cfg, States(cfg, s));
  }

  lemma HardStays(cfg: Config, s: State, err: Error, canReturn: bool)
    requires |s.processed| == |cfg.groups| && err.Hard?
    ensures Finalize(cfg, s, err, canReturn).0 == err
  {
  }

  /** PERMUTE and REQUIRE_ORDER: argp_parse returns 0 if and only if no option and no argument failed, the
      caller takes the arguments left over or none are left, and no later call fails. */
  lemma SucceedsIff(cfg: Config, argv: seq<string>, parseArgv0: bool, canReturn: bool)
    requires cfg.ordering != ReturnInOrder
    requires Initialize(cfg, argv, parseArgv0).0 == Zero
    requires Run(cfg, Initialize(cfg, argv, parseArgv0).1).1 != Abort
    ensures var (t, o) := Run(cfg, Initialize(cfg, argv, parseArgv0).1);
            var r := Parse(cfg, argv, parseArgv0, canReturn);
            && r.Returned?
            && (r.error == Zero <==>
                && (o == Done || o == ArgRejected)
                && (canReturn || t.next == |t.argv|)
                && Adds(t.trace, r.trace, true))
  {
    var s := Initialize(cfg, argv, parseArgv0).1;
    var (t, o) := Run(cfg, s);
    RunKeepsGroups(cfg, s);
    RunEndsInError(cfg, s);
    if ErrorOf(o) == BadKey {
      FinalizeRefused(cfg, t, canReturn);
      FlagRightAtEnd(cfg, s);
    } else {
      HardStays(cfg, t, ErrorOf(o), canReturn);
    }
  }

  /** Every PERMUTE or REQUIRE_ORDER parse that returns 0: argv is the original, up to where scanning starts, then
      all options with their values, then the arguments, in order; all options were called; END_INDEX, if there is
      one, is past the options and the arguments consumed, and otherwise none is left; and unless some parser
      took all the rest at once, the arguments before it were delivered. */
  lemma SuccessfulParse(cfg: Config, argv: seq<string>, parseArgv0: bool, canReturn: bool)
    requires cfg.ordering != ReturnInOrder
    requires var r := Parse(cfg, argv, parseArgv0, canReturn); r.Returned? && r.error == Zero
    ensures var s := Initialize(cfg, argv, parseArgv0).1; var whole := Scan(cfg, "", argv[s.next..]);
            var (t, o) := Run(cfg, s); var first := s.next + |whole.opts|;
            && LaidOut(t.argv, argv, s.next, whole) && OptionCalls(t.trace) == whole.calls
            && EndIndex(t, ErrorOf(o), canReturn) == (if canReturn then Some(t.next) else None)
            && t.next == first + Sum(t.processed) <= |argv| && (!canReturn ==> t.next == |argv|)
            && (!TookAll(t.trace) ==> Delivered(t.trace) == t.argv[first..t.next])
  {
    var s := Initialize(cfg, argv, parseArgv0).1;
    InitialCounts(cfg, argv, parseArgv0);
    SucceedsIff(cfg, argv, parseArgv0, canReturn);
    PermuteRun(cfg, s);
    CountsAddUp(cfg, s);
    FlagRightAtEnd(cfg, s);
  }
}
