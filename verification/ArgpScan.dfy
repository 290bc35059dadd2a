/** What a whole run of the scanner does, against a single pass over the untouched argv. */
module ArgpScan {
  import opened Maybes
  import opened Sequences
  import opened ArgpExchange
  import opened ArgpLookup
  import opened ArgpParser

  datatype OptionCall = OptionCall(group: nat, key: int, value: Maybe<string>)

  datatype ScanEnd = Complete | BrokenOption | NonAscii

  /** What one left-to-right reading of an argv says: the elements that options (with the
      values they take) and the "--" occupy, the arguments met before the "--", everything
      after it, and the option calls to make. */
  datatype Plan = Plan(opts: seq<string>, nons: seq<string>, rest: seq<string>, calls: seq<OptionCall>, end: ScanEnd)

  /** The plan when OPTS more elements and CALL come first. */
  function Before(opts: seq<string>, calls: seq<OptionCall>, p: Plan): Plan {
    p.(opts := opts + p.opts, calls := calls + p.calls)
  }

  /** The reading of ARGS after the rest CLUSTER of a short-option element.  In RequireOrder
      the first argument acts as an implicit "--". */
  function Scan(cfg: Config, cluster: string, args: seq<string>): Plan
    decreases |args|, |cluster|, 0
  {
    if cluster != "" then
      ScanDecoded(cfg, DecodeShort(cfg.groups, cluster, args), args)
    else if args == [] then Plan([], [], [], [], Complete)
    else match Classify(cfg.longOnly, cfg.shortOpts, args[0])
      case ArgToken =>
        if cfg.ordering == RequireOrder then Plan([], [], args, [], Complete)
        else
          var p := Scan(cfg, "", args[1..]);
          p.(nons := [args[0]] + p.nons)
      case QuoteToken => Plan([args[0]], [], args[1..], [], Complete)
      case LongToken(text) =>
        Before([args[0]], [], ScanDecoded(cfg, DecodeLong(cfg.groups, text, args[1..]), args[1..]))
      case LongOnlyToken(text) =>
        Before([args[0]], [], ScanDecoded(cfg, DecodeLong(cfg.groups, text, args[1..]), args[1..]))
      case ShortToken(text) => Before([args[0]], [], Scan(cfg, text, args[1..]))
  }

  function ScanDecoded(cfg: Config, d: Decoded, args: seq<string>): Plan
    requires d.Use? && d.took ==> args != []
    decreases |args|, if d.Use? then |d.cluster| else 0, 1
  {
    match d
    case NotAscii => Plan([], [], [], [], NonAscii)
    case Rejected => Plan([], [], [], [], BrokenOption)
    case Use(g, k, v, c, took) =>
      Before(if took then [args[0]] else [], [OptionCall(g, k, v)], Scan(cfg, c, if took then args[1..] else args))
  }

  // ---------- the traces of calls ----------

  /** The option calls in a trace, in order. */
  function OptionCalls(trace: seq<Call>): seq<OptionCall> {
    if trace == [] then []
    else
      var c := trace[|trace| - 1];
      OptionCalls(trace[..|trace| - 1]) + if c.key.KeyOption? then [OptionCall(c.group, c.key.key, c.value)] else []
  }

  /** The arguments that some parsing function accepted, in order. */
  function Delivered(trace: seq<Call>): seq<string> {
    if trace == [] then []
    else
      var c := trace[|trace| - 1];
      Delivered(trace[..|trace| - 1]) + if c.key == KeyArg && c.value.Some? && c.reply == Zero then [c.value.value] else []
  }

  /** Some parsing function accepted all remaining arguments at once. */
  predicate TookAll(trace: seq<Call>) {
    exists c <- trace :: c.key == KeyArgs && c.reply == Zero
  }

  // ---------- scanning in the orders that leave arguments for later ----------

  function OptsSoFar(s: State, start: nat): seq<string>
    requires start <= s.next <= |s.argv| && s.first <= s.last <= s.next && (s.first != s.last ==> start <= s.first)
  {
    if s.first == s.last then s.argv[start..s.next] else s.argv[start..s.first] + s.argv[s.last..s.next]
  }

  function Skipped(s: State): seq<string>
    requires s.first <= s.last <= |s.argv|
  {
    s.argv[s.first..s.last]
  }

  /** The plan for what is still to be scanned. */
  function Future(cfg: Config, s: State): Plan
    requires s.next <= |s.argv|
  {
    Scan(cfg, s.nextchar, s.argv[s.next..])
  }

  /** The untouched ends of argv while it is being scanned. */
  ghost predicate Ends(cfg: Config, s: State, orig: seq<string>, start: nat) {
    && Valid(cfg, s) && !s.argsOnly
    && |s.argv| == |orig| && start <= s.next
    && s.argv[..start] == orig[..start] && s.argv[s.next..] == orig[s.next..]
    && (s.first != s.last ==> start <= s.first)
  }

  /** What has been done, followed by the plan F, is the plan WHOLE. */
  ghost predicate Completes(cfg: Config, s: State, orig: seq<string>, start: nat, whole: Plan, f: Plan) {
    && Ends(cfg, s, orig, start)
    && whole ==
       Plan(OptsSoFar(s, start) + f.opts, Skipped(s) + f.nons, f.rest, OptionCalls(s.trace) + f.calls, f.end)
    && Delivered(s.trace) == [] && !TookAll(s.trace)
  }

  ghost predicate Scanning(cfg: Config, s: State, orig: seq<string>, start: nat, whole: Plan) {
    && Ends(cfg, s, orig, start)
    && Completes(cfg, s, orig, start, whole, Future(cfg, s))
  }

  /** argv from START on is the plan laid out: options with their values, then the skipped
      arguments, then what follows the "--". */
  ghost predicate LaidOut(argv: seq<string>, orig: seq<string>, start: nat, whole: Plan) {
    && start <= |orig| && |argv| == |orig|
    && whole.end == Complete
    && argv == orig[..start] + whole.opts + whole.nons + whole.rest
  }

  /** Once argsOnly is set, NEXT walks over the arguments of the laid out argv. */
  ghost predicate Arguing(cfg: Config, s: State, orig: seq<string>, start: nat, whole: Plan) {
    && Valid(cfg, s) && s.argsOnly
    && LaidOut(s.argv, orig, start, whole)
    && OptionCalls(s.trace) == whole.calls
    && start + |whole.opts| <= s.next
    && (!TookAll(s.trace) ==> Delivered(s.trace) == s.argv[start + |whole.opts|..s.next])
  }

  lemma GroupParseOption(cfg: Config, trace: seq<Call>, d: Decoded)
    requires d.Use? && d.group < |cfg.groups|
    requires GroupParse(cfg, trace, d.group, KeyOption(d.key), d.value).0 == Zero
    ensures var t := GroupParse(cfg, trace, d.group, KeyOption(d.key), d.value).1;
            && OptionCalls(t) == OptionCalls(trace) + [OptionCall(d.group, d.key, d.value)]
            && Delivered(t) == Delivered(trace) && (TookAll(t) <==> TookAll(trace))
  {
  }

  lemma PassElement(cfg: Config, s: State, orig: seq<string>, start: nat, whole: Plan, f: Plan)
    requires s.next < |s.argv| && Completes(cfg, s, orig, start, whole, Before([s.argv[s.next]], [], f))
    ensures Completes(cfg, s.(next := s.next + 1), orig, start, whole, f)
  {
    var t := s.(next := s.next + 1);
    assert s.argv[s.next..] == [s.argv[s.next]] + t.argv[t.next..];
    assert orig[s.next..] == [orig[s.next]] + orig[t.next..];
    assert t.argv[t.next..] == orig[t.next..];
    assert OptsSoFar(t, start) == OptsSoFar(s, start) + [s.argv[s.next]];
    assert OptsSoFar(t, start) + f.opts == OptsSoFar(s, start) + ([s.argv[s.next]] + f.opts);
    assert OptionCalls(s.trace) + ([] + f.calls) == OptionCalls(s.trace) + f.calls;
  }

  lemma PassPlanned(cfg: Config, s: State, orig: seq<string>, start: nat, whole: Plan, now: Plan, f: Plan)
    requires s.next < |s.argv| && Completes(cfg, s, orig, start, whole, now) && now == Before([s.argv[s.next]], [], f)
    ensures Completes(cfg, s.(next := s.next + 1), orig, start, whole, f)
  {
    PassElement(cfg, s, orig, start, whole, f);
  }

  lemma MakeCall(cfg: Config, s: State, d: Decoded, orig: seq<string>, start: nat, whole: Plan, f: Plan)
    requires d.Use? && d.group < |cfg.groups|
    requires Completes(cfg, s, orig, start, whole, Before([], [OptionCall(d.group, d.key, d.value)], f))
    requires GroupParse(cfg, s.trace, d.group, KeyOption(d.key), d.value).0 == Zero
    ensures var trace := GroupParse(cfg, s.trace, d.group, KeyOption(d.key), d.value).1;
            Completes(cfg, s.(trace := trace, nextchar := d.cluster), orig, start, whole, f)
  {
    GroupParseOption(cfg, s.trace, d);
    var c := OptionCall(d.group, d.key, d.value);
    assert [] + f.opts == f.opts;
    assert OptionCalls(s.trace) + ([c] + f.calls) == OptionCalls(s.trace) + [c] + f.calls;
  }

  /** Calling a decoded option keeps the scanning invariant. */
  lemma DispatchKeepsScanning(cfg: Config, s: State, d: Decoded, orig: seq<string>, start: nat, whole: Plan)
    requires d.Use? && d.group < |cfg.groups| && (d.took ==> s.next < |s.argv|)
    requires Ends(cfg, s, orig, start)
    requires Completes(cfg, s, orig, start, whole, ScanDecoded(cfg, d, s.argv[s.next..]))
    requires Dispatch(cfg, s, d).1 == More
    ensures Scanning(cfg, Dispatch(cfg, s, d).0, orig, start, whole)
  {
    var c := [OptionCall(d.group, d.key, d.value)];
    if d.took {
      assert s.argv[s.next..][1..] == s.argv[s.next + 1..];
      var f := Scan(cfg, d.cluster, s.argv[s.next + 1..]);
      assert Before([s.argv[s.next]], c, f) == Before([s.argv[s.next]], [], Before([], c, f));
      PassElement(cfg, s, orig, start, whole, Before([], c, f));
      MakeCall(cfg, s.(next := s.next + 1), d, orig, start, whole, f);
    } else {
      MakeCall(cfg, s, d, orig, start, whole, Scan(cfg, d.cluster, s.argv[s.next..]));
    }
  }

  lemma LongFuture(cfg: Config, s: State, text: string)
    requires s.next < |s.argv| && s.nextchar == ""
    requires var k := Classify(cfg.longOnly, cfg.shortOpts, s.argv[s.next]); k == LongToken(text) || k == LongOnlyToken(text)
    ensures var args := s.argv[s.next + 1..];
            Future(cfg, s) == Before([s.argv[s.next]], [], ScanDecoded(cfg, DecodeLong(cfg.groups, text, args), args))
  {
    assert s.argv[s.next..][1..] == s.argv[s.next + 1..];
  }

  /** The long option itself has been passed, and what it says is next. */
  lemma LongPassed(cfg: Config, s: State, text: string, orig: seq<string>, start: nat, whole: Plan)
    requires Scanning(cfg, s, orig, start, whole) && s.next < |s.argv| && s.nextchar == ""
    requires var k := Classify(cfg.longOnly, cfg.shortOpts, s.argv[s.next]); k == LongToken(text) || k == LongOnlyToken(text)
    ensures var args := s.argv[s.next + 1..];
            Completes(cfg, s.(next := s.next + 1, argEbadkey := false), orig, start, whole,
                      ScanDecoded(cfg, DecodeLong(cfg.groups, text, args), args))
  {
    var args := s.argv[s.next + 1..];
    LongFuture(cfg, s, text);
    var f := ScanDecoded(cfg, DecodeLong(cfg.groups, text, args), args);
    PassPlannedFlag(cfg, s, orig, start, whole, Future(cfg, s), f);
  }

  lemma PassPlannedFlag(cfg: Config, s: State, orig: seq<string>, start: nat, whole: Plan, now: Plan, f: Plan)
    requires s.next < |s.argv| && Completes(cfg, s, orig, start, whole, now) && now == Before([s.argv[s.next]], [], f)
    ensures Completes(cfg, s.(next := s.next + 1, argEbadkey := false), orig, start, whole, f)
  {
    PassPlanned(cfg, s, orig, start, whole, now, f);
  }

  lemma StepLongKeepsScanning(cfg: Config, s: State, text: string, orig: seq<string>, start: nat, whole: Plan)
    requires Scanning(cfg, s, orig, start, whole) && s.next < |s.argv| && s.nextchar == ""
    requires var k := Classify(cfg.longOnly, cfg.shortOpts, s.argv[s.next]); k == LongToken(text) || k == LongOnlyToken(text)
    requires StepLong(cfg, s, text).1 == More
    ensures Scanning(cfg, StepLong(cfg, s, text).0, orig, start, whole)
  {
    var t := s.(next := s.next + 1, argEbadkey := false);
    var d := DecodeLong(cfg.groups, text, t.argv[t.next..]);
    LongPassed(cfg, s, text, orig, start, whole);
    assert d.Use? && StepLong(cfg, s, text) == Dispatch(cfg, t, d);
    DispatchKeepsScanning(cfg, t, d, orig, start, whole);
  }

  lemma StepClusterKeepsScanning(cfg: Config, s: State, text: string, orig: seq<string>, start: nat, whole: Plan)
    requires Scanning(cfg, s, orig, start, whole) && s.next < |s.argv| && s.nextchar == ""
    requires Classify(cfg.longOnly, cfg.shortOpts, s.argv[s.next]) == ShortToken(text)
    ensures Scanning(cfg, s.(next := s.next + 1, nextchar := text), orig, start, whole)
  {
    var f := Scan(cfg, text, s.argv[s.next + 1..]);
    ClusterFuture(cfg, s, text);
    PassPlanned(cfg, s, orig, start, whole, Future(cfg, s), f);
    NextcharDoesNotMatter(cfg, s.(next := s.next + 1), text, orig, start, whole, f);
  }

  lemma ClusterFuture(cfg: Config, s: State, text: string)
    requires s.next < |s.argv| && s.nextchar == ""
    requires Classify(cfg.longOnly, cfg.shortOpts, s.argv[s.next]) == ShortToken(text)
    ensures Future(cfg, s) == Before([s.argv[s.next]], [], Scan(cfg, text, s.argv[s.next + 1..]))
  {
    assert s.argv[s.next..][1..] == s.argv[s.next + 1..];
  }

  lemma NextcharDoesNotMatter(cfg: Config, s: State, text: string, orig: seq<string>, start: nat, whole: Plan, f: Plan)
    requires Completes(cfg, s, orig, start, whole, f)
    ensures Completes(cfg, s.(nextchar := text), orig, start, whole, f)
  {
  }

  // ---------- skipping an argument ----------

  /** exchange changes neither what has been scanned nor what was skipped; it only brings the
      skipped block next to the unscanned part. */
  lemma ExchangeKeepsPast(cfg: Config, s: State, orig: seq<string>, start: nat, whole: Plan, f: Plan)
    requires s.first != s.last && Completes(cfg, s, orig, start, whole, f)
    ensures var t := Exchange(cfg, s);
            && t.first != t.last && t.last == t.next == s.next
            && OptsSoFar(t, start) == OptsSoFar(s, start) && Skipped(t) == Skipped(s)
            && Completes(cfg, t, orig, start, whole, f)
  {
    var t := Exchange(cfg, s);
    assert t.argv[..start] == s.argv[..start];
    assert t.argv[s.next..] == s.argv[s.next..];
    assert OptsSoFar(t, start) == t.argv[start..t.first];
    assert t.argv[start..t.first] == OptsSoFar(s, start);
    assert Skipped(t) == Skipped(s);
  }

  /** The next argument joins the skipped ones. */
  function SkipOne(s: State): State {
    var first := if s.first == s.last then s.next else s.first;
    s.(first := first, last := s.next + 1, next := s.next + 1)
  }

  lemma SkipPlanned(cfg: Config, s: State, orig: seq<string>, start: nat, whole: Plan, now: Plan, f: Plan)
    requires cfg.ordering == Permute && s.next < |s.argv| && s.nextchar == ""
    requires s.first == s.last || s.last == s.next
    requires Completes(cfg, s, orig, start, whole, now) && now == f.(nons := [s.argv[s.next]] + f.nons)
    ensures Completes(cfg, SkipOne(s), orig, start, whole, f)
  {
    var t, y := SkipOne(s), s.argv[s.next];
    SkipEnds(cfg, s, orig, start);
    assert OptsSoFar(t, start) == OptsSoFar(s, start);
    assert Skipped(t) == Skipped(s) + [y];
    Assoc(Skipped(s), [y], f.nons);
  }

  lemma SkipEnds(cfg: Config, s: State, orig: seq<string>, start: nat)
    requires cfg.ordering == Permute && s.next < |s.argv| && s.nextchar == ""
    requires (s.first == s.last || s.last == s.next) && Ends(cfg, s, orig, start)
    ensures Ends(cfg, SkipOne(s), orig, start)
  {
    assert s.argv[s.next..][1..] == s.argv[s.next + 1..];
    assert orig[s.next..][1..] == orig[s.next + 1..];
  }

  lemma ArgFuture(cfg: Config, s: State)
    requires s.next < |s.argv| && s.nextchar == ""
    requires cfg.ordering == Permute && Classify(cfg.longOnly, cfg.shortOpts, s.argv[s.next]) == ArgToken
    ensures var f := Scan(cfg, "", s.argv[s.next + 1..]);
            Future(cfg, s) == f.(nons := [s.argv[s.next]] + f.nons)
  {
    assert s.argv[s.next..][1..] == s.argv[s.next + 1..];
  }

  /** The state in which the next argument adjoins the skipped ones. */
  function Adjoined(cfg: Config, s: State): State
    requires Valid(cfg, s)
  {
    if s.first != s.last && s.last != s.next then Exchange(cfg, s) else s
  }

  lemma AdjoinKeepsPast(cfg: Config, s: State, orig: seq<string>, start: nat, whole: Plan, f: Plan)
    requires s.next < |s.argv| && Completes(cfg, s, orig, start, whole, f)
    ensures var x := Adjoined(cfg, s);
            && Completes(cfg, x, orig, start, whole, f) && (x.first == x.last || x.last == x.next)
            && x.argv[s.next] == s.argv[s.next] && x.argv[s.next + 1..] == s.argv[s.next + 1..]
            && x == s.(argv := x.argv, first := x.first, last := x.last) && |x.argv| == |s.argv|
  {
    if s.first != s.last && s.last != s.next {
      ExchangeKeepsPast(cfg, s, orig, start, whole, f);
      ExchangeKeepsRest(cfg, s);
    }
  }

  lemma StepArgIs(cfg: Config, s: State)
    requires Valid(cfg, s) && !s.argsOnly && s.next < |s.argv| && cfg.ordering == Permute
    ensures StepArg(cfg, s).0 == SkipOne(Adjoined(cfg, s))
  {
  }

  /** Skipping an argument, whatever is planned after it. */
  lemma StepArgPlanned(cfg: Config, s: State, orig: seq<string>, start: nat, whole: Plan, now: Plan, f: Plan)
    requires cfg.ordering == Permute && s.next < |s.argv| && s.nextchar == ""
    requires Completes(cfg, s, orig, start, whole, now) && now == f.(nons := [s.argv[s.next]] + f.nons)
    ensures var t := StepArg(cfg, s).0;
            && Completes(cfg, t, orig, start, whole, f)
            && t.next == s.next + 1 && t.next <= |t.argv| && t.argv[t.next..] == s.argv[s.next + 1..] && t.nextchar == ""
  {
    var x := Adjoined(cfg, s);
    AdjoinKeepsPast(cfg, s, orig, start, whole, now);
    SkipPlanned(cfg, x, orig, start, whole, now, f);
    StepArgIs(cfg, s);
  }

  lemma StepArgKeepsScanning(cfg: Config, s: State, orig: seq<string>, start: nat, whole: Plan)
    requires Scanning(cfg, s, orig, start, whole) && s.next < |s.argv| && s.nextchar == ""
    requires cfg.ordering == Permute && Classify(cfg.longOnly, cfg.shortOpts, s.argv[s.next]) == ArgToken
    ensures Scanning(cfg, StepArg(cfg, s).0, orig, start, whole)
  {
    var f := Scan(cfg, "", s.argv[s.next + 1..]);
    ArgFuture(cfg, s);
    StepArgPlanned(cfg, s, orig, start, whole, Future(cfg, s), f);
    StillScanning(cfg, StepArg(cfg, s).0, orig, start, whole, f);
  }

  lemma StillScanning(cfg: Config, t: State, orig: seq<string>, start: nat, whole: Plan, f: Plan)
    requires Completes(cfg, t, orig, start, whole, f)
    requires t.nextchar == "" && f == Scan(cfg, "", t.argv[t.next..])
    ensures Scanning(cfg, t, orig, start, whole)
  {
  }

  lemma ExchangeKeepsRest(cfg: Config, s: State)
    requires Valid(cfg, s) && s.next < |s.argv|
    ensures var x := Exchange(cfg, s);
            x.argv[s.next] == s.argv[s.next] && x.argv[s.next + 1..] == s.argv[s.next + 1..] && |x.argv| == |s.argv|
  {
  }

  // ---------- from scanning to arguments ----------

  const NOTHING := Plan([], [], [], [], Complete)

  /** NOTHING is skipped: argv is laid out as it stands. */
  lemma LayOutInPlace(cfg: Config, s: State, orig: seq<string>, start: nat, whole: Plan)
    requires s.next <= |s.argv| && s.first == s.last
    requires Completes(cfg, s, orig, start, whole, NOTHING.(rest := s.argv[s.next..]))
    ensures LaidOut(s.argv, orig, start, whole) && s.next == start + |whole.opts|
  {
    assert whole.opts == s.argv[start..s.next] && whole.nons == [];
    ThreeParts(s.argv, start, s.next);
  }

  /** The skipped block is exchanged with the options after it. */
  lemma LayOutExchanged(cfg: Config, s: State, orig: seq<string>, start: nat, whole: Plan)
    requires s.next <= |s.argv| && s.first != s.last
    requires Completes(cfg, s, orig, start, whole, NOTHING.(rest := s.argv[s.next..]))
    ensures var x := Exchange(cfg, s); LaidOut(x.argv, orig, start, whole) && x.first == start + |whole.opts|
  {
    ghost var o := OptsSoFar(s, start);
    assert whole.opts == o && whole.nons == Skipped(s) && whole.rest == s.argv[s.next..];
    RotatedParts(s.argv, start, s.first, s.last, s.next);
  }

  lemma ThreeParts(a: seq<string>, start: nat, next: nat)
    requires start <= next <= |a|
    ensures a == a[..start] + a[start..next] + [] + a[next..]
  {
  }

  lemma RotatedParts(a: seq<string>, start: nat, first: nat, last: nat, next: nat)
    requires start <= first <= last <= next <= |a|
    ensures Rotated(a, first, last, next) == a[..start] + (a[start..first] + a[last..next]) + a[first..last] + a[next..]
  {
    assert a[..first] == a[..start] + a[start..first];
  }

  /** argsOnly set, with the skipped arguments, if there are any, brought to the end first. */
  function Started(cfg: Config, s: State, quoted: nat): State
    requires Valid(cfg, s)
  {
    if s.first == s.last then s.(quoted := quoted, argsOnly := true)
    else
      var x := Exchange(cfg, s);
      x.(next := x.first, quoted := quoted, first := 0, last := 0, argsOnly := true)
  }

  /** Setting argsOnly on a fully scanned state starts the walk over the arguments. */
  lemma StartArguing(cfg: Config, s: State, orig: seq<string>, start: nat, whole: Plan, quoted: nat)
    requires s.next <= |s.argv| && s.nextchar == ""
    requires Completes(cfg, s, orig, start, whole, NOTHING.(rest := s.argv[s.next..]))
    requires quoted <= if s.first == s.last then s.next else Exchange(cfg, s).first
    ensures Arguing(cfg, Started(cfg, s, quoted), orig, start, whole)
  {
    if s.first == s.last {
      LayOutInPlace(cfg, s, orig, start, whole);
    } else {
      LayOutExchanged(cfg, s, orig, start, whole);
    }
  }

  lemma QuoteFuture(cfg: Config, s: State)
    requires s.next < |s.argv| && s.nextchar == ""
    requires Classify(cfg.longOnly, cfg.shortOpts, s.argv[s.next]) == QuoteToken
    ensures Future(cfg, s) == Before([s.argv[s.next]], [], NOTHING.(rest := s.argv[s.next + 1..]))
  {
    assert s.argv[s.next..][1..] == s.argv[s.next + 1..];
  }

  lemma QuotePassed(cfg: Config, s: State, orig: seq<string>, start: nat, whole: Plan)
    requires Scanning(cfg, s, orig, start, whole) && s.next < |s.argv| && s.nextchar == ""
    requires Classify(cfg.longOnly, cfg.shortOpts, s.argv[s.next]) == QuoteToken
    ensures Completes(cfg, s.(next := s.next + 1), orig, start, whole, NOTHING.(rest := s.argv[s.next + 1..]))
  {
    QuoteFuture(cfg, s);
    PassPlanned(cfg, s, orig, start, whole, Future(cfg, s), NOTHING.(rest := s.argv[s.next + 1..]));
  }

  lemma StepQuoteLaysOut(cfg: Config, s: State, orig: seq<string>, start: nat, whole: Plan)
    requires Scanning(cfg, s, orig, start, whole) && s.next < |s.argv| && s.nextchar == ""
    requires Classify(cfg.longOnly, cfg.shortOpts, s.argv[s.next]) == QuoteToken
    ensures Arguing(cfg, StepQuote(cfg, s).0, orig, start, whole)
  {
    QuotePassed(cfg, s, orig, start, whole);
    QuoteArguing(cfg, s, orig, start, whole);
  }

  lemma QuoteArguing(cfg: Config, s: State, orig: seq<string>, start: nat, whole: Plan)
    requires Valid(cfg, s) && !s.argsOnly && s.next < |s.argv| && s.nextchar == ""
    requires Completes(cfg, s.(next := s.next + 1), orig, start, whole, NOTHING.(rest := s.argv[s.next + 1..]))
    ensures Arguing(cfg, StepQuote(cfg, s).0, orig, start, whole)
  {
    var t := s.(next := s.next + 1);
    var quoted := if t.first == t.last then t.next else Exchange(cfg, t).first;
    StartArguing(cfg, t, orig, start, whole, quoted);
    StepQuoteIs(cfg, s, quoted);
  }

  lemma StepQuoteIs(cfg: Config, s: State, quoted: nat)
    requires Valid(cfg, s) && !s.argsOnly && s.next < |s.argv|
    requires var t := s.(next := s.next + 1); quoted == if t.first == t.last then t.next else Exchange(cfg, t).first
    ensures StepQuote(cfg, s).0 == Started(cfg, s.(next := s.next + 1), quoted)
  {
  }

  lemma StepEndLaysOut(cfg: Config, s: State, orig: seq<string>, start: nat, whole: Plan)
    requires Scanning(cfg, s, orig, start, whole) && s.next == |s.argv| && s.nextchar == ""
    ensures var (t, o) := StepEnd(cfg, s);
            && LaidOut(t.argv, orig, start, whole)
            && (o == More ==> Arguing(cfg, t, orig, start, whole))
            && (o == Done ==> OptionCalls(t.trace) == whole.calls && Delivered(t.trace) == whole.nons + whole.rest)
  {
    assert Future(cfg, s) == NOTHING.(rest := s.argv[s.next..]);
    var t := s.(argEbadkey := true);
    if s.first == s.last {
      LayOutInPlace(cfg, s, orig, start, whole);
    } else {
      LayOutExchanged(cfg, t, orig, start, whole);
      EndStarts(cfg, t, orig, start, whole);
    }
  }

  lemma EndStarts(cfg: Config, s: State, orig: seq<string>, start: nat, whole: Plan)
    requires s.next == |s.argv| && s.nextchar == "" && s.first != s.last && s.quoted == 0
    requires Completes(cfg, s, orig, start, whole, NOTHING.(rest := s.argv[s.next..]))
    ensures Arguing(cfg, Started(cfg, s, 0), orig, start, whole)
  {
    StartArguing(cfg, s, orig, start, whole, 0);
  }

  lemma StepImplicitQuoteLaysOut(cfg: Config, s: State, orig: seq<string>, start: nat, whole: Plan)
    requires Scanning(cfg, s, orig, start, whole) && s.next < |s.argv| && s.nextchar == ""
    requires cfg.ordering == RequireOrder && Classify(cfg.longOnly, cfg.shortOpts, s.argv[s.next]) == ArgToken
    ensures Arguing(cfg, StepArg(cfg, s).0, orig, start, whole)
  {
    assert Future(cfg, s) == NOTHING.(rest := s.argv[s.next..]);
    LayOutInPlace(cfg, s, orig, start, whole);
  }

  // ---------- arguments ----------

  /** From TRACE to T no option was called; VALUE was accepted if ARG, and all that remains if ALL. */
  ghost predicate Offered(trace: seq<Call>, t: seq<Call>, value: string, arg: bool, all: bool) {
    && OptionCalls(t) == OptionCalls(trace)
    && Delivered(t) == Delivered(trace) + (if arg then [value] else [])
    && (TookAll(t) <==> TookAll(trace) || all)
  }

  lemma OfferedThen(trace: seq<Call>, t: seq<Call>, u: seq<Call>, value: string, arg: bool, all: bool)
    requires Offered(trace, t, value, false, false) && Offered(t, u, value, arg, all)
    ensures Offered(trace, u, value, arg, all)
  {
  }

  /** An offer adds at most one delivered argument, and no option call. */
  lemma OfferTrace(cfg: Config, trace: seq<Call>, g: nat, value: string)
    requires g <= |cfg.groups|
    ensures var o := OfferArg(cfg, trace, g, value);
            Offered(trace, o.trace, value, o.error == Zero && o.key == KeyArg, o.error == Zero && o.key == KeyArgs)
    decreases |cfg.groups| - g
  {
    if g < |cfg.groups| {
      var o := OfferArg(cfg, trace, g, value);
      var arg, all := o.error == Zero && o.key == KeyArg, o.error == Zero && o.key == KeyArgs;
      var (e1, t1) := GroupParse(cfg, trace, g, KeyArg, Some(value));
      CallTrace(cfg, trace, g, KeyArg, Some(value), value);
      if e1 == BadKey {
        var (e2, t2) := GroupParse(cfg, t1, g, KeyArgs, None);
        CallTrace(cfg, t1, g, KeyArgs, None, value);
        if e2 == BadKey {
          OfferTrace(cfg, t2, g + 1, value);
          OfferedThen(t1, t2, o.trace, value, arg, all);
        }
        OfferedThen(trace, t1, o.trace, value, arg, all);
      }
    }
  }

  lemma CallTrace(cfg: Config, trace: seq<Call>, g: nat, key: Key, value: Maybe<string>, arg: string)
    requires g < |cfg.groups| && !key.KeyOption? && (key == KeyArg ==> value == Some(arg))
    ensures var (e, t) := GroupParse(cfg, trace, g, key, value);
            Offered(trace, t, arg, key == KeyArg && e == Zero, key == KeyArgs && e == Zero)
  {
    var (e, t) := GroupParse(cfg, trace, g, key, value);
    if cfg.groups[g].parser {
      assert t[|t| - 1] in t;
    }
  }

  /** What ParseArg does with the answer of the groups. */
  lemma ParseArgSees(cfg: Config, s: State)
    requires Valid(cfg, s) && s.argsOnly && s.next < |s.argv|
    ensures var f := OfferArg(cfg, s.trace, 0, s.argv[s.next]); var (t, o) := ParseArg(cfg, s);
            && t.argv == s.argv && t.trace == f.trace && (o == More <==> f.error == Zero)
            && (o == More ==> Valid(cfg, t) && t.argsOnly && t.next == if f.key == KeyArgs then |s.argv| else s.next + 1)
  {
  }

  lemma DeliveredNext(trace: seq<Call>, t: seq<Call>, argv: seq<string>, from: nat, next: nat, arg: bool, all: bool)
    requires from <= next < |argv| && Offered(trace, t, argv[next], arg, all) && arg == !all
    requires !TookAll(trace) ==> Delivered(trace) == argv[from..next]
    ensures !TookAll(t) ==> Delivered(t) == argv[from..next + 1]
  {
    assert argv[from..next + 1] == argv[from..next] + [argv[next]];
  }

  lemma ParseArgKeepsArguing(cfg: Config, s: State, orig: seq<string>, start: nat, whole: Plan)
    requires Arguing(cfg, s, orig, start, whole) && s.next < |s.argv|
    ensures var (t, o) := ParseArg(cfg, s);
            && LaidOut(t.argv, orig, start, whole) && OptionCalls(t.trace) == whole.calls
            && (o == More ==> Arguing(cfg, t, orig, start, whole))
  {
    var f := OfferArg(cfg, s.trace, 0, s.argv[s.next]);
    OfferTrace(cfg, s.trace, 0, s.argv[s.next]);
    ParseArgSees(cfg, s);
    if f.error == Zero {
      DeliveredNext(s.trace, f.trace, s.argv, start + |whole.opts|, s.next, f.key == KeyArg, f.key == KeyArgs);
    }
  }
}
