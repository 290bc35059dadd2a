/** The parser object: the methods of argp-parse.c that update it, each tied to the function on
    states that the theorems are about. */
module ArgpObject {
  import opened Maybes
  import opened ArgpLookup
  import opened ArgpParser
  import opened ArgpLifecycle
  import Exchanging = ArgpExchange

  class Parser {
    const cfg: Config
    const argv: array<string>
    var next: nat
    var firstNonopt: nat
    var lastNonopt: nat
    var quoted: nat
    var argsOnly: bool
    var nextchar: string
    var argEbadkey: bool
    var processed: seq<nat>
    var trace: seq<Call>     // what the user's parsing functions have seen

    /** The value of the object. */
    function Now(): State
      reads this, argv
    {
      State(argv[..], next, firstNonopt, lastNonopt, quoted, argsOnly, nextchar, argEbadkey, processed, trace)
    }

    constructor (cfg: Config, argv: array<string>)
      ensures this.cfg == cfg && this.argv == argv
      ensures Now() == State(argv[..], 0, 0, 0, 0, false, "", false, seq(|cfg.groups|, _ => 0), [])
    {
      this.cfg, this.argv := cfg, argv;
      next, firstNonopt, lastNonopt, quoted := 0, 0, 0, 0;
      argsOnly, nextchar, argEbadkey := false, "", false;
      processed, trace := seq(|cfg.groups|, _ => 0), [];
    }

    method CallGroup(g: nat, key: Key, value: Maybe<string>) returns (err: Error)
      requires g < |cfg.groups|
      modifies this`trace
      ensures (err, trace) == GroupParse(cfg, old(trace), g, key, value)
    {
      if cfg.groups[g].parser {
        err := cfg.user(trace, g, key, value);
        trace := trace + [Call(g, key, value, err)];
      } else {
        err := BadKey;
      }
    }

    method Exchange()
      requires Valid(cfg, Now())
      modifies argv, this`firstNonopt, this`lastNonopt
      ensures Now() == ArgpParser.Exchange(cfg, old(Now()))
    {
      Exchanging.Rotate(argv, firstNonopt, lastNonopt, next);
      firstNonopt := firstNonopt + (next - lastNonopt);
      lastNonopt := next;
    }

    method OfferToGroups(value: string) returns (err: Error, taker: nat, key: Key)
      requires next < argv.Length
      modifies this`next, this`trace
      ensures var o := OfferArg(cfg, old(trace), 0, value);
              && err == o.error && trace == o.trace && (err != BadKey ==> taker == o.group && key == o.key)
              && next == if err != BadKey && key == KeyArg then old(next) + 1 else old(next)
    {
      var g := 0;
      err, taker, key := BadKey, 0, KeyArg;
      while g < |cfg.groups| && err == BadKey
        invariant 0 <= g <= |cfg.groups|
        invariant err == BadKey ==> next == old(next) && OfferArg(cfg, old(trace), 0, value) == OfferArg(cfg, trace, g, value)
        invariant err != BadKey ==>
                    && OfferArg(cfg, old(trace), 0, value) == Offer(err, taker, key, trace)
                    && next == if key == KeyArg then old(next) + 1 else old(next)
      {
        next := next + 1;
        key, taker := KeyArg, g;
        err := CallGroup(g, key, Some(value));
        if err == BadKey {
          next := next - 1;
          key := KeyArgs;
          err := CallGroup(g, key, None);
        }
        g := g + 1;
      }
    }

    /** parser_parse_arg, for parsing functions that leave NEXT alone. */
    method ParseArg() returns (o: Outcome, err: Error)
      requires Valid(cfg, Now()) && next < argv.Length
      modifies this
      ensures (Now(), o) == ArgpParser.ParseArg(cfg, old(Now())) && err == ErrorOf(o)
    {
      var index := next;
      var taker, key;
      err, taker, key := OfferToGroups(argv[next]);
      if err == Zero {
        if key == KeyArgs {
          next := argv.Length;
        }
        processed := processed[taker := processed[taker] + (next - index)];
      }
      o := match err case Zero => More case BadKey => ArgRejected case Hard(_) => ArgFailed(err);
    }

    /** Calls the parser of the option decoded as D in state S, once the scanning variables are as
        D leaves them. */
    method CallOption(group: nat, key: int, value: Maybe<string>, ghost s: State, ghost d: Decoded)
      returns (o: Outcome, err: Error)
      requires group < |cfg.groups| && d.Use? && d.group == group && d.key == key && d.value == value
      requires Now() == s.(nextchar := d.cluster, next := s.next + if d.took then 1 else 0)
      modifies this`trace
      ensures (Now(), o) == Dispatch(cfg, s, d) && err == ErrorOf(o)
    {
      err := CallGroup(group, KeyOption(key), value);
      o := if err == Zero then More else OptionRefused(err);
    }

    /** The short option branch of parser_parse_next. */
    method ParseShort() returns (o: Outcome, err: Error)
      requires Valid(cfg, Now()) && nextchar != ""
      modifies this
      ensures (Now(), o) == StepShort(cfg, old(Now())) && err == ErrorOf(o)
    {
      assert !argsOnly;            // the assertion of the original
      ghost var s := Now();
      ghost var d := DecodeShort(cfg.groups, nextchar, argv[next..]);
      var c := nextchar[0] as int;
      nextchar := nextchar[1..];
      if c >= 128 {
        return Abort, BadKey;
      }
      var slot := FindShortOption(cfg.groups, c);
      if slot.None? {
        argEbadkey := false;
        return BadOption, BadKey;
      }
      var option := slot.value.option;
      var value: Maybe<string> := None;
      if option.takesArg {
        if nextchar != "" {
          value, nextchar := Some(nextchar), "";
        } else if !option.argOptional {
          if next == argv.Length {
            argEbadkey := false;
            return BadOption, BadKey;
          }
          assert s.argv[s.next..][0] == argv[next];
          value, next := Some(argv[next]), next + 1;
        }
      }
      assert d == Use(slot.value.group, option.key, value, nextchar, next != s.next);
      o, err := CallOption(slot.value.group, option.key, value, s, d);
    }

    /** The long option branch; TEXT follows the dashes. */
    method ParseLong(text: string) returns (o: Outcome, err: Error)
      requires Valid(cfg, Now()) && next < argv.Length && nextchar == ""
      modifies this
      ensures (Now(), o) == StepLong(cfg, old(Now()), text) && err == ErrorOf(o)
    {
      next := next + 1;
      argEbadkey := false;
      ghost var t := Now();
      ghost var d := DecodeLong(cfg.groups, text, t.argv[t.next..]);
      var slot := FindLongOption(cfg.groups, text);
      if slot.None? {
        return BadOption, BadKey;
      }
      var option := slot.value.option;
      var stem := Stem(text);
      var value := if stem == text then None else Some(text[|stem| + 1..]);
      if value.Some? && !option.takesArg {
        return BadOption, BadKey;
      }
      if option.takesArg && value.None? && !option.argOptional {
        if next == argv.Length {
          return BadOption, BadKey;
        }
        assert t.argv[t.next..][0] == argv[next];
        value, next := Some(argv[next]), next + 1;
      }
      assert d == Use(slot.value.group, option.key, value, "", next != t.next);
      o, err := CallOption(slot.value.group, option.key, value, t, d);
    }

    /** An argument met while options are looked for. */
    method MeetArgument() returns (o: Outcome, err: Error)
      requires Valid(cfg, Now()) && next < argv.Length && !argsOnly
      modifies this, argv
      ensures (Now(), o) == StepArg(cfg, old(Now())) && err == ErrorOf(o)
    {
      o, err := More, Zero;
      match cfg.ordering {
        case Permute =>
          if firstNonopt == lastNonopt {
            firstNonopt, lastNonopt := next, next;
          } else if lastNonopt != next {
            Exchange();
          }
          assert lastNonopt == next;  // the assertion of the original
          next := next + 1;
          lastNonopt := next;
        case RequireOrder =>
          argsOnly := true;
        case ReturnInOrder =>
          argEbadkey := true;
          o, err := ParseArg();
      }
    }

    method MeetQuote() returns (o: Outcome, err: Error)
      requires Valid(cfg, Now()) && next < argv.Length && !argsOnly
      modifies this, argv
      ensures (Now(), o) == StepQuote(cfg, old(Now())) && err == ErrorOf(o)
    {
      next := next + 1;
      assert lastNonopt != next;      // the assertion of the original
      if firstNonopt != lastNonopt {
        Exchange();
        next := firstNonopt;
        quoted := next;
        firstNonopt, lastNonopt := 0, 0;
      } else {
        quoted := next;
      }
      argsOnly := true;
      o, err := More, Zero;
    }

    method MeetEnd() returns (o: Outcome, err: Error)
      requires Valid(cfg, Now())
      modifies this, argv
      ensures (Now(), o) == StepEnd(cfg, old(Now())) && err == ErrorOf(o)
    {
      argEbadkey := true;
      if firstNonopt != lastNonopt {
        Exchange();
        next := firstNonopt;
        firstNonopt, lastNonopt := 0, 0;
        argsOnly := true;
        return More, Zero;
      }
      return Done, BadKey;
    }

    /** parser_parse_next. */
    method ParseNext() returns (o: Outcome, err: Error)
      requires Valid(cfg, Now())
      modifies this, argv
      ensures (Now(), o) == Step(cfg, old(Now())) && err == ErrorOf(o)
    {
      // The original first pulls quoted, lastNonopt and firstNonopt back to a NEXT that a parsing
      // function has moved; in a valid state there is nothing to pull back.
      assert !(quoted != 0 && next < quoted) && lastNonopt <= next && firstNonopt <= next;
      if nextchar != "" {
        o, err := ParseShort();
      } else if argsOnly {
        argEbadkey := true;
        if next >= argv.Length {
          return Done, BadKey;
        }
        o, err := ParseArg();
      } else if next >= argv.Length {
        o, err := MeetEnd();
      } else {
        match Classify(cfg.longOnly, cfg.shortOpts, argv[next]) {
          case ArgToken => o, err := MeetArgument();
          case QuoteToken => o, err := MeetQuote();
          case LongToken(text) => o, err := ParseLong(text);
          case LongOnlyToken(text) => o, err := ParseLong(text);
          case ShortToken(text) =>
            next, nextchar := next + 1, text;
            o, err := More, Zero;
        }
      }
    }

    /** The loop of argp_parse, which always ends. */
    method Steps() returns (o: Outcome, err: Error)
      requires Valid(cfg, Now())
      modifies this, argv
      ensures (Now(), o) == Run(cfg, old(Now())) && err == ErrorOf(o)
    {
      o, err := More, Zero;
      while err == Zero
        invariant err == ErrorOf(o) && (err == Zero <==> o == More)
        invariant o == More ==> Valid(cfg, Now()) && Run(cfg, Now()) == Run(cfg, old(Now()))
        invariant o != More ==> (Now(), o) == Run(cfg, old(Now()))
        decreases o == More, !argsOnly, argv.Length - next, |nextchar|
      {
        ghost var before := Now();
        o, err := ParseNext();
        StepError(cfg, before);
        if o == More {
          StepProgress(cfg, before);
        }
      }
    }

    // ---------- parser_init and parser_finalize ----------

    /** The INIT calls, and where scanning starts. */
    method Init(parseArgv0: bool) returns (err: Error)
      requires Now() == State(argv[..], 0, 0, 0, 0, false, "", false, seq(|cfg.groups|, _ => 0), [])
      modifies this
      ensures (err, Now()) == Initialize(cfg, old(argv[..]), parseArgv0)
    {
      ghost var order := Upwards(|cfg.groups|);
      err := Zero;
      var g := 0;
      while g < |cfg.groups| && !err.Hard?
        invariant 0 <= g <= |cfg.groups|
        invariant Now() == State(argv[..], 0, 0, 0, 0, false, "", false, seq(|cfg.groups|, _ => 0), trace)
        invariant !err.Hard? ==> Sweep(cfg, [], order, KeyInit) == Sweep(cfg, trace, order[g..], KeyInit)
        invariant err.Hard? ==> Sweep(cfg, [], order, KeyInit) == (err, trace)
      {
        assert order[g..][1..] == order[g + 1..];
        err := CallGroup(g, KeyInit, None);
        g := g + 1;
      }
      if err == BadKey {
        err := Zero;
      }
      if argv.Length > 0 && !parseArgv0 {
        next := 1;
      }
    }

    /** A loop of parser_finalize down the group array that heeds errors. */
    method SweepDown(key: Key) returns (err: Error)
      modifies this`trace
      ensures (err, trace) == Sweep(cfg, old(trace), Downwards(|cfg.groups|), key)
    {
      ghost var order := Downwards(|cfg.groups|);
      err := Zero;
      var g := |cfg.groups|;
      while g > 0 && !err.Hard?
        invariant 0 <= g <= |cfg.groups|
        invariant !err.Hard? ==> Sweep(cfg, old(trace), order, key) == Sweep(cfg, trace, order[|order| - g..], key)
        invariant err.Hard? ==> Sweep(cfg, old(trace), order, key) == (err, trace)
      {
        assert order[|order| - g..][1..] == order[|order| - (g - 1)..];
        g := g - 1;
        err := CallGroup(g, key, None);
      }
      if err == BadKey {
        err := Zero;
      }
    }

    /** The NO_ARGS loop, up the group array. */
    method SweepIdle() returns (err: Error)
      requires |processed| == |cfg.groups|
      modifies this`trace
      ensures (err, trace) == Sweep(cfg, old(trace), Idle(processed), KeyNoArgs)
    {
      err := Zero;
      var g := 0;
      while g < |cfg.groups| && !err.Hard?
        invariant 0 <= g <= |cfg.groups|
        invariant Sweep(cfg, old(trace), Idle(processed[..g]), KeyNoArgs) == (if err.Hard? then err else Zero, trace)
      {
        IdleNext(cfg, old(trace), processed, g);
        if processed[g] == 0 {
          err := CallGroup(g, KeyNoArgs, None);
        }
        g := g + 1;
      }
      if err.Hard? {
        IdleFailure(cfg, old(trace), processed, g);
      } else {
        assert processed[..g] == processed;
        err := Zero;
      }
    }

    /** A loop that ignores the answers, up the group array. */
    method TellUp(key: Key)
      modifies this`trace
      ensures trace == SweepAll(cfg, old(trace), Upwards(|cfg.groups|), key)
    {
      ghost var order := Upwards(|cfg.groups|);
      var g := 0;
      while g < |cfg.groups|
        invariant 0 <= g <= |cfg.groups|
        invariant SweepAll(cfg, old(trace), order, key) == SweepAll(cfg, trace, order[g..], key)
      {
        assert order[g..][1..] == order[g + 1..];
        var _ := CallGroup(g, key, None);
        g := g + 1;
      }
    }

    method TellDown(key: Key)
      modifies this`trace
      ensures trace == SweepAll(cfg, old(trace), Downwards(|cfg.groups|), key)
    {
      ghost var order := Downwards(|cfg.groups|);
      var g := |cfg.groups|;
      while g > 0
        invariant 0 <= g <= |cfg.groups|
        invariant SweepAll(cfg, old(trace), order, key) == SweepAll(cfg, trace, order[|order| - g..], key)
      {
        assert order[|order| - g..][1..] == order[|order| - (g - 1)..];
        g := g - 1;
        var _ := CallGroup(g, key, None);
      }
    }

    /** parser_finalize. */
    method Finish(error: Error, canReturn: bool) returns (err: Error, endIndex: Maybe<nat>)
      requires |processed| == |cfg.groups|
      modifies this`trace
      ensures (err, trace) == Finalize(cfg, old(Now()), error, canReturn)
      ensures endIndex == EndIndex(old(Now()), error, canReturn)
    {
      err, endIndex := error, None;
      if err == BadKey && argEbadkey {
        err := Zero;
      }
      if err == Zero {
        if next == argv.Length {
          err := SweepIdle();
          if err == Zero {
            err := SweepDown(KeyEnd);
          }
          if canReturn {
            endIndex := Some(next);
          }
        } else if canReturn {
          endIndex := Some(next);
        } else {
          err := BadKey;
        }
      }
      if err != Zero {
        TellUp(KeyError);
      } else {
        err := SweepDown(KeySuccess);
      }
      TellDown(KeyFini);
      if err == BadKey {
        err := Hard(EINVAL);
      }
    }
  }

  lemma IdleNext(cfg: Config, trace: seq<Call>, processed: seq<nat>, g: nat)
    requires g < |processed| == |cfg.groups|
    requires !Sweep(cfg, trace, Idle(processed[..g]), KeyNoArgs).0.Hard?
    ensures var (e, t) := Sweep(cfg, trace, Idle(processed[..g]), KeyNoArgs);
            Sweep(cfg, trace, Idle(processed[..g + 1]), KeyNoArgs) ==
            if processed[g] != 0 then (e, t)
            else var (e2, t2) := GroupParse(cfg, t, g, KeyNoArgs, None); (if e2.Hard? then e2 else Zero, t2)
  {
    var more: seq<nat> := if processed[g] == 0 then [g] else [];
    assert processed[..g + 1][..g] == processed[..g];
    assert Idle(processed[..g + 1]) == Idle(processed[..g]) + more;
    SweepConcat(cfg, trace, Idle(processed[..g]), more, KeyNoArgs);
    assert more != [] ==> more[1..] == [];
  }

  lemma IdleFailure(cfg: Config, trace: seq<Call>, processed: seq<nat>, g: nat)
    requires g <= |processed| == |cfg.groups|
    requires Sweep(cfg, trace, Idle(processed[..g]), KeyNoArgs).0.Hard?
    ensures Sweep(cfg, trace, Idle(processed), KeyNoArgs) == Sweep(cfg, trace, Idle(processed[..g]), KeyNoArgs)
    decreases |processed| - g
  {
    if g == |processed| {
      assert processed[..g] == processed;
    } else {
      assert processed[..g + 1][..g] == processed[..g];
      SweepConcat(cfg, trace, Idle(processed[..g]), if processed[g] == 0 then [g] else [], KeyNoArgs);
      IdleFailure(cfg, trace, processed, g + 1);
    }
  }

  /** argp_parse on a set of groups. */
  method ArgpParse(cfg: Config, argv: array<string>, parseArgv0: bool, canReturn: bool)
    returns (p: Parser, err: Error, aborted: bool, endIndex: Maybe<nat>)
    modifies argv
    ensures fresh(p)
    ensures var (e, s) := Initialize(cfg, old(argv[..]), parseArgv0);
      if e != Zero then argv[..] == old(argv[..]) && endIndex == None
      else
        var (t, o) := Run(cfg, s);
        argv[..] == t.argv && endIndex == if aborted then None else EndIndex(t, ErrorOf(o), canReturn)
    ensures Parse(cfg, old(argv[..]), parseArgv0, canReturn) == if aborted then Aborted else Returned(err, p.trace)
  {
    aborted, endIndex := false, None;
    p := new Parser(cfg, argv);
    err := p.Init(parseArgv0);
    if err == Zero {
      ghost var s := p.Now();
      var o;
      RunKeepsGroups(cfg, s);
      o, err := p.Steps();
      aborted := o == Abort;
      if !aborted {
        err, endIndex := p.Finish(err, canReturn);
      }
    }
  }
}
