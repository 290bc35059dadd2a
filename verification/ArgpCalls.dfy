/** Which calls a parse makes: of whom, with what, and that every answer in the trace is the one that was given. */
module ArgpCalls {
  import opened Maybes
  import opened ArgpLookup
  import opened ArgpParser
  import opened ArgpModes
  import opened ArgpLifecycle

  // ---------- answers ----------

  /** Every call was made to a group with a parsing function, and has its answer to the calls before. */
  ghost predicate Honest(cfg: Config, trace: seq<Call>) {
    forall i :: 0 <= i < |trace| ==> HonestAt(cfg, trace, i)
  }

  ghost predicate HonestAt(cfg: Config, trace: seq<Call>, i: nat)
    requires i < |trace|
  {
    var c := trace[i];
    c.group < |cfg.groups| && cfg.groups[c.group].parser && c.reply == cfg.user(trace[..i], c.group, c.key, c.value)
  }

  lemma CallIsHonest(cfg: Config, trace: seq<Call>, g: nat, key: Key, value: Maybe<string>)
    requires Honest(cfg, trace) && g < |cfg.groups|
    ensures Honest(cfg, GroupParse(cfg, trace, g, key, value).1)
  {
    var t := GroupParse(cfg, trace, g, key, value).1;
    forall i | 0 <= i < |t| ensures HonestAt(cfg, t, i) {
      if i < |trace| {
        assert HonestAt(cfg, trace, i);
        assert t[..i] == trace[..i];
      } else {
        assert t[..i] == trace;
      }
    }
  }

  lemma OfferIsHonest(cfg: Config, trace: seq<Call>, g: nat, value: string)
    requires Honest(cfg, trace) && g <= |cfg.groups|
    ensures Honest(cfg, OfferArg(cfg, trace, g, value).trace)
    decreases |cfg.groups| - g
  {
    if g < |cfg.groups| {
      var (e1, t1) := GroupParse(cfg, trace, g, KeyArg, Some(value));
      CallIsHonest(cfg, trace, g, KeyArg, Some(value));
      if e1 == BadKey {
        var (e2, t2) := GroupParse(cfg, t1, g, KeyArgs, None);
        CallIsHonest(cfg, t1, g, KeyArgs, None);
        if e2 == BadKey {
          OfferIsHonest(cfg, t2, g + 1, value);
        }
      }
    }
  }

  lemma ParseArgIsHonest(cfg: Config, s: State)
    requires Valid(cfg, s) && s.next < |s.argv| && Honest(cfg, s.trace)
    ensures Honest(cfg, ParseArg(cfg, s).0.trace)
  {
    OfferIsHonest(cfg, s.trace, 0, s.argv[s.next]);
  }

  lemma StepShortIsHonest(cfg: Config, s: State)
    requires Valid(cfg, s) && s.nextchar != "" && Honest(cfg, s.trace)
    ensures Honest(cfg, StepShort(cfg, s).0.trace)
  {
    var d := DecodeShort(cfg.groups, s.nextchar, s.argv[s.next..]);
    if d.Use? {
      CallIsHonest(cfg, s.trace, d.group, KeyOption(d.key), d.value);
    }
  }

  lemma StepLongIsHonest(cfg: Config, s: State, text: string)
    requires Valid(cfg, s) && s.next < |s.argv| && Honest(cfg, s.trace)
    ensures Honest(cfg, StepLong(cfg, s, text).0.trace)
  {
    var d := DecodeLong(cfg.groups, text, s.argv[s.next + 1..]);
    if d.Use? {
      CallIsHonest(cfg, s.trace, d.group, KeyOption(d.key), d.value);
    }
  }

  lemma StepIsHonest(cfg: Config, s: State)
    requires Valid(cfg, s) && Honest(cfg, s.trace)
    ensures Honest(cfg, Step(cfg, s).0.trace)
  {
    if Quiet(cfg, s) {
      QuietStep(cfg, s);
    } else if s.nextchar != "" {
      StepShortIsHonest(cfg, s);
    } else if s.next < |s.argv| {
      var t := s.(argEbadkey := true);
      if s.argsOnly {
        ParseArgIsHonest(cfg, t);
      } else {
        match Classify(cfg.longOnly, cfg.shortOpts, s.argv[s.next]) {
          case ArgToken => ParseArgIsHonest(cfg, t);
          case LongToken(text) => StepLongIsHonest(cfg, s, text);
          case LongOnlyToken(text) => StepLongIsHonest(cfg, s, text);
        }
      }
    }
  }

  lemma {:induction false} RunIsHonest(cfg: Config, s: State)
    requires Valid(cfg, s) && Honest(cfg, s.trace)
    ensures Honest(cfg, Run(cfg, s).0.trace)
    decreases !s.argsOnly, |s.argv| - s.next, |s.nextchar|
  {
    StepIsHonest(cfg, s);
    if Step(cfg, s).1 == More {
      StepProgress(cfg, s);
      RunIsHonest(cfg, Step(cfg, s).0);
    }
  }

  lemma {:induction false} SweepIsHonest(cfg: Config, trace: seq<Call>, order: seq<nat>, key: Key)
    requires InRange(order, |cfg.groups|) && Honest(cfg, trace)
    ensures Honest(cfg, Sweep(cfg, trace, order, key).1) && Honest(cfg, SweepAll(cfg, trace, order, key))
    decreases |order|
  {
    if order != [] {
      CallIsHonest(cfg, trace, order[0], key, None);
      SweepIsHonest(cfg, GroupParse(cfg, trace, order[0], key, None).1, order[1..], key);
    }
  }

  lemma VerdictIsHonest(cfg: Config, s: State, err: Error, canReturn: bool)
    requires |s.processed| == |cfg.groups| && Honest(cfg, s.trace)
    ensures Honest(cfg, Verdict(cfg, s, err, canReturn).1)
  {
    SweepIsHonest(cfg, s.trace, Idle(s.processed), KeyNoArgs);
    SweepIsHonest(cfg, Sweep(cfg, s.trace, Idle(s.processed), KeyNoArgs).1, Downwards(|cfg.groups|), KeyEnd);
  }

  lemma ConcludeIsHonest(cfg: Config, err: Error, trace: seq<Call>)
    requires Honest(cfg, trace)
    ensures Honest(cfg, Conclude(cfg, err, trace).1)
  {
    var n := |cfg.groups|;
    SweepIsHonest(cfg, trace, Upwards(n), KeyError);
    SweepIsHonest(cfg, trace, Downwards(n), KeySuccess);
    var t := if err != Zero then SweepAll(cfg, trace, Upwards(n), KeyError) else Sweep(cfg, trace, Downwards(n), KeySuccess).1;
    SweepIsHonest(cfg, t, Downwards(n), KeyFini);
  }

  /** Every answer on which a parse acts is the one that the group's own parsing function gave, to just those
      arguments and after just those calls. */
  lemma ParseIsHonest(cfg: Config, argv: seq<string>, parseArgv0: bool, canReturn: bool)
    ensures var r := Parse(cfg, argv, parseArgv0, canReturn); r.Returned? ==> Honest(cfg, r.trace)
  {
    SweepIsHonest(cfg, [], Upwards(|cfg.groups|), KeyInit);
    var (e, s) := Initialize(cfg, argv, parseArgv0);
    if e == Zero {
      RunIsHonest(cfg, s);
      RunKeepsGroups(cfg, s);
      var (t, o) := Run(cfg, s);
      VerdictIsHonest(cfg, t, ErrorOf(o), canReturn);
      var (e2, u) := Verdict(cfg, t, ErrorOf(o), canReturn);
      ConcludeIsHonest(cfg, e2, u);
    }
  }

  // ---------- questions ----------

  /** A call without its answer. */
  datatype Question = Question(group: nat, key: Key, value: Maybe<string>)

  function QuestionOf(c: Call): Question {
    Question(c.group, c.key, c.value)
  }

  function Questions(calls: seq<Call>): (r: seq<Question>)
    ensures |r| == |calls|
  {
    seq(|calls|, i requires 0 <= i < |calls| => QuestionOf(calls[i]))
  }

  /** T is S followed by calls that ask QS, the first of them. */
  ghost predicate Asks(s: seq<Call>, t: seq<Call>, qs: seq<Question>) {
    s <= t && Questions(t[|s|..]) <= qs
  }

  ghost predicate AsksAll(s: seq<Call>, t: seq<Call>, qs: seq<Question>) {
    s <= t && Questions(t[|s|..]) == qs
  }

  lemma AsksMore(s: seq<Call>, t: seq<Call>, u: seq<Call>, qs: seq<Question>, rs: seq<Question>)
    requires AsksAll(s, t, qs) && Asks(t, u, rs)
    ensures Asks(s, u, qs + rs) && (AsksAll(t, u, rs) ==> AsksAll(s, u, qs + rs))
  {
    assert u[|s|..] == t[|s|..] + u[|t|..];
    assert Questions(u[|s|..]) == Questions(t[|s|..]) + Questions(u[|t|..]);
  }

  lemma AsksNothing(s: seq<Call>, qs: seq<Question>)
    ensures Asks(s, s, qs) && AsksAll(s, s, [])
  {
    assert s[|s|..] == [];
  }

  lemma AsksFewer(s: seq<Call>, t: seq<Call>, qs: seq<Question>, rs: seq<Question>)
    requires Asks(s, t, qs)
    ensures Asks(s, t, qs + rs)
  {
  }

  /** Asking one group: nothing happens without a parsing function. */
  function AskOne(cfg: Config, g: nat, key: Key, value: Maybe<string>): seq<Question>
    requires g < |cfg.groups|
  {
    if cfg.groups[g].parser then [Question(g, key, value)] else []
  }

  lemma CallAsks(cfg: Config, trace: seq<Call>, g: nat, key: Key, value: Maybe<string>)
    requires g < |cfg.groups|
    ensures AsksAll(trace, GroupParse(cfg, trace, g, key, value).1, AskOne(cfg, g, key, value))
  {
    var (e, t) := GroupParse(cfg, trace, g, key, value);
    assert t[|trace|..] == if cfg.groups[g].parser then [Call(g, key, value, e)] else [];
  }

  // ---------- an argument ----------

  /** An argument is offered to the groups in order, to each first as ARG and then, without it, as ARGS. */
  function OfferQuestions(cfg: Config, g: nat, value: string): seq<Question>
    requires g <= |cfg.groups|
    decreases |cfg.groups| - g
  {
    if g == |cfg.groups| then []
    else AskOne(cfg, g, KeyArg, Some(value)) + AskOne(cfg, g, KeyArgs, None) + OfferQuestions(cfg, g + 1, value)
  }

  /** The last call of T, with its answer. */
  predicate LastSays(trace: seq<Call>, t: seq<Call>, g: nat, key: Key, e: Error) {
    |trace| < |t| && t[|t| - 1].group == g && t[|t| - 1].key == key && t[|t| - 1].reply == e
  }

  /** The groups are asked until one does not answer EBADKEY; without such an answer, all are. */
  lemma {:induction false} OfferAsks(cfg: Config, trace: seq<Call>, g: nat, value: string)
    requires g <= |cfg.groups|
    ensures var o, qs := OfferArg(cfg, trace, g, value), OfferQuestions(cfg, g, value);
            Asks(trace, o.trace, qs) && (o.error == BadKey ==> AsksAll(trace, o.trace, qs))
    decreases |cfg.groups| - g
  {
    if g == |cfg.groups| {
      AsksNothing(trace, []);
    } else {
      var (e1, t1) := GroupParse(cfg, trace, g, KeyArg, Some(value));
      var (e2, t2) := GroupParse(cfg, t1, g, KeyArgs, None);
      var first, second, later := AskOne(cfg, g, KeyArg, Some(value)), AskOne(cfg, g, KeyArgs, None), OfferQuestions(cfg, g + 1, value);
      CallAsks(cfg, trace, g, KeyArg, Some(value));
      if e1 != BadKey {
        AsksFewer(trace, t1, first, second);
        AsksFewer(trace, t1, first + second, later);
      } else {
        CallAsks(cfg, t1, g, KeyArgs, None);
        AsksMore(trace, t1, t2, first, second);
        if e2 != BadKey {
          AsksFewer(trace, t2, first + second, later);
        } else {
          OfferAsks(cfg, t2, g + 1, value);
          AsksMore(trace, t2, OfferArg(cfg, t2, g + 1, value).trace, first + second, later);
        }
      }
    }
  }

  ghost predicate AllRefuse(trace: seq<Call>, t: seq<Call>) {
    trace <= t && forall i :: |trace| <= i < |t| ==> t[i].reply == BadKey
  }

  lemma CallAnswers(cfg: Config, trace: seq<Call>, g: nat, key: Key, value: Maybe<string>)
    requires g < |cfg.groups|
    ensures var (e, t) := GroupParse(cfg, trace, g, key, value);
            if e == BadKey then AllRefuse(trace, t) else t[..|t| - 1] == trace && LastSays(trace, t, g, key, e)
  {
  }

  /** All calls but the last answer EBADKEY, and the last gives the result. */
  lemma {:induction false} OfferAnswers(cfg: Config, trace: seq<Call>, g: nat, value: string)
    requires g <= |cfg.groups|
    ensures var o := OfferArg(cfg, trace, g, value);
            if o.error == BadKey then AllRefuse(trace, o.trace)
            else LastSays(trace, o.trace, o.group, o.key, o.error) && AllRefuse(trace, o.trace[..|o.trace| - 1])
    decreases |cfg.groups| - g
  {
    if g < |cfg.groups| {
      var (e1, t1) := GroupParse(cfg, trace, g, KeyArg, Some(value));
      var (e2, t2) := GroupParse(cfg, t1, g, KeyArgs, None);
      CallAnswers(cfg, trace, g, KeyArg, Some(value));
      if e1 == BadKey {
        CallAnswers(cfg, t1, g, KeyArgs, None);
        if e2 == BadKey {
          OfferAnswers(cfg, t2, g + 1, value);
        }
      }
    }
  }

  // ---------- beginning and end ----------

  function SweepQuestions(cfg: Config, order: seq<nat>, key: Key): seq<Question>
    requires InRange(order, |cfg.groups|)
    decreases |order|
  {
    if order == [] then [] else AskOne(cfg, order[0], key, None) + SweepQuestions(cfg, order[1..], key)
  }

  lemma {:induction false} SweepAsks(cfg: Config, trace: seq<Call>, order: seq<nat>, key: Key)
    requires InRange(order, |cfg.groups|)
    ensures var (e, t) := Sweep(cfg, trace, order, key); var qs := SweepQuestions(cfg, order, key);
            && Asks(trace, t, qs) && (e == Zero ==> AsksAll(trace, t, qs))
            && (e != Zero ==> |trace| < |t| && t[|t| - 1].reply == e && t[|t| - 1].key == key)
    decreases |order|
  {
    if order == [] {
      AsksNothing(trace, []);
    } else {
      var (e, t) := GroupParse(cfg, trace, order[0], key, None);
      CallAsks(cfg, trace, order[0], key, None);
      var first, later := AskOne(cfg, order[0], key, None), SweepQuestions(cfg, order[1..], key);
      assert SweepQuestions(cfg, order, key) == first + later;
      if e.Hard? {
        AsksFewer(trace, t, first, later);
      } else {
        SweepAsks(cfg, t, order[1..], key);
        AsksMore(trace, t, Sweep(cfg, t, order[1..], key).1, first, later);
      }
    }
  }

  lemma {:induction false} SweepAllAsks(cfg: Config, trace: seq<Call>, order: seq<nat>, key: Key)
    requires InRange(order, |cfg.groups|)
    ensures AsksAll(trace, SweepAll(cfg, trace, order, key), SweepQuestions(cfg, order, key))
    decreases |order|
  {
    if order == [] {
      AsksNothing(trace, []);
    } else {
      var t := GroupParse(cfg, trace, order[0], key, None).1;
      CallAsks(cfg, trace, order[0], key, None);
      SweepAllAsks(cfg, t, order[1..], key);
      AsksMore(trace, t, SweepAll(cfg, t, order[1..], key), AskOne(cfg, order[0], key, None), SweepQuestions(cfg, order[1..], key));
    }
  }

  function Up(cfg: Config, key: Key): seq<Question> {
    SweepQuestions(cfg, Upwards(|cfg.groups|), key)
  }

  function Down(cfg: Config, key: Key): seq<Question> {
    SweepQuestions(cfg, Downwards(|cfg.groups|), key)
  }

  /** What is asked before SUCCESS. */
  function BeforeSuccess(cfg: Config, s: State): seq<Question>
    requires |s.processed| == |cfg.groups|
  {
    if s.next == |s.argv| then SweepQuestions(cfg, Idle(s.processed), KeyNoArgs) + Down(cfg, KeyEnd) else []
  }

  /** The questions after the last argument of a parse that goes well, up to FINI: NO_ARGS to the groups that
      processed none and END to all, if nothing is left over, and SUCCESS. */
  function GoodEnd(cfg: Config, s: State): seq<Question>
    requires |s.processed| == |cfg.groups|
  {
    BeforeSuccess(cfg, s) + Down(cfg, KeySuccess)
  }

  /** parser_finalize is called with an error that counts, or with arguments left over that nobody takes. */
  predicate Refuses(s: State, err: Error, canReturn: bool) {
    (err != Zero && !(err == BadKey && s.argEbadkey)) || (s.next != |s.argv| && !canReturn)
  }

  lemma EndCallsAsk(cfg: Config, s: State)
    requires |s.processed| == |cfg.groups|
    ensures var (e, t) := EndCalls(cfg, s); var qs := SweepQuestions(cfg, Idle(s.processed), KeyNoArgs) + Down(cfg, KeyEnd);
            && Asks(s.trace, t, qs) && (e == Zero ==> AsksAll(s.trace, t, qs))
            && (e != Zero ==> |s.trace| < |t| && t[|t| - 1].reply == e && t[|t| - 1].key != KeySuccess)
  {
    var (e, t) := Sweep(cfg, s.trace, Idle(s.processed), KeyNoArgs);
    var qs := SweepQuestions(cfg, Idle(s.processed), KeyNoArgs);
    SweepAsks(cfg, s.trace, Idle(s.processed), KeyNoArgs);
    if e == Zero {
      SweepAsks(cfg, t, Downwards(|cfg.groups|), KeyEnd);
      AsksMore(s.trace, t, Sweep(cfg, t, Downwards(|cfg.groups|), KeyEnd).1, qs, Down(cfg, KeyEnd));
    } else {
      AsksFewer(s.trace, t, qs, Down(cfg, KeyEnd));
    }
  }

  /** A parse that is refused: ERROR to all groups, then FINI to all; the result is the error, EINVAL for EBADKEY. */
  lemma RefusedEnd(cfg: Config, s: State, err: Error, canReturn: bool)
    requires |s.processed| == |cfg.groups| && Refuses(s, err, canReturn)
    ensures var (e, t) := Finalize(cfg, s, err, canReturn);
            && AsksAll(s.trace, t, Up(cfg, KeyError) + Down(cfg, KeyFini))
            && e == (if err.Hard? then err else Hard(22))
            && (!canReturn || (err != Zero && !(err == BadKey && s.argEbadkey)) ==> EndIndex(s, err, canReturn) == None)
  {
    var u := SweepAll(cfg, s.trace, Upwards(|cfg.groups|), KeyError);
    SweepAllAsks(cfg, s.trace, Upwards(|cfg.groups|), KeyError);
    SweepAllAsks(cfg, u, Downwards(|cfg.groups|), KeyFini);
    AsksMore(s.trace, u, SweepAll(cfg, u, Downwards(|cfg.groups|), KeyFini), Up(cfg, KeyError), Down(cfg, KeyFini));
  }

  /** The calls of the end up to a failure, after U, that may be followed by ERROR calls, up to V. */
  ghost predicate FailedEnd(cfg: Config, s: State, e: Error, u: seq<Call>, v: seq<Call>, t: seq<Call>)
    requires |s.processed| == |cfg.groups|
  {
    && Asks(s.trace, u, GoodEnd(cfg, s)) && |s.trace| < |u| && u[|u| - 1].reply == e
    && (if u[|u| - 1].key == KeySuccess then v == u else AsksAll(u, v, Up(cfg, KeyError)))
    && AsksAll(v, t, Down(cfg, KeyFini))
  }

  lemma SuccessAsks(cfg: Config, s: State, u: seq<Call>)
    requires |s.processed| == |cfg.groups| && AsksAll(s.trace, u, BeforeSuccess(cfg, s))
    ensures var (e, t) := Conclude(cfg, Zero, u);
            && (e == Zero ==> AsksAll(s.trace, t, GoodEnd(cfg, s) + Down(cfg, KeyFini)))
            && (e != Zero ==> exists v: seq<Call> :: FailedEnd(cfg, s, e, v, v, t))
  {
    var (f, v) := Sweep(cfg, u, Downwards(|cfg.groups|), KeySuccess);
    var t := SweepAll(cfg, v, Downwards(|cfg.groups|), KeyFini);
    SweepAsks(cfg, u, Downwards(|cfg.groups|), KeySuccess);
    AsksMore(s.trace, u, v, BeforeSuccess(cfg, s), Down(cfg, KeySuccess));
    SweepAllAsks(cfg, v, Downwards(|cfg.groups|), KeyFini);
    assert Conclude(cfg, Zero, u) == (f, t);
    if f == Zero {
      AsksMore(s.trace, v, t, GoodEnd(cfg, s), Down(cfg, KeyFini));
    } else {
      assert FailedEnd(cfg, s, f, v, v, t);
    }
  }

  lemma FailureAsks(cfg: Config, s: State, e: Error, u: seq<Call>)
    requires |s.processed| == |cfg.groups| && e.Hard? && Asks(s.trace, u, BeforeSuccess(cfg, s))
    requires |s.trace| < |u| && u[|u| - 1].reply == e && u[|u| - 1].key != KeySuccess
    ensures var (f, t) := Conclude(cfg, e, u); f == e && exists v: seq<Call> :: FailedEnd(cfg, s, e, u, v, t)
  {
    var v := SweepAll(cfg, u, Upwards(|cfg.groups|), KeyError);
    var t := SweepAll(cfg, v, Downwards(|cfg.groups|), KeyFini);
    AsksFewer(s.trace, u, BeforeSuccess(cfg, s), Down(cfg, KeySuccess));
    SweepAllAsks(cfg, u, Upwards(|cfg.groups|), KeyError);
    SweepAllAsks(cfg, v, Downwards(|cfg.groups|), KeyFini);
    assert FailedEnd(cfg, s, e, u, v, t);
  }

  /** A parse that is not refused and returns 0 asked all that GoodEnd says and then FINI; if it does not, the groups
      were asked the first part of GoodEnd up to the failure that is the result, then ERROR, if that came before
      SUCCESS, and FINI. */
  lemma GoodEndAsks(cfg: Config, s: State, err: Error, canReturn: bool)
    requires |s.processed| == |cfg.groups| && !Refuses(s, err, canReturn)
    ensures var (e, t) := Finalize(cfg, s, err, canReturn);
            && (e == Zero ==> AsksAll(s.trace, t, GoodEnd(cfg, s) + Down(cfg, KeyFini)))
            && (e != Zero ==> exists u: seq<Call>, v: seq<Call> :: FailedEnd(cfg, s, e, u, v, t))
            && EndIndex(s, err, canReturn) == if canReturn then Some(s.next) else None
  {
    var (e, u) := Verdict(cfg, s, err, canReturn);
    VerdictAsks(cfg, s, err, canReturn);
    if e == Zero {
      SuccessAsks(cfg, s, u);
    } else {
      FailureAsks(cfg, s, e, u);
    }
  }

  lemma VerdictAsks(cfg: Config, s: State, err: Error, canReturn: bool)
    requires |s.processed| == |cfg.groups| && !Refuses(s, err, canReturn)
    ensures var (e, u) := Verdict(cfg, s, err, canReturn);
            var first := BeforeSuccess(cfg, s);
            && Asks(s.trace, u, first) && (e == Zero ==> AsksAll(s.trace, u, first))
            && (e != Zero ==> |s.trace| < |u| && u[|u| - 1].reply == e && e.Hard? && u[|u| - 1].key != KeySuccess)
  {
    if s.next == |s.argv| {
      EndCallsAsk(cfg, s);
    } else {
      AsksNothing(s.trace, []);
    }
  }

  /** The questions at the beginning: INIT to all groups; a failure ends the parse at once. */
  lemma InitAsks(cfg: Config, argv: seq<string>, parseArgv0: bool)
    ensures var (e, s) := Initialize(cfg, argv, parseArgv0);
            && Asks([], s.trace, Up(cfg, KeyInit)) && (e == Zero ==> AsksAll([], s.trace, Up(cfg, KeyInit)))
            && (e != Zero ==> s.trace != [] && s.trace[|s.trace| - 1].reply == e)
            && s.argv == argv && s.next == (if argv != [] && !parseArgv0 then 1 else 0)
  {
    SweepAsks(cfg, [], Upwards(|cfg.groups|), KeyInit);
  }

  /** Who is asked, and in which order. */
  lemma {:induction false} SweepQuestionsAre(cfg: Config, order: seq<nat>, key: Key, g: nat)
    requires InRange(order, |cfg.groups|)
    ensures Question(g, key, None) in SweepQuestions(cfg, order, key) <==> g in order && g < |cfg.groups| && cfg.groups[g].parser
    decreases |order|
  {
    if order != [] {
      SweepQuestionsAre(cfg, order[1..], key, g);
    }
  }
}
