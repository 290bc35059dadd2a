/** argp_parse from parser_init to parser_finalize, and the calls every group sees. */
module ArgpLifecycle {
  import opened Maybes
  import opened ArgpParser
  import opened ArgpModes

  const EINVAL := 22

  predicate InRange(order: seq<nat>, n: nat) {
    forall i :: 0 <= i < |order| ==> order[i] < n
  }

  /** One loop over groups: call each group of ORDER with KEY until one fails hard.  EBADKEY
      answers are ignored. */
  function Sweep(cfg: Config, trace: seq<Call>, order: seq<nat>, key: Key): (r: (Error, seq<Call>))
    requires InRange(order, |cfg.groups|)
    ensures r.0 != BadKey
    decreases |order|
  {
    if order == [] then (Zero, trace)
    else
      var (e, t) := GroupParse(cfg, trace, order[0], key, None);
      if e.Hard? then (e, t) else Sweep(cfg, t, order[1..], key)
  }

  /** The same without looking at the answers. */
  function SweepAll(cfg: Config, trace: seq<Call>, order: seq<nat>, key: Key): seq<Call>
    requires InRange(order, |cfg.groups|)
    decreases |order|
  {
    if order == [] then trace
    else SweepAll(cfg, GroupParse(cfg, trace, order[0], key, None).1, order[1..], key)
  }

  lemma {:induction false} SweepConcat(cfg: Config, trace: seq<Call>, a: seq<nat>, b: seq<nat>, key: Key)
    requires InRange(a, |cfg.groups|) && InRange(b, |cfg.groups|) && InRange(a + b, |cfg.groups|)
    ensures Sweep(cfg, trace, a + b, key) ==
            var (e, t) := Sweep(cfg, trace, a, key); if e.Hard? then (e, t) else Sweep(cfg, t, b, key)
    decreases |a|
  {
    if a == [] {
      assert a + b == b;
    } else {
      assert (a + b)[1..] == a[1..] + b;
      SweepConcat(cfg, GroupParse(cfg, trace, a[0], key, None).1, a[1..], b, key);
    }
  }

  function Upwards(n: nat): seq<nat> {
    seq(n, i => i)
  }

  function Downwards(n: nat): seq<nat> {
    seq(n, i requires 0 <= i < n => n - 1 - i)
  }

  /** The groups that processed no argument. */
  function Idle(processed: seq<nat>): (r: seq<nat>)
    ensures InRange(r, |processed|)
  {
    if processed == [] then []
    else
      var n := |processed| - 1;
      Idle(processed[..n]) + if processed[n] == 0 then [n] else []
  }

  /** The state before the first step; an error when a group's INIT call fails. */
  function Initialize(cfg: Config, argv: seq<string>, parseArgv0: bool): (r: (Error, State))
    ensures r.0 == Zero ==> Valid(cfg, r.1)
  {
    var (e, t) := Sweep(cfg, [], Upwards(|cfg.groups|), KeyInit);
    var next := if argv != [] && !parseArgv0 then 1 else 0;
    (e, State(argv, next, 0, 0, 0, false, "", false, seq(|cfg.groups|, _ => 0), t))
  }

  /** The end-of-arguments calls of parser_finalize. */
  function EndCalls(cfg: Config, s: State): (r: (Error, seq<Call>))
    requires |s.processed| == |cfg.groups|
    ensures r.0 != BadKey
  {
    var (e, t) := Sweep(cfg, s.trace, Idle(s.processed), KeyNoArgs);
    if e != Zero then (e, t) else Sweep(cfg, t, Downwards(|cfg.groups|), KeyEnd)
  }

  /** The first half of parser_finalize: is the parse as a whole a success?  CANRETURN says that
      the caller asked for the index of the first argument left over. */
  function Verdict(cfg: Config, s: State, err: Error, canReturn: bool): (r: (Error, seq<Call>))
    requires |s.processed| == |cfg.groups|
  {
    if err != Zero && !(err == BadKey && s.argEbadkey) then (err, s.trace)
    else if s.next == |s.argv| then EndCalls(cfg, s)
    else (if canReturn then Zero else BadKey, s.trace)
  }

  /** The second half: tell the groups, and clean up. */
  function Conclude(cfg: Config, err: Error, trace: seq<Call>): (r: (Error, seq<Call>)) {
    var n := |cfg.groups|;
    var (e, t) := if err != Zero then (err, SweepAll(cfg, trace, Upwards(n), KeyError))
                  else Sweep(cfg, trace, Downwards(n), KeySuccess);
    (if e == BadKey then Hard(EINVAL) else e, SweepAll(cfg, t, Downwards(n), KeyFini))
  }

  function Finalize(cfg: Config, s: State, err: Error, canReturn: bool): (r: (Error, seq<Call>))
    requires |s.processed| == |cfg.groups|
  {
    var (e, t) := Verdict(cfg, s, err, canReturn);
    Conclude(cfg, e, t)
  }

  /** What parser_finalize stores for a caller who asks for it: the index of the first argument left over,
      unless it is called with an error that counts. */
  function EndIndex(s: State, err: Error, canReturn: bool): Maybe<nat> {
    if canReturn && (err == Zero || (err == BadKey && s.argEbadkey)) then Some(s.next) else None
  }

  // ---------- the protocol each parsing function sees ----------

  datatype Phase = Unborn | Running | NoArgsSeen | Ended | Succeeded | Failed | Finished | Illegal

  /** INIT (opt | ARG | ARGS)* NO_ARGS? END? (SUCCESS? | ERROR) FINI, as an automaton; NO_ARGS is
      followed by END or, after a failure, by ERROR. */
  function Advance(p: Phase, k: Key): Phase {
    match p
    case Unborn => if k.KeyInit? then Running else Illegal
    case Running =>
      if k.KeyOption? || IsArgKey(k) then Running
      else if k.KeyNoArgs? then NoArgsSeen
      else if k.KeyEnd? then Ended
      else if k.KeySuccess? then Succeeded
      else if k.KeyError? then Failed
      else if k.KeyFini? then Finished
      else Illegal
    case NoArgsSeen => if k.KeyEnd? then Ended else if k.KeyError? then Failed else Illegal
    case Ended =>
      if k.KeySuccess? then Succeeded else if k.KeyError? then Failed else if k.KeyFini? then Finished else Illegal
    case Succeeded => if k.KeyFini? then Finished else Illegal
    case Failed => if k.KeyFini? then Finished else Illegal
    case Finished => Illegal
    case Illegal => Illegal
  }

  function PhaseOf(trace: seq<Call>, g: nat): Phase {
    if trace == [] then Unborn
    else
      var n := |trace| - 1;
      var p := PhaseOf(trace[..n], g);
      if trace[n].group == g then Advance(p, trace[n].key) else p
  }

  lemma CallPhase(cfg: Config, trace: seq<Call>, h: nat, key: Key, value: Maybe<string>, g: nat)
    requires h < |cfg.groups|
    ensures var t := GroupParse(cfg, trace, h, key, value).1;
            PhaseOf(t, g) == if h == g && cfg.groups[h].parser then Advance(PhaseOf(trace, g), key) else PhaseOf(trace, g)
  {
    var e := cfg.user(trace, h, key, value);
    assert (trace + [Call(h, key, value, e)])[..|trace|] == trace;
  }

  ghost predicate Distinct(order: seq<nat>) {
    forall i, j :: 0 <= i < j < |order| ==> order[i] != order[j]
  }

  /** A loop over groups moves each group on at most once, and all of ORDER if nothing fails. */
  lemma {:induction false} SweepPhase(cfg: Config, trace: seq<Call>, order: seq<nat>, key: Key, g: nat)
    requires InRange(order, |cfg.groups|) && Distinct(order) && g < |cfg.groups| && cfg.groups[g].parser
    ensures var (e, t) := Sweep(cfg, trace, order, key); var p := PhaseOf(trace, g);
            && (PhaseOf(t, g) == p || (g in order && PhaseOf(t, g) == Advance(p, key)))
            && (e == Zero && g in order ==> PhaseOf(t, g) == Advance(p, key))
    decreases |order|
  {
    if order != [] {
      CallPhase(cfg, trace, order[0], key, None, g);
      var (e, t) := GroupParse(cfg, trace, order[0], key, None);
      if !e.Hard? {
        SweepPhase(cfg, t, order[1..], key, g);
        assert g == order[0] ==> g !in order[1..];
      }
    }
  }

  lemma {:induction false} SweepAllPhase(cfg: Config, trace: seq<Call>, order: seq<nat>, key: Key, g: nat)
    requires InRange(order, |cfg.groups|) && Distinct(order) && g < |cfg.groups| && cfg.groups[g].parser
    ensures PhaseOf(SweepAll(cfg, trace, order, key), g) ==
            if g in order then Advance(PhaseOf(trace, g), key) else PhaseOf(trace, g)
    decreases |order|
  {
    if order != [] {
      CallPhase(cfg, trace, order[0], key, None, g);
      SweepAllPhase(cfg, GroupParse(cfg, trace, order[0], key, None).1, order[1..], key, g);
      assert g == order[0] ==> g !in order[1..];
    }
  }

  lemma OrdersCover(n: nat, g: nat)
    requires g < n
    ensures g in Upwards(n) && g in Downwards(n) && Distinct(Upwards(n)) && Distinct(Downwards(n))
  {
    assert Upwards(n)[g] == g;
    assert Downwards(n)[n - 1 - g] == g;
  }

  lemma {:induction false} IdleAreIdle(processed: seq<nat>)
    ensures forall g <- Idle(processed) :: g < |processed| && processed[g] == 0
  {
    if processed != [] {
      IdleAreIdle(processed[..|processed| - 1]);
    }
  }

  lemma {:induction false} IdleDistinct(processed: seq<nat>)
    ensures Distinct(Idle(processed))
    ensures forall g: nat :: g < |processed| && processed[g] == 0 ==> g in Idle(processed)
  {
    if processed != [] {
      var n := |processed| - 1;
      IdleDistinct(processed[..n]);
      forall g: nat | g < |processed| && processed[g] == 0
        ensures g in Idle(processed)
      {
        if g < n {
          assert processed[..n][g] == 0;
        }
      }
    }
  }

  /** Options and arguments keep every group running. */
  lemma {:induction false} ExtendingKeepsRunning(cfg: Config, s: seq<Call>, t: seq<Call>, g: nat)
    requires Extends(cfg, s, t, true, true) && PhaseOf(s, g) == Running
    ensures PhaseOf(t, g) == Running
    decreases |t|
  {
    if |s| < |t| {
      var u := t[..|t| - 1];
      assert t[|t| - 1] in t[|s|..];
      assert forall c <- u[|s|..] :: c in t[|s|..];
      ExtendingKeepsRunning(cfg, s, u, g);
    } else {
      assert s == t;
    }
  }

  lemma VerdictPhase(cfg: Config, s: State, err: Error, canReturn: bool, g: nat)
    requires |s.processed| == |cfg.groups| && g < |cfg.groups| && cfg.groups[g].parser
    requires PhaseOf(s.trace, g) == Running
    ensures var (e, t) := Verdict(cfg, s, err, canReturn); var p := PhaseOf(t, g);
            p == Running || p == Ended || (p == NoArgsSeen && e != Zero)
  {
    OrdersCover(|cfg.groups|, g);
    IdleDistinct(s.processed);
    SweepPhase(cfg, s.trace, Idle(s.processed), KeyNoArgs, g);
    SweepPhase(cfg, Sweep(cfg, s.trace, Idle(s.processed), KeyNoArgs).1, Downwards(|cfg.groups|), KeyEnd, g);
  }

  /** SUCCESS takes a running or ended group on, unless a failure before it stops the loop. */
  lemma SuccessPhase(cfg: Config, trace: seq<Call>, g: nat)
    requires g < |cfg.groups| && cfg.groups[g].parser && (PhaseOf(trace, g) == Running || PhaseOf(trace, g) == Ended)
    ensures var p := PhaseOf(Sweep(cfg, trace, Downwards(|cfg.groups|), KeySuccess).1, g);
            p == Running || p == Ended || p == Succeeded
  {
    OrdersCover(|cfg.groups|, g);
    SweepPhase(cfg, trace, Downwards(|cfg.groups|), KeySuccess, g);
  }

  lemma ErrorPhase(cfg: Config, trace: seq<Call>, g: nat)
    requires g < |cfg.groups| && cfg.groups[g].parser
    requires var p := PhaseOf(trace, g); p == Running || p == Ended || p == NoArgsSeen
    ensures PhaseOf(SweepAll(cfg, trace, Upwards(|cfg.groups|), KeyError), g) == Failed
  {
    OrdersCover(|cfg.groups|, g);
    SweepAllPhase(cfg, trace, Upwards(|cfg.groups|), KeyError, g);
  }

  lemma FiniPhase(cfg: Config, trace: seq<Call>, g: nat)
    requires g < |cfg.groups| && cfg.groups[g].parser
    requires var p := PhaseOf(trace, g); p == Running || p == Ended || p == Succeeded || p == Failed
    ensures PhaseOf(SweepAll(cfg, trace, Downwards(|cfg.groups|), KeyFini), g) == Finished
  {
    OrdersCover(|cfg.groups|, g);
    SweepAllPhase(cfg, trace, Downwards(|cfg.groups|), KeyFini, g);
  }

  lemma ConcludePhase(cfg: Config, err: Error, trace: seq<Call>, g: nat)
    requires g < |cfg.groups| && cfg.groups[g].parser
    requires var p := PhaseOf(trace, g); p == Running || p == Ended || (p == NoArgsSeen && err != Zero)
    ensures PhaseOf(Conclude(cfg, err, trace).1, g) == Finished
  {
    var n := |cfg.groups|;
    if err != Zero {
      ErrorPhase(cfg, trace, g);
      FiniPhase(cfg, SweepAll(cfg, trace, Upwards(n), KeyError), g);
    } else {
      SuccessPhase(cfg, trace, g);
      FiniPhase(cfg, Sweep(cfg, trace, Downwards(n), KeySuccess).1, g);
    }
  }

  lemma {:induction false} RunKeepsGroups(cfg: Config, s: State)
    requires Valid(cfg, s)
    ensures |Run(cfg, s).0.processed| == |cfg.groups|
    decreases !s.argsOnly, |s.argv| - s.next, |s.nextchar|
  {
    var (t, o) := Step(cfg, s);
    if o == More {
      StepProgress(cfg, s);
      RunKeepsGroups(cfg, t);
    }
  }

  /** How argp_parse ends: the error it returns and all calls made, or a failed assertion. */
  datatype Result = Returned(error: Error, trace: seq<Call>) | Aborted

  function Parse(cfg: Config, argv: seq<string>, parseArgv0: bool, canReturn: bool): Result {
    var (e, s) := Initialize(cfg, argv, parseArgv0);
    if e != Zero then Returned(e, s.trace) else
      var (t, o) := Run(cfg, s);
      RunKeepsGroups(cfg, s);
      if o == Abort then Aborted else
        var (err, trace) := Finalize(cfg, t, ErrorOf(o), canReturn);
        Returned(err, trace)
  }

  /** Once every INIT call has succeeded, whatever the arguments and whatever the parsing functions
      answer, each of them goes through the whole protocol, exactly once. */
  lemma Lifecycle(cfg: Config, argv: seq<string>, parseArgv0: bool, canReturn: bool, g: nat)
    requires g < |cfg.groups| && cfg.groups[g].parser
    requires Initialize(cfg, argv, parseArgv0).0 == Zero
    ensures var r := Parse(cfg, argv, parseArgv0, canReturn); r.Returned? ==> PhaseOf(r.trace, g) == Finished
  {
    var n := |cfg.groups|;
    var s := Initialize(cfg, argv, parseArgv0).1;
    OrdersCover(n, g);
    SweepPhase(cfg, [], Upwards(n), KeyInit, g);
    RunExtends(cfg, s);
    RunKeepsGroups(cfg, s);
    ExtendingKeepsRunning(cfg, s.trace, Run(cfg, s).0.trace, g);
    var (t, o) := Run(cfg, s);
    VerdictPhase(cfg, t, ErrorOf(o), canReturn, g);
    var (e, trace) := Verdict(cfg, t, ErrorOf(o), canReturn);
    ConcludePhase(cfg, e, trace, g);
  }
}
