/** The argument scanner: one call of parser_parse_next as a function on states, and the loop of
    argp_parse over it. */
module ArgpParser {
  import opened Maybes
  import opened ArgpExchange
  import opened ArgpLookup

  datatype Ordering = RequireOrder | Permute | ReturnInOrder

  datatype Key = KeyInit | KeyOption(key: int) | KeyArg | KeyArgs | KeyNoArgs | KeyEnd | KeySuccess | KeyError | KeyFini

  /** What a parsing function returns: 0, EBADKEY, or any other error. */
  datatype Error = Zero | BadKey | Hard(code: int)

  /** One call of a parsing function, with its answer. */
  datatype Call = Call(group: nat, key: Key, value: Maybe<string>, reply: Error)

  /** The user's parsing functions.  Each answer may depend on every earlier call and answer. */
  type User = (seq<Call>, nat, Key, Maybe<string>) -> Error

  datatype Config = Config(groups: seq<Group>, ordering: Ordering, longOnly: bool, shortOpts: string, user: User)

  /** The scanning state.  An empty nextchar models the NULL pointer. */
  datatype State = State(
    argv: seq<string>,
    next: nat,
    first: nat,           // first_nonopt
    last: nat,            // last_nonopt
    quoted: nat,
    argsOnly: bool,
    nextchar: string,
    argEbadkey: bool,
    processed: seq<nat>,  // args_processed, group by group
    trace: seq<Call>)

  /** How a step ends.  All but More stop the parse. */
  datatype Outcome =
    | More
    | Done                  // no argument left
    | ArgRejected           // no parser wants the next argument
    | BadOption             // unknown option, missing or unexpected option argument
    | OptionRefused(e: Error) // the option's own parser failed
    | ArgFailed(e: Error)   // a parser failed on an argument
    | Abort                 // the assertion that option characters are ASCII

  function ErrorOf(o: Outcome): Error {
    match o
    case More => Zero
    case Done => BadKey
    case ArgRejected => BadKey
    case BadOption => BadKey
    case OptionRefused(e) => e
    case ArgFailed(e) => e
    case Abort => BadKey
  }

  ghost predicate Valid(cfg: Config, s: State) {
    && |s.processed| == |cfg.groups|
    && s.next <= |s.argv|
    && s.first <= s.last <= s.next
    && (s.first == s.last ==> s.first == 0)
    && (s.first != s.last ==> cfg.ordering == Permute)
    && (s.argsOnly ==> s.first == s.last && s.nextchar == "")
    && (s.quoted != 0 ==> s.argsOnly && s.quoted <= s.next)
  }

  /** GROUP_PARSE: a group without a parsing function answers EBADKEY. */
  function GroupParse(cfg: Config, trace: seq<Call>, g: nat, key: Key, value: Maybe<string>): (r: (Error, seq<Call>))
    requires g < |cfg.groups|
  {
    if cfg.groups[g].parser then
      var e := cfg.user(trace, g, key, value);
      (e, trace + [Call(g, key, value, e)])
    else (BadKey, trace)
  }

  /** An option as the scanner decodes it: whom to call, and whether the next element was its value. */
  datatype Decoded =
    | NotAscii
    | Rejected
    | Use(group: nat, key: int, value: Maybe<string>, cluster: string, took: bool)

  /** The first character of a cluster of short options; ARGS are the elements not scanned yet. */
  function DecodeShort(groups: seq<Group>, cluster: string, args: seq<string>): (d: Decoded)
    requires cluster != ""
    ensures d.Use? ==> d.group < |groups| && |d.cluster| < |cluster| && (d.took ==> args != [])
  {
    if cluster[0] as int >= 128 then NotAscii
    else match FirstWithKey(Slots(groups), cluster[0] as int)
      case None => Rejected
      case Some(slot) =>
        var rest := cluster[1..];
        if !slot.option.takesArg then Use(slot.group, slot.option.key, None, rest, false)
        else if rest != "" then Use(slot.group, slot.option.key, Some(rest), "", false)
        else if slot.option.argOptional then Use(slot.group, slot.option.key, None, "", false)
        else if args == [] then Rejected
        else Use(slot.group, slot.option.key, Some(args[0]), "", true)
  }

  /** A long option, given its text after the dashes. */
  function DecodeLong(groups: seq<Group>, text: string, args: seq<string>): (d: Decoded)
    ensures d.Use? ==> d.group < |groups| && d.cluster == "" && (d.took ==> args != [])
  {
    match LongMatch(Slots(groups), text)
    case None => Rejected
    case Some(slot) =>
      var inline := if Stem(text) == text then None else Some(text[|Stem(text)| + 1..]);
      if inline.Some? && !slot.option.takesArg then Rejected
      else if slot.option.takesArg && inline.None? && !slot.option.argOptional then
        if args == [] then Rejected
        else Use(slot.group, slot.option.key, Some(args[0]), "", true)
      else Use(slot.group, slot.option.key, inline, "", false)
  }

  /** The answer to an offer: the error, the group and key of the call that gave it, and all calls so far. */
  datatype Offer = Offer(error: Error, group: nat, key: Key, trace: seq<Call>)

  /** Offer the argument VALUE to the groups from G on, first as ARG and then as ARGS. */
  function OfferArg(cfg: Config, trace: seq<Call>, g: nat, value: string): (o: Offer)
    requires g <= |cfg.groups|
    ensures o.error != BadKey ==> o.group < |cfg.groups| && (o.key == KeyArg || o.key == KeyArgs)
    decreases |cfg.groups| - g
  {
    if g == |cfg.groups| then Offer(BadKey, g, KeyArg, trace)
    else
      var (e1, t1) := GroupParse(cfg, trace, g, KeyArg, Some(value));
      if e1 != BadKey then Offer(e1, g, KeyArg, t1)
      else
        var (e2, t2) := GroupParse(cfg, t1, g, KeyArgs, None);
        if e2 != BadKey then Offer(e2, g, KeyArgs, t2)
        else OfferArg(cfg, t2, g + 1, value)
  }

  function ParseArg(cfg: Config, s: State): (r: (State, Outcome))
    requires Valid(cfg, s) && s.next < |s.argv|
  {
    var o := OfferArg(cfg, s.trace, 0, s.argv[s.next]);
    var t := s.(trace := o.trace);
    match o.error
    case BadKey => (t, ArgRejected)
    case Hard(_) => (if o.key == KeyArg then t.(next := s.next + 1) else t, ArgFailed(o.error))
    case Zero =>
      var next := if o.key == KeyArgs then |s.argv| else s.next + 1;
      (t.(next := next, processed := s.processed[o.group := s.processed[o.group] + (next - s.next)]), More)
  }

  /** The effect of exchange on the state. */
  function Exchange(cfg: Config, s: State): State
    requires Valid(cfg, s)
  {
    s.(argv := Rotated(s.argv, s.first, s.last, s.next), first := s.first + (s.next - s.last), last := s.next)
  }

  /** Call the parser of a decoded option and account for the elements it used. */
  function Dispatch(cfg: Config, s: State, d: Decoded): (r: (State, Outcome))
    requires d.Use? && d.group < |cfg.groups|
  {
    var (e, trace) := GroupParse(cfg, s.trace, d.group, KeyOption(d.key), d.value);
    (s.(nextchar := d.cluster, next := s.next + if d.took then 1 else 0, trace := trace),
     if e == Zero then More else OptionRefused(e))
  }

  function StepShort(cfg: Config, s: State): (r: (State, Outcome))
    requires Valid(cfg, s) && s.nextchar != ""
  {
    var d := DecodeShort(cfg.groups, s.nextchar, s.argv[s.next..]);
    match d
    case NotAscii => (s.(nextchar := s.nextchar[1..]), Abort)
    case Rejected => (s.(nextchar := s.nextchar[1..], argEbadkey := false), BadOption)
    case Use(_, _, _, _, _) => Dispatch(cfg, s, d)
  }

  function StepLong(cfg: Config, s: State, text: string): (r: (State, Outcome))
    requires Valid(cfg, s) && s.next < |s.argv|
  {
    var t := s.(next := s.next + 1, argEbadkey := false);
    var d := DecodeLong(cfg.groups, text, t.argv[t.next..]);
    if d.Use? then Dispatch(cfg, t, d) else (t, BadOption)
  }

  /** The next element is not an option. */
  function StepArg(cfg: Config, s: State): (r: (State, Outcome))
    requires Valid(cfg, s) && s.next < |s.argv| && !s.argsOnly
  {
    match cfg.ordering
    case Permute =>
      var t := if s.first == s.last then s.(first := s.next, last := s.next)
               else if s.last != s.next then Exchange(cfg, s) else s;
      (t.(next := t.next + 1, last := t.next + 1), More)
    case RequireOrder => (s.(argsOnly := true), More)
    case ReturnInOrder => ParseArg(cfg, s.(argEbadkey := true))
  }

  /** The next element is "--". */
  function StepQuote(cfg: Config, s: State): (r: (State, Outcome))
    requires Valid(cfg, s) && s.next < |s.argv| && !s.argsOnly
  {
    var t := s.(next := s.next + 1);
    if t.first != t.last then
      var x := Exchange(cfg, t);
      (x.(next := x.first, quoted := x.first, first := 0, last := 0, argsOnly := true), More)
    else (t.(quoted := t.next, argsOnly := true), More)
  }

  /** No element is left. */
  function StepEnd(cfg: Config, s: State): (r: (State, Outcome))
    requires Valid(cfg, s)
  {
    var t := s.(argEbadkey := true);
    if s.first != s.last then
      var x := Exchange(cfg, t);
      (x.(next := x.first, first := 0, last := 0, argsOnly := true), More)
    else (t, Done)
  }

  /** PARSER_PARSE_NEXT on a valid state. */
  function Step(cfg: Config, s: State): (r: (State, Outcome))
    requires Valid(cfg, s)
  {
    if s.nextchar != "" then StepShort(cfg, s)
    else if s.argsOnly then
      var t := s.(argEbadkey := true);
      if s.next >= |s.argv| then (t, Done) else ParseArg(cfg, t)
    else if s.next >= |s.argv| then StepEnd(cfg, s)
    else match Classify(cfg.longOnly, cfg.shortOpts, s.argv[s.next])
      case ArgToken => StepArg(cfg, s)
      case QuoteToken => StepQuote(cfg, s)
      case LongToken(text) => StepLong(cfg, s, text)
      case LongOnlyToken(text) => StepLong(cfg, s, text)
      case ShortToken(text) => (s.(next := s.next + 1, nextchar := text), More)
  }

  /** T is a valid state closer to the end than S: either argsOnly was set, or more of argv
      has been passed, or a cluster of short options got shorter. */
  ghost predicate Advances(cfg: Config, s: State, t: State) {
    && Valid(cfg, t)
    && |t.argv| == |s.argv|
    && (|| (!s.argsOnly && t.argsOnly)
        || (s.argsOnly == t.argsOnly && s.next < t.next)
        || (s.argsOnly == t.argsOnly && s.next == t.next && |t.nextchar| < |s.nextchar|))
  }

  lemma ParseArgProgress(cfg: Config, s: State)
    requires Valid(cfg, s) && s.next < |s.argv| && ParseArg(cfg, s).1 == More
    ensures Advances(cfg, s, ParseArg(cfg, s).0)
  {
  }

  lemma StepArgProgress(cfg: Config, s: State)
    requires Valid(cfg, s) && s.next < |s.argv| && !s.argsOnly && s.nextchar == "" && StepArg(cfg, s).1 == More
    ensures Advances(cfg, s, StepArg(cfg, s).0)
  {
    if cfg.ordering == ReturnInOrder {
      ParseArgProgress(cfg, s.(argEbadkey := true));
    }
  }

  lemma StepQuoteProgress(cfg: Config, s: State)
    requires Valid(cfg, s) && s.next < |s.argv| && !s.argsOnly && s.nextchar == ""
    ensures Advances(cfg, s, StepQuote(cfg, s).0)
  {
  }

  lemma StepLongProgress(cfg: Config, s: State, text: string)
    requires Valid(cfg, s) && s.next < |s.argv| && !s.argsOnly && s.nextchar == "" && StepLong(cfg, s, text).1 == More
    ensures Advances(cfg, s, StepLong(cfg, s, text).0)
  {
  }

  lemma StepShortProgress(cfg: Config, s: State)
    requires Valid(cfg, s) && s.nextchar != "" && StepShort(cfg, s).1 == More
    ensures Advances(cfg, s, StepShort(cfg, s).0)
  {
  }

  /** Every step that goes on advances, even where next jumps back to the skipped arguments. */
  lemma StepProgress(cfg: Config, s: State)
    requires Valid(cfg, s) && Step(cfg, s).1 == More
    ensures Advances(cfg, s, Step(cfg, s).0)
  {
    if s.nextchar != "" {
      StepShortProgress(cfg, s);
    } else if s.argsOnly {
      ParseArgProgress(cfg, s.(argEbadkey := true));
    } else if s.next < |s.argv| {
      match Classify(cfg.longOnly, cfg.shortOpts, s.argv[s.next]) {
        case ArgToken => StepArgProgress(cfg, s);
        case QuoteToken => StepQuoteProgress(cfg, s);
        case LongToken(text) => StepLongProgress(cfg, s, text);
        case LongOnlyToken(text) => StepLongProgress(cfg, s, text);
        case ShortToken(text) =>
      }
    }
  }

  /** The loop of argp_parse can tell from the error whether to go on. */
  lemma StepError(cfg: Config, s: State)
    requires Valid(cfg, s)
    ensures Step(cfg, s).1 == More <==> ErrorOf(Step(cfg, s).1) == Zero
  {
  }

  /** The loop of argp_parse: steps until one does not return 0. */
  function Run(cfg: Config, s: State): (r: (State, Outcome))
    requires Valid(cfg, s)
    ensures r.1 != More
    decreases !s.argsOnly, |s.argv| - s.next, |s.nextchar|
  {
    var (t, o) := Step(cfg, s);
    if o != More then (t, o) else
      StepProgress(cfg, s);
      Run(cfg, t)
  }
}
