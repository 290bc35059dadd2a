/** The usage message: alternative argument patterns are numbered by an odometer whose digits are
    spread over the tree of argps. */
module ArgpUsage {
  import opened Sequences
  import opened ArgpTypes

  /** The alternatives in an args_doc: its lines. */
  function Lines(doc: string): (r: seq<string>)
    ensures |r| >= 1
  {
    if doc == "" then [""]
    else if doc[0] == '\n' then [""] + Lines(doc[1..])
    else
      var rest := Lines(doc[1..]);
      [[doc[0]] + rest[0]] + rest[1..]
  }

  lemma {:induction false} SeveralLines(doc: string)
    ensures |Lines(doc)| > 1 <==> '\n' in doc
  {
    if doc != "" && doc[0] != '\n' {
      SeveralLines(doc[1..]);
    }
  }

  function Joined(lines: seq<string>): string
    requires lines != []
  {
    if |lines| == 1 then lines[0] else lines[0] + "\n" + Joined(lines[1..])
  }

  /** The lines are what stands between the line ends. */
  lemma {:induction false} LinesOfDoc(doc: string)
    ensures Joined(Lines(doc)) == doc && forall l <- Lines(doc) :: '\n' !in l
  {
    if doc != "" {
      LinesOfDoc(doc[1..]);
      var rest := Lines(doc[1..]);
      assert doc == [doc[0]] + doc[1..];
      if doc[0] == '\n' {
        assert ([""] + rest)[1..] == rest;
        assert "" + "\n" + doc[1..] == doc;
      } else {
        FirstLonger(doc[0], rest);
      }
    }
  }

  lemma FirstLonger(c: char, lines: seq<string>)
    requires lines != []
    ensures Joined([[c] + lines[0]] + lines[1..]) == [c] + Joined(lines)
  {
    if |lines| > 1 {
      assert ([[c] + lines[0]] + lines[1..])[1..] == lines[1..];
      Assoc([c], lines[0], "\n" + Joined(lines[1..]));
    }
  }

  function Alternatives(argp: Argp): (r: seq<string>)
    ensures |r| >= 1
  {
    if argp.argsDoc.Some? then Lines(argp.argsDoc.value) else [""]
  }

  /** Only an argp with several alternatives has a digit. */
  predicate Multiple(argp: Argp) {
    |Alternatives(argp)| > 1
  }

  /** argp_args_levels: the number of digits of a tree. */
  function Levels(argp: Argp): nat
    decreases argp, 0
  {
    (if Multiple(argp) then 1 else 0) + LevelsAll(argp.children)
  }

  function LevelsAll(cs: Children): nat
    decreases cs, 1
  {
    if cs.Nil? then 0 else Levels(cs.argp) + LevelsAll(cs.rest)
  }

  method ArgsLevels(argp: Argp) returns (levels: nat)
    ensures levels == Levels(argp)
    decreases argp
  {
    levels := 0;
    if argp.argsDoc.Some? {
      SeveralLines(argp.argsDoc.value);
      if '\n' in argp.argsDoc.value {
        levels := 1;
      }
    }
    var child := argp.children;
    while child.Child?
      invariant child == argp.children || child < argp.children
      invariant levels + LevelsAll(child) == Levels(argp)
      decreases child
    {
      var more := ArgsLevels(child.argp);
      levels := levels + more;
      child := child.rest;
    }
  }

  // ---------- digits, the pattern they select, and their value ----------

  type Digits = seq<nat>

  /** The digit of the argp itself, which comes before those of its children. */
  function Own(argp: Argp): nat {
    if Multiple(argp) then 1 else 0
  }

  predicate InRange(argp: Argp, d: Digits)
    decreases argp, 0
  {
    && |d| == Levels(argp)
    && (Multiple(argp) ==> d[0] < |Alternatives(argp)|)
    && InRangeAll(argp.children, d[Own(argp)..])
  }

  predicate InRangeAll(cs: Children, d: Digits)
    decreases cs, 1
  {
    && |d| == LevelsAll(cs)
    && (cs.Child? ==> InRange(cs.argp, d[..Levels(cs.argp)]) && InRangeAll(cs.rest, d[Levels(cs.argp)..]))
  }

  function OwnDigit(argp: Argp, d: Digits): (r: nat)
    requires InRange(argp, d)
    ensures r < |Alternatives(argp)|
  {
    if Multiple(argp) then d[0] else 0
  }

  /** The pattern for given digits: one alternative for every argp that has an args_doc, in preorder. */
  function Pattern(argp: Argp, d: Digits): seq<string>
    requires InRange(argp, d)
    decreases argp, 0
  {
    (if argp.argsDoc.None? then [] else [Alternatives(argp)[OwnDigit(argp, d)]])
    + PatternAll(argp.children, d[Own(argp)..])
  }

  function PatternAll(cs: Children, d: Digits): seq<string>
    requires InRangeAll(cs, d)
    decreases cs, 1
  {
    if cs.Nil? then []
    else Pattern(cs.argp, d[..Levels(cs.argp)]) + PatternAll(cs.rest, d[Levels(cs.argp)..])
  }

  // Two-digit numbers in a mixed radix; all multiplication happens here.

  function Times(a: nat, b: nat): (r: nat)
    ensures a >= 1 && b >= 1 ==> r >= 1
  {
    if b == 0 then 0 else a + Times(a, b - 1)
  }

  lemma {:induction false} TimesIsProduct(a: nat, b: nat)
    ensures Times(a, b) == a * b
  {
    if b > 0 {
      TimesIsProduct(a, b - 1);
    }
  }

  function Mix(low: nat, radix: nat, high: nat): nat {
    low + Times(radix, high)
  }

  lemma {:induction false} TimesGrows(A: nat, b: nat, B: nat)
    requires b < B
    ensures Times(A, b) + A <= Times(A, B)
    decreases B
  {
    if b + 1 < B {
      TimesGrows(A, b, B - 1);
    }
  }

  lemma MixBound(a: nat, A: nat, b: nat, B: nat)
    requires a < A && b < B
    ensures Mix(a, A, b) < Times(A, B)
  {
    TimesGrows(A, b, B);
  }

  lemma MixUnique(a: nat, c: nat, A: nat, b: nat, d: nat)
    requires a < A && c < A && Mix(a, A, b) == Mix(c, A, d)
    ensures a == c && b == d
  {
    if b < d {
      TimesGrows(A, b, d);
    } else if d < b {
      TimesGrows(A, d, b);
    }
  }

  lemma MixNext(a: nat, A: nat, b: nat, B: nat)
    requires a < A && b < B
    ensures Mix(a + 1, A, b) == Mix(a, A, b) + 1
    ensures Mix(0, A, 0) == 0
    ensures a == A - 1 ==> Mix(0, A, b + 1) == Mix(a, A, b) + 1
    ensures a == A - 1 && b == B - 1 ==> Mix(a, A, b) == Times(A, B) - 1
  {
  }

  /** The number of patterns. */
  function Patterns(argp: Argp): (r: nat)
    ensures r >= 1
    decreases argp, 0
  {
    Times(PatternsAll(argp.children), |Alternatives(argp)|)
  }

  function PatternsAll(cs: Children): (r: nat)
    ensures r >= 1
    decreases cs, 1
  {
    if cs.Nil? then 1 else Times(Patterns(cs.argp), PatternsAll(cs.rest))
  }

  function Product(ns: seq<nat>): nat {
    if ns == [] then 1 else ns[0] * Product(ns[1..])
  }

  /** The numbers of alternatives of all argps of the tree, in preorder. */
  function Counts(argp: Argp): seq<nat>
    decreases argp, 0
  {
    [|Alternatives(argp)|] + CountsAll(argp.children)
  }

  function CountsAll(cs: Children): seq<nat>
    decreases cs, 1
  {
    if cs.Nil? then [] else Counts(cs.argp) + CountsAll(cs.rest)
  }

  lemma {:induction false} ProductAdd(a: seq<nat>, b: seq<nat>)
    ensures Product(a + b) == Product(a) * Product(b)
  {
    if a == [] {
      assert a + b == b;
    } else {
      assert (a + b)[1..] == a[1..] + b;
      ProductAdd(a[1..], b);
      MulAssoc(a[0], Product(a[1..]), Product(b));
    }
  }

  lemma MulAssoc(a: nat, b: nat, c: nat)
    ensures a * (b * c) == (a * b) * c
  {
  }

  /** The number of patterns is the product of the numbers of alternatives over all argps. */
  lemma {:induction false} PatternsIsProduct(argp: Argp)
    ensures Patterns(argp) == Product(Counts(argp))
    decreases argp, 0
  {
    PatternsAllIsProduct(argp.children);
    ProductFirst(|Alternatives(argp)|, CountsAll(argp.children));
  }

  lemma ProductFirst(n: nat, later: seq<nat>)
    ensures Product([n] + later) == Times(Product(later), n)
  {
    TimesIsProduct(Product(later), n);
    assert ([n] + later)[1..] == later;
  }

  lemma {:induction false} PatternsAllIsProduct(cs: Children)
    ensures PatternsAll(cs) == Product(CountsAll(cs))
    decreases cs, 1
  {
    if cs.Child? {
      PatternsIsProduct(cs.argp);
      PatternsAllIsProduct(cs.rest);
      TimesIsProduct(Patterns(cs.argp), PatternsAll(cs.rest));
      ProductAdd(Counts(cs.argp), CountsAll(cs.rest));
    }
  }

  /** The digits as a number: children before their parent, and an earlier child before a later one,
      starting from the least significant. */
  function Value(argp: Argp, d: Digits): nat
    requires InRange(argp, d)
    decreases argp, 0
  {
    Mix(ValueAll(argp.children, d[Own(argp)..]), PatternsAll(argp.children), OwnDigit(argp, d))
  }

  function ValueAll(cs: Children, d: Digits): nat
    requires InRangeAll(cs, d)
    decreases cs, 1
  {
    if cs.Nil? then 0
    else Mix(Value(cs.argp, d[..Levels(cs.argp)]), Patterns(cs.argp), ValueAll(cs.rest, d[Levels(cs.argp)..]))
  }

  lemma {:induction false} ValueBound(argp: Argp, d: Digits)
    requires InRange(argp, d)
    ensures Value(argp, d) < Patterns(argp)
    decreases argp, 0
  {
    ValueAllBound(argp.children, d[Own(argp)..]);
    MixBound(ValueAll(argp.children, d[Own(argp)..]), PatternsAll(argp.children),
               OwnDigit(argp, d), |Alternatives(argp)|);
  }

  lemma {:induction false} ValueAllBound(cs: Children, d: Digits)
    requires InRangeAll(cs, d)
    ensures ValueAll(cs, d) < PatternsAll(cs)
    decreases cs, 1
  {
    if cs.Child? {
      ValueBound(cs.argp, d[..Levels(cs.argp)]);
      ValueAllBound(cs.rest, d[Levels(cs.argp)..]);
      MixBound(Value(cs.argp, d[..Levels(cs.argp)]), Patterns(cs.argp),
                 ValueAll(cs.rest, d[Levels(cs.argp)..]), PatternsAll(cs.rest));
    }
  }

  /** Different digits have different values. */
  lemma {:induction false} ValueInjective(argp: Argp, d: Digits, e: Digits)
    requires InRange(argp, d) && InRange(argp, e) && Value(argp, d) == Value(argp, e)
    ensures d == e
    decreases argp, 0
  {
    var o := Own(argp);
    ValueAllBound(argp.children, d[o..]);
    ValueAllBound(argp.children, e[o..]);
    MixUnique(ValueAll(argp.children, d[o..]), ValueAll(argp.children, e[o..]), PatternsAll(argp.children),
                     OwnDigit(argp, d), OwnDigit(argp, e));
    ValueAllInjective(argp.children, d[o..], e[o..]);
    assert d == d[..o] + d[o..] && e == e[..o] + e[o..];
  }

  lemma {:induction false} ValueAllInjective(cs: Children, d: Digits, e: Digits)
    requires InRangeAll(cs, d) && InRangeAll(cs, e) && ValueAll(cs, d) == ValueAll(cs, e)
    ensures d == e
    decreases cs, 1
  {
    if cs.Child? {
      var n := Levels(cs.argp);
      ValueBound(cs.argp, d[..n]);
      ValueBound(cs.argp, e[..n]);
      MixUnique(Value(cs.argp, d[..n]), Value(cs.argp, e[..n]), Patterns(cs.argp),
                       ValueAll(cs.rest, d[n..]), ValueAll(cs.rest, e[n..]));
      ValueInjective(cs.argp, d[..n], e[..n]);
      ValueAllInjective(cs.rest, d[n..], e[n..]);
      SameParts(d, e, n);
    }
  }

  lemma SameParts(d: Digits, e: Digits, n: nat)
    requires n <= |d| == |e| && d[..n] == e[..n] && d[n..] == e[n..]
    ensures d == e
  {
    assert d == d[..n] + d[n..] && e == e[..n] + e[n..];
  }

  // ---------- one turn of the odometer ----------

  /** The digits after a call, and whether it still has to be advanced further up. */
  function Tick(argp: Argp, d: Digits, advance: bool): (r: (Digits, bool))
    requires InRange(argp, d)
    ensures |r.0| == |d|
    decreases argp, 0
  {
    var o := Own(argp);
    var (c, carry) := TickAll(argp.children, d[o..], advance);
    if !(carry && Multiple(argp)) then (d[..o] + c, carry)
    else if d[0] + 1 < |Alternatives(argp)| then ([d[0] + 1] + c, false)
    else ([0] + c, true)
  }

  function TickAll(cs: Children, d: Digits, advance: bool): (r: (Digits, bool))
    requires InRangeAll(cs, d)
    ensures |r.0| == |d|
    decreases cs, 1
  {
    if cs.Nil? then ([], advance)
    else
      var n := Levels(cs.argp);
      var (a, c1) := Tick(cs.argp, d[..n], advance);
      var (b, c2) := TickAll(cs.rest, d[n..], c1);
      (a + b, c2)
  }

  /** What Tick does to the own digit, once the children's digits C and their carry are known. */
  lemma TickNode(argp: Argp, d: Digits, c: Digits, carry: bool)
    requires InRange(argp, d) && InRangeAll(argp.children, c)
    ensures var o := Own(argp);
            var e := if !(carry && Multiple(argp)) then d[..o] + c
                     else if d[0] + 1 < |Alternatives(argp)| then [d[0] + 1] + c else [0] + c;
            && InRange(argp, e) && e[o..] == c
            && OwnDigit(argp, e) == if !(carry && Multiple(argp)) then OwnDigit(argp, d)
                                    else if d[0] + 1 < |Alternatives(argp)| then d[0] + 1 else 0
  {
    var o := Own(argp);
    var e := if !(carry && Multiple(argp)) then d[..o] + c
             else if d[0] + 1 < |Alternatives(argp)| then [d[0] + 1] + c else [0] + c;
    assert e[o..] == c;
  }

  /** Without advance nothing moves. */
  lemma {:induction false} TickIdle(argp: Argp, d: Digits)
    requires InRange(argp, d)
    ensures Tick(argp, d, false) == (d, false)
    decreases argp, 0
  {
    TickAllIdle(argp.children, d[Own(argp)..]);
    assert d == d[..Own(argp)] + d[Own(argp)..];
  }

  lemma {:induction false} TickAllIdle(cs: Children, d: Digits)
    requires InRangeAll(cs, d)
    ensures TickAll(cs, d, false) == (d, false)
    decreases cs, 1
  {
    if cs.Child? {
      var n := Levels(cs.argp);
      TickIdle(cs.argp, d[..n]);
      TickAllIdle(cs.rest, d[n..]);
      JoinDigits(d, n);
    }
  }

  lemma JoinDigits(d: Digits, n: nat)
    requires n <= |d|
    ensures d[..n] + d[n..] == d
  {
  }

  /** With advance the value goes up by one, or falls from the last to 0 with a carry. */
  ghost predicate Successor(v: nat, w: nat, carry: bool, patterns: nat) {
    if carry then v == patterns - 1 && w == 0 else w == v + 1
  }

  lemma {:induction false} TickIsSuccessor(argp: Argp, d: Digits)
    requires InRange(argp, d)
    ensures var (e, carry) := Tick(argp, d, true);
            InRange(argp, e) && Successor(Value(argp, d), Value(argp, e), carry, Patterns(argp))
    decreases argp, 0
  {
    var low := d[Own(argp)..];
    var (c, c1) := TickAll(argp.children, low, true);
    TickAllIsSuccessor(argp.children, low);
    TickNode(argp, d, c, c1);
    ValueAllBound(argp.children, low);
    MixNext(ValueAll(argp.children, low), PatternsAll(argp.children), OwnDigit(argp, d), |Alternatives(argp)|);
  }

  lemma {:induction false} TickAllIsSuccessor(cs: Children, d: Digits)
    requires InRangeAll(cs, d)
    ensures var (e, carry) := TickAll(cs, d, true);
            InRangeAll(cs, e) && Successor(ValueAll(cs, d), ValueAll(cs, e), carry, PatternsAll(cs))
    decreases cs, 1
  {
    if cs.Child? {
      var n := Levels(cs.argp);
      var (a, c1) := Tick(cs.argp, d[..n], true);
      var (b, c2) := TickAll(cs.rest, d[n..], c1);
      TickIsSuccessor(cs.argp, d[..n]);
      if c1 {
        TickAllIsSuccessor(cs.rest, d[n..]);
      } else {
        TickAllIdle(cs.rest, d[n..]);
      }
      assert (a + b)[..n] == a && (a + b)[n..] == b;
      ValueBound(cs.argp, d[..n]);
      ValueAllBound(cs.rest, d[n..]);
      MixNext(Value(cs.argp, d[..n]), Patterns(cs.argp), ValueAll(cs.rest, d[n..]), PatternsAll(cs.rest));
    }
  }

  // ---------- the calls that print ----------

  /** The position of the next newline, or the end: strchrnul. */
  function LineEnd(doc: string, at: nat): (r: nat)
    requires at <= |doc|
    ensures at <= r <= |doc| && (r < |doc| ==> doc[r] == '\n')
    decreases |doc| - at
  {
    if at == |doc| || doc[at] == '\n' then at else LineEnd(doc, at + 1)
  }

  lemma {:induction false} FirstLine(doc: string, at: nat)
    requires at <= |doc|
    ensures var nl := LineEnd(doc, at);
            && Lines(doc[at..])[0] == doc[at..nl]
            && Lines(doc[at..])[1..] == if nl == |doc| then [] else Lines(doc[nl + 1..])
    decreases |doc| - at
  {
    if at < |doc| {
      LinesStep(doc, at);
      if doc[at] != '\n' {
        FirstLine(doc, at + 1);
        assert doc[at..LineEnd(doc, at)] == [doc[at]] + doc[at + 1..LineEnd(doc, at)];
      }
    }
  }

  lemma LinesStep(doc: string, at: nat)
    requires at < |doc|
    ensures var rest := Lines(doc[at + 1..]);
      Lines(doc[at..]) == if doc[at] == '\n' then [""] + rest else [[doc[at]] + rest[0]] + rest[1..]
  {
    assert doc[at..][1..] == doc[at + 1..];
  }

  /** After line I of ALL come the others. */
  lemma NextLine(doc: string, at: nat, all: seq<string>, i: nat)
    requires at <= |doc| && i < |all| && Lines(doc[at..]) == all[i..]
    ensures var nl := LineEnd(doc, at);
      && doc[at..nl] == all[i] && (nl < |doc| <==> i + 1 < |all|)
      && (nl < |doc| ==> Lines(doc[nl + 1..]) == all[i + 1..])
  {
    FirstLine(doc, at);
    assert all[i..][0] == all[i] && all[i..][1..] == all[i + 1..];
  }

  /** The scan to alternative number LEVEL. */
  method FindAlternative(doc: string, level: nat) returns (cp: nat, nl: nat)
    requires level < |Lines(doc)|
    ensures cp <= nl <= |doc| && doc[cp..nl] == Lines(doc)[level]
    ensures nl < |doc| <==> level + 1 < |Lines(doc)|
  {
    ghost var all := Lines(doc);
    cp, nl := 0, LineEnd(doc, 0);
    assert doc[0..] == doc && all[0..] == all;
    for i := 0 to level
      invariant cp <= nl <= |doc| && nl == LineEnd(doc, cp)
      invariant Lines(doc[cp..]) == all[i..]
    {
      NextLine(doc, cp, all, i);
      cp := nl + 1;
      nl := LineEnd(doc, cp);
    }
    NextLine(doc, cp, all, level);
  }

  /** The digits D stand in LEVELS from POS on. */
  ghost predicate Stands(levels: array<nat>, pos: nat, d: Digits)
    reads levels
  {
    pos + |d| <= levels.Length && forall k :: pos <= k < pos + |d| ==> levels[k] == d[k - pos]
  }

  twostate predicate OnlyChanged(levels: array<nat>, lo: nat, hi: nat)
    reads levels
  {
    forall k :: 0 <= k < levels.Length && !(lo <= k < hi) ==> levels[k] == old(levels[k])
  }

  /** argp_args_usage: prints the pattern for the digits D in LEVELS from POS on and, if ADVANCE,
      turns them by one; it touches no other digit and returns where the next argp's digits start. */
  method ArgsUsage(argp: Argp, levels: array<nat>, pos: nat, advance: bool, ghost d: Digits)
    returns (next: nat, more: bool, out: seq<string>)
    requires InRange(argp, d) && Stands(levels, pos, d)
    modifies levels
    ensures next == pos + |d| && out == Pattern(argp, d)
    ensures Stands(levels, pos, Tick(argp, d, advance).0) && more == !Tick(argp, d, advance).1
    ensures OnlyChanged(levels, pos, pos + |d|)
    decreases argp, 0
  {
    ghost var o := Own(argp);
    var lastLine, rest, carry;
    out, next, lastLine := OwnAlternative(argp, levels, pos, d);
    next, carry, rest := ChildrenUsage(argp.children, levels, next, advance, d[o..]);
    out := out + rest;
    label Turned:
    carry := AdvanceOwn(argp, levels, pos, carry, lastLine, d);
    more := !carry;
    TickParts(argp, d, advance);
    ghost var e := Tick(argp, d, advance).0;
    forall k | pos <= k < pos + |d|
      ensures levels[k] == e[k - pos]
    {
      if pos + o <= k {
        assert levels[k] == old@Turned(levels[k]) == e[o..][k - pos - o];
      }
    }
  }

  lemma TickParts(argp: Argp, d: Digits, advance: bool)
    requires InRange(argp, d)
    ensures var o := Own(argp); var (c, carry) := TickAll(argp.children, d[o..], advance); var (e, more) := Tick(argp, d, advance);
            && e[o..] == c
            && if !(carry && Multiple(argp)) then more == carry && (Multiple(argp) ==> e[0] == d[0])
               else if d[0] + 1 < |Alternatives(argp)| then !more && e[0] == d[0] + 1
               else more && e[0] == 0
  {
  }

  /** The first part of argp_args_usage: the argp's own args_doc. */
  method OwnAlternative(argp: Argp, levels: array<nat>, pos: nat, ghost d: Digits)
    returns (out: seq<string>, next: nat, lastLine: bool)
    requires InRange(argp, d) && Stands(levels, pos, d)
    ensures out == (if argp.argsDoc.None? then [] else [Alternatives(argp)[OwnDigit(argp, d)]])
    ensures next == pos + Own(argp)
    ensures Multiple(argp) ==> (lastLine <==> d[0] + 1 == |Alternatives(argp)|)
  {
    out, next, lastLine := [], pos, true;
    if argp.argsDoc.Some? {
      var doc := argp.argsDoc.value;
      SeveralLines(doc);
      var level := 0;
      if '\n' in doc {
        level, next := levels[pos], pos + 1;
      }
      var cp, nl := FindAlternative(doc, level);
      out := [doc[cp..nl]];
      lastLine := nl == |doc|;
    }
  }

  /** The last part: turn the own digit when the children have come round. */
  method AdvanceOwn(argp: Argp, levels: array<nat>, pos: nat, advance: bool, lastLine: bool, ghost d: Digits)
    returns (carry: bool)
    requires InRange(argp, d) && pos + |d| <= levels.Length
    requires Multiple(argp) ==> levels[pos] == d[0] && (lastLine <==> d[0] + 1 == |Alternatives(argp)|)
    modifies levels
    ensures OnlyChanged(levels, pos, pos + Own(argp))
    ensures if !(advance && Multiple(argp)) then carry == advance && (Multiple(argp) ==> levels[pos] == d[0])
            else if d[0] + 1 < |Alternatives(argp)| then !carry && levels[pos] == d[0] + 1
            else carry && levels[pos] == 0
  {
    carry := advance;
    if argp.argsDoc.Some? {
      SeveralLines(argp.argsDoc.value);
    }
    if advance && argp.argsDoc.Some? && '\n' in argp.argsDoc.value {
      if !lastLine {
        levels[pos], carry := levels[pos] + 1, false;
      } else if levels[pos] > 0 {
        levels[pos] := 0;
      }
    }
  }

  /** The loop of argp_args_usage over the children. */
  method ChildrenUsage(cs: Children, levels: array<nat>, pos: nat, advance: bool, ghost d: Digits)
    returns (next: nat, carry: bool, out: seq<string>)
    requires InRangeAll(cs, d) && Stands(levels, pos, d)
    modifies levels
    ensures next == pos + |d| && out == PatternAll(cs, d)
    ensures Stands(levels, pos, TickAll(cs, d, advance).0) && carry == TickAll(cs, d, advance).1
    ensures OnlyChanged(levels, pos, pos + |d|)
    decreases cs, 2
  {
    ghost var done: Digits, rest := [], d;
    var child := cs;
    next, carry, out := pos, advance, [];
    assert [] + TickAll(cs, d, advance).0 == TickAll(cs, d, advance).0;
    while child.Child?
      invariant child == cs || child < cs
      invariant InRangeAll(child, rest) && |done| + |rest| == |d| && next == pos + |done|
      invariant Stands(levels, pos, done) && Stands(levels, next, rest)
      invariant TurnedSoFar(cs, d, advance, done, child, rest, carry) && PrintedSoFar(cs, d, out, child, rest)
      invariant OnlyChanged(levels, pos, pos + |d|)
      decreases child
    {
      ghost var n := Levels(child.argp);
      TurnOne(cs, d, advance, done, child, rest, carry);
      PrintOne(cs, d, out, child, rest);
      ghost var turned := Tick(child.argp, rest[..n], carry).0;
      var more, text;
      next, more, text := OneChild(child.argp, levels, pos, next, carry, done, rest);
      done, rest, carry, out := done + turned, rest[n..], !more, out + text;
      child := child.rest;
    }
  }

  /** One child's turn: its digits are turned, those DONE before and those of the REST stay. */
  method OneChild(argp: Argp, levels: array<nat>, ghost pos: nat, at: nat, advance: bool, ghost done: Digits, ghost rest: Digits)
    returns (next: nat, more: bool, out: seq<string>)
    requires |rest| >= Levels(argp) && InRange(argp, rest[..Levels(argp)])
    requires at == pos + |done| && Stands(levels, pos, done) && Stands(levels, at, rest)
    modifies levels
    ensures var n := Levels(argp); var (turned, carry) := Tick(argp, rest[..n], advance);
            && next == at + n && out == Pattern(argp, rest[..n]) && more == !carry
            && Stands(levels, pos, done + turned) && Stands(levels, next, rest[n..])
    ensures OnlyChanged(levels, at, next)
    decreases argp, 1
  {
    ghost var n, was := Levels(argp), levels[..];
    next, more, out := ArgsUsage(argp, levels, at, advance, rest[..n]);
    ghost var turned := Tick(argp, rest[..n], advance).0;
    TurnedInPlace(was, levels[..], at, done, turned, rest);
  }

  /** From WAS to NOW only the digits from AT on change, to TURNED. */
  lemma TurnedInPlace(was: seq<nat>, now: seq<nat>, at: nat, done: Digits, turned: Digits, rest: Digits)
    requires |done| <= at && |turned| <= |rest| && at + |rest| <= |was| == |now|
    requires forall k :: at - |done| <= k < at ==> was[k] == done[k - (at - |done|)]
    requires forall k :: at <= k < at + |rest| ==> was[k] == rest[k - at]
    requires forall k :: at <= k < at + |turned| ==> now[k] == turned[k - at]
    requires forall k :: 0 <= k < |now| && !(at <= k < at + |turned|) ==> now[k] == was[k]
    ensures var d := done + turned;
            forall k :: at - |done| <= k < at - |done| + |d| ==> now[k] == d[k - (at - |done|)]
    ensures var n := |turned|; forall k :: at + n <= k < at + n + |rest[n..]| ==> now[k] == rest[n..][k - (at + n)]
  {
  }

  /** DONE followed by turning the REST of the digits is turning all of D. */
  ghost predicate TurnedSoFar(cs: Children, d: Digits, advance: bool, done: Digits, child: Children, rest: Digits, carry: bool)
    requires InRangeAll(cs, d) && InRangeAll(child, rest)
  {
    var (r, c) := TickAll(child, rest, carry);
    TickAll(cs, d, advance) == (done + r, c)
  }

  ghost predicate PrintedSoFar(cs: Children, d: Digits, out: seq<string>, child: Children, rest: Digits)
    requires InRangeAll(cs, d) && InRangeAll(child, rest)
  {
    out + PatternAll(child, rest) == PatternAll(cs, d)
  }

  lemma PrintOne(cs: Children, d: Digits, out: seq<string>, child: Children, rest: Digits)
    requires child.Child? && InRangeAll(cs, d) && InRangeAll(child, rest) && PrintedSoFar(cs, d, out, child, rest)
    ensures var n := Levels(child.argp); PrintedSoFar(cs, d, out + Pattern(child.argp, rest[..n]), child.rest, rest[n..])
  {
  }

  lemma TurnOne(cs: Children, d: Digits, advance: bool, done: Digits, child: Children, rest: Digits, carry: bool)
    requires child.Child? && InRangeAll(cs, d) && InRangeAll(child, rest)
    requires TurnedSoFar(cs, d, advance, done, child, rest, carry)
    ensures var n := Levels(child.argp); var (a, c) := Tick(child.argp, rest[..n], carry);
            TurnedSoFar(cs, d, advance, done + a, child.rest, rest[n..], c)
  {
    var n := Levels(child.argp);
    var (a, c) := Tick(child.argp, rest[..n], carry);
    var (b, c2) := TickAll(child.rest, rest[n..], c);
    TickFirst(child, rest, carry, a, c, b, c2);
    Assoc(done, a, b);
  }

  lemma TickFirst(cs: Children, d: Digits, advance: bool, a: Digits, c1: bool, b: Digits, c2: bool)
    requires cs.Child? && InRangeAll(cs, d)
    requires (a, c1) == Tick(cs.argp, d[..Levels(cs.argp)], advance)
    requires (b, c2) == TickAll(cs.rest, d[Levels(cs.argp)..], c1)
    ensures TickAll(cs, d, advance) == (a + b, c2)
  {
  }

  // ---------- the whole usage message ----------

  function Zeros(n: nat): Digits {
    seq(n, _ => 0)
  }

  lemma {:induction false} ZerosAreFirst(argp: Argp, z: Digits)
    requires z == Zeros(Levels(argp))
    ensures InRange(argp, z) && Value(argp, z) == 0
    decreases argp, 0
  {
    var low := z[Own(argp)..];
    ZerosAreFirstAll(argp.children, low);
    assert InRange(argp, z);
    MixNext(0, PatternsAll(argp.children), 0, |Alternatives(argp)|);
  }

  lemma {:induction false} ZerosAreFirstAll(cs: Children, z: Digits)
    requires z == Zeros(LevelsAll(cs))
    ensures InRangeAll(cs, z) && ValueAll(cs, z) == 0
    decreases cs, 1
  {
    if cs.Child? {
      var n := Levels(cs.argp);
      ZerosAreFirst(cs.argp, z[..n]);
      ZerosAreFirstAll(cs.rest, z[n..]);
      MixNext(0, Patterns(cs.argp), 0, PatternsAll(cs.rest));
    }
  }

  /** Line V of the message is the pattern of the digits with value V, which are SHOWN[V]. */
  ghost predicate LinesRight(argp: Argp, lines: seq<seq<string>>, shown: seq<Digits>) {
    && |lines| == |shown|
    && forall v :: 0 <= v < |lines| ==> InRange(argp, shown[v]) && Value(argp, shown[v]) == v && lines[v] == Pattern(argp, shown[v])
  }

  /** The loop of _help over the usage lines.  It ends after as many rounds as there are patterns, with all digits back at 0. */
  method UsageLines(argp: Argp) returns (lines: seq<seq<string>>, levels: array<nat>, ghost shown: seq<Digits>)
    ensures |lines| == Patterns(argp) && LinesRight(argp, lines, shown)
    ensures Enumerates(Docs(argp), lines, ChoicesOf(argp, shown))
    ensures levels[..] == Zeros(Levels(argp))
  {
    var n := ArgsLevels(argp);
    levels := new nat[n](_ => 0);
    lines, shown := [], [];
    ghost var d := Zeros(n);
    ZerosAreFirst(argp, d);
    var more := true;
    while more
      invariant fresh(levels) && levels.Length == n == |d| && InRange(argp, d) && Stands(levels, 0, d)
      invariant LinesRight(argp, lines, shown)
      invariant more ==> Value(argp, d) == |lines| < Patterns(argp)
      invariant !more ==> Value(argp, d) == 0 && |lines| == Patterns(argp)
      decreases more, Patterns(argp) - |lines|
    {
      TickIsSuccessor(argp, d);
      ghost var e := Tick(argp, d, true).0;
      ValueBound(argp, e);
      var next, line;
      next, more, line := ArgsUsage(argp, levels, 0, true, d);
      lines, shown := lines + [line], shown + [d];
      d := e;
    }
    ValueInjective(argp, d, Zeros(n));
    LinesEnumerate(argp, lines, shown);
  }

  /** So every combination of alternatives is printed, on the one line that its value says. */
  lemma EveryPatternOnce(argp: Argp, lines: seq<seq<string>>, shown: seq<Digits>, d: Digits)
    requires |lines| == Patterns(argp) && LinesRight(argp, lines, shown) && InRange(argp, d)
    ensures var v := Value(argp, d);
            && v < |lines| && shown[v] == d && lines[v] == Pattern(argp, d)
            && forall w :: 0 <= w < |lines| && w != v ==> shown[w] != d
  {
    ValueBound(argp, d);
    ValueInjective(argp, d, shown[Value(argp, d)]);
  }

  // ---------- the same without digits ----------

  /** The alternatives of every argp that has an args_doc, in preorder. */
  function Docs(argp: Argp): seq<seq<string>>
    decreases argp, 0
  {
    (if argp.argsDoc.Some? then [Lines(argp.argsDoc.value)] else []) + DocsAll(argp.children)
  }

  function DocsAll(cs: Children): seq<seq<string>>
    decreases cs, 1
  {
    if cs.Nil? then [] else Docs(cs.argp) + DocsAll(cs.rest)
  }

  /** One alternative of each. */
  predicate IsChoice(docs: seq<seq<string>>, c: seq<nat>) {
    |c| == |docs| && forall i :: 0 <= i < |docs| ==> c[i] < |docs[i]|
  }

  function Chosen(docs: seq<seq<string>>, c: seq<nat>): (r: seq<string>)
    requires IsChoice(docs, c)
    ensures |r| == |docs|
  {
    seq(|docs|, i requires 0 <= i < |docs| => docs[i][c[i]])
  }

  /** The choice that digits stand for. */
  function ChoiceOf(argp: Argp, d: Digits): seq<nat>
    requires InRange(argp, d)
    decreases argp, 0
  {
    (if argp.argsDoc.Some? then [OwnDigit(argp, d)] else []) + ChoiceOfAll(argp.children, d[Own(argp)..])
  }

  function ChoiceOfAll(cs: Children, d: Digits): seq<nat>
    requires InRangeAll(cs, d)
    decreases cs, 1
  {
    if cs.Nil? then []
    else ChoiceOf(cs.argp, d[..Levels(cs.argp)]) + ChoiceOfAll(cs.rest, d[Levels(cs.argp)..])
  }

  lemma ChosenBoth(a: seq<seq<string>>, b: seq<seq<string>>, c: seq<nat>, e: seq<nat>)
    requires IsChoice(a, c) && IsChoice(b, e)
    ensures IsChoice(a + b, c + e) && Chosen(a + b, c + e) == Chosen(a, c) + Chosen(b, e)
  {
  }

  lemma {:induction false} PatternIsChosen(argp: Argp, d: Digits)
    requires InRange(argp, d)
    ensures IsChoice(Docs(argp), ChoiceOf(argp, d)) && Pattern(argp, d) == Chosen(Docs(argp), ChoiceOf(argp, d))
    decreases argp, 0
  {
    var low := d[Own(argp)..];
    PatternAllIsChosen(argp.children, low);
    if argp.argsDoc.Some? {
      ChosenBoth([Lines(argp.argsDoc.value)], DocsAll(argp.children), [OwnDigit(argp, d)], ChoiceOfAll(argp.children, low));
    } else {
      ChosenBoth([], DocsAll(argp.children), [], ChoiceOfAll(argp.children, low));
    }
  }

  lemma {:induction false} PatternAllIsChosen(cs: Children, d: Digits)
    requires InRangeAll(cs, d)
    ensures IsChoice(DocsAll(cs), ChoiceOfAll(cs, d)) && PatternAll(cs, d) == Chosen(DocsAll(cs), ChoiceOfAll(cs, d))
    decreases cs, 1
  {
    if cs.Child? {
      var n := Levels(cs.argp);
      PatternIsChosen(cs.argp, d[..n]);
      PatternAllIsChosen(cs.rest, d[n..]);
      ChosenBoth(Docs(cs.argp), DocsAll(cs.rest), ChoiceOf(cs.argp, d[..n]), ChoiceOfAll(cs.rest, d[n..]));
    }
  }

  lemma SplitBoth<T>(a: seq<T>, b: seq<T>, c: seq<T>, d: seq<T>)
    requires a + b == c + d && |a| == |c|
    ensures a == c && b == d
  {
    assert a == (a + b)[..|a|] && c == (c + d)[..|c|];
    assert b == (a + b)[|a|..] && d == (c + d)[|c|..];
  }

  /** Different digits make different choices. */
  lemma {:induction false} ChoiceInjective(argp: Argp, d: Digits, e: Digits)
    requires InRange(argp, d) && InRange(argp, e) && ChoiceOf(argp, d) == ChoiceOf(argp, e)
    ensures d == e
    decreases argp, 0
  {
    var o := Own(argp);
    var own: seq<nat>, other: seq<nat> := if argp.argsDoc.Some? then [OwnDigit(argp, d)] else [],
                                          if argp.argsDoc.Some? then [OwnDigit(argp, e)] else [];
    SplitBoth(own, ChoiceOfAll(argp.children, d[o..]), other, ChoiceOfAll(argp.children, e[o..]));
    ChoiceAllInjective(argp.children, d[o..], e[o..]);
    assert Multiple(argp) ==> argp.argsDoc.Some? && own[0] == other[0];
    assert d == d[..o] + d[o..] && e == e[..o] + e[o..];
  }

  lemma {:induction false} ChoiceAllInjective(cs: Children, d: Digits, e: Digits)
    requires InRangeAll(cs, d) && InRangeAll(cs, e) && ChoiceOfAll(cs, d) == ChoiceOfAll(cs, e)
    ensures d == e
    decreases cs, 1
  {
    if cs.Child? {
      var n := Levels(cs.argp);
      PatternIsChosen(cs.argp, d[..n]);
      PatternIsChosen(cs.argp, e[..n]);
      SplitBoth(ChoiceOf(cs.argp, d[..n]), ChoiceOfAll(cs.rest, d[n..]), ChoiceOf(cs.argp, e[..n]), ChoiceOfAll(cs.rest, e[n..]));
      ChoiceInjective(cs.argp, d[..n], e[..n]);
      ChoiceAllInjective(cs.rest, d[n..], e[n..]);
      assert d == d[..n] + d[n..] && e == e[..n] + e[n..];
    }
  }

  lemma SplitChoice(a: seq<seq<string>>, b: seq<seq<string>>, c: seq<nat>)
    requires IsChoice(a + b, c)
    ensures IsChoice(a, c[..|a|]) && IsChoice(b, c[|a|..]) && c == c[..|a|] + c[|a|..]
  {
    forall i | 0 <= i < |a| ensures c[i] < |a[i]| {
      assert (a + b)[i] == a[i];
    }
    forall i | 0 <= i < |b| ensures c[|a| + i] < |b[i]| {
      assert (a + b)[|a| + i] == b[i];
    }
  }

  /** Every choice has its digits. */
  lemma {:induction false} DigitsOf(argp: Argp, c: seq<nat>) returns (d: Digits)
    requires IsChoice(Docs(argp), c)
    ensures InRange(argp, d) && ChoiceOf(argp, d) == c
    decreases argp, 0
  {
    var own: seq<seq<string>> := if argp.argsDoc.Some? then [Lines(argp.argsDoc.value)] else [];
    SplitChoice(own, DocsAll(argp.children), c);
    var low := DigitsOfAll(argp.children, c[|own|..]);
    var digit := if argp.argsDoc.Some? then c[0] else 0;
    d := (if Multiple(argp) then [digit] else []) + low;
    OwnFirst(argp, digit, low);
    assert c[..|own|] == if argp.argsDoc.Some? then [digit] else [];
  }

  lemma OwnFirst(argp: Argp, digit: nat, low: Digits)
    requires InRangeAll(argp.children, low) && digit < |Alternatives(argp)|
    ensures var d := (if Multiple(argp) then [digit] else []) + low;
            InRange(argp, d) && OwnDigit(argp, d) == digit && d[Own(argp)..] == low
  {
    var d := (if Multiple(argp) then [digit] else []) + low;
    assert d[Own(argp)..] == low;
  }

  lemma {:induction false} DigitsOfAll(cs: Children, c: seq<nat>) returns (d: Digits)
    requires IsChoice(DocsAll(cs), c)
    ensures InRangeAll(cs, d) && ChoiceOfAll(cs, d) == c
    decreases cs, 1
  {
    if cs.Nil? {
      d := [];
    } else {
      var m := |Docs(cs.argp)|;
      SplitChoice(Docs(cs.argp), DocsAll(cs.rest), c);
      var a := DigitsOf(cs.argp, c[..m]);
      var b := DigitsOfAll(cs.rest, c[m..]);
      d := a + b;
      assert d[..Levels(cs.argp)] == a && d[Levels(cs.argp)..] == b;
    }
  }

  /** LINES print the choices from DOCS, each on one line: CHOICES says which on which. */
  ghost predicate Enumerates(docs: seq<seq<string>>, lines: seq<seq<string>>, choices: seq<seq<nat>>) {
    && |lines| == |choices|
    && (forall v :: 0 <= v < |lines| ==> IsChoice(docs, choices[v]) && lines[v] == Chosen(docs, choices[v]))
    && (forall v, w :: 0 <= v < w < |choices| ==> choices[v] != choices[w])
    && (forall c :: IsChoice(docs, c) ==> c in choices)
  }

  function ChoicesOf(argp: Argp, shown: seq<Digits>): (r: seq<seq<nat>>)
    requires forall d <- shown :: InRange(argp, d)
    ensures |r| == |shown|
  {
    seq(|shown|, v requires 0 <= v < |shown| => ChoiceOf(argp, shown[v]))
  }

  /** The usage lines are all combinations of alternatives, one of each args_doc in preorder, and no combination
      is on two lines. */
  lemma LinesEnumerate(argp: Argp, lines: seq<seq<string>>, shown: seq<Digits>)
    requires |lines| == Patterns(argp) && LinesRight(argp, lines, shown)
    ensures Enumerates(Docs(argp), lines, ChoicesOf(argp, shown))
  {
    var docs, choices := Docs(argp), ChoicesOf(argp, shown);
    forall v | 0 <= v < |lines|
      ensures IsChoice(docs, choices[v]) && lines[v] == Chosen(docs, choices[v])
    {
      PatternIsChosen(argp, shown[v]);
    }
    forall v, w | 0 <= v < w < |choices|
      ensures choices[v] != choices[w]
    {
      assert Value(argp, shown[v]) == v && Value(argp, shown[w]) == w;
      if choices[v] == choices[w] {
        ChoiceInjective(argp, shown[v], shown[w]);
      }
    }
    forall c | IsChoice(docs, c)
      ensures c in choices
    {
      var d := DigitsOf(argp, c);
      EveryPatternOnce(argp, lines, shown, d);
      assert choices[Value(argp, d)] == c;
    }
  }
}
