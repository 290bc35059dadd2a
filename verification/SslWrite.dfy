/** The write path of WvSSLStream: a bounce buffer for data that SSL must be offered again
    unchanged, and a debt of bytes written before the caller was told so. */
module SslWrite {
  import opened Sequences

  /** Bytes; the write path only moves them. */
  type Bytes = seq<int>

  /** The size of the bounce buffer: one SSLv3/TLSv1 record. */
  const MAX_BOUNCE := 16384

  /** What one SSL_write does: it takes all it is given, wants to be called again, or fails for good
      (socket and protocol errors, end of stream), which closes the connection. */
  datatype SslResult = Accepted | Retry | Fatal

  datatype Attempt = Attempt(data: Bytes, result: SslResult)

  /** SSL, as an unknown that may look at everything it was offered before. */
  type Ssl = (seq<Attempt>, Bytes) -> SslResult

  datatype State = State(
    connected: bool,
    bounce: Bytes,            // write_bouncebuf
    eat: nat,                 // write_eat
    unconnected: Bytes,       // unconnected_buf
    attempts: seq<Attempt>)   // the calls of SSL_write so far

  const START := State(true, [], 0, [], [])

  /** The bytes that SSL has taken. */
  function Sent(attempts: seq<Attempt>): Bytes {
    if attempts == [] then []
    else
      var a := attempts[|attempts| - 1];
      Sent(attempts[..|attempts| - 1]) + if a.result == Accepted then a.data else []
  }

  lemma SentAppend(attempts: seq<Attempt>, a: Attempt)
    ensures Sent(attempts + [a]) == Sent(attempts) + if a.result == Accepted then a.data else []
  {
    assert (attempts + [a])[..|attempts|] == attempts;
  }

  function Chunk(buf: Bytes): Bytes {
    if |buf| < MAX_BOUNCE then buf else buf[..MAX_BOUNCE]
  }

  /** The loop of uwrite: the new state and how many bytes of BUF it claims. */
  function Loop(ssl: Ssl, s: State, buf: Bytes): (r: (State, nat))
    ensures r.1 <= |buf|
    decreases |buf|
  {
    if s.bounce == [] && buf == [] then (s, 0)
    else
      var data := if s.bounce == [] then Chunk(buf) else s.bounce;
      var result := ssl(s.attempts, data);
      var t := s.(attempts := s.attempts + [Attempt(data, result)]);
      match result
      case Retry => (t.(bounce := data), 0)
      case Fatal => (t.(bounce := data, connected := false), 0)
      case Accepted =>
        if |data| >= |buf| then (t.(bounce := [], eat := |data| - |buf|), |buf|)
        else
          var (u, n) := Loop(ssl, t.(bounce := []), buf[|data|..]);
          (u, |data| + n)
  }

  /** The state after one more SSL_write. */
  function Tried(s: State, a: Attempt): State {
    s.(attempts := s.attempts + [a], bounce := if a.result == Accepted then [] else a.data,
       connected := s.connected && a.result != Fatal)
  }

  /** One round of the loop. */
  lemma LoopRound(ssl: Ssl, s: State, buf: Bytes)
    requires s.bounce != [] || buf != []
    ensures var data := if s.bounce == [] then Chunk(buf) else s.bounce;
            var a := Attempt(data, ssl(s.attempts, data)); var u := Tried(s, a);
            Loop(ssl, s, buf) ==
            if a.result != Accepted then (u, 0)
            else if |data| >= |buf| then (u.(eat := |data| - |buf|), |buf|)
            else (Loop(ssl, u, buf[|data|..]).0, |data| + Loop(ssl, u, buf[|data|..]).1)
  {
  }

  /** uwrite: the new state and the number of bytes it returns. */
  function Write(ssl: Ssl, s: State, buf: Bytes): (r: (State, nat))
    ensures r.1 <= |buf|
  {
    if !s.connected then (s.(unconnected := s.unconnected + buf), |buf|)
    else if buf == [] then (s, 0)
    else if s.eat >= |buf| then
      var (t, n) := Loop(ssl, s.(eat := s.eat - |buf|), []);
      (t, |buf|)
    else
      var (t, n) := Loop(ssl, s.(eat := 0), buf[s.eat..]);
      (t, s.eat + n)
  }

  class WvSSLStream {
    var sslconnected: bool
    var writeBounce: Bytes
    var writeEat: nat
    var unconnectedBuf: Bytes
    var attempts: seq<Attempt>
    const ssl: Ssl

    function Now(): State
      reads this
    {
      State(sslconnected, writeBounce, writeEat, unconnectedBuf, attempts)
    }

    constructor (ssl: Ssl)
      ensures this.ssl == ssl && Now() == State(true, [], 0, [], [])
    {
      this.ssl, sslconnected, writeBounce, writeEat, unconnectedBuf, attempts := ssl, true, [], 0, [], [];
    }

    method SslWriteCall(data: Bytes) returns (result: SslResult)
      modifies this`attempts
      ensures result == ssl(old(attempts), data) && attempts == old(attempts) + [Attempt(data, result)]
    {
      result := ssl(attempts, data);
      attempts := attempts + [Attempt(data, result)];
    }

    method Uwrite(buf: Bytes) returns (total: nat)
      modifies this
      ensures (Now(), total) == Write(ssl, old(Now()), buf)
    {
      if !sslconnected {
        unconnectedBuf := unconnectedBuf + buf;
        return |buf|;
      }
      if buf == [] {
        return 0;
      }
      if writeEat >= |buf| {
        writeEat := writeEat - |buf|;
        var none := WriteLoop([]);
        return |buf|;
      }
      var eaten := writeEat;
      writeEat := 0;
      total := WriteLoop(buf[eaten..]);
      total := eaten + total;
    }

    /** Offers SSL the bounce buffer, which stays as it is unless SSL takes it. */
    method OfferBounce() returns (result: SslResult)
      modifies this
      ensures result == ssl(old(attempts), old(writeBounce))
      ensures Now() == Tried(old(Now()), Attempt(old(writeBounce), result))
    {
      result := SslWriteCall(writeBounce);
      match result
      case Accepted => writeBounce := [];
      case Retry =>
      case Fatal => sslconnected := false;
    }

    /** The loop of uwrite.  It never spins: every round either leaves it or shortens what is left of
        the buffer. */
    method WriteLoop(buffer: Bytes) returns (total: nat)
      modifies this
      ensures (Now(), total) == Loop(ssl, old(Now()), buffer)
    {
      ghost var goal := Loop(ssl, Now(), buffer);
      var buf := buffer;
      total := 0;
      while true
        invariant total <= goal.1 && Loop(ssl, Now(), buf) == (goal.0, goal.1 - total)
        decreases |buf|
      {
        if writeBounce == [] && buf == [] {
          break;
        }
        var n, again := Round(buf);
        total := total + n;
        if !again {
          break;
        }
        buf := buf[n..];
      }
    }

    /** One round: how many bytes of BUF it claims, and whether there is more to do. */
    method Round(buf: Bytes) returns (n: nat, again: bool)
      requires writeBounce != [] || buf != []
      modifies this
      ensures again ==> 0 < n < |buf|
      ensures again ==>
        var (t, more) := Loop(ssl, Now(), buf[n..]); Loop(ssl, old(Now()), buf) == (t, n + more)
      ensures !again ==> Loop(ssl, old(Now()), buf) == (Now(), n)
    {
      ghost var s := Now();
      LoopRound(ssl, s, buf);
      if writeBounce == [] {
        writeBounce := Chunk(buf);
      }
      var data := writeBounce;
      var result := OfferBounce();
      assert Now() == Tried(s, Attempt(data, result));
      if result != Accepted {
        return 0, false;
      }
      if |data| >= |buf| {
        writeEat := |data| - |buf|;
        return |buf|, false;
      }
      return |data|, true;
    }
  }

  // ---------- what a call sends ----------

  ghost predicate SentFresh(was: Bytes, buf: Bytes, t: State, n: nat) {
    n <= |buf| && Sent(t.attempts) == was + buf[..n] && t.eat == 0 && t.bounce <= buf[n..]
  }

  lemma FreshMore(was: Bytes, buf: Bytes, m: nat, t: State, n: nat)
    requires m <= |buf| && SentFresh(was + buf[..m], buf[m..], t, n)
    ensures SentFresh(was, buf, t, m + n)
  {
    Pieces(buf, m, n);
    assert was + buf[..m] + buf[m..][..n] == was + (buf[..m] + buf[m..][..n]);
  }

  lemma LoopKeepsUnconnected(ssl: Ssl, s: State, buf: Bytes)
    ensures Loop(ssl, s, buf).0.unconnected == s.unconnected
    decreases |buf|
  {
  }

  /** With an empty bounce buffer the loop sends just what it claims, and holds on to what comes next. */
  lemma {:induction false} FreshLoop(ssl: Ssl, s: State, buf: Bytes)
    requires s.eat == 0 && s.bounce == []
    ensures var (t, n) := Loop(ssl, s, buf);
            SentFresh(Sent(s.attempts), buf, t, n) && t.unconnected == s.unconnected
    decreases |buf|
  {
    LoopKeepsUnconnected(ssl, s, buf);
    if buf != [] {
      var data := Chunk(buf);
      var a := Attempt(data, ssl(s.attempts, data));
      var u := Tried(s, a);
      LoopRound(ssl, s, buf);
      SentAppend(s.attempts, a);
      if a.result == Accepted && |data| < |buf| {
        var (t, n) := Loop(ssl, u, buf[|data|..]);
        FreshLoop(ssl, u, buf[|data|..]);
        FreshMore(Sent(s.attempts), buf, |data|, t, n);
      }
    }
  }

  lemma Pieces(buf: Bytes, m: nat, n: nat)
    requires m + n <= |buf|
    ensures buf[m..][n..] == buf[m + n..] && buf[m..][..n] == buf[m..m + n] && buf[..m] + buf[m..][..n] == buf[..m + n]
  {
  }

  /** With data in the bounce buffer the loop sends that first; when it is more than the buffer given,
      the call claims the whole buffer and the surplus becomes the debt. */
  lemma HeldLoop(ssl: Ssl, s: State, buf: Bytes)
    requires s.eat == 0 && s.bounce != [] && buf != []
    ensures var (t, n) := Loop(ssl, s, buf);
            && t.unconnected == s.unconnected
            && if n == 0 then Sent(t.attempts) == Sent(s.attempts) && t.eat == 0 && t.bounce == s.bounce
               else if n <= |s.bounce| then
                 Sent(t.attempts) == Sent(s.attempts) + s.bounce && t.eat == |s.bounce| - n && t.bounce <= buf[n..]
               else
                 Sent(t.attempts) == Sent(s.attempts) + s.bounce + buf[|s.bounce|..n] && t.eat == 0 && t.bounce <= buf[n..]
  {
    var b := s.bounce;
    var a := Attempt(b, ssl(s.attempts, b));
    SentAppend(s.attempts, a);
    if a.result == Accepted && |b| < |buf| {
      HeldThenFresh(ssl, s, buf, a);
    }
  }

  lemma HeldThenFresh(ssl: Ssl, s: State, buf: Bytes, a: Attempt)
    requires s.eat == 0 && s.bounce != [] && |s.bounce| < |buf|
    requires a == Attempt(s.bounce, Accepted) && ssl(s.attempts, s.bounce) == Accepted
    ensures var (t, n) := Loop(ssl, s, buf);
            && t.unconnected == s.unconnected && n >= |s.bounce|
            && Sent(t.attempts) == Sent(s.attempts) + s.bounce + buf[|s.bounce|..n] && t.eat == 0 && t.bounce <= buf[n..]
  {
    var b, u := s.bounce, Tried(s, a);
    LoopRound(ssl, s, buf);
    SentAppend(s.attempts, a);
    FreshLoop(ssl, u, buf[|b|..]);
    var (t, n) := Loop(ssl, u, buf[|b|..]);
    AfterHeld(Sent(s.attempts) + b, buf, |b|, t, n);
  }

  lemma AfterHeld(was: Bytes, buf: Bytes, m: nat, t: State, n: nat)
    requires m <= |buf| && SentFresh(was, buf[m..], t, n)
    ensures m + n <= |buf| && Sent(t.attempts) == was + buf[m..m + n] && t.eat == 0 && t.bounce <= buf[m + n..]
  {
    Pieces(buf, m, n);
  }

  // ---------- conservation, one call ----------

  /** The caller has been told that CLAIMED was written; SSL has taken that and the DEBT. */
  ghost predicate Owes(s: State, claimed: Bytes, debt: Bytes) {
    && Sent(s.attempts) == claimed + debt && |debt| == s.eat
    && (s.bounce != [] ==> s.eat == 0)
  }

  /** What is fixed beyond the claim: the debt, or the data waiting in the bounce buffer. */
  function Fixed(s: State, debt: Bytes): Bytes {
    debt + s.bounce
  }

  /** The first N bytes of BUF repeat what is fixed. */
  ghost predicate Repeats(buf: Bytes, fixed: Bytes, n: nat) {
    forall i :: 0 <= i < n && i < |fixed| && i < |buf| ==> buf[i] == fixed[i]
  }

  lemma SplitAt(a: Bytes, b: Bytes, c: Bytes)
    ensures a + b == a + c <==> b == c
  {
    if a + b == a + c {
      assert b == (a + b)[|a|..] == (a + c)[|a|..] == c;
    }
  }

  /** After a call that claims N bytes of BUF: the part of FIXED that was not sent yet has gone out,
      then fresh data; what waits in the bounce buffer comes next. */
  ghost predicate Sends(t: State, n: nat, buf: Bytes, claimed: Bytes, fixed: Bytes)
    requires n <= |buf|
  {
    && (t.bounce != [] ==> t.eat == 0)
    && if n == 0 then Sent(t.attempts) == claimed && t.eat == 0 && (t.bounce == fixed || (fixed == [] && t.bounce <= buf))
       else
         && t.bounce <= buf[n..]
         && (if n <= |fixed| then Sent(t.attempts) == claimed + fixed && t.eat == |fixed| - n
             else Sent(t.attempts) == claimed + fixed + buf[|fixed|..n] && t.eat == 0)
  }

  lemma WriteHeld(ssl: Ssl, s: State, buf: Bytes, claimed: Bytes)
    requires s.connected && s.eat == 0 && s.bounce != [] && Sent(s.attempts) == claimed && buf != []
    ensures Sends(Write(ssl, s, buf).0, Write(ssl, s, buf).1, buf, claimed, s.bounce)
  {
    assert buf[0..] == buf && s.(eat := 0) == s;
    HeldLoop(ssl, s, buf);
  }

  lemma WriteFresh(ssl: Ssl, s: State, buf: Bytes, claimed: Bytes, debt: Bytes)
    requires s.connected && s.bounce == [] && s.eat == |debt| < |buf| && Sent(s.attempts) == claimed + debt
    ensures Sends(Write(ssl, s, buf).0, Write(ssl, s, buf).1, buf, claimed, debt)
  {
    FreshLoop(ssl, s.(eat := 0), buf[s.eat..]);
    var (t, m) := Loop(ssl, s.(eat := 0), buf[s.eat..]);
    FreshSends(t, m, buf, claimed, debt);
  }

  lemma FreshSends(t: State, m: nat, buf: Bytes, claimed: Bytes, debt: Bytes)
    requires |debt| <= |buf| && SentFresh(claimed + debt, buf[|debt|..], t, m)
    ensures |debt| + m <= |buf| && Sends(t, |debt| + m, buf, claimed, debt)
  {
    AfterHeld(claimed + debt, buf, |debt|, t, m);
    if m == 0 {
      assert claimed + debt + [] == claimed + debt;
    }
    if m == 0 && debt == [] {
      assert claimed + debt == claimed;
    }
  }

  lemma WriteEaten(ssl: Ssl, s: State, buf: Bytes, claimed: Bytes, debt: Bytes)
    requires s.connected && s.bounce == [] && s.eat == |debt| >= |buf| > 0 && Sent(s.attempts) == claimed + debt
    ensures Sends(Write(ssl, s, buf).0, Write(ssl, s, buf).1, buf, claimed, debt)
  {
  }

  lemma WriteSends(ssl: Ssl, s: State, buf: Bytes, claimed: Bytes, debt: Bytes)
    requires s.connected && Owes(s, claimed, debt) && buf != []
    ensures Sends(Write(ssl, s, buf).0, Write(ssl, s, buf).1, buf, claimed, Fixed(s, debt))
  {
    if s.bounce != [] {
      assert debt == [] && claimed + debt == claimed && debt + s.bounce == s.bounce;
      WriteHeld(ssl, s, buf, claimed);
    } else {
      assert debt + s.bounce == debt;
      if s.eat >= |buf| {
        WriteEaten(ssl, s, buf, claimed, debt);
      } else {
        WriteFresh(ssl, s, buf, claimed, debt);
      }
    }
  }

  /** What a call sends: FIXED, and what it claims beyond that. */
  function SentBy(n: nat, buf: Bytes, fixed: Bytes): Bytes
    requires n <= |buf|
  {
    if n == 0 then [] else if n <= |fixed| then fixed else fixed + buf[|fixed|..n]
  }

  lemma SendsSentBy(t: State, n: nat, buf: Bytes, claimed: Bytes, fixed: Bytes)
    requires n <= |buf| && Sends(t, n, buf, claimed, fixed)
    ensures Sent(t.attempts) == claimed + SentBy(n, buf, fixed)
    ensures t.eat == |SentBy(n, buf, fixed)| - n
  {
    if n > |fixed| {
      Assoc(claimed, fixed, buf[|fixed|..n]);
    }
  }

  lemma RepeatsConserves(n: nat, buf: Bytes, fixed: Bytes)
    requires n <= |buf| && Repeats(buf, fixed, n)
    ensures var d := if n == 0 || n > |fixed| then [] else fixed[n..];
            SentBy(n, buf, fixed) == buf[..n] + d && |d| == |SentBy(n, buf, fixed)| - n
  {
    RepeatedPart(n, buf, fixed);
  }

  lemma ConservesRepeats(n: nat, buf: Bytes, fixed: Bytes, d: Bytes)
    requires n <= |buf| && SentBy(n, buf, fixed) == buf[..n] + d
    ensures Repeats(buf, fixed, n)
  {
    forall i | 0 <= i < n && i < |fixed|
      ensures buf[i] == fixed[i]
    {
      assert SentBy(n, buf, fixed)[i] == (buf[..n] + d)[i];
    }
  }

  /** Sending FIXED first is sending the claimed bytes, up to a debt, if and only if the claimed bytes
      repeat FIXED. */
  lemma SendsConserves(t: State, n: nat, buf: Bytes, claimed: Bytes, fixed: Bytes)
    requires n <= |buf| && Sends(t, n, buf, claimed, fixed)
    ensures (exists d :: Owes(t, claimed + buf[..n], d)) <==> Repeats(buf, fixed, n)
  {
    var told, sent := claimed + buf[..n], SentBy(n, buf, fixed);
    SendsSentBy(t, n, buf, claimed, fixed);
    if Repeats(buf, fixed, n) {
      var d := if n == 0 || n > |fixed| then [] else fixed[n..];
      RepeatsConserves(n, buf, fixed);
      Assoc(claimed, buf[..n], d);
      assert Owes(t, told, d);
    }
    if d :| Owes(t, told, d) {
      Assoc(claimed, buf[..n], d);
      SplitAt(claimed, sent, buf[..n] + d);
      ConservesRepeats(n, buf, fixed, d);
    }
  }

  lemma RepeatedPart(n: nat, buf: Bytes, fixed: Bytes)
    requires n <= |buf| && Repeats(buf, fixed, n)
    ensures n <= |fixed| ==> buf[..n] + fixed[n..] == fixed
    ensures n > |fixed| ==> fixed + buf[|fixed|..n] == buf[..n]
  {
  }

  /** What the loop claims: nothing when SSL refuses the held data, otherwise the whole buffer or
      at least as much as was fixed. */
  lemma Claims(ssl: Ssl, s: State, buf: Bytes, debt: Bytes)
    requires s.connected && buf != [] && |debt| == s.eat && (s.bounce != [] ==> s.eat == 0)
    ensures var n := Write(ssl, s, buf).1;
            if s.bounce != [] && ssl(s.attempts, s.bounce) != Accepted then n == 0
            else n == |buf| || n >= |Fixed(s, debt)|
  {
    if s.bounce != [] {
      assert buf[0..] == buf && s.(eat := 0) == s;
    }
  }

  /** A call conserves the stream, its returned count being all that the caller learns, exactly when
      SSL still refuses the held data, or the buffer repeats what was fixed before, as far as both go. */
  lemma CallConservesIff(ssl: Ssl, s: State, buf: Bytes, claimed: Bytes, debt: Bytes)
    requires s.connected && Owes(s, claimed, debt)
    ensures var (t, n) := Write(ssl, s, buf);
            (exists d :: Owes(t, claimed + buf[..n], d))
            <==> (s.bounce != [] && ssl(s.attempts, s.bounce) != Accepted) || Repeats(buf, Fixed(s, debt), |buf|)
  {
    var (t, n) := Write(ssl, s, buf);
    if buf == [] {
      assert claimed + buf[..n] == claimed;
      assert Owes(t, claimed + buf[..n], debt);
    } else {
      WriteSends(ssl, s, buf, claimed, debt);
      SendsConserves(t, n, buf, claimed, Fixed(s, debt));
      Claims(ssl, s, buf, debt);
      assert n == |buf| || n >= |Fixed(s, debt)| ==> (Repeats(buf, Fixed(s, debt), n) <==> Repeats(buf, Fixed(s, debt), |buf|));
    }
  }

  /** SSL that wants the first call again and then takes everything. */
  const RETRY_ONCE: Ssl := (attempts, data) => if attempts == [] then Retry else Accepted

  /** A caller who offers [1, 2], is told 0, and offers [3] instead: SSL takes [1, 2], and the caller is
      told that [3] was written. */
  lemma ChangedBuffer()
    ensures var s := Write(RETRY_ONCE, START, [1, 2]).0; var (t, n) := Write(RETRY_ONCE, s, [3]);
            && Owes(s, [], []) && n == 1 && Sent(t.attempts) == [1, 2] && forall d :: !Owes(t, [3], d)
  {
    var (s, m) := Write(RETRY_ONCE, START, [1, 2]);
    assert m == 0 && s == State(true, [1, 2], 0, [], [Attempt([1, 2], Retry)]);
    var n := Write(RETRY_ONCE, s, [3]).1;
    assert Sent([]) == [];
    SentAppend([], Attempt([1, 2], Retry));
    assert [] + [Attempt([1, 2], Retry)] == s.attempts;
    SentAppend(s.attempts, Attempt([1, 2], Accepted));
    assert n == 1;
    forall d ensures [3] + d != [1, 2] {
      assert ([3] + d)[0] == 3;
    }
  }

  // ---------- conservation, all runs ----------

  /** The caller presents the stream, having been told that its first P bytes were written.  Of these
      the last may be in the buffer used when there is no connection. */
  ghost predicate Tracks(s: State, stream: Bytes, p: nat) {
    && |s.unconnected| <= p <= |stream| && (s.connected ==> s.unconnected == [])
    && var q := p - |s.unconnected|;
       && s.unconnected == stream[q..p]
       && q + s.eat <= |stream| && Sent(s.attempts) == stream[..q + s.eat]
       && (s.bounce != [] ==> s.eat == 0)
       && s.bounce <= stream[q..]
  }

  /** The buffer of a caller who is at P and offers up to LEN bytes. */
  function Offered(stream: Bytes, p: nat, len: nat): Bytes
    requires p <= |stream|
  {
    stream[p..if p + len < |stream| then p + len else |stream|]
  }

  lemma FixedIsNext(s: State, stream: Bytes, p: nat)
    requires s.connected && Tracks(s, stream, p)
    ensures Owes(s, stream[..p], stream[p..p + s.eat])
    ensures Fixed(s, stream[p..p + s.eat]) <= stream[p..]
  {
    assert stream[..p + s.eat] == stream[..p] + stream[p..p + s.eat];
    if s.bounce == [] {
      assert stream[p..p + s.eat] + [] == stream[p..p + s.eat];
    } else {
      assert [] + s.bounce == s.bounce;
    }
  }

  lemma SendsTracks(t: State, n: nat, stream: Bytes, p: nat, buf: Bytes, fixed: Bytes)
    requires p <= |stream| && buf <= stream[p..] && fixed <= stream[p..] && n <= |buf|
    requires Sends(t, n, buf, stream[..p], fixed) && t.unconnected == []
    ensures Tracks(t, stream, p + n)
  {
    if 0 < n <= |fixed| {
      assert stream[..p] + fixed == stream[..p + |fixed|];
    } else if n > 0 {
      assert stream[..p] + fixed == stream[..p + |fixed|];
      assert buf[|fixed|..n] == stream[p + |fixed|..p + n];
      assert stream[..p + |fixed|] + stream[p + |fixed|..p + n] == stream[..p + n];
    }
    assert buf[n..] <= stream[p..][n..] == stream[p + n..];
  }

  lemma WriteKeepsUnconnected(ssl: Ssl, s: State, buf: Bytes)
    requires s.connected
    ensures Write(ssl, s, buf).0.unconnected == s.unconnected
  {
    if s.eat >= |buf| {
      LoopKeepsUnconnected(ssl, s.(eat := s.eat - |buf|), []);
    } else {
      LoopKeepsUnconnected(ssl, s.(eat := 0), buf[s.eat..]);
    }
  }

  /** One call of a caller who presents the stream from the claimed position on. */
  lemma CallTracks(ssl: Ssl, s: State, stream: Bytes, p: nat, len: nat)
    requires Tracks(s, stream, p)
    ensures var (t, n) := Write(ssl, s, Offered(stream, p, len)); Tracks(t, stream, p + n)
  {
    var buf := Offered(stream, p, len);
    if s.connected && buf != [] {
      ConnectedTracks(ssl, s, stream, p, buf);
    }
  }

  lemma ConnectedTracks(ssl: Ssl, s: State, stream: Bytes, p: nat, buf: Bytes)
    requires Tracks(s, stream, p) && s.connected && buf != [] && buf <= stream[p..]
    ensures var (t, n) := Write(ssl, s, buf); Tracks(t, stream, p + n)
  {
    var (t, n) := Write(ssl, s, buf);
    FixedIsNext(s, stream, p);
    WriteSends(ssl, s, buf, stream[..p], stream[p..p + s.eat]);
    WriteKeepsUnconnected(ssl, s, buf);
    SendsTracks(t, n, stream, p, buf, Fixed(s, stream[p..p + s.eat]));
  }

  /** A run: the state and the claimed position after calls offering up to LENS bytes. */
  function Calls(ssl: Ssl, s: State, stream: Bytes, p: nat, lens: seq<nat>): (State, nat)
    requires p <= |stream|
    decreases |lens|
  {
    if lens == [] then (s, p)
    else
      var (t, n) := Write(ssl, s, Offered(stream, p, lens[0]));
      Calls(ssl, t, stream, p + n, lens[1..])
  }

  /** Over any run, with any buffer lengths and any behaviour of SSL: what SSL has taken is the stream
      up to the claimed position plus the debt, and data in the bounce buffer is what comes next. */
  lemma {:induction false} RunConserves(ssl: Ssl, s: State, stream: Bytes, p: nat, lens: seq<nat>)
    requires Tracks(s, stream, p)
    ensures var (t, q) := Calls(ssl, s, stream, p, lens); Tracks(t, stream, q)
    decreases |lens|
  {
    if lens != [] {
      CallTracks(ssl, s, stream, p, lens[0]);
      var (t, n) := Write(ssl, s, Offered(stream, p, lens[0]));
      RunConserves(ssl, t, stream, p + n, lens[1..]);
    }
  }

  /** From a fresh connection, as long as it lasts; after that, no more is sent. */
  lemma StreamConservation(ssl: Ssl, stream: Bytes, lens: seq<nat>)
    ensures var (t, p) := Calls(ssl, START, stream, 0, lens);
            && |t.unconnected| <= p <= |stream|
            && var q := if t.connected then p else p - |t.unconnected|;
               && q + t.eat <= |stream| && Sent(t.attempts) == stream[..q + t.eat]
               && t.bounce <= stream[q..] && (t.bounce != [] ==> t.eat == 0)
  {
    RunConserves(ssl, START, stream, 0, lens);
  }

  // ---------- retries ----------

  /** SSL is offered data again unchanged after anything but success; the bounce buffer holds what
      must be offered next. */
  ghost predicate Retries(s: State) {
    && (forall i :: 0 <= i < |s.attempts| ==> 0 < |s.attempts[i].data| <= MAX_BOUNCE)
    && (forall i, j :: 0 <= i && j == i + 1 && j < |s.attempts| ==>
          (s.attempts[i].result != Accepted ==> s.attempts[j].data == s.attempts[i].data))
    && s.bounce == if s.attempts == [] || s.attempts[|s.attempts| - 1].result == Accepted then []
                   else s.attempts[|s.attempts| - 1].data
  }

  ghost predicate LastFailed(s: State) {
    s.attempts != [] && s.attempts[|s.attempts| - 1].result != Accepted
  }

  lemma AttemptRetries(s: State, a: Attempt)
    requires Retries(s) && 0 < |a.data| <= MAX_BOUNCE && (s.bounce != [] ==> a.data == s.bounce)
    ensures Retries(Tried(s, a)) && (a.result != Accepted ==> LastFailed(Tried(s, a)))
  {
  }

  lemma {:induction false} LoopRetries(ssl: Ssl, s: State, buf: Bytes)
    requires Retries(s)
    ensures var (t, n) := Loop(ssl, s, buf);
            Retries(t) && (n < |buf| ==> LastFailed(t))
    decreases |buf|
  {
    if s.bounce != [] || buf != [] {
      var data := if s.bounce == [] then Chunk(buf) else s.bounce;
      var a := Attempt(data, ssl(s.attempts, data));
      AttemptRetries(s, a);
      LoopRound(ssl, s, buf);
      if a.result == Accepted {
        if |data| < |buf| {
          LoopRetries(ssl, Tried(s, a), buf[|data|..]);
        } else {
          EatIrrelevant(Tried(s, a), |data| - |buf|);
        }
      }
    }
  }

  lemma EatIrrelevant(s: State, eat: nat)
    requires Retries(s)
    ensures Retries(s.(eat := eat))
  {
  }

  lemma WriteRetries(ssl: Ssl, s: State, buf: Bytes)
    requires Retries(s) && s.connected && s.eat < |buf|
    ensures var (t, n) := Write(ssl, s, buf); Retries(t) && (n < |buf| ==> LastFailed(t))
  {
    EatIrrelevant(s, 0);
    LoopRetries(ssl, s.(eat := 0), buf[s.eat..]);
  }

  lemma EatRetries(ssl: Ssl, s: State, buf: Bytes)
    requires Retries(s) && s.connected && buf != [] && s.eat >= |buf|
    ensures Retries(Write(ssl, s, buf).0)
  {
    EatIrrelevant(s, s.eat - |buf|);
    LoopRetries(ssl, s.(eat := s.eat - |buf|), []);
  }

  /** Whatever buffers the caller presents, a retry passes byte-identical data; and a call that claims
      less than it was given has met an SSL_write that did not succeed. */
  lemma RetryIsIdentical(ssl: Ssl, s: State, buf: Bytes)
    requires Retries(s)
    ensures var (t, n) := Write(ssl, s, buf); Retries(t) && (n < |buf| ==> LastFailed(t))
  {
    if s.connected && buf != [] {
      if s.eat >= |buf| {
        EatRetries(ssl, s, buf);
      } else {
        WriteRetries(ssl, s, buf);
      }
    }
  }

  /** The state after calls with any buffers. */
  function Writes(ssl: Ssl, s: State, bufs: seq<Bytes>): State
    decreases |bufs|
  {
    if bufs == [] then s else Writes(ssl, Write(ssl, s, bufs[0]).0, bufs[1..])
  }

  lemma {:induction false} WritesRetry(ssl: Ssl, s: State, bufs: seq<Bytes>)
    requires Retries(s)
    ensures Retries(Writes(ssl, s, bufs))
    decreases |bufs|
  {
    if bufs != [] {
      RetryIsIdentical(ssl, s, bufs[0]);
      WritesRetry(ssl, Write(ssl, s, bufs[0]).0, bufs[1..]);
    }
  }

  /** In every run from the start, whatever the caller presents: each SSL_write after one that did not
      succeed gets the identical bytes. */
  lemma EveryRetryIsIdentical(ssl: Ssl, bufs: seq<Bytes>, i: nat)
    ensures var a := Writes(ssl, START, bufs).attempts;
            i + 1 < |a| && a[i].result != Accepted ==> a[i + 1].data == a[i].data
  {
    WritesRetry(ssl, START, bufs);
  }

  // ---------- what SSL is offered ----------

  /** BUF in records: pieces of 16384 bytes, the last of what is left. */
  function Records(buf: Bytes): seq<Bytes> {
    if buf == [] then [] else [Chunk(buf)] + Records(buf[|Chunk(buf)|..])
  }

  function Glued(pieces: seq<Bytes>): Bytes {
    if pieces == [] then [] else pieces[0] + Glued(pieces[1..])
  }

  lemma {:induction false} RecordsAre(buf: Bytes, i: nat)
    ensures Glued(Records(buf)) == buf
    ensures i < |Records(buf)| ==> 0 < |Records(buf)[i]| <= 16384 && (i < |Records(buf)| - 1 ==> |Records(buf)[i]| == 16384)
    decreases |buf|
  {
    if buf != [] {
      var rest := buf[|Chunk(buf)|..];
      RecordsAre(rest, if i > 0 then i - 1 else 0);
      assert ([Chunk(buf)] + Records(rest))[1..] == Records(rest);
    }
  }

  /** What the loop has to offer: the held data, and then the records of what the caller's buffer has beyond it. */
  function ToOffer(s: State, buf: Bytes): seq<Bytes> {
    if s.bounce == [] then Records(buf)
    else [s.bounce] + Records(if |s.bounce| < |buf| then buf[|s.bounce|..] else [])
  }

  function Datas(attempts: seq<Attempt>): (r: seq<Bytes>)
    ensures |r| == |attempts|
  {
    seq(|attempts|, i requires 0 <= i < |attempts| => attempts[i].data)
  }

  /** From WAS to NOW, the pieces TODO were offered one after the other until one was not accepted, SSL answered each,
      and a fatal answer closed the connection. */
  ghost predicate Offers(ssl: Ssl, was: State, now: State, todo: seq<Bytes>) {
    && was.attempts <= now.attempts
    && var added := now.attempts[|was.attempts|..];
       && Datas(added) <= todo
       && (forall i :: 0 <= i < |added| - 1 ==> added[i].result == Accepted)
       && (added == [] || added[|added| - 1].result == Accepted ==> Datas(added) == todo)
       && (forall i :: |was.attempts| <= i < |now.attempts| ==> now.attempts[i].result == ssl(now.attempts[..i], now.attempts[i].data))
       && now.connected == (was.connected && (added == [] || added[|added| - 1].result != Fatal))
  }

  lemma OffersNothing(ssl: Ssl, was: State, now: State)
    requires now.attempts == was.attempts && now.connected == was.connected
    ensures Offers(ssl, was, now, [])
  {
    assert now.attempts[|was.attempts|..] == [];
  }

  lemma OffersFailing(ssl: Ssl, s: State, a: Attempt, now: State, todo: seq<Bytes>)
    requires a.result == ssl(s.attempts, a.data) && a.result != Accepted
    requires now.attempts == s.attempts + [a] && now.connected == (s.connected && a.result != Fatal)
    ensures Offers(ssl, s, now, [a.data] + todo)
  {
    var n := |s.attempts|;
    assert now.attempts[n..] == [a] && now.attempts[..n] == s.attempts;
  }

  lemma OffersMore(ssl: Ssl, s: State, a: Attempt, now: State, todo: seq<Bytes>)
    requires a.result == ssl(s.attempts, a.data) && a.result == Accepted && Offers(ssl, Tried(s, a), now, todo)
    ensures Offers(ssl, s, now, [a.data] + todo)
  {
    var n := |s.attempts|;
    BehindFirst(s.attempts, a, now.attempts);
    assert now.attempts[n..] == [a] + now.attempts[n + 1..];
  }

  lemma BehindFirst(was: seq<Attempt>, a: Attempt, now: seq<Attempt>)
    requires was + [a] <= now
    ensures var n := |was|;
            && was <= now && now[n] == a && now[..n] == was && now[n..] == [a] + now[n + 1..]
            && Datas(now[n..]) == [a.data] + Datas(now[n + 1..])
  {
    var later := now[|was| + 1..];
    assert Datas([a] + later) == [a.data] + Datas(later);
  }

  lemma {:induction false} LoopOffers(ssl: Ssl, s: State, buf: Bytes)
    ensures Offers(ssl, s, Loop(ssl, s, buf).0, ToOffer(s, buf))
    decreases |buf|
  {
    if s.bounce == [] && buf == [] {
      OffersNothing(ssl, s, s);
    } else {
      var data := if s.bounce == [] then Chunk(buf) else s.bounce;
      var a := Attempt(data, ssl(s.attempts, data));
      var rest := if |data| < |buf| then buf[|data|..] else [];
      var t := Loop(ssl, s, buf).0;
      LoopRound(ssl, s, buf);
      assert ToOffer(s, buf) == [data] + Records(rest);
      if a.result == Accepted {
        if |data| < |buf| {
          LoopOffers(ssl, Tried(s, a), rest);
        } else {
          OffersNothing(ssl, Tried(s, a), t);
        }
        OffersMore(ssl, s, a, t, Records(rest));
      } else {
        OffersFailing(ssl, s, a, t, Records(rest));
      }
    }
  }

  /** The debt has nothing to do with what is offered. */
  lemma LoopOffersAny(ssl: Ssl, s: State, eat: nat, buf: Bytes)
    ensures Offers(ssl, s, Loop(ssl, s.(eat := eat), buf).0, ToOffer(s, buf))
  {
    var u := s.(eat := eat);
    LoopOffers(ssl, u, buf);
    assert ToOffer(u, buf) == ToOffer(s, buf);
  }

  /** A call offers SSL the held data and then the buffer in records, without the bytes that pay off the debt.
      Without a connection or a buffer it offers nothing; the buffer is kept for later, or nothing changes. */
  lemma WriteOffers(ssl: Ssl, s: State, buf: Bytes)
    ensures var (t, n) := Write(ssl, s, buf);
            if !s.connected then t == s.(unconnected := s.unconnected + buf) && n == |buf|
            else if buf == [] then t == s && n == 0
            else Offers(ssl, s, t, ToOffer(s, if s.eat < |buf| then buf[s.eat..] else []))
  {
    if s.eat >= |buf| {
      LoopOffersAny(ssl, s, s.eat - |buf|, []);
    } else {
      LoopOffersAny(ssl, s, 0, buf[s.eat..]);
    }
  }

  // ---------- after a fatal error ----------

  /** Nothing was offered after a fatal answer, and the connection is closed just when there was one. */
  ghost predicate ClosedRight(s: State) {
    && (forall i :: 0 <= i < |s.attempts| - 1 ==> s.attempts[i].result != Fatal)
    && (s.connected <==> s.attempts == [] || s.attempts[|s.attempts| - 1].result != Fatal)
  }

  lemma OffersCloses(ssl: Ssl, s: State, t: State, todo: seq<Bytes>)
    requires ClosedRight(s) && s.connected && Offers(ssl, s, t, todo)
    ensures ClosedRight(t)
  {
    var n, added := |s.attempts|, t.attempts[|s.attempts|..];
    assert t.attempts == s.attempts + added;
    forall i | 0 <= i < |t.attempts| - 1 ensures t.attempts[i].result != Fatal {
      if i < n {
        assert t.attempts[i] == s.attempts[i];
      } else {
        assert t.attempts[i] == added[i - n];
      }
    }
    assert added == [] ==> t.attempts == s.attempts;
    assert added != [] ==> t.attempts[|t.attempts| - 1] == added[|added| - 1];
  }

  lemma {:induction false} RunCloses(ssl: Ssl, s: State, bufs: seq<Bytes>)
    requires ClosedRight(s)
    ensures ClosedRight(Writes(ssl, s, bufs))
    decreases |bufs|
  {
    if bufs != [] {
      var t := Write(ssl, s, bufs[0]).0;
      WriteOffers(ssl, s, bufs[0]);
      if s.connected && bufs[0] != [] {
        OffersCloses(ssl, s, t, ToOffer(s, if s.eat < |bufs[0]| then bufs[0][s.eat..] else []));
      }
      RunCloses(ssl, t, bufs[1..]);
    }
  }

  /** In every run from the start: once SSL has failed for good the connection is closed, and SSL is not called again. */
  lemma ClosedForGood(ssl: Ssl, bufs: seq<Bytes>)
    ensures ClosedRight(Writes(ssl, START, bufs))
  {
    RunCloses(ssl, START, bufs);
  }
}
