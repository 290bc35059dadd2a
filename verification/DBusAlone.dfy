/** Either side of the handshake against a peer that may send anything. */
module DBusAlone {
  import opened Maybes
  import opened Sequences
  import opened WvStrings
  import opened DBusWords
  import opened DBusAuth

  // ---------- one line ----------

  lemma HexFirst(c: char, s: string)
    requires '0' <= c <= '9' && Bytes(s)
    ensures Bytes([c] + s) && HexEncode([c] + s) == ['3', c] + HexEncode(s)
  {
    var t := [c] + s;
    assert t[1..] == s && t[0] as nat / 16 == 3;
  }

  lemma Decimal1000()
    ensures Decimal(1000) == "1000"
  {
    assert Decimal(1) == "1";
    assert Decimal(10) == Decimal(1) + "0";
    assert Decimal(100) == Decimal(10) + "0";
    assert Decimal(1000) == Decimal(100) + "0";
  }

  lemma Hex1000()
    ensures Bytes("1000") && HexEncode("1000") == "31303030"
  {
    HexFirst('0', "");
    assert HexEncode("0") == "30" by { assert ['0'] + "" == "0"; }
    HexFirst('0', "0");
    assert HexEncode("00") == "3030" by { assert ['0'] + "0" == "00"; }
    HexFirst('0', "00");
    assert HexEncode("000") == "303030" by { assert ['0'] + "00" == "000"; }
    HexFirst('1', "000");
    assert ['1'] + "000" == "1000";
  }

  /** The request of user 1000, spelled out. */
  lemma RequestOf1000()
    ensures Request(1000) == "\0" + ("AUTH EXTERNAL " + "31303030" + "\r\n")
  {
    Decimal1000();
    Hex1000();
  }

  /** A line ends at its NUL, if there is one. */
  lemma LineIsCut(c: Conn, line: string, more: string, rest: string)
    requires '\n' !in line && '\0' !in line && '\n' !in more && c.inbuf == line + "\0" + more + "\n" + rest
    ensures In(c) == (c.(inbuf := rest), Some(Trim(line)))
  {
    var whole := line + "\0" + more;
    assert c.inbuf[..|whole|] == whole && c.inbuf[|whole| + 1..] == rest;
    IndexIs(c.inbuf, '\n', |whole|);
    assert whole[..|line|] == line;
    IndexIs(whole, '\0', |line|);
  }

  /** What the client does with a line: BEGIN and success for "OK ", and otherwise an error, and nothing is written. */
  lemma ClientAnswers(c: Conn, uid: nat)
    requires In(c).1.Some?
    ensures var d, line := In(c).0, In(c).1.value; var (e, sent, done) := ClientAuthorize(c, true, uid);
      && sent && e.authorized == c.authorized && e.outQueue == c.outQueue && e.inbuf == d.inbuf && e.inQueue == c.inQueue
      && (StartsWith(line, "OK ") ==> done && e.wrote == c.wrote + "BEGIN\r\n" && e.err == c.err)
      && (!StartsWith(line, "OK ") ==> !done && e.wrote == c.wrote && e.outbuf == c.outbuf && e.err.Some?)
      && (!StartsWith(line, "OK ") && c.err.None? ==>
            e.err == Some(if StartsWith(line, "ERROR ") then AuthFailed(line) else UnknownResponse(line)))
  {
  }

  /** What the server does with a line. */
  lemma ServerAnswers(c: Conn, a: ServerAuth, line: string)
    requires c.err.None?
    ensures var (d, b, done) := Answer(c, a, line); var words := Split(line);
      var auth, external, begin := Same(Word(words, 0), "AUTH"), Same(Word(words, 1), "EXTERNAL"), Same(Word(words, 0), "BEGIN");
      && d == c.(wrote := d.wrote, outbuf := d.outbuf, err := d.err)
      && (done <==> a.state == BeginWait && begin)
      && (d.wrote == c.wrote +
            if a.state == AuthWait && auth then if external then "OK f00f\r\n" else "REJECTED EXTERNAL\r\n" else "")
      && d.err == (if a.state == AuthWait && !auth then Some(AuthExpected(line))
                   else if a.state == BeginWait && !begin then Some(BeginExpected(line)) else None)
      && b.state == (if a.state == AuthWait && auth && external then BeginWait else a.state)
      && b.clientUid == (if a.state == AuthWait && auth && external && HexDecode(Word(words, 2)) != ""
                         then Some(Num(HexDecode(Word(words, 2)))) else a.clientUid)
  {
    assert c.wrote + "" == c.wrote;
  }

  // ---------- the client ----------

  datatype PeerEvent =
    | Arrives(bytes: string)
    | Sends(msg: string, k: nat)
    | Tries(k: nat)
    | Reads(n: nat)

  /** A client, and all that ever arrived. */
  datatype Lone = Lone(w: World, received: string)

  function ClientStep(l: Lone, e: PeerEvent): Lone {
    match e
    case Arrives(bytes) => Lone(l.w.(c := l.w.c.(inbuf := l.w.c.inbuf + bytes)), l.received + bytes)
    case Sends(msg, k) => l.(w := Step(l.w, ClientSends(msg, k)))
    case Tries(k) => l.(w := ClientTry(l.w, k))
    case Reads(n) => l.(w := Step(l.w, ClientReads(n)))
  }

  function ClientRun(l: Lone, events: seq<PeerEvent>): Lone
    decreases |events|
  {
    if events == [] then l else ClientRun(ClientStep(l, events[0]), events[1..])
  }

  predicate HasLine(received: string) {
    '\n' in received
  }

  /** The first line that arrived. */
  function FirstLine(received: string): string {
    Trim(CString(received[..IndexOf(received, '\n')]))
  }

  /** What arrived after it. */
  function Behind(received: string): string {
    var q := IndexOf(received, '\n');
    if q < |received| then received[q + 1..] else ""
  }

  /** Nothing decided yet: only the request was written. */
  predicate Undecided(w: World, received: string) {
    && !w.c.authorized && w.c.err.None? && w.sentRequest
    && w.c.wrote == Request(w.uid) && w.c.outQueue == All(w.cMsgs) && w.c.inbuf == received && w.c.inQueue == ""
  }

  /** The first line was OK: BEGIN and the messages in order were or will be written, and the rest is for reading. */
  predicate Accepted(w: World, received: string) {
    && w.c.authorized && w.c.err.None? && w.sentRequest
    && HasLine(received) && StartsWith(FirstLine(received), "OK ")
    && Written(w.c, Request(w.uid) + BEGIN, w.cMsgs)
    && w.c.inQueue + w.c.inbuf == Behind(received)
  }

  /** The first line was something else: an error, and no more than the request was written. */
  predicate Failed(w: World, received: string) {
    && !w.c.authorized && w.sentRequest
    && HasLine(received) && !StartsWith(FirstLine(received), "OK ")
    && w.c.err == Some(if StartsWith(FirstLine(received), "ERROR ") then AuthFailed(FirstLine(received))
                       else UnknownResponse(FirstLine(received)))
    && w.c.wrote == Request(w.uid) && w.c.outQueue == All(w.cMsgs)
  }

  predicate ClientOk(l: Lone) {
    Undecided(l.w, l.received) || Accepted(l.w, l.received) || Failed(l.w, l.received)
  }

  /** More bytes do not change the first line. */
  lemma FirstStays(a: string, b: string)
    requires HasLine(a)
    ensures HasLine(a + b) && IndexOf(a + b, '\n') == IndexOf(a, '\n') < |a| && FirstLine(a + b) == FirstLine(a)
    ensures Behind(a + b) == Behind(a) + b
  {
    var q := IndexOf(a, '\n');
    LineEnds(a);
    IndexFound(a, '\n');
    assert (a + b)[..q] == a[..q];
    IndexIs(a + b, '\n', q);
  }

  lemma LineEnds(a: string)
    ensures HasLine(a) <==> IndexOf(a, '\n') < |a|
  {
    IndexFound(a, '\n');
    if IndexOf(a, '\n') == |a| {
      assert a[..|a|] == a;
    }
  }

  lemma ArrivesOk(l: Lone, bytes: string)
    requires ClientOk(l)
    ensures ClientOk(ClientStep(l, Arrives(bytes)))
  {
    if HasLine(l.received) {
      FirstStays(l.received, bytes);
    }
    Assoc(l.w.c.inQueue, l.w.c.inbuf, bytes);
  }

  lemma SendsOk(l: Lone, msg: string, k: nat)
    requires ClientOk(l)
    ensures ClientOk(ClientStep(l, Sends(msg, k)))
  {
    SendMoves(l.w.c, msg, k);
    AllAppend(l.w.cMsgs, msg);
    if Accepted(l.w, l.received) {
      SendIsWritten(l.w.c, Request(l.w.uid) + BEGIN, l.w.cMsgs, msg, k);
    }
  }

  lemma InGivesFirst(c: Conn)
    requires c.err.None?
    ensures In(c).1.Some? <==> HasLine(c.inbuf)
    ensures HasLine(c.inbuf) ==>
      In(c).1 == Some(FirstLine(c.inbuf)) && In(c).0 == c.(inbuf := Behind(c.inbuf))
    ensures !HasLine(c.inbuf) ==> In(c).0 == c
  {
    LineEnds(c.inbuf);
  }

  lemma TriesOk(l: Lone, k: nat)
    requires ClientOk(l)
    ensures ClientOk(ClientStep(l, Tries(k)))
    ensures Undecided(l.w, l.received) && HasLine(l.received) ==> !Undecided(ClientStep(l, Tries(k)).w, l.received)
  {
    var c := l.w.c;
    if Undecided(l.w, l.received) {
      InGivesFirst(c);
      if HasLine(l.received) {
        DecidesOk(l, k);
      }
    }
  }

  lemma DecidesOk(l: Lone, k: nat)
    requires Undecided(l.w, l.received) && HasLine(l.received)
    ensures var v := ClientTry(l.w, k);
      if StartsWith(FirstLine(l.received), "OK ") then Accepted(v, l.received) else Failed(v, l.received)
  {
    var c := l.w.c;
    var (d, sent, done) := ClientAuthorize(c, true, l.w.uid);
    InGivesFirst(c);
    ClientAnswers(c, l.w.uid);
    if done {
      FlushMoves(d, k);
      FinishIsWritten(d, k, Request(l.w.uid) + BEGIN, l.w.cMsgs);
      assert "" + d.inbuf == d.inbuf;
    }
  }

  /** When a side becomes authorized, its queue goes out at once, as far as the stream takes it. */
  lemma QueueGoesOut(c: Conn, k: nat)
    ensures var d, n := Finish(c, true, k), if k < |c.outQueue| then k else |c.outQueue|;
      && d.authorized && d.wrote == c.wrote + c.outQueue[..n] && d.outbuf == c.outbuf + c.outQueue[..n] && d.outQueue == c.outQueue[n..]
      && d.inbuf == c.inbuf && d.inQueue == c.inQueue && d.err == c.err
      && Finish(c, false, k) == c
  {
  }

  lemma ReadsOk(l: Lone, n: nat)
    requires ClientOk(l)
    ensures ClientOk(ClientStep(l, Reads(n)))
  {
    ReadMoves(l.w.c, n);
  }

  lemma {:induction false} ClientRunOk(l: Lone, events: seq<PeerEvent>)
    requires ClientOk(l)
    ensures ClientOk(ClientRun(l, events))
    decreases |events|
  {
    if events != [] {
      match events[0] {
        case Arrives(bytes) => ArrivesOk(l, bytes);
        case Sends(msg, k) => SendsOk(l, msg, k);
        case Tries(k) => TriesOk(l, k);
        case Reads(n) => ReadsOk(l, n);
      }
      ClientRunOk(ClientStep(l, events[0]), events[1..]);
    }
  }

  /** A client after init, whatever arrives, in whatever pieces: it is authorized only if the first line that arrived
      starts with "OK "; if that line was read and does not, an error says so; and unless it is authorized all that it
      ever wrote is its request. */
  lemma ClientAlone(uid: nat, hello: string, addMatch: string, events: seq<PeerEvent>)
    ensures var l := ClientRun(Lone(Start(uid, hello, addMatch), ""), events); var c := l.w.c;
      && (c.authorized ==> HasLine(l.received) && StartsWith(FirstLine(l.received), "OK ") && c.err.None?)
      && (c.err.Some? ==> HasLine(l.received) && !StartsWith(FirstLine(l.received), "OK ") && !c.authorized)
      && (if c.authorized then c.wrote + c.outQueue == Request(uid) + "BEGIN\r\n" + All(l.w.cMsgs)
          else c.wrote == Request(uid) && c.outQueue == All(l.w.cMsgs))
      && (c.authorized ==> c.inQueue + c.inbuf == Behind(l.received))
  {
    var l := Lone(Start(uid, hello, addMatch), "");
    StartIsSound(uid, hello, addMatch);
    ClientRunOk(l, events);
    ClientKeepsUid(l, events);
  }

  lemma {:induction false} ClientKeepsUid(l: Lone, events: seq<PeerEvent>)
    ensures ClientRun(l, events).w.uid == l.w.uid
    decreases |events|
  {
    if events != [] {
      ClientKeepsUid(ClientStep(l, events[0]), events[1..]);
    }
  }

  // ---------- the server ----------

  function ServerStep(l: Lone, e: PeerEvent): Lone {
    match e
    case Arrives(bytes) => Lone(l.w.(s := l.w.s.(inbuf := l.w.s.inbuf + bytes)), l.received + bytes)
    case Sends(msg, k) => l.(w := Step(l.w, ServerSends(msg, k)))
    case Tries(k) => l.(w := ServerTry(l.w, k))
    case Reads(n) => l.(w := Step(l.w, ServerReads(n)))
  }

  function ServerRun(l: Lone, events: seq<PeerEvent>): Lone
    decreases |events|
  {
    if events == [] then l else ServerRun(ServerStep(l, events[0]), events[1..])
  }

  function Rejections(n: nat): string {
    if n == 0 then "" else Rejections(n - 1) + "REJECTED EXTERNAL\r\n"
  }

  /** What a server has said in the handshake. */
  ghost predicate Said(w: World, text: string) {
    exists n: nat :: text == SaidAfter(w, n)
  }

  function SaidAfter(w: World, n: nat): string {
    Rejections(n) + if w.auth.state == BeginWait then "OK f00f\r\n" else ""
  }

  predicate ServerShape(w: World, received: string) {
    && (w.auth.state == NullWait ==> !w.s.authorized && w.s.wrote == "")
    && (w.auth.state != NullWait ==> "\0" <= received)
    && (w.s.authorized ==> w.auth.state == BeginWait && w.s.err.None?)
    && (w.auth.clientUid.Some? ==> w.auth.state == BeginWait)
    && (w.auth.state == NullWait && w.s.err.None? ==> w.s.inbuf == received)
    && (!w.s.authorized ==> w.s.outQueue == All(w.sMsgs))
  }

  ghost predicate ServerWrote(w: World) {
    if w.s.authorized then exists n: nat :: Written(w.s, SaidAfter(w, n), w.sMsgs) else Said(w, w.s.wrote)
  }

  ghost predicate ServerOk(l: Lone) {
    ServerShape(l.w, l.received) && ServerWrote(l.w)
  }

  lemma ServerSendsOk(l: Lone, msg: string, k: nat)
    requires ServerOk(l)
    ensures ServerOk(ServerStep(l, Sends(msg, k)))
  {
    var v := ServerStep(l, Sends(msg, k)).w;
    SendMoves(l.w.s, msg, k);
    AllAppend(l.w.sMsgs, msg);
    if l.w.s.authorized {
      var n: nat :| Written(l.w.s, SaidAfter(l.w, n), l.w.sMsgs);
      SendIsWritten(l.w.s, SaidAfter(l.w, n), l.w.sMsgs, msg, k);
      assert Written(v.s, SaidAfter(v, n), v.sMsgs);
    } else {
      var n: nat :| l.w.s.wrote == SaidAfter(l.w, n);
      assert v.s.wrote == SaidAfter(v, n);
    }
  }

  lemma InMoves(c: Conn)
    ensures In(c).0 == c.(inbuf := In(c).0.inbuf)
  {
  }

  lemma NulMoves(c: Conn, a: ServerAuth)
    ensures var (d, b) := TakeNul(c, a);
      && d == c.(inbuf := d.inbuf, err := d.err) && b.clientUid == a.clientUid
      && (b.state != a.state ==> a.state == NullWait && b.state == AuthWait && "\0" <= c.inbuf && d.err == c.err)
      && (a.state != NullWait ==> b == a && d == c)
      && (b.state == NullWait && c.inbuf != "" ==> d.err.Some?)
  {
  }

  lemma SaysMore(w: World, v: World, n: nat)
    requires w.s.wrote == SaidAfter(w, n) && w.auth.state != BeginWait
    requires v.s.wrote == w.s.wrote
          || (v.auth.state != BeginWait && v.s.wrote == w.s.wrote + "REJECTED EXTERNAL\r\n")
          || (v.auth.state == BeginWait && v.s.wrote == w.s.wrote + "OK f00f\r\n")
    requires v.s.wrote == w.s.wrote ==> v.auth.state != BeginWait
    ensures Said(v, v.s.wrote)
  {
    assert Rejections(n) + "" == Rejections(n);
    if v.s.wrote == w.s.wrote {
      assert v.s.wrote == SaidAfter(v, n);
    } else if v.auth.state == BeginWait {
      assert v.s.wrote == SaidAfter(v, n);
    } else {
      assert Rejections(n + 1) + "" == Rejections(n + 1);
      assert v.s.wrote == SaidAfter(v, n + 1);
    }
  }

  /** An attempt of a server that is not done yet, up to the line. */
  lemma ServerTriesOk(l: Lone, k: nat)
    requires ServerOk(l)
    ensures ServerOk(ServerStep(l, Tries(k)))
  {
    var w := l.w;
    if !w.s.authorized && w.s.err.None? && !(w.auth.state == NullWait && w.s.inbuf == "") {
      var (d, b) := TakeNul(w.s, w.auth);
      var (e, line) := In(d);
      NulMoves(w.s, w.auth);
      InMoves(d);
      if line.None? {
        PausesOk(l, e, b);
      } else {
        LineOk(l, e, b, line.value, k);
      }
    }
  }

  lemma PausesOk(l: Lone, e: Conn, b: ServerAuth)
    requires ServerOk(l) && !l.w.s.authorized && l.w.s.err.None?
    requires e == l.w.s.(inbuf := e.inbuf, err := e.err) && b.clientUid == l.w.auth.clientUid
    requires b.state == l.w.auth.state || (l.w.auth.state == NullWait && b.state == AuthWait && "\0" <= l.w.s.inbuf)
    requires b.state == NullWait ==> e.err.Some?
    ensures ServerOk(l.(w := l.w.(s := e, auth := b)))
  {
    var v := l.w.(s := e, auth := b);
    var n: nat :| l.w.s.wrote == SaidAfter(l.w, n);
    assert v.s.wrote == SaidAfter(v, n);
  }

  lemma LineOk(l: Lone, e: Conn, b: ServerAuth, line: string, k: nat)
    requires ServerOk(l) && !l.w.s.authorized && l.w.s.err.None?
    requires e == l.w.s.(inbuf := e.inbuf, err := e.err) && b.clientUid == l.w.auth.clientUid
    requires b.state == l.w.auth.state || (l.w.auth.state == NullWait && b.state == AuthWait && "\0" <= l.w.s.inbuf)
    requires b.state == NullWait ==> e.err.Some?
    requires b.state != NullWait ==> e.err.None?
    ensures var (f, a, done) := Answer(e, b, line); ServerOk(l.(w := l.w.(s := Finish(f, done, k), auth := a)))
  {
    PausesOk(l, e, b);
    var (f, a, done) := Answer(e, b, line);
    var u, v := l.w.(s := e, auth := b), l.w.(s := Finish(f, done, k), auth := a);
    var n: nat :| u.s.wrote == SaidAfter(u, n);
    if b.state != NullWait {
      ServerAnswers(e, b, line);
      if done {
        FlushMoves(f, k);
        FinishIsWritten(f, k, SaidAfter(v, n), v.sMsgs);
        assert Written(v.s, SaidAfter(v, n), v.sMsgs);
      } else if b.state == BeginWait {
        assert v.s.wrote == SaidAfter(v, n);
      } else {
        SaysMore(u, v, n);
      }
    } else {
      assert v.s.wrote == SaidAfter(v, n);
    }
  }

  lemma ServerMovesOk(l: Lone, e: PeerEvent)
    requires ServerOk(l) && (e.Arrives? || e.Reads?)
    ensures ServerOk(ServerStep(l, e))
  {
    var v := ServerStep(l, e).w;
    if e.Reads? {
      ReadMoves(l.w.s, e.n);
    }
    if l.w.s.authorized {
      var n: nat :| Written(l.w.s, SaidAfter(l.w, n), l.w.sMsgs);
      assert Written(v.s, SaidAfter(v, n), v.sMsgs);
    } else {
      var n: nat :| l.w.s.wrote == SaidAfter(l.w, n);
      assert v.s.wrote == SaidAfter(v, n);
    }
  }

  lemma {:induction false} ServerRunOk(l: Lone, events: seq<PeerEvent>)
    requires ServerOk(l)
    ensures ServerOk(ServerRun(l, events))
    decreases |events|
  {
    if events != [] {
      match events[0] {
        case Sends(msg, k) => ServerSendsOk(l, msg, k);
        case Tries(k) => ServerTriesOk(l, k);
        case _ => ServerMovesOk(l, events[0]);
      }
      ServerRunOk(ServerStep(l, events[0]), events[1..]);
    }
  }

  /** A server from the start, whatever arrives: it says nothing before a NUL came first; after that, rejections and
      then one OK; it knows a user, and is authorized, only after the OK, and never with an error; and unless it is
      authorized, none of its messages is written. */
  lemma ServerAlone(events: seq<PeerEvent>)
    ensures var l := ServerRun(Lone(Start(0, "", ""), ""), events); var w := l.w;
      && (w.s.wrote != "" || w.s.authorized ==> "\0" <= l.received)
      && (w.s.authorized || w.auth.clientUid.Some? ==> w.auth.state == BeginWait)
      && (w.s.authorized ==> w.s.err.None?)
      && (!w.s.authorized ==> Said(w, w.s.wrote) && w.s.outQueue == All(w.sMsgs))
      && (w.s.authorized ==> exists n: nat :: w.s.wrote + w.s.outQueue == Rejections(n) + "OK f00f\r\n" + All(w.sMsgs))
  {
    var l := Lone(Start(0, "", ""), "");
    assert l.w.s.wrote == SaidAfter(l.w, 0);
    ServerRunOk(l, events);
    var w := ServerRun(l, events).w;
    if w.s.authorized {
      var n: nat :| Written(w.s, SaidAfter(w, n), w.sMsgs);
      assert w.s.wrote + w.s.outQueue == Rejections(n) + "OK f00f\r\n" + All(w.sMsgs);
    }
  }

  // ---------- messages ----------

  lemma SendsAll(c: Conn, msg: string, k: nat)
    requires c.authorized && k >= |c.outQueue + msg|
    ensures var d := Send(c, msg, k); d.outQueue == "" && |d.outbuf| <= |c.outbuf| + k
  {
  }

  lemma DeliversAll(from: Conn, to: Conn, m: nat)
    requires m >= |from.outbuf|
    ensures var (f, t) := Deliver(from, to, m);
      f == from.(outbuf := "") && t == to.(inbuf := t.inbuf) && |t.inbuf| <= |to.inbuf| + m
  {
  }

  lemma ReadsAll(c: Conn, n: nat)
    requires c.authorized && n >= |c.inbuf|
    ensures Read(c, n) == c.(inbuf := "", inQueue := c.inQueue + c.inbuf)
  {
    assert c.inbuf[..|c.inbuf|] == c.inbuf;
  }

  lemma AllRead(w: World)
    requires Sound(w) && w.s.authorized
    ensures w.c.outQueue == "" && w.c.outbuf == "" && w.s.inbuf == "" ==> w.s.inQueue == All(w.cMsgs)
    ensures w.s.outQueue == "" && w.s.outbuf == "" && w.c.inbuf == "" ==> w.c.inQueue == All(w.sMsgs)
  {
    NothingBehind(w.s.inQueue);
    NothingBehind(w.c.inQueue);
  }

  /** Once both sides are authorized and the stream takes and carries all it is given, a message sent by the client
      is read by the server, behind all that were sent before. */
  lemma MessageToServer(w: World, msg: string, k: nat, m: nat, n: nat)
    requires Sound(w) && w.s.authorized
    requires k >= |w.c.outQueue + msg| && m >= |w.c.outbuf| + k && n >= |w.s.inbuf| + m
    ensures Run(w, [ClientSends(msg, k), ToServer(m), ServerReads(n)]).s.inQueue == All(w.cMsgs + [msg])
  {
    var u := Step(w, ClientSends(msg, k));
    var v := Step(u, ToServer(m));
    SendsAll(w.c, msg, k);
    DeliversAll(u.c, u.s, m);
    ReadsAll(v.s, n);
    RunIsSound(w, [ClientSends(msg, k), ToServer(m), ServerReads(n)]);
    ThreeSteps(w, ClientSends(msg, k), ToServer(m), ServerReads(n));
    AllRead(Step(v, ServerReads(n)));
  }

  lemma MessageToClient(w: World, msg: string, k: nat, m: nat, n: nat)
    requires Sound(w) && w.s.authorized
    requires k >= |w.s.outQueue + msg| && m >= |w.s.outbuf| + k && n >= |w.c.inbuf| + m
    ensures Run(w, [ServerSends(msg, k), ToClient(m), ClientReads(n)]).c.inQueue == All(w.sMsgs + [msg])
  {
    var u := Step(w, ServerSends(msg, k));
    var v := Step(u, ToClient(m));
    SendsAll(w.s, msg, k);
    DeliversAll(u.s, u.c, m);
    ReadsAll(v.c, n);
    RunIsSound(w, [ServerSends(msg, k), ToClient(m), ClientReads(n)]);
    ThreeSteps(w, ServerSends(msg, k), ToClient(m), ClientReads(n));
    AllRead(Step(v, ClientReads(n)));
  }

  lemma ThreeSteps(w: World, a: Event, b: Event, c: Event)
    ensures Run(w, [a, b, c]) == Step(Step(Step(w, a), b), c)
  {
    assert [a, b, c][1..] == [b, c] && [b, c][1..] == [c];
    assert Run(Step(Step(w, a), b), [c]) == Step(Step(Step(w, a), b), c);
    assert Run(Step(w, a), [b, c]) == Run(Step(Step(w, a), b), [c]);
  }

  lemma NothingBehind(s: string)
    ensures (s + "") + ("" + "") == s
  {
  }
}
