/** The two sides of a D-Bus connection: how they authenticate, and what they queue and send. */
module DBusAuth {
  import opened Maybes
  import opened Sequences
  import opened WvStrings
  import opened DBusWords

  datatype Error =
    | AuthFailed(line: string) | UnknownResponse(line: string)       // on the client
    | NoNul | AuthExpected(line: string) | BeginExpected(line: string)   // on the server

  /** A WvDBusConn with the stream below it. */
  datatype Conn = Conn(
    authorized: bool,
    err: Maybe<Error>,
    outQueue: string,    // messages not written yet
    wrote: string,       // all that was ever written
    outbuf: string,      // written, and not yet on its way
    inbuf: string,       // arrived, and not read yet
    inQueue: string)     // read as messages

  const NEW_CONN := Conn(false, None, "", "", "", "", "")

  /** out, and write of bytes that the stream takes whole. */
  function Out(c: Conn, text: string): Conn {
    c.(wrote := c.wrote + text, outbuf := c.outbuf + text)
  }

  /** seterr keeps the first error. */
  function SetErr(c: Conn, e: Error): Conn {
    if c.err.None? then c.(err := Some(e)) else c
  }

  /** write(out_queue), of which the stream takes K bytes. */
  function Flush(c: Conn, k: nat): Conn {
    var n := if k < |c.outQueue| then k else |c.outQueue|;
    Out(c, c.outQueue[..n]).(outQueue := c.outQueue[n..])
  }

  function Send(c: Conn, msg: string, k: nat): Conn {
    var d := c.(outQueue := c.outQueue + msg);
    if c.authorized then Flush(d, k) else d
  }

  /** A C string ends at the first NUL. */
  function CString(s: string): string {
    s[..IndexOf(s, '\0')]
  }

  /** in: a line, once it is complete. On a stream with an error, what is left counts as one. */
  function In(c: Conn): (Conn, Maybe<string>) {
    var q := IndexOf(c.inbuf, '\n');
    if q < |c.inbuf| then (c.(inbuf := c.inbuf[q + 1..]), Some(Trim(CString(c.inbuf[..q]))))
    else if c.err.Some? && c.inbuf != "" then (c.(inbuf := ""), Some(Trim(CString(c.inbuf))))
    else (c, None)
  }

  predicate StartsWith(s: string, prefix: string) {
    |prefix| <= |s| && Same(s[..|prefix|], prefix)
  }

  // ---------- the client ----------

  function HexUid(uid: nat): string {
    HexEncode(Decimal(uid))
  }

  function AuthRequest(uid: nat): string {
    "AUTH EXTERNAL " + HexUid(uid) + "\r\n"
  }

  /** WvDBusClientAuth::authorize. The middle result is sent_request, the last one what is returned. */
  function ClientAuthorize(c: Conn, sentRequest: bool, uid: nat): (Conn, bool, bool) {
    if !sentRequest then (Out(Out(c, "\0"), AuthRequest(uid)), true, false)
    else
      var (d, line) := In(c);
      if line.None? then (d, true, false)
      else if StartsWith(line.value, "OK ") then (Out(d, "BEGIN\r\n"), true, true)
      else if StartsWith(line.value, "ERROR ") then (SetErr(d, AuthFailed(line.value)), true, false)
      else (SetErr(d, UnknownResponse(line.value)), true, false)
  }

  // ---------- the server ----------

  datatype Waiting = NullWait | AuthWait | BeginWait

  datatype ServerAuth = ServerAuth(state: Waiting, clientUid: Maybe<nat>)

  /** The first byte has to be NUL. */
  function TakeNul(c: Conn, a: ServerAuth): (Conn, ServerAuth) {
    if a.state != NullWait || c.inbuf == "" then (c, a)
    else if c.inbuf[0] == '\0' then (c.(inbuf := c.inbuf[1..]), a.(state := AuthWait))
    else (SetErr(c.(inbuf := c.inbuf[1..]), NoNul), a)
  }

  /** What the server makes of a line. */
  function Answer(c: Conn, a: ServerAuth, line: string): (Conn, ServerAuth, bool) {
    var words := Split(line);
    var cmd := Word(words, 0);
    match a.state
    case AuthWait =>
      if Same(cmd, "AUTH") then
        if Same(Word(words, 1), "EXTERNAL") then
          var uid := HexDecode(Word(words, 2));
          (Out(c, "OK f00f\r\n"), ServerAuth(BeginWait, if uid != "" then Some(Num(uid)) else a.clientUid), false)
        else (Out(c, "REJECTED EXTERNAL\r\n"), a, false)
      else (SetErr(c, AuthExpected(line)), a, false)
    case BeginWait =>
      if Same(cmd, "BEGIN") then (c, a, true) else (SetErr(c, BeginExpected(line)), a, false)
    case NullWait => (c, a, false)
  }

  /** WvDBusServerAuth::authorize. */
  function ServerAuthorize(c: Conn, a: ServerAuth): (Conn, ServerAuth, bool) {
    if a.state == NullWait && c.inbuf == "" then (c, a, false)
    else
      var (d, b) := TakeNul(c, a);
      var (e, line) := In(d);
      if line.None? then (e, b, false) else Answer(e, b, line.value)
  }

  /** The rest of try_auth: the queue goes out, as far as the stream takes it. */
  function Finish(c: Conn, done: bool, k: nat): Conn {
    if done then Flush(c, k).(authorized := true) else c
  }

  // ---------- both sides, and the channel ----------

  datatype World = World(
    uid: nat,                              // of the client process
    c: Conn, sentRequest: bool,
    s: Conn, auth: ServerAuth,
    cMsgs: seq<string>, sMsgs: seq<string>)   // all that either side sent, as marshalled

  datatype Event =
    | ClientSends(msg: string, k: nat)
    | ServerSends(msg: string, k: nat)
    | ClientTries(k: nat)
    | ServerTries(k: nat)
    | ToServer(n: nat)
    | ToClient(n: nat)
    | ClientReads(n: nat)
    | ServerReads(n: nat)

  function Min(a: nat, b: nat): nat {
    if a < b then a else b
  }

  /** Any number of bytes travel. */
  function Deliver(from: Conn, to: Conn, n: nat): (Conn, Conn) {
    var m := Min(n, |from.outbuf|);
    (from.(outbuf := from.outbuf[m..]), to.(inbuf := to.inbuf + from.outbuf[..m]))
  }

  /** Once authorized, what comes in is messages. */
  function Read(c: Conn, n: nat): Conn {
    var m := Min(n, |c.inbuf|);
    if c.authorized then c.(inQueue := c.inQueue + c.inbuf[..m], inbuf := c.inbuf[m..]) else c
  }

  function ClientTry(w: World, k: nat): World {
    if w.c.authorized || w.c.err.Some? then w
    else
      var (c, sent, done) := ClientAuthorize(w.c, w.sentRequest, w.uid);
      w.(c := Finish(c, done, k), sentRequest := sent)
  }

  function ServerTry(w: World, k: nat): World {
    if w.s.authorized || w.s.err.Some? then w
    else
      var (s, a, done) := ServerAuthorize(w.s, w.auth);
      w.(s := Finish(s, done, k), auth := a)
  }

  function Step(w: World, e: Event): World {
    match e
    case ClientSends(msg, k) => w.(c := Send(w.c, msg, k), cMsgs := w.cMsgs + [msg])
    case ServerSends(msg, k) => w.(s := Send(w.s, msg, k), sMsgs := w.sMsgs + [msg])
    case ClientTries(k) => ClientTry(w, k)
    case ServerTries(k) => ServerTry(w, k)
    case ToServer(n) => var (c, s) := Deliver(w.c, w.s, n); w.(c := c, s := s)
    case ToClient(n) => var (s, c) := Deliver(w.s, w.c, n); w.(c := c, s := s)
    case ClientReads(n) => w.(c := Read(w.c, n))
    case ServerReads(n) => w.(s := Read(w.s, n))
  }

  function Run(w: World, events: seq<Event>): World
    decreases |events|
  {
    if events == [] then w else Run(Step(w, events[0]), events[1..])
  }

  /** Two connections just after init: the client has queued Hello and AddMatch and sent its request. */
  function Start(uid: nat, hello: string, addMatch: string): World {
    var c := Send(Send(NEW_CONN, hello, 0), addMatch, 0);
    var (d, sent, done) := ClientAuthorize(c, false, uid);
    World(uid, d, sent, NEW_CONN, ServerAuth(NullWait, None), [hello, addMatch], [])
  }

  // ---------- what always holds ----------

  function All(msgs: seq<string>): string {
    if msgs == [] then "" else All(msgs[..|msgs| - 1]) + msgs[|msgs| - 1]
  }

  const OK := "OK f00f\r\n"
  const BEGIN := "BEGIN\r\n"

  function Request(uid: nat): string {
    "\0" + AuthRequest(uid)
  }

  /** Who is authorized, and what is known about the client. */
  predicate InStep(w: World) {
    && w.sentRequest && w.c.err.None? && w.s.err.None?
    && (w.s.authorized ==> w.c.authorized)
    && (w.c.authorized ==> w.auth.state == BeginWait)
    && w.auth.clientUid == if w.auth.state == BeginWait then Some(w.uid) else None
  }

  /** From the writer's queue to what the reader has as messages: nothing is lost, and nothing but the handshake
      comes before the messages. */
  predicate ToServerOk(w: World) {
    if w.auth.state == NullWait then w.s.inbuf + w.c.outbuf == Request(w.uid)
    else if w.auth.state == AuthWait then w.s.inbuf + w.c.outbuf == AuthRequest(w.uid)
    else if !w.c.authorized then w.s.inbuf + w.c.outbuf == ""
    else if !w.s.authorized then w.s.inbuf + (w.c.outbuf + w.c.outQueue) == BEGIN + All(w.cMsgs)
    else (w.s.inQueue + w.s.inbuf) + (w.c.outbuf + w.c.outQueue) == All(w.cMsgs)
  }

  predicate ToClientOk(w: World) {
    if w.auth.state != BeginWait then w.c.inbuf + w.s.outbuf == ""
    else if !w.c.authorized then w.c.inbuf + w.s.outbuf == OK
    else if !w.s.authorized then (w.c.inQueue + w.c.inbuf) + w.s.outbuf == ""
    else (w.c.inQueue + w.c.inbuf) + (w.s.outbuf + w.s.outQueue) == All(w.sMsgs)
  }

  /** All that a side ever wrote, with what it still keeps back. */
  predicate Written(c: Conn, handshake: string, msgs: seq<string>) {
    if c.authorized then handshake <= c.wrote && c.wrote + c.outQueue == handshake + All(msgs)
    else c.wrote == handshake && c.outQueue == All(msgs) && c.inQueue == ""
  }

  function ClientHandshake(w: World): string {
    Request(w.uid) + if w.c.authorized then BEGIN else ""
  }

  function ServerHandshake(w: World): string {
    if w.auth.state == BeginWait then OK else ""
  }

  predicate Sound(w: World) {
    && InStep(w) && ToServerOk(w) && ToClientOk(w)
    && Written(w.c, ClientHandshake(w), w.cMsgs) && Written(w.s, ServerHandshake(w), w.sMsgs)
  }

  // ---------- lines ----------

  predicate IsLine(line: string) {
    line != "" && Trimmed(line) && '\0' !in line && '\n' !in line
  }

  lemma TrimReturn(line: string)
    requires IsLine(line)
    ensures Trim(CString(line + "\r")) == line
  {
    var s := line + "\r";
    IndexIs(s, '\0', |s|);
    assert s[..|s|] == s && s[..|s| - 1] == line;
    TrimmedStays(line);
    assert TrimEnd(s) == TrimEnd(line);
  }

  lemma FindEnd(buf: string, rest: string, line: string, tail: string)
    requires buf + rest == line + "\n" + tail && '\n' !in line
    ensures |buf| <= |line| ==> IndexOf(buf, '\n') == |buf|
    ensures |buf| > |line| ==> IndexOf(buf, '\n') == |line| && buf[..|line|] == line && buf[|line| + 1..] + rest == tail
  {
    var whole := buf + rest;
    if |buf| <= |line| {
      assert buf == whole[..|buf|] == line[..|buf|];
      IndexIs(buf, '\n', |buf|);
    } else {
      assert buf[..|line|] == whole[..|line|] == line && buf[|line|] == whole[|line|] == '\n';
      IndexIs(buf, '\n', |line|);
      assert whole[|line| + 1..] == tail;
    }
  }

  /** A line that has come in whole is read, and one that has not is waited for. */
  lemma InReads(c: Conn, rest: string, line: string, tail: string)
    requires c.err.None? && IsLine(line) && c.inbuf + rest == line + "\r\n" + tail
    ensures var (d, r) := In(c);
      if r.None? then d == c else r.value == line && d == c.(inbuf := d.inbuf) && d.inbuf + rest == tail
    ensures In(c).1.Some? <==> |c.inbuf| >= |line| + 2
  {
    assert line + "\r\n" + tail == (line + "\r") + "\n" + tail;
    FindEnd(c.inbuf, rest, line + "\r", tail);
    TrimReturn(line);
  }

  lemma IsHexWord(uid: nat)
    ensures IsWord(HexUid(uid)) && HexDecode(HexUid(uid)) == Decimal(uid)
    ensures forall i :: 0 <= i < |HexUid(uid)| ==> HexUid(uid)[i] >= '0'
  {
    HexRoundTrip(Decimal(uid));
  }

  lemma AuthWords(uid: nat)
    ensures IsLine("AUTH EXTERNAL " + HexUid(uid))
    ensures Split("AUTH EXTERNAL " + HexUid(uid)) == ["AUTH", "EXTERNAL", HexUid(uid)]
  {
    var hex := HexUid(uid);
    IsHexWord(uid);
    assert "AUTH EXTERNAL " + hex == "AUTH" + " " + "EXTERNAL" + " " + hex;
    SplitThree("AUTH", "EXTERNAL", hex);
  }

  // ---------- the steps ----------

  lemma FlushMoves(c: Conn, k: nat)
    ensures var d := Flush(c, k);
      && d.wrote + d.outQueue == c.wrote + c.outQueue && d.outbuf + d.outQueue == c.outbuf + c.outQueue
      && d == c.(wrote := d.wrote, outbuf := d.outbuf, outQueue := d.outQueue) && c.wrote <= d.wrote
  {
    var n := if k < |c.outQueue| then k else |c.outQueue|;
    assert c.outQueue == c.outQueue[..n] + c.outQueue[n..];
  }

  lemma AnswerAuth(d: Conn, uid: nat)
    ensures Answer(d, ServerAuth(AuthWait, None), "AUTH EXTERNAL " + HexUid(uid))
         == (Out(d, OK), ServerAuth(BeginWait, Some(uid)), false)
  {
    AuthWords(uid);
    IsHexWord(uid);
    DecimalRoundTrip(uid);
  }

  /** The server waits for the request, of which REST is still on its way. */
  lemma AuthStep(s: Conn, rest: string, uid: nat)
    requires s.err.None? && s.inbuf + rest == AuthRequest(uid)
    ensures var a := ServerAuth(AuthWait, None);
      var (d, line) := In(s);
      if line.None? then d == s
      else Answer(d, a, line.value) == (Out(s, OK).(inbuf := d.inbuf), ServerAuth(BeginWait, Some(uid)), false)
           && d.inbuf + rest == ""
    ensures rest == "" ==> In(s).1.Some?
  {
    var line := "AUTH EXTERNAL " + HexUid(uid);
    AuthWords(uid);
    assert AuthRequest(uid) == line + "\r\n" + "";
    InReads(s, rest, line, "");
    AnswerAuth(In(s).0, uid);
  }

  lemma BeginStep(s: Conn, a: ServerAuth, rest: string, tail: string)
    requires s.err.None? && a.state == BeginWait && s.inbuf + rest == BEGIN + tail
    ensures var (d, line) := In(s);
      if line.None? then d == s
      else Answer(d, a, line.value) == (d, a, true) && d == s.(inbuf := d.inbuf) && d.inbuf + rest == tail
    ensures |s.inbuf| >= |BEGIN| ==> In(s).1.Some?
  {
    assert BEGIN + tail == "BEGIN" + "\r\n" + tail;
    InReads(s, rest, "BEGIN", tail);
    SplitOne("BEGIN");
  }

  lemma OkStep(c: Conn, rest: string, uid: nat)
    requires c.err.None? && c.inbuf + rest == OK
    ensures var (d, sent, done) := ClientAuthorize(c, true, uid);
      sent && if !done then d == c else d == Out(c, BEGIN).(inbuf := d.inbuf) && d.inbuf + rest == ""
    ensures rest == "" ==> ClientAuthorize(c, true, uid).2
  {
    assert OK == "OK f00f" + "\r\n" + "";
    InReads(c, rest, "OK f00f", "");
    assert "OK f00f"[..3] == "OK ";
  }

  lemma NoLineYet(c: Conn)
    requires c.err.None? && c.inbuf == ""
    ensures In(c) == (c, None)
  {
  }

  lemma StartIsSound(uid: nat, hello: string, addMatch: string)
    ensures Sound(Start(uid, hello, addMatch))
  {
    assert [hello, addMatch][..1] == [hello] && [hello][..0] == [];
    assert All([hello]) == hello;
  }

  lemma AllAppend(msgs: seq<string>, msg: string)
    ensures All(msgs + [msg]) == All(msgs) + msg
  {
    assert (msgs + [msg])[..|msgs|] == msgs;
  }

  lemma SendMoves(c: Conn, msg: string, k: nat)
    ensures var d := Send(c, msg, k);
      && d == c.(outQueue := d.outQueue, wrote := d.wrote, outbuf := d.outbuf)
      && c.wrote <= d.wrote
      && (if c.authorized then d.wrote + d.outQueue == (c.wrote + c.outQueue) + msg
                               && d.outbuf + d.outQueue == (c.outbuf + c.outQueue) + msg
          else d == c.(outQueue := c.outQueue + msg))
  {
    FlushMoves(c.(outQueue := c.outQueue + msg), k);
    Assoc(c.wrote, c.outQueue, msg);
    Assoc(c.outbuf, c.outQueue, msg);
  }

  lemma SendIsWritten(c: Conn, handshake: string, msgs: seq<string>, msg: string, k: nat)
    requires Written(c, handshake, msgs)
    ensures Written(Send(c, msg, k), handshake, msgs + [msg])
  {
    SendMoves(c, msg, k);
    AllAppend(msgs, msg);
    Assoc(handshake, All(msgs), msg);
  }

  lemma ClientSendSound(w: World, msg: string, k: nat)
    requires Sound(w)
    ensures Sound(Step(w, ClientSends(msg, k)))
  {
    SendIsWritten(w.c, ClientHandshake(w), w.cMsgs, msg, k);
    SendMoves(w.c, msg, k);
    if w.c.authorized {
      AllAppend(w.cMsgs, msg);
      Assoc(BEGIN, All(w.cMsgs), msg);
      Assoc(w.s.inbuf, w.c.outbuf + w.c.outQueue, msg);
      Assoc(w.s.inQueue + w.s.inbuf, w.c.outbuf + w.c.outQueue, msg);
    }
  }

  lemma ServerSendSound(w: World, msg: string, k: nat)
    requires Sound(w)
    ensures Sound(Step(w, ServerSends(msg, k)))
  {
    SendIsWritten(w.s, ServerHandshake(w), w.sMsgs, msg, k);
    SendMoves(w.s, msg, k);
    if w.s.authorized {
      AllAppend(w.sMsgs, msg);
      Assoc(w.c.inQueue + w.c.inbuf, w.s.outbuf + w.s.outQueue, msg);
    }
  }

  /** What is in front of the bytes that travel, and what is behind them, does not matter. */
  lemma DeliverMoves(from: Conn, to: Conn, n: nat)
    ensures var (f, t) := Deliver(from, to, n);
      && f == from.(outbuf := f.outbuf) && t == to.(inbuf := t.inbuf)
      && t.inbuf + f.outbuf == to.inbuf + from.outbuf
      && t.inbuf + (f.outbuf + f.outQueue) == to.inbuf + (from.outbuf + from.outQueue)
      && (t.inQueue + t.inbuf) + (f.outbuf + f.outQueue) == (to.inQueue + to.inbuf) + (from.outbuf + from.outQueue)
      && (t.inQueue + t.inbuf) + f.outbuf == (to.inQueue + to.inbuf) + from.outbuf
  {
    var m := Min(n, |from.outbuf|);
    var x, y, q := from.outbuf[..m], from.outbuf[m..], from.outQueue;
    assert from.outbuf == x + y;
    Assoc(to.inbuf, x, y);
    Assoc(to.inbuf, x, y + q);
    Assoc(x, y, q);
    Assoc(to.inQueue, to.inbuf, x);
    Assoc(to.inQueue + to.inbuf, x, y);
    Assoc(to.inQueue + to.inbuf, x, y + q);
  }

  lemma ToServerSound(w: World, n: nat)
    requires Sound(w)
    ensures Sound(Step(w, ToServer(n)))
  {
    DeliverMoves(w.c, w.s, n);
  }

  lemma ToClientSound(w: World, n: nat)
    requires Sound(w)
    ensures Sound(Step(w, ToClient(n)))
  {
    DeliverMoves(w.s, w.c, n);
  }

  lemma ReadMoves(c: Conn, n: nat)
    ensures var d := Read(c, n);
      && d.inQueue + d.inbuf == c.inQueue + c.inbuf && d == c.(inQueue := d.inQueue, inbuf := d.inbuf)
      && (!c.authorized ==> d == c)
  {
    var m := Min(n, |c.inbuf|);
    assert c.inbuf == c.inbuf[..m] + c.inbuf[m..];
  }

  lemma ClientReadSound(w: World, n: nat)
    requires Sound(w)
    ensures Sound(Step(w, ClientReads(n)))
  {
    ReadMoves(w.c, n);
  }

  lemma ServerReadSound(w: World, n: nat)
    requires Sound(w)
    ensures Sound(Step(w, ServerReads(n)))
  {
    ReadMoves(w.s, n);
  }

  lemma ClientTrySound(w: World, k: nat)
    requires Sound(w)
    ensures Sound(ClientTry(w, k))
  {
    if w.c.authorized {
    } else if w.auth.state != BeginWait {
      NoLineYet(w.c);
    } else {
      OkTrySound(w, k);
    }
  }

  lemma FinishIsWritten(c: Conn, k: nat, handshake: string, msgs: seq<string>)
    requires c.wrote == handshake && c.outQueue == All(msgs)
    ensures Written(Finish(c, true, k), handshake, msgs)
  {
    FlushMoves(c, k);
  }

  lemma OkTrySound(w: World, k: nat)
    requires Sound(w) && !w.c.authorized && w.auth.state == BeginWait
    ensures Sound(ClientTry(w, k))
  {
    var done, d := OkTry(w, k);
    if done {
      OkRead(w, d, k);
    }
  }

  lemma OkTry(w: World, k: nat) returns (done: bool, d: Conn)
    requires Sound(w) && !w.c.authorized && w.auth.state == BeginWait
    ensures ClientTry(w, k) == if done then w.(c := Finish(d, true, k)) else w
    ensures done ==> d == Out(w.c, BEGIN).(inbuf := d.inbuf) && d.inbuf + w.s.outbuf == ""
  {
    OkStep(w.c, w.s.outbuf, w.uid);
    d, done := ClientAuthorize(w.c, true, w.uid).0, ClientAuthorize(w.c, true, w.uid).2;
  }

  lemma OkRead(w: World, d: Conn, k: nat)
    requires Sound(w) && !w.c.authorized && w.auth.state == BeginWait
    requires d == Out(w.c, BEGIN).(inbuf := d.inbuf) && d.inbuf + w.s.outbuf == ""
    ensures Sound(w.(c := Finish(d, true, k)))
  {
    var v := w.(c := Finish(d, true, k));
    FlushMoves(d, k);
    FinishIsWritten(d, k, Request(w.uid) + BEGIN, w.cMsgs);
    assert ClientHandshake(v) == Request(w.uid) + BEGIN;
    assert w.s.inbuf == "" && d.outbuf == BEGIN;
  }

  lemma ServerTrySound(w: World, k: nat)
    requires Sound(w)
    ensures Sound(ServerTry(w, k))
  {
    if w.s.authorized {
    } else if w.auth.state != BeginWait {
      AuthTrySound(w, k);
    } else if w.c.authorized {
      BeginTrySound(w, k);
    } else {
      NoLineYet(w.s);
    }
  }

  lemma BeginTrySound(w: World, k: nat)
    requires Sound(w) && w.c.authorized && !w.s.authorized
    ensures Sound(ServerTry(w, k))
  {
    var done, d := BeginTry(w, k);
    if done {
      BeginRead(w, d, k);
    }
  }

  lemma BeginTry(w: World, k: nat) returns (done: bool, d: Conn)
    requires Sound(w) && w.c.authorized && !w.s.authorized
    ensures ServerTry(w, k) == if done then w.(s := Finish(d, true, k)) else w
    ensures done ==> d == w.s.(inbuf := d.inbuf) && d.inbuf + (w.c.outbuf + w.c.outQueue) == All(w.cMsgs)
  {
    BeginStep(w.s, w.auth, w.c.outbuf + w.c.outQueue, All(w.cMsgs));
    d, done := In(w.s).0, In(w.s).1.Some?;
  }

  lemma BeginRead(w: World, d: Conn, k: nat)
    requires Sound(w) && w.c.authorized && !w.s.authorized
    requires d == w.s.(inbuf := d.inbuf) && d.inbuf + (w.c.outbuf + w.c.outQueue) == All(w.cMsgs)
    ensures Sound(w.(s := Finish(d, true, k)))
  {
    FlushMoves(d, k);
    FinishIsWritten(d, k, OK, w.sMsgs);
    assert w.s.outbuf == "" && w.c.inQueue + w.c.inbuf == "" && w.s.inQueue == "";
  }

  lemma AuthTrySound(w: World, k: nat)
    requires Sound(w) && w.auth.state != BeginWait
    ensures Sound(ServerTry(w, k))
  {
    if w.auth.state == AuthWait {
      RequestTrySound(w, k);
    } else if w.s.inbuf != "" {
      var v := NulTaken(w);
      RequestTrySound(v, k);
      assert ServerTry(v, k) == ServerTry(w, k);
    }
  }

  /** The server falls through from the NUL byte to the request. */
  lemma NulTaken(w: World) returns (v: World)
    requires Sound(w) && w.auth.state == NullWait && w.s.inbuf != ""
    ensures TakeNul(w.s, w.auth) == (v.s, v.auth) && v == w.(s := v.s, auth := v.auth)
    ensures Sound(v) && v.auth.state == AuthWait
  {
    var (d, b) := TakeNul(w.s, w.auth);
    v := w.(s := d, auth := b);
    assert w.s.inbuf[0] == (w.s.inbuf + w.c.outbuf)[0] == Request(w.uid)[0];
    assert w.s.inbuf[1..] + w.c.outbuf == Request(w.uid)[1..] == AuthRequest(w.uid);
  }

  lemma RequestTrySound(w: World, k: nat)
    requires Sound(w) && w.auth.state == AuthWait
    ensures Sound(ServerTry(w, k))
  {
    AuthStep(w.s, w.c.outbuf, w.uid);
    assert w.auth == ServerAuth(AuthWait, None);
    assert w.c.inbuf == "" && w.s.outbuf == "" && "" + OK == OK;
  }

  lemma StepIsSound(w: World, e: Event)
    requires Sound(w)
    ensures Sound(Step(w, e))
  {
    match e
    case ClientSends(msg, k) => ClientSendSound(w, msg, k);
    case ServerSends(msg, k) => ServerSendSound(w, msg, k);
    case ClientTries(k) => ClientTrySound(w, k);
    case ServerTries(k) => ServerTrySound(w, k);
    case ToServer(n) => ToServerSound(w, n);
    case ToClient(n) => ToClientSound(w, n);
    case ClientReads(n) => ClientReadSound(w, n);
    case ServerReads(n) => ServerReadSound(w, n);
  }

  lemma {:induction false} RunIsSound(w: World, events: seq<Event>)
    requires Sound(w)
    ensures Sound(Run(w, events))
    decreases |events|
  {
    if events != [] {
      StepIsSound(w, events[0]);
      RunIsSound(Step(w, events[0]), events[1..]);
    }
  }

  // ---------- the results ----------

  lemma {:induction false} RunAddsMessages(w: World, events: seq<Event>)
    ensures var v := Run(w, events); w.cMsgs <= v.cMsgs && w.sMsgs <= v.sMsgs && v.uid == w.uid
    decreases |events|
  {
    if events != [] {
      RunAddsMessages(Step(w, events[0]), events[1..]);
    }
  }

  /** Whatever the channel and the two sides do, and in whatever order: no error is set; the server is authorized only
      if the client is, and then it knows the client's user; the client writes the request, BEGIN, and then its
      messages in the order in which they were sent, Hello first; and what a side reads as messages is the beginning
      of what the other one sent. */
  lemma Handshake(uid: nat, hello: string, addMatch: string, events: seq<Event>)
    ensures var w := Run(Start(uid, hello, addMatch), events);
      && w.c.err == None && w.s.err == None
      && (w.s.authorized ==> w.c.authorized && w.auth.clientUid == Some(uid))
      && [hello, addMatch] <= w.cMsgs
      && (if w.c.authorized then Request(uid) + BEGIN <= w.c.wrote
                               && w.c.wrote + w.c.outQueue == Request(uid) + BEGIN + All(w.cMsgs)
          else w.c.wrote == Request(uid))
      && w.s.inQueue <= All(w.cMsgs) && w.c.inQueue <= All(w.sMsgs)
  {
    var start := Start(uid, hello, addMatch);
    var w := Run(start, events);
    StartIsSound(uid, hello, addMatch);
    RunIsSound(start, events);
    RunAddsMessages(start, events);
    ReadIsPrefix(w);
  }

  lemma ReadIsPrefix(w: World)
    requires Sound(w)
    ensures w.s.inQueue <= All(w.cMsgs) && w.c.inQueue <= All(w.sMsgs)
  {
    if w.s.authorized {
      Assoc(w.s.inQueue, w.s.inbuf, w.c.outbuf + w.c.outQueue);
      Assoc(w.c.inQueue, w.c.inbuf, w.s.outbuf + w.s.outQueue);
    } else if w.c.authorized {
      assert w.c.inQueue == "";
    }
  }

  /** Once all that the client wrote has arrived, one attempt of the server brings it as far as it can get. */
  lemma ServerProgress(w: World)
    requires Sound(w) && w.c.outbuf == ""
    ensures var v := ServerTry(w, 0);
      && v.auth.state == BeginWait && (w.c.authorized ==> v.s.authorized)
      && v.c == w.c && |v.s.outbuf| <= |w.s.outbuf| + |OK|
  {
    if w.s.authorized {
    } else if w.auth.state == BeginWait {
      if w.c.authorized {
        var q := w.c.outQueue;
        assert "" + q == q;
        assert |w.c.wrote| + |q| == |ClientHandshake(w)| + |All(w.cMsgs)|;
        BeginStep(w.s, w.auth, q, All(w.cMsgs));
      } else {
        NoLineYet(w.s);
      }
    } else {
      RequestProgress(w);
    }
  }

  lemma RequestProgress(w: World)
    requires Sound(w) && w.c.outbuf == "" && w.auth.state != BeginWait
    ensures var v := ServerTry(w, 0);
      v.auth.state == BeginWait && v.c == w.c && |v.s.outbuf| <= |w.s.outbuf| + |OK|
  {
    var v := w;
    if w.auth.state == NullWait {
      v := NulTaken(w);
    }
    AuthStep(v.s, "", w.uid);
    assert v.auth == ServerAuth(AuthWait, None);
  }

  lemma ClientProgress(w: World)
    requires Sound(w) && w.s.outbuf == "" && w.auth.state == BeginWait
    ensures var v := ClientTry(w, 0);
      && v.c.authorized && v.auth == w.auth && v.s == w.s && |v.c.outbuf| <= |w.c.outbuf| + |BEGIN|
  {
    if !w.c.authorized {
      OkStep(w.c, "", w.uid);
    }
  }

  /** Deliver and try, twice on the server's side. */
  function Schedule(n: nat): seq<Event> {
    [ToServer(n), ServerTries(0), ToClient(n), ClientTries(0), ToServer(n), ServerTries(0)]
  }

  lemma ServerCatchesUp(w: World, n: nat) returns (v: World)
    requires Sound(w) && n >= |w.c.outbuf|
    ensures v == Step(Step(w, ToServer(n)), ServerTries(0)) && Sound(v)
    ensures v.auth.state == BeginWait && (w.c.authorized ==> v.s.authorized)
    ensures v.c.authorized == w.c.authorized && v.c.outbuf == "" && |v.s.outbuf| <= |w.s.outbuf| + |OK|
  {
    var u := Step(w, ToServer(n));
    ToServerSound(w, n);
    DeliverMoves(w.c, w.s, n);
    ServerProgress(u);
    ServerTrySound(u, 0);
    v := ServerTry(u, 0);
  }

  lemma ClientCatchesUp(w: World, n: nat) returns (v: World)
    requires Sound(w) && w.auth.state == BeginWait && n >= |w.s.outbuf|
    ensures v == Step(Step(w, ToClient(n)), ClientTries(0)) && Sound(v)
    ensures v.c.authorized && |v.c.outbuf| <= |w.c.outbuf| + |BEGIN|
  {
    var u := Step(w, ToClient(n));
    ToClientSound(w, n);
    DeliverMoves(w.s, w.c, n);
    ClientProgress(u);
    ClientTrySound(u, 0);
    v := ClientTry(u, 0);
  }

  lemma RunPair(w: World, a: Event, b: Event, rest: seq<Event>)
    ensures Run(w, [a, b] + rest) == Run(Step(Step(w, a), b), rest)
  {
    assert ([a, b] + rest)[1..] == [b] + rest;
    assert ([b] + rest)[1..] == rest;
  }

  /** The handshake never gets stuck: from every sound state this schedule leads to both sides being authorized. */
  lemma CanComplete(w: World, n: nat)
    requires Sound(w) && n >= |w.c.outbuf| + |w.s.outbuf| + |OK| + |BEGIN|
    ensures var v := Run(w, Schedule(n)); v.c.authorized && v.s.authorized
  {
    var w2 := ServerCatchesUp(w, n);
    var w4 := ClientCatchesUp(w2, n);
    var w6 := ServerCatchesUp(w4, n);
    RunRound(w, n, w2, w4, w6);
  }

  lemma RunRound(w: World, n: nat, w2: World, w4: World, w6: World)
    requires w2 == Step(Step(w, ToServer(n)), ServerTries(0))
    requires w4 == Step(Step(w2, ToClient(n)), ClientTries(0))
    requires w6 == Step(Step(w4, ToServer(n)), ServerTries(0))
    ensures Run(w, Schedule(n)) == w6
  {
    var last := [ToServer(n), ServerTries(0)];
    var middle := [ToClient(n), ClientTries(0)];
    assert Schedule(n) == last + (middle + (last + []));
    RunPair(w, ToServer(n), ServerTries(0), middle + (last + []));
    RunPair(w2, ToClient(n), ClientTries(0), last + []);
    RunPair(w4, ToServer(n), ServerTries(0), []);
  }
}
