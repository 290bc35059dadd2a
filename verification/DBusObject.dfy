/** The connection and the two authenticators as objects, which each step changes in place. */
module DBusObject {
  import opened Maybes
  import opened WvStrings
  import opened DBusWords
  import opened DBusAuth

  class WvDBusConn {
    var authorized: bool
    var err: Maybe<Error>
    var outQueue: string
    var wrote: string
    var outbuf: string
    var inbuf: string
    var inQueue: string

    function Now(): Conn
      reads this
    {
      Conn(authorized, err, outQueue, wrote, outbuf, inbuf, inQueue)
    }

    constructor ()
      ensures Now() == NEW_CONN
    {
      authorized, err := false, None;
      outQueue, wrote, outbuf, inbuf, inQueue := "", "", "", "", "";
    }

    method Print(text: string)
      modifies `wrote, `outbuf
      ensures Now() == Out(old(Now()), text)
    {
      wrote := wrote + text;
      outbuf := outbuf + text;
    }

    method SetError(e: Error)
      modifies `err
      ensures Now() == SetErr(old(Now()), e)
    {
      if err.None? {
        err := Some(e);
      }
    }

    /** write(out_queue), of which the stream takes K bytes. */
    method WriteQueue(k: nat)
      modifies this
      ensures Now() == Flush(old(Now()), k)
    {
      var n := if k < |outQueue| then k else |outQueue|;
      Print(outQueue[..n]);
      outQueue := outQueue[n..];
    }

    method SendMsg(msg: string, k: nat)
      modifies this
      ensures Now() == Send(old(Now()), msg, k)
    {
      outQueue := outQueue + msg;
      if authorized {
        WriteQueue(k);
      }
    }

    method ReadLine() returns (line: Maybe<string>)
      modifies `inbuf
      ensures (Now(), line) == In(old(Now()))
    {
      var q := IndexOf(inbuf, '\n');
      if q < |inbuf| {
        line := Some(Trim(CString(inbuf[..q])));
        inbuf := inbuf[q + 1..];
      } else if err.Some? && inbuf != "" {
        line := Some(Trim(CString(inbuf)));
        inbuf := "";
      } else {
        line := None;
      }
    }

    /** try_auth after authorize has returned DONE. */
    method Authorized(done: bool, k: nat)
      modifies this
      ensures Now() == Finish(old(Now()), done, k)
    {
      if done {
        if outQueue != "" {
          WriteQueue(k);
        }
        authorized := true;
      }
    }
  }

  class WvDBusClientAuth {
    var sentRequest: bool
    const uid: nat

    constructor (uid: nat)
      ensures !sentRequest && this.uid == uid
    {
      this.uid, sentRequest := uid, false;
    }

    method Authorize(c: WvDBusConn) returns (done: bool)
      modifies this, c
      ensures (c.Now(), sentRequest, done) == ClientAuthorize(old(c.Now()), old(sentRequest), uid)
    {
      if !sentRequest {
        c.Print("\0");
        c.Print(AuthRequest(uid));
        sentRequest := true;
      } else {
        var line := c.ReadLine();
        if line.Some? {
          if StartsWith(line.value, "OK ") {
            c.Print("BEGIN\r\n");
            return true;
          } else if StartsWith(line.value, "ERROR ") {
            c.SetError(AuthFailed(line.value));
          } else {
            c.SetError(UnknownResponse(line.value));
          }
        }
      }
      done := false;
    }

    /** What init does on the client: Hello and AddMatch are queued before anything else can be, and the request
        goes out. */
    method Init(c: WvDBusConn, hello: string, addMatch: string)
      requires c.Now() == NEW_CONN && !sentRequest
      modifies this, c
      ensures var w := Start(uid, hello, addMatch); c.Now() == w.c && sentRequest == w.sentRequest
    {
      c.SendMsg(hello, 0);
      c.SendMsg(addMatch, 0);
      var done := Authorize(c);
      c.Authorized(done, 0);
    }

    method TryAuth(c: WvDBusConn, k: nat, ghost w: World)
      requires w.c == c.Now() && w.sentRequest == sentRequest && w.uid == uid
      modifies this, c
      ensures var v := Step(w, ClientTries(k)); c.Now() == v.c && sentRequest == v.sentRequest
    {
      if !c.authorized && c.err.None? {
        var done := Authorize(c);
        c.Authorized(done, k);
      }
    }
  }

  class WvDBusServerAuth {
    var state: Waiting
    var clientUid: Maybe<nat>

    function Now(): ServerAuth
      reads this
    {
      ServerAuth(state, clientUid)
    }

    constructor ()
      ensures Now() == ServerAuth(NullWait, None)
    {
      state, clientUid := NullWait, None;
    }

    method Authorize(c: WvDBusConn) returns (done: bool)
      modifies this, c
      ensures (c.Now(), Now(), done) == ServerAuthorize(old(c.Now()), old(Now()))
    {
      if state == NullWait {
        if c.inbuf == "" {
          return false;
        }
        var first := c.inbuf[0];
        c.inbuf := c.inbuf[1..];
        if first == '\0' {
          state := AuthWait;
        } else {
          c.SetError(NoNul);
        }
      }
      var line := c.ReadLine();
      if line.None? {
        return false;
      }
      done := AnswerLine(c, line.value);
    }

    method AnswerLine(c: WvDBusConn, line: string) returns (done: bool)
      modifies this, c
      ensures (c.Now(), Now(), done) == Answer(old(c.Now()), old(Now()), line)
    {
      done := false;
      var words := Split(line);
      var cmd := Word(words, 0);
      if state == AuthWait {
        if Same(cmd, "AUTH") {
          if Same(Word(words, 1), "EXTERNAL") {
            var uid := HexDecode(Word(words, 2));
            if uid != "" {
              clientUid := Some(Num(uid));
            }
            state := BeginWait;
            c.Print("OK f00f\r\n");
          } else {
            c.Print("REJECTED EXTERNAL\r\n");
          }
        } else {
          c.SetError(AuthExpected(line));
        }
      } else if state == BeginWait {
        if Same(cmd, "BEGIN") {
          return true;
        } else {
          c.SetError(BeginExpected(line));
        }
      }
    }

    method TryAuth(c: WvDBusConn, k: nat, ghost w: World)
      requires w.s == c.Now() && w.auth == Now()
      modifies this, c
      ensures var v := Step(w, ServerTries(k)); c.Now() == v.s && Now() == v.auth
    {
      if !c.authorized && c.err.None? {
        var done := Authorize(c);
        c.Authorized(done, k);
      }
    }
  }
}
