/** Replies that a D-Bus connection waits for: registered with a deadline, and answered, expired or cancelled.
    Callbacks are taken not to call back into the connection. */
module DBusPending {

  /** Times are in microseconds. */
  const USECS_PER_SEC := 1000000
  const FOREVER_MSEC := 5 * 3600 * 1000
  const INT_MAX := 0x7fff_ffff

  function MsecAdd(t: nat, msec: nat): nat {
    t + 1000 * msec
  }

  /** C division by 1000, which chops. */
  function ChoppedMsecs(usecs: int): int {
    if usecs >= 0 then usecs / 1000 else -(-usecs / 1000)
  }

  /** msecdiff works on seconds and microseconds apart from each other, and chops only the latter. */
  function Msecs(a: nat, b: nat): int {
    (a / USECS_PER_SEC - b / USECS_PER_SEC) * 1000 + ChoppedMsecs(a % USECS_PER_SEC - b % USECS_PER_SEC)
  }

  function MsecDiff(a: nat, b: nat): int {
    var msecs := Msecs(a, b);
    if msecs > INT_MAX then INT_MAX else if msecs < -INT_MAX - 1 then -INT_MAX - 1 else msecs
  }

  /** A reply that is waited for; ID says which registration it comes from. */
  datatype Pending = Pending(id: nat, validUntil: nat)

  datatype Reason = Replied | TimedOut(now: nat) | Canceled

  /** A call of the callback of registration ID. */
  datatype Call = Call(id: nat, reason: Reason)

  datatype Registration = Registration(serial: nat, validUntil: nat)

  datatype State = State(
    pending: map<nat, Pending>,          // by serial
    registered: seq<Registration>,       // all there ever were
    calls: seq<Call>)                    // all callbacks called so far

  function Deadline(now: nat, msecTimeout: int): nat {
    MsecAdd(now, if msecTimeout < 0 then FOREVER_MSEC else msecTimeout)
  }

  /** The callback for SERIAL is called, and nothing waits for it any more. */
  function Finish(s: State, serial: nat, reason: Reason): State
    requires serial in s.pending
  {
    s.(pending := s.pending - {serial}, calls := s.calls + [Call(s.pending[serial].id, reason)])
  }

  /** cancel_pending. */
  function Cancel(s: State, serial: nat): State {
    if serial in s.pending then Finish(s, serial, Canceled) else s
  }

  /** A new registration under SERIAL. */
  function Registered(t: State, serial: nat, until: nat): State {
    t.(pending := t.pending[serial := Pending(|t.registered|, until)],
       registered := t.registered + [Registration(serial, until)])
  }

  /** add_pending. */
  function Add(s: State, serial: nat, msecTimeout: int, now: nat): State {
    Registered(Cancel(s, serial), serial, Deadline(now, msecTimeout))
  }

  /** The new entry waits under its serial until its deadline, five hours ahead for a negative timeout; an old entry
      is called off. */
  lemma AddIs(s: State, serial: nat, msecTimeout: int, now: nat)
    ensures var t, until := Add(s, serial, msecTimeout, now), now + 1000 * if msecTimeout < 0 then 18000000 else msecTimeout;
      && t.registered == s.registered + [Registration(serial, until)]
      && t.pending == s.pending[serial := Pending(|s.registered|, until)]
      && t.calls == s.calls + if serial in s.pending then [Call(s.pending[serial].id, Canceled)] else []
  {
  }

  /** The part of filter_func about replies. */
  function Reply(s: State, replySerial: nat): State {
    if replySerial != 0 && replySerial in s.pending then Finish(s, replySerial, Replied) else s
  }

  function ReplyAll(s: State, replySerials: seq<nat>): State
    decreases |replySerials|
  {
    if replySerials == [] then s else ReplyAll(Reply(s, replySerials[0]), replySerials[1..])
  }

  // ---------- what always holds ----------

  /** Registration ID still waits, under its own serial and deadline. */
  predicate Waits(s: State, id: nat) {
    && id < |s.registered| && s.registered[id].serial in s.pending
    && s.pending[s.registered[id].serial].id == id
  }

  ghost predicate Called(s: State, id: nat) {
    exists i :: 0 <= i < |s.calls| && s.calls[i].id == id
  }

  ghost predicate PendingSound(s: State) {
    forall serial :: serial in s.pending ==> PendingSoundAt(s, serial)
  }

  predicate PendingSoundAt(s: State, serial: nat)
    requires serial in s.pending
  {
    var p := s.pending[serial];
    p.id < |s.registered| && s.registered[p.id] == Registration(serial, p.validUntil)
  }

  ghost predicate CallsSound(s: State) {
    forall i :: 0 <= i < |s.calls| ==> CallSound(s, s.calls[i])
  }

  /** A call is for a registration that waits no longer; a timeout only comes after the deadline. */
  predicate CallSound(s: State, c: Call) {
    && c.id < |s.registered| && !Waits(s, c.id)
    && (c.reason.TimedOut? ==> c.reason.now > s.registered[c.id].validUntil)
  }

  ghost predicate NoneTwice(calls: seq<Call>) {
    forall i, j :: 0 <= i < j < |calls| ==> calls[i].id != calls[j].id
  }

  ghost predicate NoneLost(s: State) {
    forall id: nat :: id < |s.registered| ==> Waits(s, id) || Called(s, id)
  }

  /** Every registered callback is called exactly once or still waits, and the numbers add up. */
  ghost predicate Balanced(s: State) {
    && PendingSound(s) && CallsSound(s) && NoneTwice(s.calls) && NoneLost(s)
    && |s.registered| == |s.calls| + |s.pending|
  }

  lemma NothingYet()
    ensures Balanced(State(map[], [], []))
  {
  }

  lemma OneLess(m: map<nat, Pending>, serial: nat)
    requires serial in m
    ensures |m - {serial}| == |m| - 1
  {
    assert (m - {serial}).Keys == m.Keys - {serial};
  }

  lemma FinishBalances(s: State, serial: nat, reason: Reason)
    requires Balanced(s) && serial in s.pending
    requires reason.TimedOut? ==> reason.now > s.pending[serial].validUntil
    ensures Balanced(Finish(s, serial, reason))
  {
    var t, id := Finish(s, serial, reason), s.pending[serial].id;
    assert PendingSoundAt(s, serial);
    forall n | n in t.pending ensures PendingSoundAt(t, n) {
      assert PendingSoundAt(s, n);
    }
    assert !Waits(t, id);
    FinishKeepsCalls(s, serial, reason);
    forall k: nat | k < |t.registered| ensures Waits(t, k) || Called(t, k) {
      FinishLosesNone(s, serial, reason, k);
    }
    OneLess(s.pending, serial);
  }

  lemma FinishKeepsCalls(s: State, serial: nat, reason: Reason)
    requires Balanced(s) && serial in s.pending
    requires reason.TimedOut? ==> reason.now > s.pending[serial].validUntil
    ensures var t := Finish(s, serial, reason); CallsSound(t) && NoneTwice(t.calls)
  {
    var t, id := Finish(s, serial, reason), s.pending[serial].id;
    assert PendingSoundAt(s, serial) && Waits(s, id);
    forall i | 0 <= i < |t.calls| ensures CallSound(t, t.calls[i]) && (i < |s.calls| ==> t.calls[i].id != id) {
      if i < |s.calls| {
        assert CallSound(s, s.calls[i]);
      }
    }
  }

  lemma FinishLosesNone(s: State, serial: nat, reason: Reason, k: nat)
    requires Balanced(s) && serial in s.pending && k < |s.registered|
    ensures var t := Finish(s, serial, reason); Waits(t, k) || Called(t, k)
  {
    var t, id := Finish(s, serial, reason), s.pending[serial].id;
    assert PendingSoundAt(s, serial);
    if k == id {
      assert t.calls[|s.calls|].id == k;
    } else if !Waits(s, k) {
      var i :| 0 <= i < |s.calls| && s.calls[i].id == k;
      assert t.calls[i].id == k;
    }
  }

  lemma AddBalances(s: State, serial: nat, msecTimeout: int, now: nat)
    requires Balanced(s)
    ensures Balanced(Add(s, serial, msecTimeout, now))
  {
    var t := Cancel(s, serial);
    if serial in s.pending {
      FinishBalances(s, serial, Canceled);
    }
    RegisterBalances(t, serial, Deadline(now, msecTimeout));
  }

  lemma RegisterBalances(t: State, serial: nat, until: nat)
    requires Balanced(t) && serial !in t.pending
    ensures Balanced(Registered(t, serial, until))
  {
    var u := Registered(t, serial, until);
    forall m | m in u.pending ensures PendingSoundAt(u, m) {
      if m != serial {
        assert PendingSoundAt(t, m);
      }
    }
    forall i | 0 <= i < |u.calls| ensures CallSound(u, u.calls[i]) {
      assert CallSound(t, t.calls[i]);
    }
    forall k: nat | k < |u.registered| ensures Waits(u, k) || Called(u, k) {
      RegisterLosesNone(t, serial, until, k);
    }
    assert u.pending.Keys == t.pending.Keys + {serial};
  }

  lemma RegisterLosesNone(t: State, serial: nat, until: nat, k: nat)
    requires NoneLost(t) && serial !in t.pending && k <= |t.registered|
    ensures var u := Registered(t, serial, until); Waits(u, k) || Called(u, k)
  {
    var u := Registered(t, serial, until);
    if k < |t.registered| && Called(t, k) {
      var i :| 0 <= i < |t.calls| && t.calls[i].id == k;
      assert u.calls[i].id == k;
    } else if k < |t.registered| {
      assert Waits(t, k);
    }
  }

  lemma ReplyBalances(s: State, replySerial: nat)
    requires Balanced(s)
    ensures Balanced(Reply(s, replySerial))
  {
    if replySerial != 0 && replySerial in s.pending {
      FinishBalances(s, replySerial, Replied);
    }
  }

  // ---------- expiry ----------

  predicate Overdue(s: State, serial: nat, now: nat)
    requires serial in s.pending
  {
    now > s.pending[serial].validUntil
  }

  /** ORDER lists overdue serials, none twice. */
  ghost predicate CanExpire(s: State, order: seq<nat>, now: nat) {
    && (forall i :: 0 <= i < |order| ==> order[i] in s.pending && Overdue(s, order[i], now))
    && (forall i, j :: 0 <= i < j < |order| ==> order[i] != order[j])
  }

  ghost function Expired(s: State, order: seq<nat>, now: nat): (r: State)
    requires CanExpire(s, order, now)
    ensures r.pending == s.pending - set serial <- order
    ensures r.registered == s.registered
    decreases |order|
  {
    if order == [] then s
    else
      var n := |order| - 1;
      var t := Expired(s, order[..n], now);
      assert order == order[..n] + [order[n]];
      Finish(t, order[n], TimedOut(now))
  }

  /** The loop expires these, in the order in which the dictionary happens to offer them, and no more are overdue. */
  ghost predicate Expires(s: State, order: seq<nat>, now: nat, t: State) {
    && CanExpire(s, order, now) && t == Expired(s, order, now)
    && forall serial :: serial in t.pending ==> !Overdue(t, serial, now)
  }

  lemma StillPending(s: State, order: seq<nat>, now: nat)
    requires CanExpire(s, order, now) && order != []
    ensures var n := |order| - 1;
      var t := Expired(s, order[..n], now);
      order[n] in t.pending && t.pending[order[n]] == s.pending[order[n]]
  {
    var n := |order| - 1;
    assert order[n] !in order[..n];
  }

  lemma {:induction false} ExpiredBalances(s: State, order: seq<nat>, now: nat)
    requires Balanced(s) && CanExpire(s, order, now)
    ensures Balanced(Expired(s, order, now))
    decreases |order|
  {
    if order != [] {
      var n := |order| - 1;
      var t := Expired(s, order[..n], now);
      ExpiredBalances(s, order[..n], now);
      StillPending(s, order, now);
      assert Expired(s, order, now) == Finish(t, order[n], TimedOut(now));
      FinishBalances(t, order[n], TimedOut(now));
    }
  }

  lemma ExpireOneMore(s: State, order: seq<nat>, now: nat, serial: nat)
    requires CanExpire(s, order, now)
    requires serial in Expired(s, order, now).pending && Overdue(Expired(s, order, now), serial, now)
    ensures CanExpire(s, order + [serial], now)
    ensures Expired(s, order + [serial], now) == Finish(Expired(s, order, now), serial, TimedOut(now))
  {
    assert (order + [serial])[..|order|] == order;
  }

  /** The calls that the loop adds, in order. */
  lemma {:induction false} ExpiredCalls(s: State, order: seq<nat>, now: nat)
    requires CanExpire(s, order, now)
    ensures var t := Expired(s, order, now);
      && |t.calls| == |s.calls| + |order| && s.calls <= t.calls
      && forall i :: 0 <= i < |order| ==> t.calls[|s.calls| + i] == Call(s.pending[order[i]].id, TimedOut(now))
    decreases |order|
  {
    if order != [] {
      var n := |order| - 1;
      ExpiredCalls(s, order[..n], now);
      assert order == order[..n] + [order[n]];
    }
  }

  /** Exactly the overdue ones are gone, and each got its timeout. */
  lemma ExpiryIsExact(s: State, order: seq<nat>, now: nat, t: State)
    requires Expires(s, order, now, t)
    ensures t.pending == map serial | serial in s.pending && !Overdue(s, serial, now) :: s.pending[serial]
    ensures forall serial :: serial in s.pending && Overdue(s, serial, now) ==>
      exists i :: |s.calls| <= i < |t.calls| && t.calls[i] == Call(s.pending[serial].id, TimedOut(now))
  {
    ExpiredCalls(s, order, now);
    forall serial | serial in s.pending && Overdue(s, serial, now)
      ensures exists i :: |s.calls| <= i < |t.calls| && t.calls[i] == Call(s.pending[serial].id, TimedOut(now))
    {
      assert serial !in order ==> serial in t.pending;
      var i :| 0 <= i < |order| && order[i] == serial;
      assert t.calls[|s.calls| + i] == Call(s.pending[serial].id, TimedOut(now));
    }
  }

  // ---------- runs ----------

  datatype Event =
    | Sends(serial: nat, msecTimeout: int, now: nat)
    | Receives(replySerial: nat)
    | Cancels(serial: nat)
    | Ticks(now: nat, order: seq<nat>)

  ghost predicate Step(s: State, e: Event, t: State) {
    match e
    case Sends(serial, msecTimeout, now) => t == Add(s, serial, msecTimeout, now)
    case Receives(replySerial) => t == Reply(s, replySerial)
    case Cancels(serial) => t == Cancel(s, serial)
    case Ticks(now, order) => Expires(s, order, now, t)
  }

  ghost predicate IsRun(states: seq<State>, events: seq<Event>) {
    && |states| == |events| + 1 && states[0] == State(map[], [], [])
    && forall i :: 0 <= i < |events| ==> Step(states[i], events[i], states[i + 1])
  }

  lemma StepBalances(s: State, e: Event, t: State)
    requires Balanced(s) && Step(s, e, t)
    ensures Balanced(t)
  {
    match e
    case Sends(serial, msecTimeout, now) => AddBalances(s, serial, msecTimeout, now);
    case Receives(replySerial) => ReplyBalances(s, replySerial);
    case Cancels(serial) =>
      if serial in s.pending {
        FinishBalances(s, serial, Canceled);
      }
    case Ticks(now, order) => ExpiredBalances(s, order, now);
  }

  lemma RunStep(states: seq<State>, events: seq<Event>, i: nat)
    requires IsRun(states, events) && i < |events|
    ensures Step(states[i], events[i], states[i + 1])
  {
  }

  /** In every reachable state every callback was called exactly once or waits. */
  lemma {:induction false} RunBalances(states: seq<State>, events: seq<Event>, i: nat)
    requires IsRun(states, events) && i < |states|
    ensures Balanced(states[i])
  {
    if i == 0 {
      NothingYet();
    } else {
      RunBalances(states, events, i - 1);
      RunStep(states, events, i - 1);
      StepBalances(states[i - 1], events[i - 1], states[i]);
    }
  }

  // ---------- the alarm ----------

  /** W is the earliest deadline. */
  ghost predicate Earliest(s: State, w: nat) {
    && (exists serial :: serial in s.pending && s.pending[serial].validUntil == w)
    && (forall serial :: serial in s.pending ==> w <= s.pending[serial].validUntil)
  }

  /** mintimeout_msec: what the alarm is set to at time NOW; -1 for none. */
  ghost predicate IsMinTimeout(s: State, now: nat, msec: int) {
    if s.pending == map[] then msec == -1
    else exists w: nat :: Earliest(s, w) && msec == if w <= now then 0 else MsecDiff(w, now)
  }

  /** The alarm for a deadline W ahead rings less than a millisecond early or late, apart from very long ones. It is
      late exactly when W has the smaller microsecond part, and not by whole milliseconds: the fraction that msecdiff
      chops off is negative then. */
  lemma AlarmOnTime(w: nat, now: nat)
    requires now < w
    ensures MsecDiff(w, now) >= 0
    ensures MsecAdd(now, MsecDiff(w, now)) < w + 1000
    ensures Msecs(w, now) <= INT_MAX ==> w - 1000 < MsecAdd(now, MsecDiff(w, now))
    ensures MsecAdd(now, MsecDiff(w, now)) <= w <==>
      || Msecs(w, now) > INT_MAX
      || w % USECS_PER_SEC >= now % USECS_PER_SEC
      || (now % USECS_PER_SEC - w % USECS_PER_SEC) % 1000 == 0
  {
  }

  /** A deadline one microsecond short of a second away: the alarm is set for the whole second. */
  lemma AlarmLateExample()
    ensures MsecDiff(1000000, 1) == 1000 && MsecAdd(1, 1000) > 1000000
  {
  }

  /** WvStream::alarm: the time at which the alarm rings; 0 is none. */
  function AlarmTime(now: nat, msec: int): nat {
    if msec >= 0 then MsecAdd(now, msec) else 0
  }

  /** alarm_remaining; a time in the first second there ever was counts as none. */
  function AlarmRemaining(alarm: nat, now: nat): int {
    if alarm / USECS_PER_SEC == 0 then -1
    else if MsecDiff(alarm, now) < 0 then 0 else MsecDiff(alarm, now)
  }

  /** While replies are waited for there is an alarm, and it rings less than a millisecond after the earliest deadline,
      unless that had passed when the alarm was set, at time SETAT: then it rings at once. */
  ghost predicate AlarmSound(pending: map<nat, Pending>, alarm: nat, setAt: nat) {
    setAt >= USECS_PER_SEC ==>
      forall serial :: serial in pending ==>
        alarm / USECS_PER_SEC != 0 && (alarm == setAt || alarm < pending[serial].validUntil + 1000)
  }

  lemma AlarmIsSound(s: State, now: nat, msec: int)
    requires IsMinTimeout(s, now, msec)
    ensures AlarmSound(s.pending, AlarmTime(now, msec), now)
  {
    if s.pending != map[] {
      var w: nat :| Earliest(s, w) && msec == if w <= now then 0 else MsecDiff(w, now);
      if now < w {
        AlarmOnTime(w, now);
      }
    }
  }

  /** An alarm whose time has come has rung. */
  lemma AlarmRings(alarm: nat, now: nat)
    requires alarm / USECS_PER_SEC != 0 && alarm <= now
    ensures AlarmRemaining(alarm, now) == 0
  {
  }

  /** What is left of an alarm is right to the millisecond, apart from very long times; an alarm that has rung was due
      less than a millisecond later, or before. */
  lemma AlarmRemainingIs(alarm: nat, now: nat)
    ensures var r := AlarmRemaining(alarm, now);
      if alarm < 1000000 then r == -1
      else r >= 0 && (r == 0 ==> alarm < now + 1000)
           && (0 < r && Msecs(alarm, now) <= INT_MAX ==> alarm - 1000 < now + 1000 * r < alarm + 1000)
  {
  }

  /** What replies leave was there before. */
  lemma {:induction false} RepliesOnlyRemove(s: State, replySerials: seq<nat>)
    ensures ReplyAll(s, replySerials).pending.Keys <= s.pending.Keys
    ensures forall n :: n in ReplyAll(s, replySerials).pending ==> ReplyAll(s, replySerials).pending[n] == s.pending[n]
    decreases |replySerials|
  {
    if replySerials != [] {
      RepliesOnlyRemove(Reply(s, replySerials[0]), replySerials[1..]);
    }
  }

  /** When the alarm has not rung by NOW, no deadline passed a millisecond or more ago. */
  lemma NotRungNotLate(pending: map<nat, Pending>, alarm: nat, setAt: nat, now: nat, serial: nat)
    requires AlarmSound(pending, alarm, setAt) && USECS_PER_SEC <= setAt <= now && serial in pending
    requires AlarmRemaining(alarm, now) != 0
    ensures now < pending[serial].validUntil + 1000
  {
    if alarm <= now {
      AlarmRings(alarm, now);
    }
  }

  // ---------- the connection ----------

  class WvDBusConn {
    var pending: map<nat, Pending>
    var registered: seq<Registration>
    var calls: seq<Call>
    var alarm: nat
    var alarmSet: nat     // when it was set

    ghost function Now(): State
      reads this
    {
      State(pending, registered, calls)
    }

    /** Time 0 stands for "none" in mintimeout_msec; no deadline is that early. */
    ghost predicate Sound()
      reads this
    {
      Balanced(Now()) && forall serial :: serial in pending ==> pending[serial].validUntil > 0
    }

    ghost predicate Valid()
      reads this
    {
      Sound() && AlarmSound(pending, alarm, alarmSet)
    }

    constructor ()
      ensures Valid() && Now() == State(map[], [], []) && alarm == 0
    {
      pending, registered, calls, alarm, alarmSet := map[], [], [], 0, 0;
      new;
      NothingYet();
    }

    method MinTimeoutMsec(now: nat) returns (msec: int)
      requires Sound()
      ensures IsMinTimeout(Now(), now, msec)
    {
      var when: nat := 0;
      var todo := pending.Keys;
      while todo != {}
        invariant todo <= pending.Keys
        invariant when == 0 ==> todo == pending.Keys
        invariant when != 0 ==> exists n :: n in pending.Keys && pending[n].validUntil == when
        invariant when != 0 ==> forall n :: n in pending.Keys - todo ==> when <= pending[n].validUntil
        decreases todo
      {
        var i :| i in todo;
        todo := todo - {i};
        if when == 0 || when > pending[i].validUntil {
          when := pending[i].validUntil;
        }
      }
      if when == 0 {
        assert pending == map[];
        return -1;
      }
      assert Earliest(Now(), when);
      msec := if when <= now then 0 else MsecDiff(when, now);
    }

    /** alarm(mintimeout_msec()). */
    method SetAlarm(now: nat)
      requires Sound()
      modifies `alarm, `alarmSet
      ensures Valid() && alarmSet == now
      ensures exists msec :: IsMinTimeout(Now(), now, msec) && alarm == AlarmTime(now, msec)
    {
      var msec := MinTimeoutMsec(now);
      alarm, alarmSet := AlarmTime(now, msec), now;
      AlarmIsSound(Now(), now, msec);
    }

    method CallBack(serial: nat, reason: Reason)
      requires Sound() && serial in pending
      requires reason.TimedOut? ==> reason.now > pending[serial].validUntil
      modifies `pending, `calls
      ensures Sound() && Now() == Finish(old(Now()), serial, reason) && |pending| < |old(pending)|
      ensures old(AlarmSound(pending, alarm, alarmSet)) ==> AlarmSound(pending, alarm, alarmSet)
    {
      FinishBalances(Now(), serial, reason);
      var p := pending[serial];
      OneLess(pending, serial);
      pending := pending - {serial};
      calls := calls + [Call(p.id, reason)];
    }

    method AddPending(serial: nat, msecTimeout: int, now: nat)
      requires Valid() && serial != 0 && now > 0
      modifies this
      ensures Valid() && Now() == Add(old(Now()), serial, msecTimeout, now) && alarmSet == now
      ensures var until := now + 1000 * if msecTimeout < 0 then 18000000 else msecTimeout;
        && registered == old(registered) + [Registration(serial, until)]
        && pending == old(pending)[serial := Pending(|old(registered)|, until)]
      ensures calls == old(calls) + if serial in old(pending) then [Call(old(pending)[serial].id, Canceled)] else []
      ensures exists msec :: IsMinTimeout(Now(), now, msec) && alarm == AlarmTime(now, msec)
    {
      ghost var was := Now();
      if serial in pending {
        CallBack(serial, Canceled);
      }
      AddIs(was, serial, msecTimeout, now);
      Register(serial, Deadline(now, msecTimeout));
      SetAlarm(now);
    }

    method Register(serial: nat, until: nat)
      requires Sound() && serial !in pending && until > 0
      modifies `pending, `registered
      ensures Sound()
      ensures Now() == Registered(old(Now()), serial, until)
    {
      RegisterBalances(Now(), serial, until);
      pending := pending[serial := Pending(|registered|, until)];
      registered := registered + [Registration(serial, until)];
    }

    /** filter_func, as far as replies go: whether the message was one that is waited for. */
    method FilterReply(replySerial: nat) returns (handled: bool)
      requires Valid()
      modifies `pending, `calls
      ensures Valid() && Now() == Reply(old(Now()), replySerial)
      ensures handled <==> replySerial != 0 && replySerial in old(pending)
      ensures registered == old(registered)
      ensures if handled then pending == old(pending) - {replySerial} && calls == old(calls) + [Call(old(pending)[replySerial].id, Replied)]
              else pending == old(pending) && calls == old(calls)
    {
      handled := false;
      if replySerial != 0 {
        if replySerial in pending {
          CallBack(replySerial, Replied);
          return true;
        }
      }
    }

    /** The loop of post_select over pending, which starts again after each one that it expires. */
    method ExpireOverdue(now: nat) returns (ghost order: seq<nat>)
      requires Valid()
      modifies `pending, `calls
      ensures Valid() && Expires(old(Now()), order, now, Now())
    {
      ghost var was := Now();
      order := [];
      var todo := pending.Keys;
      while todo != {}
        invariant Valid() && CanExpire(was, order, now) && Now() == Expired(was, order, now)
        invariant todo <= pending.Keys && NoneOverdue(Now(), pending.Keys - todo, now)
        decreases |pending|, |todo|
      {
        var i :| i in todo;
        todo := todo - {i};
        if now > pending[i].validUntil {
          ExpireOne(i, now, was, order);
          order := order + [i];
          todo := pending.Keys;
        }
      }
    }

    /** expire_pending, after those in ORDER. */
    method ExpireOne(serial: nat, now: nat, ghost was: State, ghost order: seq<nat>)
      requires Valid() && serial in pending && now > pending[serial].validUntil
      requires CanExpire(was, order, now) && Now() == Expired(was, order, now)
      modifies `pending, `calls
      ensures Valid() && |pending| < |old(pending)|
      ensures CanExpire(was, order + [serial], now) && Now() == Expired(was, order + [serial], now)
    {
      CallBack(serial, TimedOut(now));
      ExpireOneMore(was, order, now, serial);
    }

    /** cancel_pending. */
    method CancelPending(serial: nat)
      requires Valid()
      modifies `pending, `calls
      ensures Valid() && Now() == Cancel(old(Now()), serial)
      ensures registered == old(registered)
      ensures if serial in old(pending)
        then pending == old(pending) - {serial} && calls == old(calls) + [Call(old(pending)[serial].id, Canceled)]
        else pending == old(pending) && calls == old(calls)
    {
      if serial in pending {
        CallBack(serial, Canceled);
      }
    }

    /** post_select on an authorized connection: expiry when the alarm has rung, then the messages that came in,
        of which those that are no replies are left out; then the alarm is set again.  What waits then is less than a
        millisecond past its deadline, if the clock has not gone back since the alarm was set. */
    method PostSelect(now: nat, replySerials: seq<nat>) returns (ghost order: seq<nat>)
      requires Valid()
      modifies this
      ensures Valid() && alarmSet == now
      ensures exists msec :: IsMinTimeout(Now(), now, msec) && alarm == AlarmTime(now, msec)
      ensures var rang := AlarmRemaining(old(alarm), now) == 0;
              if rang then CanExpire(old(Now()), order, now) && Now() == ReplyAll(Expired(old(Now()), order, now), replySerials)
              else Now() == ReplyAll(old(Now()), replySerials)
      ensures AlarmRemaining(old(alarm), now) == 0 ==> NoneOverdue(Now(), pending.Keys, now)
      ensures USECS_PER_SEC <= old(alarmSet) <= now ==> NoneLate(Now(), now)
    {
      var rang := AlarmRemaining(alarm, now) == 0;
      if rang {
        order := ExpireOverdue(now);
      } else {
        order := [];
      }
      ghost var mid := Now();
      assert USECS_PER_SEC <= alarmSet <= now ==> NoneLate(mid, now) by {
        if !rang && USECS_PER_SEC <= alarmSet <= now {
          forall n | n in mid.pending ensures now < mid.pending[n].validUntil + 1000 {
            NotRungNotLate(mid.pending, alarm, alarmSet, now, n);
          }
        }
      }
      FilterAll(replySerials);
      RepliesOnlyRemove(mid, replySerials);
      SetAlarm(now);
    }

    /** The messages of one round. */
    method FilterAll(replySerials: seq<nat>)
      requires Valid()
      modifies `pending, `calls
      ensures Valid() && Now() == ReplyAll(old(Now()), replySerials)
    {
      ghost var was := Now();
      var i := 0;
      while i < |replySerials|
        invariant i <= |replySerials| && Valid()
        invariant ReplyAll(was, replySerials) == ReplyAll(Now(), replySerials[i..])
      {
        var handled := FilterReply(replySerials[i]);
        assert replySerials[i..][1..] == replySerials[i + 1..];
        i := i + 1;
      }
    }

    ghost predicate NoneLate(s: State, now: nat) {
      forall n :: n in s.pending ==> now < s.pending[n].validUntil + 1000
    }

    ghost predicate NoneOverdue(s: State, serials: set<nat>, now: nat) {
      forall n :: n in serials && n in s.pending ==> !Overdue(s, n, now)
    }
  }
}
