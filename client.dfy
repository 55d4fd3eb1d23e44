/**
  Connection set-up and reconnection of client.go.  The transport is an
  oracle: each attempt is described by an `Outcome` saying whether
  `Transport.Connect` succeeds and whether the `WriteMessage` that follows it
  (when the client writes one) succeeds.  One element of a `ticks` array is
  one tick of the redial ticker.

  Everything the client does to the outside world goes, in order, into one
  `Trace`: each `Connect` call, each `WriteMessage` call and each start of
  the inbound/outbound/heartbeat goroutines.  The trace outlives the client,
  so it also says what a dial that returns no client did.
*/
module SocketClient {
  import opened Wrappers
  import opened OpenFrame

  /** What the transport does on one attempt. */
  datatype Outcome = Outcome(connectOk: bool, writeOk: bool)

  /** A transport connection, named by the position in the trace of the `Connect` that opened it. */
  datatype Conn = Conn(id: nat)

  /**
    One effect of the client on the outside world.  The goroutines are handed
    the client's channel, not a connection; `Started(on)` names the
    connection `c.conn` holds when they start, which is the one they use,
    since nothing changes `c.conn` after the start (the dial or redial
    returns right away).
  */
  datatype Event =
    | Connected(url: string, ok: bool)            // one `Transport.Connect` call
    | Wrote(on: Conn, message: string, ok: bool)  // one `WriteMessage` call
    | Started(on: Conn)                           // `go inLoop`, `go outLoop`, `go pinger`

  /** The reconnect action a dial registers on the disconnection event. */
  datatype Reconnect = RedialPlain(url: string) | RedialNamespace(url: string, namespace: string)

  /** Why a dial returned no client. */
  datatype DialError = ConnectFailed | WriteFailed

  /** An attempt that ends the redial loop (and lets a dial return a client). */
  predicate Succeeds(o: Outcome, withNamespace: bool) {
    o.connectOk && (withNamespace ==> o.writeOk)
  }

  /**
    The events of one attempt whose connection, if it opens, is `c`: a
    connect; after a successful connect the `handshake` write, if there is
    one; then the goroutines, only when the attempt succeeds.
  */
  function AttemptEvents(o: Outcome, url: string, handshake: Option<string>, c: Conn): seq<Event> {
    [Connected(url, o.connectOk)] +
    if !o.connectOk then []
    else if handshake.None? then [Started(c)]
    else [Wrote(c, handshake.value, o.writeOk)] + (if o.writeOk then [Started(c)] else [])
  }

  /**
    In an attempt the goroutines start, on the attempt's connection, exactly
    when it succeeds, and then as its last event.
  */
  lemma AttemptStartsOnlyOnSuccess(o: Outcome, url: string, handshake: Option<string>, c: Conn)
    ensures forall k | 0 <= k < |AttemptEvents(o, url, handshake, c)| ::
      AttemptEvents(o, url, handshake, c)[k].Started? <==>
      Succeeds(o, handshake.Some?) && k == |AttemptEvents(o, url, handshake, c)| - 1
    ensures var e := AttemptEvents(o, url, handshake, c);
      Succeeds(o, handshake.Some?) ==> e[|e| - 1] == Started(c)
  {
  }

  /**
    The trace `log` extended by the events of the first `n` attempts of
    `ticks`; each attempt's connection is named by the position of its
    connect.
  */
  function Run(log: seq<Event>, ticks: seq<Outcome>, n: nat, url: string, handshake: Option<string>): (r: seq<Event>)
    requires n <= |ticks|
    ensures |log| <= |r|
  {
    if n == 0 then log
    else
      var before := Run(log, ticks, n - 1, url, handshake);
      before + AttemptEvents(ticks[n - 1], url, handshake, Conn(|before|))
  }

  /** A run only appends: what was recorded before it is never rewritten. */
  lemma {:induction false} RunKeepsLog(log: seq<Event>, ticks: seq<Outcome>, n: nat, url: string, handshake: Option<string>)
    requires n <= |ticks|
    ensures Run(log, ticks, n, url, handshake)[..|log|] == log
  {
    if n > 0 {
      var before := Run(log, ticks, n - 1, url, handshake);
      RunKeepsLog(log, ticks, n - 1, url, handshake);
      assert (before + AttemptEvents(ticks[n - 1], url, handshake, Conn(|before|)))[..|log|] == before[..|log|];
    }
  }

  /** `c.conn` after the first `n` attempts of `ticks`, when it was `before` at the start. */
  function LastConn(log: seq<Event>, ticks: seq<Outcome>, n: nat, url: string, handshake: Option<string>,
                    before: Option<Conn>): Option<Conn>
    requires n <= |ticks|
  {
    if n == 0 then before
    else if ticks[n - 1].connectOk then Some(Conn(|Run(log, ticks, n - 1, url, handshake)|))
    else None
  }

  /** The outcomes of the `Connect` calls among the first `i` events, in order. */
  function Connects(events: seq<Event>, i: nat): seq<bool>
    requires i <= |events|
  {
    if i == 0 then []
    else Connects(events, i - 1) + (if events[i - 1].Connected? then [events[i - 1].ok] else [])
  }

  /** The outcomes of all the `Connect` calls in `events`, in order. */
  function ConnectResults(events: seq<Event>): seq<bool> {
    Connects(events, |events|)
  }

  lemma {:induction false} ConnectsPrefix(a: seq<Event>, b: seq<Event>, i: nat)
    requires i <= |a|
    ensures Connects(a + b, i) == Connects(a, i)
  {
    if i > 0 {
      ConnectsPrefix(a, b, i - 1);
      assert (a + b)[i - 1] == a[i - 1];
    }
  }

  lemma {:induction false} ConnectsAppend(a: seq<Event>, b: seq<Event>, j: nat)
    requires j <= |b|
    ensures Connects(a + b, |a| + j) == Connects(a, |a|) + Connects(b, j)
  {
    if j == 0 {
      ConnectsPrefix(a, b, |a|);
    } else {
      ConnectsAppend(a, b, j - 1);
      assert (a + b)[|a| + j - 1] == b[j - 1];
    }
  }

  /** One attempt makes exactly one `Connect` call, with the tick's outcome. */
  lemma AttemptConnects(o: Outcome, url: string, handshake: Option<string>, c: Conn)
    ensures ConnectResults(AttemptEvents(o, url, handshake, c)) == [o.connectOk]
  {
    var e := AttemptEvents(o, url, handshake, c);
    assert Connects(e, 1) == [o.connectOk];
    if 1 < |e| {
      assert Connects(e, 2) == [o.connectOk];
    }
    if 2 < |e| {
      assert Connects(e, 3) == [o.connectOk];
    }
  }

  /** The successive outcomes of `Connect` in the first `n` ticks. */
  function ConnectOutcomes(ticks: seq<Outcome>, n: nat): seq<bool>
    requires n <= |ticks|
  {
    if n == 0 then [] else ConnectOutcomes(ticks, n - 1) + [ticks[n - 1].connectOk]
  }

  /** A run makes exactly one `Connect` per attempt, in tick order, with that tick's outcome. */
  lemma {:induction false} OneConnectPerTick(log: seq<Event>, ticks: seq<Outcome>, n: nat, url: string, handshake: Option<string>)
    requires n <= |ticks|
    ensures ConnectResults(Run(log, ticks, n, url, handshake)) == ConnectResults(log) + ConnectOutcomes(ticks, n)
  {
    if n > 0 {
      var before := Run(log, ticks, n - 1, url, handshake);
      var e := AttemptEvents(ticks[n - 1], url, handshake, Conn(|before|));
      assert Run(log, ticks, n, url, handshake) == before + e;
      assert ConnectResults(before + e) == ConnectResults(before) + [ticks[n - 1].connectOk] by {
        ConnectsAppend(before, e, |e|);
        AttemptConnects(ticks[n - 1], url, handshake, Conn(|before|));
      }
      assert ConnectResults(before) == ConnectResults(log) + ConnectOutcomes(ticks, n - 1) by {
        OneConnectPerTick(log, ticks, n - 1, url, handshake);
      }
    }
  }

  /**
    The place of the event at position `k` of the trace `r`: a connect is to
    `url`, and when it succeeds the next event is the handshake write, or,
    with no handshake, the goroutines on the new connection; a write is the
    handshake on the connection the event just before it opened; the
    goroutines start right after the event that completes an attempt.
  */
  ghost predicate OrderedAt(r: seq<Event>, k: nat, url: string, handshake: Option<string>)
    requires k < |r|
  {
    match r[k]
    case Connected(u, ok) =>
      u == url &&
      (ok ==> k + 1 < |r| && if handshake.Some? then r[k + 1].Wrote? else r[k + 1] == Started(Conn(k)))
    case Wrote(on, message, _) =>
      handshake == Some(message) && 0 < k && r[k - 1] == Connected(url, true) && on == Conn(k - 1)
    case Started(on) =>
      0 < k && r[k - 1] == if handshake.Some? then Wrote(on, handshake.value, true) else Connected(url, true)
  }

  /** Every event of `r` from position `from` on is in its place. */
  ghost predicate WellOrderedFrom(r: seq<Event>, from: nat, url: string, handshake: Option<string>) {
    forall k | from <= k < |r| :: OrderedAt(r, k, url, handshake)
  }

  lemma ExtendWellOrdered(b: seq<Event>, from: nat, o: Outcome, url: string, handshake: Option<string>)
    requires from <= |b| && WellOrderedFrom(b, from, url, handshake)
    ensures WellOrderedFrom(b + AttemptEvents(o, url, handshake, Conn(|b|)), from, url, handshake)
  {
    var e := AttemptEvents(o, url, handshake, Conn(|b|));
    var r := b + e;
    forall k | from <= k < |r| ensures OrderedAt(r, k, url, handshake) {
      if k < |b| {
        assert OrderedAt(b, k, url, handshake);
        assert r[k] == b[k];
        if k + 1 < |b| {
          assert r[k + 1] == b[k + 1];
        }
        if 0 < k {
          assert r[k - 1] == b[k - 1];
        }
      } else {
        var j := k - |b|;
        assert r[k] == e[j];
        if j + 1 < |e| {
          assert r[k + 1] == e[j + 1];
        }
        if 0 < j {
          assert r[k - 1] == e[j - 1];
        }
      }
    }
  }

  /**
    In every run, writes and goroutine starts sit right after the connect
    they belong to, on its connection: one handshake per successful connect,
    in order, and no goroutines before the handshake has gone out.
  */
  lemma {:induction false} RunWellOrdered(log: seq<Event>, ticks: seq<Outcome>, n: nat, url: string, handshake: Option<string>)
    requires n <= |ticks|
    ensures WellOrderedFrom(Run(log, ticks, n, url, handshake), |log|, url, handshake)
  {
    if n > 0 {
      var before := Run(log, ticks, n - 1, url, handshake);
      RunWellOrdered(log, ticks, n - 1, url, handshake);
      ExtendWellOrdered(before, |log|, ticks[n - 1], url, handshake);
    }
  }

  /**
    Every write a namespace redial makes is the open frame for its namespace:
    the same string `DialWithNamespace` writes for that namespace.
  */
  lemma RedialWritesDialFrame(log: seq<Event>, ticks: seq<Outcome>, n: nat, url: string, namespace: string)
    requires n <= |ticks|
    ensures forall k | |log| <= k < |Run(log, ticks, n, url, Some(OpenNamespaceFrame(namespace)))| ::
      Run(log, ticks, n, url, Some(OpenNamespaceFrame(namespace)))[k].Wrote? ==>
      Run(log, ticks, n, url, Some(OpenNamespaceFrame(namespace)))[k].message == OpenNamespaceFrame(namespace)
  {
    var r := Run(log, ticks, n, url, Some(OpenNamespaceFrame(namespace)));
    RunWellOrdered(log, ticks, n, url, Some(OpenNamespaceFrame(namespace)));
    forall k | |log| <= k < |r| && r[k].Wrote? ensures r[k].message == OpenNamespaceFrame(namespace) {
      assert OrderedAt(r, k, url, Some(OpenNamespaceFrame(namespace)));
    }
  }

  /** The tick at which a redial loop stops: the first attempt that succeeds. */
  function FirstSuccess(ticks: seq<Outcome>, withNamespace: bool): (r: Option<nat>)
    ensures r.Some? ==> r.value < |ticks| && Succeeds(ticks[r.value], withNamespace)
    ensures forall j | 0 <= j < |ticks| && (r.None? || j < r.value) :: !Succeeds(ticks[j], withNamespace)
  {
    if ticks == [] then None
    else if Succeeds(ticks[0], withNamespace) then Some(0)
    else
      var rest := FirstSuccess(ticks[1..], withNamespace);
      if rest.None? then None else Some(rest.value + 1)
  }

  /** `FirstSuccess` is determined by its contract: the first succeeding attempt, if any. */
  lemma FirstSuccessIs(ticks: seq<Outcome>, withNamespace: bool, r: Option<nat>)
    requires r.Some? ==> r.value < |ticks| && Succeeds(ticks[r.value], withNamespace)
    requires forall j | 0 <= j < |ticks| && (r.None? || j < r.value) :: !Succeeds(ticks[j], withNamespace)
    ensures FirstSuccess(ticks, withNamespace) == r
  {
  }

  /** How many attempts a loop makes over `n` ticks when it stops at `found`. */
  function Attempts(found: Option<nat>, n: nat): nat {
    if found.Some? then found.value + 1 else n
  }

  /** Attempts that all fail start no goroutines. */
  lemma {:induction false} FailuresStartNothing(log: seq<Event>, ticks: seq<Outcome>, n: nat, url: string, handshake: Option<string>)
    requires n <= |ticks|
    requires forall j | 0 <= j < n :: !Succeeds(ticks[j], handshake.Some?)
    ensures forall k | |log| <= k < |Run(log, ticks, n, url, handshake)| :: !Run(log, ticks, n, url, handshake)[k].Started?
  {
    if n > 0 {
      var before := Run(log, ticks, n - 1, url, handshake);
      var c := Conn(|before|);
      FailuresStartNothing(log, ticks, n - 1, url, handshake);
      AttemptStartsOnlyOnSuccess(ticks[n - 1], url, handshake, c);
      var e := AttemptEvents(ticks[n - 1], url, handshake, c);
      var r: seq<Event> := before + e;
      forall k | |log| <= k < |r| ensures !r[k].Started? {
        if k < |before| {
          assert r[k] == before[k];
        } else {
          assert r[k] == e[k - |before|];
        }
      }
    }
  }

  /**
    A redial that stops starts the goroutines exactly once, as its very last
    event, on the connection the stopping attempt opened.
  */
  lemma StartedOnceAtStop(log: seq<Event>, ticks: seq<Outcome>, url: string, handshake: Option<string>,
                          found: Option<nat>)
    requires found == FirstSuccess(ticks, handshake.Some?) && found.Some?
    ensures |log| < |Run(log, ticks, Attempts(found, |ticks|), url, handshake)|
    ensures var r := Run(log, ticks, Attempts(found, |ticks|), url, handshake);
      r[|r| - 1] == Started(Conn(|Run(log, ticks, found.value, url, handshake)|))
    ensures forall i | |log| <= i < |Run(log, ticks, Attempts(found, |ticks|), url, handshake)| - 1 ::
      !Run(log, ticks, Attempts(found, |ticks|), url, handshake)[i].Started?
  {
    var k := found.value;
    var before := Run(log, ticks, k, url, handshake);
    var c := Conn(|before|);
    var e := AttemptEvents(ticks[k], url, handshake, c);
    FailuresStartNothing(log, ticks, k, url, handshake);
    AttemptStartsOnlyOnSuccess(ticks[k], url, handshake, c);
    var r := before + e;
    forall i | |log| <= i < |r| - 1 ensures !r[i].Started? {
      if i < |before| {
        assert r[i] == before[i];
      } else {
        assert r[i] == e[i - |before|];
      }
    }
  }

  /** A plain redial over the same ticks never stops later than a namespace redial. */
  lemma PlainRedialStopsNoLater(ticks: seq<Outcome>)
    ensures FirstSuccess(ticks, true).Some? ==>
      FirstSuccess(ticks, false).Some? && FirstSuccess(ticks, false).value <= FirstSuccess(ticks, true).value
  {
  }

  /** Outcomes after the stopping tick are never consulted. */
  lemma FirstSuccessIgnoresLaterTicks(ticks: seq<Outcome>, later: seq<Outcome>, withNamespace: bool)
    requires FirstSuccess(ticks, withNamespace).Some?
    ensures FirstSuccess(ticks + later, withNamespace) == FirstSuccess(ticks, withNamespace)
  {
    var k := FirstSuccess(ticks, withNamespace).value;
    assert (ticks + later)[k] == ticks[k];
  }

  /**
    A first successful connect whose namespace write fails ends the plain
    redial but not the namespace redial, which goes on to later ticks.
  */
  lemma WriteFailureKeepsRetrying(ticks: seq<Outcome>, k: nat)
    requires k < |ticks| && ticks[k].connectOk && !ticks[k].writeOk
    requires forall j | 0 <= j < k :: !ticks[j].connectOk
    ensures FirstSuccess(ticks, false) == Some(k)
    ensures FirstSuccess(ticks, true).Some? ==> FirstSuccess(ticks, true).value > k
  {
  }

  /** What the client has done to the outside world, in order. */
  class Trace {
    var events: seq<Event>

    constructor ()
      ensures events == []
    {
      events := [];
    }
  }

  class Client {
    /** Where this client's effects are recorded. */
    const trace: Trace
    /** `c.conn`: the connection the goroutines use; `None` is Go's nil. */
    var conn: Option<Conn>
    /** Handlers registered on the disconnection event, in registration order. */
    var onDisconnection: seq<Reconnect>

    /** `&Client{}`. */
    constructor (trace: Trace)
      ensures this.trace == trace && conn == None && onDisconnection == []
    {
      this.trace := trace;
      conn := None;
      onDisconnection := [];
    }

    /** `c.conn, err = tr.Connect(url)` when the transport answers `ok`. */
    method Connect(url: string, ok: bool) returns (success: bool)
      modifies this, trace
      ensures success == ok
      ensures trace.events == old(trace.events) + [Connected(url, ok)]
      ensures conn == if ok then Some(Conn(|old(trace.events)|)) else None
      ensures onDisconnection == old(onDisconnection)
    {
      conn := if ok then Some(Conn(|trace.events|)) else None;
      trace.events := trace.events + [Connected(url, ok)];
      success := ok;
    }

    /** `err = c.conn.WriteMessage(message)` when the transport answers `ok`. */
    method WriteMessage(message: string, ok: bool) returns (success: bool)
      requires conn.Some?
      modifies trace
      ensures success == ok
      ensures trace.events == old(trace.events) + [Wrote(conn.value, message, ok)]
    {
      trace.events := trace.events + [Wrote(conn.value, message, ok)];
      success := ok;
    }

    /** `go inLoop(..)`, `go outLoop(..)`, `go pinger(..)` on the current connection. */
    method StartLoops()
      requires conn.Some?
      modifies trace
      ensures trace.events == old(trace.events) + [Started(conn.value)]
    {
      trace.events := trace.events + [Started(conn.value)];
    }

    /**
      `Redial`: one `Connect` per tick until the first one that succeeds, which
      starts the goroutines on that connection and ends the loop.
    */
    method Redial(url: string, ticks: array<Outcome>) returns (found: Option<nat>)
      modifies this, trace
      ensures found == FirstSuccess(ticks[..], false)
      ensures trace.events == Run(old(trace.events), ticks[..], Attempts(found, ticks.Length), url, None)
      ensures conn == LastConn(old(trace.events), ticks[..], Attempts(found, ticks.Length), url, None, old(conn))
      ensures onDisconnection == old(onDisconnection)
    {
      ghost var t := ticks[..];
      var i := 0;
      while i < ticks.Length
        invariant 0 <= i <= ticks.Length
        invariant forall j | 0 <= j < i :: !t[j].connectOk
        invariant trace.events == Run(old(trace.events), t, i, url, None)
        invariant conn == LastConn(old(trace.events), t, i, url, None, old(conn))
        invariant onDisconnection == old(onDisconnection)
      {
        var ok := Connect(url, ticks[i].connectOk);
        if ok {
          StartLoops();
          FirstSuccessIs(t, false, Some(i));
          assert ticks[..] == t && Attempts(Some(i), ticks.Length) == i + 1;
          return Some(i);
        }
        i := i + 1;
      }
      FirstSuccessIs(t, false, None);
      assert ticks[..] == t;
      return None;
    }

    /**
      One tick of `RedialWithNamespace`: connect, and after a successful
      connect write the handshake `message`; the goroutines start only when
      both succeed, which is when `done` is true.
    */
    method NamespaceAttempt(url: string, message: string, o: Outcome) returns (done: bool)
      modifies this, trace
      ensures done == Succeeds(o, true)
      ensures trace.events == old(trace.events) + AttemptEvents(o, url, Some(message), Conn(|old(trace.events)|))
      ensures conn == if o.connectOk then Some(Conn(|old(trace.events)|)) else None
      ensures onDisconnection == old(onDisconnection)
    {
      var ok := Connect(url, o.connectOk);
      if !ok {
        return false;
      }
      ok := WriteMessage(message, o.writeOk);
      if !ok {
        return false;
      }
      StartLoops();
      return true;
    }

    /**
      The ticker loop of `RedialWithNamespace` for a handshake `message`: one
      attempt per tick; a connect whose write fails does not end the loop,
      only an attempt where both succeed does.
    */
    method RedialWriting(url: string, message: string, ticks: array<Outcome>) returns (found: Option<nat>)
      modifies this, trace
      ensures found == FirstSuccess(ticks[..], true)
      ensures trace.events == Run(old(trace.events), ticks[..], Attempts(found, ticks.Length), url, Some(message))
      ensures conn == LastConn(old(trace.events), ticks[..], Attempts(found, ticks.Length), url, Some(message), old(conn))
      ensures onDisconnection == old(onDisconnection)
    {
      ghost var t := ticks[..];
      var i := 0;
      while i < ticks.Length
        invariant 0 <= i <= ticks.Length
        invariant forall j | 0 <= j < i :: !Succeeds(t[j], true)
        invariant trace.events == Run(old(trace.events), t, i, url, Some(message))
        invariant conn == LastConn(old(trace.events), t, i, url, Some(message), old(conn))
        invariant onDisconnection == old(onDisconnection)
      {
        var done := NamespaceAttempt(url, message, ticks[i]);
        if done {
          FirstSuccessIs(t, true, Some(i));
          assert ticks[..] == t && Attempts(Some(i), ticks.Length) == i + 1;
          return Some(i);
        }
        i := i + 1;
      }
      FirstSuccessIs(t, true, None);
      assert ticks[..] == t;
      return None;
    }

    /**
      `RedialWithNamespace`: the redial loop whose handshake is the open frame
      for `namespace`.  The source builds the frame afresh on every tick; it
      is the same string each time, so it is built once here.
    */
    method RedialWithNamespace(url: string, namespace: string, ticks: array<Outcome>) returns (found: Option<nat>)
      modifies this, trace
      ensures found == FirstSuccess(ticks[..], true)
      ensures trace.events ==
        Run(old(trace.events), ticks[..], Attempts(found, ticks.Length), url, Some(OpenNamespaceFrame(namespace)))
      ensures conn ==
        LastConn(old(trace.events), ticks[..], Attempts(found, ticks.Length), url, Some(OpenNamespaceFrame(namespace)), old(conn))
      ensures onDisconnection == old(onDisconnection)
    {
      var message := OpenNamespaceFrame(namespace);
      found := RedialWriting(url, message, ticks);
    }
  }

  /**
    `Dial`: connect once; on failure return no client and the error, otherwise
    start the goroutines and register a plain redial on disconnection.
  */
  method Dial(trace: Trace, url: string, tr: Outcome) returns (c: Client?, err: Option<DialError>)
    modifies trace
    ensures trace.events == old(trace.events) + AttemptEvents(tr, url, None, Conn(|old(trace.events)|))
    ensures (c != null) == tr.connectOk
    ensures err == if tr.connectOk then None else Some(ConnectFailed)
    ensures c != null ==>
      && fresh(c) && c.trace == trace && c.conn == Some(Conn(|old(trace.events)|))
      && c.onDisconnection == [RedialPlain(url)]
  {
    var client := new Client(trace);
    var ok := client.Connect(url, tr.connectOk);
    if !ok {
      return null, Some(ConnectFailed);
    }
    client.StartLoops();
    client.onDisconnection := client.onDisconnection + [RedialPlain(url)];
    return client, None;
  }

  /**
    `DialWithNamespace`: as `Dial`, but after connecting it writes the open
    frame for `namespace`; a failed write also returns no client, and the
    goroutines are started only after the write has succeeded.  The
    registered handler redials with the same namespace.
  */
  method DialWithNamespace(trace: Trace, url: string, namespace: string, tr: Outcome)
    returns (c: Client?, err: Option<DialError>)
    modifies trace
    ensures trace.events ==
      old(trace.events) + AttemptEvents(tr, url, Some(OpenNamespaceFrame(namespace)), Conn(|old(trace.events)|))
    ensures (c != null) == Succeeds(tr, true)
    ensures err == if !tr.connectOk then Some(ConnectFailed) else if !tr.writeOk then Some(WriteFailed) else None
    ensures c != null ==>
      && fresh(c) && c.trace == trace && c.conn == Some(Conn(|old(trace.events)|))
      && c.onDisconnection == [RedialNamespace(url, namespace)]
  {
    var client := new Client(trace);
    var ok := client.Connect(url, tr.connectOk);
    if !ok {
      return null, Some(ConnectFailed);
    }
    var message := OpenNamespaceFrame(namespace);
    ok := client.WriteMessage(message, tr.writeOk);
    if !ok {
      return null, Some(WriteFailed);
    }
    client.StartLoops();
    client.onDisconnection := client.onDisconnection + [RedialNamespace(url, namespace)];
    return client, None;
  }
}
