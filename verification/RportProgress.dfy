/**
 What a reverse forward does when its tasks get their turns: a run from the
 start that sets it up, opens a connection and carries any traffic, and the end
 of whatever is on its way.
 */
module RportProgress {
  import opened Bytes
  import opened RportConnection
  import opened Rport

  lemma {:induction false} RunAppend(s: State, a: seq<Action>, b: seq<Action>)
    ensures Run(s, a + b) == Run(Run(s, a), b)
  {
    hide Next;
    if b == [] {
      assert a + b == a;
    } else {
      var n := |b| - 1;
      assert (a + b)[..|a + b| - 1] == a + b[..n];
      RunAppend(s, a, b[..n]);
    }
  }

  lemma RunOne(s: State, a: Action)
    ensures Run(s, [a]) == Next(s, a)
  {
    hide Next;
    assert [a][..0] == [];
    assert Run(s, []) == s;
  }

  lemma RunCons(s: State, a: Action, rest: seq<Action>)
    ensures Run(s, [a] + rest) == Run(Next(s, a), rest)
  {
    hide Next, Run;
    RunOne(s, a);
    RunAppend(s, [a], rest);
  }

  // ------------------------------------------------------------------
  // Traffic over an open connection
  // ------------------------------------------------------------------

  /** A bridge that the dispatcher can reach and that can still write. */
  predicate Receiving(e: End) {
    e.phase == Bridging && e.slot == Present && e.alive
  }

  /** A bridge with nothing in hand or in its queue, after reading and writing these bytes. */
  ghost predicate Bridged(e: End, read: seq<byte>, written: seq<byte>) {
    && Receiving(e) && e.readerOn
    && e.queue == [] && e.hand == [] && e.read == read && e.written == written
  }

  /** The forward is up and nothing is on its way. */
  ghost predicate Idle(t: State) {
    && t.wire == t.back == t.d.mail == t.h.inbox == []
    && t.d.registered && t.h.registered && t.d.dispatcher == On && t.h.dispatcher == On
    && t.h.entry && t.d.stage == Accepting
  }

  /** The forward is idle, and `c` has carried `up` and `down`. */
  ghost predicate Carried(t: State, c: nat, up: seq<byte>, down: seq<byte>) {
    && Idle(t)
    && c in t.d.conns && c in t.h.conns
    && Bridged(t.d.conns[c], up, down) && Bridged(t.h.conns[c], down, up)
  }

  function SetDaemon(t: State, c: nat, e: End): State {
    t.(d := t.d.(conns := t.d.conns[c := e]))
  }

  function SetHost(t: State, c: nat, e: End): State {
    t.(h := t.h.(conns := t.h.conns[c := e]))
  }

  /** What one chunk read at the daemon's socket takes to reach the host's. */
  function UpTurn(c: nat, b: seq<byte>): seq<Action> {
    [OfDaemon(DaemonTask(c, Read(b))), OfDaemon(DaemonTask(c, Send(true))), RouteUp,
     OfHost(HostRecv(false, false)), OfHost(HostTask(c, Write(|b|)))]
  }

  function DownTurn(c: nat, b: seq<byte>): seq<Action> {
    [OfHost(HostTask(c, Read(b))), OfHost(HostTask(c, Send(true))), RouteDown,
     OfDaemon(DaemonRecv), OfDaemon(DaemonTask(c, Write(|b|)))]
  }

  lemma RunFour(t: State, a: Action, b: Action, c: Action, d: Action)
    ensures Run(t, [a, b, c, d]) == Next(Next(Next(Next(t, a), b), c), d)
  {
    hide Next, Run;
    RunCons(t, a, [b, c, d]);
    RunCons(Next(t, a), b, [c, d]);
    RunCons(Next(Next(t, a), b), c, [d]);
    RunOne(Next(Next(Next(t, a), b), c), d);
    assert [a] + [b, c, d] == [a, b, c, d] && [b] + [c, d] == [b, c, d] && [c] + [d] == [c, d];
  }

  lemma RunFive(t: State, a: Action, b: Action, c: Action, d: Action, e: Action)
    ensures Run(t, [a, b, c, d, e]) == Next(Next(Next(Next(Next(t, a), b), c), d), e)
  {
    hide Next, Run;
    RunFour(t, a, b, c, d);
    RunAppend(t, [a, b, c, d], [e]);
    RunOne(Run(t, [a, b, c, d]), e);
    assert [a, b, c, d] + [e] == [a, b, c, d, e];
  }

  // One step at a time, on the end it concerns.

  lemma Own(t: State, c: nat)
    ensures c in t.d.conns ==> SetDaemon(t, c, t.d.conns[c]) == t
    ensures c in t.h.conns ==> SetHost(t, c, t.h.conns[c]) == t
  {
    assert c in t.d.conns ==> t.d.conns[c := t.d.conns[c]] == t.d.conns;
    assert c in t.h.conns ==> t.h.conns[c := t.h.conns[c]] == t.h.conns;
  }

  lemma Sets(t: State, c: nat, e: End, e': End)
    ensures SetDaemon(SetDaemon(t, c, e), c, e') == SetDaemon(t, c, e')
    ensures SetHost(SetHost(t, c, e), c, e') == SetHost(t, c, e')
  {
    assert t.d.conns[c := e][c := e'] == t.d.conns[c := e'];
    assert t.h.conns[c := e][c := e'] == t.h.conns[c := e'];
  }

  /** A step of the daemon's end that sends nothing. */
  lemma DaemonDoes(t: State, c: nat, e: End, a: Local, e': End)
    requires DaemonStep(e, a) == e' && New(e, e') == []
    ensures Next(SetDaemon(t, c, e), OfDaemon(DaemonTask(c, a))) == SetDaemon(t, c, e')
  {
    hide DaemonStep, New;
    Sets(t, c, e, e');
    assert t.back + Tagged(c, []) == t.back;
  }

  /** One that sends `item`. */
  lemma DaemonSays(t: State, c: nat, e: End, a: Local, e': End, item: Item)
    requires DaemonStep(e, a) == e' && New(e, e') == [item] && t.back == []
    ensures Next(SetDaemon(t, c, e), OfDaemon(DaemonTask(c, a))) == SetDaemon(t, c, e').(back := [Conn(c, item)])
  {
    hide DaemonStep, New;
    Sets(t, c, e, e');
    assert t.back + Tagged(c, [item]) == [Conn(c, item)];
  }

  lemma HostDoes(t: State, c: nat, e: End, a: Local, e': End)
    requires HostStep(e, a) == e' && New(e, e') == []
    ensures Next(SetHost(t, c, e), OfHost(HostTask(c, a))) == SetHost(t, c, e')
  {
    hide HostStep, New;
    Sets(t, c, e, e');
    assert t.wire + Tagged(c, []) == t.wire;
  }

  lemma HostSays(t: State, c: nat, e: End, a: Local, e': End, item: Item)
    requires HostStep(e, a) == e' && New(e, e') == [item] && t.wire == []
    ensures Next(SetHost(t, c, e), OfHost(HostTask(c, a))) == SetHost(t, c, e').(wire := [Conn(c, item)])
  {
    hide HostStep, New;
    Sets(t, c, e, e');
    assert t.wire + Tagged(c, [item]) == [Conn(c, item)];
  }

  /** An item goes up: routed, and handed to the host's end. */
  lemma GoesUp(t: State, c: nat, item: Item)
    requires t.h.inbox == t.back == [] && t.h.registered && t.h.dispatcher == On
    ensures Next(Next(t.(back := [Conn(c, item)]), RouteUp), OfHost(HostRecv(false, false)))
         == SetHost(t, c, HostTakes(Get(t.h.conns, c), item))
  {
    hide HostTakes;
    assert t.wire + [] == t.wire;
    assert Next(t.(back := [Conn(c, item)]), RouteUp) == t.(back := [], h := t.h.(inbox := [Conn(c, item)]));
  }

  /** An item goes down: routed, and handed to the daemon's end. */
  lemma GoesDown(t: State, c: nat, item: Item)
    requires t.wire == t.d.mail == [] && t.d.registered && t.d.dispatcher == On && c in t.d.conns
    ensures Next(Next(t.(wire := [Conn(c, item)]), RouteDown), OfDaemon(DaemonRecv))
         == SetDaemon(t, c, Deliver(t.d.conns[c], item))
  {
    hide Deliver;
    assert t.back + [] == t.back;
    assert Next(t.(wire := [Conn(c, item)]), RouteDown) == t.(wire := [], d := t.d.(mail := [Conn(c, item)]));
  }

  /** What reading and sending, and later writing, `b` do to the two ends. */
  function Gave(e: End, b: seq<byte>): End {
    e.(read := e.read + b, sent := e.sent + [Data(b)])
  }

  function Got(e: End, b: seq<byte>): End {
    e.(consumed := e.consumed + [Data(b)], written := e.written + b)
  }

  lemma ReadSend(e: End, b: seq<byte>)
    requires e.phase == Bridging && e.readerOn && e.hand == [] && 0 < |b| <= 4096
    ensures var e1 := BridgeStep(e, Read(b));
            && DaemonStep(e, Read(b)) == e1 == HostStep(e, Read(b)) && New(e, e1) == []
            && DaemonStep(e1, Send(true)) == Gave(e, b) == HostStep(e1, Send(true)) && New(e1, Gave(e, b)) == [Data(b)]
  {
  }

  lemma DeliverWrite(e: End, b: seq<byte>)
    requires Receiving(e) && e.queue == []
    ensures var q := e.(queue := [Data(b)]);
            && Deliver(e, Data(b)) == q == HostTakes(e, Data(b))
            && DaemonStep(q, Write(|b|)) == Got(e, b) == HostStep(q, Write(|b|)) && New(q, Got(e, b)) == []
  {
    assert e.queue + [Data(b)] == [Data(b)];
  }

  lemma UpSent(t: State, c: nat, b: seq<byte>)
    requires t.back == [] && c in t.d.conns && 0 < |b| <= 4096
    requires var e := t.d.conns[c]; e.phase == Bridging && e.readerOn && e.hand == []
    ensures Next(Next(t, OfDaemon(DaemonTask(c, Read(b)))), OfDaemon(DaemonTask(c, Send(true))))
         == SetDaemon(t, c, Gave(t.d.conns[c], b)).(back := [Conn(c, Data(b))])
  {
    hide Next, DaemonStep, HostStep, BridgeStep, New, Gave;
    var e := t.d.conns[c];
    ReadSend(e, b);
    Own(t, c);
    hide SetDaemon;
    DaemonDoes(t, c, e, Read(b), BridgeStep(e, Read(b)));
    DaemonSays(t, c, BridgeStep(e, Read(b)), Send(true), Gave(e, b), Data(b));
  }

  lemma DownSent(t: State, c: nat, b: seq<byte>)
    requires t.wire == [] && c in t.h.conns && 0 < |b| <= 4096
    requires var e := t.h.conns[c]; e.phase == Bridging && e.readerOn && e.hand == []
    ensures Next(Next(t, OfHost(HostTask(c, Read(b)))), OfHost(HostTask(c, Send(true))))
         == SetHost(t, c, Gave(t.h.conns[c], b)).(wire := [Conn(c, Data(b))])
  {
    hide Next, DaemonStep, HostStep, BridgeStep, New, Gave;
    var e := t.h.conns[c];
    ReadSend(e, b);
    Own(t, c);
    hide SetHost;
    HostDoes(t, c, e, Read(b), BridgeStep(e, Read(b)));
    HostSays(t, c, BridgeStep(e, Read(b)), Send(true), Gave(e, b), Data(b));
  }

  lemma UpWritten(t: State, c: nat, b: seq<byte>)
    requires t.h.inbox == t.back == [] && t.h.registered && t.h.dispatcher == On
    requires c in t.h.conns && t.h.conns[c].queue == [] && Receiving(t.h.conns[c])
    ensures Next(Next(Next(t.(back := [Conn(c, Data(b))]), RouteUp), OfHost(HostRecv(false, false))),
                 OfHost(HostTask(c, Write(|b|))))
         == SetHost(t, c, Got(t.h.conns[c], b))
  {
    hide Next, HostTakes, Deliver, HostStep, DaemonStep, New, Got, SetHost;
    var e := t.h.conns[c];
    DeliverWrite(e, b);
    GoesUp(t, c, Data(b));
    HostDoes(t, c, e.(queue := [Data(b)]), Write(|b|), Got(e, b));
  }

  lemma DownWritten(t: State, c: nat, b: seq<byte>)
    requires t.wire == t.d.mail == [] && t.d.registered && t.d.dispatcher == On
    requires c in t.d.conns && t.d.conns[c].queue == [] && Receiving(t.d.conns[c])
    ensures Next(Next(Next(t.(wire := [Conn(c, Data(b))]), RouteDown), OfDaemon(DaemonRecv)),
                 OfDaemon(DaemonTask(c, Write(|b|))))
         == SetDaemon(t, c, Got(t.d.conns[c], b))
  {
    hide Next, HostTakes, Deliver, HostStep, DaemonStep, New, Got, SetDaemon;
    var e := t.d.conns[c];
    DeliverWrite(e, b);
    GoesDown(t, c, Data(b));
    DaemonDoes(t, c, e.(queue := [Data(b)]), Write(|b|), Got(e, b));
  }

  /** A chunk read at one end is written at the other. */
  lemma UpCarries(t: State, c: nat, b: seq<byte>, up: seq<byte>, down: seq<byte>)
    requires Carried(t, c, up, down) && 0 < |b| <= 4096
    ensures Carried(Run(t, UpTurn(c, b)), c, up + b, down)
  {
    hide Next, Run;
    RunFive(t, OfDaemon(DaemonTask(c, Read(b))), OfDaemon(DaemonTask(c, Send(true))), RouteUp,
            OfHost(HostRecv(false, false)), OfHost(HostTask(c, Write(|b|))));
    UpSent(t, c, b);
    UpWritten(SetDaemon(t, c, Gave(t.d.conns[c], b)), c, b);
  }

  lemma DownCarries(t: State, c: nat, b: seq<byte>, up: seq<byte>, down: seq<byte>)
    requires Carried(t, c, up, down) && 0 < |b| <= 4096
    ensures Carried(Run(t, DownTurn(c, b)), c, up, down + b)
  {
    hide Next, Run;
    RunFive(t, OfHost(HostTask(c, Read(b))), OfHost(HostTask(c, Send(true))), RouteDown,
            OfDaemon(DaemonRecv), OfDaemon(DaemonTask(c, Write(|b|))));
    DownSent(t, c, b);
    DownWritten(SetHost(t, c, Gave(t.h.conns[c], b)), c, b);
  }

  /** One chunk, in one direction. */
  datatype Chunk = Chunk(up: bool, bytes: seq<byte>)

  /** What a socket read can return. */
  ghost predicate Chunks(traffic: seq<Chunk>) {
    forall i :: 0 <= i < |traffic| ==> 0 < |traffic[i].bytes| <= 4096
  }

  /** The bytes of one direction, in order. */
  function Stream(traffic: seq<Chunk>, up: bool): seq<byte> {
    if traffic == [] then []
    else
      var n := |traffic| - 1;
      Stream(traffic[..n], up) + if traffic[n].up == up then traffic[n].bytes else []
  }

  function Turn(c: nat, k: Chunk): seq<Action> {
    if k.up then UpTurn(c, k.bytes) else DownTurn(c, k.bytes)
  }

  function Turns(c: nat, traffic: seq<Chunk>): seq<Action> {
    if traffic == [] then []
    else Turns(c, traffic[..|traffic| - 1]) + Turn(c, traffic[|traffic| - 1])
  }

  lemma TurnCarries(t: State, c: nat, k: Chunk, up: seq<byte>, down: seq<byte>)
    requires Carried(t, c, up, down) && 0 < |k.bytes| <= 4096
    ensures Carried(Run(t, Turn(c, k)), c, up + (if k.up then k.bytes else []), down + (if k.up then [] else k.bytes))
  {
    hide Carried, Run;
    assert up + [] == up && down + [] == down;
    if k.up { UpCarries(t, c, k.bytes, up, down); } else { DownCarries(t, c, k.bytes, up, down); }
  }

  /** Any traffic over an open connection: everything read at one end is written at the other. */
  lemma {:induction false} TrafficCarried(t: State, c: nat, traffic: seq<Chunk>)
    requires Carried(t, c, [], []) && Chunks(traffic)
    ensures Carried(Run(t, Turns(c, traffic)), c, Stream(traffic, true), Stream(traffic, false))
  {
    hide Carried, Next, Turn;
    if traffic != [] {
      var n := |traffic| - 1;
      TrafficCarried(t, c, traffic[..n]);
      RunAppend(t, Turns(c, traffic[..n]), Turn(c, traffic[n]));
      hide Run;
      TurnCarries(Run(t, Turns(c, traffic[..n])), c, traffic[n], Stream(traffic[..n], true), Stream(traffic[..n], false));
    }
  }

  // ------------------------------------------------------------------
  // Opening a connection
  // ------------------------------------------------------------------

  /** Accept and announce; spawn the host's bridge and dial. */
  function Announcing(c: nat): seq<Action> {
    [OfDaemon(Accept(c)), OfDaemon(DaemonTask(c, Announce(true))), RouteUp, OfHost(HostRecv(false, false)),
     OfHost(HostTask(c, Dial(Connected)))]
  }

  /** Activate the daemon's end. */
  function Activating(c: nat): seq<Action> {
    [OfHost(HostTask(c, Announce(true))), RouteDown, OfDaemon(DaemonRecv), OfDaemon(DaemonTask(c, Await))]
  }

  const ACCEPTED := UNBORN.(phase := Spawned, slot := Present, alive := true)
  const ANNOUNCED := UNBORN.(phase := Waiting, slot := Present, alive := true, sent := [Slave])
  const SPAWNED := UNBORN.(phase := Spawned)
  const DIALED := UNBORN.(phase := Waiting, slot := Present, alive := true)
  const ACTIVE := DIALED.(phase := Bridging, readerOn := true, sent := [Master])
  const ACTIVATED := ANNOUNCED.(phase := Bridging, readerOn := true, consumed := [Master])

  lemma OpeningSteps()
    ensures DaemonStep(ACCEPTED, Announce(true)) == ANNOUNCED && New(ACCEPTED, ANNOUNCED) == [Slave]
    ensures HostTakes(UNBORN, Slave) == SPAWNED
    ensures HostStep(SPAWNED, Dial(Connected)) == DIALED && New(SPAWNED, DIALED) == []
    ensures HostStep(DIALED, Announce(true)) == ACTIVE && New(DIALED, ACTIVE) == [Master]
    ensures Deliver(ANNOUNCED, Master) == ANNOUNCED.(queue := [Master])
    ensures DaemonStep(ANNOUNCED.(queue := [Master]), Await) == ACTIVATED
    ensures New(ANNOUNCED.(queue := [Master]), ACTIVATED) == []
  {
  }

  lemma AcceptStep(t: State, c: nat)
    requires t.d.stage == Accepting && c !in t.d.conns
    ensures Next(t, OfDaemon(Accept(c))) == SetDaemon(t, c, ACCEPTED)
  {
    assert t.back + [] == t.back;
  }

  lemma AnnounceRun(t: State, c: nat)
    requires Idle(t) && c !in t.d.conns && Get(t.h.conns, c) == UNBORN
    ensures Run(t, Announcing(c)) == SetHost(SetDaemon(t, c, ANNOUNCED), c, DIALED)
  {
    hide Run, Next, DaemonStep, HostStep, HostTakes, New, SetHost;
    RunFive(t, OfDaemon(Accept(c)), OfDaemon(DaemonTask(c, Announce(true))), RouteUp, OfHost(HostRecv(false, false)),
            OfHost(HostTask(c, Dial(Connected))));
    OpeningSteps();
    AcceptStep(t, c);
    DaemonSays(t, c, ACCEPTED, Announce(true), ANNOUNCED, Slave);
    var u := SetDaemon(t, c, ANNOUNCED);
    GoesUp(u, c, Slave);
    HostDoes(u, c, SPAWNED, Dial(Connected), DIALED);
  }

  lemma ActivateRun(t: State, c: nat)
    requires Idle(t) && c in t.d.conns && c in t.h.conns && t.d.conns[c] == ANNOUNCED && t.h.conns[c] == DIALED
    ensures Carried(Run(t, Activating(c)), c, [], [])
  {
    hide Run, Next, DaemonStep, HostStep, Deliver, New;
    RunFour(t, OfHost(HostTask(c, Announce(true))), RouteDown, OfDaemon(DaemonRecv), OfDaemon(DaemonTask(c, Await)));
    OpeningSteps();
    Own(t, c);
    HostSays(t, c, DIALED, Announce(true), ACTIVE, Master);
    var u := SetHost(t, c, ACTIVE);
    GoesDown(u, c, Master);
    DaemonDoes(u, c, ANNOUNCED.(queue := [Master]), Await, ACTIVATED);
    assert Run(t, Activating(c)) == SetDaemon(u, c, ACTIVATED);
  }

  /** A fresh connection opens: the announcement spawns the host's bridge, which activates the daemon's. */
  lemma Opens(t: State, c: nat)
    requires Idle(t) && c !in t.d.conns && Get(t.h.conns, c) == UNBORN
    ensures Carried(Run(t, Announcing(c) + Activating(c)), c, [], [])
  {
    hide Run, Carried;
    RunAppend(t, Announcing(c), Activating(c));
    AnnounceRun(t, c);
    ActivateRun(SetHost(SetDaemon(t, c, ANNOUNCED), c, DIALED), c);
  }

  // ------------------------------------------------------------------
  // Whatever is on its way
  // ------------------------------------------------------------------

  function Repeat(a: Action, n: nat): (r: seq<Action>)
    ensures |r| == n && forall i :: 0 <= i < n ==> r[i] == a
  {
    if n == 0 then [] else [a] + Repeat(a, n - 1)
  }

  lemma RunRepeat(t: State, a: Action, n: nat)
    requires n > 0
    ensures Run(t, Repeat(a, n)) == Run(Next(t, a), Repeat(a, n - 1))
  {
    hide Run, Next;
    RunCons(t, a, Repeat(a, n - 1));
  }

  lemma RunNone(t: State)
    ensures Run(t, []) == t
  {
  }

  /** What the daemon's main loop passes to the forward. */
  function Kept(q: seq<Msg>): seq<Msg> {
    if q == [] then [] else (if q[0].Conn? || q[0].CheckResult? then [q[0]] else []) + Kept(q[1..])
  }

  /** Routing everything to the daemon. */
  lemma {:induction false} RouteDowns(t: State)
    requires t.d.registered && Close !in t.wire
    ensures Run(t, Repeat(RouteDown, |t.wire|)) == t.(wire := [], d := t.d.(mail := t.d.mail + Kept(t.wire)))
    decreases |t.wire|
  {
    hide Run;
    if t.wire == [] {
      RunNone(t);
      assert t.d.mail + [] == t.d.mail;
    } else {
      var u := Next(t, RouteDown);
      RunRepeat(t, RouteDown, |t.wire|);
      RouteDowns(u);
      assert t.wire[0] == Close ==> Close in t.wire;
      assert u.d.mail + Kept(u.wire) == t.d.mail + Kept(t.wire);
    }
  }

  lemma {:induction false} RouteUps(t: State)
    requires t.h.registered
    ensures Run(t, Repeat(RouteUp, |t.back|)) == t.(back := [], h := t.h.(inbox := t.h.inbox + t.back))
    decreases |t.back|
  {
    hide Run;
    if t.back == [] {
      RunNone(t);
      assert t.h.inbox + [] == t.h.inbox;
    } else {
      var u := Next(t, RouteUp);
      RunRepeat(t, RouteUp, |t.back|);
      RouteUps(u);
      assert u.h.inbox + u.back == t.h.inbox + t.back;
    }
  }

  // ------------------------------------------------------------------
  // Setting up the forward
  // ------------------------------------------------------------------

  /** During set-up the host passes over what is stale. */
  lemma {:induction false} HostSkips(t: State, stale: seq<Msg>, rest: seq<Msg>)
    requires t.h.inbox == stale + rest && Stale(stale, t.d.lid) && t.h.dispatcher == Checking && !t.h.confirmed
    ensures Run(t, Repeat(OfHost(HostRecv(false, false)), |stale|)) == t.(h := t.h.(inbox := rest))
    decreases |stale|
  {
    hide Run;
    if stale == [] {
      RunNone(t);
      assert stale + rest == rest;
    } else {
      RunRepeat(t, OfHost(HostRecv(false, false)), |stale|);
      assert t.h.inbox[1..] == stale[1..] + rest && t.wire + [] == t.wire;
      assert stale[0].Check? || stale[0].CheckResult?;
      assert Next(t, OfHost(HostRecv(false, false))) == t.(h := t.h.(inbox := stale[1..] + rest));
      HostSkips(t.(h := t.h.(inbox := stale[1..] + rest)), stale[1..], rest);
    }
  }

  lemma {:induction false} DaemonSkips(t: State, stale: seq<Msg>, rest: seq<Msg>)
    requires t.d.mail == stale + rest && Stale(stale, t.d.lid) && t.d.dispatcher == Checking && t.d.stage == Probing
    ensures Run(t, Repeat(OfDaemon(DaemonRecv), |stale|)) == t.(d := t.d.(mail := rest))
    decreases |stale|
  {
    hide Run;
    if stale == [] {
      RunNone(t);
      assert stale + rest == rest;
    } else {
      RunRepeat(t, OfDaemon(DaemonRecv), |stale|);
      assert t.d.mail[1..] == stale[1..] + rest && t.back + [] == t.back;
      assert (stale[0].Check? || stale[0].CheckResult?) && stale[0].lid != t.d.lid;
      assert Next(t, OfDaemon(DaemonRecv)) == t.(d := t.d.(mail := stale[1..] + rest));
      DaemonSkips(t.(d := t.d.(mail := stale[1..] + rest)), stale[1..], rest);
    }
  }

  lemma {:induction false} KeptStale(q: seq<Msg>, m: Msg, lid: nat)
    requires Stale(q, lid) && m.CheckResult?
    ensures Close !in q + [m] && Stale(Kept(q), lid) && Kept(q + [m]) == Kept(q) + [m]
  {
    if q == [] {
      assert q + [m] == [m] && [m][1..] == [];
    } else {
      assert (q + [m])[1..] == q[1..] + [m];
      KeptStale(q[1..], m, lid);
    }
  }

  /** The check is asked, routed and answered, behind whatever is stale. */
  function Checks(s: State, reachable: bool): seq<Action> {
    [OfDaemon(Listener(true))] + Repeat(RouteUp, |s.back| + 1)
    + Repeat(OfHost(HostRecv(false, false)), |s.h.inbox + s.back|) + [OfHost(HostRecv(reachable, true))]
  }

  function Checked(s: State, reachable: bool): State {
    s.(d := s.d.(stage := Probing), back := [], wire := s.wire + [CheckResult(s.d.lid, reachable)],
       h := s.h.(inbox := [], reached := if reachable then {s.d.lid} else {}))
  }

  lemma ChecksRun(s: State, reachable: bool)
    requires Init(s)
    ensures Run(s, Checks(s, reachable)) == Checked(s, reachable)
  {
    hide Run;
    var lid, stale := s.d.lid, s.h.inbox + s.back;
    var asked := s.(d := s.d.(stage := Probing), back := s.back + [Check(lid)]);
    RunOne(s, OfDaemon(Listener(true)));
    RunAppend(s, [OfDaemon(Listener(true))], Repeat(RouteUp, |s.back| + 1));
    RouteUps(asked);
    var routed := asked.(back := [], h := s.h.(inbox := stale + [Check(lid)]));
    assert s.h.inbox + (s.back + [Check(lid)]) == stale + [Check(lid)];
    var two := [OfDaemon(Listener(true))] + Repeat(RouteUp, |s.back| + 1);
    RunAppend(s, two, Repeat(OfHost(HostRecv(false, false)), |stale|));
    HostSkips(routed, stale, [Check(lid)]);
    RunAppend(s, two + Repeat(OfHost(HostRecv(false, false)), |stale|), [OfHost(HostRecv(reachable, true))]);
    RunOne(routed.(h := s.h.(inbox := [Check(lid)])), OfHost(HostRecv(reachable, true)));
  }

  /** The result is routed and heard, behind whatever is stale. */
  function Hears(s: State): seq<Action> {
    Repeat(RouteDown, |s.wire| + 1) + Repeat(OfDaemon(DaemonRecv), |s.d.mail + Kept(s.wire)|) + [OfDaemon(DaemonRecv)]
  }

  lemma HearsRun(s: State, reachable: bool)
    requires Init(s)
    ensures Run(Checked(s, reachable), Hears(s)) ==
              Checked(s, reachable).(wire := [],
                d := if reachable then s.d.(mail := [], stage := Confirming, heard := true)
                     else s.d.(mail := [], stage := Leaving, dispatcher := Off))
  {
    hide Run;
    var t, m, stale := Checked(s, reachable), CheckResult(s.d.lid, reachable), s.d.mail + Kept(s.wire);
    KeptStale(s.wire, m, s.d.lid);
    RouteDowns(t);
    assert s.d.mail + (Kept(s.wire) + [m]) == stale + [m];
    var routed := t.(wire := [], d := t.d.(mail := stale + [m]));
    RunAppend(t, Repeat(RouteDown, |s.wire| + 1), Repeat(OfDaemon(DaemonRecv), |stale|));
    DaemonSkips(routed, stale, [m]);
    RunAppend(t, Repeat(RouteDown, |s.wire| + 1) + Repeat(OfDaemon(DaemonRecv), |stale|), [OfDaemon(DaemonRecv)]);
    RunOne(routed.(d := t.d.(mail := [m])), OfDaemon(DaemonRecv));
  }

  /** The listener confirms, and the host reports. */
  const CONFIRMS := [OfDaemon(Listener(true)), RouteUp, OfHost(HostRecv(false, false)), OfHost(Finish(true))]

  lemma ConfirmsRun(t: State)
    requires t.wire == t.back == t.d.mail == t.h.inbox == [] && t.d.registered && t.h.registered
    requires t.d.stage == Confirming && t.h.dispatcher == Checking && !t.h.confirmed
    requires t.d.conns == t.h.conns == map[]
    ensures var u := Run(t, CONFIRMS); Idle(u) && u.d.conns == u.h.conns == map[]
  {
    hide Run;
    RunFour(t, OfDaemon(Listener(true)), RouteUp, OfHost(HostRecv(false, false)), OfHost(Finish(true)));
    var u := Next(t, OfDaemon(Listener(true)));
    assert u == t.(d := t.d.(stage := Accepting, dispatcher := On), back := [Success]);
    var v := Next(u, RouteUp);
    assert v == u.(back := [], h := t.h.(inbox := [Success]));
  }

  function SettingUp(s: State): seq<Action> {
    Checks(s, true) + Hears(s) + CONFIRMS
  }

  /** From every start, with a reachable port, the set-up exchange completes. */
  lemma SetsUp(s: State)
    requires Init(s)
    ensures var t := Run(s, SettingUp(s)); Idle(t) && t.d.conns == t.h.conns == map[]
  {
    hide Run, Checks, Hears, Idle;
    RunAppend(s, Checks(s, true), Hears(s));
    RunAppend(s, Checks(s, true) + Hears(s), CONFIRMS);
    ChecksRun(s, true);
    HearsRun(s, true);
    ConfirmsRun(Run(s, Checks(s, true) + Hears(s)));
  }

  /**
   From every start there is a run that sets up the forward, opens a connection
   under any id and carries any traffic in both directions: each socket is
   written exactly what was read from the other.
   */
  lemma Delivers(s: State, c: nat, traffic: seq<Chunk>)
    requires Init(s) && Chunks(traffic)
    ensures var t := Run(s, SettingUp(s) + (Announcing(c) + Activating(c)) + Turns(c, traffic));
            var d, h := Get(t.d.conns, c), Get(t.h.conns, c);
            && t.h.entry && d.phase == h.phase == Bridging
            && h.written == d.read == Stream(traffic, true)
            && d.written == h.read == Stream(traffic, false)
  {
    hide Run, SettingUp, Turns, Stream, Chunks;
    var opening := Announcing(c) + Activating(c);
    RunAppend(s, SettingUp(s), opening);
    RunAppend(s, SettingUp(s) + opening, Turns(c, traffic));
    SetsUp(s);
    Opens(Run(s, SettingUp(s)), c);
    TrafficCarried(Run(s, SettingUp(s) + opening), c, traffic);
  }

  // ------------------------------------------------------------------
  // Draining
  // ------------------------------------------------------------------

  /** A Stop reaches the daemon's forward only when its channel is taken away. */
  ghost predicate Unstopped(s: State) {
    s.d.registered ==> Stop !in s.d.mail
  }

  lemma MailShrinks(d: Daemon, a: DaemonAction)
    ensures var t := DaemonNext(d, a).0;
            (t.registered ==> d.registered) && (t.mail == d.mail || (d.mail != [] && t.mail == d.mail[1..]))
  {
    hide DaemonStep, Deliver, New, Tagged, Shut;
  }

  lemma UnstoppedStep(s: State, a: Action)
    requires Unstopped(s)
    ensures Unstopped(Next(s, a))
  {
    hide DaemonNext, HostNext;
    if a.OfDaemon? { MailShrinks(s.d, a.da); }
  }

  lemma {:induction false} UnstoppedRun(s: State, actions: seq<Action>)
    requires Init(s)
    ensures Unstopped(Run(s, actions))
  {
    hide Next;
    if actions != [] {
      var n := |actions| - 1;
      UnstoppedRun(s, actions[..n]);
      UnstoppedStep(Run(s, actions[..n]), actions[n]);
    }
  }

  /** `e'` has at most taken in and written more than `e`. */
  ghost predicate Takes(e: End, e': End) {
    Receiving(e') && e'.sent == e.sent && e'.read == e.read
  }

  lemma DeliverTakes(e: End, item: Item)
    requires Receiving(e) && item != Free
    ensures Takes(e, Deliver(e, item)) && Takes(e, HostTakes(e, item))
  {
  }

  lemma DispatchesDown(t: State, c: nat)
    requires t.d.dispatcher == On && t.d.mail != [] && Stop !in t.d.mail && Free !in Items(t.d.mail, c)
    requires c in t.d.conns && Receiving(t.d.conns[c])
    ensures var u := Next(t, OfDaemon(DaemonRecv));
            && u == t.(d := t.d.(mail := t.d.mail[1..], conns := u.d.conns)) && Free !in Items(u.d.mail, c)
            && c in u.d.conns && Takes(t.d.conns[c], u.d.conns[c])
  {
    hide Items;
    ItemsPop(t.d.mail, c);
    var m := t.d.mail[0];
    assert t.back + [] == t.back && m != Stop;
    if m.Conn? && m.id == c { DeliverTakes(t.d.conns[c], m.item); }
    hide Deliver;
  }

  lemma DispatchesUp(t: State, c: nat)
    requires t.h.dispatcher == On && t.h.inbox != [] && Free !in Items(t.h.inbox, c)
    requires c in t.h.conns && Receiving(t.h.conns[c])
    ensures var u := Next(t, OfHost(HostRecv(false, false)));
            && u == t.(h := t.h.(inbox := t.h.inbox[1..], conns := u.h.conns)) && Free !in Items(u.h.inbox, c)
            && c in u.h.conns && Takes(t.h.conns[c], u.h.conns[c])
  {
    hide Items;
    ItemsPop(t.h.inbox, c);
    var m := t.h.inbox[0];
    assert t.wire + [] == t.wire;
    if m.Conn? && m.id == c { DeliverTakes(t.h.conns[c], m.item); }
    hide HostTakes;
  }

  /** The daemon's dispatcher takes everything that is there. */
  lemma {:induction false} DispatchDown(t: State, c: nat)
    requires t.d.dispatcher == On && Stop !in t.d.mail && Free !in Items(t.d.mail, c)
    requires c in t.d.conns && Receiving(t.d.conns[c])
    ensures var u := Run(t, Repeat(OfDaemon(DaemonRecv), |t.d.mail|));
            && u == t.(d := t.d.(mail := [], conns := u.d.conns))
            && c in u.d.conns && Takes(t.d.conns[c], u.d.conns[c])
    decreases |t.d.mail|
  {
    hide Run, Items, Next;
    if t.d.mail == [] {
      RunNone(t);
    } else {
      RunRepeat(t, OfDaemon(DaemonRecv), |t.d.mail|);
      DispatchesDown(t, c);
      DispatchDown(Next(t, OfDaemon(DaemonRecv)), c);
    }
  }

  lemma {:induction false} DispatchUp(t: State, c: nat)
    requires t.h.dispatcher == On && Free !in Items(t.h.inbox, c)
    requires c in t.h.conns && Receiving(t.h.conns[c])
    ensures var u := Run(t, Repeat(OfHost(HostRecv(false, false)), |t.h.inbox|));
            && u == t.(h := t.h.(inbox := [], conns := u.h.conns))
            && c in u.h.conns && Takes(t.h.conns[c], u.h.conns[c])
    decreases |t.h.inbox|
  {
    hide Run, Items, Next;
    if t.h.inbox == [] {
      RunNone(t);
    } else {
      RunRepeat(t, OfHost(HostRecv(false, false)), |t.h.inbox|);
      DispatchesUp(t, c);
      DispatchUp(Next(t, OfHost(HostRecv(false, false))), c);
    }
  }

  function Whole(item: Item): Local {
    Write(if item.Data? then |item.bytes| else 0)
  }

  lemma WriteTakes(e: End)
    requires Receiving(e) && e.queue != []
    ensures var e' := BridgeStep(e, Whole(e.queue[0]));
            && DaemonStep(e, Whole(e.queue[0])) == e' == HostStep(e, Whole(e.queue[0])) && New(e, e') == []
            && Takes(e, e') && e'.queue == e.queue[1..]
  {
  }

  function WritesDown(c: nat, queue: seq<Item>): seq<Action> {
    if queue == [] then [] else [OfDaemon(DaemonTask(c, Whole(queue[0])))] + WritesDown(c, queue[1..])
  }

  function WritesUp(c: nat, queue: seq<Item>): seq<Action> {
    if queue == [] then [] else [OfHost(HostTask(c, Whole(queue[0])))] + WritesUp(c, queue[1..])
  }

  /** The daemon's writer empties its queue. */
  lemma {:induction false} WritesDownRun(t: State, c: nat, queue: seq<Item>)
    requires c in t.d.conns && Receiving(t.d.conns[c]) && t.d.conns[c].queue == queue
    ensures var u := Run(t, WritesDown(c, queue));
            && u == t.(d := t.d.(conns := u.d.conns))
            && c in u.d.conns && Takes(t.d.conns[c], u.d.conns[c]) && u.d.conns[c].queue == []
    decreases |queue|
  {
    hide Run, BridgeStep, DaemonStep;
    if queue == [] {
      RunNone(t);
    } else {
      var a := OfDaemon(DaemonTask(c, Whole(queue[0])));
      RunCons(t, a, WritesDown(c, queue[1..]));
      WriteTakes(t.d.conns[c]);
      hide Whole, New;
      assert t.back + Tagged(c, []) == t.back;
      var u := Next(t, a);
      assert u == t.(d := t.d.(conns := u.d.conns));
      WritesDownRun(u, c, queue[1..]);
    }
  }

  lemma {:induction false} WritesUpRun(t: State, c: nat, queue: seq<Item>)
    requires c in t.h.conns && Receiving(t.h.conns[c]) && t.h.conns[c].queue == queue
    ensures var u := Run(t, WritesUp(c, queue));
            && u == t.(h := t.h.(conns := u.h.conns))
            && c in u.h.conns && Takes(t.h.conns[c], u.h.conns[c]) && u.h.conns[c].queue == []
    decreases |queue|
  {
    hide Run, BridgeStep, HostStep;
    if queue == [] {
      RunNone(t);
    } else {
      var a := OfHost(HostTask(c, Whole(queue[0])));
      RunCons(t, a, WritesUp(c, queue[1..]));
      WriteTakes(t.h.conns[c]);
      hide Whole, New;
      assert t.wire + Tagged(c, []) == t.wire;
      var u := Next(t, a);
      assert u == t.(h := t.h.(conns := u.h.conns));
      WritesUpRun(u, c, queue[1..]);
    }
  }

  /** The steps of a drain: routing, dispatching without answering checks, and writing at `c`. */
  predicate Delivering(a: Action, c: nat) {
    || a.RouteDown? || a.RouteUp? || a == OfDaemon(DaemonRecv) || a == OfHost(HostRecv(false, false))
    || (a.OfDaemon? && a.da.DaemonTask? && a.da.id == c && a.da.a.Write?)
    || (a.OfHost? && a.ha.HostTask? && a.ha.id == c && a.ha.a.Write?)
  }

  ghost predicate AllDelivering(acts: seq<Action>, c: nat) {
    forall i :: 0 <= i < |acts| ==> Delivering(acts[i], c)
  }

  lemma {:induction false} WritesDeliver(c: nat, queue: seq<Item>)
    ensures AllDelivering(WritesDown(c, queue), c) && AllDelivering(WritesUp(c, queue), c)
  {
    if queue != [] {
      WritesDeliver(c, queue[1..]);
    }
  }

  /** What a bridging peer sent has no ForwardFreeContext in it. */
  lemma NoFree(v: View)
    requires Inv(v)
    ensures v.h.phase == Bridging ==> Free !in v.down.near
    ensures v.d.phase == Bridging ==> Free !in v.up.near
  {
    hide EndInv, Core, Payload, Handshake;
    assert Free in v.down.near ==> Free in v.down.near + v.down.far;
    assert Free in v.up.near ==> Free in v.up.near + v.up.far;
  }

  /** With nothing left on the way, everything sent has been written. */
  lemma AllWritten(x: End, y: End, l: Lane)
    requires EndInv(x) && EndInv(y) && Link(x, y, l)
    requires Receiving(y) && l.registered && l.dispatcher != Off && l.near == l.far == y.queue == []
    ensures y.written == Payload(x.sent)
  {
    hide Link;
    Conserved(x, y, l);
  }

  /** A connection both of whose bridges run, on a forward that is routed and dispatched on both sides. */
  ghost predicate Flowing(t: State, c: nat) {
    && c in t.d.conns && Receiving(t.d.conns[c]) && c in t.h.conns && Receiving(t.h.conns[c])
    && t.d.registered && t.d.dispatcher == On && Close !in t.wire
    && t.h.registered && t.h.dispatcher == On
  }

  lemma RunFrom(s: State, actions: seq<Action>, t: State, a: seq<Action>)
    requires Init(s) && t == Run(s, actions)
    ensures Run(t, a) == Run(s, actions + a) && Good(Run(t, a)) && Unstopped(Run(t, a))
  {
    hide Run, Good, Init;
    RunAppend(s, actions, a);
    RunGood(s, actions + a);
    UnstoppedRun(s, actions + a);
  }

  /** Everything on its way to the daemon's end is routed and dispatched. */
  lemma BroughtDown(s: State, actions: seq<Action>, t: State, c: nat) returns (acts: seq<Action>)
    requires Init(s) && t == Run(s, actions) && Flowing(t, c)
    ensures AllDelivering(acts, c)
    ensures var u := Run(t, acts);
            && u == t.(wire := [], d := t.d.(mail := [], conns := u.d.conns))
            && c in u.d.conns && Takes(t.d.conns[c], u.d.conns[c])
  {
    hide Run, Inv, Items;
    var routes := Repeat(RouteDown, |t.wire|);
    var v := Run(t, routes);
    RouteDowns(t);
    RunFrom(s, actions, t, routes);
    NoFree(At(v, c));
    var takes := Repeat(OfDaemon(DaemonRecv), |v.d.mail|);
    DispatchDown(v, c);
    acts := routes + takes;
    RunAppend(t, routes, takes);
  }

  lemma BroughtUp(s: State, actions: seq<Action>, t: State, c: nat) returns (acts: seq<Action>)
    requires Init(s) && t == Run(s, actions) && Flowing(t, c)
    ensures AllDelivering(acts, c)
    ensures var u := Run(t, acts);
            && u == t.(back := [], h := t.h.(inbox := [], conns := u.h.conns))
            && c in u.h.conns && Takes(t.h.conns[c], u.h.conns[c])
  {
    hide Run, Inv, Items;
    var routes := Repeat(RouteUp, |t.back|);
    var v := Run(t, routes);
    RouteUps(t);
    RunFrom(s, actions, t, routes);
    NoFree(At(v, c));
    var takes := Repeat(OfHost(HostRecv(false, false)), |v.h.inbox|);
    DispatchUp(v, c);
    acts := routes + takes;
    RunAppend(t, routes, takes);
  }

  /** Everything sent to the daemon's end is brought there and written; nothing else changes. */
  lemma DrainedDown(s: State, actions: seq<Action>, t: State, c: nat) returns (acts: seq<Action>)
    requires Init(s) && t == Run(s, actions) && Flowing(t, c)
    ensures AllDelivering(acts, c)
    ensures var u := Run(t, acts);
            && u.h == t.h && u.back == t.back && Flowing(u, c)
            && Takes(t.d.conns[c], u.d.conns[c]) && u.d.conns[c].written == Payload(t.h.conns[c].sent)
  {
    hide Run, Inv, Items, WritesDown, EndInv, Link, Handshake;
    var brings := BroughtDown(s, actions, t, c);
    var v := Run(t, brings);
    var writes := WritesDown(c, v.d.conns[c].queue);
    WritesDownRun(v, c, v.d.conns[c].queue);
    WritesDeliver(c, v.d.conns[c].queue);
    acts := brings + writes;
    RunAppend(t, brings, writes);
    RunFrom(s, actions, t, acts);
    Arrived(Run(t, acts), c);
  }

  lemma DrainedUp(s: State, actions: seq<Action>, t: State, c: nat) returns (acts: seq<Action>)
    requires Init(s) && t == Run(s, actions) && Flowing(t, c)
    ensures AllDelivering(acts, c)
    ensures var u := Run(t, acts);
            && u.d == t.d && u.wire == t.wire
            && c in u.h.conns && Takes(t.h.conns[c], u.h.conns[c]) && u.h.conns[c].written == Payload(t.d.conns[c].sent)
  {
    hide Run, Inv, Items, WritesUp, EndInv, Link, Handshake;
    var brings := BroughtUp(s, actions, t, c);
    var v := Run(t, brings);
    var writes := WritesUp(c, v.h.conns[c].queue);
    WritesUpRun(v, c, v.h.conns[c].queue);
    WritesDeliver(c, v.h.conns[c].queue);
    acts := brings + writes;
    RunAppend(t, brings, writes);
    RunFrom(s, actions, t, acts);
    Arrived(Run(t, acts), c);
  }

  lemma Arrived(u: State, c: nat)
    requires Good(u) && Flowing(u, c)
    ensures u.wire == u.d.mail == [] && u.d.conns[c].queue == [] ==> u.d.conns[c].written == Payload(u.h.conns[c].sent)
    ensures u.back == u.h.inbox == [] && u.h.conns[c].queue == [] ==> u.h.conns[c].written == Payload(u.d.conns[c].sent)
  {
    hide Items, EndInv, Link, Handshake;
    ItemsNil(c);
    var v := At(u, c);
    assert Inv(v);
    if u.wire == u.d.mail == [] && v.d.queue == [] { AllWritten(v.h, v.d, v.down); }
    if u.back == u.h.inbox == [] && v.h.queue == [] { AllWritten(v.d, v.h, v.up); }
  }

  /**
   From every reachable state with both bridges of a connection running, and
   the forward routed and dispatched on both sides, routing, dispatching and
   writing what is pending writes to each socket everything the other end has
   sent.
   */
  lemma Drains(s: State, actions: seq<Action>, c: nat) returns (acts: seq<Action>)
    requires Init(s) && Flowing(Run(s, actions), c)
    ensures AllDelivering(acts, c)
    ensures var t, u := Run(s, actions), Run(s, actions + acts);
            && c in u.d.conns && Takes(t.d.conns[c], u.d.conns[c])
            && c in u.h.conns && Takes(t.h.conns[c], u.h.conns[c])
            && u.d.conns[c].written == Payload(t.h.conns[c].sent)
            && u.h.conns[c].written == Payload(t.d.conns[c].sent)
  {
    hide Run;
    var t := Run(s, actions);
    var down := DrainedDown(s, actions, t, c);
    RunFrom(s, actions, t, down);
    var v := Run(t, down);
    var up := DrainedUp(s, actions + down, v, c);
    RunFrom(s, actions + down, v, up);
    acts := down + up;
    assert actions + down + up == actions + (down + up);
  }


  /** A check is answered in the set-up and later, under its own id and with what the host found. */
  lemma ChecksAnswered(t: State, lid: nat, reachable: bool)
    requires t.h.inbox != [] && t.h.inbox[0] == Check(lid)
    requires t.h.dispatcher == On || (t.h.dispatcher == Checking && !t.h.confirmed)
    ensures var u := Next(t, OfHost(HostRecv(reachable, true)));
            u.wire == t.wire + [CheckResult(lid, reachable)] && u.h.inbox == t.h.inbox[1..] && u.h.conns == t.h.conns
  {
  }

  /** The wire must carry no close: what is sent behind one is dropped by the daemon's main loop. */
  lemma LostBehindClose(t: State, c: nat, b: seq<byte>, up: seq<byte>, down: seq<byte>)
    requires Carried(t, c, up, down) && 0 < |b| <= 4096
    ensures var u := Run(t, [OfHost(HostTask(c, Read(b))), OfHost(Remove(true)), OfHost(HostTask(c, Send(true))),
                             RouteDown, RouteDown]);
            && u.wire == [] && u.d.mail == [Stop] && c in u.d.conns && c in u.h.conns
            && u.h.conns[c].read == down + b && u.d.conns[c] == t.d.conns[c]
  {
    hide Run, DaemonStep, HostStep, BridgeStep, Tagged, New;
    var e := t.h.conns[c];
    var e1 := BridgeStep(e, Read(b));
    RunFive(t, OfHost(HostTask(c, Read(b))), OfHost(Remove(true)), OfHost(HostTask(c, Send(true))), RouteDown, RouteDown);
    ReadSend(e, b);
    Own(t, c);
    HostDoes(t, c, e, Read(b), e1);
    var u := t.(h := t.h.(entry := false));
    assert Next(SetHost(t, c, e1), OfHost(Remove(true))) == SetHost(u, c, e1).(wire := [Close]);
    BehindClose(u, c, e1, Gave(e, b), b);
  }

  lemma BehindClose(t: State, c: nat, e: End, e': End, b: seq<byte>)
    requires HostStep(e, Send(true)) == e' && New(e, e') == [Data(b)] && t.d.mail == [] && t.d.registered
    ensures var u := Next(Next(Next(SetHost(t, c, e).(wire := [Close]), OfHost(HostTask(c, Send(true)))), RouteDown), RouteDown);
            u == SetHost(t, c, e').(wire := [], d := t.d.(mail := [Stop], registered := false, aborted := true))
  {
    hide HostStep, New;
    Sets(t, c, e, e');
    var sent := Next(SetHost(t, c, e).(wire := [Close]), OfHost(HostTask(c, Send(true))));
    assert [Close] + Tagged(c, [Data(b)]) == [Close, Conn(c, Data(b))];
    assert sent == SetHost(t, c, e').(wire := [Close, Conn(c, Data(b))]);
  }
}
