/**
 When a connection of a reverse forward ends: what its bridges outlive, and how
 both ends finish.
 */
module RportEnding {
  import opened Bytes
  import opened RportConnection
  import opened Rport
  import opened RportProgress
  import Progress = RportProgress

  /** The write of the first queued item that fails before its end. */
  predicate FallsShort(e: End, a: Local) {
    a.Write? && e.queue != [] && e.queue[0].Data? && a.n < |e.queue[0].bytes|
  }

  /** The steps that end a connection whose bridges both run: a failed write, or the listener's drain. */
  predicate Ends(s: State, a: Action, c: nat) {
    || (a.OfDaemon? && a.da.DaemonTask? && a.da.id == c && FallsShort(Get(s.d.conns, c), a.da.a))
    || (a.OfDaemon? && a.da.Listener? && s.d.stage == Draining)
    || (a.OfHost? && a.ha.HostTask? && a.ha.id == c && FallsShort(Get(s.h.conns, c), a.ha.a))
  }

  ghost predicate BothReceive(s: State, c: nat) {
    Receiving(Get(s.d.conns, c)) && Receiving(Get(s.h.conns, c))
  }

  /** A bridge that has lost its receiver, or its place in the map, for good. */
  predicate Broken(e: End) {
    && (e.phase == Bridging || e.phase == Freeing || e.phase == Done)
    && (!e.alive || e.slot == Freed || e.slot == Removed)
  }

  lemma BridgeEnds(e: End, a: Local)
    requires Receiving(e) && !e.shut
    ensures var d := DaemonStep(e, a); (if FallsShort(e, a) then Broken(d) else Receiving(d))
    ensures var h := HostStep(e, a); (if FallsShort(e, a) then Broken(h) else Receiving(h))
  {
  }

  lemma BrokenSteps(e: End, a: Local)
    requires Broken(e)
    ensures Broken(DaemonStep(e, a)) && Broken(HostStep(e, a))
  {
  }

  lemma BrokenTakes(e: End, item: Item)
    requires Broken(e)
    ensures Broken(Shut(e)) && Broken(Deliver(e, item)) && Broken(HostTakes(e, item))
  {
  }

  lemma ShutBreaks(e: End)
    requires Receiving(e)
    ensures Broken(Shut(e))
  {
  }

  lemma DaemonSide(s: State, a: DaemonAction, c: nat)
    requires Good(s) && BothReceive(s, c)
    ensures var e := Get(Next(s, OfDaemon(a)).d.conns, c); if Ends(s, OfDaemon(a), c) then Broken(e) else Receiving(e)
  {
    hide Items, Link, Handshake, Payload, Core;
    assert Inv(At(s, c));
    NoFree(At(s, c));
    var e := s.d.conns[c];
    if a.DaemonTask? && a.id == c { BridgeEnds(e, a.a); }
    if a.DaemonRecv? && s.d.mail != [] {
      ItemsPop(s.d.mail, c);
      if s.d.mail[0].Conn? && s.d.mail[0].id == c { DeliverTakes(e, s.d.mail[0].item); }
    }
    ShutBreaks(e);
    hide DaemonStep, HostStep, Deliver, Shut, FallsShort;
  }

  lemma HostSide(s: State, a: HostAction, c: nat)
    requires Good(s) && BothReceive(s, c)
    ensures var e := Get(Next(s, OfHost(a)).h.conns, c); if Ends(s, OfHost(a), c) then Broken(e) else Receiving(e)
  {
    hide Items, Link, Handshake, Payload, Core;
    assert Inv(At(s, c));
    NoFree(At(s, c));
    var e := s.h.conns[c];
    if a.HostTask? && a.id == c { BridgeEnds(e, a.a); }
    if a.HostRecv? && s.h.inbox != [] {
      ItemsPop(s.h.inbox, c);
      if s.h.inbox[0].Conn? && s.h.inbox[0].id == c { DeliverTakes(e, s.h.inbox[0].item); }
    }
    hide DaemonStep, HostStep, HostTakes, FallsShort;
  }

  ghost predicate OneBroken(s: State, c: nat) {
    Broken(Get(s.d.conns, c)) || Broken(Get(s.h.conns, c))
  }

  lemma TakeMailBroken(d: Daemon, c: nat)
    requires Broken(Get(d.conns, c)) && d.mail != []
    ensures Broken(Get(TakeMail(d).conns, c))
  {
    if d.mail[0].Conn? { BrokenTakes(d.conns[c], d.mail[0].item); }
    hide Deliver, Broken;
  }

  lemma ListenBroken(d: Daemon, ok: bool, c: nat)
    requires Broken(Get(d.conns, c))
    ensures Broken(Get(Listen(d, ok).0.conns, c))
  {
    BrokenTakes(d.conns[c], Free);
    hide Broken, Shut;
  }

  lemma DaemonBroken(s: State, a: DaemonAction, c: nat)
    requires Broken(Get(s.d.conns, c))
    ensures Broken(Get(Next(s, OfDaemon(a)).d.conns, c))
  {
    hide TakeMail, Listen, DaemonStep, New, Tagged;
    if a.DaemonTask? && a.id == c { BrokenSteps(s.d.conns[c], a.a); }
    if a.Listener? { ListenBroken(s.d, a.ok, c); }
    if a.DaemonRecv? && s.d.mail != [] { TakeMailBroken(s.d, c); }
  }

  lemma TakeInboxBroken(h: Host, reachable: bool, ok: bool, c: nat)
    requires Broken(Get(h.conns, c)) && h.inbox != []
    ensures Broken(Get(TakeInbox(h, reachable, ok).0.conns, c))
  {
    if h.inbox[0].Conn? { BrokenTakes(h.conns[c], h.inbox[0].item); }
    hide HostTakes, Broken;
  }

  lemma HostBroken(s: State, a: HostAction, c: nat)
    requires Broken(Get(s.h.conns, c))
    ensures Broken(Get(Next(s, OfHost(a)).h.conns, c))
  {
    hide TakeInbox, HostStep, New, Tagged;
    if a.HostTask? && a.id == c { BrokenSteps(s.h.conns[c], a.a); }
    if a.HostRecv? && s.h.inbox != [] { TakeInboxBroken(s.h, a.reachable, a.ok, c); }
  }

  lemma BrokenStep(s: State, a: Action, c: nat)
    requires OneBroken(s, c)
    ensures OneBroken(Next(s, a), c)
  {
    hide DaemonNext, HostNext, Broken;
    if a.OfDaemon? && Broken(Get(s.d.conns, c)) { DaemonBroken(s, a.da, c); }
    if a.OfHost? && Broken(Get(s.h.conns, c)) { HostBroken(s, a.ha, c); }
  }

  lemma EndsStep(s: State, a: Action, c: nat)
    requires Good(s) && BothReceive(s, c)
    ensures if Ends(s, a, c) then OneBroken(Next(s, a), c) else BothReceive(Next(s, a), c)
  {
    hide Good, DaemonNext, HostNext, Broken, Receiving, FallsShort;
    match a
    case OfDaemon(da) => DaemonSide(s, da, c);
    case OfHost(ha) => HostSide(s, ha, c);
    case _ =>
  }

  ghost predicate NoneEnds(s: State, before: seq<Action>, later: seq<Action>, c: nat) {
    forall i :: 0 <= i < |later| ==> !Ends(Run(s, before + later[..i]), later[i], c)
  }

  lemma NoneEndsStep(s: State, before: seq<Action>, later: seq<Action>, n: nat, c: nat)
    requires |later| == n + 1
    ensures NoneEnds(s, before, later, c)
            <==> NoneEnds(s, before, later[..n], c) && !Ends(Run(s, before + later[..n]), later[n], c)
  {
    hide Run, Ends;
    forall i | 0 <= i < n ensures later[..n][..i] == later[..i] {
    }
  }

  /**
   Once both bridges of a connection run, they go on for as long as no write
   fails and the listener is not drained, whatever else happens: in particular
   an end of file at one socket, or at both, never ends the connection.
   */
  lemma {:induction false} StaysOpenIff(s: State, before: seq<Action>, later: seq<Action>, c: nat)
    requires Init(s) && BothReceive(Run(s, before), c)
    ensures var t := Run(s, before + later);
            && (BothReceive(t, c) <==> NoneEnds(s, before, later, c))
            && (BothReceive(t, c) || OneBroken(t, c))
    decreases |later|
  {
    hide Run, NoneEnds, Good, Ends, Init, Receiving, Broken, Next;
    if later == [] {
      assert before + later == before;
      NoneEndsNil(s, before, c);
    } else {
      var n := |later| - 1;
      StaysOpenIff(s, before, later[..n], c);
      NoneEndsStep(s, before, later, n, c);
      var t := Run(s, before + later[..n]);
      RunGood(s, before + later[..n]);
      assert before + later == before + later[..n] + [later[n]];
      RunAppend(s, before + later[..n], [later[n]]);
      RunOne(t, later[n]);
      if BothReceive(t, c) { EndsStep(t, later[n], c); } else { BrokenStep(t, later[n], c); }
      NotBoth(Run(s, before + later), c);
    }
  }

  lemma NoneEndsNil(s: State, before: seq<Action>, c: nat)
    ensures NoneEnds(s, before, [], c)
  {
  }

  lemma NotBoth(s: State, c: nat)
    ensures !(BothReceive(s, c) && OneBroken(s, c))
  {
  }

  // ------------------------------------------------------------------
  // A run that ends one
  // ------------------------------------------------------------------

  /** A chunk whose write at the daemon's socket fails after `n` bytes. */
  function FailingTurn(c: nat, b: seq<byte>, n: nat): seq<Action> {
    [OfHost(HostTask(c, Read(b))), OfHost(HostTask(c, Send(true))), RouteDown,
     OfDaemon(DaemonRecv), OfDaemon(DaemonTask(c, Write(n)))]
  }

  /** The daemon's end finishes and says so. */
  function DaemonFrees(c: nat): seq<Action> {
    [OfDaemon(DaemonTask(c, ReaderEnd)), OfDaemon(DaemonTask(c, Join)), OfDaemon(DaemonTask(c, SendFree(true))),
     RouteUp, OfHost(HostRecv(false, false))]
  }

  /** The host's end, whose sender is gone, finishes. */
  function HostFrees(c: nat): seq<Action> {
    [OfHost(HostTask(c, WriterEnd)), OfHost(HostTask(c, ReaderEnd)), OfHost(HostTask(c, Join)),
     OfHost(HostTask(c, SendFree(true)))]
  }

  /** An end whose write of `b` failed, one that finished, and one whose peer has finished. */
  function Failed(e: End, b: seq<byte>, n: nat): End
    requires n <= |b|
  {
    e.(consumed := e.consumed + [Data(b)], written := e.written + b[..n], alive := false)
  }

  function Finished(e: End): End {
    e.(readerOn := false, alive := false, slot := if e.slot == Present then Removed else e.slot, phase := Done,
       sent := e.sent + [Free])
  }

  lemma DeliverFail(e: End, b: seq<byte>, n: nat)
    requires Receiving(e) && e.queue == [] && n < |b|
    ensures var q := e.(queue := [Data(b)]);
            Deliver(e, Data(b)) == q && DaemonStep(q, Write(n)) == Failed(e, b, n) && New(q, Failed(e, b, n)) == []
  {
    assert e.queue + [Data(b)] == [Data(b)];
  }

  lemma FailingRun(t: State, c: nat, b: seq<byte>, n: nat, up: seq<byte>, down: seq<byte>)
    requires Carried(t, c, up, down) && n < |b| <= 4096
    ensures Run(t, FailingTurn(c, b, n)) ==
              SetDaemon(SetHost(t, c, Gave(t.h.conns[c], b)), c, Failed(t.d.conns[c], b, n))
  {
    hide Run, Next, Deliver, DaemonStep, New, Failed, Gave;
    RunFive(t, OfHost(HostTask(c, Read(b))), OfHost(HostTask(c, Send(true))), RouteDown,
            OfDaemon(DaemonRecv), OfDaemon(DaemonTask(c, Write(n))));
    DownSent(t, c, b);
    var e := t.d.conns[c];
    var u := SetHost(t, c, Gave(t.h.conns[c], b));
    DeliverFail(e, b, n);
    GoesDown(u, c, Data(b));
    DaemonDoes(u, c, e.(queue := [Data(b)]), Write(n), Failed(e, b, n));
  }

  /** ReaderEnd, Join and SendFree, at an end whose writer is gone. */
  lemma FreeSteps(e: End)
    requires e.phase == Bridging && !e.alive && e.hand == []
    ensures var r := e.(readerOn := false);
            var j := r.(phase := Freeing, slot := if e.slot == Present then Removed else e.slot);
            && DaemonStep(e, ReaderEnd) == r == HostStep(e, ReaderEnd) && New(e, r) == []
            && DaemonStep(r, Join) == j == HostStep(r, Join) && New(r, j) == []
            && DaemonStep(j, SendFree(true)) == Finished(e) == HostStep(j, SendFree(true)) && New(j, Finished(e)) == [Free]
  {
  }

  lemma DaemonFreesRun(t: State, c: nat)
    requires Idle(t) && c in t.d.conns && c in t.h.conns && Receiving(t.h.conns[c])
    requires var e := t.d.conns[c]; e.phase == Bridging && !e.alive && e.hand == []
    ensures Run(t, DaemonFrees(c)) == SetHost(SetDaemon(t, c, Finished(t.d.conns[c])), c, t.h.conns[c].(slot := Freed))
  {
    hide Run, Next, HostTakes, DaemonStep, HostStep, New, Finished;
    RunFive(t, OfDaemon(DaemonTask(c, ReaderEnd)), OfDaemon(DaemonTask(c, Join)), OfDaemon(DaemonTask(c, SendFree(true))),
            RouteUp, OfHost(HostRecv(false, false)));
    var e := t.d.conns[c];
    var r := e.(readerOn := false);
    var j := r.(phase := Freeing, slot := if e.slot == Present then Removed else e.slot);
    FreeSteps(e);
    Own(t, c);
    DaemonDoes(t, c, e, ReaderEnd, r);
    DaemonDoes(t, c, r, Join, j);
    DaemonSays(t, c, j, SendFree(true), Finished(e), Free);
    GoesUp(SetDaemon(t, c, Finished(e)), c, Free);
    TakesFree(t.h.conns[c]);
  }

  lemma TakesFree(e: End)
    requires Receiving(e)
    ensures HostTakes(e, Free) == e.(slot := Freed)
  {
  }

  lemma WriterEnds(e: End)
    requires e.phase == Bridging && e.slot == Freed && e.alive && e.queue == []
    ensures HostStep(e, WriterEnd) == e.(alive := false) && New(e, e.(alive := false)) == []
  {
  }

  lemma HostFreesRun(t: State, c: nat)
    requires Idle(t) && c in t.h.conns
    requires var e := t.h.conns[c]; e.phase == Bridging && e.slot == Freed && e.alive && e.queue == [] && e.hand == []
    ensures Run(t, HostFrees(c)) == SetHost(t, c, Finished(t.h.conns[c])).(wire := [Conn(c, Free)])
  {
    hide Run, Next, DaemonStep, HostStep, New, Finished;
    RunFour(t, OfHost(HostTask(c, WriterEnd)), OfHost(HostTask(c, ReaderEnd)), OfHost(HostTask(c, Join)),
            OfHost(HostTask(c, SendFree(true))));
    var e := t.h.conns[c];
    var w := e.(alive := false);
    var r := w.(readerOn := false);
    var j := r.(phase := Freeing);
    WriterEnds(e);
    FreeSteps(w);
    SameFinish(e, w);
    Own(t, c);
    hide SetHost;
    HostDoes(t, c, e, WriterEnd, w);
    HostDoes(t, c, w, ReaderEnd, r);
    HostDoes(t, c, r, Join, j);
    HostSays(t, c, j, SendFree(true), Finished(e), Free);
  }

  lemma SameFinish(e: End, w: End)
    requires w == e.(alive := false)
    ensures Finished(w) == Finished(e)
  {
  }

  /** After a write that fails half way, both ends finish: the streams stop exactly there. */
  lemma Finishes(t: State, c: nat, b: seq<byte>, n: nat, up: seq<byte>, down: seq<byte>)
    requires Carried(t, c, up, down) && n < |b| <= 4096
    ensures var u := Run(t, FailingTurn(c, b, n) + DaemonFrees(c) + HostFrees(c));
            var d, h := Get(u.d.conns, c), Get(u.h.conns, c);
            d.phase == h.phase == Done && d.written == down + b[..n] && h.written == up
  {
    hide Run;
    RunAppend(t, FailingTurn(c, b, n), DaemonFrees(c));
    RunAppend(t, FailingTurn(c, b, n) + DaemonFrees(c), HostFrees(c));
    FailingRun(t, c, b, n, up, down);
    DaemonFreesRun(Run(t, FailingTurn(c, b, n)), c);
    HostFreesRun(Run(t, FailingTurn(c, b, n) + DaemonFrees(c)), c);
  }

  /** The host cannot reach its port for this connection, and says so; the daemon's end gives up. */
  function Refusing(c: nat): seq<Action> {
    [OfDaemon(Accept(c)), OfDaemon(DaemonTask(c, Announce(true))), RouteUp, OfHost(HostRecv(false, false)),
     OfHost(HostTask(c, Dial(Refused)))]
  }

  function GivingUp(c: nat): seq<Action> {
    [OfHost(HostTask(c, SendFree(true))), RouteDown, OfDaemon(DaemonRecv), OfDaemon(DaemonTask(c, GiveUp)),
     OfDaemon(DaemonTask(c, SendFree(true)))]
  }

  const REFUSED := UNBORN.(phase := Freeing)
  const FREED := ANNOUNCED.(slot := Freed)
  const GIVEN := FREED.(alive := false, phase := Freeing)

  lemma RefusingSteps()
    ensures HostStep(SPAWNED, Dial(Refused)) == REFUSED && New(SPAWNED, REFUSED) == []
    ensures HostStep(REFUSED, SendFree(true)) == REFUSED.(phase := Done, sent := [Free])
    ensures New(REFUSED, REFUSED.(phase := Done, sent := [Free])) == [Free]
    ensures Deliver(ANNOUNCED, Free) == FREED
    ensures DaemonStep(FREED, GiveUp) == GIVEN && New(FREED, GIVEN) == []
    ensures DaemonStep(GIVEN, SendFree(true)) == GIVEN.(phase := Done, sent := [Slave, Free])
    ensures New(GIVEN, GIVEN.(phase := Done, sent := [Slave, Free])) == [Free]
  {
  }

  lemma RefusingRun(t: State, c: nat)
    requires Idle(t) && c !in t.d.conns && Get(t.h.conns, c) == UNBORN
    ensures Run(t, Refusing(c)) == SetHost(SetDaemon(t, c, ANNOUNCED), c, REFUSED)
  {
    hide Run, Next, DaemonStep, HostStep, HostTakes, Deliver, New, SetHost;
    RunFive(t, OfDaemon(Accept(c)), OfDaemon(DaemonTask(c, Announce(true))), RouteUp, OfHost(HostRecv(false, false)),
            OfHost(HostTask(c, Dial(Refused))));
    OpeningSteps();
    RefusingSteps();
    AcceptStep(t, c);
    DaemonSays(t, c, ACCEPTED, Announce(true), ANNOUNCED, Slave);
    var u := SetDaemon(t, c, ANNOUNCED);
    GoesUp(u, c, Slave);
    HostDoes(u, c, SPAWNED, Dial(Refused), REFUSED);
  }

  /** A connection that the host refuses is finished at both ends, and no byte was read or written. */
  lemma Refuses(t: State, c: nat)
    requires Idle(t) && c !in t.d.conns && Get(t.h.conns, c) == UNBORN
    ensures var u := Run(t, Refusing(c) + GivingUp(c)); var d, h := Get(u.d.conns, c), Get(u.h.conns, c);
            d.phase == h.phase == Done && d.read == d.written == h.read == h.written == []
  {
    hide Run, Next, DaemonStep, HostStep, Deliver, New;
    RunAppend(t, Refusing(c), GivingUp(c));
    RefusingRun(t, c);
    var u := SetDaemon(t, c, ANNOUNCED);
    RunFive(SetHost(u, c, REFUSED), OfHost(HostTask(c, SendFree(true))), RouteDown, OfDaemon(DaemonRecv),
            OfDaemon(DaemonTask(c, GiveUp)), OfDaemon(DaemonTask(c, SendFree(true))));
    RefusingSteps();
    var done := REFUSED.(phase := Done, sent := [Free]);
    HostSays(u, c, REFUSED, SendFree(true), done, Free);
    var v := SetHost(u, c, done);
    GoesDown(v, c, Free);
    DaemonDoes(v, c, FREED, GiveUp, GIVEN);
    DaemonSays(v, c, GIVEN, SendFree(true), GIVEN.(phase := Done, sent := [Slave, Free]), Free);
  }

  // ------------------------------------------------------------------
  // Every task can finish
  // ------------------------------------------------------------------

  function Whole(queue: seq<Item>): seq<Local> {
    if queue == [] then [] else [Progress.Whole(queue[0])] + Whole(queue[1..])
  }

  /** The last steps of a bridge: stop reading, write what is queued, leave the map, say so. */
  function BridgeLast(e: End): seq<Local> {
    [if e.readerOn && e.hand != [] then Send(false) else ReaderEnd]
    + (if e.alive then Whole(e.queue) + [WriterEnd] else []) + [Join, SendFree(true)]
  }

  /** The last steps of a task, in each phase. */
  function DaemonLast(e: End): seq<Local> {
    match e.phase
    case Spawned => [Announce(false)]
    case Waiting => [GiveUp, SendFree(true)]
    case Bridging => BridgeLast(e)
    case Freeing => [SendFree(true)]
    case _ => []
  }

  function HostLast(e: End): seq<Local> {
    match e.phase
    case Spawned => [Dial(BadSpec)]
    case Waiting => [Announce(false)]
    case Bridging => BridgeLast(e)
    case Freeing => [SendFree(true)]
    case _ => []
  }

  function Stepped(e: End, daemon: bool, steps: seq<Local>): End
    decreases |steps|
  {
    if steps == [] then e
    else Stepped(if daemon then DaemonStep(e, steps[0]) else HostStep(e, steps[0]), daemon, steps[1..])
  }

  lemma {:induction false} SteppedAppend(e: End, daemon: bool, a: seq<Local>, b: seq<Local>)
    ensures Stepped(e, daemon, a + b) == Stepped(Stepped(e, daemon, a), daemon, b)
    decreases |a|
  {
    hide DaemonStep, HostStep;
    if a == [] {
      assert a + b == b;
    } else {
      assert (a + b)[1..] == a[1..] + b;
      SteppedAppend(if daemon then DaemonStep(e, a[0]) else HostStep(e, a[0]), daemon, a[1..], b);
    }
  }

  lemma SteppedTwo(e: End, daemon: bool, a: Local, b: Local)
    ensures var e' := if daemon then DaemonStep(e, a) else HostStep(e, a);
            Stepped(e, daemon, [a, b]) == if daemon then DaemonStep(e', b) else HostStep(e', b)
  {
    hide DaemonStep, HostStep;
    var e' := if daemon then DaemonStep(e, a) else HostStep(e, a);
    assert [a, b][1..] == [b] && [b][1..] == [];
    assert Stepped(e, daemon, [a, b]) == Stepped(e', daemon, [b]);
  }

  /** The peer is gone or the listener drained: the sender has left the map. */
  predicate Cut(e: End) {
    e.slot == Freed || e.slot == Removed
  }

  lemma WholeOne(e: End)
    requires e.phase == Bridging && e.alive && e.queue != []
    ensures var e', item := BridgeStep(e, Progress.Whole(e.queue[0])), e.queue[0];
            && DaemonStep(e, Progress.Whole(e.queue[0])) == e' == HostStep(e, Progress.Whole(e.queue[0]))
            && e' == e.(queue := e.queue[1..], consumed := e.consumed + [item],
                        written := e.written + if item.Data? then item.bytes else [])
  {
  }

  /** The writer works off its queue. */
  lemma {:induction false} WholeRun(e: End, daemon: bool)
    requires e.phase == Bridging && e.alive
    ensures var u := Stepped(e, daemon, Whole(e.queue));
            u == e.(queue := [], consumed := u.consumed, written := e.written + Payload(e.queue))
    decreases |e.queue|
  {
    hide BridgeStep, DaemonStep, HostStep, Progress.Whole, Payload;
    if e.queue == [] {
      PayloadNil();
    } else {
      var item := e.queue[0];
      WholeOne(e);
      PayloadFront(e.queue);
      assert Whole(e.queue)[1..] == Whole(e.queue[1..]);
      var e' := BridgeStep(e, Progress.Whole(item));
      WholeRun(e', daemon);
    }
  }

  lemma PayloadNil()
    ensures Payload([]) == []
  {
  }

  lemma PayloadFront(q: seq<Item>)
    requires q != []
    ensures Payload(q) == (if q[0].Data? then q[0].bytes else []) + Payload(q[1..])
  {
    assert q == [q[0]] + q[1..];
    PayloadSplit([q[0]], q[1..]);
    assert [q[0]] == [] + [q[0]];
    PayloadPush([], q[0]);
  }

  lemma ReaderStops(e: End, daemon: bool)
    requires e.phase == Bridging
    ensures var a := if e.readerOn && e.hand != [] then Send(false) else ReaderEnd;
            Stepped(e, daemon, [a]) == e.(readerOn := false)
  {
  }

  lemma WriterStops(e: End, daemon: bool)
    requires e.phase == Bridging && e.alive && e.queue == [] && Cut(e)
    ensures Stepped(e, daemon, [WriterEnd]) == e.(alive := false)
  {
  }

  lemma Leaves(e: End, daemon: bool)
    requires e.phase == Bridging && !e.alive && !e.readerOn
    ensures var u := Stepped(e, daemon, [Join, SendFree(true)]); u.phase == Done && u.written == e.written
  {
    SteppedTwo(e, daemon, Join, SendFree(true));
  }

  lemma BridgeFinishes(e: End, daemon: bool)
    requires e.phase == Bridging && (e.alive ==> Cut(e))
    ensures var u := Stepped(e, daemon, BridgeLast(e));
            u.phase == Done && u.written == e.written + if e.alive then Payload(e.queue) else []
  {
    hide Stepped, Payload;
    var a := if e.readerOn && e.hand != [] then Send(false) else ReaderEnd;
    var r := e.(readerOn := false);
    ReaderStops(e, daemon);
    if e.alive {
      SteppedAppend(e, daemon, [a], Whole(e.queue) + [WriterEnd]);
      SteppedAppend(r, daemon, Whole(e.queue), [WriterEnd]);
      WholeRun(r, daemon);
      WriterStops(Stepped(r, daemon, Whole(e.queue)), daemon);
      SteppedAppend(e, daemon, [a] + (Whole(e.queue) + [WriterEnd]), [Join, SendFree(true)]);
      Leaves(Stepped(e, daemon, [a] + (Whole(e.queue) + [WriterEnd])), daemon);
    } else {
      SteppedAppend(e, daemon, [a], [Join, SendFree(true)]);
      assert [a] + [] + [Join, SendFree(true)] == [a] + [Join, SendFree(true)];
      Leaves(r, daemon);
    }
  }

  lemma OthersFinish(e: End)
    requires e.phase != Unborn && e.phase != Bridging
    ensures var d := Stepped(e, true, DaemonLast(e)); d.phase == Done && d.written == e.written
    ensures var h := Stepped(e, false, HostLast(e)); h.phase == Done && h.written == e.written
  {
    SteppedTwo(e, true, GiveUp, SendFree(true));
  }

  function Tasks(c: nat, daemon: bool, steps: seq<Local>): seq<Action> {
    if steps == [] then []
    else [if daemon then OfDaemon(DaemonTask(c, steps[0])) else OfHost(HostTask(c, steps[0]))] + Tasks(c, daemon, steps[1..])
  }

  lemma {:induction false} TasksRun(t: State, c: nat, daemon: bool, steps: seq<Local>)
    requires if daemon then c in t.d.conns else c in t.h.conns
    ensures var u := Run(t, Tasks(c, daemon, steps));
            if daemon then c in u.d.conns && u.d.conns[c] == Stepped(t.d.conns[c], true, steps)
            else c in u.h.conns && u.h.conns[c] == Stepped(t.h.conns[c], false, steps)
    decreases |steps|
  {
    hide Run, DaemonStep, HostStep, New, Tagged;
    if steps == [] {
      RunNone(t);
    } else {
      var a := if daemon then OfDaemon(DaemonTask(c, steps[0])) else OfHost(HostTask(c, steps[0]));
      RunCons(t, a, Tasks(c, daemon, steps[1..]));
      TasksRun(Next(t, a), c, daemon, steps[1..]);
    }
  }

  /** A task that does not bridge yet, or whose sender has left the map. */
  predicate MayFinish(e: End) {
    e.phase != Unborn && (e.phase == Bridging && e.alive ==> Cut(e))
  }

  /** It is done, and what was queued for its bridge has been written. */
  ghost predicate FinishedFrom(e: End, u: End) {
    u.phase == Done && u.written == e.written + if e.phase == Bridging && e.alive then Payload(e.queue) else []
  }

  lemma EndFinishes(e: End)
    requires MayFinish(e)
    ensures FinishedFrom(e, Stepped(e, true, DaemonLast(e))) && FinishedFrom(e, Stepped(e, false, HostLast(e)))
  {
    hide Stepped, BridgeLast, Payload;
    if e.phase == Bridging {
      BridgeFinishes(e, true);
      BridgeFinishes(e, false);
    } else {
      OthersFinish(e);
    }
  }

  /**
   From every state, a connection task that its peer has freed or the listener
   has drained, or that does not bridge yet, can run to its end on its own, and
   then everything that was queued for it has been written.
   */
  lemma TasksFinish(t: State, c: nat)
    ensures c in t.d.conns && MayFinish(t.d.conns[c]) ==>
              var u := Run(t, Tasks(c, true, DaemonLast(t.d.conns[c])));
              c in u.d.conns && FinishedFrom(t.d.conns[c], u.d.conns[c])
    ensures c in t.h.conns && MayFinish(t.h.conns[c]) ==>
              var u := Run(t, Tasks(c, false, HostLast(t.h.conns[c])));
              c in u.h.conns && FinishedFrom(t.h.conns[c], u.h.conns[c])
  {
    hide Run, Stepped, Tasks, MayFinish, FinishedFrom, DaemonLast, HostLast;
    if c in t.d.conns && MayFinish(t.d.conns[c]) {
      TasksRun(t, c, true, DaemonLast(t.d.conns[c]));
      EndFinishes(t.d.conns[c]);
    }
    if c in t.h.conns && MayFinish(t.h.conns[c]) {
      TasksRun(t, c, false, HostLast(t.h.conns[c]));
      EndFinishes(t.h.conns[c]);
    }
  }

  // ------------------------------------------------------------------
  // The end of the forward
  // ------------------------------------------------------------------

  /** From every start, when the host cannot reach its port, both sides take the forward down again. */
  lemma CheckFails(s: State)
    requires Init(s)
    ensures var t := Run(s, Checks(s, false) + Hears(s) + [OfDaemon(Listener(true)), OfHost(Abandon)]);
            && t.d.stage == Over && !t.d.registered && t.d.dispatcher == Off
            && !t.h.entry && !t.h.registered && t.h.dispatcher == Off
  {
    hide Run, Checks, Hears;
    var last := [OfDaemon(Listener(true)), OfHost(Abandon)];
    RunAppend(s, Checks(s, false), Hears(s));
    RunAppend(s, Checks(s, false) + Hears(s), last);
    ChecksRun(s, false);
    HearsRun(s, false);
    var t := Run(s, Checks(s, false) + Hears(s));
    RunCons(t, OfDaemon(Listener(true)), [OfHost(Abandon)]);
    RunOne(Next(t, OfDaemon(Listener(true))), OfHost(Abandon));
    assert [OfDaemon(Listener(true))] + [OfHost(Abandon)] == last;
  }

  /** When its accept loop ends, the listener shuts every connection, stops its dispatcher and leaves the map. */
  lemma ListenerLeaves(t: State)
    requires t.d.stage == Accepting
    ensures var u := Run(t, Repeat(OfDaemon(Listener(true)), 4));
            && u.d.stage == Over && !u.d.registered && u.d.dispatcher == Off && u.h == t.h
            && u.d.conns.Keys == t.d.conns.Keys && forall c :: c in t.d.conns ==> u.d.conns[c] == Shut(t.d.conns[c])
  {
    hide Run, Shut;
    var a := OfDaemon(Listener(true));
    RunRepeat(t, a, 4);
    RunRepeat(Next(t, a), a, 3);
    RunRepeat(Next(Next(t, a), a), a, 2);
    RunRepeat(Next(Next(Next(t, a), a), a), a, 1);
    RunNone(Next(Next(Next(Next(t, a), a), a), a));
    var u := Next(Next(t, a), a);
    assert u.d.stage == Halting && u.d.conns == map c | c in t.d.conns :: Shut(t.d.conns[c]);
  }

  /** From every stage the listener comes to its end, even if every send it still tries fails. */
  lemma {:induction false} ListenerEnds(t: State, n: nat)
    requires t.d.stage == Probing ==> t.d.mail == [] && !t.d.registered
    requires n >= StepsLeft(t.d.stage) && t.d.stage != Over
    ensures var u := Run(t, Repeat(OfDaemon(Listener(false)), n)); u.d.stage == Over && !u.d.registered && u.h == t.h
    decreases n
  {
    hide Run, Shut;
    var u := Next(t, OfDaemon(Listener(false)));
    RunRepeat(t, OfDaemon(Listener(false)), n);
    if u.d.stage == Over { OverStays(u, n - 1); } else { ListenerEnds(u, n - 1); }
  }

  /** How many turns the listener needs to its end. */
  function StepsLeft(stage: Stage): nat {
    match stage
    case Asking => 2
    case Probing => 2
    case Confirming => 5
    case Accepting => 4
    case Draining => 3
    case Halting => 2
    case Leaving => 1
    case Over => 0
  }

  lemma {:induction false} OverStays(t: State, n: nat)
    requires t.d.stage == Over
    ensures Run(t, Repeat(OfDaemon(Listener(false)), n)) == t
    decreases n
  {
    hide Run;
    if n == 0 {
      RunNone(t);
    } else {
      assert t.back + [] == t.back;
      RunRepeat(t, OfDaemon(Listener(false)), n);
      OverStays(t, n - 1);
    }
  }

  /** From every state of the set-up, the host can leave it without an entry and without its channel. */
  lemma SetupLeft(t: State)
    requires t.h.dispatcher == Checking && !t.h.entry
    ensures var u := Next(t, OfHost(if t.h.confirmed then Finish(false) else Abandon));
            && !u.h.entry && !u.h.registered && u.h.dispatcher == Off
            && Run(u, Repeat(RouteUp, |u.back|)) == u.(back := [])
  {
    RoutesNothingUp(Next(t, OfHost(if t.h.confirmed then Finish(false) else Abandon)));
  }

  lemma {:induction false} RoutesNothingUp(t: State)
    requires !t.h.registered
    ensures Run(t, Repeat(RouteUp, |t.back|)) == t.(back := [])
    decreases |t.back|
  {
    hide Run;
    if t.back == [] {
      RunNone(t);
    } else {
      RunRepeat(t, RouteUp, |t.back|);
      RoutesNothingUp(Next(t, RouteUp));
    }
  }

  /** Once the session has ended, nothing more reaches the host's dispatcher. */
  lemma SessionEndCuts(t: State)
    ensures var u := Next(t, OfHost(SessionEnd));
            Run(u, Repeat(RouteUp, |u.back|)) == t.(back := [], h := t.h.(registered := false))
  {
    assert t.wire + [] == t.wire;
    RoutesNothingUp(Next(t, OfHost(SessionEnd)));
  }

  /** The channel has been taken away: the listener is to be aborted, and its mail ends in a Stop. */
  ghost predicate TakenAway(t: State, dispatcher: Dispatcher) {
    !t.d.registered && t.d.aborted && Stop in t.d.mail && t.d.dispatcher == dispatcher
  }

  /** Without a channel nothing more is passed on. */
  lemma {:induction false} RoutesNothing(t: State)
    requires !t.d.registered
    ensures Run(t, Repeat(RouteDown, |t.wire|)) == t.(wire := [])
    decreases |t.wire|
  {
    hide Run;
    if t.wire == [] {
      RunNone(t);
    } else {
      RunRepeat(t, RouteDown, |t.wire|);
      RoutesNothing(Next(t, RouteDown));
    }
  }

  lemma {:induction false} CloseRoutes(t: State)
    requires t.d.registered && Close in t.wire
    ensures var u := Run(t, Repeat(RouteDown, |t.wire|));
            TakenAway(u, t.d.dispatcher) && u.wire == [] && u.h == t.h
    decreases |t.wire|
  {
    hide Run;
    RunRepeat(t, RouteDown, |t.wire|);
    var u := Next(t, RouteDown);
    if t.wire[0] == Close {
      assert u.d.mail[|t.d.mail|] == Stop;
      RoutesNothing(u);
    } else {
      CloseRoutes(u);
    }
  }

  lemma {:induction false} StaysOff(t: State, n: nat)
    requires t.d.dispatcher == Off
    ensures var u := Run(t, Repeat(OfDaemon(DaemonRecv), n));
            u.d.dispatcher == Off && u.h == t.h && u.d.registered == t.d.registered && u.d.stage == t.d.stage
    decreases n
  {
    hide Run;
    if n == 0 {
      RunNone(t);
    } else {
      RunRepeat(t, OfDaemon(DaemonRecv), n);
      StaysOff(Next(t, OfDaemon(DaemonRecv)), n - 1);
    }
  }

  lemma {:induction false} StopStops(t: State)
    requires t.d.dispatcher == Off || (t.d.dispatcher == On && Stop in t.d.mail)
    ensures var u := Run(t, Repeat(OfDaemon(DaemonRecv), |t.d.mail|));
            u.d.dispatcher == Off && u.h == t.h && u.d.registered == t.d.registered && u.d.stage == t.d.stage
    decreases |t.d.mail|
  {
    hide Run, Deliver;
    if t.d.dispatcher == Off {
      StaysOff(t, |t.d.mail|);
    } else {
      RunRepeat(t, OfDaemon(DaemonRecv), |t.d.mail|);
      StopStops(Next(t, OfDaemon(DaemonRecv)));
    }
  }

  /** Removing the entry, routing what is on its way, aborting the listener and dispatching its mail. */
  function Closing(t: State): seq<Action> {
    [OfHost(Remove(true))] + Repeat(RouteDown, |t.wire| + 1) + [OfDaemon(Aborted)]
  }

  /**
   From every state with an entry and a registered listener, the removal of
   the entry ends the forward: its channel, its listener and its
   dispatcher are gone.
   */
  lemma RemovalEnds(t: State) returns (acts: seq<Action>)
    requires t.h.entry && t.d.registered
    ensures Closing(t) <= acts && forall i :: |Closing(t)| <= i < |acts| ==> acts[i] == OfDaemon(DaemonRecv)
    ensures var u := Run(t, acts);
            !u.h.entry && !u.d.registered && u.d.stage == Over && u.d.dispatcher == Off
  {
    hide Run;
    var routes := Repeat(RouteDown, |t.wire| + 1);
    var removed := Next(t, OfHost(Remove(true)));
    RunCons(t, OfHost(Remove(true)), routes);
    assert removed.wire[|t.wire|] == Close;
    CloseRoutes(removed);
    var closed := Run(removed, routes);
    RunAppend(t, [OfHost(Remove(true))] + routes, [OfDaemon(Aborted)]);
    RunOne(closed, OfDaemon(Aborted));
    var over := Run(t, Closing(t));
    var takes := Repeat(OfDaemon(DaemonRecv), |over.d.mail|);
    StopStops(over);
    RunAppend(t, Closing(t), takes);
    acts := Closing(t) + takes;
  }
}
