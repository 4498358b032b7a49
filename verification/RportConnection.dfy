/**
 One connection of a reverse port forward, seen from both ends: the daemon's
 connection task (accepted socket) and the host's bridge (local socket), the
 queues between them, and what every step of either keeps.
 */
module RportConnection {
  import opened Bytes

  /** What the two ends of a connection send each other. */
  datatype Item = Slave | Master | Data(bytes: seq<byte>) | Free

  /**
   Where a task is. The daemon's task is `Spawned` until it has sent
   ForwardActiveSlave and `Waiting` for ForwardActiveMaster; the host's bridge
   is `Spawned` while it dials and `Waiting` between inserting its sender and
   sending ForwardActiveMaster. `Freeing`: ForwardFreeContext is still to send.
   */
  datatype Phase = Unborn | Spawned | Waiting | Bridging | Freeing | Done

  /** The sender of an end in the connection map: not yet inserted, there, freed by the peer, or removed. */
  datatype Slot = Absent | Present | Freed | Removed

  /**
   One end. `queue` is its mpsc channel, `alive` says the receiver still exists,
   `shut` that a Shutdown is queued (nothing can be queued behind it, since the
   sender leaves the map in the same step). `consumed` and `sent` are the items
   taken from the queue and put on the wire; `read` and `written` the bytes the
   socket has seen; `hand` the bytes read but not yet sent.
   */
  datatype End = End(
    phase: Phase, slot: Slot, alive: bool, shut: bool, queue: seq<Item>, consumed: seq<Item>, written: seq<byte>,
    readerOn: bool, hand: seq<byte>, read: seq<byte>, sent: seq<Item>)

  const UNBORN := End(Unborn, Absent, false, false, [], [], [], false, [], [], [])

  // ------------------------------------------------------------------
  // Steps of one end
  // ------------------------------------------------------------------

  datatype Dialed = BadSpec | Refused | Connected

  /** The choices of one end; `ok` is the outcome of a send. */
  datatype Local =
    | Announce(ok: bool)          // daemon: send ActiveSlave; host: send ActiveMaster
    | Dial(outcome: Dialed)       // host: connect to the local port
    | Await                       // daemon: one message while waiting for ActiveMaster
    | GiveUp                      // daemon: timeout, Shutdown or a closed channel while waiting
    | Read(bytes: seq<byte>)      // socket -> hand
    | Send(ok: bool)              // hand -> wire
    | ReaderEnd                   // end of file or read error
    | Write(n: nat)               // queue -> socket, `n` bytes before an error
    | WriterEnd                   // Shutdown, or the sender is gone and the queue drained
    | Join                        // both halves finished: leave the map
    | SendFree(ok: bool)

  function Leave(e: End): End {
    if e.slot == Present then e.(slot := Removed) else e
  }

  function DropReceiver(e: End): End {
    e.(alive := false, queue := [])
  }

  function Emit(e: End, item: Item): End {
    e.(sent := e.sent + [item])
  }

  /** The bridge both ends run once activated, and the final ForwardFreeContext. */
  function BridgeStep(e: End, a: Local): End {
    match a
    case Read(b) =>
      if e.phase == Bridging && e.readerOn && e.hand == [] && 0 < |b| <= 4096 then e.(read := e.read + b, hand := b) else e
    case Send(ok) =>
      if e.phase != Bridging || !e.readerOn || e.hand == [] then e
      else if ok then Emit(e, Data(e.hand)).(hand := [])
      else e.(readerOn := false)
    case ReaderEnd =>
      if e.phase == Bridging && e.hand == [] then e.(readerOn := false) else e
    case Write(n) =>
      if e.phase != Bridging || !e.alive || e.queue == [] then e else Written(e, n)
    case WriterEnd =>
      if e.phase == Bridging && e.alive && e.queue == [] && (e.shut || e.slot == Freed || e.slot == Removed)
      then DropReceiver(e) else e
    case Join =>
      if e.phase == Bridging && !e.readerOn && !e.alive then Leave(e).(phase := Freeing) else e
    case SendFree(ok) =>
      if e.phase != Freeing then e
      else (if ok then Emit(e, Free) else e).(phase := Done)
    case _ => e
  }

  /** `write_all` of the first queued item; an error after `n` bytes ends the writer. */
  function Written(e: End, n: nat): End
    requires e.queue != []
  {
    var taken := e.(queue := e.queue[1..], consumed := e.consumed + [e.queue[0]]);
    match e.queue[0]
    case Data(b) =>
      if n >= |b| then taken.(written := e.written + b)
      else DropReceiver(taken.(written := e.written + b[..n]))
    case _ => taken
  }

  /** run_rport_connection. */
  function DaemonStep(e: End, a: Local): End {
    match a
    case Announce(ok) =>
      if e.phase != Spawned then e
      else if ok then Emit(e, Slave).(phase := Waiting)
      else DropReceiver(Leave(e)).(phase := Done)
    case Await =>
      if e.phase != Waiting || e.queue == [] then e
      else
        var taken := e.(queue := e.queue[1..], consumed := e.consumed + [e.queue[0]]);
        if e.queue[0] == Master then taken.(phase := Bridging, readerOn := true) else taken
    case GiveUp =>
      if e.phase != Waiting then e else DropReceiver(Leave(e)).(phase := Freeing)
    case _ => BridgeStep(e, a)
  }

  /** run_rport_bridge. */
  function HostStep(e: End, a: Local): End {
    match a
    case Dial(outcome) =>
      if e.phase != Spawned then e
      else (match outcome
        case BadSpec => e.(phase := Done)
        case Refused => e.(phase := Freeing)
        case Connected => e.(phase := Waiting, slot := Present, alive := true))
    case Announce(ok) =>
      if e.phase != Waiting then e
      else if ok then Emit(e, Master).(phase := Bridging, readerOn := true)
      else DropReceiver(Leave(e)).(phase := Done)
    case _ => BridgeStep(e, a)
  }

  /** A dispatcher handing `item` to the end registered under the connection id. */
  function Deliver(e: End, item: Item): End {
    if e.slot != Present then e
    else match item
      case Free => e.(slot := Freed)
      case Slave => e
      case _ => if e.alive then e.(queue := e.queue + [item]) else e
  }

  /** The listener's drain: Shutdown to every connection, and out of the map. */
  function Shut(e: End): End {
    if e.slot == Present then e.(slot := Removed, shut := true) else e
  }

  // ------------------------------------------------------------------
  // One connection with its queues
  // ------------------------------------------------------------------

  /** A task that reads a lane: still in the set-up exchange, dispatching, or gone. */
  datatype Dispatcher = Checking | On | Off

  /**
   One direction. `far` is on the transport; the receiving main loop routes its
   head to `near`, the mpsc channel of the forward, while that channel is
   `registered`; the dispatcher takes from `near`.
   */
  datatype Lane = Lane(far: seq<Item>, near: seq<Item>, registered: bool, dispatcher: Dispatcher)

  /** `down`: host to daemon; `up`: daemon to host. */
  datatype View = View(d: End, h: End, down: Lane, up: Lane)

  function Push(l: Lane, items: seq<Item>): Lane {
    l.(far := l.far + items)
  }

  function Route(l: Lane): Lane
    requires l.far != []
  {
    l.(far := l.far[1..], near := if l.registered then l.near + [l.far[0]] else l.near)
  }

  function Pop(l: Lane): Lane
    requires l.near != []
  {
    l.(near := l.near[1..])
  }

  /** Flags only go down, and a dispatcher only goes forward. */
  predicate Closes(l: Lane, l': Lane) {
    && l'.far == l.far && l'.near == l.near
    && (l'.registered ==> l.registered)
    && (l.dispatcher == Off ==> l'.dispatcher == Off)
    && (l'.dispatcher == Checking ==> l.dispatcher == Checking)
  }

  /** What `after` has sent beyond `before`. */
  function New(before: End, after: End): seq<Item> {
    if |after.sent| > |before.sent| then after.sent[|before.sent|..] else []
  }

  function OnDaemon(v: View, a: Local): View {
    var d := DaemonStep(v.d, a);
    v.(d := d, up := Push(v.up, New(v.d, d)))
  }

  function OnHost(v: View, a: Local): View {
    var h := HostStep(v.h, a);
    v.(h := h, down := Push(v.down, New(v.h, h)))
  }

  function OnAccept(v: View): View {
    if v.d == UNBORN && v.down.dispatcher != Checking
    then v.(d := UNBORN.(phase := Spawned, slot := Present, alive := true)) else v
  }

  function OnDaemonDispatch(v: View): View
    requires v.down.near != []
  {
    v.(down := Pop(v.down), d := if v.down.dispatcher == On then Deliver(v.d, v.down.near[0]) else v.d)
  }

  /** The host's dispatcher: ActiveSlave spawns the bridge, the rest is delivered. */
  function OnHostDispatch(v: View): View
    requires v.up.near != []
  {
    v.(up := Pop(v.up), h := if v.up.dispatcher == On then HostTakes(v.h, v.up.near[0]) else v.h)
  }

  function HostTakes(h: End, item: Item): End {
    if item == Slave then (if h == UNBORN then UNBORN.(phase := Spawned) else h)
    else Deliver(h, item)
  }

  // ------------------------------------------------------------------
  // Streams
  // ------------------------------------------------------------------

  /** The activation and the data; not the set-up and tear-down messages. */
  function Core(items: seq<Item>): seq<Item> {
    if items == [] then []
    else
      var rest := Core(items[..|items| - 1]);
      var last := items[|items| - 1];
      if last.Master? || last.Data? then rest + [last] else rest
  }

  function Payload(items: seq<Item>): seq<byte> {
    if items == [] then []
    else
      var rest := Payload(items[..|items| - 1]);
      var last := items[|items| - 1];
      if last.Data? then rest + last.bytes else rest
  }

  lemma CorePush(a: seq<Item>, x: Item)
    ensures Core(a + [x]) == Core(a) + (if x.Master? || x.Data? then [x] else [])
  {
    assert (a + [x])[..|a|] == a;
  }

  lemma PayloadPush(a: seq<Item>, x: Item)
    ensures Payload(a + [x]) == Payload(a) + (if x.Data? then x.bytes else [])
  {
    assert (a + [x])[..|a|] == a;
  }

  lemma {:induction false} CoreSplit(a: seq<Item>, b: seq<Item>)
    ensures Core(a + b) == Core(a) + Core(b)
  {
    if b == [] {
      assert a + b == a;
    } else {
      var n := |b| - 1;
      assert (a + b)[..|a + b| - 1] == a + b[..n];
      CoreSplit(a, b[..n]);
    }
  }

  lemma {:induction false} PayloadSplit(a: seq<Item>, b: seq<Item>)
    ensures Payload(a + b) == Payload(a) + Payload(b)
  {
    if b == [] {
      assert a + b == a;
    } else {
      var n := |b| - 1;
      assert (a + b)[..|a + b| - 1] == a + b[..n];
      PayloadSplit(a, b[..n]);
    }
  }

  lemma {:induction false} PayloadOfCore(a: seq<Item>)
    ensures Payload(Core(a)) == Payload(a)
  {
    if a != [] {
      var n := |a| - 1;
      PayloadOfCore(a[..n]);
      PayloadPush(Core(a[..n]), a[n]);
    }
  }

  lemma PayloadPrefix(a: seq<Item>, b: seq<Item>)
    requires a <= b
    ensures Payload(a) <= Payload(b)
  {
    assert b == a + b[|a|..];
    PayloadSplit(a, b[|a|..]);
  }

  lemma {:induction false} CoreWithin(a: seq<Item>)
    ensures forall i :: 0 <= i < |Core(a)| ==> Core(a)[i] in a
  {
    if a != [] {
      CoreWithin(a[..|a| - 1]);
    }
  }

  lemma CorePop(a: seq<Item>)
    requires a != []
    ensures Core(a) == Core([a[0]]) + Core(a[1..])
    ensures Core([a[0]]) == if a[0].Master? || a[0].Data? then [a[0]] else []
  {
    assert a == [a[0]] + a[1..];
    CoreSplit([a[0]], a[1..]);
    assert [a[0]] == [] + [a[0]];
    CorePush([], a[0]);
  }

  // ------------------------------------------------------------------
  // The invariant
  // ------------------------------------------------------------------

  /** What each end keeps about its own counters and halves. */
  ghost predicate EndInv(e: End) {
    && e.written <= Payload(e.consumed)
    && (e.alive ==> e.written == Payload(e.consumed))
    && (e.readerOn ==> e.phase == Bridging && Payload(e.sent) + e.hand == e.read)
    && Payload(e.sent) <= e.read
    && (!e.alive ==> e.queue == [])
    && (forall i :: 0 <= i < |e.queue| ==> e.queue[i].Master? || e.queue[i].Data?)
    && (Free in e.sent ==> e.phase == Done)
    && (e.shut ==> e.slot == Removed)
    && (e.slot == Absent ==> e.consumed == e.queue == [] && !e.alive && e.phase != Waiting && e.phase != Bridging)
    && (e.phase == Unborn ==> e == UNBORN)
    && (e.phase == Unborn || e.phase == Spawned || e.phase == Waiting ==>
          Core(e.sent) == [] && e.consumed == [] && e.read == e.written == e.hand == [])
  }

  /** The receiver can still be reached, or is not there yet. */
  predicate Open(y: End) {
    y.slot == Absent || (y.slot == Present && y.alive)
  }

  /** The stream from `x` to `y` through lane `l`. */
  ghost predicate Link(x: End, y: End, l: Lane) {
    var got, sent := y.consumed + y.queue, Core(x.sent);
    var on := l.dispatcher != Off && Open(y);
    && got <= sent
    && (on ==> got + Core(l.near) <= sent)
    && (on && l.registered ==> got + Core(l.near) + Core(l.far) == sent)
    && (on && Free in l.near ==> got + Core(l.near) == sent)
    && (y.slot == Freed && y.alive ==> got == sent)
    && (y.slot == Freed ==> x.phase == Done)
    && LastIsFree(l.near + l.far, x.phase)
  }

  /** ForwardFreeContext is the last thing an end sends. */
  ghost predicate LastIsFree(mid: seq<Item>, phase: Phase) {
    && (Free in mid ==> phase == Done)
    && (forall i :: 0 <= i < |mid| - 1 ==> mid[i] != Free)
  }

  ghost predicate StartsWithMaster(s: seq<Item>) {
    s != [] && s[0] == Master
  }

  /** Fresh ids: one ActiveSlave, and it comes first. */
  ghost predicate SlaveFirst(mid: seq<Item>, h: End) {
    forall i :: 0 <= i < |mid| && mid[i] == Slave ==> i == 0 && h == UNBORN
  }

  /** The daemon sends data only after the host's activation. */
  ghost predicate DaemonOrder(d: End) {
    && (d.phase != Unborn ==> d.slot != Absent)
    && (d.phase == Bridging ==> StartsWithMaster(d.consumed))
    && (Core(d.sent) != [] ==> StartsWithMaster(d.consumed))
  }

  /** The host activates only after it has inserted its sender. */
  ghost predicate HostOrder(h: End) {
    && (Core(h.sent) != [] ==> StartsWithMaster(Core(h.sent)) && h.slot != Absent)
    && (h.phase == Bridging ==> Core(h.sent) != [])
    && (h.phase == Spawned ==> h.slot == Absent)
  }

  /** Nothing happens before the daemon's announcement, or before a dispatcher runs. */
  ghost predicate Early(v: View) {
    && (v.d.phase == Unborn || v.d.phase == Spawned ==>
          v.h == UNBORN && v.down.far == v.down.near == v.up.far == v.up.near == [] && v.d.sent == [])
    && (v.down.dispatcher == Checking ==> v.d == UNBORN)
    && (v.up.dispatcher == Checking ==> v.h == UNBORN)
  }

  /** The order of the activation handshake. */
  ghost predicate Handshake(v: View) {
    DaemonOrder(v.d) && HostOrder(v.h) && Early(v) && Slaves(v)
  }

  /** Only the daemon announces, and only as its first message. */
  ghost predicate Slaves(v: View) {
    SlaveFirst(v.up.near + v.up.far, v.h) && Slave !in v.down.near + v.down.far
  }

  ghost predicate Inv(v: View) {
    && EndInv(v.d) && EndInv(v.h)
    && Link(v.h, v.d, v.down)
    && Link(v.d, v.h, v.up)
    && Handshake(v)
  }

  // ------------------------------------------------------------------
  // Links, one event at a time
  // ------------------------------------------------------------------

  lemma FreePush(a: seq<Item>, phase: Phase, item: Item, phase': Phase)
    requires LastIsFree(a, phase) && phase != Done && (item == Free ==> phase' == Done)
    ensures Free !in a && LastIsFree(a + [item], phase')
  {
  }

  lemma FreeMeansDone(a: seq<Item>, b: seq<Item>, phase: Phase)
    requires LastIsFree(a + b, phase) && Free in a
    ensures phase == Done
  {
    assert Free in a + b;
  }

  lemma FreePop(a: seq<Item>, b: seq<Item>, phase: Phase)
    requires LastIsFree(a + b, phase)
    ensures a != [] ==> LastIsFree(a[1..] + b, phase) && (a[0] == Free ==> a[1..] + b == [])
    ensures b != [] ==> LastIsFree(a + b[1..], phase) && (Free in a + [b[0]] ==> b[1..] == [])
  {
    if a != [] {
      assert a[1..] + b == (a + b)[1..];
      assert (a + b)[0] == a[0];
    }
    if b != [] {
      assert b[1..] != [] ==> Free !in (a + b)[..|a| + 1];
      assert (a + b)[..|a| + 1] == a + [b[0]];
      assert (a + [b[0]]) + b[1..] == a + b;
      assert forall i :: 0 <= i < |a| ==> (a + b[1..])[i] == (a + b)[i];
      assert forall i :: |a| <= i < |a + b[1..]| ==> (a + b[1..])[i] == (a + b)[i + 1];
    }
  }

  lemma Regroup(a: seq<Item>, b: seq<Item>, c: seq<Item>, d: seq<Item>)
    ensures a + b + (c + d) == a + (b + c) + d
  {
  }

  lemma CoreNil()
    ensures Core([]) == [] && Payload([]) == []
  {
  }

  /** The sender puts one more item on the transport. */
  lemma LinkSend(x: End, x': End, y: End, l: Lane, item: Item)
    requires Link(x, y, l)
    requires x'.sent == x.sent + [item] && x.phase != Done && (item == Free ==> x'.phase == Done)
    ensures Link(x', y, Push(l, [item]))
  {
    hide Core;
    CorePush(x.sent, item);
    CorePush(l.far, item);
    assert l.near + (l.far + [item]) == l.near + l.far + [item];
    FreePush(l.near + l.far, x.phase, item, x'.phase);
    var got := y.consumed + y.queue;
    if l.dispatcher != Off && Open(y) && l.registered {
      var last := Core(l.far + [item])[|Core(l.far)|..];
      assert got + Core(l.near) + Core(l.far + [item]) == got + Core(l.near) + Core(l.far) + last;
    }
  }

  /** The router moves the head of the transport, or drops it. */
  lemma LinkRoute(x: End, y: End, l: Lane)
    requires Link(x, y, l) && l.far != []
    ensures Link(x, y, Route(l))
  {
    hide Core, LastIsFree;
    CorePush(l.near, l.far[0]);
    CorePop(l.far);
    CoreNil();
    FreePop(l.near, l.far, x.phase);
    var got, next, rest := y.consumed + y.queue, l.near + [l.far[0]], l.far[1..];
    if l.registered {
      assert l.near + l.far == next + rest;
      Regroup(got, Core(l.near), Core([l.far[0]]), Core(rest));
      var on := l.dispatcher != Off && Open(y);
      assert on ==> got + Core(next) + Core(rest) == Core(x.sent);
      assert on && Free in next ==> got + Core(next) + [] == Core(x.sent);
    }
  }

  /** An item reaches the queue of a connection that is still receiving. */
  lemma LinkDeliver(x: End, y: End, l: Lane)
    requires Link(x, y, l) && l.near != [] && l.dispatcher != Off
    requires y.slot == Present && y.alive && l.near[0] != Slave && l.near[0] != Free
    ensures Link(x, y.(queue := y.queue + [l.near[0]]), Pop(l))
  {
    hide Core, LastIsFree;
    CorePop(l.near);
    FreePop(l.near, l.far, x.phase);
    var item, rest, got := l.near[0], l.near[1..], y.consumed + y.queue;
    assert l.near == [item] + rest;
    assert y.consumed + (y.queue + [item]) == got + [item];
    assert got + ([item] + Core(rest)) == got + [item] + Core(rest);
  }

  /** ForwardFreeContext comes last, so nothing is cut off. */
  lemma LinkFreed(x: End, y: End, l: Lane)
    requires Link(x, y, l) && l.near != [] && l.dispatcher != Off
    requires y.slot == Present && l.near[0] == Free
    ensures Link(x, y.(slot := Freed), Pop(l))
  {
    hide Core, LastIsFree;
    CorePop(l.near);
    CoreNil();
    FreePop(l.near, l.far, x.phase);
    assert l.near == [Free] + l.near[1..];
    FreeMeansDone(l.near, l.far, x.phase);
    assert y.consumed + y.queue + Core(l.near) == y.consumed + y.queue;
  }

  /** The connection is not there (yet, or any more): the item is dropped. */
  lemma LinkSkip(x: End, y: End, l: Lane)
    requires Link(x, y, l) && l.near != []
    requires y.slot == Absent ==> Core(x.sent) == []
    requires l.dispatcher == Off || y.slot != Present || !y.alive
    ensures Link(x, y, Pop(l))
  {
    hide Core, LastIsFree;
    CorePop(l.near);
    FreePop(l.near, l.far, x.phase);
  }

  /** The dispatcher takes the head of the near queue. */
  lemma LinkDispatch(x: End, y: End, l: Lane)
    requires Link(x, y, l) && l.near != []
    requires y.slot == Absent ==> Core(x.sent) == []
    requires y.slot == Present ==> l.near[0] != Slave
    ensures Link(x, if l.dispatcher != Off then Deliver(y, l.near[0]) else y, Pop(l))
  {
    hide Core, Link;
    if l.dispatcher == Off || y.slot != Present || (!y.alive && l.near[0] != Free) {
      LinkSkip(x, y, l);
    } else if l.near[0] == Free {
      LinkFreed(x, y, l);
    } else {
      LinkDeliver(x, y, l);
    }
  }

  /** Steps that put nothing on the lane and take nothing off it. */
  lemma LinkFrame(x: End, x': End, y: End, y': End, l: Lane, l': Lane)
    requires Link(x, y, l) && Closes(l, l')
    requires x'.sent == x.sent && (x.phase == Done ==> x'.phase == Done)
    requires Quiet(y, y')
    ensures Link(x', y', l')
  {
  }

  // ------------------------------------------------------------------
  // Ends, one step at a time
  // ------------------------------------------------------------------

  /** How a step of an end can look from outside. */
  ghost predicate Quiet(e: End, e': End) {
    && (e.phase == Done ==> e'.phase == Done)
    && e'.consumed + e'.queue <= e.consumed + e.queue
    && (Open(e') ==> Open(e) && e'.consumed + e'.queue == e.consumed + e.queue)
    && (e'.slot == Freed <==> e.slot == Freed)
    && (e'.slot == Freed && e'.alive ==> e.alive && e'.consumed + e'.queue == e.consumed + e.queue)
    && (e.slot != Absent ==> e'.slot != Absent)
  }

  /** Nothing sent, or one item sent. */
  ghost predicate Sends(e: End, e': End) {
    || (e'.sent == e.sent)
    || (exists item :: e'.sent == e.sent + [item] && e.phase != Done && (item == Free <==> e'.phase == Done))
  }

  lemma TakeStep(e: End, n: nat)
    requires EndInv(e) && e.queue != [] && e.phase == Bridging
    ensures EndInv(Written(e, n)) && Quiet(e, Written(e, n)) && Written(e, n).sent == e.sent
  {
    hide Payload, Core;
    var e' := Written(e, n);
    var item := e.queue[0];
    PayloadPush(e.consumed, item);
    assert e.consumed + [item] + e.queue[1..] == e.consumed + e.queue;
  }

  lemma SentOne(e: End, e': End, item: Item)
    requires e'.sent == e.sent + [item] && e.phase != Done && (item == Free <==> e'.phase == Done)
    ensures Sends(e, e')
  {
  }

  lemma BridgeKeeps(e: End, a: Local)
    requires EndInv(e)
    ensures var e' := BridgeStep(e, a); EndInv(e') && Quiet(e, e') && Sends(e, e')
  {
    hide Core, Payload, Sends, Written;
    var e' := BridgeStep(e, a);
    if e' == e || a.Read? || a.ReaderEnd? || a.WriterEnd? || a.Join? {
      SentNone(e, e');
    } else if a.Send? {
      PayloadPush(e.sent, Data(e.hand));
      if a.ok { SentOne(e, e', Data(e.hand)); } else { SentNone(e, e'); }
    } else if a.Write? {
      TakeStep(e, a.n);
      SentNone(e, e');
    } else {
      PayloadPush(e.sent, Free);
      if a.ok { SentOne(e, e', Free); } else { SentNone(e, e'); }
    }
  }

  lemma SentNone(e: End, e': End)
    requires e'.sent == e.sent
    ensures Sends(e, e')
  {
  }

  /** While the daemon waits, the only thing that can reach it first is the activation. */
  lemma FirstIsMaster(v: View)
    requires Inv(v) && v.d.phase == Waiting && v.d.queue != []
    ensures v.d.queue[0] == Master
  {
    hide Core;
    assert (v.d.consumed + v.d.queue)[0] == Core(v.h.sent)[0];
  }

  lemma AnnounceKeeps(e: End, ok: bool)
    requires EndInv(e) && e.phase == Spawned && e.slot != Absent
    ensures var e' := DaemonStep(e, Announce(ok)); EndInv(e') && Quiet(e, e') && Sends(e, e')
  {
    hide Core, Payload, Sends;
    var e' := DaemonStep(e, Announce(ok));
    PayloadPush(e.sent, Slave);
    CorePush(e.sent, Slave);
    if ok { SentOne(e, e', Slave); } else { SentNone(e, e'); }
  }

  lemma AwaitKeeps(e: End)
    requires EndInv(e) && e.phase == Waiting && e.slot != Absent && e.queue != [] && e.queue[0] == Master
    ensures var e' := DaemonStep(e, Await); EndInv(e') && Quiet(e, e') && Sends(e, e')
  {
    hide Core, Payload, Sends;
    PayloadPush(e.consumed, Master);
    assert e.consumed + [Master] + e.queue[1..] == e.consumed + e.queue;
    SentNone(e, DaemonStep(e, Await));
  }

  lemma DaemonEndKeeps(e: End, a: Local)
    requires EndInv(e) && (e.phase != Unborn ==> e.slot != Absent)
    requires e.phase == Waiting && e.queue != [] ==> e.queue[0] == Master
    ensures var e' := DaemonStep(e, a); EndInv(e') && Quiet(e, e') && Sends(e, e')
  {
    hide Core, Payload, Sends, BridgeStep;
    if a.Announce? && e.phase == Spawned {
      AnnounceKeeps(e, a.ok);
    } else if a.Await? && e.phase == Waiting && e.queue != [] {
      AwaitKeeps(e);
    } else if a.Announce? || a.Await? || a.GiveUp? {
      SentNone(e, DaemonStep(e, a));
    } else {
      BridgeKeeps(e, a);
    }
  }

  lemma HostEndKeeps(e: End, a: Local)
    requires EndInv(e) && (e.phase == Spawned ==> e.slot == Absent)
    ensures var e' := HostStep(e, a); EndInv(e') && Quiet(e, e') && Sends(e, e')
  {
    hide Core, Payload, Sends, BridgeStep;
    var e' := HostStep(e, a);
    if a.Announce? && e.phase == Waiting {
      PayloadPush(e.sent, Master);
      if a.ok { SentOne(e, e', Master); } else { SentNone(e, e'); }
    } else if a.Announce? || a.Dial? {
      CoreNil();
      SentNone(e, e');
    } else {
      BridgeKeeps(e, a);
    }
  }

  // ------------------------------------------------------------------
  // The invariant, one event at a time
  // ------------------------------------------------------------------

  /** A step of the sending end, seen on its lane. */
  lemma LinkStep(x: End, x': End, y: End, l: Lane)
    requires Link(x, y, l) && Quiet(x, x') && Sends(x, x')
    ensures Link(x', y, Push(l, New(x, x')))
  {
    hide Link, Core;
    if x'.sent == x.sent {
      assert Push(l, []) == l;
      LinkFrame(x, x', y, y, l, l);
    } else {
      var item :| x'.sent == x.sent + [item] && x.phase != Done && (item == Free <==> x'.phase == Done);
      assert New(x, x') == [item];
      LinkSend(x, x', y, l, item);
    }
  }

  lemma DaemonKeeps(v: View, a: Local)
    requires Inv(v)
    ensures Inv(OnDaemon(v, a))
  {
    hide Link, EndInv, Sends, Quiet;
    if v.d.phase == Waiting && v.d.queue != [] { FirstIsMaster(v); }
    DaemonEndKeeps(v.d, a);
    var d' := DaemonStep(v.d, a);
    LinkFrame(v.h, v.h, v.d, d', v.down, v.down);
    LinkStep(v.d, d', v.h, v.up);
    DaemonHandshake(v, a);
  }

  lemma HostKeeps(v: View, a: Local)
    requires Inv(v)
    ensures Inv(OnHost(v, a))
  {
    hide Link, EndInv, Sends, Quiet;
    HostEndKeeps(v.h, a);
    var h' := HostStep(v.h, a);
    LinkFrame(v.d, v.d, v.h, h', v.up, v.up);
    LinkStep(v.h, h', v.d, v.down);
    HostHandshake(v, a);
  }

  /** How far a step takes an end through the handshake; `first` is its announcement. */
  ghost predicate Moves(e: End, e': End, first: Item, from: Phase) {
    && e.consumed <= e'.consumed
    && (e.phase == Unborn <==> e'.phase == Unborn)
    && (e.phase == Unborn || e'.phase == Spawned ==> e' == e)
    && (e'.sent == e.sent
        || (e'.sent == e.sent + [first] && e.phase == from)
        || (e'.sent == e.sent + [Free] && e.phase == Freeing)
        || (e.phase == Bridging && e'.sent == e.sent + [Data(e.hand)]))
  }

  lemma BridgeMoves(e: End, a: Local, first: Item, from: Phase)
    requires EndInv(e)
    ensures Moves(e, BridgeStep(e, a), first, from)
    ensures BridgeStep(e, a).phase == Bridging ==> e.phase == Bridging
    ensures BridgeStep(e, a).slot == Absent <==> e.slot == Absent
  {
    hide Core, Payload, EndInv;
  }

  lemma DaemonMoves(e: End, a: Local)
    requires EndInv(e)
    requires e.phase == Waiting && e.queue != [] ==> e.queue[0] == Master
    ensures Moves(e, DaemonStep(e, a), Slave, Spawned)
    ensures DaemonStep(e, a).phase == Bridging ==> e.phase == Bridging || DaemonStep(e, a).consumed == [Master]
    ensures DaemonStep(e, a).slot == Absent <==> e.slot == Absent
  {
    hide Core, Payload, BridgeStep;
    BridgeMoves(e, a, Slave, Spawned);
  }

  lemma HostMoves(e: End, a: Local)
    requires EndInv(e) && (e.phase == Spawned ==> e.slot == Absent)
    ensures Moves(e, HostStep(e, a), Master, Waiting)
    ensures HostStep(e, a).phase == Bridging ==> e.phase == Bridging || HostStep(e, a).sent == e.sent + [Master]
    ensures e.slot != Absent ==> HostStep(e, a).slot != Absent
  {
    hide Core, Payload, BridgeStep;
    BridgeMoves(e, a, Master, Waiting);
  }

  lemma DaemonOrderKeeps(e: End, a: Local)
    requires EndInv(e) && DaemonOrder(e) && (e.phase == Waiting && e.queue != [] ==> e.queue[0] == Master)
    requires e.phase == Spawned ==> e.sent == []
    ensures DaemonOrder(DaemonStep(e, a))
  {
    hide EndInv, DaemonStep, Core;
    DaemonMoves(e, a);
    CoreNil();
    var e' := DaemonStep(e, a);
    if e'.sent != e.sent { CorePush(e.sent, e'.sent[|e.sent|]); }
  }

  lemma HostOrderKeeps(e: End, a: Local)
    requires EndInv(e) && HostOrder(e) && (e.phase == Waiting ==> Core(e.sent) == [] && e.slot != Absent)
    ensures HostOrder(HostStep(e, a))
  {
    hide EndInv, HostStep, Core;
    HostMoves(e, a);
    var e' := HostStep(e, a);
    if e'.sent != e.sent { CorePush(e.sent, e'.sent[|e.sent|]); }
  }

  lemma DaemonSlaves(v: View, a: Local)
    requires Early(v) && Slaves(v) && Moves(v.d, DaemonStep(v.d, a), Slave, Spawned)
    ensures Slaves(OnDaemon(v, a)) && Early(OnDaemon(v, a))
  {
    hide DaemonStep;
    var d' := DaemonStep(v.d, a);
    if d'.sent != v.d.sent {
      var item := d'.sent[|v.d.sent|];
      assert New(v.d, d') == [item];
      assert v.up.near + (v.up.far + [item]) == (v.up.near + v.up.far) + [item];
    } else {
      assert v.up.far + [] == v.up.far;
    }
  }

  lemma DaemonHandshake(v: View, a: Local)
    requires Inv(v)
    ensures Handshake(OnDaemon(v, a))
  {
    hide Link, EndInv, DaemonStep, Core, Payload, Slaves, DaemonOrder, HostOrder;
    if v.d.phase == Waiting && v.d.queue != [] { FirstIsMaster(v); }
    DaemonMoves(v.d, a);
    DaemonOrderKeeps(v.d, a);
    DaemonSlaves(v, a);
  }

  lemma HostSlaves(v: View, a: Local)
    requires Early(v) && Slaves(v) && Moves(v.h, HostStep(v.h, a), Master, Waiting)
    ensures Slaves(OnHost(v, a)) && Early(OnHost(v, a))
  {
    hide HostStep;
    var h' := HostStep(v.h, a);
    if h'.sent != v.h.sent {
      var item := h'.sent[|v.h.sent|];
      assert New(v.h, h') == [item];
      assert v.down.near + (v.down.far + [item]) == (v.down.near + v.down.far) + [item];
    } else {
      assert v.down.far + [] == v.down.far;
    }
  }

  lemma HostHandshake(v: View, a: Local)
    requires Inv(v)
    ensures Handshake(OnHost(v, a))
  {
    hide Link, HostStep, Core, Payload, Slaves, DaemonOrder, Early;
    HostMoves(v.h, a);
    HostOrderKeeps(v.h, a);
    HostSlaves(v, a);
  }

  lemma AcceptKeeps(v: View)
    requires Inv(v)
    ensures Inv(OnAccept(v))
  {
    hide Core, Payload;
    CoreNil();
  }

  lemma RouteDownKeeps(v: View)
    requires Inv(v) && v.down.far != []
    ensures Inv(v.(down := Route(v.down)))
  {
    hide Link, Core, EndInv;
    LinkRoute(v.h, v.d, v.down);
    assert v.down.near + v.down.far == (v.down.near + [v.down.far[0]]) + v.down.far[1..];
  }

  lemma RouteUpKeeps(v: View)
    requires Inv(v) && v.up.far != []
    ensures Inv(v.(up := Route(v.up)))
  {
    hide Link, Core, EndInv;
    LinkRoute(v.d, v.h, v.up);
    var mid, next := v.up.near + v.up.far, Route(v.up);
    assert v.up.registered ==> next.near + next.far == mid;
    assert !v.up.registered ==> forall i :: 0 <= i < |next.near| ==> (next.near + next.far)[i] == mid[i];
    assert !v.up.registered ==> forall i :: |next.near| <= i < |mid| - 1 ==> (next.near + next.far)[i] == mid[i + 1];
  }

  lemma DeliverKeeps(e: End, item: Item)
    requires EndInv(e) && item != Slave
    ensures EndInv(Deliver(e, item))
  {
    hide Core, Payload;
  }

  lemma DaemonDispatchKeeps(v: View)
    requires Inv(v) && v.down.near != []
    ensures Inv(OnDaemonDispatch(v))
  {
    hide Link, Core, Payload;
    var item, v' := v.down.near[0], OnDaemonDispatch(v);
    assert item == (v.down.near + v.down.far)[0];
    DeliverKeeps(v.d, item);
    assert v.d.slot == Absent ==> Core(v.h.sent) == [] by { CoreNil(); }
    LinkDispatch(v.h, v.d, v.down);
    LinkFrame(v.d, v'.d, v.h, v.h, v.up, v.up);
    assert v'.down.near + v'.down.far == (v.down.near + v.down.far)[1..];
  }

  lemma HostDispatchKeeps(v: View)
    requires Inv(v) && v.up.near != []
    ensures Inv(OnHostDispatch(v))
  {
    hide Link, Core, Payload;
    var item, v' := v.up.near[0], OnHostDispatch(v);
    assert item == (v.up.near + v.up.far)[0];
    assert v'.up.near + v'.up.far == (v.up.near + v.up.far)[1..];
    assert v.h.slot == Absent ==> Core(v.d.sent) == [] by { HostFirst(v); }
    LinkDispatch(v.d, v.h, v.up);
    if item == Slave {
      CoreNil();
      LinkFrame(v.d, v.d, v.h, v'.h, v'.up, v'.up);
    } else {
      DeliverKeeps(v.h, item);
    }
    LinkFrame(v.h, v'.h, v.d, v.d, v.down, v.down);
  }

  /** The daemon has nothing to say before the host has inserted its sender. */
  lemma HostFirst(v: View)
    requires Inv(v)
    ensures Core(v.d.sent) != [] ==> v.h.slot != Absent
  {
    hide Core, Payload;
    assert Core(v.d.sent) != [] ==> (v.d.consumed + v.d.queue)[0] == Master;
  }

  lemma ShutKeeps(v: View)
    requires Inv(v)
    ensures Inv(v.(d := Shut(v.d)))
  {
    hide Link, Core, Payload;
    LinkFrame(v.h, v.h, v.d, Shut(v.d), v.down, v.down);
    LinkFrame(v.d, Shut(v.d), v.h, v.h, v.up, v.up);
  }

  lemma ClosingKeeps(v: View, down: Lane, up: Lane)
    requires Inv(v) && Closes(v.down, down) && Closes(v.up, up)
    ensures Inv(v.(down := down, up := up))
  {
    hide Link, EndInv, Core;
    LinkFrame(v.h, v.h, v.d, v.d, v.down, down);
    LinkFrame(v.d, v.d, v.h, v.h, v.up, up);
  }

  // ------------------------------------------------------------------
  // What the invariant promises
  // ------------------------------------------------------------------

  /** One direction: a prefix, whatever happens. */
  lemma WrittenIsPrefix(x: End, y: End, l: Lane)
    requires EndInv(x) && EndInv(y) && Link(x, y, l)
    ensures y.written <= x.read
  {
    PayloadPrefix(y.consumed, y.consumed + y.queue);
    PayloadPrefix(y.consumed + y.queue, Core(x.sent));
    PayloadOfCore(x.sent);
  }

  /** One direction: nothing is lost on the way to a connection that is still receiving. */
  lemma Conserved(x: End, y: End, l: Lane)
    requires EndInv(x) && EndInv(y) && Link(x, y, l)
    requires Open(y) && l.registered && l.dispatcher != Off
    ensures Payload(x.sent) == Payload(y.consumed) + Payload(y.queue) + Payload(l.near) + Payload(l.far)
    ensures x.readerOn && y.alive ==>
              x.read == y.written + Payload(y.queue) + Payload(l.near) + Payload(l.far) + x.hand
  {
    hide Core, Payload;
    var got := y.consumed + y.queue;
    PayloadSplit(y.consumed, y.queue);
    PayloadSplit(got, Core(l.near));
    PayloadSplit(got + Core(l.near), Core(l.far));
    PayloadOfCore(l.near);
    PayloadOfCore(l.far);
    PayloadOfCore(x.sent);
  }

  /** One direction: a connection that was freed while receiving has been handed everything. */
  lemma FreedComplete(x: End, y: End, l: Lane)
    requires EndInv(x) && EndInv(y) && Link(x, y, l)
    requires y.slot == Freed && y.alive
    ensures x.phase == Done && y.written + Payload(y.queue) == Payload(x.sent)
  {
    hide Core, Payload;
    PayloadSplit(y.consumed, y.queue);
    PayloadOfCore(x.sent);
  }
}
