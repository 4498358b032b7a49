/**
 The reverse forward with its two transports as bytes: every message is packed
 into a frame by its sender, sealed if the session is encrypted, and read and
 parsed by its receiver, among the frames of any other channels. What holds of
 every run on messages holds of every run on bytes.
 */
module RportWire {
  import opened Bytes
  import opened Frames
  import opened RportConnection
  import opened Rport
  import opened ForwardWire
  import Cipher
  import Progress = RportProgress

  // ------------------------------------------------------------------
  // Frames, plain or sealed
  // ------------------------------------------------------------------

  datatype Framing = Clear | Ciphered(a: Cipher.Aead, key: seq<byte>)

  /** The cipher opens what it has sealed, and seals everything. */
  ghost predicate Sound(f: Framing) {
    f.Ciphered? ==> Cipher.Ideal(f.a) && forall n, p :: f.a.seal(f.key, n, p).Some?
  }

  /** A message as it goes out, under the sender's counter `n`. */
  function FrameOf(f: Framing, n: nat, t: TaskMessage): seq<byte>
    requires t.Valid()
  {
    if f.Clear? then Pack(t)
    else
      var x := Cipher.Sealed(f.a, f.key, n, Pack(t));
      if x.Ok? then Cipher.Prefixed(x.value) else []
  }

  /** One message off a socket, and what follows it. */
  function TakeFrame(f: Framing, checked: bool, s: seq<byte>): Option<(TaskMessage, seq<byte>)> {
    if f.Clear? then
      var r := FrameRead(s, checked);
      if r.Ok? then Some(r.value) else None
    else
      var x := Cipher.FrameAt(s);
      if x.Err? then None
      else
        var p := Cipher.Opened(f.a, f.key, x.value.0);
        if p.Err? || Unpack(p.value).Err? then None else Some((Unpack(p.value).value, x.value.1))
  }

  lemma TakesFrame(f: Framing, n: nat, checked: bool, t: TaskMessage, rest: seq<byte>)
    requires Sound(f) && Legal(t) && n < TWO_64
    ensures TakeFrame(f, checked, FrameOf(f, n, t) + rest) == Some((t, rest))
  {
    StreamsReadPack(t, rest);
    UnpackPack(t);
    PackSize(t);
    hide Pack, FrameRead, Unpack, Cipher.Opened, Cipher.FrameAt, Cipher.Prefixed;
    if f.Ciphered? {
      Cipher.OpensSealed(f.a, f.key, n, Pack(t));
      var x := Cipher.Sealed(f.a, f.key, n, Pack(t));
      assert x.Ok?;
      Cipher.FrameReads(x.value, rest);
    }
  }

  lemma PackSize(t: TaskMessage)
    requires Legal(t)
    ensures |Pack(t)| + 24 < TWO_32
  {
  }

  function Encoded(f: Framing, n: nat, ts: seq<TaskMessage>): seq<byte>
    requires AllLegal(ts)
    decreases |ts|
  {
    if ts == [] then [] else FrameOf(f, n, ts[0]) + Encoded(f, Cipher.Next(n), ts[1..])
  }

  lemma {:induction false} EncodedAppend(f: Framing, n: nat, a: seq<TaskMessage>, b: seq<TaskMessage>)
    requires AllLegal(a) && AllLegal(b) && n < TWO_64
    ensures AllLegal(a + b) && Encoded(f, n, a + b) == Encoded(f, n, a) + Encoded(f, Cipher.Wrap(n + |a|), b)
    decreases |a|
  {
    hide FrameOf, Legal, Cipher.Wrap, Cipher.Next;
    if a == [] {
      assert a + b == b;
      WrapSmall(n);
    } else {
      assert (a + b)[1..] == a[1..] + b && (a + b)[0] == a[0];
      Cipher.Wraps(n, |a| - 1);
      EncodedAppend(f, Cipher.Next(n), a[1..], b);
    }
  }

  lemma WrapSmall(n: nat)
    requires n < TWO_64
    ensures Cipher.Wrap(n) == n
  {
  }

  // ------------------------------------------------------------------
  // The forward's messages among those of other channels
  // ------------------------------------------------------------------

  /** What the forward was set up with, and how its session frames each direction. */
  datatype Setting = Setting(channel: nat, local: seq<byte>, remote: seq<byte>, down: Framing, up: Framing) {
    ghost predicate Valid() {
      channel < TWO_32 && |local| + |remote| < 0x1000_0000 && Sound(down) && Sound(up)
    }
  }

  const CHUNK: nat := 4096

  predicate Small(m: Msg) {
    m.Conn? && m.item.Data? ==> |m.item.bytes| <= CHUNK
  }

  predicate ForDaemon(m: Msg) { FromHost(m) && Small(m) }
  predicate ForHost(m: Msg) { FromDaemon(m) && Small(m) }

  lemma HostFrameLegal(g: Setting, m: Msg)
    requires g.Valid() && ForDaemon(m)
    ensures Legal(HostWrites(g.channel, m)) && HostWrites(g.channel, m).channelId == g.channel
  {
    hide ProtectBytes, Sound;
    ProtectLength(HostWrites(g.channel, m));
  }

  lemma DaemonFrameLegal(g: Setting, m: Msg)
    requires g.Valid() && ForHost(m)
    ensures var t := DaemonWrites(g.channel, m, g.local, g.remote); Legal(t) && t.channelId == g.channel
  {
    hide ProtectBytes, Sound;
    ProtectLength(DaemonWrites(g.channel, m, g.local, g.remote));
  }

  ghost predicate AllForDaemon(q: seq<Msg>) {
    forall i :: 0 <= i < |q| ==> ForDaemon(q[i])
  }

  ghost predicate AllForHost(q: seq<Msg>) {
    forall i :: 0 <= i < |q| ==> ForHost(q[i])
  }

  /** The direction of a transport: who writes, who reads. */
  datatype Way = Down | Up

  ghost predicate Fit(w: Way, m: Msg) {
    if w == Down then ForDaemon(m) else ForHost(m)
  }

  function Task(g: Setting, w: Way, m: Msg): TaskMessage
    requires if w == Down then ForDaemon(m) else ForHost(m)
  {
    if w == Down then HostWrites(g.channel, m) else DaemonWrites(g.channel, m, g.local, g.remote)
  }

  lemma TaskLegal(g: Setting, w: Way, m: Msg)
    requires g.Valid() && Fit(w, m)
    ensures Legal(Task(g, w, m)) && Task(g, w, m).channelId == g.channel
  {
    hide Legal;
    if w == Down { HostFrameLegal(g, m); } else { DaemonFrameLegal(g, m); }
  }

  /** What the receiver makes of a message of the forward's channel. */
  function Parsed(w: Way, t: TaskMessage): Option<Msg> {
    if w == Down then DaemonReads(t)
    else
      var r := HostReads(t);
      if r.Some? then Some(r.value.0) else None
  }

  lemma ParsesTask(g: Setting, w: Way, m: Msg)
    requires Fit(w, m)
    ensures Parsed(w, Task(g, w, m)) == Some(m)
  {
    hide DaemonReads, HostReads, HostWrites, DaemonWrites;
    if w == Down { DaemonReadsHost(g.channel, m); } else { HostReadsDaemon(g.channel, m, g.local, g.remote); }
  }

  ghost predicate AllFit(w: Way, q: seq<Msg>) {
    forall i :: 0 <= i < |q| ==> Fit(w, q[i])
  }

  function Tasks(g: Setting, w: Way, q: seq<Msg>): seq<TaskMessage>
    requires AllFit(w, q)
  {
    if q == [] then [] else [Task(g, w, q[0])] + Tasks(g, w, q[1..])
  }

  /** The messages in transit are `q` for the forward, in order, and others for other channels. */
  ghost predicate Carries(g: Setting, w: Way, ts: seq<TaskMessage>, q: seq<Msg>)
    decreases |ts|
  {
    if ts == [] then q == []
    else if ts[0].channelId != g.channel then Carries(g, w, ts[1..], q)
    else q != [] && Fit(w, q[0]) && ts[0] == Task(g, w, q[0]) && Carries(g, w, ts[1..], q[1..])
  }

  lemma {:induction false} CarriesAppend(g: Setting, w: Way, a: seq<TaskMessage>, q: seq<Msg>, b: seq<TaskMessage>, r: seq<Msg>)
    requires Carries(g, w, a, q) && Carries(g, w, b, r)
    ensures Carries(g, w, a + b, q + r)
    decreases |a|
  {
    hide Task, Fit;
    if a == [] {
      assert a + b == b && q + r == r;
    } else {
      assert (a + b)[1..] == a[1..] + b;
      if a[0].channelId != g.channel {
        CarriesAppend(g, w, a[1..], q, b, r);
      } else {
        CarriesAppend(g, w, a[1..], q[1..], b, r);
        assert (q + r)[1..] == q[1..] + r;
      }
    }
  }

  lemma {:induction false} CarriesTasks(g: Setting, w: Way, q: seq<Msg>)
    requires g.Valid() && AllFit(w, q)
    ensures AllLegal(Tasks(g, w, q)) && |Tasks(g, w, q)| == |q| && Carries(g, w, Tasks(g, w, q), q)
  {
    hide Legal, Task, Fit, Sound;
    if q != [] {
      TaskLegal(g, w, q[0]);
      CarriesTasks(g, w, q[1..]);
      assert Tasks(g, w, q)[1..] == Tasks(g, w, q[1..]);
    }
  }

  /** No frame of another channel is among these. */
  ghost predicate AllOwn(g: Setting, ts: seq<TaskMessage>) {
    forall i :: 0 <= i < |ts| ==> ts[i].channelId == g.channel
  }

  lemma {:induction false} TasksOwn(g: Setting, w: Way, q: seq<Msg>)
    requires g.Valid() && AllFit(w, q)
    ensures AllOwn(g, Tasks(g, w, q))
  {
    hide Legal, Task, Fit, Sound;
    if q != [] {
      TaskLegal(g, w, q[0]);
      TasksOwn(g, w, q[1..]);
    }
  }

  // ------------------------------------------------------------------
  // One direction
  // ------------------------------------------------------------------

  /** A transport: the bytes on it, and the sender's counter. */
  datatype Line = Line(bytes: seq<byte>, count: nat)

  function FramingOf(g: Setting, w: Way): Framing {
    if w == Down then g.down else g.up
  }

  function Write(g: Setting, w: Way, l: Line, ts: seq<TaskMessage>): Line
    requires AllLegal(ts)
  {
    Line(l.bytes + Encoded(FramingOf(g, w), l.count, ts), Cipher.Wrap(l.count + |ts|))
  }

  /** The line holds the frames of `ts`, and those carry `q` for the forward. */
  ghost predicate Holds(g: Setting, w: Way, l: Line, n: nat, ts: seq<TaskMessage>, q: seq<Msg>) {
    && n < TWO_64 && AllLegal(ts) && l.bytes == Encoded(FramingOf(g, w), n, ts) && l.count == Cipher.Wrap(n + |ts|)
    && Carries(g, w, ts, q)
  }

  lemma WriteHolds(g: Setting, w: Way, l: Line, n: nat, ts: seq<TaskMessage>, q: seq<Msg>, more: seq<TaskMessage>, r: seq<Msg>)
    requires Holds(g, w, l, n, ts, q) && AllLegal(more) && Carries(g, w, more, r)
    ensures Holds(g, w, Write(g, w, l, more), n, ts + more, q + r)
  {
    hide Encoded, Carries, Cipher.Wrap, AllLegal;
    EncodedAppend(FramingOf(g, w), n, ts, more);
    CarriesAppend(g, w, ts, q, more, r);
    WrapTwice(n + |ts|, |more|);
  }

  lemma WrapTwice(a: nat, b: nat)
    ensures Cipher.Wrap(Cipher.Wrap(a) + b) == Cipher.Wrap(a + b)
  {
    Cipher.AddMultiple(Cipher.Wrap(a) + b, a / TWO_64);
    assert a == a / TWO_64 * TWO_64 + Cipher.Wrap(a);
  }

  /** Reading takes the first frame; it is the forward's next message, or one of another channel. */
  lemma ReadHolds(g: Setting, w: Way, l: Line, n: nat, ts: seq<TaskMessage>, q: seq<Msg>, checked: bool)
    requires g.Valid() && Holds(g, w, l, n, ts, q) && ts != []
    ensures var r := TakeFrame(FramingOf(g, w), checked, l.bytes);
            && r.Some? && r.value.0 == ts[0]
            && (if ts[0].channelId != g.channel
                then Holds(g, w, Line(r.value.1, l.count), Cipher.Next(n), ts[1..], q)
                else q != [] && Parsed(w, ts[0]) == Some(q[0])
                     && Holds(g, w, Line(r.value.1, l.count), Cipher.Next(n), ts[1..], q[1..]))
  {
    hide TakeFrame, FrameOf, Task, Parsed, Fit, Legal, Cipher.Wrap, Cipher.Next;
    TakesFrame(FramingOf(g, w), n, checked, ts[0], Encoded(FramingOf(g, w), Cipher.Next(n), ts[1..]));
    Cipher.Wraps(n, |ts| - 1);
    if ts[0].channelId == g.channel { ParsesTask(g, w, q[0]); }
  }

  lemma ReadNothing(f: Framing, checked: bool)
    ensures TakeFrame(f, checked, []) == None
  {
  }

  /** Identifiers of 32 bits, and reads of at most 4096 bytes. */
  ghost predicate SmallEnds(conns: map<nat, End>) {
    forall c :: c in conns ==> c < TWO_32 && |conns[c].hand| <= CHUNK
  }

  ghost predicate Typed(s: State) {
    && AllForDaemon(s.wire) && AllForHost(s.back) && AllForHost(s.h.inbox)
    && SmallEnds(s.d.conns) && SmallEnds(s.h.conns) && s.d.lid < TWO_32
  }

  /** Connection identifiers are 32-bit numbers. */
  predicate Wide(a: Action) {
    a.OfDaemon? && a.da.Accept? ==> a.da.id < TWO_32
  }

  /** What a step sends: nothing, or one item, data being what was read before. */
  ghost predicate SendsItem(e: End, e': End, first: Item) {
    && |e'.hand| <= CHUNK
    && (New(e, e') == [] || New(e, e') == [first] || New(e, e') == [Free] || New(e, e') == [Data(e.hand)])
  }

  lemma BridgeItems(e: End, a: Local, first: Item)
    requires |e.hand| <= CHUNK
    ensures SendsItem(e, BridgeStep(e, a), first)
  {
  }

  lemma DaemonItems(e: End, a: Local)
    requires |e.hand| <= CHUNK
    ensures SendsItem(e, DaemonStep(e, a), Slave)
  {
    hide BridgeStep;
    BridgeItems(e, a, Slave);
  }

  lemma HostItems(e: End, a: Local)
    requires |e.hand| <= CHUNK
    ensures SendsItem(e, HostStep(e, a), Master)
  {
    hide BridgeStep;
    BridgeItems(e, a, Master);
  }

  lemma TaggedTyped(c: nat, e: End, e': End, first: Item)
    requires c < TWO_32 && |e.hand| <= CHUNK && SendsItem(e, e', first)
    ensures first == Slave ==> AllForHost(Tagged(c, New(e, e')))
    ensures first == Master ==> AllForDaemon(Tagged(c, New(e, e')))
  {
    hide New;
  }

  /** Everything a listener or dispatcher step can do to the ends and to the transport. */
  lemma ListenTyped(d: Daemon, ok: bool)
    requires SmallEnds(d.conns) && d.lid < TWO_32
    ensures AllForHost(Listen(d, ok).1) && SmallEnds(Listen(d, ok).0.conns) && Listen(d, ok).0.lid == d.lid
  {
    assert ForHost(Check(d.lid)) && ForHost(Success);
    hide ForHost;
    if d.stage == Draining {
      DrainTyped(d, ok);
    } else {
      hide SmallEnds;
    }
  }

  lemma DrainTyped(d: Daemon, ok: bool)
    requires SmallEnds(d.conns) && d.stage == Draining
    ensures SmallEnds(Listen(d, ok).0.conns) && Listen(d, ok).0.lid == d.lid && Listen(d, ok).1 == []
  {
  }

  lemma DeliverTyped(conns: map<nat, End>, c: nat, e: End)
    requires SmallEnds(conns) && c < TWO_32 && |e.hand| <= CHUNK
    ensures SmallEnds(conns[c := e])
  {
  }

  lemma DaemonTyped(s: State, da: DaemonAction)
    requires Typed(s) && Wide(OfDaemon(da))
    ensures AllForHost(DaemonNext(s.d, da).1) && SmallEnds(DaemonNext(s.d, da).0.conns)
    ensures DaemonNext(s.d, da).0.lid == s.d.lid
  {
    hide DaemonStep, New, Listen, Tagged, TakeMail, ForHost, ForDaemon, SendsItem;
    var conns := s.d.conns;
    match da
    case Accept(id) => DeliverTyped(conns, id, UNBORN.(phase := Spawned, slot := Present, alive := true));
    case DaemonTask(id, a) =>
      if id in conns {
        DaemonItems(conns[id], a);
        TaggedTyped(id, conns[id], DaemonStep(conns[id], a), Slave);
        HandSmall(conns[id], DaemonStep(conns[id], a), Slave);
        DeliverTyped(conns, id, DaemonStep(conns[id], a));
      }
    case Listener(ok) => ListenTyped(s.d, ok);
    case Aborted =>
    case DaemonRecv => if s.d.mail != [] { RecvTyped(s.d); }
  }

  lemma RecvTyped(d: Daemon)
    requires SmallEnds(d.conns) && d.mail != []
    ensures SmallEnds(TakeMail(d).conns) && TakeMail(d).lid == d.lid
  {
    var m := d.mail[0];
    if m.Conn? && m.id in d.conns {
      DeliverTyped(d.conns, m.id, Deliver(d.conns[m.id], m.item));
      hide Deliver, SmallEnds;
    } else {
      hide Deliver, SmallEnds;
    }
  }

  lemma HandSmall(e: End, e': End, first: Item)
    requires SendsItem(e, e', first)
    ensures |e'.hand| <= CHUNK
  {
  }

  lemma AnswerTyped(h: Host, lid: nat, reachable: bool, ok: bool)
    requires lid < TWO_32
    ensures AllForDaemon(Answer(h, lid, reachable, ok).1)
    ensures Answer(h, lid, reachable, ok).0.conns == h.conns && Answer(h, lid, reachable, ok).0.inbox == h.inbox
  {
  }

  lemma TakeInboxTyped(h: Host, reachable: bool, ok: bool)
    requires SmallEnds(h.conns) && AllForHost(h.inbox) && h.inbox != []
    ensures var n := TakeInbox(h, reachable, ok);
            AllForDaemon(n.1) && SmallEnds(n.0.conns) && AllForHost(n.0.inbox)
  {
    assert ForHost(h.inbox[0]) && AllForHost(h.inbox[1..]);
    var m, t := h.inbox[0], h.(inbox := h.inbox[1..]);
    if m.Check? { AnswerTyped(t, m.lid, reachable, ok); }
    if m.Conn? { DeliverTyped(h.conns, m.id, HostTakes(Get(h.conns, m.id), m.item)); }
    hide ForHost, ForDaemon, Answer, SmallEnds, HostTakes, AllForHost;
  }

  lemma HostTyped(s: State, ha: HostAction)
    requires Typed(s)
    ensures AllForDaemon(HostNext(s.h, ha).1) && SmallEnds(HostNext(s.h, ha).0.conns)
    ensures AllForHost(HostNext(s.h, ha).0.inbox)
  {
    hide HostStep, New, Tagged, TakeInbox, ForHost, SendsItem;
    var conns := s.h.conns;
    match ha
    case HostTask(id, a) =>
      if id in conns {
        HostItems(conns[id], a);
        TaggedTyped(id, conns[id], HostStep(conns[id], a), Master);
        HandSmall(conns[id], HostStep(conns[id], a), Master);
        DeliverTyped(conns, id, HostStep(conns[id], a));
      }
    case HostRecv(reachable, ok) => if s.h.inbox != [] { TakeInboxTyped(s.h, reachable, ok); }
    case _ =>
  }

  // ------------------------------------------------------------------
  // The whole on bytes
  // ------------------------------------------------------------------

  datatype ByteState = ByteState(d: Daemon, h: Host, wire: Line, back: Line)

  /** A step of the forward, or a message of another channel on either transport. */
  datatype ByteAction = Own(a: Action) | Foreign(w: Way, t: TaskMessage)

  ghost function Sending(g: Setting, w: Way, l: Line, q: seq<Msg>): Line
    requires g.Valid()
  {
    if AllFit(w, q) then CarriesTasks(g, w, q); Write(g, w, l, Tasks(g, w, q)) else l
  }

  /** What the receiving main loop hands to the forward, if the frame is its own. */
  function Handed(g: Setting, w: Way, t: TaskMessage): Option<Msg> {
    if t.channelId == g.channel then Parsed(w, t) else None
  }

  ghost function ByteNext(g: Setting, b: ByteState, x: ByteAction): ByteState
    requires g.Valid()
  {
    match x
    case Own(OfDaemon(da)) => var n := DaemonNext(b.d, da); b.(d := n.0, back := Sending(g, Up, b.back, n.1))
    case Own(OfHost(ha)) => var n := HostNext(b.h, ha); b.(h := n.0, wire := Sending(g, Down, b.wire, n.1))
    case Own(RouteDown) =>
      var r := TakeFrame(g.down, true, b.wire.bytes);
      if r.None? then b
      else
        var m := Handed(g, Down, r.value.0);
        b.(wire := Line(r.value.1, b.wire.count), d := if m.Some? then Arrives(b.d, m.value) else b.d)
    case Own(RouteUp) =>
      var r := TakeFrame(g.up, false, b.back.bytes);
      if r.None? then b
      else
        var m := Handed(g, Up, r.value.0);
        b.(back := Line(r.value.1, b.back.count),
           h := if m.Some? && b.h.registered then b.h.(inbox := b.h.inbox + [m.value]) else b.h)
    case Foreign(w, t) =>
      if !Legal(t) || t.channelId == g.channel then b
      else if w == Down then b.(wire := Write(g, Down, b.wire, [t]))
      else b.(back := Write(g, Up, b.back, [t]))
  }

  ghost function ByteRun(g: Setting, b: ByteState, actions: seq<ByteAction>): ByteState
    requires g.Valid()
  {
    if actions == [] then b
    else ByteNext(g, ByteRun(g, b, actions[..|actions| - 1]), actions[|actions| - 1])
  }

  /** What is in transit: start counters and messages of both directions. */
  datatype Transit = Transit(nd: nat, down: seq<TaskMessage>, nu: nat, up: seq<TaskMessage>)

  ghost predicate Shows(g: Setting, b: ByteState, s: State, tr: Transit) {
    && Typed(s) && b.d == s.d && b.h == s.h
    && Holds(g, Down, b.wire, tr.nd, tr.down, s.wire)
    && Holds(g, Up, b.back, tr.nu, tr.up, s.back)
  }

  /** Is the next frame one of the forward's? */
  predicate NextOwn(g: Setting, ts: seq<TaskMessage>) {
    ts != [] && ts[0].channelId == g.channel
  }

  function Rest(ts: seq<TaskMessage>): seq<TaskMessage> {
    if ts == [] then [] else ts[1..]
  }

  predicate WideOwn(x: ByteAction) {
    x.Own? ==> Wide(x.a)
  }

  lemma DaemonShows(g: Setting, b: ByteState, s: State, tr: Transit, da: DaemonAction) returns (tr': Transit)
    requires g.Valid() && Shows(g, b, s, tr) && Wide(OfDaemon(da))
    ensures Shows(g, ByteNext(g, b, Own(OfDaemon(da))), Next(s, OfDaemon(da)), tr')
    ensures tr'.down == tr.down && (AllOwn(g, tr.up) ==> AllOwn(g, tr'.up))
  {
    hide DaemonNext, Holds, Tasks, Write, Carries, Sound, ForHost, ForDaemon;
    DaemonTyped(s, da);
    var out := DaemonNext(s.d, da).1;
    FitUp(out);
    CarriesTasks(g, Up, out);
    TasksOwn(g, Up, out);
    WriteHolds(g, Up, b.back, tr.nu, tr.up, s.back, Tasks(g, Up, out), out);
    AllUp(s.back, out);
    tr' := tr.(up := tr.up + Tasks(g, Up, out));
  }

  lemma HostShows(g: Setting, b: ByteState, s: State, tr: Transit, ha: HostAction) returns (tr': Transit)
    requires g.Valid() && Shows(g, b, s, tr)
    ensures Shows(g, ByteNext(g, b, Own(OfHost(ha))), Next(s, OfHost(ha)), tr')
    ensures tr'.up == tr.up && (AllOwn(g, tr.down) ==> AllOwn(g, tr'.down))
  {
    hide HostNext, Holds, Tasks, Write, Carries, Sound, ForHost, ForDaemon;
    HostTyped(s, ha);
    var out := HostNext(s.h, ha).1;
    FitDown(out);
    CarriesTasks(g, Down, out);
    TasksOwn(g, Down, out);
    WriteHolds(g, Down, b.wire, tr.nd, tr.down, s.wire, Tasks(g, Down, out), out);
    AllDown(s.wire, out);
    tr' := tr.(down := tr.down + Tasks(g, Down, out));
  }

  lemma FitUp(q: seq<Msg>)
    ensures AllFit(Up, q) <==> AllForHost(q)
  {
    hide ForHost;
    if AllForHost(q) { assert forall i :: 0 <= i < |q| ==> Fit(Up, q[i]); }
    if AllFit(Up, q) { assert forall i :: 0 <= i < |q| && Fit(Up, q[i]) ==> ForHost(q[i]); }
  }

  lemma FitDown(q: seq<Msg>)
    ensures AllFit(Down, q) <==> AllForDaemon(q)
  {
    hide ForDaemon;
    if AllForDaemon(q) { assert forall i :: 0 <= i < |q| ==> Fit(Down, q[i]); }
    if AllFit(Down, q) { assert forall i :: 0 <= i < |q| && Fit(Down, q[i]) ==> ForDaemon(q[i]); }
  }

  lemma AllUp(a: seq<Msg>, b: seq<Msg>)
    requires AllForHost(a) && AllForHost(b)
    ensures AllForHost(a + b) && (a != [] ==> AllForHost(a[1..]))
  {
    hide ForHost;
  }

  lemma AllDown(a: seq<Msg>, b: seq<Msg>)
    requires AllForDaemon(a) && AllForDaemon(b)
    ensures AllForDaemon(a + b) && (a != [] ==> AllForDaemon(a[1..]))
  {
    hide ForDaemon;
  }

  /** Reading a frame of the forward is its routing step; reading another changes nothing for it. */
  lemma DownShows(g: Setting, b: ByteState, s: State, tr: Transit) returns (mine: bool, tr': Transit)
    requires g.Valid() && Shows(g, b, s, tr)
    ensures Shows(g, ByteNext(g, b, Own(RouteDown)), if mine then Next(s, RouteDown) else s, tr')
    ensures (mine <==> NextOwn(g, tr.down)) && tr'.down == Rest(tr.down) && tr'.up == tr.up
  {
    hide Holds, Parsed, TakeFrame, Sound, ForHost, ForDaemon;
    if tr.down == [] {
      HoldsNothing(g, Down, b.wire, tr.nd, s.wire);
      ReadNothing(g.down, true);
      return false, tr;
    }
    ReadHolds(g, Down, b.wire, tr.nd, tr.down, s.wire, true);
    mine, tr' := tr.down[0].channelId == g.channel, tr.(nd := Cipher.Next(tr.nd), down := tr.down[1..]);
    AllDown(s.wire, []);
  }

  lemma UpShows(g: Setting, b: ByteState, s: State, tr: Transit) returns (mine: bool, tr': Transit)
    requires g.Valid() && Shows(g, b, s, tr)
    ensures Shows(g, ByteNext(g, b, Own(RouteUp)), if mine then Next(s, RouteUp) else s, tr')
    ensures (mine <==> NextOwn(g, tr.up)) && tr'.up == Rest(tr.up) && tr'.down == tr.down
  {
    hide Holds, Parsed, TakeFrame, Sound, ForHost, ForDaemon;
    if tr.up == [] {
      HoldsNothing(g, Up, b.back, tr.nu, s.back);
      ReadNothing(g.up, false);
      return false, tr;
    }
    ReadHolds(g, Up, b.back, tr.nu, tr.up, s.back, false);
    mine, tr' := tr.up[0].channelId == g.channel, tr.(nu := Cipher.Next(tr.nu), up := tr.up[1..]);
    AllUp(s.back, []);
    if mine { AllUp(s.h.inbox, [s.back[0]]); }
  }

  lemma HoldsNothing(g: Setting, w: Way, l: Line, n: nat, q: seq<Msg>)
    requires Holds(g, w, l, n, [], q)
    ensures l.bytes == [] && q == []
  {
  }

  lemma ForeignShows(g: Setting, b: ByteState, s: State, tr: Transit, w: Way, t: TaskMessage) returns (tr': Transit)
    requires g.Valid() && Shows(g, b, s, tr)
    ensures Shows(g, ByteNext(g, b, Foreign(w, t)), s, tr')
  {
    hide Holds, Write, Sound, Legal;
    tr' := tr;
    if Legal(t) && t.channelId != g.channel {
      assert AllLegal([t]) && Carries(g, w, [t], []) by { assert [t][1..] == []; }
      if w == Down {
        WriteHolds(g, Down, b.wire, tr.nd, tr.down, s.wire, [t], []);
        assert s.wire + [] == s.wire;
        tr' := tr.(down := tr.down + [t]);
      } else {
        WriteHolds(g, Up, b.back, tr.nu, tr.up, s.back, [t], []);
        assert s.back + [] == s.back;
        tr' := tr.(up := tr.up + [t]);
      }
    }
  }

  /** Does this step do something for the forward? Reading another channel's frame does not. */
  predicate Matters(g: Setting, tr: Transit, x: ByteAction) {
    && x.Own?
    && (x.a == RouteDown ==> NextOwn(g, tr.down))
    && (x.a == RouteUp ==> NextOwn(g, tr.up))
  }

  /**
   One step on bytes is that step on messages, or, when it only writes or reads
   a frame of another channel, none; a read takes exactly the first frame.
   */
  lemma ByteStep(g: Setting, b: ByteState, s: State, tr: Transit, x: ByteAction)
    returns (acts: seq<Action>, tr': Transit)
    requires g.Valid() && Shows(g, b, s, tr) && WideOwn(x)
    ensures acts == if Matters(g, tr, x) then [x.a] else []
    ensures x == Own(RouteDown) ==> tr'.down == Rest(tr.down)
    ensures x == Own(RouteUp) ==> tr'.up == Rest(tr.up)
    ensures x.Own? && AllOwn(g, tr.down) && AllOwn(g, tr.up) ==> AllOwn(g, tr'.down) && AllOwn(g, tr'.up)
    ensures Shows(g, ByteNext(g, b, x), if acts == [] then s else Next(s, acts[0]), tr')
  {
    hide Shows, ByteNext, Next;
    match x
    case Own(OfDaemon(da)) => acts := [OfDaemon(da)]; tr' := DaemonShows(g, b, s, tr, da);
    case Own(OfHost(ha)) => acts := [OfHost(ha)]; tr' := HostShows(g, b, s, tr, ha);
    case Own(RouteDown) =>
      var mine, next := DownShows(g, b, s, tr);
      acts, tr' := if mine then [RouteDown] else [], next;
    case Own(RouteUp) =>
      var mine, next := UpShows(g, b, s, tr);
      acts, tr' := if mine then [RouteUp] else [], next;
    case Foreign(w, t) => acts := []; tr' := ForeignShows(g, b, s, tr, w, t);
  }

  /** Where every run starts: nothing in transit. */
  lemma StartShows(g: Setting, s: State)
    requires Init(s) && s.wire == s.back == s.h.inbox == [] && s.d.lid < TWO_32
    ensures Shows(g, ByteState(s.d, s.h, Line([], 0), Line([], 0)), s, Transit(0, [], 0, []))
  {
  }

  /** Every run on bytes is a run on messages. */
  lemma {:induction false} ByteRunIs(g: Setting, b: ByteState, s: State, tr: Transit, actions: seq<ByteAction>)
    returns (acts: seq<Action>, tr': Transit)
    requires g.Valid() && Shows(g, b, s, tr) && forall i :: 0 <= i < |actions| ==> WideOwn(actions[i])
    ensures Shows(g, ByteRun(g, b, actions), Run(s, acts), tr')
  {
    hide Shows, ByteNext, Next;
    if actions == [] {
      return [], tr;
    }
    var n := |actions| - 1;
    var before, mid := ByteRunIs(g, b, s, tr, actions[..n]);
    var last, next := ByteStep(g, ByteRun(g, b, actions[..n]), Run(s, before), mid, actions[n]);
    assert (before + last)[..|before|] == before && (last == [] ==> before + last == before);
    acts, tr' := before + last, next;
  }

  /**
   In every run in which the messages travel as frames, plain or sealed, among
   those of any other channels: for each connection and in both directions, the
   bytes written to one socket are a prefix of the bytes read from the other,
   and a connection freed while receiving was handed everything.
   */
  lemma SocketsArePrefixes(g: Setting, b: ByteState, s: State, tr: Transit, actions: seq<ByteAction>, c: nat)
    requires Init(s) && g.Valid() && Shows(g, b, s, tr) && forall i :: 0 <= i < |actions| ==> WideOwn(actions[i])
    ensures var t := ByteRun(g, b, actions); var d, h := Get(t.d.conns, c), Get(t.h.conns, c);
            && d.written <= h.read && h.written <= d.read
            && (d.slot == Freed && d.alive ==> h.phase == Done && d.written + Payload(d.queue) == Payload(h.sent))
            && (h.slot == Freed && h.alive ==> d.phase == Done && h.written + Payload(h.queue) == Payload(d.sent))
  {
    hide Run, ByteRun, Typed, Holds, Payload;
    var acts, tr' := ByteRunIs(g, b, s, tr, actions);
    StreamsArePrefixes(s, acts, c);
    FreedAfterAll(s, acts, c);
  }

  /**
   And in every such run the bytes in transit are frames that carry queues in
   which nothing is lost on the way to a connection that is still receiving.
   */
  lemma SocketsLoseNothing(g: Setting, b: ByteState, s: State, tr: Transit, actions: seq<ByteAction>, c: nat)
    returns (t: State, tr': Transit)
    requires Init(s) && g.Valid() && Shows(g, b, s, tr) && forall i :: 0 <= i < |actions| ==> WideOwn(actions[i])
    ensures Shows(g, ByteRun(g, b, actions), t, tr')
    ensures var d, h := Get(t.d.conns, c), Get(t.h.conns, c);
            && (t.d.registered && t.d.dispatcher != Off && Open(d) ==> Accounted(h, d, t.d.mail, t.wire, c))
            && (t.h.registered && t.h.dispatcher != Off && Open(h) ==> Accounted(d, h, t.h.inbox, t.back, c))
  {
    hide Run, ByteRun, Shows, Accounted;
    var acts;
    acts, tr' := ByteRunIs(g, b, s, tr, actions);
    t := Run(s, acts);
    NothingLost(s, acts, c);
  }

  // ------------------------------------------------------------------
  // The other way: a run on messages is a run on bytes
  // ------------------------------------------------------------------

  function Owned(acts: seq<Action>): (r: seq<ByteAction>)
    ensures |r| == |acts|
  {
    seq(|acts|, i requires 0 <= i < |acts| => Own(acts[i]))
  }

  ghost predicate AllWide(acts: seq<Action>) {
    forall i :: 0 <= i < |acts| ==> Wide(acts[i])
  }

  /** With no other channel in the way, every run on messages happens on bytes, step for step. */
  lemma {:induction false} OwnRunIs(g: Setting, b: ByteState, s: State, tr: Transit, acts: seq<Action>)
    returns (tr': Transit)
    requires g.Valid() && Shows(g, b, s, tr) && AllWide(acts) && AllOwn(g, tr.down) && AllOwn(g, tr.up)
    ensures Shows(g, ByteRun(g, b, Owned(acts)), Run(s, acts), tr') && AllOwn(g, tr'.down) && AllOwn(g, tr'.up)
  {
    hide Shows, ByteNext, Next, Wide, AllOwn;
    if acts == [] {
      return tr;
    }
    var n := |acts| - 1;
    assert Owned(acts)[..n] == Owned(acts[..n]);
    var mid := OwnRunIs(g, b, s, tr, acts[..n]);
    var s1, b1 := Run(s, acts[..n]), ByteRun(g, b, Owned(acts[..n]));
    var last;
    last, tr' := ByteStep(g, b1, s1, mid, Own(acts[n]));
    if last == [] { NothingToRoute(g, b1, s1, mid, acts[n]); }
  }

  lemma NothingToRoute(g: Setting, b: ByteState, s: State, tr: Transit, a: Action)
    requires Shows(g, b, s, tr) && AllOwn(g, tr.down) && AllOwn(g, tr.up) && !Matters(g, tr, Own(a))
    ensures Next(s, a) == s
  {
    hide Holds, Typed;
    if a == RouteDown { HoldsNothing(g, Down, b.wire, tr.nd, s.wire); }
    if a == RouteUp { HoldsNothing(g, Up, b.back, tr.nu, s.back); }
  }

  lemma SettingUpWide(s: State)
    ensures AllWide(Progress.SettingUp(s))
  {
  }

  lemma {:induction false} TurnsWide(c: nat, traffic: seq<Progress.Chunk>)
    ensures AllWide(Progress.Turns(c, traffic))
  {
    if traffic != [] {
      TurnsWide(c, traffic[..|traffic| - 1]);
    }
  }

  /**
   On a fresh pair of sockets, plain or sealed, the run that sets up the
   forward, opens a connection and carries any traffic writes to each socket
   exactly what was read from the other.
   */
  lemma SocketsDeliver(g: Setting, s: State, c: nat, traffic: seq<Progress.Chunk>)
    requires Init(s) && s.wire == s.back == s.h.inbox == [] && s.d.lid < TWO_32 && g.Valid()
    requires c < TWO_32 && Progress.Chunks(traffic)
    ensures var acts := Progress.SettingUp(s) + (Progress.Announcing(c) + Progress.Activating(c)) + Progress.Turns(c, traffic);
            var t := ByteRun(g, ByteState(s.d, s.h, Line([], 0), Line([], 0)), Owned(acts));
            var d, h := Get(t.d.conns, c), Get(t.h.conns, c);
            && h.written == d.read == Progress.Stream(traffic, true)
            && d.written == h.read == Progress.Stream(traffic, false)
  {
    hide Run, ByteRun, Init, Progress.SettingUp, Progress.Turns, Progress.Stream, Holds, Typed, AllOwn;
    var acts := Progress.SettingUp(s) + (Progress.Announcing(c) + Progress.Activating(c)) + Progress.Turns(c, traffic);
    StartShows(g, s);
    SettingUpWide(s);
    TurnsWide(c, traffic);
    assert AllOwn(g, []) by { NoneForeign(g); }
    var tr := OwnRunIs(g, ByteState(s.d, s.h, Line([], 0), Line([], 0)), s, Transit(0, [], 0, []), acts);
    Progress.Delivers(s, c, traffic);
  }

  lemma NoneForeign(g: Setting)
    ensures AllOwn(g, [])
  {
  }
}
