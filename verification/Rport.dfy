/**
 A whole reverse port forward: the daemon's listener task, its dispatcher and
 its connection tasks, the host's set-up loop, dispatcher and bridges, and the
 queues between them, as one step system. Any task may take the next step.
 */
module Rport {
  import opened Bytes
  import opened RportConnection

  /** Everything that travels on the forward's channel; `Stop` only inside the daemon. */
  datatype Msg =
    | Conn(id: nat, item: Item)
    | Check(lid: nat)
    | CheckResult(lid: nat, ok: bool)
    | Success
    | Close
    | Stop

  /** Where the listener task is. */
  datatype Stage = Asking | Probing | Confirming | Accepting | Draining | Halting | Leaving | Over

  /** `heard`: the listener got a positive result carrying its own id `lid`. */
  datatype Daemon = Daemon(
    conns: map<nat, End>, mail: seq<Msg>, registered: bool, dispatcher: Dispatcher,
    lid: nat, stage: Stage, aborted: bool, heard: bool)

  /**
   `inbox` is the response channel; `dispatcher` is `Checking` during set-up.
   `reached`: the ids for which the host has sent a positive result.
   */
  datatype Host = Host(
    conns: map<nat, End>, inbox: seq<Msg>, registered: bool, dispatcher: Dispatcher,
    confirmed: bool, entry: bool, reached: set<nat>)

  datatype State = State(d: Daemon, h: Host, wire: seq<Msg>, back: seq<Msg>)

  function Get(ends: map<nat, End>, c: nat): End {
    if c in ends then ends[c] else UNBORN
  }

  function Tagged(c: nat, items: seq<Item>): (q: seq<Msg>)
    ensures |q| == |items|
  {
    seq(|items|, i requires 0 <= i < |items| => Conn(c, items[i]))
  }

  // ------------------------------------------------------------------
  // Steps of the daemon, with what it sends
  // ------------------------------------------------------------------

  /** One step of the listener task outside `recv` and `accept`; `ok`: its send succeeds. */
  function Listen(d: Daemon, ok: bool): (Daemon, seq<Msg>) {
    match d.stage
    case Asking =>
      if ok then (d.(stage := Probing), [Check(d.lid)]) else (d.(stage := Leaving, dispatcher := Off), [])
    case Probing =>
      (if d.mail == [] && !d.registered then d.(stage := Leaving, dispatcher := Off) else d, [])
    case Confirming => (d.(stage := Accepting, dispatcher := On), if ok then [Success] else [])
    case Accepting => (d.(stage := Draining), [])
    case Draining => (d.(conns := map c | c in d.conns :: Shut(d.conns[c]), stage := Halting), [])
    case Halting => (d.(dispatcher := Off, stage := Leaving), [])
    case Leaving => (d.(registered := false, stage := Over), [])
    case Over => (d, [])
  }

  /** The listener (while probing) or the dispatcher receives. */
  function TakeMail(d: Daemon): Daemon
    requires d.mail != []
  {
    var m, t := d.mail[0], d.(mail := d.mail[1..]);
    match d.dispatcher
    case Off => t
    case Checking =>
      if d.stage != Probing then d
      else if m == Stop || m == CheckResult(d.lid, false) then t.(stage := Leaving, dispatcher := Off)
      else if m == CheckResult(d.lid, true) then t.(stage := Confirming, heard := true)
      else t
    case On =>
      if m == Stop then t.(dispatcher := Off)
      else if m.Conn? && m.id in d.conns then t.(conns := d.conns[m.id := Deliver(d.conns[m.id], m.item)])
      else t
  }

  /** The daemon's main loop: handle_forward_task and handle_channel_close. */
  function Arrives(d: Daemon, m: Msg): Daemon {
    if !d.registered then d
    else if m == Close then d.(mail := d.mail + [Stop], registered := false, aborted := true)
    else if m.Conn? || m.CheckResult? then d.(mail := d.mail + [m])
    else d
  }

  datatype DaemonAction =
    | Accept(id: nat)              // a connection arrives, under a fresh id
    | DaemonTask(id: nat, a: Local)
    | Listener(ok: bool)
    | Aborted                      // the abort requested by a close takes effect
    | DaemonRecv

  /** A step that is not enabled changes nothing. */
  function DaemonNext(d: Daemon, a: DaemonAction): (Daemon, seq<Msg>) {
    match a
    case Accept(id) =>
      (if d.stage == Accepting && id !in d.conns
       then d.(conns := d.conns[id := UNBORN.(phase := Spawned, slot := Present, alive := true)]) else d, [])
    case DaemonTask(id, l) =>
      if id !in d.conns then (d, [])
      else
        var e := DaemonStep(d.conns[id], l);
        (d.(conns := d.conns[id := e]), Tagged(id, New(d.conns[id], e)))
    case Listener(ok) => Listen(d, ok)
    case Aborted =>
      (if d.aborted then d.(stage := Over, dispatcher := if d.dispatcher == Checking then Off else d.dispatcher) else d, [])
    case DaemonRecv => (if d.mail == [] then d else TakeMail(d), [])
  }

  // ------------------------------------------------------------------
  // Steps of the host
  // ------------------------------------------------------------------

  /** ForwardCheck; `reachable`: the local port accepts; `ok`: the answer is sent. */
  function Answer(h: Host, lid: nat, reachable: bool, ok: bool): (Host, seq<Msg>) {
    if ok then (if reachable then h.(reached := h.reached + {lid}) else h, [CheckResult(lid, reachable)]) else (h, [])
  }

  /** The host's set-up loop or dispatcher receives. */
  function TakeInbox(h: Host, reachable: bool, ok: bool): (Host, seq<Msg>)
    requires h.inbox != []
  {
    var m, t := h.inbox[0], h.(inbox := h.inbox[1..]);
    match h.dispatcher
    case Off => (t, [])
    case Checking =>
      if h.confirmed then (h, [])
      else if m.Check? then Answer(t, m.lid, reachable, ok)
      else if m == Success then (t.(confirmed := true), [])
      else (t, [])
    case On =>
      if m.Check? then Answer(t, m.lid, reachable, ok)
      else if m.Conn? then (t.(conns := h.conns[m.id := HostTakes(Get(h.conns, m.id), m.item)]), [])
      else (t, [])
  }

  datatype HostAction =
    | HostTask(id: nat, a: Local)
    | HostRecv(reachable: bool, ok: bool)
    | Finish(ok: bool)             // the host reports the result to its client
    | Abandon                      // set-up timeout or error
    | Remove(ok: bool)             // the entry is removed; `ok`: the close is sent
    | SessionEnd                   // the session's response channels are dropped

  function HostNext(h: Host, a: HostAction): (Host, seq<Msg>) {
    match a
    case HostTask(id, l) =>
      if id !in h.conns then (h, [])
      else
        var e := HostStep(h.conns[id], l);
        (h.(conns := h.conns[id := e]), Tagged(id, New(h.conns[id], e)))
    case HostRecv(reachable, ok) => if h.inbox == [] then (h, []) else TakeInbox(h, reachable, ok)
    case Finish(ok) =>
      (if h.dispatcher != Checking || !h.confirmed then h
       else if ok then h.(entry := true, dispatcher := On)
       else h.(registered := false, dispatcher := Off), [])
    case Abandon =>
      (if h.dispatcher != Checking || h.confirmed then h else h.(registered := false, dispatcher := Off), [])
    case Remove(ok) =>
      (h.(entry := false), if h.entry && ok then [Close] else [])
    case SessionEnd => (h.(registered := false), [])
  }

  // ------------------------------------------------------------------
  // The whole
  // ------------------------------------------------------------------

  datatype Action = OfDaemon(da: DaemonAction) | OfHost(ha: HostAction) | RouteDown | RouteUp

  function Next(s: State, a: Action): State {
    match a
    case OfDaemon(da) => var n := DaemonNext(s.d, da); s.(d := n.0, back := s.back + n.1)
    case OfHost(ha) => var n := HostNext(s.h, ha); s.(h := n.0, wire := s.wire + n.1)
    case RouteDown => if s.wire == [] then s else s.(wire := s.wire[1..], d := Arrives(s.d, s.wire[0]))
    case RouteUp =>
      if s.back == [] then s
      else s.(back := s.back[1..], h := if s.h.registered then s.h.(inbox := s.h.inbox + [s.back[0]]) else s.h)
  }

  function Run(s: State, actions: seq<Action>): State {
    if actions == [] then s
    else Next(Run(s, actions[..|actions| - 1]), actions[|actions| - 1])
  }

  /** Left over from an earlier forward: checks and results under other ids. */
  ghost predicate Stale(q: seq<Msg>, lid: nat) {
    forall i :: 0 <= i < |q| ==> (q[i].Check? || q[i].CheckResult?) && q[i].lid != lid
  }

  ghost predicate Init(s: State) {
    && s.d == Daemon(map[], s.d.mail, true, Checking, s.d.lid, Asking, false, false)
    && s.h == Host(map[], s.h.inbox, true, Checking, false, false, {})
    && Stale(s.wire, s.d.lid) && Stale(s.d.mail, s.d.lid) && Stale(s.back, s.d.lid) && Stale(s.h.inbox, s.d.lid)
  }

  // ------------------------------------------------------------------
  // One connection of the whole
  // ------------------------------------------------------------------

  function Items(q: seq<Msg>, c: nat): seq<Item> {
    if q == [] then []
    else (if q[0].Conn? && q[0].id == c then [q[0].item] else []) + Items(q[1..], c)
  }

  function Down(d: Daemon, wire: seq<Msg>, c: nat): Lane {
    Lane(Items(wire, c), Items(d.mail, c), d.registered, d.dispatcher)
  }

  function Up(h: Host, back: seq<Msg>, c: nat): Lane {
    Lane(Items(back, c), Items(h.inbox, c), h.registered, h.dispatcher)
  }

  function At(s: State, c: nat): View {
    View(Get(s.d.conns, c), Get(s.h.conns, c), Down(s.d, s.wire, c), Up(s.h, s.back, c))
  }

  lemma {:induction false} ItemsAppend(a: seq<Msg>, b: seq<Msg>, c: nat)
    ensures Items(a + b, c) == Items(a, c) + Items(b, c)
  {
    if a == [] {
      assert a + b == b;
    } else {
      assert (a + b)[1..] == a[1..] + b;
      ItemsAppend(a[1..], b, c);
    }
  }

  lemma ItemsPush(q: seq<Msg>, m: Msg, c: nat)
    ensures Items(q + [m], c) == if m.Conn? && m.id == c then Items(q, c) + [m.item] else Items(q, c)
  {
    assert [m][1..] == [];
    ItemsAppend(q, [m], c);
  }

  lemma ItemsPop(q: seq<Msg>, c: nat)
    requires q != []
    ensures q[0].Conn? && q[0].id == c ==> Items(q, c) != [] && Items(q, c)[0] == q[0].item && Items(q, c)[1..] == Items(q[1..], c)
    ensures !(q[0].Conn? && q[0].id == c) ==> Items(q, c) == Items(q[1..], c)
  {
  }

  lemma {:induction false} ItemsTagged(b: nat, items: seq<Item>, c: nat)
    ensures Items(Tagged(b, items), c) == if b == c then items else []
  {
    if items != [] {
      assert Tagged(b, items)[1..] == Tagged(b, items[1..]);
      ItemsTagged(b, items[1..], c);
    }
  }

  lemma {:induction false} ItemsStale(q: seq<Msg>, lid: nat, c: nat)
    requires Stale(q, lid)
    ensures Items(q, c) == []
  {
    if q != [] {
      ItemsStale(q[1..], lid, c);
    }
  }

  // ------------------------------------------------------------------
  // Every step of the whole is a step, or nothing, for each connection
  // ------------------------------------------------------------------

  /** Nothing for `c` is sent, and its own end and queue are untouched. */
  ghost predicate DaemonQuiet(d: Daemon, d': Daemon, out: seq<Msg>, c: nat) {
    && Items(out, c) == [] && Get(d'.conns, c) == Get(d.conns, c)
    && Closes(Down(d, [], c), Down(d', [], c))
  }

  ghost predicate HostQuiet(h: Host, h': Host, out: seq<Msg>, c: nat) {
    && Items(out, c) == [] && Get(h'.conns, c) == Get(h.conns, c)
    && Closes(Up(h, [], c), Up(h', [], c))
  }

  lemma ItemsNil(c: nat)
    ensures Items([], c) == []
  {
  }

  lemma NoItems(m: Msg, c: nat)
    requires m.Conn? ==> m.id != c
    ensures Items([m], c) == []
  {
    assert [] + [m] == [m];
    ItemsPush([], m, c);
  }

  lemma ListenQuiet(d: Daemon, ok: bool, c: nat)
    requires (d.stage == Confirming ==> d.dispatcher == Checking) && d.stage != Draining
    ensures DaemonQuiet(d, Listen(d, ok).0, Listen(d, ok).1, c)
  {
    NoItems(Check(d.lid), c);
    NoItems(Success, c);
  }

  lemma DrainAt(d: Daemon, ok: bool, c: nat)
    requires d.stage == Draining
    ensures var n := Listen(d, ok); Get(n.0.conns, c) == Shut(Get(d.conns, c)) && n.0.mail == d.mail && n.1 == []
  {
  }

  lemma TakeMailQuiet(d: Daemon, c: nat)
    requires d.mail != [] && (d.mail[0].Conn? ==> d.mail[0].id != c || TakeMail(d) == d)
    ensures DaemonQuiet(d, TakeMail(d), [], c)
  {
    hide Items, Deliver;
    ItemsNil(c);
    ItemsPop(d.mail, c);
  }

  lemma TakeMailAt(d: Daemon, wire: seq<Msg>, c: nat)
    requires d.mail != [] && d.mail[0].Conn? && d.mail[0].id == c && TakeMail(d) != d
    ensures var l, t := Down(d, wire, c), TakeMail(d);
            && l.near != [] && Down(t, wire, c) == Pop(l)
            && Get(t.conns, c) == if d.dispatcher == On then Deliver(Get(d.conns, c), l.near[0]) else Get(d.conns, c)
  {
    hide Items, Deliver;
    ItemsPop(d.mail, c);
    Undelivered(d.mail[0].item);
  }

  lemma Undelivered(item: Item)
    ensures Deliver(UNBORN, item) == UNBORN
  {
  }

  lemma ArrivesQuiet(d: Daemon, m: Msg, c: nat)
    requires m.Conn? ==> m.id != c
    ensures DaemonQuiet(d, Arrives(d, m), [], c)
  {
    ItemsPush(d.mail, m, c);
    ItemsPush(d.mail, Stop, c);
  }

  lemma TakeInboxQuiet(h: Host, reachable: bool, ok: bool, c: nat)
    requires h.inbox != []
    requires h.inbox[0].Conn? ==> h.inbox[0].id != c || TakeInbox(h, reachable, ok) == (h, [])
    ensures var n := TakeInbox(h, reachable, ok); HostQuiet(h, n.0, n.1, c)
  {
    hide Items, HostTakes;
    ItemsNil(c);
    ItemsPop(h.inbox, c);
    if h.inbox[0].Check? { NoItems(CheckResult(h.inbox[0].lid, reachable), c); }
  }

  lemma TakeInboxAt(h: Host, back: seq<Msg>, reachable: bool, ok: bool, c: nat)
    requires h.inbox != [] && h.inbox[0].Conn? && h.inbox[0].id == c && TakeInbox(h, reachable, ok) != (h, [])
    ensures var l, n := Up(h, back, c), TakeInbox(h, reachable, ok);
            && l.near != [] && Up(n.0, back, c) == Pop(l) && n.1 == []
            && Get(n.0.conns, c) == if h.dispatcher == On then HostTakes(Get(h.conns, c), l.near[0]) else Get(h.conns, c)
  {
    hide Items, HostTakes;
    ItemsPop(h.inbox, c);
  }

  lemma DaemonQuietKeeps(s: State, t: State, out: seq<Msg>, c: nat)
    requires Inv(At(s, c)) && DaemonQuiet(s.d, t.d, out, c)
    requires t.h == s.h && t.back == s.back + out && Items(t.wire, c) == Items(s.wire, c)
    ensures Inv(At(t, c))
  {
    hide Inv, Items;
    ItemsAppend(s.back, out, c);
    ClosingKeeps(At(s, c), At(t, c).down, At(t, c).up);
    assert At(t, c) == At(s, c).(down := At(t, c).down, up := At(t, c).up);
  }

  lemma HostQuietKeeps(s: State, t: State, out: seq<Msg>, c: nat)
    requires Inv(At(s, c)) && HostQuiet(s.h, t.h, out, c)
    requires t.d == s.d && t.wire == s.wire + out && Items(t.back, c) == Items(s.back, c)
    ensures Inv(At(t, c))
  {
    hide Inv, Items;
    ItemsAppend(s.wire, out, c);
    ClosingKeeps(At(s, c), At(t, c).down, At(t, c).up);
    assert At(t, c) == At(s, c).(down := At(t, c).down, up := At(t, c).up);
  }

  lemma DaemonTaskAt(s: State, id: nat, a: Local, c: nat)
    requires Inv(At(s, c)) && id in s.d.conns
    ensures Inv(At(Next(s, OfDaemon(DaemonTask(id, a))), c))
  {
    hide Inv, Items, DaemonStep, New, Tagged;
    var v, t := At(s, c), Next(s, OfDaemon(DaemonTask(id, a)));
    var items := New(s.d.conns[id], DaemonStep(s.d.conns[id], a));
    ItemsAppend(s.back, Tagged(id, items), c);
    ItemsTagged(id, items, c);
    if id == c {
      DaemonKeeps(v, a);
      assert At(t, c) == OnDaemon(v, a);
    } else {
      assert At(t, c) == v;
    }
  }

  lemma HostTaskAt(s: State, id: nat, a: Local, c: nat)
    requires Inv(At(s, c)) && id in s.h.conns
    ensures Inv(At(Next(s, OfHost(HostTask(id, a))), c))
  {
    hide Inv, Items, HostStep, New, Tagged;
    var v, t := At(s, c), Next(s, OfHost(HostTask(id, a)));
    var items := New(s.h.conns[id], HostStep(s.h.conns[id], a));
    ItemsAppend(s.wire, Tagged(id, items), c);
    ItemsTagged(id, items, c);
    if id == c {
      HostKeeps(v, a);
      assert At(t, c) == OnHost(v, a);
    } else {
      assert At(t, c) == v;
    }
  }

  lemma AcceptAt(s: State, id: nat, c: nat)
    requires Inv(At(s, c)) && s.d.stage == Accepting && s.d.dispatcher != Checking && id !in s.d.conns
    ensures Inv(At(Next(s, OfDaemon(Accept(id))), c))
  {
    hide Inv, Items;
    AcceptKeeps(At(s, c));
    assert s.back + [] == s.back;
    assert At(Next(s, OfDaemon(Accept(id))), c) == if id == c then OnAccept(At(s, c)) else At(s, c);
  }

  lemma ListenerAt(s: State, ok: bool, c: nat)
    requires Inv(At(s, c)) && (s.d.stage == Confirming ==> s.d.dispatcher == Checking)
    ensures Inv(At(Next(s, OfDaemon(Listener(ok))), c))
  {
    hide Inv, Items, Listen, DaemonQuiet;
    var t, n := Next(s, OfDaemon(Listener(ok))), Listen(s.d, ok);
    if s.d.stage == Draining {
      DrainAt(s.d, ok, c);
      ShutKeeps(At(s, c));
      assert s.back + [] == s.back;
      assert At(t, c) == At(s, c).(d := Shut(At(s, c).d)) by { DrainFlags(s.d, ok); }
    } else {
      ListenQuiet(s.d, ok, c);
      DaemonQuietKeeps(s, t, n.1, c);
    }
  }

  lemma DrainFlags(d: Daemon, ok: bool)
    requires d.stage == Draining
    ensures var n := Listen(d, ok).0; n.registered == d.registered && n.dispatcher == d.dispatcher
  {
  }

  lemma DaemonRecvAt(s: State, c: nat)
    requires Inv(At(s, c)) && s.d.mail != []
    ensures Inv(At(Next(s, OfDaemon(DaemonRecv)), c))
  {
    hide Inv, Items, TakeMail, DaemonQuiet;
    var m, t := s.d.mail[0], Next(s, OfDaemon(DaemonRecv));
    assert s.back + [] == s.back;
    if m.Conn? && m.id == c && TakeMail(s.d) != s.d {
      TakeMailAt(s.d, s.wire, c);
      DaemonDispatchKeeps(At(s, c));
      assert At(t, c) == OnDaemonDispatch(At(s, c));
    } else {
      TakeMailQuiet(s.d, c);
      DaemonQuietKeeps(s, t, [], c);
    }
  }

  lemma HostRecvAt(s: State, reachable: bool, ok: bool, c: nat)
    requires Inv(At(s, c)) && s.h.inbox != []
    ensures Inv(At(Next(s, OfHost(HostRecv(reachable, ok))), c))
  {
    hide Inv, Items, TakeInbox, HostQuiet;
    var m, t, n := s.h.inbox[0], Next(s, OfHost(HostRecv(reachable, ok))), TakeInbox(s.h, reachable, ok);
    if m.Conn? && m.id == c && n != (s.h, []) {
      TakeInboxAt(s.h, s.back, reachable, ok, c);
      HostDispatchKeeps(At(s, c));
      assert s.wire + [] == s.wire;
      assert At(t, c) == OnHostDispatch(At(s, c));
    } else {
      TakeInboxQuiet(s.h, reachable, ok, c);
      HostQuietKeeps(s, t, n.1, c);
    }
  }

  lemma AbortedAt(s: State, c: nat)
    requires Inv(At(s, c))
    ensures Inv(At(Next(s, OfDaemon(Aborted)), c))
  {
    hide Inv;
    DaemonQuietKeeps(s, Next(s, OfDaemon(Aborted)), [], c);
  }

  lemma HostFlagsAt(s: State, a: HostAction, c: nat)
    requires Inv(At(s, c)) && (a.Finish? || a.Abandon? || a.Remove? || a.SessionEnd?)
    ensures Inv(At(Next(s, OfHost(a)), c))
  {
    hide Inv, Items;
    ItemsNil(c);
    NoItems(Close, c);
    HostQuietKeeps(s, Next(s, OfHost(a)), HostNext(s.h, a).1, c);
  }

  lemma RouteDownAt(s: State, c: nat)
    requires Inv(At(s, c)) && s.wire != []
    ensures Inv(At(Next(s, RouteDown), c))
  {
    hide Inv, Items, DaemonQuiet;
    var m, v, t := s.wire[0], At(s, c), Next(s, RouteDown);
    ItemsPop(s.wire, c);
    if m.Conn? && m.id == c {
      ItemsPush(s.d.mail, m, c);
      RouteDownKeeps(v);
      assert At(t, c) == v.(down := Route(v.down));
    } else {
      ArrivesQuiet(s.d, m, c);
      assert s.back + [] == s.back;
      DaemonQuietKeeps(s, t, [], c);
    }
  }

  lemma RouteUpAt(s: State, c: nat)
    requires Inv(At(s, c)) && s.back != []
    ensures Inv(At(Next(s, RouteUp), c))
  {
    hide Inv, Items;
    var m, v, t := s.back[0], At(s, c), Next(s, RouteUp);
    ItemsPop(s.back, c);
    ItemsPush(s.h.inbox, m, c);
    if m.Conn? && m.id == c {
      RouteUpKeeps(v);
      assert At(t, c) == v.(up := Route(v.up));
    } else {
      assert At(t, c) == v;
    }
  }

  // ------------------------------------------------------------------
  // The set-up exchange
  // ------------------------------------------------------------------

  /** A positive result, or a success, on its way was earned. */
  ghost predicate Honest(q: seq<Msg>, s: State) {
    forall i :: 0 <= i < |q| ==>
      && (q[i] == CheckResult(s.d.lid, true) ==> s.d.lid in s.h.reached)
      && (q[i] == Success ==> s.d.heard)
  }

  /** Who has heard what, and which task runs when. */
  ghost predicate Setup(s: State) {
    && (s.d.stage == Confirming ==> s.d.dispatcher == Checking)
    && (s.d.stage == Accepting ==> s.d.dispatcher != Checking)
    && (s.d.stage == Confirming || s.d.stage == Accepting ==> s.d.heard)
    && (s.h.confirmed || s.h.entry || s.h.dispatcher == On ==> s.d.heard)
    && (s.d.heard ==> s.d.lid in s.h.reached)
    && Honest(s.wire, s) && Honest(s.d.mail, s) && Honest(s.back, s) && Honest(s.h.inbox, s)
  }

  lemma ListenerSetup(s: State, ok: bool)
    requires Setup(s)
    ensures Setup(Next(s, OfDaemon(Listener(ok))))
  {
  }

  /** What has been heard and reached stays so. */
  lemma HonestLater(q: seq<Msg>, s: State, t: State)
    requires Honest(q, s)
    requires t.d.lid == s.d.lid && s.h.reached <= t.h.reached && (s.d.heard ==> t.d.heard)
    ensures Honest(q, t) && (q != [] ==> Honest(q[1..], t))
  {
  }

  lemma DaemonRecvSetup(s: State)
    requires Setup(s)
    ensures Setup(Next(s, OfDaemon(DaemonRecv)))
  {
    if s.d.mail != [] {
      var t := Next(s, OfDaemon(DaemonRecv));
      assert s.d.mail[0] == CheckResult(s.d.lid, true) ==> s.d.lid in s.h.reached;
      hide Deliver, Honest;
      assert s.back + [] == s.back;
      HonestLater(s.wire, s, t);
      HonestLater(s.d.mail, s, t);
      HonestLater(s.back, s, t);
      HonestLater(s.h.inbox, s, t);
    }
  }

  lemma DaemonSetup(s: State, a: DaemonAction)
    requires Setup(s)
    ensures Setup(Next(s, OfDaemon(a)))
  {
    hide DaemonStep, Listen, TakeMail, New;
    if a.Listener? { ListenerSetup(s, a.ok); }
    if a.DaemonRecv? { DaemonRecvSetup(s); }
  }

  lemma HonestPush(q: seq<Msg>, m: Msg, s: State)
    requires Honest(q, s) && (m == CheckResult(s.d.lid, true) ==> s.d.lid in s.h.reached) && m != Success
    ensures Honest(q + [m], s)
  {
  }

  lemma HostRecvSetup(s: State, reachable: bool, ok: bool)
    requires Setup(s) && s.h.inbox != []
    ensures Setup(Next(s, OfHost(HostRecv(reachable, ok))))
  {
    var t, m := Next(s, OfHost(HostRecv(reachable, ok))), s.h.inbox[0];
    assert m == Success ==> s.d.heard;
    hide HostTakes, Honest;
    assert s.wire + [] == s.wire;
    HonestLater(s.wire, s, t);
    HonestLater(s.d.mail, s, t);
    HonestLater(s.back, s, t);
    HonestLater(s.h.inbox, s, t);
    if |t.wire| > |s.wire| { HonestPush(s.wire, CheckResult(m.lid, reachable), t); }
  }

  lemma HostSetup(s: State, a: HostAction)
    requires Setup(s)
    ensures Setup(Next(s, OfHost(a)))
  {
    hide HostStep, TakeInbox, New;
    if a.HostRecv? && s.h.inbox != [] { HostRecvSetup(s, a.reachable, a.ok); }
  }

  lemma RouteSetup(s: State)
    requires Setup(s)
    ensures Setup(Next(s, RouteDown)) && Setup(Next(s, RouteUp))
  {
  }

  // ------------------------------------------------------------------
  // Every run
  // ------------------------------------------------------------------

  ghost predicate Good(s: State) {
    && Setup(s)
    && (forall c: nat :: Inv(At(s, c)))
  }

  lemma InitGood(s: State)
    requires Init(s)
    ensures Good(s)
  {
    hide Inv, At;
    forall c: nat ensures Inv(At(s, c)) {
      InitAt(s, c);
    }
  }

  lemma InitAt(s: State, c: nat)
    requires Init(s)
    ensures Inv(At(s, c))
  {
    hide Items;
    ItemsStale(s.wire, s.d.lid, c);
    ItemsStale(s.d.mail, s.d.lid, c);
    ItemsStale(s.back, s.d.lid, c);
    ItemsStale(s.h.inbox, s.d.lid, c);
    FreshInv(Lane([], [], true, Checking));
    assert At(s, c) == View(UNBORN, UNBORN, Lane([], [], true, Checking), Lane([], [], true, Checking));
  }

  lemma FreshInv(l: Lane)
    requires l.far == l.near == []
    ensures Inv(View(UNBORN, UNBORN, l, l))
  {
  }

  lemma DaemonAt(s: State, a: DaemonAction, c: nat)
    requires Setup(s) && Inv(At(s, c))
    ensures Inv(At(Next(s, OfDaemon(a)), c))
  {
    hide Inv, At;
    assert s.back + [] == s.back;
    match a
    case Accept(id) => if s.d.stage == Accepting && id !in s.d.conns { AcceptAt(s, id, c); }
    case DaemonTask(id, l) => if id in s.d.conns { DaemonTaskAt(s, id, l, c); }
    case Listener(ok) => ListenerAt(s, ok, c);
    case Aborted => AbortedAt(s, c);
    case DaemonRecv => if s.d.mail != [] { DaemonRecvAt(s, c); }
  }

  lemma HostAt(s: State, a: HostAction, c: nat)
    requires Inv(At(s, c))
    ensures Inv(At(Next(s, OfHost(a)), c))
  {
    hide Inv, At;
    assert s.wire + [] == s.wire;
    match a
    case HostTask(id, l) => if id in s.h.conns { HostTaskAt(s, id, l, c); }
    case HostRecv(reachable, ok) => if s.h.inbox != [] { HostRecvAt(s, reachable, ok, c); }
    case _ => HostFlagsAt(s, a, c);
  }

  lemma NextGood(s: State, a: Action)
    requires Good(s)
    ensures Good(Next(s, a))
  {
    hide Inv, At, Setup, Next;
    match a
    case OfDaemon(da) => DaemonSetup(s, da); forall c: nat ensures Inv(At(Next(s, a), c)) { DaemonAt(s, da, c); }
    case OfHost(ha) => HostSetup(s, ha); forall c: nat ensures Inv(At(Next(s, a), c)) { HostAt(s, ha, c); }
    case RouteDown =>
      RouteSetup(s);
      forall c: nat ensures Inv(At(Next(s, a), c)) { RouteAt(s, c); }
    case RouteUp =>
      RouteSetup(s);
      forall c: nat ensures Inv(At(Next(s, a), c)) { RouteAt(s, c); }
  }

  lemma RouteAt(s: State, c: nat)
    requires Inv(At(s, c))
    ensures Inv(At(Next(s, RouteDown), c)) && Inv(At(Next(s, RouteUp), c))
  {
    hide Inv, At;
    if s.wire != [] { RouteDownAt(s, c); }
    if s.back != [] { RouteUpAt(s, c); }
  }

  /** Every reachable state is good. */
  lemma {:induction false} RunGood(s: State, actions: seq<Action>)
    requires Init(s)
    ensures Good(Run(s, actions))
  {
    hide Good, Init, Next;
    if actions == [] {
      InitGood(s);
    } else {
      var n := |actions| - 1;
      RunGood(s, actions[..n]);
      NextGood(Run(s, actions[..n]), actions[n]);
    }
  }

  /**
   In every interleaving, for each connection and in both directions, the bytes
   written to one socket are a prefix of the bytes read from the other.
   */
  lemma StreamsArePrefixes(s: State, actions: seq<Action>, c: nat)
    requires Init(s)
    ensures var t := Run(s, actions);
            && Get(t.d.conns, c).written <= Get(t.h.conns, c).read
            && Get(t.h.conns, c).written <= Get(t.d.conns, c).read
  {
    hide Run, Items, Link, EndInv;
    RunGood(s, actions);
    var v := At(Run(s, actions), c);
    WrittenIsPrefix(v.h, v.d, v.down);
    WrittenIsPrefix(v.d, v.h, v.up);
  }

  /** Where the bytes read from one socket are, on their way to the other. */
  ghost predicate Accounted(x: End, y: End, near: seq<Msg>, far: seq<Msg>, c: nat) {
    && Payload(x.sent) == Payload(y.consumed) + Payload(y.queue) + Payload(Items(near, c)) + Payload(Items(far, c))
    && (x.readerOn && y.alive ==>
          x.read == y.written + Payload(y.queue) + Payload(Items(near, c)) + Payload(Items(far, c)) + x.hand)
  }

  /**
   In every interleaving, nothing sent to a connection is lost while its channel
   is routed, its dispatcher has not ended and it is still receiving: every byte
   read is written, queued, on its way, or in the reader's hand, in order.
   */
  lemma NothingLost(s: State, actions: seq<Action>, c: nat)
    requires Init(s)
    ensures var t := Run(s, actions); var d, h := Get(t.d.conns, c), Get(t.h.conns, c);
            && (t.d.registered && t.d.dispatcher != Off && Open(d) ==> Accounted(h, d, t.d.mail, t.wire, c))
            && (t.h.registered && t.h.dispatcher != Off && Open(h) ==> Accounted(d, h, t.h.inbox, t.back, c))
  {
    hide Run, Items, Link, EndInv, Payload;
    RunGood(s, actions);
    var t := Run(s, actions);
    var v := At(t, c);
    if t.d.registered && t.d.dispatcher != Off && Open(v.d) { Conserved(v.h, v.d, v.down); }
    if t.h.registered && t.h.dispatcher != Off && Open(v.h) { Conserved(v.d, v.h, v.up); }
  }

  /**
   In every interleaving, a connection freed by its peer while still receiving
   has been handed everything the peer ever sent, and the peer has finished.
   */
  lemma FreedAfterAll(s: State, actions: seq<Action>, c: nat)
    requires Init(s)
    ensures var t := Run(s, actions); var d, h := Get(t.d.conns, c), Get(t.h.conns, c);
            && (d.slot == Freed && d.alive ==> h.phase == Done && d.written + Payload(d.queue) == Payload(h.sent))
            && (h.slot == Freed && h.alive ==> d.phase == Done && h.written + Payload(h.queue) == Payload(d.sent))
  {
    hide Run, Items, Link, EndInv, Payload;
    RunGood(s, actions);
    var v := At(Run(s, actions), c);
    if v.d.slot == Freed && v.d.alive { FreedComplete(v.h, v.d, v.down); }
    if v.h.slot == Freed && v.h.alive { FreedComplete(v.d, v.h, v.up); }
  }

  /**
   In every interleaving, the daemon sends data only after it has taken the
   host's activation, and the host has inserted its sender before it sent that.
   */
  lemma DataAfterActivation(s: State, actions: seq<Action>, c: nat)
    requires Init(s)
    ensures var t := Run(s, actions); var d, h := Get(t.d.conns, c), Get(t.h.conns, c);
            Payload(d.sent) != [] ==> h.slot != Absent && Master in h.sent && d.consumed != [] && d.consumed[0] == Master
  {
    hide Run, Items, EndInv, Payload;
    RunGood(s, actions);
    var v := At(Run(s, actions), c);
    HostFirst(v);
    PayloadOfCore(v.d.sent);
    CoreNil();
    assert Payload(v.d.sent) != [] ==> (v.d.consumed + v.d.queue)[0] == Master;
    CoreWithin(v.h.sent);
  }

  /** A Reverse entry exists only once the listener heard its own positive result. */
  lemma EntryIsEarned(s: State, actions: seq<Action>)
    requires Init(s)
    ensures var t := Run(s, actions); t.h.entry ==> t.d.heard && t.d.lid in t.h.reached
  {
    hide Run, Inv;
    RunGood(s, actions);
  }
}
