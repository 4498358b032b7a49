/**
 The forward messages of a reverse forward as task messages: what each side
 writes for a message, and what the other side's dispatch makes of it.
 */
module ForwardWire {
  import opened Bytes
  import opened Frames
  import opened RportConnection
  import opened Rport

  const CHECK: nat := 2501
  const CHECK_RESULT: nat := 2502
  const ACTIVE_SLAVE: nat := 2503
  const ACTIVE_MASTER: nat := 2504
  const DATA: nat := 2505
  const FREE_CONTEXT: nat := 2506
  const SUCCESS: nat := 2509

  /** Identifier, eight zero bytes, the local specification and a final zero. */
  function SpecPayload(id: nat, spec: seq<byte>): (p: seq<byte>)
    ensures |p| == 13 + |spec|
  {
    ToBe(id, 4) + Zeros(8) + spec + [0]
  }

  // ------------------------------------------------------------------
  // Daemon to host
  // ------------------------------------------------------------------

  /** What the daemon's listener and connection tasks send. */
  predicate FromDaemon(m: Msg) {
    match m
    case Conn(id, item) => id < TWO_32 && item != Master
    case Check(lid) => lid < TWO_32
    case Success => true
    case _ => false
  }

  function DaemonWrites(channel: nat, m: Msg, local: seq<byte>, remote: seq<byte>): TaskMessage
    requires FromDaemon(m)
  {
    match m
    case Check(lid) => TaskMessage(channel, CHECK, SpecPayload(lid, local))
    case Success => TaskMessage(channel, SUCCESS, [48, 124] + remote + [32] + local)  // "0|remote local"
    case Conn(id, Data(bytes)) => TaskMessage(channel, DATA, ToBe(id, 4) + bytes)
    case Conn(id, Free) => TaskMessage(channel, FREE_CONTEXT, ToBe(id, 4))
    case Conn(id, _) => TaskMessage(channel, ACTIVE_SLAVE, SpecPayload(id, local))
  }

  /** `trim_end_matches` of zero bytes. */
  function TrimZeros(s: seq<byte>): (t: seq<byte>)
    ensures t <= s && (t == s <==> s == [] || s[|s| - 1] != 0)
  {
    if s != [] && s[|s| - 1] == 0 then TrimZeros(s[..|s| - 1]) else s
  }

  /** The host's dispatch: the message, and the local specification where one is carried. */
  function HostReads(t: TaskMessage): Option<(Msg, seq<byte>)> {
    var p := t.payload;
    if t.command == SUCCESS then Some((Success, []))
    else if t.command == CHECK && |p| >= 13 then Some((Check(FromBe(p[..4])), TrimZeros(p[12..])))
    else if t.command == ACTIVE_SLAVE && |p| >= 13 then Some((Conn(FromBe(p[..4]), Slave), TrimZeros(p[12..])))
    else if t.command == DATA && |p| >= 4 then Some((Conn(FromBe(p[..4]), Data(p[4..])), []))
    else if t.command == FREE_CONTEXT && |p| >= 4 then Some((Conn(FromBe(p[..4]), Free), []))
    else None
  }

  lemma IdReads(id: nat, rest: seq<byte>)
    requires id < TWO_32
    ensures FromBe((ToBe(id, 4) + rest)[..4]) == id && (ToBe(id, 4) + rest)[4..] == rest
  {
    Pow256Constants();
    FromBeToBe(id, 4);
    assert (ToBe(id, 4) + rest)[..4] == ToBe(id, 4);
  }

  lemma SpecReads(id: nat, spec: seq<byte>)
    requires id < TWO_32
    ensures var p := SpecPayload(id, spec); FromBe(p[..4]) == id && TrimZeros(p[12..]) == TrimZeros(spec)
  {
    var p := SpecPayload(id, spec);
    IdReads(id, Zeros(8) + spec + [0]);
    assert p == ToBe(id, 4) + (Zeros(8) + spec + [0]);
    assert p[12..] == spec + [0];
    assert p[12..][..|spec|] == spec;
  }

  lemma HostReadsSpec(channel: nat, id: nat, local: seq<byte>)
    requires id < TWO_32
    ensures HostReads(TaskMessage(channel, CHECK, SpecPayload(id, local))) == Some((Check(id), TrimZeros(local)))
    ensures HostReads(TaskMessage(channel, ACTIVE_SLAVE, SpecPayload(id, local))) == Some((Conn(id, Slave), TrimZeros(local)))
  {
    SpecReads(id, local);
    hide SpecPayload, FromBe, TrimZeros;
  }

  lemma HostReadsItem(channel: nat, id: nat, bytes: seq<byte>)
    requires id < TWO_32
    ensures HostReads(TaskMessage(channel, DATA, ToBe(id, 4) + bytes)) == Some((Conn(id, Data(bytes)), []))
    ensures HostReads(TaskMessage(channel, FREE_CONTEXT, ToBe(id, 4))) == Some((Conn(id, Free), []))
  {
    IdReads(id, bytes);
    IdReads(id, []);
    assert ToBe(id, 4) + [] == ToBe(id, 4);
    hide ToBe, FromBe, TrimZeros;
  }

  /** The host reads every message of the daemon, and the specification unless that ends in a zero byte. */
  lemma HostReadsDaemon(channel: nat, m: Msg, local: seq<byte>, remote: seq<byte>)
    requires FromDaemon(m)
    ensures var r := HostReads(DaemonWrites(channel, m, local, remote));
            && r.Some? && r.value.0 == m
            && (m.Check? || (m.Conn? && m.item == Slave) ==>
                  (r.value.1 == local <==> local == [] || local[|local| - 1] != 0))
  {
    hide ToBe, SpecPayload, TrimZeros;
    if m.Check? {
      HostReadsSpec(channel, m.lid, local);
      hide HostReads;
    } else if m.Conn? {
      HostReadsSpec(channel, m.id, local);
      HostReadsItem(channel, m.id, if m.item.Data? then m.item.bytes else []);
      hide HostReads;
    }
  }

  // ------------------------------------------------------------------
  // Host to daemon
  // ------------------------------------------------------------------

  const CHANNEL_CLOSE: nat := 2

  predicate FromHost(m: Msg) {
    match m
    case Conn(id, item) => id < TWO_32 && item != Slave
    case CheckResult(lid, _) => lid < TWO_32
    case Close => true
    case _ => false
  }

  function HostWrites(channel: nat, m: Msg): TaskMessage
    requires FromHost(m)
  {
    match m
    case CheckResult(lid, ok) => TaskMessage(channel, CHECK_RESULT, ToBe(lid, 4) + [if ok then 1 else 0])
    case Close => TaskMessage(channel, CHANNEL_CLOSE, [0])
    case Conn(id, Data(bytes)) => TaskMessage(channel, DATA, ToBe(id, 4) + bytes)
    case Conn(id, Free) => TaskMessage(channel, FREE_CONTEXT, ToBe(id, 4))
    case Conn(id, _) => TaskMessage(channel, ACTIVE_MASTER, ToBe(id, 4))
  }

  /** The routing of handle_forward_task, and the close of the session loop. */
  function DaemonReads(t: TaskMessage): Option<Msg> {
    var p := t.payload;
    if t.command == CHANNEL_CLOSE then Some(Close)
    else if t.command == CHECK_RESULT && |p| >= 5 then Some(CheckResult(FromBe(p[..4]), p[4] != 0))
    else if t.command == ACTIVE_MASTER && |p| >= 4 then Some(Conn(FromBe(p[..4]), Master))
    else if t.command == DATA && |p| >= 4 then Some(Conn(FromBe(p[..4]), Data(p[4..])))
    else if t.command == FREE_CONTEXT && |p| >= 4 then Some(Conn(FromBe(p[..4]), Free))
    else None
  }

  /** The daemon reads every message of the host. */
  lemma DaemonReadsHost(channel: nat, m: Msg)
    requires FromHost(m)
    ensures DaemonReads(HostWrites(channel, m)) == Some(m)
  {
    if m.CheckResult? {
      IdReads(m.lid, [if m.ok then 1 else 0]);
    } else if m.Conn? {
      IdReads(m.id, if m.item.Data? then m.item.bytes else []);
      assert ToBe(m.id, 4) + [] == ToBe(m.id, 4);
    }
  }
}
