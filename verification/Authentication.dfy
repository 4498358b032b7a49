/**
 The host's authentication loops, on TCP and on USB, and the map of connected
 devices: an entry is Connected only because such a loop accepted.
 */
module Authentication {
  import opened Bytes

  const MAX_ATTEMPTS: nat := 10

  const TOKEN: nat := 1
  const SIGNATURE: nat := 2
  const PUBLICKEY: nat := 3
  const OK: nat := 4
  const FAIL: nat := 5
  const PSK: nat := 6

  /**
   What one receive brings. `replies`: the host's own answer (its key, a
   signature, the acknowledgement) could be made and sent; `key`: the length of
   the decrypted pre-shared key, if it could be decrypted.
   */
  datatype Inbound =
    | Nothing
    | OtherCommand
    | Garbled
    | Handshake(authType: nat, replies: bool, key: Option<nat>)

  datatype Transport = Usb | Tcp(encrypt: bool)

  /** The handshake that ends the loop successfully. */
  predicate Accepts(m: Inbound, via: Transport) {
    m.Handshake? &&
    (m.authType == OK || (m.authType == PSK && via == Tcp(true) && m.key == Some(32) && m.replies))
  }

  /** The messages after which the loop goes on. */
  predicate Continues(m: Inbound) {
    m.OtherCommand? || (m.Handshake? && (m.authType == PUBLICKEY || m.authType == SIGNATURE) && m.replies)
  }

  /** The loop accepts with message `used - 1`. */
  predicate AcceptedAt(inbox: seq<Inbound>, via: Transport, used: nat) {
    && 1 <= used <= |inbox| && used <= MAX_ATTEMPTS
    && Accepts(inbox[used - 1], via)
    && (forall i :: 0 <= i < used - 1 ==> Continues(inbox[i]))
  }

  function Receive(inbox: seq<Inbound>, i: nat): Inbound {
    if i < |inbox| then inbox[i] else Nothing
  }

  /** The authentication loop of start_usb_session. */
  method UsbAuth(inbox: seq<Inbound>) returns (ok: bool, used: nat)
    ensures used <= MAX_ATTEMPTS
    ensures ok ==> AcceptedAt(inbox, Usb, used)
    ensures ok <==> exists n: nat :: AcceptedAt(inbox, Usb, n)
  {
    used := 0;
    var attempts := 0;
    while true
      invariant used == attempts <= MAX_ATTEMPTS && used <= |inbox|
      invariant forall i :: 0 <= i < used ==> Continues(inbox[i])
      decreases MAX_ATTEMPTS + 1 - attempts
    {
      attempts := attempts + 1;
      if attempts > MAX_ATTEMPTS {
        return false, used;
      }
      var m := Receive(inbox, used);
      if m.Nothing? {
        return false, used;
      }
      used := used + 1;
      if m.OtherCommand? {
        continue;
      }
      if m.Garbled? {
        return false, used;
      }
      if m.authType == OK {
        assert AcceptedAt(inbox, Usb, used);
        return true, used;
      } else if m.authType == PUBLICKEY || m.authType == SIGNATURE {
        if !m.replies {
          return false, used;
        }
      } else {
        return false, used;
      }
    }
  }

  /** The authentication loop of start_tcp_daemon_session; `encrypt` is the host's flag. */
  method TcpAuth(inbox: seq<Inbound>, encrypt: bool) returns (ok: bool, used: nat)
    ensures used <= MAX_ATTEMPTS
    ensures ok ==> AcceptedAt(inbox, Tcp(encrypt), used)
    ensures ok <==> exists n: nat :: AcceptedAt(inbox, Tcp(encrypt), n)
  {
    ok, used := false, 0;
    for attempt := 1 to MAX_ATTEMPTS + 1
      invariant used == attempt - 1 && used <= |inbox|
      invariant forall i :: 0 <= i < used ==> Continues(inbox[i])
      invariant !ok
    {
      var m := Receive(inbox, used);
      if m.Nothing? {
        return false, used;
      }
      used := used + 1;
      if m.OtherCommand? {
        continue;
      }
      if m.Garbled? {
        return false, used;
      }
      if m.authType == OK {
        assert AcceptedAt(inbox, Tcp(encrypt), used);
        return true, used;
      } else if m.authType == FAIL || m.authType == TOKEN {
        return false, used;
      } else if m.authType == PSK {
        if !encrypt || m.key != Some(32) || !m.replies {
          return false, used;
        }
        assert AcceptedAt(inbox, Tcp(encrypt), used);
        return true, used;
      } else if m.authType == PUBLICKEY || m.authType == SIGNATURE {
        if !m.replies {
          return false, used;
        }
      } else {
        return false, used;
      }
    }
  }

  // ------------------------------------------------------------------
  // The map of devices
  // ------------------------------------------------------------------

  datatype Status = Ready | Connected | Offline | Unauthorized

  datatype Info = Info(session: nat, tcp: bool, status: Status)

  /** One change to the map, or one attempt at a session; `reachable`: the device could be opened. */
  datatype Event =
    | Discovered(key: string)
    | Adopted(key: string)
    | Tried(key: string, reachable: bool, session: nat, via: Transport, inbox: seq<Inbound>)
    | Removed(key: string)

  /** The attempt ended with an accepted exchange. */
  ghost predicate Accepted(e: Event) {
    e.Tried? && e.reachable && exists n: nat :: AcceptedAt(e.inbox, e.via, n)
  }

  ghost function Apply(entries: map<string, Info>, e: Event): map<string, Info> {
    match e
    case Discovered(k) => if k in entries then entries else entries[k := Info(0, true, Ready)]
    case Adopted(k) => entries[k := Info(0, false, Ready)]
    case Tried(k, _, session, via, _) =>
      if Accepted(e) then entries[k := Info(session, via.Tcp?, Connected)]
      else if via == Usb && k in entries then entries[k := entries[k].(status := Offline)]
      else entries
    case Removed(k) => entries - {k}
  }

  /** The map after a history of events. */
  ghost function Replay(log: seq<Event>): map<string, Info> {
    if log == [] then map[] else Apply(Replay(log[..|log| - 1]), log[|log| - 1])
  }

  /** The events that leave a Connected entry of `k` as it is. */
  ghost predicate LeavesAlone(e: Event, k: string) {
    e.key != k || e.Discovered? || (e.Tried? && e.via.Tcp? && !Accepted(e))
  }

  /** The attempt was accepted under key `k` and gave this entry. */
  ghost predicate Gives(e: Event, k: string, session: nat, tcp: bool) {
    Accepted(e) && e.key == k && e.session == session && e.via.Tcp? == tcp
  }

  /** Attempt `i` gave the entry of `k`, and nothing has replaced it since. */
  ghost predicate Stands(log: seq<Event>, i: nat, k: string, session: nat, tcp: bool) {
    && i < |log| && Gives(log[i], k, session, tcp)
    && (forall j :: i < j < |log| ==> LeavesAlone(log[j], k))
  }

  /**
   In every history of discovery, adoption, sessions and removals, an entry is
   Connected if and only if it comes from an attempt under that key with that
   session id that was accepted, and that nothing has replaced since.
   */
  lemma {:induction false} ConnectedIff(log: seq<Event>, k: string, session: nat, tcp: bool)
    ensures (k in Replay(log) && Replay(log)[k] == Info(session, tcp, Connected))
            <==> exists i: nat :: Stands(log, i, k, session, tcp)
  {
    if log != [] {
      var n := |log| - 1;
      ConnectedIff(log[..n], k, session, tcp);
      StandsStep(log, n, k, session, tcp);
      hide Accepted, Stands;
    }
  }

  lemma StandsStep(log: seq<Event>, n: nat, k: string, session: nat, tcp: bool)
    requires |log| == n + 1
    ensures (exists i: nat :: Stands(log, i, k, session, tcp))
            <==> (Gives(log[n], k, session, tcp)
                  || (LeavesAlone(log[n], k) && exists i: nat :: Stands(log[..n], i, k, session, tcp)))
  {
    hide Accepted, Gives, LeavesAlone;
    if exists i: nat :: Stands(log, i, k, session, tcp) {
      var i: nat :| Stands(log, i, k, session, tcp);
      assert i < n ==> Stands(log[..n], i, k, session, tcp);
    }
    if LeavesAlone(log[n], k) && exists i: nat :: Stands(log[..n], i, k, session, tcp) {
      var i: nat :| Stands(log[..n], i, k, session, tcp);
      assert Stands(log, i, k, session, tcp);
    }
    assert Gives(log[n], k, session, tcp) ==> Stands(log, n, k, session, tcp);
  }

  /** The event enters `k` in the map, if it is not there. */
  ghost predicate Enters(e: Event, k: string) {
    e.key == k && (e.Discovered? || e.Adopted? || Accepted(e))
  }

  /** Event `i` entered `k`, and it has not been removed since. */
  ghost predicate Entered(log: seq<Event>, i: nat, k: string) {
    i < |log| && Enters(log[i], k) && forall j :: i < j < |log| ==> log[j] != Removed(k)
  }

  lemma EnteredStep(log: seq<Event>, n: nat, k: string)
    requires |log| == n + 1
    ensures (exists i: nat :: Entered(log, i, k))
            <==> Enters(log[n], k) || (log[n] != Removed(k) && exists i: nat :: Entered(log[..n], i, k))
  {
    hide Enters;
    if exists i: nat :: Entered(log, i, k) {
      var i: nat :| Entered(log, i, k);
      assert i < n ==> Entered(log[..n], i, k);
    }
    if log[n] != Removed(k) && exists i: nat :: Entered(log[..n], i, k) {
      var i: nat :| Entered(log[..n], i, k);
      assert Entered(log, i, k);
    }
    assert Enters(log[n], k) ==> Entered(log, n, k);
  }

  /** A device is listed if and only if something entered it that no removal has followed. */
  lemma {:induction false} ListedIff(log: seq<Event>, k: string)
    ensures k in Replay(log) <==> exists i: nat :: Entered(log, i, k)
  {
    if log != [] {
      var n := |log| - 1;
      ListedIff(log[..n], k);
      EnteredStep(log, n, k);
      hide Accepted, Entered;
    }
  }

  /**
   Event `i` gave `k` this status: Connected by an accepted attempt, Offline by
   a failed attempt over USB while it was listed, Ready by adoption, or by
   discovery while it was not.
   */
  ghost predicate Sets(log: seq<Event>, i: nat, k: string, status: Status) {
    && i < |log| && log[i].key == k
    && match status
       case Connected => Accepted(log[i])
       case Offline => log[i].Tried? && log[i].via == Usb && !Accepted(log[i]) && k in Replay(log[..i])
       case Ready => log[i].Adopted? || (log[i].Discovered? && k !in Replay(log[..i]))
       case Unauthorized => false
  }

  ghost predicate Holds(log: seq<Event>, i: nat, k: string, status: Status) {
    Sets(log, i, k, status) && forall j :: i < j < |log| ==> LeavesAlone(log[j], k)
  }

  lemma HoldsStep(log: seq<Event>, n: nat, k: string, status: Status)
    requires |log| == n + 1
    ensures (exists i: nat :: Holds(log, i, k, status))
            <==> Sets(log, n, k, status) || (LeavesAlone(log[n], k) && exists i: nat :: Holds(log[..n], i, k, status))
  {
    hide Accepted, LeavesAlone, Replay;
    forall i: nat | i < n ensures Sets(log, i, k, status) <==> Sets(log[..n], i, k, status) {
      assert log[..n][..i] == log[..i];
    }
    hide Sets;
    if exists i: nat :: Holds(log, i, k, status) {
      var i: nat :| Holds(log, i, k, status);
      assert i < |log| by { SetsWithin(log, i, k, status); }
      assert i < n ==> Holds(log[..n], i, k, status);
    }
    if LeavesAlone(log[n], k) && exists i: nat :: Holds(log[..n], i, k, status) {
      var i: nat :| Holds(log[..n], i, k, status);
      assert i < n by { SetsWithin(log[..n], i, k, status); }
      assert Holds(log, i, k, status);
    }
    assert Sets(log, n, k, status) ==> Holds(log, n, k, status);
  }

  lemma SetsWithin(log: seq<Event>, i: nat, k: string, status: Status)
    requires Sets(log, i, k, status)
    ensures i < |log|
  {
  }

  /** In every history, each status of a device is the one last given to it. */
  lemma {:induction false} StatusIff(log: seq<Event>, k: string, status: Status)
    ensures (k in Replay(log) && Replay(log)[k].status == status) <==> exists i: nat :: Holds(log, i, k, status)
  {
    if log != [] {
      var n := |log| - 1;
      StatusIff(log[..n], k, status);
      HoldsStep(log, n, k, status);
      hide Accepted, Holds;
      assert log[..n] == log[..|log| - 1];
    }
  }

  function Discoveries(addrs: seq<string>): seq<Event> {
    seq(|addrs|, i requires 0 <= i < |addrs| => Discovered(addrs[i]))
  }

  /** The addresses are in the map, the new ones as Ready, and nothing else has changed. */
  ghost predicate OnlyAdds(before: map<string, Info>, after: map<string, Info>, addrs: seq<string>) {
    && (forall k :: k in after <==> k in before || k in addrs)
    && (forall k :: k in after ==> after[k] == if k in before then before[k] else Info(0, true, Ready))
  }

  lemma NoneFound(entries: map<string, Info>, log: seq<Event>)
    ensures OnlyAdds(entries, entries, []) && log + Discoveries([]) == log
  {
  }

  /** One more address, whether it is new or not. */
  lemma FoundOne(before: map<string, Info>, entries: map<string, Info>, start: seq<Event>, log: seq<Event>,
                 addrs: seq<string>, i: nat)
    requires i < |addrs| && entries == Replay(log)
    requires OnlyAdds(before, entries, addrs[..i]) && log == start + Discoveries(addrs[..i])
    ensures var a := addrs[i];
            var after := if a in entries then entries else entries[a := Info(0, true, Ready)];
            && OnlyAdds(before, after, addrs[..i + 1])
            && after == Replay(log + [Discovered(a)])
            && log + [Discovered(a)] == start + Discoveries(addrs[..i + 1])
            && |after| == |entries| + if a in entries then 0 else 1
  {
    hide Replay, Accepted;
    var a := addrs[i];
    ReplayPush(log, Discovered(a));
    assert addrs[..i + 1] == addrs[..i] + [a];
    assert Discoveries(addrs[..i + 1]) == Discoveries(addrs[..i]) + [Discovered(a)];
    if a !in entries {
      Grows(entries, a, Info(0, true, Ready));
    }
  }

  /** ConnectMap, with the ways the server changes it. */
  class Devices {
    var entries: map<string, Info>
    ghost var log: seq<Event>

    /** The map is what its history makes of it. */
    ghost predicate Valid()
      reads this
    {
      entries == Replay(log)
    }

    constructor ()
      ensures Valid() && log == []
    {
      entries, log := map[], [];
    }

    /** Network discovery: new addresses become Ready; known ones are left alone. */
    method Discover(addrs: seq<string>) returns (count: nat)
      requires Valid()
      modifies this
      ensures Valid() && log == old(log) + Discoveries(addrs)
      ensures OnlyAdds(old(entries), entries, addrs)
      ensures |entries| == |old(entries)| + count
    {
      hide Replay, Apply, Discoveries, OnlyAdds;
      count := 0;
      NoneFound(entries, log);
      for i := 0 to |addrs|
        invariant Valid() && log == old(log) + Discoveries(addrs[..i])
        invariant OnlyAdds(old(entries), entries, addrs[..i])
        invariant |entries| == |old(entries)| + count
      {
        FoundOne(old(entries), entries, old(log), log, addrs, i);
        if addrs[i] !in entries {
          count := count + 1;
          entries := entries[addrs[i] := Info(0, true, Ready)];
        }
        log := log + [Discovered(addrs[i])];
      }
      assert addrs[..|addrs|] == addrs;
    }

    /** The monitor adopts a device. */
    method Adopt(serial: string)
      requires Valid()
      modifies this
      ensures Valid() && log == old(log) + [Adopted(serial)]
    {
      hide Replay, Accepted;
      entries := entries[serial := Info(0, false, Ready)];
      ReplayPush(log, Adopted(serial));
      log := log + [Adopted(serial)];
    }

    /** What start_usb_session does to the map up to the end of authentication. */
    method UsbSession(serial: string, reachable: bool, session: nat, inbox: seq<Inbound>) returns (ok: bool)
      requires Valid()
      modifies this
      ensures Valid() && log == old(log) + [Tried(serial, reachable, session, Usb, inbox)]
      ensures ok <==> Accepted(log[|log| - 1])
    {
      hide Replay;
      ghost var e := Tried(serial, reachable, session, Usb, inbox);
      ReplayPush(log, e);
      log := log + [e];
      if !reachable {
        UpdateStatus(serial, Offline);
        return false;
      }
      var used;
      ok, used := UsbAuth(inbox);
      if ok {
        entries := entries[serial := Info(session, false, Connected)];
      } else {
        UpdateStatus(serial, Offline);
      }
    }

    /** What start_tcp_daemon_session does to the map; a failed attempt leaves it alone. */
    method TcpSession(addr: string, reachable: bool, encrypt: bool, session: nat, inbox: seq<Inbound>)
      returns (ok: bool)
      requires Valid()
      modifies this
      ensures Valid() && log == old(log) + [Tried(addr, reachable, session, Tcp(encrypt), inbox)]
      ensures ok <==> Accepted(log[|log| - 1])
    {
      hide Replay;
      ghost var e := Tried(addr, reachable, session, Tcp(encrypt), inbox);
      ReplayPush(log, e);
      log := log + [e];
      if !reachable {
        return false;
      }
      var used;
      ok, used := TcpAuth(inbox, encrypt);
      if ok {
        entries := entries[addr := Info(session, true, Connected)];
      }
    }

    /** update_status: an absent entry stays absent. */
    method UpdateStatus(key: string, status: Status)
      modifies this`entries
      ensures entries.Keys == old(entries).Keys
      ensures forall k :: k in entries ==> entries[k] == if k == key then old(entries)[k].(status := status) else old(entries)[k]
    {
      if key in entries {
        entries := entries[key := entries[key].(status := status)];
      }
    }

    /** Session end, read errors and reconnect requests. */
    method Remove(key: string)
      requires Valid()
      modifies this
      ensures Valid() && log == old(log) + [Removed(key)] && entries == old(entries) - {key}
    {
      hide Replay, Accepted;
      entries := entries - {key};
      ReplayPush(log, Removed(key));
      log := log + [Removed(key)];
    }
  }

  lemma ReplayPush(log: seq<Event>, e: Event)
    ensures Replay(log + [e]) == Apply(Replay(log), e)
  {
    assert (log + [e])[..|log|] == log;
  }

  lemma Grows(m: map<string, Info>, k: string, info: Info)
    requires k !in m
    ensures |m[k := info]| == |m| + 1
  {
    assert m[k := info].Keys == m.Keys + {k};
    assert |m[k := info]| == |m[k := info].Keys|;
    assert |m| == |m.Keys|;
  }
}
