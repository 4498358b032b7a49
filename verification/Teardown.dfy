/**
 The maps a USB session leaves traces in, and what its teardown removes from
 them: exactly what belongs to the session or its device.
 */
module Teardown {
  import opened Bytes
  import opened Authentication

  // ------------------------------------------------------------------
  // Client channels
  // ------------------------------------------------------------------

  /** The channels that serve a session. */
  function ChannelsOf(sessions: map<nat, nat>, session: nat): set<nat> {
    set c | c in sessions && sessions[c] == session
  }

  /** TcpMap: the writers of client channels, and which daemon session a channel serves. */
  class Channels {
    var writers: set<nat>
    var keepAlive: set<nat>
    var sessions: map<nat, nat>

    constructor ()
      ensures writers == {} && keepAlive == {} && sessions == map[]
    {
      writers, keepAlive, sessions := {}, {}, map[];
    }

    /** end_channel leaves the association with the session in place. */
    method End(channel: nat)
      modifies this
      ensures writers == old(writers) - {channel} && keepAlive == old(keepAlive) - {channel}
      ensures sessions == old(sessions)
    {
      keepAlive := keepAlive - {channel};
      writers := writers - {channel};
    }

    /** close_session_channels leaves the keep-alive marks in place. */
    method CloseSession(session: nat)
      modifies this
      ensures keepAlive == old(keepAlive)
      ensures sessions == old(sessions) - ChannelsOf(old(sessions), session)
      ensures writers == old(writers) - ChannelsOf(old(sessions), session)
    {
      ghost var all := ChannelsOf(sessions, session);
      var toClose := set c | c in sessions && sessions[c] == session;
      while toClose != {}
        invariant keepAlive == old(keepAlive) && toClose <= all
        invariant sessions == old(sessions) - (all - toClose)
        invariant writers == old(writers) - (all - toClose)
        decreases |toClose|
      {
        var channel :| channel in toClose;
        sessions := sessions - {channel};
        writers := writers - {channel};
        toClose := toClose - {channel};
      }
      assert all - toClose == all;
    }
  }

  // ------------------------------------------------------------------
  // Device sessions
  // ------------------------------------------------------------------

  function OfOtherSessions(responses: set<(nat, nat)>, session: nat): set<(nat, nat)> {
    set r | r in responses && r.0 != session
  }

  /** UsbMap: session senders, and response channels by session and channel. */
  class Sessions {
    var senders: set<nat>
    var responses: set<(nat, nat)>

    constructor ()
      ensures senders == {} && responses == {}
    {
      senders, responses := {}, {};
    }

    /** end_session_with_cleanup. */
    method EndWithCleanup(session: nat)
      modifies this
      ensures senders == old(senders) - {session}
      ensures responses == OfOtherSessions(old(responses), session)
      ensures forall r :: r in responses <==> r in old(responses) && r.0 != session
    {
      senders := senders - {session};
      responses := set r | r in responses && r.0 != session;
    }

    /** end_session: the writer task drops its sender once more. */
    method End(session: nat)
      modifies this
      ensures senders == old(senders) - {session} && responses == old(responses)
    {
      senders := senders - {session};
    }
  }

  // ------------------------------------------------------------------
  // Forward entries
  // ------------------------------------------------------------------

  datatype Entry = Entry(channel: nat, session: nat, device: string)

  /** A KernelChannelClose for `channel`, sent to `session`. */
  datatype Close = Close(session: nat, channel: nat)

  /** Does the device filter of a removal select this entry? */
  predicate Selects(filter: string, e: Entry) {
    filter == "" || filter == "any" || e.device == filter
  }

  predicate Names(spec: string, key: string) {
    key == spec || " " + spec == Suffix(key, |spec| + 1) || spec + " " <= key
  }

  function Suffix(s: string, n: nat): string {
    if n <= |s| then s[|s| - n..] else s
  }

  /** A specification names a key when it is the key, or its first or its last part. */
  lemma NamesIff(spec: string, key: string)
    ensures Names(spec, key) <==>
              || key == spec
              || (exists first: string :: key == first + " " + spec)
              || (exists last: string :: key == spec + " " + last)
  {
    var n := |spec| + 1;
    if " " + spec == Suffix(key, n) {
      LastPart(spec, key);
    }
    if exists first: string :: key == first + " " + spec {
      var first: string :| key == first + " " + spec;
      assert key[|key| - n..] == " " + spec;
    }
    if spec + " " <= key {
      assert key == spec + " " + key[n..];
    }
    if exists last: string :: key == spec + " " + last {
      var last: string :| key == spec + " " + last;
      assert key[..n] == spec + " ";
    }
  }

  lemma LastPart(spec: string, key: string)
    requires " " + spec == Suffix(key, |spec| + 1)
    ensures exists first: string :: key == first + " " + spec
  {
    var n := |spec| + 1;
    var first := if n <= |key| then key[..|key| - n] else [];
    assert n <= |key| ==> key == first + key[|key| - n..];
    assert |Suffix(key, n)| == n;
    assert key == first + (" " + spec) == first + " " + spec;
  }

  /** Removing by either half of a forward finds it. */
  lemma EitherHalfNames(a: string, b: string)
    ensures Names(a, a + " " + b) && Names(b, a + " " + b)
  {
    NamesIff(a, a + " " + b);
    NamesIff(b, a + " " + b);
  }

  function Unselected(filter: string, entries: map<string, Entry>): map<string, Entry> {
    map k | k in entries && !Selects(filter, entries[k]) :: entries[k]
  }

  ghost predicate Distinct(keys: seq<string>) {
    forall i, j :: 0 <= i < j < |keys| ==> keys[i] != keys[j]
  }

  /** The keys of the selected entries, in some order. */
  ghost predicate Lists(filter: string, entries: map<string, Entry>, keys: seq<string>) {
    && Distinct(keys)
    && (forall k :: k in keys <==> k in entries && Selects(filter, entries[k]))
  }

  function DropAll(entries: map<string, Entry>, keys: seq<string>): map<string, Entry> {
    if keys == [] then entries else DropAll(entries, keys[..|keys| - 1]) - {keys[|keys| - 1]}
  }

  lemma {:induction false} DropAllIs(entries: map<string, Entry>, keys: seq<string>)
    ensures forall k :: k in DropAll(entries, keys) <==> k in entries && k !in keys
    ensures forall k :: k in DropAll(entries, keys) ==> DropAll(entries, keys)[k] == entries[k]
  {
    if keys != [] {
      DropAllIs(entries, keys[..|keys| - 1]);
    }
  }

  lemma DropAllSelected(filter: string, entries: map<string, Entry>, keys: seq<string>)
    requires Lists(filter, entries, keys)
    ensures DropAll(entries, keys) == Unselected(filter, entries)
  {
    hide DropAll, Selects;
    DropAllIs(entries, keys);
  }

  lemma StillThere(filter: string, entries: map<string, Entry>, keys: seq<string>, i: nat)
    requires Lists(filter, entries, keys) && i < |keys|
    ensures keys[i] in DropAll(entries, keys[..i]) && DropAll(entries, keys[..i])[keys[i]] == entries[keys[i]]
    ensures DropAll(entries, keys[..i]) - {keys[i]} == DropAll(entries, keys[..i + 1])
    ensures keys[..i + 1] == keys[..i] + [keys[i]]
  {
    hide Selects;
    DropAllIs(entries, keys[..i]);
    assert keys[..i + 1][..i] == keys[..i];
    assert keys[i] in keys;
  }

  /** One close for each key, to the session and channel of its entry. */
  function ClosesOf(entries: map<string, Entry>, keys: seq<string>): seq<Close> {
    if keys == [] then []
    else
      var k := keys[|keys| - 1];
      ClosesOf(entries, keys[..|keys| - 1])
      + if k in entries then [Close(entries[k].session, entries[k].channel)] else []
  }

  lemma NoneYet(entries: map<string, Entry>, closes: seq<Close>)
    ensures DropAll(entries, []) == entries && closes + ClosesOf(entries, []) == closes
  {
  }

  lemma ClosesPush(entries: map<string, Entry>, keys: seq<string>, k: string)
    requires k in entries
    ensures ClosesOf(entries, keys + [k]) == ClosesOf(entries, keys) + [Close(entries[k].session, entries[k].channel)]
  {
    assert (keys + [k])[..|keys|] == keys;
  }

  /** The filter selects exactly one device's entries unless it is "" or "any". */
  lemma SelectsOwnIff(filter: string)
    ensures (forall e: Entry :: Selects(filter, e) <==> e.device == filter) <==> filter != "" && filter != "any"
  {
    if filter == "" || filter == "any" {
      var e := Entry(0, 0, filter + "x");
      assert Selects(filter, e) && |e.device| != |filter|;
    }
  }

  class Forwards {
    var entries: map<string, Entry>
    var closes: seq<Close>

    constructor ()
      ensures entries == map[] && closes == []
    {
      entries, closes := map[], [];
    }

    /** One entry goes, and the close for it is sent. */
    method RemoveKey(key: string)
      requires key in entries
      modifies this
      ensures entries == old(entries) - {key} && |entries| == |old(entries)| - 1
      ensures closes == old(closes) + [Close(old(entries)[key].session, old(entries)[key].channel)]
    {
      var e := entries[key];
      Shrinks(entries, key);
      entries := entries - {key};
      closes := closes + [Close(e.session, e.channel)];
    }

    /** The keys to remove, as the map happens to yield them. */
    method CollectKeys(filter: string) returns (keys: seq<string>)
      ensures Lists(filter, entries, keys)
    {
      keys := [];
      var todo := entries.Keys;
      while todo != {}
        invariant todo <= entries.Keys && Distinct(keys)
        invariant forall k :: k in keys <==> k in entries.Keys - todo && Selects(filter, entries[k])
        decreases |todo|
      {
        var k :| k in todo;
        todo := todo - {k};
        if Selects(filter, entries[k]) {
          keys := keys + [k];
        }
      }
    }

    /** remove_forward_entry without a specification: every selected entry, and one close for each. */
    method RemoveAll(filter: string) returns (removed: nat, ghost keys: seq<string>)
      modifies this
      ensures entries == Unselected(filter, old(entries))
      ensures Lists(filter, old(entries), keys)
      ensures removed == |keys| == |old(entries)| - |entries|
      ensures closes == old(closes) + ClosesOf(old(entries), keys)
    {
      hide ClosesOf, Lists, DropAll, Unselected;
      removed := 0;
      var toRemove := CollectKeys(filter);
      keys := toRemove;
      NoneYet(entries, closes);
      for i := 0 to |toRemove|
        invariant entries == DropAll(old(entries), keys[..i])
        invariant removed == i == |old(entries)| - |entries|
        invariant closes == old(closes) + ClosesOf(old(entries), keys[..i])
      {
        StillThere(filter, old(entries), keys, i);
        ClosesPush(old(entries), keys[..i], keys[i]);
        RemoveKey(toRemove[i]);
        removed := removed + 1;
      }
      assert keys[..|keys|] == keys;
      DropAllSelected(filter, old(entries), keys);
    }

    /**
     remove_forward_entry with a specification: the exact key whatever its
     device, else some selected key that the specification begins or ends.
     */
    method RemoveOne(filter: string, spec: string) returns (found: Option<string>)
      modifies this
      ensures found.Some? <==>
                spec in old(entries) || exists k :: k in old(entries) && Names(spec, k) && Selects(filter, old(entries)[k])
      ensures spec in old(entries) ==> found == Some(spec)
      ensures found.Some? ==>
                && found.value in old(entries) && entries == old(entries) - {found.value}
                && (found.value == spec || (Names(spec, found.value) && Selects(filter, old(entries)[found.value])))
                && closes == old(closes) + [Close(old(entries)[found.value].session, old(entries)[found.value].channel)]
      ensures found.None? ==> entries == old(entries) && closes == old(closes)
    {
      found := None;
      if spec in entries {
        found := Some(spec);
      } else {
        var keys := entries.Keys;
        while keys != {}
          invariant keys <= entries.Keys
          invariant found.None?
          invariant forall k :: k in entries && k !in keys ==> !(Names(spec, k) && Selects(filter, entries[k]))
          decreases |keys|
        {
          var key :| key in keys;
          if Names(spec, key) && Selects(filter, entries[key]) {
            found := Some(key);
            break;
          }
          keys := keys - {key};
        }
      }
      if found.Some? {
        RemoveKey(found.value);
      }
    }
  }

  lemma Shrinks<V>(m: map<string, V>, k: string)
    requires k in m
    ensures |m - {k}| == |m| - 1
  {
    assert (m - {k}).Keys == m.Keys - {k};
    assert |m - {k}| == |(m - {k}).Keys|;
    assert |m| == |m.Keys|;
  }

  // ------------------------------------------------------------------
  // All maps together, one lock acquisition at a time
  // ------------------------------------------------------------------

  datatype Maps = Maps(
    devices: map<string, Info>, senders: set<nat>, responses: set<(nat, nat)>,
    writers: set<nat>, sessions: map<nat, nat>, keepAlive: set<nat>, forwards: map<string, Entry>)

  /** What any task of the server does to the maps under one lock. */
  datatype Action =
    | Put(key: string, info: Info)
    | Drop(key: string)
    | StartSession(session: nat)
    | EndSession(session: nat)
    | Cleanup(session: nat)
    | Register(session: nat, channel: nat)
    | Unregister(session: nat, channel: nat)
    | StartChannel(channel: nat)
    | EndChannel(channel: nat)
    | TakeWriter(channel: nat)
    | KeepAlive(channel: nat)
    | Associate(channel: nat, session: nat)
    | CloseChannels(session: nat)
    | Insert(key: string, entry: Entry)
    | Forget(key: string)
    | RemoveAll(filter: string)

  function Next(m: Maps, a: Action): Maps {
    match a
    case Put(k, info) => m.(devices := m.devices[k := info])
    case Drop(k) => m.(devices := m.devices - {k})
    case StartSession(id) => m.(senders := m.senders + {id})
    case EndSession(id) => m.(senders := m.senders - {id})
    case Cleanup(id) => m.(senders := m.senders - {id}, responses := OfOtherSessions(m.responses, id))
    case Register(id, c) => m.(responses := m.responses + {(id, c)})
    case Unregister(id, c) => m.(responses := m.responses - {(id, c)})
    case StartChannel(c) => m.(writers := m.writers + {c})
    case EndChannel(c) => m.(writers := m.writers - {c}, keepAlive := m.keepAlive - {c})
    case TakeWriter(c) => m.(writers := m.writers - {c}, sessions := m.sessions - {c})
    case KeepAlive(c) => m.(keepAlive := m.keepAlive + {c})
    case Associate(c, id) => m.(sessions := m.sessions[c := id])
    case CloseChannels(id) =>
      var closed := ChannelsOf(m.sessions, id);
      m.(writers := m.writers - closed, sessions := m.sessions - closed)
    case Insert(k, e) => m.(forwards := m.forwards[k := e])
    case Forget(k) => m.(forwards := m.forwards - {k})
    case RemoveAll(filter) => m.(forwards := Unselected(filter, m.forwards))
  }

  function Run(m: Maps, actions: seq<Action>): Maps {
    if actions == [] then m
    else Next(Run(m, actions[..|actions| - 1]), actions[|actions| - 1])
  }

  /** The end of start_usb_session, in its order; the third is the writer task's. */
  function Steps(serial: string, session: nat): seq<Action> {
    [Drop(serial), Cleanup(session), EndSession(session), CloseChannels(session), RemoveAll(serial)]
  }

  // ------------------------------------------------------------------
  // One place of the maps
  // ------------------------------------------------------------------

  datatype Place =
    | Device(key: string) | Sender(session: nat) | Response(session: nat, channel: nat)
    | Channel(channel: nat) | Mark(channel: nat) | Forward(key: string)

  datatype Slot = Gone | Known(info: Info) | Present | Chan(writer: bool, session: Option<nat>) | Entered(entry: Entry)

  function At(m: Maps, x: Place): Slot {
    match x
    case Device(k) => if k in m.devices then Known(m.devices[k]) else Gone
    case Sender(id) => if id in m.senders then Present else Gone
    case Response(id, c) => if (id, c) in m.responses then Present else Gone
    case Channel(c) => Chan(c in m.writers, if c in m.sessions then Some(m.sessions[c]) else None)
    case Mark(c) => if c in m.keepAlive then Present else Gone
    case Forward(k) => if k in m.forwards then Entered(m.forwards[k]) else Gone
  }

  /** What an action makes of one place, from what was there. */
  function Effect(a: Action, x: Place, v: Slot): Slot {
    match x
    case Device(k) => if a.Put? && a.key == k then Known(a.info) else if a == Drop(k) then Gone else v
    case Sender(id) =>
      if a == StartSession(id) then Present else if a == EndSession(id) || a == Cleanup(id) then Gone else v
    case Response(id, c) =>
      if a == Register(id, c) then Present else if a == Unregister(id, c) || a == Cleanup(id) then Gone else v
    case Mark(c) => if a == KeepAlive(c) then Present else if a == EndChannel(c) then Gone else v
    case Channel(c) =>
      if !v.Chan? then v
      else if a == StartChannel(c) then v.(writer := true)
      else if a == EndChannel(c) then v.(writer := false)
      else if a == TakeWriter(c) then Chan(false, None)
      else if a.Associate? && a.channel == c then v.(session := Some(a.session))
      else if a.CloseChannels? && v.session == Some(a.session) then Chan(false, None)
      else v
    case Forward(k) =>
      if a.Insert? && a.key == k then Entered(a.entry)
      else if a == Forget(k) || (a.RemoveAll? && v.Entered? && Selects(a.filter, v.entry)) then Gone
      else v
  }

  lemma LocalChannel(m: Maps, a: Action, c: nat)
    ensures At(Next(m, a), Channel(c)) == Effect(a, Channel(c), At(m, Channel(c)))
  {
    hide Unselected, OfOtherSessions;
  }

  lemma LocalForward(m: Maps, a: Action, k: string)
    ensures At(Next(m, a), Forward(k)) == Effect(a, Forward(k), At(m, Forward(k)))
  {
    hide ChannelsOf, OfOtherSessions, Selects;
  }

  lemma Local(m: Maps, a: Action, x: Place)
    ensures At(Next(m, a), x) == Effect(a, x, At(m, x))
  {
    if x.Channel? {
      LocalChannel(m, a, x.channel);
    } else if x.Forward? {
      LocalForward(m, a, x.key);
    } else {
      hide ChannelsOf, Unselected, Selects;
    }
  }

  /** Does what is in this place belong to the session or its device? */
  predicate Own(serial: string, session: nat, x: Place, v: Slot) {
    match x
    case Device(k) => k == serial && v.Known?
    case Sender(id) => id == session && v == Present
    case Response(id, _) => id == session && v == Present
    case Channel(_) => v.Chan? && v.session == Some(session)
    case Mark(_) => false
    case Forward(_) => v.Entered? && v.entry.device == serial
  }

  /** The teardown step that clears this kind of place. */
  function ClearStep(serial: string, session: nat, x: Place): Action {
    match x
    case Device(_) => Drop(serial)
    case Sender(_) => Cleanup(session)
    case Response(_, _) => Cleanup(session)
    case Channel(_) => CloseChannels(session)
    case Mark(_) => CloseChannels(session)
    case Forward(_) => RemoveAll(serial)
  }

  // ------------------------------------------------------------------
  // Every interleaving
  // ------------------------------------------------------------------

  /** The action puts something of the session or its device into the place. */
  predicate Inserts(serial: string, session: nat, a: Action, x: Place) {
    match x
    case Device(k) => k == serial && a.Put? && a.key == k
    case Sender(id) => id == session && a == StartSession(id)
    case Response(id, c) => id == session && a == Register(id, c)
    case Channel(c) => a == Associate(c, session)
    case Mark(_) => false
    case Forward(k) => a.Insert? && a.key == k && a.entry.device == serial
  }

  /** The action takes it out again, or puts something of others in its place. */
  predicate Displaces(serial: string, session: nat, a: Action, x: Place) {
    match x
    case Device(k) => a == Drop(k)
    case Sender(id) => a == EndSession(id) || a == Cleanup(id)
    case Response(id, c) => a == Unregister(id, c) || a == Cleanup(id)
    case Channel(c) =>
      a == TakeWriter(c) || a == CloseChannels(session) || (a.Associate? && a.channel == c && a.session != session)
    case Mark(_) => false
    case Forward(k) =>
      || (a.Insert? && a.key == k && a.entry.device != serial) || a == Forget(k)
      || (a.RemoveAll? && (a.filter == "" || a.filter == "any" || a.filter == serial))
  }

  lemma OwnStep(serial: string, session: nat, a: Action, x: Place, v: Slot)
    requires x.Channel? ==> v.Chan?
    ensures Own(serial, session, x, Effect(a, x, v))
            <==> Inserts(serial, session, a, x) || (Own(serial, session, x, v) && !Displaces(serial, session, a, x))
  {
  }

  /** Action `j` inserted it and none has displaced it since. */
  ghost predicate Left(serial: string, session: nat, actions: seq<Action>, j: nat, x: Place) {
    && j < |actions| && Inserts(serial, session, actions[j], x)
    && (forall i :: j < i < |actions| ==> !Displaces(serial, session, actions[i], x))
  }

  lemma {:induction false} OwnIff(m: Maps, serial: string, session: nat, actions: seq<Action>, x: Place)
    requires !Own(serial, session, x, At(m, x))
    ensures Own(serial, session, x, At(Run(m, actions), x)) <==> exists j: nat :: Left(serial, session, actions, j, x)
  {
    hide Effect, Own, Inserts, Displaces, Next, At;
    if actions != [] {
      var n := |actions| - 1;
      var before := actions[..n];
      OwnIff(m, serial, session, before, x);
      Local(Run(m, before), actions[n], x);
      IsChan(Run(m, before), x);
      OwnStep(serial, session, actions[n], x, At(Run(m, before), x));
      LeftStep(serial, session, actions, n, x);
    }
  }

  lemma IsChan(m: Maps, x: Place)
    ensures x.Channel? ==> At(m, x).Chan?
  {
  }

  lemma LeftStep(serial: string, session: nat, actions: seq<Action>, n: nat, x: Place)
    requires |actions| == n + 1
    ensures (exists j: nat :: Left(serial, session, actions, j, x))
            <==> Inserts(serial, session, actions[n], x)
                 || (!Displaces(serial, session, actions[n], x)
                     && exists j: nat :: Left(serial, session, actions[..n], j, x))
  {
    hide Inserts, Displaces;
    if exists j: nat :: Left(serial, session, actions, j, x) {
      var j: nat :| Left(serial, session, actions, j, x);
      assert j < n ==> Left(serial, session, actions[..n], j, x);
    }
    if !Displaces(serial, session, actions[n], x) && exists j: nat :: Left(serial, session, actions[..n], j, x) {
      var j: nat :| Left(serial, session, actions[..n], j, x);
      assert Left(serial, session, actions, j, x);
    }
    assert Inserts(serial, session, actions[n], x) ==> Left(serial, session, actions, n, x);
  }

  lemma {:induction false} RunSplit(m: Maps, a: seq<Action>, b: seq<Action>)
    ensures Run(m, a + b) == Run(Run(m, a), b)
  {
    hide Next;
    if b == [] {
      assert a + b == a;
    } else {
      var n := |b| - 1;
      assert (a + b)[..|a + b| - 1] == a + b[..n];
      RunSplit(m, a, b[..n]);
    }
  }

  lemma Cleared(m: Maps, serial: string, session: nat, x: Place)
    ensures !Own(serial, session, x, At(Next(m, ClearStep(serial, session, x)), x))
  {
    hide Next;
    Local(m, ClearStep(serial, session, x), x);
  }

  lemma LeftLater(serial: string, session: nat, actions: seq<Action>, p: nat, after: seq<Action>, x: Place)
    requires p < |actions| && after == actions[p + 1..]
    ensures (exists j: nat :: Left(serial, session, after, j, x))
            <==> exists j: nat :: p < j && Left(serial, session, actions, j, x)
  {
    hide Inserts, Displaces;
    assert forall i :: 0 <= i < |after| ==> after[i] == actions[p + 1 + i];
    if exists j: nat :: Left(serial, session, after, j, x) {
      var j: nat :| Left(serial, session, after, j, x);
      assert forall i :: p + 1 + j < i < |actions| ==> actions[i] == after[i - p - 1];
      assert Left(serial, session, actions, p + 1 + j, x);
    }
    if exists j: nat :: p < j && Left(serial, session, actions, j, x) {
      var j: nat :| p < j && Left(serial, session, actions, j, x);
      assert Left(serial, session, after, j - p - 1, x);
    }
  }

  /**
   In every interleaving of the teardown with all other tasks, and for every
   place of every map: something of the session or its device is there in the
   end if and only if it was inserted after the step that clears that map, and
   not displaced since.
   */
  lemma RemainsIff(m: Maps, serial: string, session: nat, actions: seq<Action>, p: nat, x: Place)
    requires p < |actions| && actions[p] == ClearStep(serial, session, x)
    ensures Own(serial, session, x, At(Run(m, actions), x))
            <==> exists j: nat :: p < j && Left(serial, session, actions, j, x)
  {
    hide Own, Next, At, Left;
    var before, after := actions[..p], actions[p + 1..];
    var cleared := Run(m, before + [actions[p]]);
    assert actions == before + [actions[p]] + after;
    RunSplit(m, before + [actions[p]], after);
    RunOne(m, before, actions[p]);
    Cleared(Run(m, before), serial, session, x);
    OwnIff(cleared, serial, session, after, x);
    LeftLater(serial, session, actions, p, after, x);
  }

  lemma RunOne(m: Maps, actions: seq<Action>, a: Action)
    ensures Run(m, actions + [a]) == Next(Run(m, actions), a)
  {
    hide Next;
    assert (actions + [a])[..|actions|] == actions;
  }

  // ------------------------------------------------------------------
  // Writers
  // ------------------------------------------------------------------

  predicate HasWriter(m: Maps, c: nat) {
    c in m.writers
  }

  predicate Serves(m: Maps, c: nat, session: nat) {
    c in m.sessions && m.sessions[c] == session
  }

  /** The action shuts the writer of channel `c`, given the session it serves. */
  predicate TakesWriter(m: Maps, a: Action, c: nat) {
    a == EndChannel(c) || a == TakeWriter(c) || (a.CloseChannels? && Serves(m, c, a.session))
  }

  lemma WriterStep(m: Maps, a: Action, c: nat)
    ensures HasWriter(Next(m, a), c) <==> a == StartChannel(c) || (HasWriter(m, c) && !TakesWriter(m, a, c))
  {
    LocalChannel(m, a, c);
    hide Next;
    assert HasWriter(m, c) == At(m, Channel(c)).writer && HasWriter(Next(m, a), c) == At(Next(m, a), Channel(c)).writer;
  }

  /** Action `j` opened the writer and none has shut it since. */
  ghost predicate WriterLeft(m: Maps, actions: seq<Action>, j: nat, c: nat) {
    && j < |actions| && actions[j] == StartChannel(c)
    && (forall i :: j < i < |actions| ==> !TakesWriter(Run(m, actions[..i]), actions[i], c))
  }

  /**
   In every interleaving: the writer of a channel that served the session when
   its channels were closed is open in the end if and only if the channel was
   started again after that step, and its writer not shut since.
   */
  lemma {:induction false} WriterRemainsIff(m: Maps, session: nat, actions: seq<Action>, p: nat, c: nat)
    requires p < |actions| && actions[p] == CloseChannels(session) && Serves(Run(m, actions[..p]), c, session)
    ensures HasWriter(Run(m, actions), c) <==> exists j: nat :: p < j && WriterLeft(m, actions, j, c)
  {
    hide Next, HasWriter, Serves, TakesWriter;
    var n := |actions| - 1;
    var before := actions[..n];
    WriterStep(Run(m, before), actions[n], c);
    if n == p {
      ClosesServing(Run(m, before), session, c);
      assert forall j: nat :: p < j ==> !WriterLeft(m, actions, j, c);
    } else {
      assert before[..p] == actions[..p];
      WriterRemainsIff(m, session, before, p, c);
      WriterLeftStep(m, actions, n, p, c);
    }
  }

  lemma ClosesServing(m: Maps, session: nat, c: nat)
    ensures Serves(m, c, session) ==> TakesWriter(m, CloseChannels(session), c) && CloseChannels(session) != StartChannel(c)
  {
  }

  lemma WriterLeftStep(m: Maps, actions: seq<Action>, n: nat, p: nat, c: nat)
    requires |actions| == n + 1 && p < n
    ensures (exists j: nat :: p < j && WriterLeft(m, actions, j, c))
            <==> actions[n] == StartChannel(c)
                 || (!TakesWriter(Run(m, actions[..n]), actions[n], c)
                     && exists j: nat :: p < j && WriterLeft(m, actions[..n], j, c))
  {
    hide TakesWriter, Run;
    var before := actions[..n];
    assert forall i :: 0 <= i < n ==> before[..i] == actions[..i];
    if exists j: nat :: p < j && WriterLeft(m, actions, j, c) {
      var j: nat :| p < j && WriterLeft(m, actions, j, c);
      assert j < n ==> WriterLeft(m, before, j, c);
    }
    if !TakesWriter(Run(m, before), actions[n], c) && exists j: nat :: p < j && WriterLeft(m, before, j, c) {
      var j: nat :| p < j && WriterLeft(m, before, j, c);
      assert WriterLeft(m, actions, j, c);
    }
    assert actions[n] == StartChannel(c) ==> WriterLeft(m, actions, n, c);
  }

  /** So an entry that a task inserts once the teardown is through outlives its device. */
  lemma LateInsertRemains(m: Maps, serial: string, session: nat, key: string, entry: Entry)
    requires entry.device == serial
    ensures Own(serial, session, Forward(key), At(Run(m, Steps(serial, session) + [Insert(key, entry)]), Forward(key)))
  {
    hide Own, At, Run;
    var actions := Steps(serial, session) + [Insert(key, entry)];
    assert Left(serial, session, actions, 5, Forward(key));
    RemainsIff(m, serial, session, actions, 4, Forward(key));
  }

  // ------------------------------------------------------------------
  // Others
  // ------------------------------------------------------------------

  /** An action, and whether it is a step of the teardown in question. */
  datatype Tagged = Tagged(action: Action, mine: bool)

  function All(run: seq<Tagged>): seq<Action> {
    if run == [] then [] else All(run[..|run| - 1]) + [run[|run| - 1].action]
  }

  function Others(run: seq<Tagged>): seq<Action> {
    if run == [] then []
    else if run[|run| - 1].mine then Others(run[..|run| - 1])
    else Others(run[..|run| - 1]) + [run[|run| - 1].action]
  }

  lemma StepsKeepOthers(serial: string, session: nat, a: Action, x: Place, v: Slot)
    requires serial != "" && serial != "any" && a in Steps(serial, session) && !Own(serial, session, x, v)
    requires Fits(x, v)
    ensures Effect(a, x, v) == v
  {
  }

  /** The kind of slot that belongs to a place. */
  predicate Fits(x: Place, v: Slot) {
    match x
    case Device(_) => v.Gone? || v.Known?
    case Sender(_) => v.Gone? || v.Present?
    case Response(_, _) => v.Gone? || v.Present?
    case Channel(_) => v.Chan?
    case Mark(_) => v.Gone? || v.Present?
    case Forward(_) => v.Gone? || v.Entered?
  }

  lemma AtFits(m: Maps, x: Place)
    ensures Fits(x, At(m, x))
  {
  }

  /** Whenever the teardown takes a step, the place holds nothing of the session or its device. */
  ghost predicate NeverOwn(m: Maps, serial: string, session: nat, run: seq<Tagged>, x: Place) {
    forall i :: 0 <= i < |run| && run[i].mine ==> !Own(serial, session, x, At(Run(m, All(run[..i])), x))
  }

  /**
   In every interleaving, for a device called neither "" nor "any": a place
   that holds nothing of it or its session whenever the teardown takes a step
   ends up exactly as if the teardown had not happened.
   */
  lemma {:induction false} OthersUntouched(m: Maps, serial: string, session: nat, run: seq<Tagged>, x: Place)
    requires serial != "" && serial != "any"
    requires forall i :: 0 <= i < |run| && run[i].mine ==> run[i].action in Steps(serial, session)
    requires NeverOwn(m, serial, session, run, x)
    ensures At(Run(m, All(run)), x) == At(Run(m, Others(run)), x)
  {
    hide Own, Next, At, Effect, Steps;
    if run != [] {
      var n := |run| - 1;
      var before, last := run[..n], run[n];
      assert forall i :: 0 <= i < n ==> before[..i] == run[..i];
      OthersUntouched(m, serial, session, before, x);
      RunOne(m, All(before), last.action);
      Local(Run(m, All(before)), last.action, x);
      if last.mine {
        AtFits(Run(m, All(before)), x);
        StepsKeepOthers(serial, session, last.action, x, At(Run(m, All(before)), x));
      } else {
        RunOne(m, Others(before), last.action);
        Local(Run(m, Others(before)), last.action, x);
      }
    }
  }

  // ------------------------------------------------------------------
  // Teardown
  // ------------------------------------------------------------------

  ghost function Snapshot(devices: Devices, usb: Sessions, tcp: Channels, forwards: Forwards): Maps
    reads devices, usb, tcp, forwards
  {
    Maps(devices.entries, usb.senders, usb.responses, tcp.writers, tcp.sessions, tcp.keepAlive, forwards.entries)
  }

  function After(m: Maps, serial: string, session: nat, k: nat): Maps {
    if k == 0 || k > 5 then m else Next(After(m, serial, session, k - 1), Steps(serial, session)[k - 1])
  }

  lemma {:induction false} AfterIs(m: Maps, serial: string, session: nat, k: nat)
    requires k <= 5
    ensures After(m, serial, session, k) == Run(m, Steps(serial, session)[..k])
  {
    hide Next;
    if k > 0 {
      var steps := Steps(serial, session);
      AfterIs(m, serial, session, k - 1);
      assert steps[..k][..k - 1] == steps[..k - 1];
    }
  }

  lemma RunSteps(m: Maps, serial: string, session: nat)
    ensures Run(m, Steps(serial, session))
            == Maps(m.devices - {serial}, m.senders - {session} - {session}, OfOtherSessions(m.responses, session),
                    m.writers - ChannelsOf(m.sessions, session), m.sessions - ChannelsOf(m.sessions, session),
                    m.keepAlive, Unselected(serial, m.forwards))
  {
    hide ChannelsOf, Unselected, OfOtherSessions, Run;
    var steps := Steps(serial, session);
    AfterIs(m, serial, session, 5);
    assert steps[..5] == steps;
    var a := Next(m, Drop(serial));
    var b := Next(a, Cleanup(session));
    var c := Next(b, EndSession(session));
    var d := Next(c, CloseChannels(session));
    AfterFive(m, serial, session);
    assert Run(m, steps) == Next(d, RemoveAll(serial));
  }

  lemma AfterFive(m: Maps, serial: string, session: nat)
    ensures After(m, serial, session, 5)
            == Next(Next(Next(Next(Next(m, Drop(serial)), Cleanup(session)), EndSession(session)),
                         CloseChannels(session)), RemoveAll(serial))
  {
    hide Next;
    var a := After(m, serial, session, 1);
    var b := After(m, serial, session, 2);
    var c := After(m, serial, session, 3);
    var d := After(m, serial, session, 4);
    assert After(m, serial, session, 0) == m;
  }

  lemma NothingOwn(m: Maps, serial: string, session: nat, x: Place)
    ensures !Own(serial, session, x, At(Run(m, Steps(serial, session)), x))
  {
    hide Own, At, Run, Displaces;
    var steps := Steps(serial, session);
    var p := if x.Device? then 0 else if x.Sender? || x.Response? then 1 else if x.Channel? || x.Mark? then 3 else 4;
    assert steps[p] == ClearStep(serial, session, x);
    RemainsIff(m, serial, session, steps, p, x);
  }

  lemma {:induction false} NothingElseAfter(m: Maps, serial: string, session: nat, x: Place, k: nat)
    requires serial != "" && serial != "any" && k <= 5 && !Own(serial, session, x, At(m, x))
    ensures At(After(m, serial, session, k), x) == At(m, x)
  {
    hide Own, At, Effect, Next;
    if k > 0 {
      NothingElseAfter(m, serial, session, x, k - 1);
      var before := After(m, serial, session, k - 1);
      AtFits(before, x);
      Local(before, Steps(serial, session)[k - 1], x);
      StepsKeepOthers(serial, session, Steps(serial, session)[k - 1], x, At(before, x));
    }
  }

  lemma NothingElse(m: Maps, serial: string, session: nat, x: Place)
    requires serial != "" && serial != "any" && !Own(serial, session, x, At(m, x))
    ensures At(Run(m, Steps(serial, session)), x) == At(m, x)
  {
    hide Own, At, Next, Run;
    AfterIs(m, serial, session, 5);
    assert Steps(serial, session)[..5] == Steps(serial, session);
    NothingElseAfter(m, serial, session, x, 5);
  }

  /**
   Nothing of the session or its device is left, the writers of its channels
   included, and every other place is as it was.
   */
  ghost predicate TornDown(m: Maps, m': Maps, serial: string, session: nat) {
    && (forall x :: !Own(serial, session, x, At(m', x)))
    && (forall c :: Serves(m, c, session) ==> At(m', Channel(c)) == Chan(false, None))
    && (serial != "" && serial != "any" ==>
          forall x :: !Own(serial, session, x, At(m, x)) ==> At(m', x) == At(m, x))
  }

  lemma ServingClosed(m: Maps, serial: string, session: nat, c: nat)
    requires Serves(m, c, session)
    ensures At(Run(m, Steps(serial, session)), Channel(c)) == Chan(false, None)
  {
    hide Run, Steps;
    RunSteps(m, serial, session);
  }

  lemma StepsTearDown(m: Maps, serial: string, session: nat)
    ensures TornDown(m, Run(m, Steps(serial, session)), serial, session)
  {
    hide Own, At, Run, Steps;
    var m' := Run(m, Steps(serial, session));
    forall c | Serves(m, c, session) ensures At(m', Channel(c)) == Chan(false, None) {
      ServingClosed(m, serial, session, c);
    }
    forall x ensures !Own(serial, session, x, At(m', x)) {
      NothingOwn(m, serial, session, x);
    }
    if serial != "" && serial != "any" {
      forall x | !Own(serial, session, x, At(m, x)) ensures At(m', x) == At(m, x) {
        NothingElse(m, serial, session, x);
      }
    }
  }

  /** The end of start_usb_session, when no other task comes in between. */
  method EndUsbSession(serial: string, session: nat, devices: Devices, usb: Sessions, tcp: Channels, forwards: Forwards)
    requires devices.Valid()
    modifies devices, usb, tcp, forwards
    ensures devices.Valid()
    ensures Snapshot(devices, usb, tcp, forwards)
            == Run(old(Snapshot(devices, usb, tcp, forwards)), Steps(serial, session))
    ensures TornDown(old(Snapshot(devices, usb, tcp, forwards)), Snapshot(devices, usb, tcp, forwards), serial, session)
  {
    hide TornDown, Run, Steps, Own, At, ChannelsOf, OfOtherSessions, Unselected, Replay, Lists, ClosesOf;
    ghost var m := Snapshot(devices, usb, tcp, forwards);
    RunSteps(m, serial, session);
    StepsTearDown(m, serial, session);
    devices.Remove(serial);
    usb.EndWithCleanup(session);
    usb.End(session);
    tcp.CloseSession(session);
    var _, _ := forwards.RemoveAll(serial);
  }
}
