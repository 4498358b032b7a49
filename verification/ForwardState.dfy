/**
 The daemon's shared forward state: which listener serves a channel, and which
 forward connections belong to it.
 */
module ForwardState {
  import Rport

  /** A listener task, as its handle in the map reaches it. */
  class Listener {
    var channel: seq<Rport.Msg>
    var abortRequested: bool

    constructor ()
      ensures channel == [] && !abortRequested
    {
      channel, abortRequested := [], false;
    }
  }

  /** Connections of channels other than `channel`. */
  function Others(senders: map<nat, nat>, channel: nat): map<nat, nat> {
    map id | id in senders && senders[id] != channel :: senders[id]
  }

  class State {
    var senders: map<nat, nat>         // connection id -> channel
    var listeners: map<nat, Listener>  // channel -> listener

    /** Two channels never share a listener. */
    ghost predicate Valid()
      reads this
    {
      forall a, b :: a in listeners && b in listeners && a != b ==> listeners[a] != listeners[b]
    }

    constructor ()
      ensures Valid() && senders == map[] && listeners == map[]
    {
      senders, listeners := map[], map[];
    }

    /** handle_rport_init: the newest listener of a channel replaces an older one. */
    method Register(channel: nat) returns (l: Listener)
      requires Valid()
      modifies this`listeners
      ensures Valid() && fresh(l) && listeners == old(listeners)[channel := l]
      ensures l.channel == [] && !l.abortRequested
    {
      l := new Listener();
      listeners := listeners[channel := l];
    }

    /** The routing part of handle_forward_task: only the channel's own listener is reached. */
    method Route(channel: nat, m: Rport.Msg) returns (routed: bool)
      requires Valid()
      modifies listeners.Values
      ensures Valid() && routed == (channel in listeners)
      ensures forall c :: c in listeners ==>
                listeners[c].channel == old(listeners[c].channel) + (if c == channel then [m] else [])
                && listeners[c].abortRequested == old(listeners[c].abortRequested)
    {
      routed := channel in listeners;
      if routed {
        var l := listeners[channel];
        assert l in listeners.Values;
        l.channel := l.channel + [m];
      }
    }

    /**
     handle_channel_close: exactly that channel's listener and connections go,
     the listener is told to stop and aborted, and the answer says whether
     anything went.
     */
    method Close(channel: nat) returns (handled: bool)
      requires Valid()
      modifies this, listeners.Values
      ensures Valid()
      ensures listeners == old(listeners) - {channel}
      ensures forall id :: id in senders <==> id in old(senders) && old(senders)[id] != channel
      ensures forall id :: id in senders ==> senders[id] == old(senders)[id]
      ensures handled <==> (senders != old(senders) || listeners != old(listeners))
      ensures channel in old(listeners) ==>
                var l := old(listeners)[channel];
                l.abortRequested && l.channel == old(listeners[channel].channel) + [Rport.Stop]
      ensures forall c :: c in listeners ==>
                listeners[c].channel == old(listeners[c].channel)
                && listeners[c].abortRequested == old(listeners[c].abortRequested)
    {
      handled := false;
      if channel in listeners {
        var l := listeners[channel];
        assert l in listeners.Values;
        listeners := listeners - {channel};
        l.channel := l.channel + [Rport.Stop];
        l.abortRequested := true;
        handled := true;
      }
      var before := senders;
      senders := Others(senders, channel);
      if |senders| != |before| {
        handled := true;
      }
      Shrinks(before, channel);
    }

    /** cleanup_rport_listener. */
    method Unregister(channel: nat)
      requires Valid()
      modifies this`listeners
      ensures Valid() && listeners == old(listeners) - {channel}
    {
      listeners := listeners - {channel};
    }
  }

  /** Comparing lengths around `retain` detects exactly a removal. */
  lemma Shrinks(senders: map<nat, nat>, channel: nat)
    ensures |Others(senders, channel)| != |senders| <==> Others(senders, channel) != senders
    ensures Others(senders, channel) != senders <==> exists id :: id in senders && senders[id] == channel
  {
    var rest := Others(senders, channel);
    assert rest.Keys <= senders.Keys;
    if rest != senders {
      var id :| id in senders && id !in rest;
      Smaller(rest.Keys, senders.Keys, id);
      assert |rest| == |rest.Keys| && |senders| == |senders.Keys|;
    }
  }

  lemma Smaller(a: set<nat>, b: set<nat>, x: nat)
    requires a <= b && x in b && x !in a
    ensures |a| < |b|
  {
    var rest := b - a;
    assert b == a + rest && x in rest;
  }
}
