/**
 All sessions of one daemon. The session ciphers are one map by session id, and
 every new connection reads its first frame under id 0, before it has an id.
 */
module DaemonSessions {
  import opened Bytes
  import opened TextTlv
  import opened Negotiation

  /** A connection: its session id and both ends; the daemon's cipher is in the map. */
  datatype Conn = Conn(id: nat, s: State)

  datatype Global = Global(conns: map<nat, Conn>, ciphers: map<nat, Counters>)

  const NONE := Global(map[], map[])

  function Under(g: Global, id: nat): Option<Counters> {
    if id in g.ciphers then Some(g.ciphers[id]) else None
  }

  /** The connection with the cipher its id selects. */
  function View(g: Global, k: nat): State
    requires k in g.conns
  {
    g.conns[k].s.(daemonCipher := Under(g, g.conns[k].id))
  }

  function Stored(g: Global, k: nat, s: State): Global
    requires k in g.conns
  {
    var id := g.conns[k].id;
    Global(g.conns[k := Conn(id, s.(daemonCipher := None))],
           if s.daemonCipher.Some? then g.ciphers[id := s.daemonCipher.value] else g.ciphers - {id})
  }

  datatype Move =
    | Open(k: nat, id: nat, cfg: Config)  // a host connects, under a session id it chose
    | Step(k: nat, a: Action)

  /** The first frame is read under id 0; a frame that cannot be read so ends the connection. */
  function First(g: Global, k: nat, ok: bool): Global
    requires k in g.conns && g.conns[k].s.down != []
  {
    var s := g.conns[k].s.(daemonCipher := Under(g, 0));
    var t := DaemonTakes(s);
    if s.down[0].seal.Some? != s.daemonCipher.Some?
    then g.(conns := g.conns[k := Conn(g.conns[k].id, t.(daemon := DaemonDown, daemonCipher := None))])
    else Stored(g, k, Answers(t.(daemonCipher := Under(g, g.conns[k].id)), s.down[0].msg, ok))
  }

  function Next(g: Global, m: Move): Global {
    match m
    case Open(k, id, cfg) =>
      if k in g.conns then g
      else g.(conns := g.conns[k := Conn(id, Start(cfg))])
    case Step(k, a) =>
      if k !in g.conns then g
      else if a.DaemonFirst? then
        (if g.conns[k].s.daemon == Waiting && g.conns[k].s.down != [] then First(g, k, a.ok) else g)
      else Stored(g, k, Negotiation.Next(View(g, k), a))
  }

  function Run(g: Global, moves: seq<Move>): Global {
    if moves == [] then g
    else Next(Run(g, moves[..|moves| - 1]), moves[|moves| - 1])
  }

  // ------------------------------------------------------------------
  // Sessions do not disturb each other
  // ------------------------------------------------------------------

  /** Hosts choose distinct ids, and none chooses 0. */
  ghost predicate GoodIds(moves: seq<Move>) {
    && (forall i :: 0 <= i < |moves| && moves[i].Open? ==> moves[i].id != 0 && moves[i].cfg.Valid())
    && (forall i, j :: 0 <= i < j < |moves| && moves[i].Open? && moves[j].Open? ==> moves[i].id != moves[j].id)
  }

  ghost predicate Apart(g: Global) {
    && (forall k :: k in g.conns ==> g.conns[k].id != 0)
    && (forall j, k :: j in g.conns && k in g.conns && j != k ==> g.conns[j].id != g.conns[k].id)
    && (forall id :: id in g.ciphers ==> exists k :: k in g.conns && g.conns[k].id == id)
  }

  ghost predicate Good(g: Global) {
    Apart(g) && forall k :: k in g.conns ==> Inv(View(g, k))
  }

  /** Every id in use was chosen by an earlier connection. */
  ghost predicate Chosen(g: Global, moves: seq<Move>) {
    forall k :: k in g.conns ==> exists i :: 0 <= i < |moves| && moves[i].Open? && moves[i].id == g.conns[k].id
  }

  lemma StoredView(g: Global, k: nat, s: State, j: nat)
    requires Apart(g) && k in g.conns && j in g.conns
    ensures Apart(Stored(g, k, s))
    ensures View(Stored(g, k, s), j) == if j == k then s else View(g, j)
  {
    var g' := Stored(g, k, s);
    forall id | id in g'.ciphers ensures exists i :: i in g'.conns && g'.conns[i].id == id {
      if id == g.conns[k].id {
        assert k in g'.conns && g'.conns[k].id == id;
      } else {
        var i :| i in g.conns && g.conns[i].id == id;
        assert i in g'.conns && g'.conns[i].id == id;
      }
    }
  }

  /** With no session under id 0, the first read is the plain read of the single session. */
  lemma FirstIs(g: Global, k: nat, ok: bool)
    requires Good(g) && k in g.conns && g.conns[k].s.daemon == Waiting && g.conns[k].s.down != []
    ensures First(g, k, ok) == Stored(g, k, OnFirst(View(g, k), ok))
  {
    hide HostAuthBuf, SupportsEncrypt, HostPubkey, Answers;
    var v := View(g, k);
    assert Under(g, 0) == None;
    assert v.daemonCipher == None && v.down[0] == HelloFrame(v.cfg);
    assert DaemonTakes(v) == DaemonTakes(v).(daemonCipher := None);
  }

  lemma OpenGood(g: Global, k: nat, id: nat, cfg: Config)
    requires Good(g) && k !in g.conns && id != 0 && cfg.Valid()
    requires forall j :: j in g.conns ==> g.conns[j].id != id
    ensures Good(Next(g, Open(k, id, cfg)))
  {
    hide Inv, Apart;
    var s := Start(cfg);
    var g' := g.(conns := g.conns[k := Conn(id, s)]);
    InitInv(s);
    OpenApart(g, k, Conn(id, s));
    assert View(g', k) == s;
    assert forall j :: j in g.conns ==> View(g', j) == View(g, j);
  }

  lemma OpenApart(g: Global, k: nat, c: Conn)
    requires Apart(g) && k !in g.conns && c.id != 0 && forall j :: j in g.conns ==> g.conns[j].id != c.id
    ensures Apart(g.(conns := g.conns[k := c])) && c.id !in g.ciphers
  {
    var g' := g.(conns := g.conns[k := c]);
    forall x | x in g'.ciphers ensures exists i :: i in g'.conns && g'.conns[i].id == x {
      var i :| i in g.conns && g.conns[i].id == x;
      assert i in g'.conns && g'.conns[i].id == x;
    }
  }

  lemma StepGood(g: Global, k: nat, s: State)
    requires Good(g) && k in g.conns && Inv(s)
    ensures Good(Stored(g, k, s))
  {
    hide Inv, View, Stored, Apart;
    StoredApart(g, k, s);
    forall j | j in Stored(g, k, s).conns ensures Inv(View(Stored(g, k, s), j)) {
      StoredView(g, k, s, j);
    }
  }

  lemma StoredApart(g: Global, k: nat, s: State)
    requires Apart(g) && k in g.conns
    ensures Apart(Stored(g, k, s)) && Stored(g, k, s).conns.Keys == g.conns.Keys
    ensures forall j :: j in g.conns ==> Stored(g, k, s).conns[j].id == g.conns[j].id
  {
    StoredView(g, k, s, k);
  }

  /** A step of one connection is a step of its own session, and of no other. */
  lemma NextGood(g: Global, m: Move)
    requires Good(g)
    requires m.Open? ==> m.id != 0 && m.cfg.Valid() && forall j :: j in g.conns ==> g.conns[j].id != m.id
    ensures Good(Next(g, m))
  {
    hide Inv, Stored, First, Good, Negotiation.Next, OnFirst;
    if m.Open? {
      if m.k !in g.conns { OpenGood(g, m.k, m.id, m.cfg); }
    } else if m.k in g.conns {
      ViewInv(g, m.k);
      NextKeeps(View(g, m.k), m.a);
      if !m.a.DaemonFirst? {
        StepGood(g, m.k, Negotiation.Next(View(g, m.k), m.a));
      } else if g.conns[m.k].s.daemon == Waiting && g.conns[m.k].s.down != [] {
        FirstIs(g, m.k, m.a.ok);
        FirstKeeps(View(g, m.k), m.a.ok);
        StepGood(g, m.k, OnFirst(View(g, m.k), m.a.ok));
      }
    }
  }

  lemma ViewInv(g: Global, k: nat)
    requires Good(g) && k in g.conns
    ensures Inv(View(g, k))
  {
  }

  lemma IdsKept(g: Global, m: Move, j: nat)
    requires j in Next(g, m).conns
    ensures if j in g.conns then Next(g, m).conns[j].id == g.conns[j].id
            else m.Open? && m.k == j && Next(g, m).conns[j].id == m.id
  {
    hide Negotiation.Next, Answers, DaemonTakes;
  }

  lemma {:induction false} RunGood(moves: seq<Move>)
    requires GoodIds(moves)
    ensures Good(Run(NONE, moves)) && Chosen(Run(NONE, moves), moves)
  {
    hide Next, Good;
    if moves == [] {
      NoneGood();
    } else {
      var n := |moves| - 1;
      var before, m := moves[..n], moves[n];
      RunGood(before);
      var g := Run(NONE, before);
      if m.Open? {
        forall j | j in g.conns ensures g.conns[j].id != m.id {
          var i :| 0 <= i < |before| && before[i].Open? && before[i].id == g.conns[j].id;
          assert moves[i] == before[i];
        }
      }
      NextGood(g, m);
      forall j | j in Next(g, m).conns
        ensures exists i :: 0 <= i < |moves| && moves[i].Open? && moves[i].id == Next(g, m).conns[j].id
      {
        IdsKept(g, m, j);
        if j in g.conns {
          var i :| 0 <= i < |before| && before[i].Open? && before[i].id == g.conns[j].id;
          assert moves[i] == before[i];
        } else {
          assert moves[n].Open? && moves[n].id == Next(g, m).conns[j].id;
        }
      }
    }
  }

  lemma NoneGood()
    ensures Good(NONE)
  {
  }

  /**
   For any number of sessions with any settings, interleaved in any way, under
   distinct ids of which none is 0: every frame of every session is read as it
   was sealed if and only if it is not a late frame of an encrypted session.
   */
  lemma SessionsMatchIff(moves: seq<Move>, k: nat)
    requires GoodIds(moves) && k in Run(NONE, moves).conns
    ensures var s := Run(NONE, moves).conns[k].s;
            forall i :: 0 <= i < |s.seen| ==>
              (s.seen[i].seal == s.seen[i].expected <==> !(s.seen[i].late && s.cfg.Encrypted()))
  {
    hide Run, HostAuthBuf;
    RunGood(moves);
    ViewInv(Run(NONE, moves), k);
  }

  // ------------------------------------------------------------------
  // Each session runs as if it were alone
  // ------------------------------------------------------------------

  /** The actions of connection `k`, from its opening on. */
  function OwnActions(moves: seq<Move>, k: nat): seq<Action> {
    if moves == [] then []
    else
      var n := |moves| - 1;
      var before, m := OwnActions(moves[..n], k), moves[n];
      if m.Step? && m.k == k && k in Run(NONE, moves[..n]).conns then before + [m.a] else before
  }

  lemma OpenView(g: Global, m: Move, k: nat)
    requires Good(g) && m.Open? && m.k !in g.conns && m.id != 0 && forall j :: j in g.conns ==> g.conns[j].id != m.id
    requires k in Next(g, m).conns
    ensures View(Next(g, m), k) == if k == m.k then Start(m.cfg) else View(g, k)
  {
    hide Inv, Apart;
    OpenApart(g, m.k, Conn(m.id, Start(m.cfg)));
  }

  lemma StepView(g: Global, i: nat, a: Action, k: nat)
    requires Good(g) && i in g.conns && k in g.conns
    ensures var t := Next(g, Step(i, a));
            k in t.conns && View(t, k) == if k == i then Negotiation.Next(View(g, k), a) else View(g, k)
  {
    hide Inv, Stored, First, Answers, DaemonTakes;
    var v := View(g, i);
    if !a.DaemonFirst? {
      StoredAt(g, i, Negotiation.Next(v, a), k);
    } else if v.daemon == Waiting && v.down != [] {
      FirstIs(g, i, a.ok);
      StoredAt(g, i, OnFirst(v, a.ok), k);
    }
  }

  lemma StoredAt(g: Global, i: nat, s: State, k: nat)
    requires Good(g) && i in g.conns && k in g.conns
    ensures k in Stored(g, i, s).conns && View(Stored(g, i, s), k) == if k == i then s else View(g, k)
  {
    hide Inv;
    StoredView(g, i, s, k);
  }

  lemma RunPush(s: State, acts: seq<Action>, a: Action)
    ensures Negotiation.Run(s, acts + [a]) == Negotiation.Next(Negotiation.Run(s, acts), a)
  {
    hide Negotiation.Next;
    assert (acts + [a])[..|acts|] == acts;
  }

  lemma {:induction false} UnopenedHasNone(moves: seq<Move>, k: nat)
    requires k !in Run(NONE, moves).conns
    ensures OwnActions(moves, k) == []
  {
    if moves != [] {
      var n := |moves| - 1;
      Kept(Run(NONE, moves[..n]), moves[n], k);
      hide Next;
      UnopenedHasNone(moves[..n], k);
    }
  }

  lemma Kept(g: Global, m: Move, k: nat)
    ensures k in g.conns ==> k in Next(g, m).conns
    ensures k !in g.conns && k in Next(g, m).conns ==> m.Open? && m.k == k
  {
    hide Negotiation.Next, Answers, DaemonTakes;
  }

  /**
   For any number of sessions, interleaved in any way under distinct ids of
   which none is 0, each session is in exactly the state that its own actions
   lead to when it is alone.
   */
  lemma {:induction false} SessionIsOwnRun(moves: seq<Move>, k: nat)
    requires GoodIds(moves) && k in Run(NONE, moves).conns
    ensures var v := View(Run(NONE, moves), k); v == Negotiation.Run(Start(v.cfg), OwnActions(moves, k))
  {
    hide Next, View, Good, Negotiation.Run, Negotiation.Next, Inv;
    if moves != [] {
      var n := |moves| - 1;
      var before, m := moves[..n], moves[n];
      var g := Run(NONE, before);
      RunGood(before);
      Kept(g, m, k);
      if k !in g.conns {
        UnopenedHasNone(before, k);
        FreshId(moves, n);
        OpenView(g, m, k);
        AloneStart(m.cfg);
      } else {
        SessionIsOwnRun(before, k);
        MoveView(moves, n, k);
        RunPush(Start(View(g, k).cfg), OwnActions(before, k), if m.Step? then m.a else HostFail);
        if m.Step? { SameConfig(View(g, k), m.a); }
      }
    }
  }

  lemma AloneStart(cfg: Config)
    ensures Negotiation.Run(Start(cfg), []) == Start(cfg) && Start(cfg).cfg == cfg
  {
  }

  /** The id of a new connection is new. */
  lemma FreshId(moves: seq<Move>, n: nat)
    requires GoodIds(moves) && n < |moves| && moves[n].Open?
    ensures var g := Run(NONE, moves[..n]); forall j :: j in g.conns ==> g.conns[j].id != moves[n].id
  {
    hide Run, Good;
    RunGood(moves[..n]);
    var g := Run(NONE, moves[..n]);
    forall j | j in g.conns ensures g.conns[j].id != moves[n].id {
      var i :| 0 <= i < n && moves[..n][i].Open? && moves[..n][i].id == g.conns[j].id;
      assert moves[i] == moves[..n][i];
    }
  }

  lemma MoveView(moves: seq<Move>, n: nat, k: nat)
    requires GoodIds(moves) && n < |moves| && k in Run(NONE, moves[..n]).conns
    ensures var g, m := Run(NONE, moves[..n]), moves[n];
            && k in Next(g, m).conns
            && View(Next(g, m), k) == if m.Step? && m.k == k then Negotiation.Next(View(g, k), m.a) else View(g, k)
  {
    hide Run, Good, View, First, Stored, Negotiation.Next;
    RunGood(moves[..n]);
    var g, m := Run(NONE, moves[..n]), moves[n];
    if m.Open? {
      if m.k !in g.conns {
        FreshId(moves, n);
        OpenView(g, m, k);
      }
    } else if m.k in g.conns {
      StepView(g, m.k, m.a, k);
    }
  }

  // ------------------------------------------------------------------
  // Id 0
  // ------------------------------------------------------------------

  /** A plain first frame is read as it was written if and only if no cipher is kept under id 0. */
  lemma FirstReadIff(g: Global, k: nat, ok: bool)
    requires k in g.conns && g.conns[k].s.down != [] && g.conns[k].s.down[0].seal == None
    ensures var s := First(g, k, ok).conns[k].s; var n := |g.conns[k].s.seen|;
            && |s.seen| == n + 1
            && (s.seen[n].seal == s.seen[n].expected <==> 0 !in g.ciphers)
            && (0 in g.ciphers ==> s.daemon == DaemonDown)
  {
    hide SupportsEncrypt, HostPubkey;
  }

  /** And a session under id 0 that has offered its key keeps one there. */
  lemma ZeroIdKeepsCipher(cfg: Config)
    requires cfg.Valid() && cfg.Encrypted()
    ensures var g := Run(NONE, [Open(1, 0, cfg), Step(1, HostHello), Step(1, DaemonFirst(true))]);
            0 in g.ciphers && 1 in g.conns && g.conns[1].s.daemon == AwaitingAck
  {
    hide HostAuthBuf, SupportsEncrypt, HostPubkey;
    var a := Next(NONE, Open(1, 0, cfg));
    var s := Start(cfg);
    assert a == Global(map[1 := Conn(0, s)], map[]);
    assert View(a, 1) == s && Negotiation.Next(s, HostHello) == Greeted(cfg);
    var b := Next(a, Step(1, HostHello));
    assert b.conns == map[1 := Conn(0, Greeted(cfg))] && b.ciphers == map[];
    OfferUnderZero(cfg, b);
    RunThree(Open(1, 0, cfg), Step(1, HostHello), Step(1, DaemonFirst(true)));
  }

  lemma OfferUnderZero(cfg: Config, b: Global)
    requires cfg.Valid() && cfg.Encrypted() && b == Global(map[1 := Conn(0, Greeted(cfg))], map[])
    ensures var g := Next(b, Step(1, DaemonFirst(true)));
            0 in g.ciphers && 1 in g.conns && g.conns[1].s.daemon == AwaitingAck
  {
    HostAuthBufReads(cfg.key, cfg.hostFlag);
    hide HostAuthBuf, SupportsEncrypt, HostPubkey;
  }

  lemma RunThree(a: Move, b: Move, c: Move)
    ensures Run(NONE, [a, b, c]) == Next(Next(Next(NONE, a), b), c)
  {
    hide Next;
    var m := [a, b, c];
    assert m[..2] == [a, b] && [a, b][..1] == [a] && [a][..0] == [];
    assert Run(NONE, []) == NONE;
    assert Run(NONE, [a]) == Next(NONE, a);
    assert Run(NONE, [a, b]) == Next(Next(NONE, a), b);
  }
}
