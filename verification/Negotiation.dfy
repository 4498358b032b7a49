/**
 A host/daemon TCP session from the first handshake on: both ends switch from
 plain to sealed frames in mid-stream. The two environment flags and the
 presence of a public key are the configuration; RSA and base64 are outcomes.
 */
module Negotiation {
  import opened Bytes
  import opened TextTlv

  /** `App` is any later message; `handshake` says its command is KernelHandshake. */
  datatype Msg = Hello(buf: Ascii) | Psk | AuthOk | Ack | App(handshake: bool)

  /**
   A frame as its sender wrote it: sealed under a counter, or plain. `late`
   marks what a task of the daemon sends after the session loop has ended.
   */
  datatype Frame = Frame(msg: Msg, seal: Option<nat>, late: bool)

  /** The counters of a session cipher. */
  datatype Counters = Counters(send: nat, recv: nat)

  datatype HostPhase = Greeting | Authenticating | Ready | HostDown
  datatype DaemonPhase = Waiting | AwaitingAck | Serving | Ended | DaemonDown

  datatype Config = Config(hostFlag: bool, daemonFlag: bool, key: Option<Ascii>) {
    predicate Valid() { key.Some? ==> |key.value| < LIMIT }

    /** The documented meaning of the flags. */
    predicate Encrypted() { hostFlag && daemonFlag && key.Some? }
  }

  /** One read: how the frame was sealed, and what the reader's cipher was due, if it had one. */
  datatype Seen = Seen(seal: Option<nat>, expected: Option<nat>, late: bool)

  datatype State = State(
    cfg: Config, host: HostPhase, hostCipher: Option<Counters>, daemon: DaemonPhase, daemonCipher: Option<Counters>,
    down: seq<Frame>, up: seq<Frame>, seen: seq<Seen>)

  ghost predicate Init(s: State) {
    s.cfg.Valid() && s == State(s.cfg, Greeting, None, Waiting, None, [], [], [])
  }

  // ------------------------------------------------------------------
  // Steps
  // ------------------------------------------------------------------

  function SealOf(c: Option<Counters>): Option<nat> {
    if c.Some? then Some(c.value.send) else None
  }

  function RecvOf(c: Option<Counters>): Option<nat> {
    if c.Some? then Some(c.value.recv) else None
  }

  /** TcpMap::send_to_session: sealed exactly when the session has a cipher. */
  function HostSends(s: State, m: Msg): State {
    s.(down := s.down + [Frame(m, SealOf(s.hostCipher), false)],
       hostCipher := if s.hostCipher.Some? then Some(s.hostCipher.value.(send := s.hostCipher.value.send + 1)) else None)
  }

  /** send_message of the daemon's transport. */
  function DaemonSends(s: State, m: Msg): State {
    s.(up := s.up + [Frame(m, SealOf(s.daemonCipher), s.daemon == Ended)],
       daemonCipher := if s.daemonCipher.Some? then Some(s.daemonCipher.value.(send := s.daemonCipher.value.send + 1)) else None)
  }

  /** Decrypting takes the counter from the frame. */
  function Advance(c: Option<Counters>, f: Frame): Option<Counters> {
    if c.Some? && f.seal.Some? then Some(c.value.(recv := f.seal.value + 1)) else c
  }

  /** Take one frame as the host: in the auth loop without the cipher, later with it. */
  function HostTakes(s: State): State
    requires s.up != []
  {
    s.(up := s.up[1..], seen := s.seen + [Seen(s.up[0].seal, RecvOf(s.hostCipher), s.up[0].late)],
       hostCipher := Advance(s.hostCipher, s.up[0]))
  }

  function DaemonTakes(s: State): State
    requires s.down != []
  {
    s.(down := s.down[1..], seen := s.seen + [Seen(s.down[0].seal, RecvOf(s.daemonCipher), s.down[0].late)],
       daemonCipher := Advance(s.daemonCipher, s.down[0]))
  }

  datatype Action =
    | HostHello
    | DaemonFirst(ok: bool)      // ok: the key is encrypted for the host
    | HostAuth(ok: bool)         // ok: base64, RSA and the length check succeed
    | DaemonAck
    | HostSend(m: Msg)
    | HostRead
    | DaemonSend(m: Msg)         // any task of the session, even after its loop
    | DaemonRead
    | DaemonEnd                  // the session loop ends and removes the cipher
    | HostFail                   // timeouts, malformed frames, closed sockets
    | DaemonFail

  /** The daemon's answer to its first message, once that has been read. */
  function Answers(t: State, m: Msg, ok: bool): State {
    var buf: Ascii := if m.Hello? then m.buf else [];
    var enabled := t.cfg.daemonFlag && SupportsEncrypt(buf);
    if enabled && HostPubkey(buf).Some? then
      if ok then DaemonSends(t, Psk).(daemonCipher := Some(Counters(0, 0)), daemon := AwaitingAck)
      else t.(daemon := DaemonDown)
    else DaemonSends(t, AuthOk).(daemon := if enabled then AwaitingAck else Serving)
  }

  function OnFirst(s: State, ok: bool): State
    requires s.down != []
  {
    Answers(DaemonTakes(s), s.down[0].msg, ok)
  }

  function OnAuth(s: State, ok: bool): State
    requires s.up != []
  {
    var m, t := s.up[0].msg, HostTakes(s);
    match m
    case AuthOk => t.(host := Ready)
    case Psk =>
      if s.cfg.hostFlag && ok then HostSends(t.(hostCipher := Some(Counters(0, 0))), Ack).(host := Ready)
      else t.(host := HostDown)
    case App(handshake) => if handshake then t.(host := HostDown) else t
    case _ => t.(host := HostDown)
  }

  function OnAck(s: State): State
    requires s.down != []
  {
    var m, t := s.down[0].msg, DaemonTakes(s);
    if m.Ack? || m.Hello? || (m.App? && m.handshake) then t.(daemon := Serving)
    else t.(daemon := DaemonDown, daemonCipher := None)
  }

  /** A frame that cannot be read as the reader expects ends the session of that side. */
  function OnHostRead(s: State): State
    requires s.up != []
  {
    if s.up[0].seal.Some? == s.hostCipher.Some? then HostTakes(s) else HostTakes(s).(host := HostDown)
  }

  function OnDaemonRead(s: State): State
    requires s.down != []
  {
    if s.down[0].seal.Some? == s.daemonCipher.Some? then DaemonTakes(s)
    else DaemonTakes(s).(daemon := Ended, daemonCipher := None)
  }

  function Next(s: State, a: Action): State {
    match a
    case HostHello =>
      if s.host == Greeting then HostSends(s, Hello(HostAuthBuf(s.cfg.key, s.cfg.hostFlag))).(host := Authenticating) else s
    case DaemonFirst(ok) => if s.daemon == Waiting && s.down != [] then OnFirst(s, ok) else s
    case HostAuth(ok) => if s.host == Authenticating && s.up != [] then OnAuth(s, ok) else s
    case DaemonAck => if s.daemon == AwaitingAck && s.down != [] then OnAck(s) else s
    case HostSend(m) => if s.host == Ready && m.App? then HostSends(s, m) else s
    case HostRead => if s.host == Ready && s.up != [] then OnHostRead(s) else s
    case DaemonSend(m) => if m.App? && (s.daemon == Serving || s.daemon == Ended) then DaemonSends(s, m) else s
    case DaemonRead => if s.daemon == Serving && s.down != [] then OnDaemonRead(s) else s
    case DaemonEnd => if s.daemon == Serving then s.(daemon := Ended, daemonCipher := None) else s
    case HostFail => s.(host := HostDown)
    case DaemonFail => if s.daemon == Ended then s else s.(daemon := DaemonDown)
  }

  function Run(s: State, actions: seq<Action>): State {
    if actions == [] then s
    else Next(Run(s, actions[..|actions| - 1]), actions[|actions| - 1])
  }

  // ------------------------------------------------------------------
  // The invariant
  // ------------------------------------------------------------------

  /** Each read was as due, except exactly those of late frames in an encrypted session. */
  ghost predicate MatchIff(seen: seq<Seen>, encrypted: bool) {
    forall i :: 0 <= i < |seen| ==> (seen[i].seal == seen[i].expected <==> !(seen[i].late && encrypted))
  }

  /** Frames sealed under consecutive counters, from the receiver's to the sender's. */
  ghost predicate SealedRun(q: seq<Frame>, recv: nat, send: nat) {
    && send == recv + |q|
    && (forall i :: 0 <= i < |q| ==> q[i].seal == Some(recv + i))
  }

  /** The same with late frames, which are plain, at the end. */
  ghost predicate LateTail(q: seq<Frame>, recv: nat) {
    && (forall i :: 0 <= i < |q| ==> q[i].seal == if q[i].late then None else Some(recv + i))
    && (forall i, j :: 0 <= i < j < |q| && q[i].late ==> q[j].late)
  }

  ghost predicate NoneLate(q: seq<Frame>) {
    forall i :: 0 <= i < |q| ==> !q[i].late
  }

  ghost predicate AllPlain(q: seq<Frame>) {
    forall i :: 0 <= i < |q| ==> q[i].seal == None
  }

  function HelloFrame(cfg: Config): Frame {
    Frame(Hello(HostAuthBuf(cfg.key, cfg.hostFlag)), None, false)
  }

  /** Before the daemon has answered. */
  ghost predicate Opening(s: State) {
    && (s.host == Greeting ==> s.daemon == Waiting || s.daemon == DaemonDown)
    && (s.host == Greeting ==> s.down == [])
    && (s.daemon == Waiting || s.host == Greeting ==> s.up == [] && s.hostCipher == None && s.daemonCipher == None)
    && (s.daemon == Waiting ==> s.host != Ready && (s.down == [] || s.down == [HelloFrame(s.cfg)]))
  }

  /** A session that stays plain. */
  ghost predicate PlainSession(s: State) {
    && s.hostCipher == None && s.daemonCipher == None
    && AllPlain(s.down) && AllPlain(s.up)
    && (forall i :: 0 <= i < |s.up| ==> s.up[i].msg != Psk)
  }

  /** A session that switches: the daemon after its answer, the host after reading it. */
  ghost predicate SealedSession(s: State) {
    && (s.host == Ready ==> s.hostCipher.Some?)
    && (s.host == Authenticating ==> s.hostCipher.None?)
    && (s.daemon == AwaitingAck || s.daemon == Serving ==> s.daemonCipher.Some?)
    && (s.daemon == Serving || s.daemon == Ended ==> s.hostCipher.Some?)
    && (s.daemon == Ended ==> s.daemonCipher.None?)
    && (s.hostCipher.None? ==> s.up == [] || s.up == [Frame(Psk, None, false)])
    && (s.hostCipher.None? && s.daemon == AwaitingAck ==> s.down == [] && s.daemonCipher.value == Counters(0, 0))
    && (s.hostCipher.Some? ==>
          var h := s.hostCipher.value;
          && LateTail(s.up, h.recv)
          && (s.daemon == AwaitingAck || s.daemon == Serving ==>
                var d := s.daemonCipher.value; SealedRun(s.up, h.recv, d.send) && SealedRun(s.down, d.recv, h.send)))
  }

  ghost predicate Inv(s: State) {
    && s.cfg.Valid()
    && MatchIff(s.seen, s.cfg.Encrypted())
    && NoneLate(s.down) && (s.daemon != Ended ==> NoneLate(s.up))
    && Opening(s)
    && (if s.cfg.Encrypted() then s.daemon != Waiting && s.host != Greeting ==> SealedSession(s) else PlainSession(s))
  }

  /** The daemon's answer to the host's buffer follows the configuration. */
  lemma AnswerIs(s: State, ok: bool)
    requires Inv(s) && s.daemon == Waiting && s.down != []
    ensures var t := DaemonTakes(s); var enabled := s.cfg.daemonFlag && s.cfg.hostFlag;
            OnFirst(s, ok) ==
              if s.cfg.Encrypted() then
                if ok then DaemonSends(t, Psk).(daemonCipher := Some(Counters(0, 0)), daemon := AwaitingAck)
                else t.(daemon := DaemonDown)
              else DaemonSends(t, AuthOk).(daemon := if enabled then AwaitingAck else Serving)
  {
    HostAuthBufReads(s.cfg.key, s.cfg.hostFlag);
    hide HostAuthBuf, SupportsEncrypt, HostPubkey, DaemonTakes, DaemonSends;
  }

  /** The answered state satisfies the invariant: the daemon gave up, offered a key, or accepted. */
  lemma AnsweredInv(s: State, t: State)
    requires Inv(s) && s.daemon == Waiting && s.host != Greeting && s.host != Ready && s.hostCipher == None
    requires t == s.(down := [], up := t.up, seen := t.seen, daemon := t.daemon, daemonCipher := t.daemonCipher)
    requires MatchIff(t.seen, s.cfg.Encrypted())
    requires if s.cfg.Encrypted()
             then (t.daemon == DaemonDown && t.up == [] && t.daemonCipher == None)
                  || (t.daemon == AwaitingAck && t.up == [Frame(Psk, None, false)] && t.daemonCipher == Some(Counters(0, 0)))
             else (t.daemon == AwaitingAck || t.daemon == Serving)
                  && t.up == [Frame(AuthOk, None, false)] && t.daemonCipher == None
    ensures Inv(t)
  {
    hide HostAuthBuf;
  }

  lemma FirstKeeps(s: State, ok: bool)
    requires Inv(s) && s.daemon == Waiting && s.down != []
    ensures Inv(OnFirst(s, ok))
  {
    AnswerIs(s, ok);
    hide HostAuthBuf, OnFirst, PlainSession, SealedSession;
    var t := DaemonTakes(s);
    assert t == s.(down := [], seen := s.seen + [Seen(None, None, false)], daemonCipher := None);
    hide DaemonTakes;
    AnsweredInv(s, OnFirst(s, ok));
  }

  lemma AuthKeeps(s: State, ok: bool)
    requires Inv(s) && s.host == Authenticating && s.up != []
    ensures Inv(OnAuth(s, ok))
  {
    hide HostAuthBuf;
  }

  lemma AckKeeps(s: State)
    requires Inv(s) && s.daemon == AwaitingAck && s.down != []
    ensures Inv(OnAck(s))
  {
    hide HostAuthBuf;
  }

  lemma SendsKeep(s: State, m: Msg)
    requires Inv(s) && m.App?
    ensures s.host == Ready ==> Inv(HostSends(s, m))
    ensures s.daemon == Serving || s.daemon == Ended ==> Inv(DaemonSends(s, m))
  {
    hide HostAuthBuf;
  }

  lemma ReadsKeep(s: State)
    requires Inv(s)
    ensures s.host == Ready && s.up != [] ==> Inv(OnHostRead(s))
    ensures s.daemon == Serving && s.down != [] ==> Inv(OnDaemonRead(s))
  {
    hide HostAuthBuf;
  }

  lemma NextKeeps(s: State, a: Action)
    requires Inv(s)
    ensures Inv(Next(s, a))
  {
    hide HostAuthBuf, OnFirst, OnAck, OnAuth;
    match a
    case DaemonFirst(ok) => if s.daemon == Waiting && s.down != [] { FirstKeeps(s, ok); }
    case HostAuth(ok) => if s.host == Authenticating && s.up != [] { AuthKeeps(s, ok); }
    case DaemonAck => if s.daemon == AwaitingAck && s.down != [] { AckKeeps(s); }
    case HostSend(m) => if m.App? { SendsKeep(s, m); }
    case DaemonSend(m) => if m.App? { SendsKeep(s, m); }
    case HostRead => ReadsKeep(s);
    case DaemonRead => ReadsKeep(s);
    case _ =>
  }

  lemma {:induction false} RunKeeps(s: State, actions: seq<Action>)
    requires Init(s)
    ensures Inv(Run(s, actions)) && Run(s, actions).cfg == s.cfg
  {
    hide Inv, Next;
    if actions == [] {
      InitInv(s);
    } else {
      var n := |actions| - 1;
      RunKeeps(s, actions[..n]);
      NextKeeps(Run(s, actions[..n]), actions[n]);
      SameConfig(Run(s, actions[..n]), actions[n]);
    }
  }

  lemma InitInv(s: State)
    requires Init(s)
    ensures Inv(s)
  {
  }

  lemma SameConfig(s: State, a: Action)
    ensures Next(s, a).cfg == s.cfg
  {
    hide HostAuthBuf, SupportsEncrypt, HostPubkey;
  }

  // ------------------------------------------------------------------
  // What the invariant promises
  // ------------------------------------------------------------------

  /** What the host will expect of frame `i` of `up`: the counter due, if it reads through the cipher. */
  function Due(s: State, i: nat): Option<nat> {
    if s.hostCipher.Some? then Some(s.hostCipher.value.recv + i) else None
  }

  /**
   For all settings of the flags, with or without a public key, and for every
   run and every frame read by either side: it was read through the cipher as
   it was sealed, under the counter that was due, if and only if it is not a
   late frame of an encrypted session; and an authenticated session is sealed
   exactly when both flags are set and the host sent its key.
   */
  lemma FramesMatchIff(s: State, actions: seq<Action>)
    requires Init(s)
    ensures var t := Run(s, actions);
            && (forall i :: 0 <= i < |t.seen| ==>
                  (t.seen[i].seal == t.seen[i].expected <==> !(t.seen[i].late && s.cfg.Encrypted())))
            && (t.host == Ready ==> (t.hostCipher.Some? <==> s.cfg.Encrypted()))
            && (t.daemon == Serving ==> (t.daemonCipher.Some? <==> s.cfg.Encrypted()))
  {
    hide HostAuthBuf, Run;
    RunKeeps(s, actions);
  }

  /** The same of every frame still on its way to the host, whatever was sent before it. */
  lemma PendingMatchIff(s: State, actions: seq<Action>, i: nat)
    requires Init(s) && i < |Run(s, actions).up|
    ensures var t := Run(s, actions); t.up[i].seal == Due(t, i) <==> !(t.up[i].late && s.cfg.Encrypted())
  {
    hide HostAuthBuf, Run;
    RunKeeps(s, actions);
  }

  /** After every run, a frame is late exactly when it is sent once the session loop has ended. */
  lemma SentLateIff(s: State, actions: seq<Action>, m: Msg)
    requires Init(s) && m.App? && (Run(s, actions).daemon == Serving || Run(s, actions).daemon == Ended)
    ensures var t := Run(s, actions); var u := Next(t, DaemonSend(m));
            && u.up[..|u.up| - 1] == t.up
            && u.up[|t.up|].late == (t.daemon == Ended)
            && (u.up[|t.up|].seal == Due(t, |t.up|) <==> !(t.daemon == Ended && s.cfg.Encrypted()))
  {
    hide HostAuthBuf, Run;
    RunKeeps(s, actions);
    SendAt(Run(s, actions), m);
  }

  lemma SendAt(t: State, m: Msg)
    requires Inv(t) && (t.daemon == Serving || t.daemon == Ended)
    ensures DaemonSends(t, m).up == t.up + [Frame(m, SealOf(t.daemonCipher), t.daemon == Ended)]
    ensures SealOf(t.daemonCipher) == Due(t, |t.up|) <==> !(t.daemon == Ended && t.cfg.Encrypted())
  {
    hide HostAuthBuf;
  }

  /** Both ends after the switch, with the acknowledgement read. */
  function Switched(cfg: Config): State {
    State(cfg, Ready, Some(Counters(1, 0)), Serving, Some(Counters(0, 1)), [], [],
          [Seen(None, None, false), Seen(None, None, false), Seen(Some(0), Some(0), false)])
  }

  /** After the host's hello, after the daemon's answer, after the host's acknowledgement. */
  function Greeted(cfg: Config): State {
    State(cfg, Authenticating, None, Waiting, None, [HelloFrame(cfg)], [], [])
  }

  function Answered(cfg: Config): State {
    State(cfg, Authenticating, None, AwaitingAck, Some(Counters(0, 0)), [], [Frame(Psk, None, false)],
          [Seen(None, None, false)])
  }

  lemma AnswerStep(cfg: Config)
    requires cfg.Valid() && cfg.Encrypted()
    ensures Next(Greeted(cfg), DaemonFirst(true)) == Answered(cfg)
  {
    HostAuthBufReads(cfg.key, cfg.hostFlag);
    hide HostAuthBuf, SupportsEncrypt, HostPubkey;
  }

  lemma AckSteps(cfg: Config)
    requires cfg.Encrypted()
    ensures Next(Next(Answered(cfg), HostAuth(true)), DaemonAck) == Switched(cfg)
  {
    hide HostAuthBuf, SupportsEncrypt, HostPubkey;
    var c := Next(Answered(cfg), HostAuth(true));
    assert c.down == [Frame(Ack, Some(0), false)] && c.up == [] && c.hostCipher == Some(Counters(1, 0));
  }

  lemma SwitchingRun(cfg: Config)
    requires cfg.Valid() && cfg.Encrypted()
    ensures var s := Start(cfg);
            Next(Next(Next(Next(s, HostHello), DaemonFirst(true)), HostAuth(true)), DaemonAck) == Switched(cfg)
  {
    hide HostAuthBuf, OnFirst, OnAuth, OnAck;
    var s := Start(cfg);
    assert Next(s, HostHello) == Greeted(cfg);
    hide Next;
    AnswerStep(cfg);
    AckSteps(cfg);
  }

  function Start(cfg: Config): State {
    State(cfg, Greeting, None, Waiting, None, [], [], [])
  }

  /** Hello, answer, auth, and the acknowledgement where one is due. */
  function Handshake(cfg: Config): seq<Action> {
    [HostHello, DaemonFirst(true), HostAuth(true)] + if cfg.Encrypted() then [DaemonAck] else []
  }

  lemma RunPush(s: State, before: seq<Action>, a: Action)
    ensures Run(s, before + [a]) == Next(Run(s, before), a)
  {
    hide Next;
    assert (before + [a])[..|before|] == before;
  }

  lemma RunThree(s: State, a: Action, b: Action, c: Action)
    ensures Run(s, [a, b, c]) == Next(Next(Next(s, a), b), c)
  {
    hide Run, Next;
    assert Run(s, []) == s by { RunNone(s); }
    RunPush(s, [], a);
    RunPush(s, [a], b);
    RunPush(s, [a, b], c);
    assert [] + [a] == [a] && [a] + [b] == [a, b] && [a, b] + [c] == [a, b, c];
  }

  lemma RunNone(s: State)
    ensures Run(s, []) == s
  {
  }

  lemma PlainAnswer(cfg: Config)
    requires cfg.Valid() && !cfg.Encrypted()
    ensures var t := Next(Greeted(cfg), DaemonFirst(true));
            t == Greeted(cfg).(daemon := if cfg.hostFlag && cfg.daemonFlag then AwaitingAck else Serving,
                               down := [], up := [Frame(AuthOk, None, false)], seen := [Seen(None, None, false)])
  {
    HostAuthBufReads(cfg.key, cfg.hostFlag);
    hide HostAuthBuf, SupportsEncrypt, HostPubkey;
  }

  /**
   For every configuration the handshake completes: the host is ready, with a
   cipher exactly when the session is to be encrypted, and the daemon serves,
   unless both flags are set without a key.
   */
  lemma Completes(cfg: Config)
    requires cfg.Valid()
    ensures var t := Run(Start(cfg), Handshake(cfg));
            && Init(Start(cfg)) && t.host == Ready && t.up == t.down == []
            && (t.hostCipher.Some? <==> cfg.Encrypted())
            && (t.daemonCipher.Some? <==> cfg.Encrypted())
            && t.daemon == (if cfg.hostFlag && cfg.daemonFlag && cfg.key.None? then AwaitingAck else Serving)
  {
    hide HostAuthBuf, OnFirst, OnAck, Run;
    RunThree(Start(cfg), HostHello, DaemonFirst(true), HostAuth(true));
    assert Next(Start(cfg), HostHello) == Greeted(cfg);
    if cfg.Encrypted() {
      RunPush(Start(cfg), [HostHello, DaemonFirst(true), HostAuth(true)], DaemonAck);
      hide Next;
      AnswerStep(cfg);
      AckSteps(cfg);
    } else {
      assert Handshake(cfg) == [HostHello, DaemonFirst(true), HostAuth(true)];
      PlainAnswer(cfg);
    }
  }

  // ------------------------------------------------------------------
  // Messages get through
  // ------------------------------------------------------------------

  /** While both sides are in session, whatever is next is read, and neither phase changes. */
  lemma NextIsRead(t: State)
    requires Inv(t) && t.host == Ready && t.daemon == Serving
    ensures t.up != [] ==> OnHostRead(t) == HostTakes(t)
    ensures t.down != [] ==> OnDaemonRead(t) == DaemonTakes(t)
  {
    hide HostAuthBuf;
  }

  /** The frame is gone, it was seen, and nothing else has changed. */
  ghost predicate ReadUp(t: State, u: State)
    requires t.up != []
  {
    && Inv(u) && u.cfg == t.cfg && u.host == Ready && u.daemon == Serving
    && u.up == t.up[1..] && u.down == t.down && |u.seen| == |t.seen| + 1
  }

  ghost predicate ReadDown(t: State, u: State)
    requires t.down != []
  {
    && Inv(u) && u.cfg == t.cfg && u.host == Ready && u.daemon == Serving
    && u.down == t.down[1..] && u.up == t.up && |u.seen| == |t.seen| + 1
  }

  lemma ReadStep(t: State)
    requires Inv(t) && t.host == Ready && t.daemon == Serving
    ensures t.up != [] ==> ReadUp(t, Next(t, HostRead))
    ensures t.down != [] ==> ReadDown(t, Next(t, DaemonRead))
  {
    NextKeeps(t, HostRead);
    NextKeeps(t, DaemonRead);
    NextIsRead(t);
    hide Inv, OnHostRead, OnDaemonRead;
  }

  function Reads(a: Action, n: nat): seq<Action> {
    if n == 0 then [] else Reads(a, n - 1) + [a]
  }

  lemma RunReads(t: State, a: Action, n: nat)
    requires n > 0
    ensures Run(t, Reads(a, n)) == Next(Run(t, Reads(a, n - 1)), a)
  {
    hide Next, Run;
    RunPush(t, Reads(a, n - 1), a);
  }

  /** After `n` reads at the host, exactly the first `n` frames are gone. */
  lemma {:induction false} HostReads(t: State, n: nat)
    requires Inv(t) && t.host == Ready && t.daemon == Serving && n <= |t.up|
    ensures var u := Run(t, Reads(HostRead, n));
            && Inv(u) && u.cfg == t.cfg && u.host == Ready && u.daemon == Serving
            && u.up == t.up[n..] && u.down == t.down && |u.seen| == |t.seen| + n
  {
    hide Inv, Next, Run;
    if n == 0 {
      RunNone(t);
    } else {
      HostReads(t, n - 1);
      RunReads(t, HostRead, n);
      ReadStep(Run(t, Reads(HostRead, n - 1)));
    }
  }

  lemma {:induction false} DaemonReads(t: State, n: nat)
    requires Inv(t) && t.host == Ready && t.daemon == Serving && n <= |t.down|
    ensures var u := Run(t, Reads(DaemonRead, n));
            && Inv(u) && u.cfg == t.cfg && u.host == Ready && u.daemon == Serving
            && u.down == t.down[n..] && u.up == t.up && |u.seen| == |t.seen| + n
  {
    hide Inv, Next, Run;
    if n == 0 {
      RunNone(t);
    } else {
      DaemonReads(t, n - 1);
      RunReads(t, DaemonRead, n);
      ReadStep(Run(t, Reads(DaemonRead, n - 1)));
    }
  }

  /**
   In every reachable state with both sides in session, a message the daemon
   sends next is read by the host once the frames before it are, and one the
   host sends by the daemon; both sides stay in session.
   */
  lemma SentIsRead(s: State, actions: seq<Action>, m: Msg)
    requires Init(s) && m.App? && Run(s, actions).host == Ready && Run(s, actions).daemon == Serving
    ensures var t := Run(s, actions);
            var u := Run(Next(t, DaemonSend(m)), Reads(HostRead, |t.up|));
            var v := Next(u, HostRead);
            && |u.up| == 1 && u.up[0].msg == m
            && v.up == [] && v.host == Ready && v.daemon == Serving && |v.seen| == |t.seen| + |t.up| + 1
    ensures var t := Run(s, actions);
            var u := Run(Next(t, HostSend(m)), Reads(DaemonRead, |t.down|));
            var v := Next(u, DaemonRead);
            && |u.down| == 1 && u.down[0].msg == m
            && v.down == [] && v.host == Ready && v.daemon == Serving && |v.seen| == |t.seen| + |t.down| + 1
  {
    hide Run, Inv;
    RunKeeps(s, actions);
    var t := Run(s, actions);
    var d, h := Next(t, DaemonSend(m)), Next(t, HostSend(m));
    NextKeeps(t, DaemonSend(m));
    NextKeeps(t, HostSend(m));
    assert |d.up| == |t.up| + 1 && |h.down| == |t.down| + 1;
    hide Next;
    HostReads(d, |t.up|);
    DaemonReads(h, |t.down|);
    ReadStep(Run(d, Reads(HostRead, |t.up|)));
    ReadStep(Run(h, Reads(DaemonRead, |t.down|)));
  }

  /** A run in which the host reads a plain frame through the cipher. */
  lemma StrayRun(cfg: Config)
    requires cfg.Valid() && cfg.Encrypted()
    ensures var t := Switched(cfg);
            var u := Next(Next(Next(t, DaemonEnd), DaemonSend(App(false))), HostRead);
            u.seen == t.seen + [Seen(None, Some(0), true)] && u.host == HostDown
  {
    hide HostAuthBuf;
    var t := Switched(cfg);
    var d := Next(Next(t, DaemonEnd), DaemonSend(App(false)));
    assert d.up == [Frame(App(false), None, true)] && d.hostCipher == Some(Counters(1, 0)) && d.host == Ready;
  }

  // ------------------------------------------------------------------
  // Both flags, but no public key
  // ------------------------------------------------------------------

  /** The daemon waits for an acknowledgement, and nothing on its way is one. */
  ghost predicate Stalled(t: State) {
    && Inv(t) && t.cfg.hostFlag && t.cfg.daemonFlag && t.cfg.key.None?
    && t.daemon != Serving && t.daemon != Ended
    && (t.daemon == AwaitingAck ==> forall i :: 0 <= i < |t.down| ==> t.down[i].msg == App(false))
  }

  lemma StallFirst(t: State, ok: bool)
    requires Stalled(t) && t.daemon == Waiting && t.down != []
    ensures Stalled(OnFirst(t, ok))
  {
    FirstKeeps(t, ok);
    AnswerIs(t, ok);
    hide HostAuthBuf, OnFirst;
    assert DaemonTakes(t).down == [];
  }

  lemma StallKeeps(t: State, a: Action)
    requires Stalled(t) && a != HostSend(App(true))
    ensures Stalled(Next(t, a))
  {
    NextKeeps(t, a);
    hide HostAuthBuf, OnFirst;
    if a.DaemonFirst? && t.daemon == Waiting && t.down != [] {
      StallFirst(t, a.ok);
    }
  }

  /**
   With both flags set and no public key, the daemon accepts and then waits for
   an acknowledgement that the host does not send: no run reaches the session
   loop unless the host happens to send a handshake of its own.
   */
  lemma {:induction false} NoKeyNoSession(s: State, actions: seq<Action>)
    requires Init(s) && s.cfg.hostFlag && s.cfg.daemonFlag && s.cfg.key.None?
    requires forall i :: 0 <= i < |actions| ==> actions[i] != HostSend(App(true))
    ensures Stalled(Run(s, actions))
    ensures Run(s, actions).daemon != Serving && Run(s, actions).daemon != Ended
  {
    hide Next, Inv;
    if actions == [] {
      InitInv(s);
    } else {
      var n := |actions| - 1;
      NoKeyNoSession(s, actions[..n]);
      StallKeeps(Run(s, actions[..n]), actions[n]);
    }
  }
}
