/**
 The USB device monitor: enumerations adopt devices, sessions run, end, leave
 the known set and record their outcome, in any interleaving the locks allow.
 Time is a clock in seconds that only moves forward.
 */
module UsbMonitor {

  type Serial = string

  /** How a session ended: after authentication, or before it. */
  datatype Outcome = Ended | Failed

  datatype Backoff = Backoff(failures: nat, next: nat)

  /**
   Where the monitor task is: between enumerations; holding a device list and
   the time it was taken; after the snapshot was updated; or in the adoption
   loop, which holds the lock of the known set.
   */
  datatype Monitor =
    | Idle
    | Enumerated(devices: seq<Serial>, now: nat)
    | Compared(devices: seq<Serial>, now: nat)
    | Adopting(rest: seq<Serial>, now: nat)

  /** `finished` sessions are still in the known set; `pending` outcomes are not yet recorded. */
  datatype State = State(
    clock: nat, monitor: Monitor, known: set<Serial>, physical: set<Serial>, reconnect: map<Serial, Backoff>,
    running: multiset<Serial>, finished: multiset<(Serial, Outcome)>, pending: multiset<(Serial, Outcome)>)

  const INIT := State(0, Idle, {}, {}, map[], multiset{}, multiset{}, multiset{})

  // ------------------------------------------------------------------
  // Backoff
  // ------------------------------------------------------------------

  const MAX_SECS: nat := 30

  function ShiftLeft(n: nat, k: nat): nat
    decreases k
  {
    if k == 0 then n else ShiftLeft(2 * n, k - 1)
  }

  function Min(a: nat, b: nat): nat {
    if a < b then a else b
  }

  /** Seconds to wait after the `k`-th failure in a row. */
  function Delay(k: nat): nat
    requires k >= 1
  {
    Min(ShiftLeft(1, Min(k - 1, 5)), MAX_SECS)
  }

  lemma Powers()
    ensures ShiftLeft(1, 0) == 1 && ShiftLeft(1, 1) == 2 && ShiftLeft(1, 2) == 4
    ensures ShiftLeft(1, 3) == 8 && ShiftLeft(1, 4) == 16 && ShiftLeft(1, 5) == 32
  {
    assert ShiftLeft(2, 1) == 4 && ShiftLeft(4, 1) == 8 && ShiftLeft(8, 1) == 16 && ShiftLeft(16, 1) == 32;
    assert ShiftLeft(2, 2) == 8 && ShiftLeft(4, 2) == 16 && ShiftLeft(8, 2) == 32;
    assert ShiftLeft(2, 3) == 16 && ShiftLeft(4, 3) == 32;
    assert ShiftLeft(2, 4) == 32;
  }

  /** 1, 2, 4, 8 and 16 seconds after the first five failures in a row, and 30 after every further one. */
  lemma DelayValues(k: nat)
    requires k >= 1
    ensures Delay(k) == if k >= 6 then 30 else [1, 2, 4, 8, 16][k - 1]
  {
    Powers();
  }

  lemma DelayBounds(j: nat, k: nat)
    requires 1 <= j <= k
    ensures 1 <= Delay(j) <= Delay(k) <= MAX_SECS
  {
    Powers();
  }

  // ------------------------------------------------------------------
  // Steps
  // ------------------------------------------------------------------

  datatype Action =
    | Tick(seconds: nat)
    | Enumerate(devices: seq<Serial>)
    | Compare
    | Lock
    | Adopt
    | Finish(x: Serial, outcome: Outcome)
    | Forget(x: Serial, outcome: Outcome)
    | Record(x: Serial, outcome: Outcome)

  function Arrivals(devices: seq<Serial>, physical: set<Serial>): set<Serial> {
    (set x | x in devices) - physical
  }

  /** May `x` be adopted by an enumeration taken at `now`? */
  predicate Adoptable(s: State, x: Serial, now: nat) {
    x !in s.known && (x in s.reconnect ==> s.reconnect[x].next <= now)
  }

  /** record_session_outcome. */
  function Recorded(reconnect: map<Serial, Backoff>, x: Serial, outcome: Outcome, clock: nat): map<Serial, Backoff> {
    if outcome == Ended then reconnect - {x}
    else
      var k := (if x in reconnect then reconnect[x].failures else 0) + 1;
      reconnect[x := Backoff(k, clock + Delay(k))]
  }

  /** A step that is not enabled changes nothing. */
  function Next(s: State, a: Action): State {
    match a
    case Tick(seconds) => s.(clock := s.clock + seconds)
    case Enumerate(devices) => if s.monitor == Idle then s.(monitor := Enumerated(devices, s.clock)) else s
    case Compare =>
      if s.monitor.Enumerated? then
        s.(monitor := Compared(s.monitor.devices, s.monitor.now),
           physical := (set x | x in s.monitor.devices),
           reconnect := s.reconnect - Arrivals(s.monitor.devices, s.physical))
      else s
    case Lock => if s.monitor.Compared? then s.(monitor := Adopting(s.monitor.devices, s.monitor.now)) else s
    case Adopt =>
      if !s.monitor.Adopting? then s
      else if s.monitor.rest == [] then s.(monitor := Idle)
      else
        var x := s.monitor.rest[0];
        var t := s.(monitor := Adopting(s.monitor.rest[1..], s.monitor.now));
        if Adoptable(s, x, s.monitor.now) then t.(known := s.known + {x}, running := s.running + multiset{x}) else t
    case Finish(x, o) =>
      if x in s.running then s.(running := s.running - multiset{x}, finished := s.finished + multiset{(x, o)}) else s
    case Forget(x, o) =>
      if (x, o) in s.finished && !s.monitor.Adopting?
      then s.(finished := s.finished - multiset{(x, o)}, known := s.known - {x}, pending := s.pending + multiset{(x, o)})
      else s
    case Record(x, o) =>
      if (x, o) in s.pending
      then s.(pending := s.pending - multiset{(x, o)}, reconnect := Recorded(s.reconnect, x, o, s.clock))
      else s
  }

  function Run(s: State, actions: seq<Action>): State {
    if actions == [] then s
    else Next(Run(s, actions[..|actions| - 1]), actions[|actions| - 1])
  }

  // ------------------------------------------------------------------
  // At most one session per serial
  // ------------------------------------------------------------------

  /** Sessions of `x` that are running, or finished and still known. */
  function Live(s: State, x: Serial): nat {
    s.running[x] + FinishedOf(s.finished, x)
  }

  ghost predicate Inv(s: State) {
    && (forall x :: Live(s, x) == if x in s.known then 1 else 0)
    && (s.monitor != Idle ==> s.monitor.now <= s.clock)
  }

  function FinishedOf(m: multiset<(Serial, Outcome)>, x: Serial): nat {
    m[(x, Ended)] + m[(x, Failed)]
  }

  lemma FinishedChange(m: multiset<(Serial, Outcome)>, x: Serial, y: Serial, o: Outcome)
    ensures FinishedOf(m + multiset{(y, o)}, x) == FinishedOf(m, x) + (if x == y then 1 else 0)
    ensures (y, o) in m ==> FinishedOf(m - multiset{(y, o)}, x) == FinishedOf(m, x) - (if x == y then 1 else 0)
  {
    var both := m + multiset{(y, o)};
    assert o == Ended || o == Failed;
    assert both[(x, Ended)] == m[(x, Ended)] + (if (x, Ended) == (y, o) then 1 else 0);
    assert both[(x, Failed)] == m[(x, Failed)] + (if (x, Failed) == (y, o) then 1 else 0);
  }

  /** Finishing moves a session; forgetting drops it together with the known mark. */
  lemma LiveMoves(s: State, y: Serial, o: Outcome, x: Serial)
    requires Live(s, x) == if x in s.known then 1 else 0
    ensures y in s.running ==> Live(Next(s, Finish(y, o)), x) == Live(s, x)
    ensures (y, o) in s.finished ==> Live(Next(s, Forget(y, o)), x) == if x in Next(s, Forget(y, o)).known then 1 else 0
  {
    FinishedChange(s.finished, x, y, o);
    FinishedIn(s.finished, y, o);
    hide FinishedOf;
  }

  lemma LiveAt(s: State, a: Action, x: Serial)
    requires Live(s, x) == if x in s.known then 1 else 0
    ensures var t := Next(s, a); Live(t, x) == if x in t.known then 1 else 0
  {
    hide Recorded, Arrivals, FinishedOf;
    if a.Finish? || a.Forget? {
      LiveMoves(s, a.x, a.outcome, x);
    }
  }

  lemma FinishedIn(m: multiset<(Serial, Outcome)>, x: Serial, o: Outcome)
    ensures (x, o) in m ==> FinishedOf(m, x) >= 1
  {
  }

  lemma NextKeeps(s: State, a: Action)
    requires Inv(s)
    ensures Inv(Next(s, a))
  {
    forall x ensures Live(Next(s, a), x) == if x in Next(s, a).known then 1 else 0 {
      LiveAt(s, a, x);
    }
  }

  lemma InitInv()
    ensures Inv(INIT)
  {
    forall x ensures Live(INIT, x) == 0 {
    }
  }

  lemma {:induction false} RunKeeps(s: State, actions: seq<Action>)
    requires Inv(s)
    ensures Inv(Run(s, actions))
  {
    if actions != [] {
      var n := |actions| - 1;
      RunKeeps(s, actions[..n]);
      NextKeeps(Run(s, actions[..n]), actions[n]);
    }
  }

  /**
   In every interleaving, no serial has two sessions, and the known set is
   exactly the serials whose session runs or has finished without being removed.
   */
  lemma OneSession(actions: seq<Action>, x: Serial)
    ensures var t := Run(INIT, actions);
            && t.running[x] <= 1
            && (x in t.known <==> x in t.running || (x, Ended) in t.finished || (x, Failed) in t.finished)
            && !(x in t.running && ((x, Ended) in t.finished || (x, Failed) in t.finished))
  {
    hide Run;
    InitInv();
    RunKeeps(INIT, actions);
    assert Live(Run(INIT, actions), x) <= 1;
  }

  // ------------------------------------------------------------------
  // Backoff over whole runs
  // ------------------------------------------------------------------

  /** The steps that end a backoff of `x`: its arrival, or an ended session recorded. */
  predicate Cancels(s: State, a: Action, x: Serial) {
    || (a.Compare? && s.monitor.Enumerated? && x in s.monitor.devices && x !in s.physical)
    || (a == Record(x, Ended) && (x, Ended) in s.pending)
  }

  ghost predicate Uncancelled(s: State, actions: seq<Action>, x: Serial) {
    forall i :: 0 <= i < |actions| ==> !Cancels(Run(s, actions[..i]), actions[i], x)
  }

  /** `x` failed at least `k` times in a row and must not be adopted before `until`. */
  predicate Held(s: State, x: Serial, k: nat, until: nat) {
    x in s.reconnect && s.reconnect[x].failures >= k && s.reconnect[x].next >= until
  }

  /** Does this step adopt `x`? */
  predicate Adopts(s: State, a: Action, x: Serial) {
    x !in s.known && x in Next(s, a).known
  }

  lemma HeldKeeps(s: State, a: Action, x: Serial, k: nat, until: nat)
    requires 1 <= k && Held(s, x, k, until) && !Cancels(s, a, x) && until <= s.clock + Delay(k)
    ensures Held(Next(s, a), x, k, until) && until <= Next(s, a).clock + Delay(k)
  {
    if a.Record? && a.x == x && a.outcome == Failed {
      DelayBounds(k, s.reconnect[x].failures + 1);
    }
  }

  lemma {:induction false} HeldRun(s: State, actions: seq<Action>, x: Serial, k: nat, until: nat)
    requires 1 <= k && Held(s, x, k, until) && Uncancelled(s, actions, x) && until <= s.clock + Delay(k)
    ensures Held(Run(s, actions), x, k, until) && until <= Run(s, actions).clock + Delay(k)
  {
    if actions != [] {
      var n := |actions| - 1;
      var before := actions[..n];
      forall i | 0 <= i < n ensures !Cancels(Run(s, before[..i]), before[i], x) {
        assert before[..i] == actions[..i];
        assert !Cancels(Run(s, actions[..i]), actions[i], x);
      }
      HeldRun(s, before, x, k, until);
      HeldKeeps(Run(s, before), actions[n], x, k, until);
    }
  }

  /**
   After the `k`-th failure in a row of `x` is recorded, and until its arrival
   or an ended session of it cancels that, no enumeration adopts `x` before the
   recording time plus the delay.
   */
  lemma NotBeforeBackoff(first: seq<Action>, s: State, x: Serial, later: seq<Action>, a: Action)
    requires s == Run(INIT, first) && (x, Failed) in s.pending
    requires var t := Next(s, Record(x, Failed));
             Uncancelled(t, later, x) && Adopts(Run(t, later), a, x)
    ensures var t := Next(s, Record(x, Failed)); var k := t.reconnect[x].failures;
            k >= 1 && Run(t, later).clock >= s.clock + Delay(k)
  {
    hide Run, Uncancelled, Inv, Delay;
    var t := Next(s, Record(x, Failed));
    var k := t.reconnect[x].failures;
    HeldRun(t, later, x, k, s.clock + Delay(k));
    InitInv();
    RunKeeps(INIT, first);
    NextKeeps(s, Record(x, Failed));
    RunKeeps(t, later);
    Clocked(Run(t, later));
  }

  lemma Clocked(s: State)
    requires Inv(s) && s.monitor.Adopting?
    ensures s.monitor.now <= s.clock
  {
  }

  /** Failures of `x` recorded since its backoff was last cancelled. */
  ghost function Streak(actions: seq<Action>, x: Serial): nat {
    if actions == [] then 0
    else
      var n := |actions| - 1;
      var s, a, before := Run(INIT, actions[..n]), actions[n], Streak(actions[..n], x);
      if Cancels(s, a, x) then 0
      else if a == Record(x, Failed) && (x, Failed) in s.pending then before + 1
      else before
  }

  function FailuresOf(s: State, x: Serial): nat {
    if x in s.reconnect then s.reconnect[x].failures else 0
  }

  lemma ReconnectStep(s: State, a: Action, x: Serial)
    requires x in s.reconnect ==> s.reconnect[x].failures > 0
    ensures var t := Next(s, a);
            && (x in t.reconnect ==> t.reconnect[x].failures > 0)
            && FailuresOf(t, x) ==
                 if Cancels(s, a, x) then 0
                 else if a == Record(x, Failed) && (x, Failed) in s.pending then FailuresOf(s, x) + 1
                 else FailuresOf(s, x)
  {
    hide Delay, FinishedOf, Adoptable;
    if a.Record? && a.x == x {
      RecordedAt(s, x, a.outcome);
      hide Recorded;
    } else if a.Record? {
      RecordedOther(s, a.x, a.outcome, x);
      hide Recorded;
    }
  }

  lemma RecordedAt(s: State, x: Serial, o: Outcome)
    ensures var r := Recorded(s.reconnect, x, o, s.clock);
            && (o == Ended ==> x !in r)
            && (o == Failed ==> x in r && r[x].failures == FailuresOf(s, x) + 1)
  {
    hide Delay;
  }

  lemma RecordedOther(s: State, y: Serial, o: Outcome, x: Serial)
    requires x != y
    ensures var r := Recorded(s.reconnect, y, o, s.clock);
            (x in r <==> x in s.reconnect) && (x in r ==> r[x] == s.reconnect[x])
  {
    hide Delay;
  }

  /** The bookkeeping counts exactly that; an arrival or an ended session resets it. */
  lemma {:induction false} FailuresAreStreak(actions: seq<Action>, x: Serial)
    ensures var t := Run(INIT, actions);
            && FailuresOf(t, x) == Streak(actions, x)
            && (x in t.reconnect <==> Streak(actions, x) > 0)
  {
    hide Next, Cancels;
    if actions != [] {
      var n := |actions| - 1;
      FailuresAreStreak(actions[..n], x);
      ReconnectStep(Run(INIT, actions[..n]), actions[n], x);
    }
  }

  /** When the last of these failures was recorded. */
  ghost function FailedAt(actions: seq<Action>, x: Serial): nat {
    if actions == [] then 0
    else
      var n := |actions| - 1;
      var s := Run(INIT, actions[..n]);
      if actions[n] == Record(x, Failed) && (x, Failed) in s.pending then s.clock else FailedAt(actions[..n], x)
  }

  /** When the device list of the last enumeration was taken. */
  ghost function TakenAt(actions: seq<Action>): nat {
    if actions == [] then 0
    else
      var n := |actions| - 1;
      var s := Run(INIT, actions[..n]);
      if actions[n].Enumerate? && s.monitor == Idle then s.clock else TakenAt(actions[..n])
  }

  /** The next attempt is due one delay after the last failure was recorded. */
  ghost predicate Due(s: State, x: Serial, failed: nat) {
    x in s.reconnect ==> s.reconnect[x].failures > 0 && s.reconnect[x].next == failed + Delay(s.reconnect[x].failures)
  }

  lemma DueStep(s: State, a: Action, x: Serial, failed: nat)
    requires Due(s, x, failed)
    ensures Due(Next(s, a), x, if a == Record(x, Failed) && (x, Failed) in s.pending then s.clock else failed)
  {
    hide Delay, FinishedOf, Adoptable;
    if a.Record? {
      DueRecorded(s.reconnect, a.x, a.outcome, s.clock, x, failed);
      hide Recorded;
    }
  }

  lemma DueRecorded(r: map<Serial, Backoff>, y: Serial, o: Outcome, clock: nat, x: Serial, failed: nat)
    requires x in r ==> r[x].failures > 0 && r[x].next == failed + Delay(r[x].failures)
    ensures var t := Recorded(r, y, o, clock);
            x in t ==> t[x].failures > 0
                       && t[x].next == (if x == y && o == Failed then clock else failed) + Delay(t[x].failures)
  {
    hide Delay;
  }

  lemma {:induction false} DueRun(actions: seq<Action>, x: Serial)
    ensures Due(Run(INIT, actions), x, FailedAt(actions, x))
  {
    hide Next, Due;
    if actions == [] {
      assert Due(INIT, x, 0) by { NothingDue(x); }
    } else {
      var n := |actions| - 1;
      DueRun(actions[..n], x);
      DueStep(Run(INIT, actions[..n]), actions[n], x, FailedAt(actions[..n], x));
    }
  }

  lemma NothingDue(x: Serial)
    ensures Due(INIT, x, 0)
  {
  }

  lemma {:induction false} TakenRun(actions: seq<Action>)
    ensures var m := Run(INIT, actions).monitor; m != Idle ==> m.now == TakenAt(actions)
  {
    if actions != [] {
      var n := |actions| - 1;
      TakenRun(actions[..n]);
      TakenStep(Run(INIT, actions[..n]), actions[n]);
      hide Next;
    }
  }

  lemma TakenStep(s: State, a: Action)
    ensures var t := Next(s, a);
            t.monitor != Idle ==>
              t.monitor.now == if a.Enumerate? && s.monitor == Idle then s.clock
                               else if s.monitor == Idle then t.monitor.now else s.monitor.now
    ensures s.monitor == Idle && !a.Enumerate? ==> Next(s, a).monitor == Idle
  {
    hide Recorded, Adoptable;
  }

  /**
   In every run, a turn of the adoption loop on `x` starts a session for it if
   and only if none is running or finished without being removed, and either no
   failure is counted or the enumeration was taken at least the delay, 2 to the
   number of earlier failures in the row but at most 30 seconds, after the last
   failure was recorded.
   */
  lemma AdoptsIff(actions: seq<Action>, x: Serial)
    requires var m := Run(INIT, actions).monitor; m.Adopting? && m.rest != [] && m.rest[0] == x
    ensures var s := Run(INIT, actions); var t, k := Next(s, Adopt), Streak(actions, x);
            var starts := t.running == s.running + multiset{x} && x in t.known;
            && (starts || t.running == s.running)
            && (starts <==>
                  && x !in s.running && (x, Ended) !in s.finished && (x, Failed) !in s.finished
                  && (k == 0 || TakenAt(actions) >= FailedAt(actions, x) + Delay(k)))
  {
    hide Run, Delay, Streak, FailedAt, TakenAt;
    OneSession(actions, x);
    FailuresAreStreak(actions, x);
    DueRun(actions, x);
    TakenRun(actions);
    var s := Run(INIT, actions);
    assert (s.running + multiset{x})[x] == s.running[x] + 1;
  }

  /** The device list of the last enumeration. */
  ghost function Listed(actions: seq<Action>): seq<Serial> {
    if actions == [] then []
    else
      var n := |actions| - 1;
      if actions[n].Enumerate? && Run(INIT, actions[..n]).monitor == Idle then actions[n].devices else Listed(actions[..n])
  }

  /** Was `x` on the list last compared with the snapshot? */
  ghost predicate WasListed(actions: seq<Action>, x: Serial) {
    if actions == [] then false
    else
      var n := |actions| - 1;
      if actions[n].Compare? && Run(INIT, actions[..n]).monitor.Enumerated? then x in Listed(actions[..n])
      else WasListed(actions[..n], x)
  }

  lemma ListStep(s: State, a: Action, x: Serial, list: seq<Serial>)
    requires s.monitor.Enumerated? || s.monitor.Compared? ==> s.monitor.devices == list
    ensures var t := Next(s, a);
            && (t.monitor.Enumerated? || t.monitor.Compared? ==>
                  t.monitor.devices == if a.Enumerate? && s.monitor == Idle then a.devices else list)
            && (x in t.physical <==> if a.Compare? && s.monitor.Enumerated? then x in list else x in s.physical)
  {
    hide Recorded, Adoptable, Arrivals;
  }

  /** In every run the snapshot is the list last compared, and an enumeration works on its own list. */
  lemma {:induction false} SnapshotIsLastList(actions: seq<Action>, x: Serial)
    ensures var t := Run(INIT, actions);
            && (x in t.physical <==> WasListed(actions, x))
            && (t.monitor.Enumerated? || t.monitor.Compared? ==> t.monitor.devices == Listed(actions))
  {
    hide Next;
    if actions != [] {
      var n := |actions| - 1;
      SnapshotIsLastList(actions[..n], x);
      ListStep(Run(INIT, actions[..n]), actions[n], x, Listed(actions[..n]));
    }
  }

  function AdoptTurns(n: nat): seq<Action> {
    if n == 0 then [] else AdoptTurns(n - 1) + [Adopt]
  }

  /** A serial that every enumeration sees never arrives again. */
  ghost predicate Stays(s: State, x: Serial) {
    x in s.physical && (s.monitor.Enumerated? ==> x in s.monitor.devices)
  }

  ghost predicate AlwaysSeen(actions: seq<Action>, x: Serial) {
    forall i :: 0 <= i < |actions| && actions[i].Enumerate? ==> x in actions[i].devices
  }

  lemma {:induction false} StaysRun(s: State, actions: seq<Action>, x: Serial)
    requires Stays(s, x) && AlwaysSeen(actions, x)
    ensures Stays(Run(s, actions), x)
  {
    if actions != [] {
      StaysRun(s, actions[..|actions| - 1], x);
    }
  }

  /** For a serial that stays plugged in, only an ended session cancels the backoff. */
  lemma StayingUncancelled(s: State, actions: seq<Action>, x: Serial)
    requires Stays(s, x) && AlwaysSeen(actions, x)
    requires forall i :: 0 <= i < |actions| ==> actions[i] != Record(x, Ended)
    ensures Uncancelled(s, actions, x)
  {
    hide Run;
    forall i | 0 <= i < |actions| ensures !Cancels(Run(s, actions[..i]), actions[i], x) {
      assert AlwaysSeen(actions[..i], x);
      StaysRun(s, actions[..i], x);
    }
  }

  /** One enumeration that sees and adopts `x`. */
  function Round(x: Serial): seq<Action> {
    [Enumerate([x]), Compare, Lock, Adopt]
  }

  /** A session of `x` that fails, up to its removal from the known set. */
  function Failure(x: Serial): seq<Action> {
    [Adopt, Finish(x, Failed), Forget(x, Failed)]
  }

  lemma RunOne(s: State, before: seq<Action>, a: Action)
    ensures Run(s, before + [a]) == Next(Run(s, before), a)
  {
    hide Next;
    assert (before + [a])[..|before|] == before;
  }

  lemma RunThree(s: State, before: seq<Action>, a: Action, b: Action, c: Action)
    ensures Run(s, before + [a, b, c]) == Next(Next(Next(Run(s, before), a), b), c)
  {
    hide Run, Next;
    RunOne(s, before, a);
    RunOne(s, before + [a], b);
    RunOne(s, before + [a, b], c);
    assert before + [a] + [b] == before + [a, b] && before + [a, b] + [c] == before + [a, b, c];
  }

  /** After `n` turns: the first `n` devices have been considered, on the list's terms. */
  lemma {:induction false} TurnsAdopt(s: State, devices: seq<Serial>, now: nat, n: nat)
    requires s.monitor == Adopting(devices, now) && n <= |devices|
    ensures var t := Run(s, AdoptTurns(n));
            && t.monitor == Adopting(devices[n..], now) && t.reconnect == s.reconnect
            && t.known == s.known + (set x | x in devices[..n] && Adoptable(s, x, now))
  {
    hide Run;
    if n == 0 {
      RunNone(s);
    } else {
      RunOne(s, AdoptTurns(n - 1), Adopt);
      TurnsAdopt(s, devices, now, n - 1);
      assert devices[..n] == devices[..n - 1] + [devices[n - 1]];
    }
  }

  /** The adoption loop takes every listed device that is due and not known, and no other. */
  lemma LoopAdopts(s: State)
    requires s.monitor.Compared?
    ensures var t := Run(Next(s, Lock), AdoptTurns(|s.monitor.devices|));
            && t.monitor == Adopting([], s.monitor.now) && Next(t, Adopt).monitor == Idle
            && t.known == s.known + (set x | x in s.monitor.devices && Adoptable(s, x, s.monitor.now))
  {
    hide Run;
    var d := s.monitor.devices;
    TurnsAdopt(Next(s, Lock), d, s.monitor.now, |d|);
    assert d[..|d|] == d;
  }

  lemma RoundAdopts(s: State, before: seq<Action>, x: Serial)
    requires var t := Run(s, before); t.monitor == Idle && x !in t.known && x !in t.reconnect
    ensures var t, u := Run(s, before), Run(s, before + Round(x));
            && u.monitor == Adopting([], t.clock) && u.clock == t.clock && x in u.physical && x in u.known
            && u.running == t.running + multiset{x} && u.finished == t.finished && u.pending == t.pending
            && x !in u.reconnect
  {
    hide Run;
    RunThree(s, before, Enumerate([x]), Compare, Lock);
    RunOne(s, before + [Enumerate([x]), Compare, Lock], Adopt);
    assert before + [Enumerate([x]), Compare, Lock] + [Adopt] == before + Round(x);
    var b := Next(Next(Run(s, before), Enumerate([x])), Compare);
    assert b.monitor == Compared([x], b.clock) && x !in b.reconnect;
  }

  lemma FailureForgets(s: State, before: seq<Action>, x: Serial)
    requires var t := Run(s, before);
             t.monitor == Adopting([], t.clock) && t.running == multiset{x} && t.finished == multiset{} && x !in t.reconnect
    ensures var t, u := Run(s, before), Run(s, before + Failure(x));
            u.monitor == Idle && u.clock == t.clock && x !in u.known && x !in u.reconnect && (x, Failed) in u.pending
  {
    hide Run;
    RunThree(s, before, Adopt, Finish(x, Failed), Forget(x, Failed));
  }

  /**
   The known set is cleared before the failure is recorded: a run in which the
   next enumeration adopts the device again, without any delay, while its
   failure is still to be recorded.
   */
  lemma AdoptedBeforeRecord(x: Serial)
    ensures var t := Run(INIT, Round(x) + Failure(x) + Round(x));
            t.clock == 0 && x in t.running && x in t.known && (x, Failed) in t.pending
  {
    hide Run;
    assert Run(INIT, []) == INIT by { RunNone(INIT); }
    RoundAdopts(INIT, [], x);
    assert [] + Round(x) == Round(x);
    FailureForgets(INIT, Round(x), x);
    RoundAdopts(INIT, Round(x) + Failure(x), x);
  }

  lemma RunNone(s: State)
    ensures Run(s, []) == s
  {
  }
}
