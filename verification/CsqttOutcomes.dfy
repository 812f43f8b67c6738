/**
 What the parties of CsqttEntry get done: what an attach answers and why, when the tunnel comes up, and
 that nobody hangs on the way down.
 */
module CsqttOutcomes {
  import opened Options
  import opened CsqttEntry

  // ----- what an attach answers ----------------------------------------------------------------

  /** From the moment it was found ready until it leaves. */
  predicate PastReady(p: Attach) { p.Ready? || HoldsDevMu(p) }

  predicate Answers(p: Attach, code: int) { p == Unlocking(code) || p == Attached(code) }

  /** What holds of an attach: it has a client, and each answer has its reason. */
  predicate AttachOk(s: State, p: Attach) {
    && (PastReady(p) ==> s.client)
    && (p.Installed? ==> s.dev.Some?)
    && (Answers(p, 1) ==> s.client && s.dev.Some?)
    && (p == Unlocking(-2) ==> s.cancelled || s.dev.Some?)
    && (p == Attached(-1) ==> !s.registered)
    && (p.Unlocking? ==> p.code in {1, -2, -3, -4})
    && (p.Attached? ==> p.code in {1, -1, -2, -3, -4})
  }

  ghost predicate AttachesOk(s: State) {
    forall i :: 0 <= i < |s.attaches| ==> AttachOk(s, s.attaches[i])
  }

  /** A failure cancels the tunnel, and so does a start that ends without a client. */
  predicate StartOk(s: State) {
    && (s.failed ==> s.cancelled)
    && ((s.dialer.Finishing? || s.dialer.Over?) && !s.client ==> s.cancelled)
    && (s.dialer.Refused? ==> s.cancelled)
  }

  /** What was true stays true: a client, a device, a cancel, and a handle gone. */
  predicate Later(s: State, s': State) {
    (s.client ==> s'.client) && (s.dev.Some? ==> s'.dev.Some?) && (s.cancelled ==> s'.cancelled)
    && (!s.registered ==> !s'.registered)
  }

  lemma StaysOk(s: State, s': State, p: Attach)
    requires AttachOk(s, p) && Later(s, s')
    ensures AttachOk(s', p)
  {
  }

  lemma KeptByStop(s: State, i: nat, m: StopMove)
    requires Enabled(s, DoStop(i, m)) && AttachesOk(s) && StartOk(s)
    ensures AttachesOk(StopNext(s, i, m)) && StartOk(StopNext(s, i, m))
  {
    var s' := StopNext(s, i, m);
    forall k | 0 <= k < |s'.attaches| ensures AttachOk(s', s'.attaches[k]) {
      StaysOk(s, s', s.attaches[k]);
    }
  }

  lemma OwnStepOk(s: State, i: nat, m: AttachMove)
    requires Enabled(s, DoAttach(i, m)) && AttachOk(s, s.attaches[i])
    ensures AttachOk(AttachNext(s, i, m), AttachPhase(s, i, m))
  {
  }

  lemma KeptByAttach(s: State, i: nat, m: AttachMove)
    requires Enabled(s, DoAttach(i, m)) && AttachesOk(s) && StartOk(s)
    ensures AttachesOk(AttachNext(s, i, m)) && StartOk(AttachNext(s, i, m))
  {
    var s' := AttachNext(s, i, m);
    OwnStepOk(s, i, m);
    forall k | 0 <= k < |s'.attaches| ensures AttachOk(s', s'.attaches[k]) {
      if k != i {
        StaysOk(s, s', s.attaches[k]);
      }
    }
  }

  lemma KeptByDial(s: State, m: DialMove)
    requires CanDial(s, m) && AttachesOk(s) && StartOk(s)
    ensures AttachesOk(DialNext(s, m)) && StartOk(DialNext(s, m))
  {
    var s' := DialNext(s, m);
    forall k | 0 <= k < |s'.attaches| ensures AttachOk(s', s'.attaches[k]) {
      StaysOk(s, s', s.attaches[k]);
    }
  }

  lemma KeptByNewAttach(s: State)
    requires AttachesOk(s) && StartOk(s)
    ensures AttachesOk(s.(attaches := s.attaches + [AttachCalled]))
  {
    var s' := s.(attaches := s.attaches + [AttachCalled]);
    forall k | 0 <= k < |s'.attaches| ensures AttachOk(s', s'.attaches[k]) {
      if k < |s.attaches| {
        StaysOk(s, s', s.attaches[k]);
      }
    }
  }

  lemma OutcomesKept(s: State, a: Action)
    requires Enabled(s, a) && AttachesOk(s) && StartOk(s)
    ensures AttachesOk(After(s, a)) && StartOk(After(s, a))
  {
    match a
    case DoStop(i, m) => KeptByStop(s, i, m);
    case DoAttach(i, m) => KeptByAttach(s, i, m);
    case Dial(m) => KeptByDial(s, m);
    case NewAttach => KeptByNewAttach(s);
    case _ =>
  }

  lemma {:induction false} OutcomesHold(s: State, actions: seq<Action>)
    requires AttachesOk(s) && StartOk(s) && Run(s, actions)
    ensures AttachesOk(Final(s, actions)) && StartOk(Final(s, actions))
    decreases |actions|
  {
    if actions != [] {
      OutcomesKept(s, actions[0]);
      OutcomesHold(After(s, actions[0]), actions[1..]);
    }
  }

  lemma OutcomesReached(s: State)
    requires Reachable(s)
    ensures AttachesOk(s) && StartOk(s)
  {
    var actions :| Run(INIT, actions) && Final(INIT, actions) == s;
    OutcomesHold(INIT, actions);
  }

  /** An attach goes for the device only with a client, and answers 1 only with both. */
  lemma AttachNeedsTheClient(s: State, i: nat)
    requires Reachable(s) && i < |s.attaches|
    ensures PastReady(s.attaches[i]) ==> s.client
    ensures Answers(s.attaches[i], 1) ==> s.client && s.dev.Some?
    ensures s.attaches[i] == Attached(-1) ==> !s.registered
  {
    OutcomesReached(s);
    assert AttachOk(s, s.attaches[i]);
  }

  /** An attach answers -2 only because there is no client, the tunnel is cancelled, or it has a device. */
  lemma RefusedForAReason(s: State, i: nat, m: AttachMove)
    requires Reachable(s) && Enabled(s, DoAttach(i, m)) && AttachPhase(s, i, m) == Attached(-2)
    ensures !s.client || s.cancelled || s.dev.Some?
  {
    OutcomesReached(s);
    assert AttachOk(s, s.attaches[i]);
  }

  /** A failed start stops the tunnel, and so does any that ends without publishing its client. */
  lemma NoClientMeansCancelled(s: State)
    requires Reachable(s)
    ensures s.failed ==> s.cancelled
    ensures Dialed(s) && !s.client ==> s.cancelled
  {
    OutcomesReached(s);
  }

  // ----- the tunnel comes up -------------------------------------------------------------------

  lemma {:induction false} RunConcat(s: State, a: seq<Action>, b: seq<Action>)
    requires Run(s, a) && Run(Final(s, a), b)
    ensures Run(s, a + b) && Final(s, a + b) == Final(Final(s, a), b)
    decreases |a|
  {
    if a == [] {
      assert a + b == b;
    } else {
      assert (a + b)[1..] == a[1..] + b;
      RunConcat(After(s, a[0]), a[1..], b);
    }
  }

  lemma RunTwo(s: State, a: Action, b: Action)
    requires Enabled(s, a) && Enabled(After(s, a), b)
    ensures Run(s, [a, b]) && Final(s, [a, b]) == After(After(s, a), b)
  {
    var s1 := After(s, a);
    var s2 := After(s1, b);
    assert [a, b][1..] == [b] && [b][1..] == [];
    assert Run(s2, []) && Final(s2, []) == s2;
    assert Run(s1, [b]) && Final(s1, [b]) == s2;
  }

  /** From `s` these actions lead to `s'`. */
  predicate Leads(s: State, actions: seq<Action>, s': State) { Run(s, actions) && Final(s, actions) == s' }

  lemma LeadsOn(s: State, a: seq<Action>, s1: State, b: seq<Action>, s2: State)
    requires Leads(s, a, s1) && Leads(s1, b, s2)
    ensures Leads(s, a + b, s2)
  {
    RunConcat(s, a, b);
  }

  const SETTLES: seq<Action> := [Dial(LockClient), Dial(CheckCancel)]

  /** The dial returned on a tunnel not stopped: the client is published. */
  lemma DialIsPublished(s: State)
    requires s.dialer.Returned? && !s.cancelled
    ensures Run(s, SETTLES + [Dial(Store), Dial(CloseDialed)])
    ensures Final(s, SETTLES + [Dial(Store), Dial(CloseDialed)]) == s.(dialer := Over, client := true)
  {
    RunTwo(s, Dial(LockClient), Dial(CheckCancel));
    RunTwo(s.(dialer := Committed), Dial(Store), Dial(CloseDialed));
    RunConcat(s, SETTLES, [Dial(Store), Dial(CloseDialed)]);
  }

  /** A stop came first: the client is refused, and closed by the start goroutine itself. */
  lemma DialIsRefused(s: State)
    requires s.dialer.Returned? && s.cancelled
    ensures Run(s, SETTLES + [Dial(CloseRefused), Dial(CloseDialed)])
    ensures Final(s, SETTLES + [Dial(CloseRefused), Dial(CloseDialed)])
            == s.(dialer := Over, clientCloses := s.clientCloses + 1)
  {
    RunTwo(s, Dial(LockClient), Dial(CheckCancel));
    RunTwo(s.(dialer := Refused), Dial(CloseRefused), Dial(CloseDialed));
    RunConcat(s, SETTLES, [Dial(CloseRefused), Dial(CloseDialed)]);
  }

  /** A dial that fails cancels the tunnel; one given up, because the tunnel is cancelled, fails nothing. */
  lemma DialEnds(s: State)
    requires s.dialer.Dialing?
    ensures Run(s, [Dial(DialErr), Dial(CloseDialed)])
    ensures Final(s, [Dial(DialErr), Dial(CloseDialed)]) == s.(dialer := Over, failed := true, cancelled := true)
    ensures Run(s, [Dial(GiveUp), Dial(CloseDialed)]) <==> s.cancelled
    ensures s.cancelled ==> Final(s, [Dial(GiveUp), Dial(CloseDialed)]) == s.(dialer := Over)
  {
    RunTwo(s, Dial(DialErr), Dial(CloseDialed));
    if s.cancelled {
      RunTwo(s, Dial(GiveUp), Dial(CloseDialed));
    }
  }

  /** A new attach on a tunnel with a client, not stopped, without a device and with the locks free. */
  predicate CanComeUp(s: State) {
    s.registered && s.client && !s.cancelled && s.dev.None? && s.devMu.None? && ClientMuFree(s)
  }

  function Finds(i: nat): seq<Action> { [NewAttach, DoAttach(i, Lookup)] }
  function Locks(i: nat): seq<Action> { [DoAttach(i, NeedClient), DoAttach(i, LockDevice)] }
  function Checks(i: nat): seq<Action> { [DoAttach(i, CheckStop), DoAttach(i, CheckDevice)] }
  function Installs(i: nat): seq<Action> { [DoAttach(i, OpenOk), DoAttach(i, Install)] }
  function Leaves(i: nat): seq<Action> { [DoAttach(i, AddPumps), DoAttach(i, Unlock)] }

  /** Where the newest attach is, with everything else that matters to it. */
  predicate At(s: State, i: nat, p: Attach, dev: Option<nat>, made: nat, pumps: nat) {
    && i < |s.attaches| && s.attaches[i] == p && s.devMu == (if HoldsDevMu(p) then Some(i) else None)
    && s.dev == dev && |s.devCloses| == made && s.pumps == pumps
    && s.registered && s.client && !s.cancelled && ClientMuFree(s)
  }

  lemma AttachFinds(s: State)
    requires CanComeUp(s)
    ensures var i := |s.attaches|;
      Run(s, Finds(i)) && At(Final(s, Finds(i)), i, Found, None, |s.devCloses|, s.pumps)
  {
    RunTwo(s, NewAttach, DoAttach(|s.attaches|, Lookup));
  }

  lemma AttachLocks(s: State, i: nat, made: nat, pumps: nat)
    requires At(s, i, Found, None, made, pumps)
    ensures Run(s, Locks(i)) && At(Final(s, Locks(i)), i, Locked, None, made, pumps)
  {
    RunTwo(s, DoAttach(i, NeedClient), DoAttach(i, LockDevice));
  }

  lemma AttachChecks(s: State, i: nat, made: nat, pumps: nat)
    requires At(s, i, Locked, None, made, pumps)
    ensures Run(s, Checks(i)) && At(Final(s, Checks(i)), i, NoDevice, None, made, pumps)
  {
    RunTwo(s, DoAttach(i, CheckStop), DoAttach(i, CheckDevice));
  }

  lemma AttachInstalls(s: State, i: nat, made: nat, pumps: nat)
    requires At(s, i, NoDevice, None, made, pumps)
    ensures Run(s, Installs(i)) && At(Final(s, Installs(i)), i, Installed, Some(made), made + 1, pumps)
  {
    RunTwo(s, DoAttach(i, OpenOk), DoAttach(i, Install));
  }

  lemma AttachLeaves(s: State, i: nat, dev: Option<nat>, made: nat, pumps: nat)
    requires At(s, i, Installed, dev, made, pumps)
    ensures Run(s, Leaves(i)) && At(Final(s, Leaves(i)), i, Attached(1), dev, made, pumps + 3)
  {
    RunTwo(s, DoAttach(i, AddPumps), DoAttach(i, Unlock));
  }

  function ComesUp(i: nat): seq<Action> { Finds(i) + Locks(i) + Checks(i) + Installs(i) + Leaves(i) }

  /** The attach of a ready tunnel opens the device, installs it, starts the three pumps, and answers 1. */
  lemma ReadyTunnelComesUp(s: State)
    requires CanComeUp(s)
    ensures var i := |s.attaches|;
      && Run(s, ComesUp(i))
      && At(Final(s, ComesUp(i)), i, Attached(1), Some(|s.devCloses|), |s.devCloses| + 1, s.pumps + 3)
  {
    var i, made := |s.attaches|, |s.devCloses|;
    AttachFinds(s);
    var s1 := Final(s, Finds(i));
    AttachLocks(s1, i, made, s.pumps);
    var s2 := Final(s1, Locks(i));
    AttachChecks(s2, i, made, s.pumps);
    var s3 := Final(s2, Checks(i));
    AttachInstalls(s3, i, made, s.pumps);
    AttachLeaves(Final(s3, Installs(i)), i, Some(made), made + 1, s.pumps);
    RunConcat(s, Finds(i), Locks(i));
    RunConcat(s, Finds(i) + Locks(i), Checks(i));
    RunConcat(s, Finds(i) + Locks(i) + Checks(i), Installs(i));
    RunConcat(s, Finds(i) + Locks(i) + Checks(i) + Installs(i), Leaves(i));
  }

  lemma EarlyFinds(s: State)
    requires s.registered
    ensures Run(s, Finds(|s.attaches|)) && Final(s, Finds(|s.attaches|)) == s.(attaches := s.attaches + [Found])
  {
    var i := |s.attaches|;
    var s1 := s.(attaches := s.attaches + [AttachCalled]);
    assert After(s, NewAttach) == s1;
    assert s1.attaches[i := Found] == s.attaches + [Found];
    assert AttachNext(s1, i, Lookup) == s.(attaches := s.attaches + [Found]);
    RunTwo(s, NewAttach, DoAttach(i, Lookup));
  }

  lemma RunOne(s: State, a: Action)
    requires Enabled(s, a)
    ensures Run(s, [a]) && Final(s, [a]) == After(s, a)
  {
    assert [a][1..] == [] && Run(After(s, a), []) && Final(After(s, a), []) == After(s, a);
  }

  /** Before the dial has published its client an attach is told so, and nothing is opened. */
  lemma EarlyAttachIsRefused(s: State)
    requires s.registered && !s.client && ClientMuFree(s)
    ensures var i := |s.attaches|;
      && Run(s, Finds(i) + [DoAttach(i, NeedClient)])
      && Final(s, Finds(i) + [DoAttach(i, NeedClient)]) == s.(attaches := s.attaches + [Attached(-2)])
  {
    var i := |s.attaches|;
    EarlyFinds(s);
    var s1 := s.(attaches := s.attaches + [Found]);
    assert s1.attaches[i := Attached(-2)] == s.attaches + [Attached(-2)];
    assert AttachNext(s1, i, NeedClient) == s.(attaches := s.attaches + [Attached(-2)]);
    RunOne(s1, DoAttach(i, NeedClient));
    RunConcat(s, Finds(i), [DoAttach(i, NeedClient)]);
  }

  /** The newest attach is at `p`, holding the lock if it has to, and everything else as in `b`. */
  function WithAttach(b: State, p: Attach): State {
    b.(attaches := b.attaches + [p], devMu := if HoldsDevMu(p) then Some(|b.attaches|) else b.devMu)
  }

  lemma AttachMoves(b: State, p: Attach, m: AttachMove)
    requires b.devMu.None? && CanAttach(WithAttach(b, p), |b.attaches|, m) && !m.OpenOk? && !m.Install? && !m.AddPumps?
    ensures var i, s := |b.attaches|, WithAttach(b, p);
      && Run(s, [DoAttach(i, m)])
      && Final(s, [DoAttach(i, m)]) == WithAttach(b, AttachPhase(s, i, m))
  {
    var i, s := |b.attaches|, WithAttach(b, p);
    RunOne(s, DoAttach(i, m));
    assert (b.attaches + [p])[i := AttachPhase(s, i, m)] == b.attaches + [AttachPhase(s, i, m)];
  }

  /** An attach that has the lock, on a tunnel that is still registered and has a client. */
  lemma AttachGetsTheLock(s: State)
    requires s.registered && s.client && s.devMu.None? && ClientMuFree(s)
    ensures Leads(s, Finds(|s.attaches|) + Locks(|s.attaches|), WithAttach(s, Locked))
  {
    var i := |s.attaches|;
    EarlyFinds(s);
    AttachMoves(s, Found, NeedClient);
    AttachMoves(s, Ready, LockDevice);
    RunTwo(WithAttach(s, Found), DoAttach(i, NeedClient), DoAttach(i, LockDevice));
    LeadsOn(s, Finds(i), WithAttach(s, Found), Locks(i), WithAttach(s, Locked));
  }

  function Refuses(cancelled: bool, i: nat): seq<Action> {
    if cancelled then [DoAttach(i, CheckStop), DoAttach(i, Unlock)] else Checks(i) + [DoAttach(i, Unlock)]
  }

  lemma LockedIsRefused(s: State)
    requires s.devMu.None? && (s.cancelled || s.dev.Some?)
    ensures Leads(WithAttach(s, Locked), Refuses(s.cancelled, |s.attaches|), WithAttach(s, Attached(-2)))
  {
    var i := |s.attaches|;
    AttachMoves(s, Locked, CheckStop);
    AttachMoves(s, Unlocking(-2), Unlock);
    if s.cancelled {
      RunTwo(WithAttach(s, Locked), DoAttach(i, CheckStop), DoAttach(i, Unlock));
    } else {
      AttachMoves(s, NotCancelled, CheckDevice);
      RunTwo(WithAttach(s, Locked), DoAttach(i, CheckStop), DoAttach(i, CheckDevice));
      LeadsOn(WithAttach(s, Locked), [DoAttach(i, CheckStop), DoAttach(i, CheckDevice)], WithAttach(s, Unlocking(-2)),
              [DoAttach(i, Unlock)], WithAttach(s, Attached(-2)));
    }
  }

  /** A cancelled tunnel, and one that has a device, refuses a new attach with -2, and nothing else changes. */
  lemma LaterAttachIsRefused(s: State)
    requires s.registered && s.client && s.devMu.None? && ClientMuFree(s) && (s.cancelled || s.dev.Some?)
    ensures var i := |s.attaches|;
      Leads(s, Finds(i) + Locks(i) + Refuses(s.cancelled, i), s.(attaches := s.attaches + [Attached(-2)]))
  {
    var i := |s.attaches|;
    AttachGetsTheLock(s);
    LockedIsRefused(s);
    LeadsOn(s, Finds(i) + Locks(i), WithAttach(s, Locked), Refuses(s.cancelled, i), WithAttach(s, Attached(-2)));
  }

  function FailsToOpen(i: nat, code: int): seq<Action> {
    Checks(i) + [DoAttach(i, OpenErr(code)), DoAttach(i, Unlock)]
  }

  lemma LockedFailsToOpen(s: State, code: int)
    requires s.devMu.None? && !s.cancelled && s.dev.None? && (code == -3 || code == -4)
    ensures Leads(WithAttach(s, Locked), FailsToOpen(|s.attaches|, code), WithAttach(s, Attached(code)))
  {
    var i := |s.attaches|;
    AttachMoves(s, Locked, CheckStop);
    AttachMoves(s, NotCancelled, CheckDevice);
    AttachMoves(s, NoDevice, OpenErr(code));
    AttachMoves(s, Unlocking(code), Unlock);
    RunTwo(WithAttach(s, Locked), DoAttach(i, CheckStop), DoAttach(i, CheckDevice));
    RunTwo(WithAttach(s, NoDevice), DoAttach(i, OpenErr(code)), DoAttach(i, Unlock));
    LeadsOn(WithAttach(s, Locked), Checks(i), WithAttach(s, NoDevice),
            [DoAttach(i, OpenErr(code)), DoAttach(i, Unlock)], WithAttach(s, Attached(code)));
  }

  /** No descriptor, or no device on it: a new attach answers which, and nothing else changes. */
  lemma AttachHasNoDevice(s: State, code: int)
    requires CanComeUp(s) && (code == -3 || code == -4)
    ensures var i := |s.attaches|;
      Leads(s, Finds(i) + Locks(i) + FailsToOpen(i, code), s.(attaches := s.attaches + [Attached(code)]))
  {
    var i := |s.attaches|;
    AttachGetsTheLock(s);
    LockedFailsToOpen(s, code);
    LeadsOn(s, Finds(i) + Locks(i), WithAttach(s, Locked), FailsToOpen(i, code), WithAttach(s, Attached(code)));
  }

  // ----- a stop takes it down ------------------------------------------------------------------

  /** The newest stop is at `p`, and everything else as in `b`. */
  function With(b: State, p: Stop): State { b.(stops := b.stops + [p]) }

  lemma StopMoves(b: State, p: Stop, m: StopMove)
    requires CanStop(With(b, p), |b.stops|, m)
    ensures var j, s := |b.stops|, With(b, p);
      && Run(s, [DoStop(j, m)])
      && Final(s, [DoStop(j, m)]) == StopNext(s, j, m)
      && StopNext(s, j, m).stops == b.stops + [StopPhase(s, j, m)]
  {
    RunOne(With(b, p), DoStop(|b.stops|, m));
    assert (b.stops + [p])[|b.stops| := StopPhase(With(b, p), |b.stops|, m)]
           == b.stops + [StopPhase(With(b, p), |b.stops|, m)];
  }

  function ClosesClient(s: State, j: nat): seq<Action> {
    if s.client then [DoStop(j, ReadClient)] + [DoStop(j, CloseClient)] else [DoStop(j, ReadClient)]
  }

  /** A client that was published is closed, and none otherwise. */
  lemma StopTakesTheClient(b: State, saw: bool)
    requires ClientMuFree(b)
    ensures var j, s := |b.stops|, With(b, Joined(saw));
      && Run(s, ClosesClient(b, j))
      && Final(s, ClosesClient(b, j))
         == With(b.(clientCloses := b.clientCloses + if b.client then 1 else 0), ReadingDevice(saw))
  {
    var j := |b.stops|;
    StopMoves(b, Joined(saw), ReadClient);
    if b.client {
      StopMoves(b, ClosingClient(saw), CloseClient);
      RunConcat(With(b, Joined(saw)), [DoStop(j, ReadClient)], [DoStop(j, CloseClient)]);
    }
  }

  function ClosesDevice(s: State, j: nat): seq<Action> {
    if s.dev.Some? then [DoStop(j, ReadDevice)] + [DoStop(j, CloseDevice)] else [DoStop(j, ReadDevice)]
  }

  /** The closes of the devices once the installed one has been closed. */
  function DeviceClosed(s: State): seq<nat> {
    if s.dev.Some? && s.dev.value < |s.devCloses|
    then s.devCloses[s.dev.value := s.devCloses[s.dev.value] + 1] else s.devCloses
  }

  lemma StopTakesTheDevice(b: State, saw: bool)
    requires b.devMu.None? && (b.dev.Some? ==> b.dev.value < |b.devCloses|)
    ensures var j, s := |b.stops|, With(b, ReadingDevice(saw));
      && Run(s, ClosesDevice(b, j))
      && Final(s, ClosesDevice(b, j)) == With(b.(devCloses := DeviceClosed(b)), StartingWait(saw))
  {
    var j := |b.stops|;
    StopMoves(b, ReadingDevice(saw), ReadDevice);
    if b.dev.Some? {
      StopMoves(b, ClosingDevice(saw, b.dev.value), CloseDevice);
      RunConcat(With(b, ReadingDevice(saw)), [DoStop(j, ReadDevice)], [DoStop(j, CloseDevice)]);
    }
  }

  /** Taken off the registry and cancelled by the newest stop. */
  function Cancelled(s: State): State { s.(registered := false, taker := Some(|s.stops|), cancelled := true) }

  function Cancels(j: nat): seq<Action> { [NewStop] + [DoStop(j, Take)] + [DoStop(j, Cancel)] }

  lemma StopCancels(s: State)
    requires s.registered
    ensures Run(s, Cancels(|s.stops|)) && Final(s, Cancels(|s.stops|)) == With(Cancelled(s), Waiting)
  {
    var j := |s.stops|;
    var taken := s.(registered := false, taker := Some(j));
    RunOne(s, NewStop);
    StopMoves(s, StopCalled, Take);
    StopMoves(taken, Cancelling, Cancel);
    RunConcat(s, [NewStop], [DoStop(j, Take)]);
    RunConcat(s, [NewStop] + [DoStop(j, Take)], [DoStop(j, Cancel)]);
  }

  function Joins(j: nat, saw: bool): seq<Action> { [DoStop(j, if saw then SeeDialed else Timeout)] }

  function LeavesTunnel(j: nat): seq<Action> { [DoStop(j, StartWait)] + [DoStop(j, Leave)] }

  lemma StopLeaves(b: State, saw: bool)
    ensures var j, s := |b.stops|, With(b, StartingWait(saw));
      Run(s, LeavesTunnel(j)) && Final(s, LeavesTunnel(j)) == With(b.(waiting := true), Stopped(saw))
  {
    var j := |b.stops|;
    StopMoves(b, StartingWait(saw), StartWait);
    StopMoves(b.(waiting := true), JoiningPumps(saw), Leave);
    RunConcat(With(b, StartingWait(saw)), [DoStop(j, StartWait)], [DoStop(j, Leave)]);
  }

  lemma StopJoins(s: State, saw: bool)
    requires s.registered && (saw ==> Dialed(s))
    ensures var j := |s.stops|;
      && Run(s, Cancels(j) + Joins(j, saw))
      && Final(s, Cancels(j) + Joins(j, saw)) == With(Cancelled(s), Joined(saw))
  {
    var j := |s.stops|;
    StopCancels(s);
    StopMoves(Cancelled(s), Waiting, if saw then SeeDialed else Timeout);
    RunConcat(s, Cancels(j), Joins(j, saw));
  }

  /** What a stop leaves of a tunnel: the client and the device it found are closed once more each. */
  function Closed(b: State): State {
    b.(clientCloses := b.clientCloses + (if b.client then 1 else 0), devCloses := DeviceClosed(b), waiting := true)
  }

  function Closes(b: State, j: nat): seq<Action> { ClosesClient(b, j) + ClosesDevice(b, j) + LeavesTunnel(j) }

  lemma StopTakesBoth(b: State, saw: bool)
    requires ClientMuFree(b) && b.devMu.None? && (b.dev.Some? ==> b.dev.value < |b.devCloses|)
    ensures Leads(With(b, Joined(saw)), ClosesClient(b, |b.stops|) + ClosesDevice(b, |b.stops|),
                  With(Closed(b).(waiting := b.waiting), StartingWait(saw)))
  {
    var j, s := |b.stops|, With(b, Joined(saw));
    var b1 := b.(clientCloses := b.clientCloses + if b.client then 1 else 0);
    var b2 := Closed(b).(waiting := b.waiting);
    assert Leads(s, ClosesClient(b, j), With(b1, ReadingDevice(saw))) by { StopTakesTheClient(b, saw); }
    assert Leads(With(b1, ReadingDevice(saw)), ClosesDevice(b, j), With(b2, StartingWait(saw))) by {
      StopTakesTheDevice(b1, saw);
    }
    LeadsOn(s, ClosesClient(b, j), With(b1, ReadingDevice(saw)), ClosesDevice(b, j), With(b2, StartingWait(saw)));
  }

  lemma StopCloses(b: State, saw: bool)
    requires ClientMuFree(b) && b.devMu.None? && (b.dev.Some? ==> b.dev.value < |b.devCloses|)
    ensures Leads(With(b, Joined(saw)), Closes(b, |b.stops|), With(Closed(b), Stopped(saw)))
  {
    var j, b2 := |b.stops|, Closed(b).(waiting := b.waiting);
    StopTakesBoth(b, saw);
    assert Leads(With(b2, StartingWait(saw)), LeavesTunnel(j), With(Closed(b), Stopped(saw))) by {
      StopLeaves(b2, saw);
    }
    LeadsOn(With(b, Joined(saw)), ClosesClient(b, j) + ClosesDevice(b, j), With(b2, StartingWait(saw)),
            LeavesTunnel(j), With(Closed(b), Stopped(saw)));
  }

  function TakesDown(s: State, saw: bool): seq<Action> {
    Cancels(|s.stops|) + Joins(|s.stops|, saw) + Closes(Cancelled(s), |s.stops|)
  }

  /**
   A stop of a registered tunnel takes it off the registry, cancels it, closes the client and the device it
   finds, each once more, waits for the pumps and returns, knowing whether it saw the start goroutine end.
   */
  lemma StopTakesItDown(s: State, saw: bool)
    requires s.registered && ClientMuFree(s) && s.devMu.None? && (saw ==> Dialed(s))
    requires s.dev.Some? ==> s.dev.value < |s.devCloses|
    ensures Leads(s, TakesDown(s, saw), With(Closed(Cancelled(s)), Stopped(saw)))
  {
    StopJoins(s, saw);
    StopCloses(Cancelled(s), saw);
    LeadsOn(s, Cancels(|s.stops|) + Joins(|s.stops|, saw), With(Cancelled(s), Joined(saw)),
            Closes(Cancelled(s), |s.stops|), With(Closed(Cancelled(s)), Stopped(saw)));
  }

  /** Every other stop finds nothing to do. */
  lemma LaterStopDoesNothing(s: State)
    requires !s.registered
    ensures var j := |s.stops|;
      Run(s, [NewStop] + [DoStop(j, Take)]) && Final(s, [NewStop] + [DoStop(j, Take)]) == With(s, NotMine)
  {
    RunOne(s, NewStop);
    StopMoves(s, StopCalled, Take);
    RunConcat(s, [NewStop], [DoStop(|s.stops|, Take)]);
  }

  /** A failure while the dial is out: the client it returns is refused, and closed by the goroutine. */
  lemma FailureRefusesTheClient(s: State)
    requires s.dialer.Dialing?
    ensures var moves := [Fail, Dial(DialOk)] + (SETTLES + [Dial(CloseRefused), Dial(CloseDialed)]);
      && Run(s, moves)
      && Final(s, moves) == s.(failed := true, cancelled := true, built := true, dialer := Over,
                               clientCloses := s.clientCloses + 1)
  {
    RunTwo(s, Fail, Dial(DialOk));
    DialIsRefused(s.(failed := true, cancelled := true, built := true, dialer := Returned));
    RunConcat(s, [Fail, Dial(DialOk)], SETTLES + [Dial(CloseRefused), Dial(CloseDialed)]);
  }

  // ----- the pumps -----------------------------------------------------------------------------

  /** The pumps an action starts, and those it ends. */
  function Started(a: Action): nat { if a.DoAttach? && a.am.AddPumps? then 3 else 0 }

  function Ended(a: Action): nat { if a.PumpExit? then 1 else 0 }

  function AllStarted(actions: seq<Action>): nat {
    if actions == [] then 0 else Started(actions[0]) + AllStarted(actions[1..])
  }

  function AllEnded(actions: seq<Action>): nat {
    if actions == [] then 0 else Ended(actions[0]) + AllEnded(actions[1..])
  }

  lemma PumpStep(s: State, a: Action)
    requires Enabled(s, a)
    ensures After(s, a).pumps + Ended(a) == s.pumps + Started(a)
  {
    match a
    case DoStop(i, m) =>
    case DoAttach(i, m) =>
    case Dial(m) =>
    case _ =>
  }

  /** The wait group counts the pumps that run: three for every attach that came through, less those that ended. */
  lemma {:induction false} PumpsAreCounted(s: State, actions: seq<Action>)
    requires Run(s, actions)
    ensures Final(s, actions).pumps + AllEnded(actions) == s.pumps + AllStarted(actions)
    decreases |actions|
  {
    if actions != [] {
      PumpStep(s, actions[0]);
      PumpsAreCounted(After(s, actions[0]), actions[1..]);
    }
  }

  function PumpExits(n: nat): seq<Action> { if n == 0 then [] else [PumpExit] + PumpExits(n - 1) }

  /** Every pump can end, and then the wait group is at zero. */
  lemma {:induction false} PumpsCanEnd(s: State)
    ensures Leads(s, PumpExits(s.pumps), s.(pumps := 0))
    decreases s.pumps
  {
    if s.pumps > 0 {
      assert PumpExits(s.pumps)[1..] == PumpExits(s.pumps - 1);
      PumpsCanEnd(s.(pumps := s.pumps - 1));
    }
  }

  /** Once the stop waits for the pumps none is started any more, in no run: their number only falls. */
  lemma {:induction false} WaitStartsNone(s: State, actions: seq<Action>)
    requires Reachable(s) && s.waiting && Run(s, actions)
    ensures AllStarted(actions) == 0
    decreases |actions|
  {
    if actions != [] {
      var a := actions[0];
      if a.DoAttach? && a.am.AddPumps? {
        NoAddAfterWait(s, a.att);
      }
      ReachableStep(s, a, After(s, a));
      WaitStartsNone(After(s, a), actions[1..]);
    }
  }

  // ----- the way down --------------------------------------------------------------------------

  /** The moves a stop has left. */
  function StopLeft(p: Stop): nat {
    match p
    case StopCalled => 9
    case Cancelling => 8
    case Waiting => 7
    case Joined(_) => 6
    case ClosingClient(_) => 5
    case ReadingDevice(_) => 4
    case ClosingDevice(_, _) => 3
    case StartingWait(_) => 2
    case JoiningPumps(_) => 1
    case Stopped(_) => 0
    case NotMine => 0
  }

  /** The moves the start goroutine has left. */
  function DialLeft(d: Dialer): nat {
    match d
    case Dialing => 6
    case Returned => 5
    case Checking => 4
    case Committed => 3
    case Refused => 3
    case Finishing => 1
    case Over => 0
  }

  /** The moves an attach has left. */
  function AttachLeft(p: Attach): nat {
    match p
    case AttachCalled => 10
    case Found => 9
    case Ready => 8
    case Locked => 7
    case NotCancelled => 6
    case NoDevice => 5
    case Opened(_) => 4
    case Installed => 3
    case Unlocking(_) => 1
    case Attached(_) => 0
  }

  /** Every move of the start goroutine leaves it fewer: it does not go on for ever. */
  lemma DialSpends(s: State, m: DialMove)
    requires CanDial(s, m)
    ensures DialLeft(DialNext(s, m).dialer) < DialLeft(s.dialer)
  {
    match m
    case GiveUp =>
    case DialErr =>
    case DialOk =>
    case LockClient =>
    case CheckCancel =>
    case Store =>
    case CloseRefused =>
    case CloseDialed =>
  }

  /** Nor does an attach. */
  lemma AttachSpends(s: State, i: nat, m: AttachMove)
    requires Enabled(s, DoAttach(i, m))
    ensures AttachLeft(AttachPhase(s, i, m)) < AttachLeft(s.attaches[i])
  {
  }

  /** Nor does a stop. */
  lemma StopSpends(s: State, i: nat, m: StopMove)
    requires Enabled(s, DoStop(i, m))
    ensures StopLeft(StopPhase(s, i, m)) < StopLeft(s.stops[i])
  {
  }

  /** A way on for the start goroutine. */
  function DialWay(d: Dialer): DialMove {
    match d
    case Dialing => DialErr
    case Returned => LockClient
    case Checking => CheckCancel
    case Committed => Store
    case Refused => CloseRefused
    case Finishing => CloseDialed
    case Over => CloseDialed
  }

  function AttachWay(p: Attach): AttachMove {
    match p
    case AttachCalled => Lookup
    case Found => NeedClient
    case Ready => LockDevice
    case Locked => CheckStop
    case NotCancelled => CheckDevice
    case NoDevice => OpenErr(-3)
    case Opened(_) => Install
    case Installed => AddPumps
    case Unlocking(_) => Unlock
    case Attached(_) => Unlock
  }

  function StopWay(p: Stop): StopMove {
    match p
    case StopCalled => Take
    case Cancelling => Cancel
    case Waiting => Timeout
    case Joined(_) => ReadClient
    case ClosingClient(_) => CloseClient
    case ReadingDevice(_) => ReadDevice
    case ClosingDevice(_, _) => CloseDevice
    case StartingWait(_) => StartWait
    case JoiningPumps(_) => Leave
    case Stopped(_) => Leave
    case NotMine => Take
  }

  /** Who has to move for stop `i` to get on: the holder of the lock it needs, or the stop itself. */
  function StopNeeds(s: State, i: nat): Action
    requires i < |s.stops|
  {
    if s.stops[i].Joined? && !ClientMuFree(s) then Dial(DialWay(s.dialer))
    else if s.stops[i].ReadingDevice? && s.devMu.Some? && s.devMu.value < |s.attaches|
    then DoAttach(s.devMu.value, AttachWay(s.attaches[s.devMu.value]))
    else DoStop(i, StopWay(s.stops[i]))
  }

  /** A stop never hangs: until it has returned, it or the holder of the lock it needs can move. */
  lemma StopNeverHangs(s: State, i: nat)
    requires Reachable(s) && i < |s.stops| && !s.stops[i].Stopped? && !s.stops[i].NotMine?
    ensures Enabled(s, StopNeeds(s, i))
  {
    Reached(s);
    if s.stops[i].ReadingDevice? && s.devMu.Some? {
      assert HoldsDevMu(s.attaches[s.devMu.value]);
    } else if s.stops[i].ClosingDevice? {
      assert s.taker == Some(i);
    }
  }

  function AttachNeeds(s: State, i: nat): Action
    requires i < |s.attaches|
  {
    if s.attaches[i].Found? && !ClientMuFree(s) then Dial(DialWay(s.dialer))
    else if s.attaches[i].Ready? && s.devMu.Some? && s.devMu.value < |s.attaches|
    then DoAttach(s.devMu.value, AttachWay(s.attaches[s.devMu.value]))
    else DoAttach(i, AttachWay(s.attaches[i]))
  }

  /** Nor does an attach. */
  lemma AttachNeverHangs(s: State, i: nat)
    requires Reachable(s) && i < |s.attaches| && !s.attaches[i].Attached?
    ensures Enabled(s, AttachNeeds(s, i))
  {
    Reached(s);
    if s.attaches[i].Ready? && s.devMu.Some? {
      assert HoldsDevMu(s.attaches[s.devMu.value]);
    }
  }

  /** Nor does the start goroutine, which gives the dial up once the tunnel is cancelled. */
  lemma DialNeverHangs(s: State)
    requires !s.dialer.Over?
    ensures Enabled(s, Dial(DialWay(s.dialer)))
    ensures s.dialer.Dialing? && s.cancelled ==> Enabled(s, Dial(GiveUp)) && After(s, Dial(GiveUp)).dialer.Finishing?
  {
  }
}
