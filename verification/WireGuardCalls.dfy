/**
 Where the calls of WireGuardRegistry lead when nobody interferes: a start gives out a live handle, an
 attach installs its device, a stop closes it; and what an attach answers otherwise.
 */
module WireGuardCalls {
  import opened Options
  import opened WireGuardRegistry

  /** Call `i` can make these moves one after the other, everybody else standing still. */
  predicate RunCall(s: State, i: nat, moves: seq<Move>)
    requires i < |s.calls|
    decreases |moves|
  {
    moves == [] || (CanMove(s, i, moves[0]) && RunCall(After(s, Step(i, moves[0])), i, moves[1..]))
  }

  function FinalCall(s: State, i: nat, moves: seq<Move>): (s': State)
    requires i < |s.calls| && RunCall(s, i, moves)
    ensures |s'.calls| == |s.calls|
    decreases |moves|
  {
    if moves == [] then s else FinalCall(After(s, Step(i, moves[0])), i, moves[1..])
  }

  lemma {:induction false} CallConcat(s: State, i: nat, a: seq<Move>, b: seq<Move>)
    requires i < |s.calls| && RunCall(s, i, a) && RunCall(FinalCall(s, i, a), i, b)
    ensures RunCall(s, i, a + b) && FinalCall(s, i, a + b) == FinalCall(FinalCall(s, i, a), i, b)
    decreases |a|
  {
    if a == [] {
      assert a + b == b;
    } else {
      assert (a + b)[1..] == a[1..] + b;
      CallConcat(After(s, Step(i, a[0])), i, a[1..], b);
    }
  }

  /** Where the call is, and the registry and the devices as they are. */
  predicate At(s: State, i: nat, kind: Kind, phase: Phase, reg: Registry, closes: seq<nat>) {
    i < |s.calls| && s.calls[i].kind == kind && s.calls[i].phase == phase && s.reg == reg && s.closes == closes
  }

  lemma OneMove(s: State, i: nat, m: Move)
    requires i < |s.calls| && CanMove(s, i, m)
    ensures RunCall(s, i, [m])
    ensures var s' := FinalCall(s, i, [m]);
      At(s', i, s.calls[i].kind, NextCall(s, i, m).phase, NextRegistry(s, i, m), NextCloses(s, i, m))
  {
    var s' := After(s, Step(i, m));
    assert [m][1..] == [] && RunCall(s', i, []) && FinalCall(s', i, []) == s';
    assert FinalCall(s, i, [m]) == s';
  }

  /** One move more. */
  lemma ThenMove(s: State, i: nat, moves: seq<Move>, m: Move)
    requires i < |s.calls| && RunCall(s, i, moves) && CanMove(FinalCall(s, i, moves), i, m)
    ensures RunCall(s, i, moves + [m])
    ensures var s1, s' := FinalCall(s, i, moves), FinalCall(s, i, moves + [m]);
      At(s', i, s1.calls[i].kind, NextCall(s1, i, m).phase, NextRegistry(s1, i, m), NextCloses(s1, i, m))
  {
    OneMove(FinalCall(s, i, moves), i, m);
    CallConcat(s, i, moves, [m]);
  }

  // ----- starts --------------------------------------------------------------------------------

  /** A start whose device comes up hands out the next handle, with the device installed. */
  lemma ReadyStart(s: State, i: nat)
    requires i < |s.calls| && s.calls[i].kind == Start(true) && s.calls[i].phase.Called?
    ensures RunCall(s, i, [Bring, Register] + [Return])
    ensures At(FinalCall(s, i, [Bring, Register] + [Return]), i, Start(true), Done(s.reg.nextId),
               Registered(s.reg, Some(|s.closes|)), s.closes + [0])
  {
    OneMove(s, i, Bring);
    ThenMove(s, i, [Bring], Register);
    assert [Bring] + [Register] == [Bring, Register];
    ThenMove(s, i, [Bring, Register], Return);
  }

  /** A start without one hands out the next handle, for an attach to come. */
  lemma EmptyStart(s: State, i: nat)
    requires i < |s.calls| && s.calls[i].kind == Start(false) && s.calls[i].phase.Called?
    ensures RunCall(s, i, [Register] + [Return])
    ensures At(FinalCall(s, i, [Register] + [Return]), i, Start(false), Done(s.reg.nextId),
               Registered(s.reg, None), s.closes)
  {
    OneMove(s, i, Register);
    ThenMove(s, i, [Register], Return);
  }

  /** A start whose device does not come up closes it and answers the code of the step that failed. */
  lemma FailedStart(s: State, i: nat, code: int)
    requires i < |s.calls| && s.calls[i].kind == Start(true) && s.calls[i].phase.Called?
    requires code == -3 || code == -4
    ensures var moves := [Bring] + [UpErr(code)] + [Close] + [Return];
      RunCall(s, i, moves)
      && At(FinalCall(s, i, moves), i, Start(true), Done(code), s.reg, s.closes + [1])
  {
    OneMove(s, i, Bring);
    ThenMove(s, i, [Bring], UpErr(code));
    ThenMove(s, i, [Bring] + [UpErr(code)], Close);
    ThenMove(s, i, [Bring] + [UpErr(code)] + [Close], Return);
    assert (s.closes + [0])[|s.closes| := 1] == s.closes + [1];
  }

  /** A start refused on its settings answers their code, and leaves everything as it is. */
  lemma RefusedStart(s: State, i: nat, code: int)
    requires i < |s.calls| && s.calls[i].kind.Start? && s.calls[i].phase.Called? && code < 0
    ensures RunCall(s, i, [StartErr(code)] + [Return])
    ensures At(FinalCall(s, i, [StartErr(code)] + [Return]), i, s.calls[i].kind, Done(code), s.reg, s.closes)
  {
    OneMove(s, i, StartErr(code));
    ThenMove(s, i, [StartErr(code)], Return);
  }

  // ----- attaches ------------------------------------------------------------------------------

  /** An attach that has been called on this handle. */
  predicate Attaching(s: State, i: nat, h: int) {
    i < |s.calls| && s.calls[i].kind == Attach(h) && s.calls[i].phase.Called?
  }

  /** The handle is registered, and its tunnel has no device. */
  predicate EmptyAt(r: Registry, h: int) {
    h in r.tunnels && r.tunnels[h] < |r.entries|
    && r.entries[r.tunnels[h]].handle == h && r.entries[r.tunnels[h]].device.None?
  }

  const BUILDS: seq<Move> := [Lookup] + [Precheck] + [Build]

  lemma AttachBuilds(s: State, i: nat, h: int)
    requires Attaching(s, i, h) && EmptyAt(s.reg, h)
    ensures RunCall(s, i, BUILDS)
    ensures At(FinalCall(s, i, BUILDS), i, Attach(h), Made(s.reg.tunnels[h], |s.past|, |s.closes|),
               s.reg, s.closes + [0])
  {
    OneMove(s, i, Lookup);
    ThenMove(s, i, [Lookup], Precheck);
    ThenMove(s, i, [Lookup] + [Precheck], Build);
  }

  /** An attach on a live empty tunnel installs the device it built and answers 1. */
  lemma AttachInstalls(s: State, i: nat, h: int)
    requires Attaching(s, i, h) && EmptyAt(s.reg, h)
    ensures var e, moves := s.reg.tunnels[h], BUILDS + [ConfigOk] + [Install] + [Return];
      && RunCall(s, i, moves)
      && At(FinalCall(s, i, moves), i, Attach(h), Done(1),
            s.reg.(entries := s.reg.entries[e := Entry(h, Some(|s.closes|))]), s.closes + [0])
  {
    AttachBuilds(s, i, h);
    ThenMove(s, i, BUILDS, ConfigOk);
    ThenMove(s, i, BUILDS + [ConfigOk], Install);
    ThenMove(s, i, BUILDS + [ConfigOk] + [Install], Return);
  }

  /** The device does not take its configuration, or does not come up: it is closed, and the code says which. */
  lemma AttachFails(s: State, i: nat, h: int, code: int)
    requires Attaching(s, i, h) && EmptyAt(s.reg, h) && (code == -5 || code == -6)
    ensures var moves := BUILDS + [ConfigErr(code)] + [Close] + [Return];
      RunCall(s, i, moves) && At(FinalCall(s, i, moves), i, Attach(h), Done(code), s.reg, s.closes + [1])
  {
    AttachBuilds(s, i, h);
    ThenMove(s, i, BUILDS, ConfigErr(code));
    ThenMove(s, i, BUILDS + [ConfigErr(code)], Close);
    ThenMove(s, i, BUILDS + [ConfigErr(code)] + [Close], Return);
    assert (s.closes + [0])[|s.closes| := 1] == s.closes + [1];
  }

  /** The descriptor cannot be used: nothing was built, nothing changes. */
  lemma AttachHasNoDescriptor(s: State, i: nat, h: int, code: int)
    requires Attaching(s, i, h) && EmptyAt(s.reg, h) && (code == -3 || code == -4)
    ensures var moves := [Lookup] + [Precheck] + [SetupErr(code)] + [Return];
      RunCall(s, i, moves) && At(FinalCall(s, i, moves), i, Attach(h), Done(code), s.reg, s.closes)
  {
    OneMove(s, i, Lookup);
    ThenMove(s, i, [Lookup], Precheck);
    ThenMove(s, i, [Lookup] + [Precheck], SetupErr(code));
    ThenMove(s, i, [Lookup] + [Precheck] + [SetupErr(code)], Return);
  }

  /** On an occupied tunnel an attach answers -2, on an unknown handle -1, and neither changes anything. */
  lemma AttachIsRefused(s: State, i: nat, h: int)
    requires Attaching(s, i, h) && (h in s.reg.tunnels ==> s.reg.tunnels[h] < |s.reg.entries|)
    ensures h !in s.reg.tunnels ==>
      RunCall(s, i, [Lookup] + [Return])
      && At(FinalCall(s, i, [Lookup] + [Return]), i, Attach(h), Done(-1), s.reg, s.closes)
    ensures h in s.reg.tunnels && s.reg.entries[s.reg.tunnels[h]].device.Some? ==>
      RunCall(s, i, [Lookup] + [Precheck] + [Return])
      && At(FinalCall(s, i, [Lookup] + [Precheck] + [Return]), i, Attach(h), Done(-2), s.reg, s.closes)
  {
    OneMove(s, i, Lookup);
    if h !in s.reg.tunnels {
      ThenMove(s, i, [Lookup], Return);
    } else if s.reg.entries[s.reg.tunnels[h]].device.Some? {
      ThenMove(s, i, [Lookup], Precheck);
      ThenMove(s, i, [Lookup] + [Precheck], Return);
    }
  }

  /** A tunnel stopped under an attach: it closes the device it brought up and answers -7. */
  lemma AttachAfterStop(s: State, i: nat, h: int, e: nat, at: nat, dev: nat)
    requires At(s, i, Attach(h), Up(e, at, dev), s.reg, s.closes) && dev < |s.closes|
    requires e < |s.reg.entries| && s.reg.entries[e].handle == h && h !in s.reg.tunnels
    ensures var moves := [Install] + [Close] + [Return];
      RunCall(s, i, moves)
      && At(FinalCall(s, i, moves), i, Attach(h), Done(-7), s.reg, s.closes[dev := s.closes[dev] + 1])
  {
    OneMove(s, i, Install);
    ThenMove(s, i, [Install], Close);
    ThenMove(s, i, [Install] + [Close], Return);
  }

  // ----- stops ---------------------------------------------------------------------------------

  /** A stop takes the handle away and closes the device of its tunnel, if there is one. */
  lemma StopCloses(s: State, i: nat, h: int)
    requires i < |s.calls| && s.calls[i].kind == Stop(h) && s.calls[i].phase.Called?
    requires h in s.reg.tunnels && s.reg.tunnels[h] < |s.reg.entries|
    ensures var dev, reg := s.reg.entries[s.reg.tunnels[h]].device, s.reg.(tunnels := s.reg.tunnels - {h});
      if dev.Some? && dev.value < |s.closes| then
        RunCall(s, i, [Unregister] + [Close] + [Return])
        && At(FinalCall(s, i, [Unregister] + [Close] + [Return]), i, Stop(h), Done(0),
              reg, s.closes[dev.value := s.closes[dev.value] + 1])
      else if dev.None? then
        RunCall(s, i, [Unregister] + [Return])
        && At(FinalCall(s, i, [Unregister] + [Return]), i, Stop(h), Done(0), reg, s.closes)
      else true
  {
    var dev := s.reg.entries[s.reg.tunnels[h]].device;
    OneMove(s, i, Unregister);
    if dev.Some? && dev.value < |s.closes| {
      ThenMove(s, i, [Unregister], Close);
      ThenMove(s, i, [Unregister] + [Close], Return);
    } else if dev.None? {
      ThenMove(s, i, [Unregister], Return);
    }
  }

  // ----- the codes -----------------------------------------------------------------------------

  /** Which codes a call of each kind can have, and that a start without a device never has one in hand. */
  predicate CodeOk(c: Call) {
    match c.kind
    case Start(ready) =>
      && (c.phase.Brought? || c.phase.Closing? ==> ready)
      && (c.phase.Closing? ==> -4 <= c.phase.code <= -3)
    case Attach(_) =>
      && (c.phase.Closing? ==> c.phase.code in {-2, -5, -6, -7})
      && (c.phase.Returning? || c.phase.Done? ==> c.phase.code == 1 || -7 <= c.phase.code <= -1)
    case Stop(_) => c.phase.Closing? || c.phase.Returning? || c.phase.Done? ==> c.phase.code == 0
  }

  /** The phases that only attaches go through, and the one that only starts do. */
  predicate KindOk(c: Call) {
    && (c.phase.Looked? || c.phase.Checked? || c.phase.Made? || c.phase.Up? ==> c.kind.Attach?)
    && (c.phase.Brought? ==> c.kind.Start?)
  }

  lemma CodeKept(s: State, i: nat, m: Move)
    requires i < |s.calls| && CanMove(s, i, m) && CodeOk(s.calls[i]) && KindOk(s.calls[i])
    ensures CodeOk(NextCall(s, i, m)) && KindOk(NextCall(s, i, m))
  {
  }

  ghost predicate CodesOk(s: State) {
    forall i :: 0 <= i < |s.calls| ==> CodeOk(s.calls[i]) && KindOk(s.calls[i])
  }

  lemma {:induction false} CodesHold(s: State, actions: seq<Action>)
    requires CodesOk(s) && Run(s, actions)
    ensures CodesOk(Final(s, actions))
    decreases |actions|
  {
    if actions != [] {
      if actions[0].Step? {
        CodeKept(s, actions[0].call, actions[0].move);
      }
      CodesHold(After(s, actions[0]), actions[1..]);
    }
  }

  /** What each answer of an attach says it has done: nothing, installed a device, or closed the one it built. */
  lemma AttachAnswers(s: State, i: nat, m: Move, code: int)
    requires Reachable(s) && i < |s.calls| && CanMove(s, i, m)
    requires s.calls[i].kind.Attach? && NextCall(s, i, m).phase == Returning(code)
    ensures code == 1 <==> m.Install?
    ensures code == -1 <==> m.Lookup?
    ensures code == -3 || code == -4 <==> m.SetupErr?
    ensures code == -5 || code == -6 || code == -7 ==> m.Close?
    ensures code == -2 <==> m.Precheck? || (m.Close? && !(-7 <= code <= -5))
  {
    var actions :| Run(INIT, actions) && Final(INIT, actions) == s;
    CodesHold(INIT, actions);
    assert CodeOk(s.calls[i]) && KindOk(s.calls[i]);
  }

  /** A start without a device never builds one, and closes none. */
  lemma EmptyStartBuildsNothing(s: State, i: nat)
    requires Reachable(s) && i < |s.calls| && s.calls[i].kind == Start(false)
    ensures !s.calls[i].phase.Brought? && !s.calls[i].phase.Closing?
  {
    var actions :| Run(INIT, actions) && Final(INIT, actions) == s;
    CodesHold(INIT, actions);
  }

  // ----- a life --------------------------------------------------------------------------------

  lemma {:induction false} RunSnoc(s: State, r: seq<Action>, a: Action)
    requires Run(s, r) && Enabled(Final(s, r), a)
    ensures Run(s, r + [a]) && Final(s, r + [a]) == After(Final(s, r), a)
    decreases |r|
  {
    if r == [] {
      assert [] + [a] == [a];
      assert [a][1..] == [];
    } else {
      assert (r + [a])[1..] == r[1..] + [a];
      RunSnoc(After(s, r[0]), r[1..], a);
    }
  }

  lemma ReachableStep(s: State, a: Action)
    requires Reachable(s) && Enabled(s, a)
    ensures Reachable(After(s, a))
  {
    var r :| Run(INIT, r) && Final(INIT, r) == s;
    RunSnoc(INIT, r, a);
  }

  lemma {:induction false} ReachableCall(s: State, i: nat, moves: seq<Move>)
    requires Reachable(s) && i < |s.calls| && RunCall(s, i, moves)
    ensures Reachable(FinalCall(s, i, moves))
    decreases |moves|
  {
    if moves != [] {
      ReachableStep(s, Step(i, moves[0]));
      ReachableCall(After(s, Step(i, moves[0])), i, moves[1..]);
    }
  }

  /** Anybody can call at any time. */
  lemma Invokes(s: State, kind: Kind)
    requires Reachable(s)
    ensures Reachable(After(s, Invoke(kind)))
    ensures At(After(s, Invoke(kind)), |s.calls|, kind, Called, s.reg, s.closes)
    ensures After(s, Invoke(kind)).calls[|s.calls|].inv == |s.past|
  {
    ReachableStep(s, Invoke(kind));
  }

  /** The tunnel a bootstrap start hands out. */
  lemma LifeStarts(s: State) returns (s': State)
    requires Reachable(s)
    ensures Reachable(s') && s'.reg == Registered(s.reg, None) && s'.closes == s.closes
  {
    Invokes(s, Start(false));
    var i, s1 := |s.calls|, After(s, Invoke(Start(false)));
    EmptyStart(s1, i);
    ReachableCall(s1, i, [Register] + [Return]);
    s' := FinalCall(s1, i, [Register] + [Return]);
  }

  lemma LifeAttaches(s: State, h: int) returns (s': State)
    requires Reachable(s) && EmptyAt(s.reg, h)
    ensures Reachable(s') && s'.closes == s.closes + [0]
    ensures var e := s.reg.tunnels[h];
      s'.reg == s.reg.(entries := s.reg.entries[e := Entry(h, Some(|s.closes|))])
  {
    Invokes(s, Attach(h));
    var i, s1 := |s.calls|, After(s, Invoke(Attach(h)));
    AttachInstalls(s1, i, h);
    ReachableCall(s1, i, BUILDS + [ConfigOk] + [Install] + [Return]);
    s' := FinalCall(s1, i, BUILDS + [ConfigOk] + [Install] + [Return]);
  }

  lemma LifeStops(s: State, h: int, dev: nat) returns (s': State)
    requires Reachable(s) && h in s.reg.tunnels && s.reg.tunnels[h] < |s.reg.entries| && dev < |s.closes|
    requires s.reg.entries[s.reg.tunnels[h]].device == Some(dev)
    ensures Reachable(s') && s'.reg == s.reg.(tunnels := s.reg.tunnels - {h})
    ensures s'.closes == s.closes[dev := s.closes[dev] + 1]
  {
    Invokes(s, Stop(h));
    var i, s1 := |s.calls|, After(s, Invoke(Stop(h)));
    StopCloses(s1, i, h);
    ReachableCall(s1, i, [Unregister] + [Close] + [Return]);
    s' := FinalCall(s1, i, [Unregister] + [Close] + [Return]);
  }

  /** One tunnel from its start over an attach to its stop: its device is installed, and closed once. */
  lemma OneLife()
    ensures exists s :: Reachable(s) && s.closes == [1] && s.reg.tunnels == map[]
                        && |s.reg.entries| == 1 && s.reg.entries[0].device == Some(0)
  {
    assert Run(INIT, []) && Final(INIT, []) == INIT;
    var s1 := LifeStarts(INIT);
    var h := EMPTY.nextId;
    var s2 := LifeAttaches(s1, h);
    var s3 := LifeStops(s2, h, 0);
    assert s3.reg.tunnels == map[];
  }
}
