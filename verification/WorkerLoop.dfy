/**
 What the workers of WorkerProtocol get done: how the client comes to a stop, and where one worker's loop
 leads when the pool, the relay and the server answer, break or refuse.
 */
module WorkerLoop {
  import opened Options
  import opened WorkerProtocol

  // ----- stopping ------------------------------------------------------------------------------

  /** A worker that has returned has seen the stop, and the gate is held by a worker. */
  ghost predicate LoopsOk(s: State) {
    && (forall w :: 0 <= w < |s.workers| && s.workers[w].phase.Gone? ==> s.stopped)
    && (s.gate.Some? ==> s.gate.value < |s.workers|)
  }

  lemma LoopsKept(s: State, a: Action)
    requires Enabled(s, a) && LoopsOk(s)
    ensures LoopsOk(After(s, a))
  {
  }

  lemma {:induction false} LoopsHold(s: State, actions: seq<Action>)
    requires LoopsOk(s) && Run(s, actions)
    ensures LoopsOk(Final(s, actions))
    decreases |actions|
  {
    if actions != [] {
      LoopsKept(s, actions[0]);
      LoopsHold(After(s, actions[0]), actions[1..]);
    }
  }

  lemma LoopsReached(s: State)
    requires Reachable(s)
    ensures LoopsOk(s)
  {
    var n: nat, gen: nat, actions :| Run(Init(n, gen), actions) && Final(Init(n, gen), actions) == s;
    LoopsHold(Init(n, gen), actions);
  }

  /** A run loop returns only once the client is stopped: a worker the server refused for good stops it for all. */
  lemma GoneMeansStopped(s: State, w: nat)
    requires Reachable(s) && w < |s.workers| && s.workers[w].phase.Gone?
    ensures s.stopped
  {
    LoopsReached(s);
  }

  /** What stops a client: its `Close`, or the judgement on a fatal refusal. */
  predicate StopsTheClient(s: State, a: Action)
    requires Enabled(s, a)
  {
    a.Stop? || (a.Work? && a.move.Judge? && s.workers[a.worker].phase.end.Fatal?)
  }

  predicate Undisturbed(s: State, actions: seq<Action>)
    requires Run(s, actions)
    decreases |actions|
  {
    actions == [] || (!StopsTheClient(s, actions[0]) && Undisturbed(After(s, actions[0]), actions[1..]))
  }

  /** The client is stopped by one of these, and by nothing else. */
  lemma {:induction false} StoppedForAReason(s: State, actions: seq<Action>)
    requires !s.stopped && Run(s, actions)
    ensures Undisturbed(s, actions) <==> !Final(s, actions).stopped
    decreases |actions|
  {
    if actions != [] {
      if StopsTheClient(s, actions[0]) {
        StaysStopped(After(s, actions[0]), actions[1..]);
      } else {
        StoppedForAReason(After(s, actions[0]), actions[1..]);
      }
    }
  }

  lemma {:induction false} StaysStopped(s: State, actions: seq<Action>)
    requires s.stopped && Run(s, actions)
    ensures Final(s, actions).stopped
    decreases |actions|
  {
    if actions != [] {
      StaysStopped(After(s, actions[0]), actions[1..]);
    }
  }

  /** An upper bound on the moves a worker has left once the client is stopped. */
  function MovesLeft(p: Phase): nat {
    match p
    case Gone => 0
    case Top => 1
    case BackingOff => 2
    case Judging(_) => 1
    case Releasing(_) => 2
    case TearingDown(_) => 3
    case Serving => 4
    case Announcing => 5
    case Checking(a) => if SCHEDULE <= a then 4 else 5 + 4 * (SCHEDULE - a)
    case Reading(a) => 8 + 4 * Again(a)
    case Sending(a, _) => 7 + 4 * Again(a)
    case Awaiting(a) => 6 + 4 * Again(a)
    case Wrapping => 18
    case Dialing => 19
    case Draining => 20
    case Gated => 21
    case Leased => 22
    case Leasing => 23
  }

  /** The entries of the schedule after this one. */
  function Again(attempt: nat): nat { if SCHEDULE <= attempt + 1 then 0 else SCHEDULE - 1 - attempt }

  lemma MoveSpends(s: State, w: nat, m: Move)
    requires w < |s.workers| && CanMove(s, w, m) && s.stopped
    ensures MovesLeft(NextWorker(s, w, m).phase) < MovesLeft(s.workers[w].phase)
  {
  }

  /** The moves worker `w` makes in a run. */
  function MovesOf(actions: seq<Action>, w: nat): nat {
    if actions == [] then 0
    else (if actions[0].Work? && actions[0].worker == w then 1 else 0) + MovesOf(actions[1..], w)
  }

  lemma {:induction false} MovesAreLeft(s: State, actions: seq<Action>, w: nat)
    requires s.stopped && Run(s, actions) && w < |s.workers|
    ensures MovesOf(actions, w) <= MovesLeft(s.workers[w].phase)
    decreases |actions|
  {
    if actions != [] {
      var a, s' := actions[0], After(s, actions[0]);
      if a.Work? && a.worker == w {
        MoveSpends(s, w, a.move);
      }
      assert (a.Work? && a.worker == w) || s'.workers[w].phase == s.workers[w].phase;
      MovesAreLeft(s', actions[1..], w);
    }
  }

  /** After a stop, whatever happens, no worker makes more than 23 moves. */
  lemma ReturnsAfterStop(s: State, actions: seq<Action>, w: nat)
    requires Run(After(s, Stop), actions) && w < |s.workers|
    ensures MovesOf(actions, w) <= 23
  {
    MovesAreLeft(After(s, Stop), actions, w);
  }

  /** A way out of every phase once the client is stopped, whatever relay, pool and server do. */
  function WayOut(p: Phase): Move {
    match p
    case Top => Loop
    case Leasing => CredsErr
    case Leased => EnterGate
    case Gated => CheckStop
    case Draining => Drain
    case Dialing => DialErr
    case Wrapping => Publish
    case Checking(_) => CheckKick
    case Reading(_) => ReadIdentity
    case Sending(_, _) => Send(false)
    case Awaiting(_) => SeeStop
    case Announcing => ReadySend(false)
    case Serving => SeeStop
    case TearingDown(_) => CloseOwnRelay
    case Releasing(_) => Release
    case Judging(_) => Judge
    case BackingOff => SeeStop
    case Gone => Loop
  }

  /** No worker hangs: one that has not returned can move on, or waits at the gate for one that can. */
  lemma NobodyHangs(s: State, w: nat)
    requires Reachable(s) && s.stopped && w < |s.workers| && !s.workers[w].phase.Gone?
    ensures var v := if s.workers[w].phase.Leased? && s.gate.Some? then s.gate.value else w;
      v < |s.workers| && Enabled(s, Work(v, WayOut(s.workers[v].phase)))
  {
    Reached(s);
    assert WorkerLeaseOk(s, w);
    if s.workers[w].phase.Leased? && s.gate.Some? {
      LoopsReached(s);
      assert WorkerLeaseOk(s, s.gate.value);
    }
  }

  // ----- one worker's loop ---------------------------------------------------------------------

  /** Worker `w` can make these moves one after the other, everybody else standing still. */
  predicate RunOwn(s: State, w: nat, moves: seq<Move>)
    requires w < |s.workers|
    decreases |moves|
  {
    moves == [] || (CanMove(s, w, moves[0]) && RunOwn(Moved(s, w, moves[0]), w, moves[1..]))
  }

  function FinalOwn(s: State, w: nat, moves: seq<Move>): (s': State)
    requires w < |s.workers| && RunOwn(s, w, moves)
    ensures |s'.workers| == |s.workers|
    decreases |moves|
  {
    if moves == [] then s else FinalOwn(Moved(s, w, moves[0]), w, moves[1..])
  }

  lemma {:induction false} OwnConcat(s: State, w: nat, a: seq<Move>, b: seq<Move>)
    requires w < |s.workers| && RunOwn(s, w, a) && RunOwn(FinalOwn(s, w, a), w, b)
    ensures RunOwn(s, w, a + b) && FinalOwn(s, w, a + b) == FinalOwn(FinalOwn(s, w, a), w, b)
    decreases |a|
  {
    if a == [] {
      assert a + b == b;
    } else {
      assert (a + b)[1..] == a[1..] + b;
      OwnConcat(Moved(s, w, a[0]), w, a[1..], b);
    }
  }

  lemma OwnOne(s: State, w: nat, m: Move)
    requires w < |s.workers| && CanMove(s, w, m)
    ensures RunOwn(s, w, [m]) && FinalOwn(s, w, [m]) == Moved(s, w, m)
  {
    assert [m][1..] == [];
  }

  /** The lease of the worker is one of the leases. */
  predicate LeaseInHand(s: State, w: nat)
    requires w < |s.workers|
  {
    s.workers[w].lease.Some? && s.workers[w].lease.value < |s.leases|
  }

  lemma OwnMove(s: State, w: nat, m: Move)
    requires w < |s.workers| && CanMove(s, w, m)
    ensures var s' := Moved(s, w, m);
      && |s'.workers| == |s.workers| && s'.workers[w] == NextWorker(s, w, m)
      && s'.gen == s.gen && s'.gate == NextGate(s, w, m)
      && (m.Judge? || s'.stopped == s.stopped)
      && (LeaseInHand(s, w) && !m.Release? ==> LeaseInHand(s', w))
      && (m.CredsOk? ==> LeaseInHand(s', w))
  {
  }

  /** What a session is at, for somebody who follows one worker. */
  predicate At(s: State, w: nat, gate: Option<nat>, me: Worker) {
    w < |s.workers| && s.workers[w] == me && s.gate == gate && !s.stopped && (me.lease.Some? ==> LeaseInHand(s, w))
  }

  /** Following the worker through one move that keeps its lease. */
  lemma Follows(s: State, w: nat, gate: Option<nat>, me: Worker, m: Move)
    requires At(s, w, gate, me) && CanMove(s, w, m) && !m.CredsOk? && !m.Release? && !m.Judge?
    ensures At(Moved(s, w, m), w, NextGate(s, w, m), NextWorker(s, w, m)) && Moved(s, w, m).gen == s.gen
  {
    OwnMove(s, w, m);
    NoNewLease(s, w, m);
  }

  lemma NoNewLease(s: State, w: nat, m: Move)
    requires w < |s.workers| && CanMove(s, w, m) && !m.CredsOk?
    ensures NextWorker(s, w, m).lease.None? || NextWorker(s, w, m).lease == s.workers[w].lease
  {
  }

  const ALLOCATES: seq<Move> := [EnterGate, CheckStop, Drain, DialOk]
  const ATTEMPT: seq<Move> := [CheckKick, ReadIdentity, Send(true)]
  const ANNOUNCES: seq<Move> := [Publish] + ATTEMPT
  const SERVES: seq<Move> := [ConfOk, ReadySend(true)]
  const ENDS: seq<Move> := [CloseOwnRelay, Release, Judge]

  lemma Leases(s: State, w: nat, slot: nat)
    requires w < |s.workers| && s.workers[w].phase.Top? && !s.stopped
    ensures RunOwn(s, w, [Loop, CredsOk(slot)])
    ensures var s' := FinalOwn(s, w, [Loop, CredsOk(slot)]);
      && At(s', w, s.gate, Worker(Leased, s.workers[w].kick, Some(|s.leases|), None)) && s'.gen == s.gen
  {
    var s1 := Moved(s, w, Loop);
    OwnMove(s, w, Loop);
    OwnMove(s1, w, CredsOk(slot));
    TwoMoves(s, w, Loop, CredsOk(slot));
    assert |s1.leases| == |s.leases|;
  }

  lemma TwoMoves(s: State, w: nat, a: Move, b: Move)
    requires w < |s.workers| && CanMove(s, w, a) && CanMove(Moved(s, w, a), w, b)
    ensures RunOwn(s, w, [a, b]) && FinalOwn(s, w, [a, b]) == Moved(Moved(s, w, a), w, b)
  {
    OwnOne(Moved(s, w, a), w, b);
    assert [a, b][1..] == [b];
  }

  lemma FourMoves(s: State, w: nat, a: Move, b: Move, c: Move, d: Move)
    requires w < |s.workers| && CanMove(s, w, a) && CanMove(Moved(s, w, a), w, b)
    requires CanMove(Moved(Moved(s, w, a), w, b), w, c)
    requires CanMove(Moved(Moved(Moved(s, w, a), w, b), w, c), w, d)
    ensures RunOwn(s, w, [a, b, c, d])
    ensures FinalOwn(s, w, [a, b, c, d]) == Moved(Moved(Moved(Moved(s, w, a), w, b), w, c), w, d)
  {
    TwoMoves(s, w, a, b);
    TwoMoves(FinalOwn(s, w, [a, b]), w, c, d);
    OwnConcat(s, w, [a, b], [c, d]);
    assert [a, b] + [c, d] == [a, b, c, d];
  }

  /** The gate is free, so the worker allocates: it gives the gate back and has drained its kick. */
  lemma Allocates(s: State, w: nat, kick: bool, lease: nat, announced: Option<nat>)
    requires At(s, w, None, Worker(Leased, kick, Some(lease), announced))
    ensures RunOwn(s, w, ALLOCATES)
    ensures var s' := FinalOwn(s, w, ALLOCATES);
      At(s', w, None, Worker(Wrapping, false, Some(lease), announced)) && s'.gen == s.gen
  {
    var s1 := Moved(s, w, EnterGate);
    var s2 := Moved(s1, w, CheckStop);
    var s3 := Moved(s2, w, Drain);
    Follows(s, w, None, Worker(Leased, kick, Some(lease), announced), EnterGate);
    Follows(s1, w, Some(w), Worker(Gated, kick, Some(lease), announced), CheckStop);
    Follows(s2, w, Some(w), Worker(Draining, kick, Some(lease), announced), Drain);
    Follows(s3, w, Some(w), Worker(Dialing, false, Some(lease), announced), DialOk);
    FourMoves(s, w, EnterGate, CheckStop, Drain, DialOk);
  }

  /** One entry of the schedule: no kick, the identity of this moment, and the GETCONF under it. */
  lemma Attempt(s: State, w: nat, gate: Option<nat>, attempt: nat, lease: nat, announced: Option<nat>)
    requires At(s, w, gate, Worker(Checking(attempt), false, Some(lease), announced)) && attempt < SCHEDULE
    ensures RunOwn(s, w, ATTEMPT)
    ensures var s' := FinalOwn(s, w, ATTEMPT);
      At(s', w, gate, Worker(Awaiting(attempt), false, Some(lease), Some(s.gen))) && s'.gen == s.gen
  {
    var s1 := Moved(s, w, CheckKick);
    var s2 := Moved(s1, w, ReadIdentity);
    Follows(s, w, gate, Worker(Checking(attempt), false, Some(lease), announced), CheckKick);
    Follows(s1, w, gate, Worker(Reading(attempt), false, Some(lease), announced), ReadIdentity);
    Follows(s2, w, gate, Worker(Sending(attempt, s.gen), false, Some(lease), announced), Send(true));
    TwoMoves(s1, w, ReadIdentity, Send(true));
    assert ATTEMPT[1..] == [ReadIdentity, Send(true)];
  }

  lemma Announces(s: State, w: nat, gate: Option<nat>, lease: nat, announced: Option<nat>)
    requires At(s, w, gate, Worker(Wrapping, false, Some(lease), announced))
    ensures RunOwn(s, w, ANNOUNCES)
    ensures var s' := FinalOwn(s, w, ANNOUNCES);
      At(s', w, gate, Worker(Awaiting(0), false, Some(lease), Some(s.gen))) && s'.gen == s.gen
  {
    Follows(s, w, gate, Worker(Wrapping, false, Some(lease), announced), Publish);
    OwnOne(s, w, Publish);
    Attempt(Moved(s, w, Publish), w, gate, 0, lease, announced);
    OwnConcat(s, w, [Publish], ATTEMPT);
  }

  lemma Serves(s: State, w: nat, gate: Option<nat>, lease: nat, announced: Option<nat>)
    requires At(s, w, gate, Worker(Awaiting(0), false, Some(lease), announced))
    ensures RunOwn(s, w, SERVES)
    ensures var s' := FinalOwn(s, w, SERVES);
      At(s', w, gate, Worker(Serving, false, Some(lease), announced)) && s'.gen == s.gen
  {
    Follows(s, w, gate, Worker(Awaiting(0), false, Some(lease), announced), ConfOk);
    Follows(Moved(s, w, ConfOk), w, gate, Worker(Announcing, false, Some(lease), announced), ReadySend(true));
    TwoMoves(s, w, ConfOk, ReadySend(true));
  }

  /** The moves of a loop in which everything answers. */
  function GoodLoop(slot: nat): seq<Move> { [Loop, CredsOk(slot)] + ALLOCATES + ANNOUNCES + SERVES }

  /**
   From the top of its loop, on any slot, a worker whose pool, relay and server answer gets to serve under
   the client's current identity, with no kick left over.
   */
  lemma LoopServes(s: State, w: nat, slot: nat)
    requires w < |s.workers| && s.workers[w].phase.Top? && !s.stopped && s.gate.None?
    ensures RunOwn(s, w, GoodLoop(slot))
    ensures FinalOwn(s, w, GoodLoop(slot)).workers[w] == Worker(Serving, false, Some(|s.leases|), Some(s.gen))
  {
    var lease := |s.leases|;
    Leases(s, w, slot);
    var s1 := FinalOwn(s, w, [Loop, CredsOk(slot)]);
    Allocates(s1, w, s.workers[w].kick, lease, None);
    var s2 := FinalOwn(s1, w, ALLOCATES);
    Announces(s2, w, None, lease, None);
    var s3 := FinalOwn(s2, w, ANNOUNCES);
    Serves(s3, w, None, lease, Some(s.gen));
    OwnConcat(s, w, [Loop, CredsOk(slot)], ALLOCATES);
    OwnConcat(s, w, [Loop, CredsOk(slot)] + ALLOCATES, ANNOUNCES);
    OwnConcat(s, w, [Loop, CredsOk(slot)] + ALLOCATES + ANNOUNCES, SERVES);
  }

  /** Where the run loop goes after a session that ended so. */
  function AfterEnd(end: End): Phase {
    match end
    case Asked => Top
    case Fatal => Gone
    case Broken => BackingOff
  }

  /** A released worker is judged. */
  lemma ReleaseThenJudge(s: State, w: nat, gate: Option<nat>, end: End, kick: bool, lease: nat, announced: Option<nat>)
    requires At(s, w, gate, Worker(Releasing(end), kick, Some(lease), announced))
    ensures RunOwn(s, w, [Release, Judge])
    ensures var s' := FinalOwn(s, w, [Release, Judge]);
      && |s'.workers| == |s.workers| && s'.gate == s.gate && s'.gen == s.gen && s'.stopped == end.Fatal?
      && s'.workers[w] == Worker(AfterEnd(end), kick, None, announced)
  {
    OwnMove(s, w, Release);
    OwnMove(Moved(s, w, Release), w, Judge);
    TwoMoves(s, w, Release, Judge);
  }

  /** A session that is over closes its relay, releases its lease, and is judged. */
  lemma Ends(s: State, w: nat, gate: Option<nat>, end: End, kick: bool, lease: nat, announced: Option<nat>)
    requires At(s, w, gate, Worker(TearingDown(end), kick, Some(lease), announced))
    ensures RunOwn(s, w, ENDS)
    ensures var s' := FinalOwn(s, w, ENDS);
      && |s'.workers| == |s.workers| && s'.gate == s.gate && s'.gen == s.gen && s'.stopped == end.Fatal?
      && s'.workers[w] == Worker(AfterEnd(end), kick, None, announced)
  {
    Follows(s, w, gate, Worker(TearingDown(end), kick, Some(lease), announced), CloseOwnRelay);
    ReleaseThenJudge(Moved(s, w, CloseOwnRelay), w, gate, end, kick, lease, announced);
    assert ENDS[1..] == [Release, Judge];
  }

  lemma SessionIsAt(s: State, w: nat)
    requires Reachable(s) && w < |s.workers| && !s.stopped && Published(s.workers[w].phase)
    ensures s.workers[w].lease.Some? && At(s, w, s.gate, s.workers[w])
  {
    Reached(s);
    assert WorkerLeaseOk(s, w);
  }

  lemma EndsAfter(s: State, w: nat, m: Move, end: End)
    requires Reachable(s) && w < |s.workers| && !s.stopped && Published(s.workers[w].phase) && CanMove(s, w, m)
    requires NextWorker(s, w, m).phase == TearingDown(end)
    ensures RunOwn(s, w, [m] + ENDS)
    ensures var s' := FinalOwn(s, w, [m] + ENDS);
      && |s'.workers| == |s.workers| && s'.gate == s.gate && s'.gen == s.gen && s'.stopped == end.Fatal?
      && s'.workers[w].phase == AfterEnd(end)
  {
    SessionIsAt(s, w);
    var s1 := Moved(s, w, m);
    OwnMove(s, w, m);
    var me := s1.workers[w];
    Ends(s1, w, s.gate, end, me.kick, me.lease.value, me.announced);
    OwnOne(s, w, m);
    OwnConcat(s, w, [m], ENDS);
  }

  /**
   A kicked session ends without backing off, and with the gate free the worker is back serving under the
   current identity.
   */
  lemma KickedComesBack(s: State, w: nat, slot: nat)
    requires Reachable(s) && w < |s.workers| && !s.stopped && s.gate.None?
    requires s.workers[w].kick && (s.workers[w].phase.Serving? || s.workers[w].phase.Awaiting?)
    ensures RunOwn(s, w, [SeeKick] + ENDS + GoodLoop(slot))
    ensures var me := FinalOwn(s, w, [SeeKick] + ENDS + GoodLoop(slot)).workers[w];
      me.phase.Serving? && me.announced == Some(s.gen) && !me.kick
  {
    EndsAfter(s, w, SeeKick, Asked);
    LoopServes(FinalOwn(s, w, [SeeKick] + ENDS), w, slot);
    OwnConcat(s, w, [SeeKick] + ENDS, GoodLoop(slot));
  }

  /** A worker the server refuses for good stops the client and returns. */
  lemma RefusedStopsTheClient(s: State, w: nat)
    requires Reachable(s) && w < |s.workers| && !s.stopped && s.workers[w].phase.Awaiting?
    ensures RunOwn(s, w, [ConfBad(true)] + ENDS)
    ensures var s' := FinalOwn(s, w, [ConfBad(true)] + ENDS); s'.stopped && s'.workers[w].phase.Gone?
  {
    EndsAfter(s, w, ConfBad(true), Fatal);
  }

  /** The ways a session with a relay breaks on its own. */
  predicate Breaks(m: Move) {
    m == Send(false) || m == ReadySend(false) || m == ConfBad(false) || m.LinkErr?
  }

  /** A session that broke on its own backs off, and then dials again. */
  lemma BrokenBacksOff(s: State, w: nat, m: Move, slot: nat)
    requires Reachable(s) && w < |s.workers| && !s.stopped && CanMove(s, w, m) && Breaks(m) && s.gate.None?
    ensures RunOwn(s, w, [m] + ENDS) && FinalOwn(s, w, [m] + ENDS).workers[w].phase.BackingOff?
    ensures RunOwn(s, w, [m] + ENDS + [SleepOver] + GoodLoop(slot))
    ensures FinalOwn(s, w, [m] + ENDS + [SleepOver] + GoodLoop(slot)).workers[w].phase.Serving?
  {
    EndsAfter(s, w, m, Broken);
    var s1 := FinalOwn(s, w, [m] + ENDS);
    OwnMove(s1, w, SleepOver);
    OwnOne(s1, w, SleepOver);
    LoopServes(Moved(s1, w, SleepOver), w, slot);
    OwnConcat(s, w, [m] + ENDS, [SleepOver]);
    OwnConcat(s, w, [m] + ENDS + [SleepOver], GoodLoop(slot));
  }

  /** Whoever serves may lose its link: it backs off, and then serves again. */
  lemma LinkBreaks(s: State, w: nat, slot: nat)
    requires Reachable(s) && w < |s.workers| && !s.stopped && s.gate.None?
    requires s.workers[w].phase.Serving? || s.workers[w].phase.Awaiting?
    ensures RunOwn(s, w, [LinkErr] + ENDS + [SleepOver] + GoodLoop(slot))
    ensures FinalOwn(s, w, [LinkErr] + ENDS + [SleepOver] + GoodLoop(slot)).workers[w].phase.Serving?
  {
    BrokenBacksOff(s, w, LinkErr, slot);
  }

  /** So does a worker without a credential, and one whose relay or wrapper did not come up. */
  lemma NoRelayBacksOff(s: State, w: nat)
    requires Reachable(s) && w < |s.workers| && !s.stopped
    ensures s.workers[w].phase.Leasing? ==>
      RunOwn(s, w, [CredsErr, Judge]) && FinalOwn(s, w, [CredsErr, Judge]).workers[w].phase.BackingOff?
    ensures s.workers[w].phase.Dialing? ==>
      RunOwn(s, w, [DialErr, Release, Judge])
      && FinalOwn(s, w, [DialErr, Release, Judge]).workers[w].phase.BackingOff?
      && FinalOwn(s, w, [DialErr, Release, Judge]).gate.None?
    ensures s.workers[w].phase.Wrapping? ==>
      RunOwn(s, w, [WrapErr, Release, Judge])
      && FinalOwn(s, w, [WrapErr, Release, Judge]).workers[w].phase.BackingOff?
  {
    Reached(s);
    assert WorkerLeaseOk(s, w);
    if s.workers[w].phase.Leasing? {
      OwnMove(s, w, CredsErr);
      OwnMove(Moved(s, w, CredsErr), w, Judge);
      TwoMoves(s, w, CredsErr, Judge);
    } else if s.workers[w].phase.Dialing? {
      ReleaseAndJudge(s, w, DialErr);
    } else if s.workers[w].phase.Wrapping? {
      ReleaseAndJudge(s, w, WrapErr);
    }
  }

  lemma ReleaseAndJudge(s: State, w: nat, m: Move)
    requires w < |s.workers| && CanMove(s, w, m) && LeaseInHand(s, w) && !s.stopped
    requires !m.CredsOk? && !m.Judge? && !m.Release? && NextWorker(s, w, m).phase == Releasing(Broken)
    requires NextWorker(s, w, m).lease == s.workers[w].lease
    ensures RunOwn(s, w, [m, Release, Judge])
    ensures var s' := FinalOwn(s, w, [m, Release, Judge]);
      s'.workers[w].phase.BackingOff? && s'.gate == NextGate(s, w, m)
  {
    var me, now := s.workers[w], NextWorker(s, w, m);
    Follows(s, w, s.gate, me, m);
    ReleaseThenJudge(Moved(s, w, m), w, NextGate(s, w, m), Broken, now.kick, now.lease.value, now.announced);
    assert [m, Release, Judge][1..] == [Release, Judge];
  }

  /** What the lease of worker `w` has recorded, all the others as in `s`. */
  predicate Recorded(s: State, s': State, w: nat, trace: seq<LeaseEvent>)
    requires w < |s.workers| && LeaseInHand(s, w)
  {
    var l := s.workers[w].lease.value;
    s'.leases == s.leases[l := s.leases[l].(trace := trace)]
  }

  lemma LeaseRecords(s: State, w: nat, m: Move)
    requires w < |s.workers| && CanMove(s, w, m) && LeaseInHand(s, w) && !m.CredsOk?
    ensures Recorded(s, Moved(s, w, m), w, NextTrace(s.leases[s.workers[w].lease.value].trace, m))
  {
  }

  /** A move to the release, and the release. */
  lemma ReleasedAfter(s: State, w: nat, m: Move)
    requires w < |s.workers| && CanMove(s, w, m) && LeaseInHand(s, w) && (m.DialErr? || m.CloseOwnRelay?)
    ensures var s1, trace := Moved(s, w, m), s.leases[s.workers[w].lease.value].trace;
      && CanMove(s1, w, Release)
      && Recorded(s, Moved(s1, w, Release), w, NextTrace(trace, m) + [Released])
  {
    var s1 := Moved(s, w, m);
    OwnMove(s, w, m);
    LeaseRecords(s, w, m);
    LeaseRecords(s1, w, Release);
  }

  /** A lease whose relay did not come up is refused, then released; the other leases stay. */
  lemma RefusedLeaseIsReturned(s: State, w: nat)
    requires Reachable(s) && w < |s.workers| && s.workers[w].phase.Dialing?
    ensures LeaseInHand(s, w) && CanMove(s, w, DialErr) && CanMove(Moved(s, w, DialErr), w, Release)
    ensures Recorded(s, Moved(Moved(s, w, DialErr), w, Release), w, [Acquired, Refused, Released])
  {
    Reached(s);
    assert WorkerLeaseOk(s, w);
    ReleasedAfter(s, w, DialErr);
    assert [Acquired] + [Refused] + [Released] == [Acquired, Refused, Released];
  }

  /** A lease with a relay has it closed, then is released; the other leases stay. */
  lemma ServedLeaseIsReturned(s: State, w: nat)
    requires Reachable(s) && w < |s.workers| && s.workers[w].phase.TearingDown?
    ensures LeaseInHand(s, w) && CanMove(s, w, CloseOwnRelay) && CanMove(Moved(s, w, CloseOwnRelay), w, Release)
    ensures Recorded(s, Moved(Moved(s, w, CloseOwnRelay), w, Release), w, [Acquired, Opened, Closed, Released])
  {
    Reached(s);
    assert WorkerLeaseOk(s, w);
    ReleasedAfter(s, w, CloseOwnRelay);
    assert [Acquired, Opened] + [Closed] == [Acquired, Opened, Closed];
    assert [Acquired, Opened, Closed] + [Released] == [Acquired, Opened, Closed, Released];
  }

  const RETRIES: seq<Move> := [Deadline] + ATTEMPT

  /** No answer in time, and no kick: the next entry of the schedule, under the identity of that moment. */
  lemma Retries(s: State, w: nat, gate: Option<nat>, attempt: nat, lease: nat, announced: Option<nat>)
    requires At(s, w, gate, Worker(Awaiting(attempt), false, Some(lease), announced)) && attempt + 1 < SCHEDULE
    ensures RunOwn(s, w, RETRIES)
    ensures At(FinalOwn(s, w, RETRIES), w, gate, Worker(Awaiting(attempt + 1), false, Some(lease), Some(s.gen)))
  {
    Follows(s, w, gate, Worker(Awaiting(attempt), false, Some(lease), announced), Deadline);
    OwnOne(s, w, Deadline);
    Attempt(Moved(s, w, Deadline), w, gate, attempt + 1, lease, announced);
    OwnConcat(s, w, [Deadline], ATTEMPT);
  }

  /** After the last entry the session breaks. */
  lemma GivesUp(s: State, w: nat, gate: Option<nat>, lease: nat, announced: Option<nat>)
    requires At(s, w, gate, Worker(Awaiting(2), false, Some(lease), announced))
    ensures RunOwn(s, w, [Deadline, CheckKick])
    ensures At(FinalOwn(s, w, [Deadline, CheckKick]), w, gate,
               Worker(TearingDown(Broken), false, Some(lease), announced))
  {
    OwnMove(s, w, Deadline);
    OwnMove(Moved(s, w, Deadline), w, CheckKick);
    TwoMoves(s, w, Deadline, CheckKick);
  }

  // ----- what a kick prevents ------------------------------------------------------------------

  function WroteBy(wire: seq<GetConf>, w: nat): nat {
    if wire == [] then 0
    else WroteBy(wire[..|wire| - 1], w) + (if wire[|wire| - 1].worker == w then 1 else 0)
  }

  /** The GETCONFs a session still writes, if it is let run: three in all, and with a kick the one begun. */
  function WritesLeft(me: Worker): nat {
    if me.kick then (if me.phase.Reading? || me.phase.Sending? then 1 else 0)
    else
      match me.phase
      case Dialing => SCHEDULE
      case Wrapping => SCHEDULE
      case Checking(a) => if a < SCHEDULE then SCHEDULE - a else 0
      case Reading(a) => Again(a) + 1
      case Sending(a, _) => Again(a) + 1
      case Awaiting(a) => Again(a)
      case _ => 0
  }

  lemma MoveWrites(s: State, w: nat, m: Move)
    requires w < |s.workers| && CanMove(s, w, m) && !m.Drain?
    ensures WritesLeft(NextWorker(s, w, m)) + (if m.Send? then 1 else 0) <= WritesLeft(s.workers[w])
  {
  }

  lemma WroteOne(s: State, a: Action, w: nat)
    requires Enabled(s, a) && w < |s.workers|
    ensures WroteBy(After(s, a).wire, w)
            == WroteBy(s.wire, w) + (if a.Work? && a.worker == w && a.move.Send? then 1 else 0)
  {
    if a.Work? && a.move.Send? {
      var wire := After(s, a).wire;
      assert wire[..|wire| - 1] == s.wire;
    }
  }

  /**
   Until it drains its channel for another allocation, a worker writes three GETCONFs at most, whatever
   happens; and once a kick is buffered at most the one it has begun.
   */
  lemma {:induction false} SessionWrites(s: State, actions: seq<Action>, w: nat)
    requires Run(s, actions) && w < |s.workers|
    requires forall k :: 0 <= k < |actions| ==> actions[k] != Work(w, Drain)
    ensures w < |Final(s, actions).workers|
    ensures WroteBy(Final(s, actions).wire, w) <= WroteBy(s.wire, w) + WritesLeft(s.workers[w])
    decreases |actions|
  {
    if actions != [] {
      var a, s' := actions[0], After(s, actions[0]);
      WroteOne(s, a, w);
      if a.Work? && a.worker == w {
        assert a.move != Drain;
        MoveWrites(s, w, a.move);
      } else {
        assert s'.workers[w].phase == s.workers[w].phase && (s.workers[w].kick ==> s'.workers[w].kick);
      }
      SessionWrites(s', actions[1..], w);
    }
  }

  /** Whoever asks for a restart: the session writes at most the GETCONF it has begun. */
  lemma KickEndsTheWrites(s: State, actions: seq<Action>, w: nat)
    requires w < |s.workers| && Run(After(s, Kick(w)), actions)
    requires forall k :: 0 <= k < |actions| ==> actions[k] != Work(w, Drain)
    ensures WroteBy(Final(After(s, Kick(w)), actions).wire, w) <= WroteBy(s.wire, w) + 1
    ensures !s.workers[w].phase.Reading? && !s.workers[w].phase.Sending?
            ==> WroteBy(Final(After(s, Kick(w)), actions).wire, w) == WroteBy(s.wire, w)
  {
    SessionWrites(After(s, Kick(w)), actions, w);
    WroteGrows(After(s, Kick(w)), actions, w);
  }

  lemma {:induction false} WroteGrows(s: State, actions: seq<Action>, w: nat)
    requires Run(s, actions) && w < |s.workers|
    ensures WroteBy(s.wire, w) <= WroteBy(Final(s, actions).wire, w)
    decreases |actions|
  {
    if actions != [] {
      WroteOne(s, actions[0], w);
      WroteGrows(After(s, actions[0]), actions[1..], w);
    }
  }

  // ----- what only a kick does -----------------------------------------------------------------

  /** The action asks worker `w` for a restart. */
  predicate Kicks(s: State, a: Action, w: nat)
    requires Enabled(s, a)
  {
    a == Kick(w) || (a.HookKick? && s.hooks[a.hook] == w)
  }

  predicate Unkicked(s: State, actions: seq<Action>, w: nat)
    requires Run(s, actions)
    decreases |actions|
  {
    actions == [] || (!Kicks(s, actions[0], w) && Unkicked(After(s, actions[0]), actions[1..], w))
  }

  /** The worker's session is over because somebody asked for it. */
  predicate EndsAsked(p: Phase) {
    (p.TearingDown? || p.Releasing? || p.Judging?) && p.end.Asked?
  }

  /** Nobody kicks it, so nobody finds it kicked: no session ends as asked for, in no run. */
  lemma {:induction false} OnlyAKickRestarts(s: State, actions: seq<Action>, w: nat)
    requires Run(s, actions) && w < |s.workers| && Unkicked(s, actions, w)
    requires !s.workers[w].kick && !EndsAsked(s.workers[w].phase)
    ensures w < |Final(s, actions).workers|
    ensures !Final(s, actions).workers[w].kick && !EndsAsked(Final(s, actions).workers[w].phase)
    decreases |actions|
  {
    if actions != [] {
      OnlyAKickRestarts(After(s, actions[0]), actions[1..], w);
    }
  }

  /** The worker takes a kick and restarts for it: out of its session, or out of a backoff. */
  predicate Restarts(s: State, a: Action, w: nat)
    requires Enabled(s, a)
  {
    a.Work? && a.worker == w
    && (a.move.SeeKick? || (a.move.CheckKick? && NextWorker(s, w, a.move).phase == TearingDown(Asked)))
  }

  function AllRestarts(s: State, actions: seq<Action>, w: nat): nat
    requires Run(s, actions)
    decreases |actions|
  {
    if actions == [] then 0
    else (if Restarts(s, actions[0], w) then 1 else 0) + AllRestarts(After(s, actions[0]), actions[1..], w)
  }

  function AllKicks(s: State, actions: seq<Action>, w: nat): nat
    requires Run(s, actions)
    decreases |actions|
  {
    if actions == [] then 0
    else (if Kicks(s, actions[0], w) then 1 else 0) + AllKicks(After(s, actions[0]), actions[1..], w)
  }

  /** A kick is used once: in every run a worker restarts at most as often as it was kicked. */
  lemma {:induction false} KicksPayForRestarts(s: State, actions: seq<Action>, w: nat)
    requires Run(s, actions) && w < |s.workers|
    ensures w < |Final(s, actions).workers|
    ensures AllRestarts(s, actions, w) + (if Final(s, actions).workers[w].kick then 1 else 0)
            <= AllKicks(s, actions, w) + (if s.workers[w].kick then 1 else 0)
    decreases |actions|
  {
    if actions != [] {
      KickStep(s, actions[0], w);
      KicksPayForRestarts(After(s, actions[0]), actions[1..], w);
    }
  }

  lemma KickStep(s: State, a: Action, w: nat)
    requires Enabled(s, a) && w < |s.workers|
    ensures |After(s, a).workers| == |s.workers|
    ensures (if Restarts(s, a, w) then 1 else 0) + (if After(s, a).workers[w].kick then 1 else 0)
            <= (if Kicks(s, a, w) then 1 else 0) + (if s.workers[w].kick then 1 else 0)
  {
  }

  predicate Replaces(actions: seq<Action>) { exists k :: 0 <= k < |actions| && actions[k].Replace? }

  /** The identity only moves on: it is the same at the end of a run only if no path change replaced it. */
  lemma {:induction false} IdentityIsNew(s: State, actions: seq<Action>)
    requires Run(s, actions)
    ensures s.gen <= Final(s, actions).gen
    ensures s.gen == Final(s, actions).gen <==> !Replaces(actions)
    decreases |actions|
  {
    if actions != [] {
      IdentityIsNew(After(s, actions[0]), actions[1..]);
      assert actions == [actions[0]] + actions[1..];
      if Replaces(actions[1..]) {
        var k :| 0 <= k < |actions| - 1 && actions[1..][k].Replace?;
        assert actions[k + 1].Replace?;
      }
    }
  }

  // ----- reaching everybody --------------------------------------------------------------------

  /** `n` turns of the loop of hook `h`. */
  function HookTurns(h: nat, n: nat): seq<Action> {
    if n == 0 then [] else [HookKick(h)] + HookTurns(h, n - 1)
  }

  lemma {:induction false} HookGoesOn(s: State, h: nat, n: nat)
    requires h < |s.hooks| && s.hooks[h] + n == |s.workers|
    ensures Run(s, HookTurns(h, n))
    ensures var s' := Final(s, HookTurns(h, n));
      && |s'.workers| == |s.workers| && |s'.hooks| == |s.hooks| && s'.hooks[h] == |s.workers| && s'.gen == s.gen
      && (forall w :: 0 <= w < |s.workers| && (s.hooks[h] <= w || s.workers[w].kick) ==> s'.workers[w].kick)
    decreases n
  {
    if n > 0 {
      var s1 := After(s, HookKick(h));
      assert HookTurns(h, n)[0] == HookKick(h) && HookTurns(h, n)[1..] == HookTurns(h, n - 1);
      HookGoesOn(s1, h, n - 1);
    }
  }

  /** After a path change its hook goes once over all the workers: each has a kick, and the hook is done. */
  lemma ReplacementKicksEveryone(s: State, pair: nat)
    requires s.gen < pair
    ensures var s1, turns := After(s, Replace(pair)), HookTurns(|s.hooks|, |s.workers|);
      && Run(s1, turns)
      && Final(s1, turns).gen == pair
      && |Final(s1, turns).workers| == |s.workers|
      && (forall w :: 0 <= w < |s.workers| ==> Final(s1, turns).workers[w].kick)
      && !Enabled(Final(s1, turns), HookKick(|s.hooks|))
  {
    HookGoesOn(After(s, Replace(pair)), |s.hooks|, |s.workers|);
  }

  /** What `Close` does to a published relay: it is closed, once, and nothing else changes. */
  lemma ForceCloseClosesTheRelay(s: State, w: nat)
    requires Reachable(s) && Enabled(s, ForceClose(w))
    ensures var l, s' := s.workers[w].lease.value, After(s, ForceClose(w));
      s' == s.(leases := s.leases[l := s.leases[l].(trace := [Acquired, Opened, Closed])])
  {
    Reached(s);
    assert WorkerLeaseOk(s, w);
    assert [Acquired, Opened] + [Closed] == [Acquired, Opened, Closed];
    assert CloseOnce(s.leases[s.workers[w].lease.value].trace) == [Acquired, Opened, Closed];
  }

  // ----- a session's relay is its own ----------------------------------------------------------

  /** Until the client is stopped nobody but its session closes a published relay. */
  predicate RelayIsOpen(s: State, w: nat)
    requires w < |s.workers|
  {
    Published(s.workers[w].phase) && LeaseInHand(s, w) ==>
      s.leases[s.workers[w].lease.value].trace == [Acquired, Opened]
  }

  ghost predicate RelaysOpen(s: State) {
    !s.stopped ==> forall w :: 0 <= w < |s.workers| ==> RelayIsOpen(s, w)
  }

  lemma OwnRelayOpen(s: State, w: nat, m: Move)
    requires w < |s.workers| && CanMove(s, w, m) && WorkerLeaseOk(s, w) && RelayIsOpen(s, w)
    ensures RelayIsOpen(Moved(s, w, m), w)
  {
  }

  lemma OtherRelayOpen(s: State, w: nat, m: Move, v: nat)
    requires w < |s.workers| && CanMove(s, w, m) && v < |s.workers| && v != w
    requires WorkerLeaseOk(s, w) && WorkerLeaseOk(s, v) && RelayIsOpen(s, v)
    ensures RelayIsOpen(Moved(s, w, m), v)
  {
  }

  lemma OutsideRelayOpen(s: State, a: Action, v: nat)
    requires Enabled(s, a) && !a.Work? && !a.ForceClose? && v < |s.workers| && RelayIsOpen(s, v)
    ensures |After(s, a).workers| == |s.workers| && RelayIsOpen(After(s, a), v)
  {
    var s' := After(s, a);
    assert s'.leases == s.leases && s'.workers[v].phase == s.workers[v].phase;
    assert s'.workers[v].lease == s.workers[v].lease;
  }

  lemma RelaysKept(s: State, a: Action)
    requires Enabled(s, a) && LeaseInv(s) && RelaysOpen(s)
    ensures RelaysOpen(After(s, a))
  {
    var s' := After(s, a);
    if !s'.stopped {
      forall v | 0 <= v < |s'.workers| ensures RelayIsOpen(s', v) {
        if !a.Work? {
          OutsideRelayOpen(s, a, v);
        } else {
          assert WorkerLeaseOk(s, v) && WorkerLeaseOk(s, a.worker);
          if v == a.worker {
            OwnRelayOpen(s, v, a.move);
          } else {
            OtherRelayOpen(s, a.worker, a.move, v);
          }
        }
      }
    }
  }

  lemma {:induction false} RelaysHold(s: State, actions: seq<Action>)
    requires Inv(s) && RelaysOpen(s) && Run(s, actions)
    ensures RelaysOpen(Final(s, actions))
    decreases |actions|
  {
    if actions != [] {
      RelaysKept(s, actions[0]);
      InvKept(s, actions[0]);
      RelaysHold(After(s, actions[0]), actions[1..]);
    }
  }

  /** As long as the client is not stopped, whoever is in a session has its relay open, and nobody closes it. */
  lemma RelayStaysOpen(s: State, w: nat)
    requires Reachable(s) && !s.stopped && w < |s.workers| && Published(s.workers[w].phase)
    ensures LeaseInHand(s, w) && RelayOpen(s.leases[s.workers[w].lease.value].trace)
  {
    Reached(s);
    assert WorkerLeaseOk(s, w);
    var n: nat, gen: nat, actions :| Run(Init(n, gen), actions) && Final(Init(n, gen), actions) == s;
    InitHolds(n, gen);
    RelaysHold(Init(n, gen), actions);
    assert RelayIsOpen(s, w);
  }
}
