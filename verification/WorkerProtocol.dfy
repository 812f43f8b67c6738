/**
 The csqtt worker protocol: identities, kicks and credential leases.

 Any number of workers run the loop of `worker.run`/`worker.session` over one replaceable identity,
 a one-slot kick channel each, one start gate and a credential pool. The state machine takes one
 atomic action of the program per step; its choices (what a relay, the pool or the server answers,
 when the client is stopped, when somebody asks for a restart) are the parameters of the action.
 */
module WorkerProtocol {
  import opened Options

  // ----- state ---------------------------------------------------------------------------------

  /** Why a session ended: somebody asked, the server refused for good, or it broke. */
  datatype End = Asked | Fatal | Broken

  /** Where a worker is between two atomic actions. `attempt` counts the entries of the GETCONF schedule. */
  datatype Phase =
    | Top
    | Leasing
    | Leased
    | Gated
    | Draining
    | Dialing
    | Wrapping
    | Checking(attempt: nat)
    | Reading(attempt: nat)
    | Sending(attempt: nat, pair: nat)
    | Awaiting(attempt: nat)
    | Announcing
    | Serving
    | TearingDown(end: End)
    | Releasing(end: End)
    | Judging(end: End)
    | BackingOff
    | Gone

  /** `announced` is the identity of the last GETCONF this session wrote; `kick` the one-slot channel. */
  datatype Worker = Worker(phase: Phase, kick: bool, lease: Option<nat>, announced: Option<nat>)

  /** What the pool and the relay see of one lease, in order. */
  datatype LeaseEvent = Acquired | Refused | Opened | Closed | Released

  datatype Lease = Lease(worker: nat, slot: nat, trace: seq<LeaseEvent>)

  /** One GETCONF handed to the relay, with the client's identity at that instant. */
  datatype GetConf = GetConf(worker: nat, pair: nat, current: nat)

  /** A hook is one OnPathChange still kicking: the number of the next worker it will kick. */
  datatype State = State(
    gen: nat, stopped: bool, gate: Option<nat>, workers: seq<Worker>, hooks: seq<nat>,
    leases: seq<Lease>, holders: multiset<nat>, wire: seq<GetConf>)

  /** `getconfSchedule` has three entries. */
  const SCHEDULE: nat := 3

  function Init(n: nat, gen: nat): State {
    State(gen, false, None, seq(n, _ => Worker(Top, false, None, None)), [], [], multiset{}, [])
  }

  // ----- actions -------------------------------------------------------------------------------

  /** One atomic action inside a worker's own goroutine. */
  datatype Move =
    | Loop
    | CredsErr
    | CredsOk(slot: nat)
    | EnterGate
    | CheckStop
    | Drain
    | DialErr
    | DialOk
    | WrapErr
    | Publish
    | CheckKick
    | ReadIdentity
    | Send(ok: bool)
    | ConfOk
    | ConfBad(fatal: bool)
    | Deadline
    | ReadySend(ok: bool)
    | SeeKick
    | SeeStop
    | LinkErr
    | CloseOwnRelay
    | Release
    | Judge
    | SleepOver

  datatype Action =
    | Stop                       // the context is cancelled: Close, or a fatal error anywhere
    | Replace(pair: nat)         // the locked section of OnPathChange
    | HookKick(hook: nat)        // one iteration of that hook's restartAll
    | Kick(worker: nat)          // any other restart: REPAIR, a panel restart, the liveness verdict
    | ForceClose(worker: nat)    // Close's closeRelay on one worker
    | Work(worker: nat, move: Move)

  /** The session has a published relay, between the store of `relayRef` and its teardown. */
  predicate Published(p: Phase) {
    p.Checking? || p.Reading? || p.Sending? || p.Awaiting? || p.Announcing? || p.Serving? || p.TearingDown?
  }

  predicate InGate(p: Phase) { p.Gated? || p.Draining? || p.Dialing? }

  predicate CanMove(s: State, w: nat, m: Move)
    requires w < |s.workers|
  {
    var me := s.workers[w];
    match m
    case Loop => me.phase.Top?
    case CredsErr => me.phase.Leasing?
    case CredsOk(_) => me.phase.Leasing?
    case EnterGate => me.phase.Leased? && s.gate.None?
    case CheckStop => me.phase.Gated?
    case Drain => me.phase.Draining?
    case DialErr => me.phase.Dialing? && me.lease.Some? && me.lease.value < |s.leases|
    case DialOk => me.phase.Dialing? && me.lease.Some? && me.lease.value < |s.leases|
    case WrapErr => me.phase.Wrapping? && me.lease.Some? && me.lease.value < |s.leases|
    case Publish => me.phase.Wrapping?
    case CheckKick => me.phase.Checking?
    case ReadIdentity => me.phase.Reading?
    case Send(_) => me.phase.Sending?
    case ConfOk => me.phase.Awaiting?
    case ConfBad(_) => me.phase.Awaiting?
    case Deadline => me.phase.Awaiting?
    case ReadySend(_) => me.phase.Announcing?
    case SeeKick => me.kick && (me.phase.Awaiting? || me.phase.Serving? || me.phase.BackingOff?)
    case SeeStop => s.stopped && (me.phase.Awaiting? || me.phase.Serving? || me.phase.BackingOff?)
    case LinkErr => me.phase.Awaiting? || me.phase.Serving?
    case CloseOwnRelay => me.phase.TearingDown? && me.lease.Some? && me.lease.value < |s.leases|
    case Release => me.phase.Releasing? && me.lease.Some? && me.lease.value < |s.leases|
    case Judge => me.phase.Judging?
    case SleepOver => me.phase.BackingOff?
  }

  predicate Enabled(s: State, a: Action) {
    match a
    case Stop => true
    case Replace(pair) => s.gen < pair
    case HookKick(h) => h < |s.hooks| && s.hooks[h] < |s.workers|
    case Kick(w) => w < |s.workers|
    case ForceClose(w) =>
      s.stopped && w < |s.workers| && Published(s.workers[w].phase)
      && s.workers[w].lease.Some? && s.workers[w].lease.value < |s.leases|
    case Work(w, m) => w < |s.workers| && CanMove(s, w, m)
  }

  predicate RelayOpen(trace: seq<LeaseEvent>) {
    |trace| > 0 && trace[|trace| - 1] == Opened
  }

  /** `Relay.Close` runs its body once; a second call does nothing. */
  function CloseOnce(trace: seq<LeaseEvent>): seq<LeaseEvent> {
    if RelayOpen(trace) then trace + [Closed] else trace
  }

  /** What a move does to the worker that makes it. */
  function NextWorker(s: State, w: nat, m: Move): Worker
    requires w < |s.workers| && CanMove(s, w, m)
  {
    var me := s.workers[w];
    match m
    case Loop => me.(phase := if s.stopped then Gone else Leasing, announced := None)
    case CredsErr => me.(phase := Judging(Broken))
    case CredsOk(_) => me.(phase := Leased, lease := Some(|s.leases|))
    case EnterGate => me.(phase := Gated)
    case CheckStop => me.(phase := if s.stopped then Releasing(Broken) else Draining)
    case Drain => me.(phase := Dialing, kick := false)
    case DialErr => me.(phase := Releasing(Broken))
    case DialOk => me.(phase := Wrapping)
    case WrapErr => me.(phase := Releasing(Broken))
    case Publish => me.(phase := Checking(0))
    case CheckKick =>
      if SCHEDULE <= me.phase.attempt then me.(phase := TearingDown(Broken))
      else if me.kick then me.(phase := TearingDown(Asked), kick := false)
      else me.(phase := Reading(me.phase.attempt))
    case ReadIdentity => me.(phase := Sending(me.phase.attempt, s.gen))
    case Send(ok) =>
      me.(phase := if ok then Awaiting(me.phase.attempt) else TearingDown(Broken), announced := Some(me.phase.pair))
    case ConfOk => me.(phase := Announcing)
    case ConfBad(fatal) => me.(phase := TearingDown(if fatal then Fatal else Broken))
    case Deadline => me.(phase := Checking(me.phase.attempt + 1))
    case ReadySend(ok) => me.(phase := if ok then Serving else TearingDown(Broken))
    case SeeKick => me.(phase := if me.phase.BackingOff? then Top else TearingDown(Asked), kick := false)
    case SeeStop => me.(phase := if me.phase.BackingOff? then Gone else TearingDown(Broken))
    case LinkErr => me.(phase := TearingDown(Broken))
    case CloseOwnRelay => me.(phase := Releasing(me.phase.end))
    case Release => me.(phase := Judging(me.phase.end), lease := None)
    case Judge =>
      me.(phase := if s.stopped || me.phase.end.Fatal? then Gone else if me.phase.end.Asked? then Top else BackingOff)
    case SleepOver => me.(phase := Top)
  }

  /** The start gate: taken by EnterGate, given back when the allocation is over either way. */
  function NextGate(s: State, w: nat, m: Move): Option<nat> {
    match m
    case EnterGate => Some(w)
    case CheckStop => if s.stopped then None else s.gate
    case DialErr => None
    case DialOk => None
    case _ => s.gate
  }

  /** What a lease records of a move of its worker. */
  function NextTrace(trace: seq<LeaseEvent>, m: Move): seq<LeaseEvent> {
    match m
    case DialErr => trace + [Refused]
    case DialOk => trace + [Opened]
    case WrapErr => CloseOnce(trace)
    case CloseOwnRelay => CloseOnce(trace)
    case Release => trace + [Released]
    case _ => trace
  }

  function NextLeases(s: State, w: nat, m: Move): seq<Lease>
    requires w < |s.workers| && CanMove(s, w, m)
  {
    if m.CredsOk? then s.leases + [Lease(w, m.slot, [Acquired])]
    else if s.workers[w].lease.Some? && s.workers[w].lease.value < |s.leases| then
      var l := s.workers[w].lease.value;
      s.leases[l := s.leases[l].(trace := NextTrace(s.leases[l].trace, m))]
    else s.leases
  }

  /** The pool's count of connections on each slot. */
  function NextHolders(s: State, w: nat, m: Move): multiset<nat>
    requires w < |s.workers| && CanMove(s, w, m)
  {
    match m
    case CredsOk(slot) => s.holders + multiset{slot}
    case Release => s.holders - multiset{s.leases[s.workers[w].lease.value].slot}
    case _ => s.holders
  }

  function NextWire(s: State, w: nat, m: Move): seq<GetConf>
    requires w < |s.workers| && CanMove(s, w, m)
  {
    if m.Send? then s.wire + [GetConf(w, s.workers[w].phase.pair, s.gen)] else s.wire
  }

  function Moved(s: State, w: nat, m: Move): State
    requires w < |s.workers| && CanMove(s, w, m)
  {
    s.(stopped := s.stopped || (m.Judge? && s.workers[w].phase.end.Fatal?),
       gate := NextGate(s, w, m),
       workers := s.workers[w := NextWorker(s, w, m)],
       leases := NextLeases(s, w, m),
       holders := NextHolders(s, w, m),
       wire := NextWire(s, w, m))
  }

  /** The non-blocking send on a one-slot channel: a full slot stays as it is. */
  function Kicked(s: State, w: nat): State
    requires w < |s.workers|
  {
    s.(workers := s.workers[w := s.workers[w].(kick := true)])
  }

  function After(s: State, a: Action): State
    requires Enabled(s, a)
  {
    match a
    case Stop => s.(stopped := true)
    case Replace(pair) => s.(gen := pair, hooks := s.hooks + [0])
    case HookKick(h) => Kicked(s, s.hooks[h]).(hooks := s.hooks[h := s.hooks[h] + 1])
    case Kick(w) => Kicked(s, w)
    case ForceClose(w) =>
      var l := s.workers[w].lease.value;
      s.(leases := s.leases[l := s.leases[l].(trace := CloseOnce(s.leases[l].trace))])
    case Work(w, m) => Moved(s, w, m)
  }

  /** The actions can be taken one after the other from `s`. */
  predicate Run(s: State, actions: seq<Action>)
    decreases |actions|
  {
    actions == [] || (Enabled(s, actions[0]) && Run(After(s, actions[0]), actions[1..]))
  }

  function Final(s: State, actions: seq<Action>): State
    requires Run(s, actions)
    decreases |actions|
  {
    if actions == [] then s else Final(After(s, actions[0]), actions[1..])
  }

  // ----- the invariant -------------------------------------------------------------------------

  /** A session of this worker is waiting for, or has, a server that knows it under some identity. */
  predicate InSession(p: Phase) {
    p.Checking? || p.Reading? || p.Sending? || p.Awaiting? || p.Announcing? || p.Serving?
  }

  /** The identity the session announced, or is about to announce, is no longer the client's. */
  predicate Stale(s: State, w: nat)
    requires w < |s.workers|
  {
    var me := s.workers[w];
    InSession(me.phase)
    && ((me.announced.Some? && me.announced.value != s.gen)
        || (me.phase.Sending? && me.phase.pair != s.gen))
  }

  /** A kick for this worker is in its channel, or a path-change hook has not reached it yet. */
  ghost predicate KickComing(s: State, w: nat)
    requires w < |s.workers|
  {
    s.workers[w].kick || exists h :: 0 <= h < |s.hooks| && s.hooks[h] <= w
  }

  /** A new session has announced nothing yet. */
  predicate BeforeSession(p: Phase) { p.Leasing? || p.Leased? || InGate(p) || p.Wrapping? }

  predicate HasAnnounced(p: Phase) { p.Awaiting? || p.Announcing? || p.Serving? }

  ghost predicate StaleIsCovered(s: State) {
    && (forall w :: 0 <= w < |s.workers| && Stale(s, w) ==> KickComing(s, w))
    && (forall w :: 0 <= w < |s.workers| && BeforeSession(s.workers[w].phase) ==> s.workers[w].announced.None?)
    && (forall w :: 0 <= w < |s.workers| && HasAnnounced(s.workers[w].phase) ==> s.workers[w].announced.Some?)
  }

  /** No worker writes a replaced pair twice; `current` only grows past `pair`. */
  ghost predicate WireInv(s: State) {
    && (forall i :: 0 <= i < |s.wire| ==> s.wire[i].pair <= s.wire[i].current <= s.gen)
    && (forall i, j :: 0 <= i < j < |s.wire| && s.wire[i].worker == s.wire[j].worker
                       && s.wire[i].pair == s.wire[j].pair
                       ==> s.wire[i].current == s.wire[i].pair)
    && (forall w :: 0 <= w < |s.workers| && s.workers[w].phase.Sending? ==> s.workers[w].phase.pair <= s.gen)
    && (forall w, i :: 0 <= w < |s.workers| && s.workers[w].phase.Sending? && 0 <= i < |s.wire|
                       && s.wire[i].worker == w && s.wire[i].pair == s.workers[w].phase.pair
                       ==> s.wire[i].current == s.wire[i].pair)
  }

  /** The start gate admits one worker at a time, and only to check, drain and dial. */
  ghost predicate GateInv(s: State) {
    forall w :: 0 <= w < |s.workers| ==> (InGate(s.workers[w].phase) <==> s.gate == Some(w))
  }

  predicate HoldsLease(p: Phase) {
    p.Leased? || InGate(p) || p.Wrapping? || Published(p) || p.Releasing?
  }

  /** What a lease has been through while its worker is at `p`. */
  predicate TraceFits(p: Phase, t: seq<LeaseEvent>) {
    if p.Leased? || InGate(p) then t == [Acquired]
    else if p.Wrapping? then t == [Acquired, Opened]
    else if p.Releasing? then t == [Acquired] || t == [Acquired, Refused] || t == [Acquired, Opened, Closed]
    else t == [Acquired, Opened] || t == [Acquired, Opened, Closed]
  }

  /** A finished lease: refused or served or neither, its relay closed, released once and last. */
  predicate Complete(t: seq<LeaseEvent>) {
    || t == [Acquired, Released]
    || t == [Acquired, Refused, Released]
    || t == [Acquired, Opened, Closed, Released]
  }

  predicate WorkerLeaseOk(s: State, w: nat)
    requires w < |s.workers|
  {
    var me := s.workers[w];
    if HoldsLease(me.phase) then
      me.lease.Some? && me.lease.value < |s.leases| && s.leases[me.lease.value].worker == w
      && TraceFits(me.phase, s.leases[me.lease.value].trace)
    else me.lease.None?
  }

  predicate LeaseOk(s: State, l: nat)
    requires l < |s.leases|
  {
    var owner := s.leases[l].worker;
    owner < |s.workers| && (s.workers[owner].lease == Some(l) || Complete(s.leases[l].trace))
  }

  ghost predicate LeaseInv(s: State) {
    && (forall w :: 0 <= w < |s.workers| ==> WorkerLeaseOk(s, w))
    && (forall l :: 0 <= l < |s.leases| ==> LeaseOk(s, l))
  }

  /** The workers that hold a lease on `slot`. */
  function HoldersOf(s: State, slot: nat): set<nat> {
    set w | 0 <= w < |s.workers| && s.workers[w].lease.Some? && s.workers[w].lease.value < |s.leases|
            && s.leases[s.workers[w].lease.value].slot == slot
  }

  ghost predicate PoolInv(s: State) {
    forall slot: nat :: s.holders[slot] == |HoldersOf(s, slot)|
  }

  ghost predicate Inv(s: State) {
    StaleIsCovered(s) && WireInv(s) && GateInv(s) && LeaseInv(s) && PoolInv(s)
  }

  // ----- every action keeps it -----------------------------------------------------------------

  /** Inside a session only reading and writing touch the identity, and neither makes it stale. */
  lemma SessionMove(s: State, w: nat, m: Move)
    requires w < |s.workers| && CanMove(s, w, m) && InSession(NextWorker(s, w, m).phase)
    requires !m.ReadIdentity? && !m.Send? && !m.Publish?
    ensures var me, now := s.workers[w], NextWorker(s, w, m);
      InSession(me.phase) && !now.phase.Sending? && now.announced == me.announced && now.kick == me.kick
  {
  }

  /** A session becomes stale only by a replacement: reading the identity yields the current one. */
  lemma OwnMoveNeverGoesStale(s: State, w: nat, m: Move)
    requires w < |s.workers| && CanMove(s, w, m) && StaleIsCovered(s)
    requires Stale(Moved(s, w, m), w)
    ensures Stale(s, w) && NextWorker(s, w, m).kick == s.workers[w].kick
  {
    assert Moved(s, w, m).workers[w] == NextWorker(s, w, m) && Moved(s, w, m).gen == s.gen;
    if !m.ReadIdentity? && !m.Send? && !m.Publish? {
      SessionMove(s, w, m);
    }
  }

  lemma OwnMoveKeepsCover(s: State, w: nat, m: Move)
    requires w < |s.workers| && CanMove(s, w, m) && StaleIsCovered(s)
    ensures Stale(Moved(s, w, m), w) ==> KickComing(Moved(s, w, m), w)
  {
    var s' := Moved(s, w, m);
    if Stale(s', w) {
      OwnMoveNeverGoesStale(s, w, m);
      assert KickComing(s, w);
      if !s.workers[w].kick {
        var h :| 0 <= h < |s.hooks| && s.hooks[h] <= w;
        assert s'.hooks[h] <= w;
      }
    }
  }

  lemma OwnMoveAnnounces(s: State, w: nat, m: Move)
    requires w < |s.workers| && CanMove(s, w, m) && StaleIsCovered(s)
    ensures BeforeSession(NextWorker(s, w, m).phase) ==> NextWorker(s, w, m).announced.None?
    ensures HasAnnounced(NextWorker(s, w, m).phase) ==> NextWorker(s, w, m).announced.Some?
  {
  }

  lemma StaleStaysCovered(s: State, a: Action)
    requires Enabled(s, a) && StaleIsCovered(s)
    ensures StaleIsCovered(After(s, a))
  {
    var s' := After(s, a);
    if a.Work? {
      OwnMoveKeepsCover(s, a.worker, a.move);
      OwnMoveAnnounces(s, a.worker, a.move);
    }
    forall w | 0 <= w < |s'.workers| && Stale(s', w)
      ensures KickComing(s', w)
    {
      if a.Replace? {
        assert s'.hooks[|s.hooks|] == 0;
      } else if !(a.Work? && a.worker == w) {
        assert Stale(s, w);
        if !s.workers[w].kick {
          var h :| 0 <= h < |s.hooks| && s.hooks[h] <= w;
          assert s'.hooks[h] <= w || (a.HookKick? && s.hooks[h] == w);
        }
      }
    }
  }

  lemma SendKeepsWire(s: State, w: nat, ok: bool)
    requires w < |s.workers| && CanMove(s, w, Send(ok)) && WireInv(s)
    ensures WireInv(Moved(s, w, Send(ok)))
  {
  }

  lemma WireKept(s: State, a: Action)
    requires Enabled(s, a) && WireInv(s)
    ensures WireInv(After(s, a))
  {
    var s' := After(s, a);
    if a.Work? && a.move.Send? {
      SendKeepsWire(s, a.worker, a.move.ok);
    } else if a.Work? {
      var now := s'.workers[a.worker].phase;
      assert now.Sending? ==> now.pair == s.gen;
      assert forall w :: 0 <= w < |s'.workers| && w != a.worker ==> s'.workers[w] == s.workers[w];
    } else {
      assert forall w :: 0 <= w < |s'.workers| ==> s'.workers[w].phase == s.workers[w].phase;
    }
  }

  lemma OwnMoveKeepsGate(s: State, w: nat, m: Move)
    requires w < |s.workers| && CanMove(s, w, m)
    requires InGate(s.workers[w].phase) <==> s.gate == Some(w)
    ensures InGate(NextWorker(s, w, m).phase) <==> NextGate(s, w, m) == Some(w)
    ensures s.gate == NextGate(s, w, m) || (s.gate.None? && NextGate(s, w, m) == Some(w))
            || (s.gate == Some(w) && NextGate(s, w, m).None?)
  {
  }

  lemma GateKept(s: State, a: Action)
    requires Enabled(s, a) && GateInv(s)
    ensures GateInv(After(s, a))
  {
    var s' := After(s, a);
    if a.Work? {
      OwnMoveKeepsGate(s, a.worker, a.move);
    }
    forall w | 0 <= w < |s'.workers|
      ensures InGate(s'.workers[w].phase) <==> s'.gate == Some(w)
    {
      assert InGate(s.workers[w].phase) <==> s.gate == Some(w);
    }
  }

  /** Only the acting worker's own lease changes; every other worker and every other lease is as before. */
  lemma OnlyOwnLeaseMoves(s: State, a: Action)
    requires Enabled(s, a) && LeaseInv(s)
    ensures var s' := After(s, a);
      && |s'.workers| == |s.workers| && |s.leases| <= |s'.leases|
      && (forall w :: 0 <= w < |s.workers| && !(a.Work? && a.worker == w) ==>
            s'.workers[w].phase == s.workers[w].phase && s'.workers[w].lease == s.workers[w].lease)
      && (forall l :: 0 <= l < |s.leases| ==>
            s'.leases[l].worker == s.leases[l].worker && s'.leases[l].slot == s.leases[l].slot)
      && (forall l ::
            0 <= l < |s.leases| && !((a.Work? || a.ForceClose?) && s.workers[a.worker].lease == Some(l)) ==>
              s'.leases[l] == s.leases[l])
      && ((a.Work? && a.move.CredsOk?) || |s'.leases| == |s.leases|)
  {
    if a.Work? {
      assert WorkerLeaseOk(s, a.worker);
    }
  }

  /** The lease words, one move at a time. */
  lemma TraceFollows(s: State, w: nat, m: Move)
    requires w < |s.workers| && CanMove(s, w, m) && WorkerLeaseOk(s, w) && s.workers[w].lease.Some?
    ensures var t := NextTrace(s.leases[s.workers[w].lease.value].trace, m);
      var now := NextWorker(s, w, m);
      if m.Release? then Complete(t) && now.lease.None? && !HoldsLease(now.phase)
      else now.lease == s.workers[w].lease && HoldsLease(now.phase) && TraceFits(now.phase, t)
  {
  }

  lemma FreshLeaseKept(s: State, w: nat, m: Move)
    requires w < |s.workers| && CanMove(s, w, m) && WorkerLeaseOk(s, w) && s.workers[w].lease.None?
    ensures WorkerLeaseOk(Moved(s, w, m), w)
  {
  }

  lemma OwnLeaseKept(s: State, w: nat, m: Move)
    requires w < |s.workers| && CanMove(s, w, m) && LeaseInv(s)
    ensures WorkerLeaseOk(Moved(s, w, m), w)
    ensures s.workers[w].lease.Some? ==>
              s.workers[w].lease.value < |s.leases| && LeaseOk(Moved(s, w, m), s.workers[w].lease.value)
  {
    assert WorkerLeaseOk(s, w);
    if s.workers[w].lease.Some? {
      TraceFollows(s, w, m);
    } else {
      FreshLeaseKept(s, w, m);
    }
  }

  lemma ForcedLeaseKept(s: State, a: Action)
    requires Enabled(s, a) && LeaseInv(s) && a.ForceClose?
    ensures WorkerLeaseOk(After(s, a), a.worker)
    ensures LeaseOk(After(s, a), s.workers[a.worker].lease.value)
  {
    assert WorkerLeaseOk(s, a.worker);
  }

  lemma LeasesKept(s: State, a: Action)
    requires Enabled(s, a) && LeaseInv(s)
    ensures LeaseInv(After(s, a))
  {
    var s' := After(s, a);
    OnlyOwnLeaseMoves(s, a);
    if a.Work? {
      OwnLeaseKept(s, a.worker, a.move);
      assert WorkerLeaseOk(s, a.worker);
    } else if a.ForceClose? {
      ForcedLeaseKept(s, a);
      assert WorkerLeaseOk(s, a.worker);
    }
    forall w | 0 <= w < |s'.workers|
      ensures WorkerLeaseOk(s', w)
    {
      assert WorkerLeaseOk(s, w);
    }
    forall l | 0 <= l < |s'.leases|
      ensures LeaseOk(s', l)
    {
      if l < |s.leases| {
        assert LeaseOk(s, l);
      }
    }
  }

  /** The pool's count of one slot follows its holders. */
  lemma SlotKept(s: State, a: Action, slot: nat)
    requires Enabled(s, a) && LeaseInv(s) && s.holders[slot] == |HoldersOf(s, slot)|
    ensures After(s, a).holders[slot] == |HoldersOf(After(s, a), slot)|
  {
    HoldersChange(s, a, slot);
    if a.Work? {
      assert WorkerLeaseOk(s, a.worker);
    }
  }

  lemma PoolKept(s: State, a: Action)
    requires Enabled(s, a) && LeaseInv(s) && PoolInv(s)
    ensures PoolInv(After(s, a))
  {
    forall slot: nat ensures After(s, a).holders[slot] == |HoldersOf(After(s, a), slot)| {
      SlotKept(s, a, slot);
    }
  }

  lemma OthersHoldTheSame(s: State, a: Action, slot: nat, w: nat)
    requires Enabled(s, a) && LeaseInv(s) && w < |s.workers| && !(a.Work? && a.worker == w)
    ensures w in HoldersOf(After(s, a), slot) <==> w in HoldersOf(s, slot)
  {
    OnlyOwnLeaseMoves(s, a);
    assert WorkerLeaseOk(s, w);
  }

  /** Sets that agree but for one element. */
  lemma AgreeButForOne(now: set<nat>, was: set<nat>, x: nat)
    requires now - {x} == was - {x}
    ensures now == if x in now then was + {x} else was - {x}
  {
    forall y: nat | y != x ensures y in now <==> y in was {
      assert y in now - {x} <==> y in was - {x};
    }
  }

  /** Whoever does not act stays on its slot, or off it. */
  lemma OthersStay(s: State, a: Action, slot: nat)
    requires Enabled(s, a) && LeaseInv(s)
    ensures var actor := if a.Work? then {a.worker} else {};
      HoldersOf(After(s, a), slot) - actor == HoldersOf(s, slot) - actor
    ensures !a.Work? ==> HoldersOf(After(s, a), slot) == HoldersOf(s, slot)
  {
    forall w: nat | w < |s.workers| && !(a.Work? && a.worker == w)
      ensures w in HoldersOf(After(s, a), slot) <==> w in HoldersOf(s, slot)
    {
      OthersHoldTheSame(s, a, slot, w);
    }
  }

  /** The acting worker joins a slot by CredsOk, leaves it by Release, and stays otherwise. */
  lemma ActorHolds(s: State, w: nat, m: Move, slot: nat)
    requires w < |s.workers| && CanMove(s, w, m) && LeaseInv(s)
    ensures w in HoldersOf(s, slot) <==>
              s.workers[w].lease.Some? && s.workers[w].lease.value < |s.leases|
              && s.leases[s.workers[w].lease.value].slot == slot
    ensures w in HoldersOf(Moved(s, w, m), slot) <==>
              if m.CredsOk? then m.slot == slot else !m.Release? && w in HoldersOf(s, slot)
  {
    assert WorkerLeaseOk(s, w);
    ActorLease(s, w, m);
  }

  lemma ActorLease(s: State, w: nat, m: Move)
    requires w < |s.workers| && CanMove(s, w, m)
    ensures NextWorker(s, w, m).lease ==
              if m.CredsOk? then Some(|s.leases|) else if m.Release? then None else s.workers[w].lease
    ensures m.CredsOk? ==> s.workers[w].phase.Leasing?
    ensures m.Release? ==> s.workers[w].lease.Some?
  {
  }

  /** A slot gains exactly the worker that acquires it and loses exactly the worker that releases it. */
  lemma HoldersChange(s: State, a: Action, slot: nat)
    requires Enabled(s, a) && LeaseInv(s)
    ensures var was, now := HoldersOf(s, slot), HoldersOf(After(s, a), slot);
      if a.Work? && a.move.CredsOk? && a.move.slot == slot then a.worker !in was && now == was + {a.worker}
      else if a.Work? && a.move.Release? && s.leases[s.workers[a.worker].lease.value].slot == slot
      then a.worker in was && now == was - {a.worker}
      else now == was
  {
    OthersStay(s, a, slot);
    if a.Work? {
      ActorHolds(s, a.worker, a.move, slot);
      AgreeButForOne(HoldersOf(After(s, a), slot), HoldersOf(s, slot), a.worker);
      assert WorkerLeaseOk(s, a.worker);
    }
  }

  lemma InitHolds(n: nat, gen: nat)
    ensures Inv(Init(n, gen))
  {
    var s := Init(n, gen);
    forall slot: nat
      ensures s.holders[slot] == |HoldersOf(s, slot)|
    {
      assert HoldersOf(s, slot) == {};
    }
  }

  lemma InvKept(s: State, a: Action)
    requires Enabled(s, a) && Inv(s)
    ensures Inv(After(s, a))
  {
    StaleStaysCovered(s, a);
    WireKept(s, a);
    GateKept(s, a);
    LeasesKept(s, a);
    PoolKept(s, a);
  }

  /** Every state of every run satisfies the invariant. */
  lemma {:induction false} InvHolds(s: State, actions: seq<Action>)
    requires Inv(s) && Run(s, actions)
    ensures Inv(Final(s, actions))
    decreases |actions|
  {
    if actions != [] {
      InvKept(s, actions[0]);
      InvHolds(After(s, actions[0]), actions[1..]);
    }
  }

  // ----- what every run guarantees -------------------------------------------------------------

  /** `s` is where some run of some number of workers, under some first identity, has got to. */
  ghost predicate Reachable(s: State) {
    exists n: nat, gen: nat, actions :: Run(Init(n, gen), actions) && Final(Init(n, gen), actions) == s
  }

  lemma Reached(s: State)
    requires Reachable(s)
    ensures Inv(s)
  {
    var n: nat, gen: nat, actions :| Run(Init(n, gen), actions) && Final(Init(n, gen), actions) == s;
    InitHolds(n, gen);
    InvHolds(Init(n, gen), actions);
  }

  /**
   However many path changes pile up on the one-slot channels, and wherever the kicks are consumed:
   a worker whose session announced an identity other than the client's current one has a kick
   buffered, has a hook still to kick it, or is already leaving that session.
   */
  lemma StaleSessionsAreKicked(s: State, w: nat)
    requires Reachable(s) && w < |s.workers|
    requires InSession(s.workers[w].phase)
    requires s.workers[w].announced.Some? && s.workers[w].announced.value != s.gen
    ensures s.workers[w].kick || exists h :: 0 <= h < |s.hooks| && s.hooks[h] <= w
  {
    Reached(s);
    assert Stale(s, w);
  }

  /** Once the hooks have run and its kick is taken, a serving worker is known under the current identity. */
  lemma QuietMeansCurrent(s: State, w: nat)
    requires Reachable(s) && w < |s.workers| && s.workers[w].phase.Serving? && !s.workers[w].kick
    requires forall h :: 0 <= h < |s.hooks| ==> s.hooks[h] == |s.workers|
    ensures s.workers[w].announced == Some(s.gen)
  {
    Reached(s);
    assert Stale(s, w) ==> KickComing(s, w);
  }

  /** The GETCONF carried a pair the client had already replaced. */
  predicate WroteReplaced(g: GetConf) { g.pair != g.current }

  /** A worker writes any one replaced pair at most once. */
  lemma OneReplacedGetConf(s: State, i: nat, j: nat)
    requires Reachable(s) && i < |s.wire| && j < |s.wire|
    requires s.wire[i].worker == s.wire[j].worker && s.wire[i].pair == s.wire[j].pair
    requires WroteReplaced(s.wire[i]) && WroteReplaced(s.wire[j])
    ensures i == j
  {
    Reached(s);
  }

  /** At most one worker is between the start gate and the end of its allocation. */
  lemma OneAllocationAtATime(s: State, v: nat, w: nat)
    requires Reachable(s) && v < |s.workers| && w < |s.workers|
    requires InGate(s.workers[v].phase) && InGate(s.workers[w].phase)
    ensures v == w
  {
    Reached(s);
  }

  /** The workers between a successful Creds and the release, with a lease on `slot`. */
  ghost function InsideLease(s: State, slot: nat): set<nat> {
    set w: nat | w < |s.workers| && HoldsLease(s.workers[w].phase)
                 && exists l: nat :: l < |s.leases| && s.workers[w].lease == Some(l) && s.leases[l].slot == slot
  }

  /** The pool counts, on every slot, exactly those workers. */
  lemma PoolCountsTheHolders(s: State, slot: nat)
    requires Reachable(s)
    ensures s.holders[slot] == |InsideLease(s, slot)|
  {
    Reached(s);
    forall w: nat | w < |s.workers|
      ensures w in HoldersOf(s, slot) <==> w in InsideLease(s, slot)
    {
      assert WorkerLeaseOk(s, w);
    }
    assert HoldersOf(s, slot) == InsideLease(s, slot);
  }

  /** A relay is open only inside its own lease, while its worker is in the session that opened it. */
  lemma RelayInsideItsLease(s: State, l: nat)
    requires Reachable(s) && l < |s.leases| && RelayOpen(s.leases[l].trace)
    ensures var owner := s.leases[l].worker;
      owner < |s.workers| && s.workers[owner].lease == Some(l)
      && (s.workers[owner].phase.Wrapping? || Published(s.workers[owner].phase))
  {
    Reached(s);
    assert LeaseOk(s, l);
    assert WorkerLeaseOk(s, s.leases[l].worker);
  }

  /**
   Every lease no longer held went through one of the three complete lives: released exactly once and
   last, its relay closed before that, refused at most once and only if no relay came up. A lease
   still held has not been released.
   */
  lemma LeaseLives(s: State, l: nat)
    requires Reachable(s) && l < |s.leases|
    ensures s.leases[l].worker < |s.workers|
    ensures s.workers[s.leases[l].worker].lease != Some(l) ==> Complete(s.leases[l].trace)
    ensures s.workers[s.leases[l].worker].lease == Some(l) ==> Released !in s.leases[l].trace
  {
    Reached(s);
    assert LeaseOk(s, l);
    assert WorkerLeaseOk(s, s.leases[l].worker);
  }

  /** When every run loop has returned the pool counts nobody, and every lease was released exactly once. */
  lemma AllReturned(s: State)
    requires Reachable(s)
    requires forall w :: 0 <= w < |s.workers| ==> s.workers[w].phase.Gone?
    ensures s.holders == multiset{}
    ensures forall l :: 0 <= l < |s.leases| ==> Complete(s.leases[l].trace)
  {
    Reached(s);
    forall w | 0 <= w < |s.workers|
      ensures s.workers[w].lease.None?
    {
      assert WorkerLeaseOk(s, w);
    }
    forall slot: nat
      ensures s.holders[slot] == 0
    {
      assert HoldersOf(s, slot) == {};
    }
    forall l | 0 <= l < |s.leases|
      ensures Complete(s.leases[l].trace)
    {
      assert LeaseOk(s, l);
    }
  }

  // ----- the bound of one is tight -------------------------------------------------------------

  lemma {:induction false} RunSnoc(s: State, r: seq<Action>, a: Action)
    requires Run(s, r) && Enabled(Final(s, r), a)
    ensures Run(s, r + [a]) && Final(s, r + [a]) == After(Final(s, r), a)
    decreases |r|
  {
    if r == [] {
      assert [] + [a] == [a];
      assert [a][1..] == [];
    } else {
      assert (r + [a])[1..] == r[1..] + [a];
      RunSnoc(After(s, r[0]), r[1..], a);
    }
  }

  /** A client with one worker, its first lease in hand. */
  function Lone(gen: nat, gate: Option<nat>, p: Phase, trace: seq<LeaseEvent>): State {
    State(gen, false, gate, [Worker(p, false, Some(0), None)], if gen == 1 then [] else [0],
          [Lease(0, 0, trace)], multiset{0}, [])
  }

  lemma ReachableStep(s: State, a: Action)
    requires Reachable(s) && Enabled(s, a)
    ensures Reachable(After(s, a))
  {
    var n: nat, gen: nat, r :| Run(Init(n, gen), r) && Final(Init(n, gen), r) == s;
    RunSnoc(Init(n, gen), r, a);
  }

  lemma LoneStep(s: State, a: Action, s': State)
    requires Reachable(s) && Enabled(s, a) && After(s, a) == s'
    ensures Reachable(s')
  {
    ReachableStep(s, a);
  }

  lemma LoneLeases()
    ensures Reachable(Lone(1, None, Leased, [Acquired]))
  {
    var s := Init(1, 1);
    assert Run(s, []) && Final(s, []) == s;
    var s1 := State(1, false, None, [Worker(Leasing, false, None, None)], [], [], multiset{}, []);
    LoneStep(s, Work(0, Loop), s1);
    LoneStep(s1, Work(0, CredsOk(0)), Lone(1, None, Leased, [Acquired]));
  }

  lemma LoneEnters()
    ensures Reachable(Lone(1, Some(0), Gated, [Acquired]))
  {
    LoneLeases();
    LoneStep(Lone(1, None, Leased, [Acquired]), Work(0, EnterGate), Lone(1, Some(0), Gated, [Acquired]));
  }

  lemma LoneDrains()
    ensures Reachable(Lone(1, Some(0), Dialing, [Acquired]))
  {
    LoneEnters();
    LoneStep(Lone(1, Some(0), Gated, [Acquired]), Work(0, CheckStop), Lone(1, Some(0), Draining, [Acquired]));
    LoneStep(Lone(1, Some(0), Draining, [Acquired]), Work(0, Drain), Lone(1, Some(0), Dialing, [Acquired]));
  }

  lemma LoneDials()
    ensures Reachable(Lone(1, None, Wrapping, [Acquired, Opened]))
  {
    assert [Acquired] + [Opened] == [Acquired, Opened];
    LoneDrains();
    LoneStep(Lone(1, Some(0), Dialing, [Acquired]), Work(0, DialOk), Lone(1, None, Wrapping, [Acquired, Opened]));
  }

  lemma LoneReads()
    ensures Reachable(Lone(1, None, Reading(0), [Acquired, Opened]))
  {
    LoneDials();
    var up := [Acquired, Opened];
    LoneStep(Lone(1, None, Wrapping, up), Work(0, Publish), Lone(1, None, Checking(0), up));
    LoneStep(Lone(1, None, Checking(0), up), Work(0, CheckKick), Lone(1, None, Reading(0), up));
  }

  /** OnPathChange between `identity()` and the write does put a replaced pair on the wire. */
  lemma OneReplacedGetConfHappens()
    ensures exists s :: Reachable(s) && s.wire == [GetConf(0, 1, 2)]
  {
    LoneReads();
    var up := [Acquired, Opened];
    LoneStep(Lone(1, None, Reading(0), up), Work(0, ReadIdentity), Lone(1, None, Sending(0, 1), up));
    LoneStep(Lone(1, None, Sending(0, 1), up), Replace(2), Lone(2, None, Sending(0, 1), up));
    ReachableStep(Lone(2, None, Sending(0, 1), up), Work(0, Send(true)));
  }
}
