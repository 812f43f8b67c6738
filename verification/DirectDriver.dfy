/**
 The provider around DirectRouteSync: requests from several sources, the one settings call they share,
 the callers waiting for an answer, and the main queue that serialises it all.

 Assumes a session that is not stopped.
 */
module DirectDriver {
  import opened Options
  import S = DirectRouteSync

  /** A caller waiting for an answer, numbered in the order the callers asked. */
  type Caller = nat

  datatype Answer = Answer(caller: Caller, value: bool)

  /** A closure on the main queue. */
  datatype Post =
    | Request(direct: bool, caller: Option<Caller>)
    | BecameReady(initial: bool)
    | ApplyDone(ok: bool)

  datatype Provider = Provider(
    sync: S.Sync, ready: bool, recorded: bool,  // the address of the first settings is known
    pending: Option<bool>, waiters: seq<Caller>,
    outstanding: Option<bool>,  // the value of a setTunnelNetworkSettings that has not called back
    queue: seq<Post>, answers: seq<Answer>)

  // ----- the closures --------------------------------------------------------------------------

  function AnswersTo(callers: seq<Caller>, value: bool): seq<Answer> {
    seq(|callers|, k requires 0 <= k < |callers| => Answer(callers[k], value))
  }

  /** Everyone waiting is told what the routes are. */
  function Settled(p: Provider): Provider {
    p.(answers := p.answers + AnswersTo(p.waiters, p.sync.applied), waiters := [])
  }

  /** One settings call; without recorded settings the intent is dropped and what comes next is discarded. */
  function Performed(p: Provider, direct: bool): Provider {
    if p.recorded then p.(outstanding := Some(direct)) else Settled(p.(sync := S.Completed(p.sync, false).0))
  }

  function Requested(p: Provider, direct: bool, caller: Option<Caller>): Provider {
    var p := if caller.Some? then p.(waiters := p.waiters + [caller.value]) else p;
    if !p.ready then p.(pending := Some(direct))
    else
      var (sync, start) := S.Intended(p.sync, direct);
      var p := p.(sync := sync);
      if start.Some? then Performed(p, start.value) else if sync.inFlight.Some? then p else Settled(p)
  }

  function Readied(p: Provider, initial: bool): Provider {
    var p := p.(sync := S.Fresh(initial), ready := true);
    if p.pending.Some? then p.(pending := None, queue := p.queue + [Request(p.pending.value, None)]) else Settled(p)
  }

  function ApplyFinished(p: Provider, ok: bool): Provider {
    var (sync, next) := S.Completed(p.sync, ok);
    var p := p.(sync := sync);
    if next.Some? then Performed(p, next.value) else Settled(p)
  }

  class PacketTunnelProvider {
    var directSync: S.DirectRouteSync
    var directReady: bool
    var settingsRecorded: bool
    var directPendingBeforeReady: Option<bool>
    var directWaiters: seq<Caller>
    var outstanding: Option<bool>
    var queue: seq<Post>
    var answers: seq<Answer>

    function View(): Provider
      reads this, directSync
    {
      Provider(directSync.View(), directReady, settingsRecorded, directPendingBeforeReady,
               directWaiters, outstanding, queue, answers)
    }

    constructor ()
      ensures View() == Provider(S.Fresh(false), false, false, None, [], None, [], [])
      ensures fresh(directSync)
    {
      directSync := new S.DirectRouteSync(false);
      directReady, settingsRecorded, directPendingBeforeReady := false, false, None;
      directWaiters, outstanding := [], None;
      queue, answers := [], [];
    }

    /** The closure that requestDirect puts on the main queue. */
    method RequestDirect(direct: bool, caller: Option<Caller>)
      modifies this, directSync
      ensures View() == Requested(old(View()), direct, caller) && directSync == old(directSync)
    {
      if caller.Some? {
        directWaiters := directWaiters + [caller.value];
      }
      if !directReady {
        directPendingBeforeReady := Some(direct);
        return;
      }
      var start := directSync.Intend(direct);
      if start.Some? {
        PerformDirectApply(start.value);
      } else if directSync.inFlight.Some? {
      } else {
        SettleDirect();
      }
    }

    method PerformDirectApply(direct: bool)
      modifies this, directSync
      ensures View() == Performed(old(View()), direct) && directSync == old(directSync)
    {
      if !settingsRecorded {
        var _ := directSync.Finish(false);
        SettleDirect();
        return;
      }
      outstanding := Some(direct);
    }

    method AfterDirectApply(ok: bool)
      modifies this, directSync
      ensures View() == ApplyFinished(old(View()), ok) && directSync == old(directSync)
    {
      var next := directSync.Finish(ok);
      if next.Some? {
        PerformDirectApply(next.value);
      } else {
        SettleDirect();
      }
    }

    method SettleDirect()
      modifies this
      ensures View() == Settled(old(View())) && directSync == old(directSync)
    {
      var applied := directSync.applied;
      var waiters := directWaiters;
      directWaiters := [];
      for k := 0 to |waiters|
        invariant answers == old(answers) + AnswersTo(waiters[..k], applied)
        invariant View() == old(View()).(waiters := [], answers := answers) && directSync == old(directSync)
      {
        answers := answers + [Answer(waiters[k], applied)];
        assert AnswersTo(waiters[..k + 1], applied) == AnswersTo(waiters[..k], applied) + [Answer(waiters[k], applied)];
      }
      assert waiters[..|waiters|] == waiters;
    }

    method DirectBecameReady(initial: bool)
      modifies this
      ensures View() == Readied(old(View()), initial) && fresh(directSync)
    {
      directSync := new S.DirectRouteSync(initial);
      directReady := true;
      if directPendingBeforeReady.Some? {
        var pending := directPendingBeforeReady.value;
        directPendingBeforeReady := None;
        queue := queue + [Request(pending, None)];
      } else {
        SettleDirect();
      }
    }
  }

  // ----- every order of events -----------------------------------------------------------------

  /**
   `up` once the tunnel came up; `routes` is what the last successful settings call left in force; `last` is
   the mode of the last request the main queue ran.
   */
  datatype World = World(p: Provider, asked: nat, up: bool, routes: bool, last: Option<bool>)

  const START: World := World(Provider(S.Fresh(false), false, false, None, [], None, [], []), 0, false, false, None)

  datatype Event =
    | Ask(direct: bool, reply: bool)  // the profile changed, or a message asked and waits for the reply
    | ComeUp(initial: bool, recorded: bool)  // the first settings were applied, with an address or without
    | Callback(ok: bool)              // setTunnelNetworkSettings called back
    | Main                            // the main queue runs its first closure

  predicate Enabled(w: World, e: Event) {
    match e
    case Ask(_, _) => true
    case ComeUp(_, _) => !w.up
    case Callback(_) => w.p.outstanding.Some?
    case Main => w.p.queue != []
  }

  function RunPost(p: Provider, post: Post): Provider {
    match post
    case Request(direct, caller) => Requested(p, direct, caller)
    case BecameReady(initial) => Readied(p, initial)
    case ApplyDone(ok) => ApplyFinished(p, ok)
  }

  function After(w: World, e: Event): World
    requires Enabled(w, e)
  {
    match e
    case Ask(direct, reply) =>
      w.(p := w.p.(queue := w.p.queue + [Request(direct, if reply then Some(w.asked) else None)]),
         asked := if reply then w.asked + 1 else w.asked)
    case ComeUp(initial, recorded) =>
      w.(p := w.p.(queue := w.p.queue + [BecameReady(initial)], recorded := recorded), up := true, routes := initial)
    case Callback(ok) =>
      w.(p := w.p.(outstanding := None, queue := w.p.queue + [ApplyDone(ok)]),
         routes := if ok then w.p.outstanding.value else w.routes)
    case Main =>
      w.(p := RunPost(w.p.(queue := w.p.queue[1..]), w.p.queue[0]),
         last := if w.p.queue[0].Request? then Some(w.p.queue[0].direct) else w.last)
  }

  predicate Run(w: World, events: seq<Event>)
    decreases |events|
  {
    events == [] || (Enabled(w, events[0]) && Run(After(w, events[0]), events[1..]))
  }

  function Final(w: World, events: seq<Event>): World
    requires Run(w, events)
    decreases |events|
  {
    if events == [] then w else Final(After(w, events[0]), events[1..])
  }

  ghost predicate Reachable(w: World) { exists events :: Run(START, events) && Final(START, events) == w }

  // ----- the queue at a glance -----------------------------------------------------------------

  /** How many settings calls called back and were not processed yet. */
  function Dones(queue: seq<Post>): nat {
    if queue == [] then 0 else (if queue[0].ApplyDone? then 1 else 0) + Dones(queue[1..])
  }

  /** One of them succeeded. */
  predicate Succeeded(queue: seq<Post>) {
    queue != [] && (queue[0] == ApplyDone(true) || Succeeded(queue[1..]))
  }

  function Readies(queue: seq<Post>): nat {
    if queue == [] then 0 else (if queue[0].BecameReady? then 1 else 0) + Readies(queue[1..])
  }

  predicate ReadiesSay(queue: seq<Post>, initial: bool) {
    forall k :: 0 <= k < |queue| && queue[k].BecameReady? ==> queue[k].initial == initial
  }

  /** The callers whose requests have not run yet. */
  function Callers(queue: seq<Post>): seq<Caller> {
    if queue == [] then []
    else CallerOf(queue[0]) + Callers(queue[1..])
  }

  function CallerOf(post: Post): seq<Caller> {
    if post.Request? && post.caller.Some? then [post.caller.value] else []
  }

  function Requests(queue: seq<Post>): nat {
    if queue == [] then 0 else (if queue[0].Request? then 1 else 0) + Requests(queue[1..])
  }

  lemma {:induction false} Posted(queue: seq<Post>, post: Post)
    ensures var q := queue + [post];
      && Dones(q) == Dones(queue) + (if post.ApplyDone? then 1 else 0)
      && Succeeded(q) == (Succeeded(queue) || post == ApplyDone(true))
      && Readies(q) == Readies(queue) + (if post.BecameReady? then 1 else 0)
      && Requests(q) == Requests(queue) + (if post.Request? then 1 else 0)
  {
    if queue != [] {
      Posted(queue[1..], post);
      assert (queue + [post])[1..] == queue[1..] + [post];
    }
  }

  lemma {:induction false} CallersPosted(queue: seq<Post>, post: Post)
    ensures Callers(queue + [post]) == Callers(queue) + CallerOf(post)
  {
    if queue != [] {
      CallersPosted(queue[1..], post);
      assert (queue + [post])[1..] == queue[1..] + [post];
    } else {
      assert CallerOf(post) + [] == CallerOf(post);
    }
  }

  lemma {:induction false} NoneSucceeded(queue: seq<Post>)
    ensures Dones(queue) == 0 ==> !Succeeded(queue)
  {
    if queue != [] {
      NoneSucceeded(queue[1..]);
    }
  }

  // ----- the invariant -------------------------------------------------------------------------

  function AnsweredCallers(answers: seq<Answer>): seq<Caller> {
    seq(|answers|, k requires 0 <= k < |answers| => answers[k].caller)
  }

  function FirstCallers(n: nat): seq<Caller> { seq(n, k => k) }

  /** Callers are answered once each, in the order they asked: answered, waiting and queued make up all who asked. */
  predicate CallersOk(w: World) {
    AnsweredCallers(w.p.answers) + w.p.waiters + Callers(w.p.queue) == FirstCallers(w.asked)
  }

  predicate NotReadyOk(w: World) {
    && w.p.sync == S.Fresh(false) && w.p.outstanding.None? && Dones(w.p.queue) == 0
    && (w.p.waiters != [] ==> w.p.pending.Some?)
    && Readies(w.p.queue) == (if w.up then 1 else 0) && ReadiesSay(w.p.queue, w.routes)
  }

  /** The apply in flight is one settings call, or the one outcome still on the queue. */
  predicate ReadyOk(w: World) {
    var s, dones := w.p.sync, Dones(w.p.queue);
    && w.up && w.p.pending.None? && Readies(w.p.queue) == 0
    && S.Sound(s)
    && dones + (if w.p.outstanding.Some? then 1 else 0) == (if s.inFlight.Some? then 1 else 0)
    && (w.p.outstanding.Some? ==> w.p.outstanding == s.inFlight)
    && w.routes == (if Succeeded(w.p.queue) && s.inFlight.Some? then s.inFlight.value else s.applied)
    && (s.inFlight.None? && Requests(w.p.queue) == 0 ==> w.p.waiters == [])
  }

  /** What holds of the machine, wherever the first settings were recorded. */
  predicate MachineOk(w: World) { if w.p.ready then w.p.recorded ==> ReadyOk(w) else NotReadyOk(w) }

  /** The last request run is what is wanted: it waits for the tunnel, or on the queue again, or is desired. */
  predicate WantedOk(w: World) {
    if w.p.ready then
      && Readies(w.p.queue) == 0
      && (w.last.Some? ==> w.p.sync.desired == w.last.value || Request(w.last.value, None) in w.p.queue)
    else w.p.pending == w.last
  }

  predicate Inv(w: World) { CallersOk(w) && MachineOk(w) && WantedOk(w) && (w.p.ready ==> w.up) }

  /** Answering everyone waiting moves them from the waiters to the answered. */
  lemma SettledCallers(p: Provider)
    ensures AnsweredCallers(Settled(p).answers) + Settled(p).waiters == AnsweredCallers(p.answers) + p.waiters
  {
  }

  lemma PerformedCallers(p: Provider, direct: bool)
    ensures var p' := Performed(p, direct);
      && AnsweredCallers(p'.answers) + p'.waiters == AnsweredCallers(p.answers) + p.waiters && p'.queue == p.queue
  {
    SettledCallers(p.(sync := S.Completed(p.sync, false).0));
  }

  lemma RequestedCallers(p: Provider, direct: bool, caller: Option<Caller>)
    ensures var p' := Requested(p, direct, caller);
      && AnsweredCallers(p'.answers) + p'.waiters
         == AnsweredCallers(p.answers) + p.waiters + CallerOf(Request(direct, caller))
      && p'.queue == p.queue
  {
    var one := CallerOf(Request(direct, caller));
    var p1 := if caller.Some? then p.(waiters := p.waiters + [caller.value]) else p;
    assert AnsweredCallers(p1.answers) + p1.waiters == AnsweredCallers(p.answers) + p.waiters + one;
    var p2 := p1.(sync := S.Intended(p.sync, direct).0);
    SettledCallers(p2);
    PerformedCallers(p2, direct);
    assert S.Intended(p.sync, direct).1.Some? ==> S.Intended(p.sync, direct).1.value == direct;
  }

  lemma ReadiedCallers(p: Provider, initial: bool)
    ensures var p' := Readied(p, initial);
      && AnsweredCallers(p'.answers) + p'.waiters == AnsweredCallers(p.answers) + p.waiters
      && Callers(p'.queue) == Callers(p.queue)
  {
    SettledCallers(p.(sync := S.Fresh(initial), ready := true));
    if p.pending.Some? {
      CallersPosted(p.queue, Request(p.pending.value, None));
      assert Callers(p.queue) + [] == Callers(p.queue);
    }
  }

  lemma FinishedCallers(p: Provider, ok: bool)
    ensures var p' := ApplyFinished(p, ok);
      && AnsweredCallers(p'.answers) + p'.waiters == AnsweredCallers(p.answers) + p.waiters && p'.queue == p.queue
  {
    var p1, next := p.(sync := S.Completed(p.sync, ok).0), S.Completed(p.sync, ok).1;
    SettledCallers(p1);
    PerformedCallers(p1, if next.Some? then next.value else false);
  }

  /** A closure moves its own caller, if it has one, behind those already waiting or answered. */
  lemma RunPostCallers(p: Provider, post: Post)
    ensures var p' := RunPost(p, post);
      && AnsweredCallers(p'.answers) + p'.waiters == AnsweredCallers(p.answers) + p.waiters + CallerOf(post)
      && Callers(p'.queue) == Callers(p.queue)
  {
    var all := AnsweredCallers(p.answers) + p.waiters;
    assert all + [] == all;
    match post
    case Request(direct, caller) => RequestedCallers(p, direct, caller);
    case BecameReady(initial) => ReadiedCallers(p, initial);
    case ApplyDone(ok) => FinishedCallers(p, ok);
  }

  lemma MainKeepsCallers(w: World)
    requires CallersOk(w) && w.p.queue != []
    ensures CallersOk(After(w, Main))
  {
    var head, rest := w.p.queue[0], w.p.queue[1..];
    RunPostCallers(w.p.(queue := rest), head);
    var all := AnsweredCallers(w.p.answers) + w.p.waiters;
    assert all + (CallerOf(head) + Callers(rest)) == all + CallerOf(head) + Callers(rest);
  }

  /** A request starts an apply only if none is in flight, and leaves what is applied alone. */
  lemma IntendKeeps(s: S.Sync, direct: bool)
    requires S.Sound(s)
    ensures var (s', start) := S.Intended(s, direct);
      && S.Sound(s') && s'.applied == s.applied
      && (if start.Some? then s.inFlight.None? && s'.inFlight == start else s'.inFlight == s.inFlight)
  {
  }

  lemma RequestedShape(p: Provider, direct: bool, caller: Option<Caller>)
    requires p.ready && p.recorded
    ensures var p', (sync, start) := Requested(p, direct, caller), S.Intended(p.sync, direct);
      && p'.ready && p'.recorded && p'.sync == sync && p'.queue == p.queue && p'.pending == p.pending
      && p'.outstanding == (if start.Some? then start else p.outstanding)
      && (start.None? && sync.inFlight.None? ==> p'.waiters == [])
  {
  }

  lemma RequestKeepsReady(w: World)
    requires w.p.ready && w.p.recorded && ReadyOk(w) && w.p.queue != [] && w.p.queue[0].Request?
    ensures var w' := After(w, Main); w'.p.ready && ReadyOk(w')
  {
    var head, rest := w.p.queue[0], w.p.queue[1..];
    NoneSucceeded(rest);
    IntendKeeps(w.p.sync, head.direct);
    RequestedShape(w.p.(queue := rest), head.direct, head.caller);
  }

  lemma DoneKeepsReady(w: World)
    requires w.p.ready && w.p.recorded && ReadyOk(w) && w.p.queue != [] && w.p.queue[0].ApplyDone?
    ensures var w' := After(w, Main); w'.p.ready && ReadyOk(w')
  {
    var rest, ok := w.p.queue[1..], w.p.queue[0].ok;
    assert Dones(w.p.queue) == 1 + Dones(rest);
    NoneSucceeded(rest);
    S.CompletionSpends(w.p.sync, ok);
  }

  lemma MainKeepsNotReady(w: World)
    requires !w.p.ready && NotReadyOk(w) && w.p.queue != []
    ensures var w' := After(w, Main); if w'.p.ready then ReadyOk(w') else NotReadyOk(w')
  {
    var head, rest := w.p.queue[0], w.p.queue[1..];
    NoneSucceeded(rest);
    if head.BecameReady? {
      assert Readies(rest) == 0 && head.initial == w.routes;
      if w.p.pending.Some? {
        Posted(rest, Request(w.p.pending.value, None));
      }
    }
  }

  function PostOf(w: World, e: Event): Post
    requires !e.Main?
  {
    match e
    case Ask(direct, reply) => Request(direct, if reply then Some(w.asked) else None)
    case ComeUp(initial, _) => BecameReady(initial)
    case Callback(ok) => ApplyDone(ok)
  }

  lemma PostKeepsCallers(w: World, e: Event)
    requires CallersOk(w) && Enabled(w, e) && !e.Main?
    ensures CallersOk(After(w, e))
  {
    var post := PostOf(w, e);
    CallersPosted(w.p.queue, post);
    var all := AnsweredCallers(w.p.answers) + w.p.waiters;
    assert all + (Callers(w.p.queue) + CallerOf(post)) == all + Callers(w.p.queue) + CallerOf(post);
    assert FirstCallers(w.asked) + [w.asked] == FirstCallers(w.asked + 1);
  }

  lemma PostKeeps(w: World, e: Event)
    requires Enabled(w, e) && !e.Main? && MachineOk(w) && (w.p.ready ==> w.up)
    ensures MachineOk(After(w, e))
  {
    Posted(w.p.queue, PostOf(w, e));
    NoneSucceeded(w.p.queue);
    if e.ComeUp? && Readies(w.p.queue) == 0 {
      NoReadies(w.p.queue);
    }
  }

  /** What a closure does to what is wanted, and to the queue behind it. */
  lemma RunPostWants(p: Provider, post: Post)
    ensures var p' := RunPost(p, post);
      match post
      case Request(direct, _) =>
        && p'.ready == p.ready && p'.queue == p.queue
        && (if p.ready then p'.sync.desired == direct else p'.pending == Some(direct))
      case BecameReady(initial) =>
        && p'.ready && p'.sync.desired == initial
        && p'.queue == (if p.pending.Some? then p.queue + [Request(p.pending.value, None)] else p.queue)
      case ApplyDone(_) =>
        p'.ready == p.ready && p'.queue == p.queue && p'.sync.desired == p.sync.desired && p'.pending == p.pending
  {
  }

  lemma MainKeepsWanted(w: World)
    requires WantedOk(w) && MachineOk(w) && w.p.queue != []
    ensures WantedOk(After(w, Main))
  {
    var head, rest := w.p.queue[0], w.p.queue[1..];
    RunPostWants(w.p.(queue := rest), head);
    assert forall x :: x in w.p.queue ==> x == head || x in rest;
    if !w.p.ready && head.BecameReady? && w.p.pending.Some? {
      Posted(rest, Request(w.p.pending.value, None));
    }
  }

  lemma PostKeepsWanted(w: World, e: Event)
    requires WantedOk(w) && Enabled(w, e) && !e.Main? && (w.p.ready ==> w.up)
    ensures WantedOk(After(w, e))
  {
    Posted(w.p.queue, PostOf(w, e));
  }

  lemma {:induction false} NoReadies(queue: seq<Post>)
    requires Readies(queue) == 0
    ensures forall k :: 0 <= k < |queue| ==> !queue[k].BecameReady?
  {
    if queue != [] {
      NoReadies(queue[1..]);
    }
  }

  lemma InvKept(w: World, e: Event)
    requires Inv(w) && Enabled(w, e)
    ensures Inv(After(w, e))
  {
    if e.Main? {
      MainKeepsCallers(w);
      MainKeepsWanted(w);
      if !w.p.ready {
        MainKeepsNotReady(w);
      } else if w.p.recorded {
        if w.p.queue[0].Request? {
          RequestKeepsReady(w);
        } else if w.p.queue[0].ApplyDone? {
          DoneKeepsReady(w);
        }
      }
    } else {
      PostKeepsCallers(w, e);
      PostKeepsWanted(w, e);
      PostKeeps(w, e);
    }
  }

  lemma {:induction false} InvHolds(w: World, events: seq<Event>)
    requires Inv(w) && Run(w, events)
    ensures Inv(Final(w, events))
    decreases |events|
  {
    if events != [] {
      InvKept(w, events[0]);
      InvHolds(After(w, events[0]), events[1..]);
    }
  }

  lemma Reached(w: World)
    requires Reachable(w)
    ensures Inv(w)
  {
    var events :| Run(START, events) && Final(START, events) == w;
    InvHolds(START, events);
  }

  // ----- what no order of events can break -----------------------------------------------------

  /**
   Once the tunnel is ready, an apply is in flight exactly when one settings call has not called back or
   its one outcome is still queued; and the applied value the machine reports is what the routes are,
   unless a success is still on its way to it.
   */
  lemma OneApplyAtATime(w: World)
    requires Reachable(w) && w.p.ready && w.p.recorded
    ensures w.p.sync.inFlight.Some? <==> w.p.outstanding.Some? || Dones(w.p.queue) != 0
    ensures Dones(w.p.queue) + (if w.p.outstanding.Some? then 1 else 0) <= 1
    ensures w.p.outstanding.Some? ==> w.p.outstanding == w.p.sync.inFlight
    ensures w.p.sync.applied == w.routes || Succeeded(w.p.queue)
  {
    Reached(w);
  }

  /**
   What was last asked for is what the machine pursues: before readiness it is recorded, and from then on
   it is desired, or queued again and not yet run.
   */
  lemma LastRequestIsPursued(w: World)
    requires Reachable(w)
    ensures !w.p.ready ==> w.p.pending == w.last
    ensures w.p.ready && w.last.Some?
            ==> w.p.sync.desired == w.last.value || Request(w.last.value, None) in w.p.queue
  {
    Reached(w);
  }

  /** Callers are answered in the order they asked, each at most once. */
  lemma AnsweredOnceInOrder(w: World)
    requires Reachable(w)
    ensures AnsweredCallers(w.p.answers) + w.p.waiters + Callers(w.p.queue) == FirstCallers(w.asked)
    ensures forall k :: 0 <= k < |w.p.answers| ==> w.p.answers[k].caller == k
  {
    Reached(w);
    forall k | 0 <= k < |w.p.answers| ensures w.p.answers[k].caller == k {
      assert FirstCallers(w.asked)[k] == AnsweredCallers(w.p.answers)[k];
    }
  }

  /** A closure answers nobody, or everybody waiting, at rest, with the value the machine has applied. */
  lemma RunPostAnswers(p: Provider, post: Post)
    requires (post.ApplyDone? ==> p.ready) && (p.ready ==> p.recorded)
    ensures var p' := RunPost(p, post);
      p'.answers == p.answers
      || (p'.ready && p'.sync.inFlight.None? && NewAnswersSay(p.answers, p'.answers, p'.sync.applied))
  {
    match post
    case Request(direct, caller) =>
      var p1 := if caller.Some? then p.(waiters := p.waiters + [caller.value]) else p;
      SettledAnswers(p1.(sync := S.Intended(p.sync, direct).0));
    case BecameReady(initial) => SettledAnswers(p.(sync := S.Fresh(initial), ready := true));
    case ApplyDone(ok) => SettledAnswers(p.(sync := S.Completed(p.sync, ok).0));
  }

  predicate NewAnswersSay(before: seq<Answer>, after: seq<Answer>, value: bool) {
    before <= after && forall k :: |before| <= k < |after| ==> after[k].value == value
  }

  lemma SettledAnswers(p: Provider)
    ensures NewAnswersSay(p.answers, Settled(p).answers, p.sync.applied)
  {
  }

  /** An answer is given only at rest, and says what the last successful settings call left in force. */
  lemma AnswersAreTheRoutes(w: World, e: Event)
    requires Reachable(w) && Enabled(w, e) && (w.up ==> w.p.recorded)
    ensures var w' := After(w, e);
      && w.p.answers <= w'.p.answers
      && (w'.p.answers != w.p.answers ==> w'.p.ready && w'.p.sync.inFlight.None? && w'.p.outstanding.None?)
      && forall k :: |w.p.answers| <= k < |w'.p.answers| ==> w'.p.answers[k].value == w'.routes
  {
    if e.Main? {
      Reached(w);
      InvKept(w, e);
      RunPostAnswers(w.p.(queue := w.p.queue[1..]), w.p.queue[0]);
    }
  }

  /** The work left: what the queue can still start, the budget of the apply in flight, the call itself. */
  function Load(queue: seq<Post>): nat {
    if queue == [] then 0
    else (match queue[0] case Request(_, _) => 10 case BecameReady(_) => 11 case ApplyDone(_) => 0) + Load(queue[1..])
  }

  function Work(w: World): nat {
    Load(w.p.queue) + 2 * S.Budget(w.p.sync) + (if w.p.outstanding.Some? then 1 else 0)
  }

  lemma {:induction false} LoadPosted(queue: seq<Post>, post: Post)
    ensures Load(queue + [post]) == Load(queue) + Load([post])
  {
    if queue != [] {
      LoadPosted(queue[1..], post);
      assert (queue + [post])[1..] == queue[1..] + [post];
    } else {
      assert queue + [post] == [post];
    }
  }

  /** Everything but a new request makes progress: a callback or a turn of the main queue leaves less work. */
  lemma WorkShrinks(w: World, e: Event)
    requires Inv(w) && Enabled(w, e) && (e.Callback? || e.Main?) && (w.up ==> w.p.recorded)
    ensures Work(After(w, e)) < Work(w)
  {
    match e
    case Callback(ok) => LoadPosted(w.p.queue, ApplyDone(ok));
    case Main =>
      var rest := w.p.queue[1..];
      if w.p.queue[0].BecameReady? && w.p.pending.Some? {
        LoadPosted(rest, Request(w.p.pending.value, None));
      }
      if w.p.queue[0].ApplyDone? {
        S.CompletionSpends(w.p.sync, w.p.queue[0].ok);
      }
  }

  lemma {:induction false} WorkBounds(w: World, events: seq<Event>)
    requires Inv(w) && Run(w, events) && forall k :: 0 <= k < |events| ==> events[k].Callback? || events[k].Main?
    requires w.up ==> w.p.recorded
    ensures |events| <= Work(w)
    ensures Final(w, events).p.recorded == w.p.recorded
    ensures Inv(Final(w, events)) && Final(w, events).up == w.up && Final(w, events).asked == w.asked
    decreases |events|
  {
    if events != [] {
      WorkShrinks(w, events[0]);
      InvKept(w, events[0]);
      WorkBounds(After(w, events[0]), events[1..]);
    }
  }

  /**
   Nobody is left waiting: once the tunnel is up and requests stop coming, callbacks and turns of the main
   queue can follow one another only so often, and when neither is left every caller has its answer.
   */
  lemma EveryoneIsAnswered(w: World, events: seq<Event>)
    requires Reachable(w) && w.up && w.p.recorded
    requires Run(w, events) && forall k :: 0 <= k < |events| ==> events[k].Callback? || events[k].Main?
    ensures |events| <= Work(w)
    ensures var end := Final(w, events);
      end.p.queue == [] && end.p.outstanding.None? ==>
        && end.p.ready && end.p.waiters == []
        && AnsweredCallers(end.p.answers) == FirstCallers(w.asked)
        && (S.IsSettled(end.p.sync) || S.IsStuck(end.p.sync))
        && (end.last.Some? ==> end.p.sync.desired == end.last.value)
  {
    Reached(w);
    WorkBounds(w, events);
    var answered := AnsweredCallers(Final(w, events).p.answers);
    assert answered + [] + [] == answered;
  }

  // ----- the condition is needed ---------------------------------------------------------------

  lemma {:induction false} RunSnoc(w: World, events: seq<Event>, e: Event)
    requires Run(w, events) && Enabled(Final(w, events), e)
    ensures Run(w, events + [e]) && Final(w, events + [e]) == After(Final(w, events), e)
    decreases |events|
  {
    if events == [] {
      assert [] + [e] == [e];
      assert [e][1..] == [];
    } else {
      assert (events + [e])[1..] == events[1..] + [e];
      RunSnoc(After(w, events[0]), events[1..], e);
    }
  }

  lemma ReachableStep(w: World, e: Event, w': World)
    requires Reachable(w) && Enabled(w, e) && After(w, e) == w'
    ensures Reachable(w')
  {
    var events :| Run(START, events) && Final(START, events) == w;
    RunSnoc(START, events, e);
  }

  /** The tunnel up without recorded settings, its machine at `sync`. */
  function Unrecorded(initial: bool, sync: S.Sync, last: Option<bool>): World {
    START.(p := START.p.(sync := sync, ready := true), up := true, routes := initial, last := last)
  }

  lemma UnrecordedComesUp(initial: bool)
    ensures Reachable(Unrecorded(initial, S.Fresh(initial), None))
  {
    assert Run(START, []) && Final(START, []) == START;
    var up := START.(p := START.p.(queue := [BecameReady(initial)]), up := true, routes := initial);
    ReachableStep(START, ComeUp(initial, false), up);
    ReachableStep(up, Main, Unrecorded(initial, S.Fresh(initial), None));
  }

  /** The first request for the other mode drops its apply, but the machine has started the next one. */
  lemma UnrecordedStarts(initial: bool)
    ensures Reachable(Unrecorded(initial, S.Sync(!initial, initial, Some(!initial), 2), Some(!initial)))
  {
    UnrecordedComesUp(initial);
    var w := Unrecorded(initial, S.Fresh(initial), None);
    var asked := w.(p := w.p.(queue := [Request(!initial, None)]));
    ReachableStep(w, Ask(!initial, false), asked);
    ReachableStep(asked, Main, Unrecorded(initial, S.Sync(!initial, initial, Some(!initial), 2), Some(!initial)));
  }

  /** An apply in flight that nothing drives, and a caller waiting for it. */
  predicate Stranded(w: World) {
    w.p.sync.inFlight.Some? && w.p.outstanding.None? && w.p.queue == [] && w.p.waiters != []
  }

  /**
   Without recorded settings, whatever mode the tunnel came up in, the machine can get there, with nothing
   left to happen.
   */
  lemma UnrecordedStrands(initial: bool)
    ensures exists w :: Reachable(w) && w.up && !w.p.recorded && w.p.sync.applied == initial && Stranded(w)
  {
    UnrecordedStarts(initial);
    var w := Unrecorded(initial, S.Sync(!initial, initial, Some(!initial), 2), Some(!initial));
    var asked := w.(p := w.p.(queue := [Request(initial, Some(0))]), asked := 1);
    var end := asked.(p := w.p.(sync := S.Sync(initial, initial, Some(!initial), 0), waiters := [0]),
                      last := Some(initial));
    ReachableStep(w, Ask(initial, true), asked);
    ReachableStep(asked, Main, end);
  }

  // ----- a request gets what it asked for ------------------------------------------------------

  /** The tunnel up in this mode, with recorded settings and nothing else going on. */
  function Idle(initial: bool): World {
    START.(p := START.p.(sync := S.Fresh(initial), ready := true, recorded := true), up := true, routes := initial)
  }

  lemma ComesUpIdle(initial: bool)
    ensures Reachable(Idle(initial))
  {
    assert Run(START, []) && Final(START, []) == START;
    var up := START.(p := START.p.(queue := [BecameReady(initial)], recorded := true), up := true, routes := initial);
    ReachableStep(START, ComeUp(initial, true), up);
    ReachableStep(up, Main, Idle(initial));
  }

  predicate Resting(w: World) {
    w.p.ready && w.p.recorded && w.p.queue == [] && w.p.outstanding.None? && w.p.sync.inFlight.None?
    && w.p.waiters == [] && w.p.sync.applied == w.routes
  }

  lemma RunOne(w: World, e: Event)
    requires Enabled(w, e)
    ensures Run(w, [e]) && Final(w, [e]) == After(w, e)
  {
    assert [e][1..] == [] && Run(After(w, e), []) && Final(After(w, e), []) == After(w, e);
  }

  lemma RunTwo(w: World, e: Event, f: Event)
    requires Enabled(w, e) && Enabled(After(w, e), f)
    ensures Run(w, [e, f]) && Final(w, [e, f]) == After(After(w, e), f)
  {
    RunOne(w, e);
    RunSnoc(w, [e], f);
    assert [e] + [f] == [e, f];
  }

  /** Asking for the mode in force is answered at once, with no settings call. */
  lemma SameModeIsAnswered(w: World)
    requires Resting(w)
    ensures Run(w, [Ask(w.routes, true), Main])
    ensures var w' := Final(w, [Ask(w.routes, true), Main]);
      Resting(w') && w'.routes == w.routes && w'.p.answers == w.p.answers + [Answer(w.asked, w.routes)]
  {
    RunTwo(w, Ask(w.routes, true), Main);
    assert AnswersTo([w.asked], w.routes) == [Answer(w.asked, w.routes)];
  }

  /** Asking for the other mode makes one settings call; when it succeeds the routes are what was asked for. */
  lemma OtherModeIsApplied(w: World)
    requires Resting(w)
    ensures Run(w, [Ask(!w.routes, true), Main])
    ensures var w1 := Final(w, [Ask(!w.routes, true), Main]);
      w1.p.outstanding == Some(!w.routes) && w1.p.answers == w.p.answers
      && Run(w1, [Callback(true), Main])
      && var w2 := Final(w1, [Callback(true), Main]);
         Resting(w2) && w2.routes == !w.routes && w2.p.answers == w.p.answers + [Answer(w.asked, !w.routes)]
  {
    RunTwo(w, Ask(!w.routes, true), Main);
    var w1 := Final(w, [Ask(!w.routes, true), Main]);
    RunTwo(w1, Callback(true), Main);
    assert AnswersTo([w.asked], !w.routes) == [Answer(w.asked, !w.routes)];
  }
}
