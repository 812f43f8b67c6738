/**
 The gate that decides when a session has died, and whether the reason fetched for that death is still
 worth showing when the answer arrives.
 */
module DisconnectReason {
  import opened Options

  datatype Status = Connecting | Connected | Reasserting | Disconnecting | Disconnected | Invalid

  predicate IsLive(s: Status) { s.Connecting? || s.Connected? || s.Reasserting? }

  predicate IsTerminal(s: Status) { s.Disconnected? || s.Invalid? }

  datatype Gate = Gate(sawLiveSession: bool, generation: nat)

  const CLOSED: Gate := Gate(false, 0)

  function Began(g: Gate): Gate { g.(generation := g.generation + 1) }

  /** The gate after a status, and the generation to ask for the reason under if this was a death. */
  function Observed(g: Gate, s: Status): (Gate, Option<nat>) {
    if IsLive(s) then (Gate(true, if g.sawLiveSession then g.generation else g.generation + 1), None)
    else if IsTerminal(s) && g.sawLiveSession then (g.(sawLiveSession := false), Some(g.generation))
    else (g, None)
  }

  predicate MayPublishIn(g: Gate, fetchedUnder: nat, messageNow: Option<string>) {
    fetchedUnder == g.generation && messageNow.None?
  }

  class DisconnectReasonGate {
    var sawLiveSession: bool
    var generation: nat

    function View(): Gate
      reads this
    {
      Gate(sawLiveSession, generation)
    }

    constructor ()
      ensures View() == CLOSED
    {
      sawLiveSession, generation := false, 0;
    }

    method AttemptBegan()
      modifies this
      ensures View() == Began(old(View()))
    {
      generation := generation + 1;
    }

    method Observe(status: Status) returns (died: Option<nat>)
      modifies this
      ensures (View(), died) == Observed(old(View()), status)
    {
      match status {
        case Connecting | Connected | Reasserting =>
          if !sawLiveSession {
            generation := generation + 1;
          }
          sawLiveSession := true;
          return None;
        case Disconnected | Invalid =>
          if !sawLiveSession {
            return None;
          }
          sawLiveSession := false;
          return Some(generation);
        case Disconnecting =>
          return None;
      }
    }

    method MayPublish(fetchedUnder: nat, messageNow: Option<string>) returns (may: bool)
      ensures may == MayPublishIn(View(), fetchedUnder, messageNow)
    {
      return fetchedUnder == generation && messageNow.None?;
    }
  }

  // ----- traces --------------------------------------------------------------------------------

  datatype Event = Attempt | Status(status: Status)

  function After(g: Gate, e: Event): Gate {
    match e
    case Attempt => Began(g)
    case Status(s) => Observed(g, s).0
  }

  function Run(events: seq<Event>): Gate {
    if events == [] then CLOSED else After(Run(events[..|events| - 1]), events[|events| - 1])
  }

  /** The death the event at `k` was reported as, if it was. */
  function DeathAt(events: seq<Event>, k: nat): Option<nat>
    requires k < |events|
  {
    if events[k].Status? then Observed(Run(events[..k]), events[k].status).1 else None
  }

  // What happened, read off the events alone.

  /** A session is live after these events: the last status that was live or terminal was live. */
  predicate LiveAfter(events: seq<Event>) {
    if events == [] then false
    else
      var e := events[|events| - 1];
      if e.Status? && IsLive(e.status) then true
      else if e.Status? && IsTerminal(e.status) then false
      else LiveAfter(events[..|events| - 1])
  }

  /** A session goes live at `k`. */
  predicate GoesLive(events: seq<Event>, k: nat)
    requires k < |events|
  {
    events[k].Status? && IsLive(events[k].status) && !LiveAfter(events[..k])
  }

  /** The live session ends at `k`. */
  predicate Dies(events: seq<Event>, k: nat)
    requires k < |events|
  {
    events[k].Status? && IsTerminal(events[k].status) && LiveAfter(events[..k])
  }

  /** A new cycle begins at `k`: an attempt, or a session going live. */
  predicate NewCycle(events: seq<Event>, k: nat)
    requires k < |events|
  {
    events[k].Attempt? || GoesLive(events, k)
  }

  /** How many cycles began. */
  function Cycles(events: seq<Event>): nat {
    if events == [] then 0
    else Cycles(events[..|events| - 1]) + (if NewCycle(events, |events| - 1) then 1 else 0)
  }

  lemma {:induction false} GateKnows(events: seq<Event>)
    ensures Run(events) == Gate(LiveAfter(events), Cycles(events))
  {
    if events != [] {
      GateKnows(events[..|events| - 1]);
    }
  }

  /** A death is reported exactly when a live session ends, under the number of cycles begun by then. */
  lemma DeathsAreDeaths(events: seq<Event>, k: nat)
    requires k < |events|
    ensures DeathAt(events, k) == if Dies(events, k) then Some(Cycles(events[..k])) else None
  {
    GateKnows(events[..k]);
  }

  lemma {:induction false} CyclesGrow(events: seq<Event>, i: nat, j: nat)
    requires i <= j <= |events|
    ensures Cycles(events[..i]) <= Cycles(events[..j])
    ensures Cycles(events[..i]) == Cycles(events[..j]) <==> forall k :: i <= k < j ==> !NewCycle(events, k)
    decreases j - i
  {
    if i < j {
      CyclesGrow(events, i, j - 1);
      assert events[..j][..j - 1] == events[..j - 1];
      assert NewCycle(events[..j], j - 1) <==> NewCycle(events, j - 1);
    }
  }

  /** Dead at `i` and live again by `j`: some session went live in between. */
  lemma {:induction false} LiveAgain(events: seq<Event>, i: nat, j: nat) returns (k: nat)
    requires i <= j <= |events| && !LiveAfter(events[..i]) && LiveAfter(events[..j])
    ensures i <= k < j && GoesLive(events, k)
    decreases j
  {
    assert events[..j][..j - 1] == events[..j - 1];
    if LiveAfter(events[..j - 1]) {
      k := LiveAgain(events, i, j - 1);
    } else {
      k := j - 1;
    }
  }

  /** The generations deaths are reported under strictly increase, and a session went live between any two. */
  lemma DeathsIncrease(events: seq<Event>, i: nat, j: nat)
    requires i < j < |events| && DeathAt(events, i).Some? && DeathAt(events, j).Some?
    ensures DeathAt(events, i).value < DeathAt(events, j).value
    ensures exists k :: i < k < j && GoesLive(events, k)
  {
    DeathsAreDeaths(events, i);
    DeathsAreDeaths(events, j);
    assert events[..i + 1][..i] == events[..i];
    var k := LiveAgain(events, i + 1, j);
    CyclesGrow(events, i, j);
    assert NewCycle(events, k);
  }

  /**
   The answer for a death may be published exactly if no attempt began and no session went live since,
   and nothing else is being said.
   */
  lemma PublishesOnlyForThisCycle(events: seq<Event>, k: nat, messageNow: Option<string>)
    requires k < |events| && DeathAt(events, k).Some?
    ensures MayPublishIn(Run(events), DeathAt(events, k).value, messageNow)
            <==> messageNow.None? && forall i :: k < i < |events| ==> !NewCycle(events, i)
  {
    DeathsAreDeaths(events, k);
    GateKnows(events);
    CyclesGrow(events, k, |events|);
    assert events[..|events|] == events;
    assert !NewCycle(events, k);
  }
}
