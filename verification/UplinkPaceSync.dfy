/**
 The bookkeeping of the uplink pace: revisions intended, sent and acknowledged, over an IPC that loses,
 delays, duplicates and reorders replies.
 */
module UplinkPaceSync {
  const MAX_ATTEMPTS: nat := 5

  datatype Sync = Sync(desired: nat, acknowledged: nat, attempts: nat)

  const FRESH: Sync := Sync(0, 0, 0)

  predicate Pending(s: Sync) { s.acknowledged < s.desired }

  predicate MayRetry(s: Sync) { Pending(s) && s.attempts < MAX_ATTEMPTS }

  function Intended(s: Sync): Sync { s.(desired := s.desired + 1, attempts := 0) }

  function Sending(s: Sync): Sync { s.(attempts := s.attempts + 1) }

  function Acknowledged(s: Sync, revision: nat, ok: bool): Sync {
    if ok && revision > s.acknowledged then s.(acknowledged := revision) else s
  }

  class UplinkPaceSync {
    var desiredRevision: nat
    var acknowledgedRevision: nat
    var attempts: nat

    function View(): Sync
      reads this
    {
      Sync(desiredRevision, acknowledgedRevision, attempts)
    }

    constructor ()
      ensures View() == FRESH
    {
      desiredRevision, acknowledgedRevision, attempts := 0, 0, 0;
    }

    method Intend() returns (revision: nat)
      modifies this
      ensures View() == Intended(old(View())) && revision == desiredRevision
    {
      desiredRevision := desiredRevision + 1;
      attempts := 0;
      return desiredRevision;
    }

    method WillSend() returns (revision: nat)
      modifies this
      ensures View() == Sending(old(View())) && revision == desiredRevision
    {
      attempts := attempts + 1;
      return desiredRevision;
    }

    method Acknowledge(revision: nat, ok: bool)
      modifies this
      ensures View() == Acknowledged(old(View()), revision, ok)
    {
      if !ok || revision <= acknowledgedRevision {
        return;
      }
      acknowledgedRevision := revision;
    }

    method IsPending() returns (pending: bool)
      ensures pending == Pending(View())
    {
      return acknowledgedRevision < desiredRevision;
    }

    method CanRetry() returns (can: bool)
      ensures can == MayRetry(View())
    {
      return acknowledgedRevision < desiredRevision && attempts < MAX_ATTEMPTS;
    }
  }

  // ----- the caller ----------------------------------------------------------------------------

  /** The machine, the revisions ever sent, and the revisions ever answered ok. */
  datatype World = World(sync: Sync, sent: set<nat>, confirmed: set<nat>)

  const START: World := World(FRESH, {}, {})

  /** `connected` is whether the tunnel is up, without which a send does nothing. */
  datatype Event =
    | Apply(connected: bool)            // a new intent, sent once
    | Flush(connected: bool)            // the tunnel came up: send what is outstanding
    | Timer(connected: bool)            // the retry timer
    | Reply(revision: nat, ok: bool)    // a reply, however late, to a revision that was sent

  predicate Enabled(w: World, e: Event) { e.Reply? ==> e.revision in w.sent }

  function Sent(w: World): World { w.(sync := Sending(w.sync), sent := w.sent + {w.sync.desired}) }

  function After(w: World, e: Event): World {
    match e
    case Apply(connected) =>
      var w := w.(sync := Intended(w.sync));
      if connected then Sent(w) else w
    case Flush(connected) => if Pending(w.sync) && connected then Sent(w) else w
    case Timer(connected) => if Pending(w.sync) && connected && MayRetry(w.sync) then Sent(w) else w
    case Reply(revision, ok) =>
      w.(sync := Acknowledged(w.sync, revision, ok), confirmed := if ok then w.confirmed + {revision} else w.confirmed)
  }

  predicate Run(events: seq<Event>) {
    events == [] || (Run(events[..|events| - 1]) && Enabled(Final(events[..|events| - 1]), events[|events| - 1]))
  }

  function Final(events: seq<Event>): World {
    if events == [] then START else After(Final(events[..|events| - 1]), events[|events| - 1])
  }

  predicate IsMax(s: set<nat>, m: nat) { (s == {} && m == 0) || (m in s && forall x :: x in s ==> x <= m) }

  /**
   Whatever the IPC does to the replies, the acknowledged revision is the largest answered ok, and none
   beyond the newest intent was ever sent.
   */
  lemma {:induction false} AcknowledgedIsMax(events: seq<Event>)
    requires Run(events)
    ensures var w := Final(events);
      && IsMax(w.confirmed, w.sync.acknowledged)
      && w.sync.acknowledged <= w.sync.desired
      && w.confirmed <= w.sent
      && forall r :: r in w.sent ==> r <= w.sync.desired
  {
    if events != [] {
      AcknowledgedIsMax(events[..|events| - 1]);
    }
  }

  /** Nothing pending means that the newest intent itself was confirmed, if there ever was one. */
  lemma SettledMeansConfirmed(events: seq<Event>)
    requires Run(events)
    ensures var w := Final(events);
      !Pending(w.sync) <==> w.sync.desired == 0 || w.sync.desired in w.confirmed
  {
    AcknowledgedIsMax(events);
  }

  /** The intents of a run. */
  function Intents(events: seq<Event>): nat {
    if events == [] then 0 else Intents(events[..|events| - 1]) + (if events[|events| - 1].Apply? then 1 else 0)
  }

  /** The deliveries attempted for the newest intent. */
  function Sends(events: seq<Event>): nat {
    if events == [] then 0
    else
      var front, e := events[..|events| - 1], events[|events| - 1];
      if e.Apply? then (if e.connected then 1 else 0)
      else if e.Reply? || After(Final(front), e) == Final(front) then Sends(front)
      else Sends(front) + 1
  }

  /** The times the tunnel came up with the newest intent outstanding. */
  function Flushes(events: seq<Event>): nat {
    if events == [] then 0
    else
      var front, e := events[..|events| - 1], events[|events| - 1];
      if e.Apply? then 0
      else Flushes(front) + (if e.Flush? && e.connected && Pending(Final(front).sync) then 1 else 0)
  }

  /** `attempts` counts the deliveries of the newest intent, and `desired` the intents. */
  lemma {:induction false} AttemptsAreSends(events: seq<Event>)
    ensures Final(events).sync.attempts == Sends(events)
    ensures Final(events).sync.desired == Intents(events)
  {
    if events != [] {
      AttemptsAreSends(events[..|events| - 1]);
    }
  }

  /** The retry bound: five deliveries of one intent, and one more for each time the tunnel came up meanwhile. */
  lemma {:induction false} SendsAreBounded(events: seq<Event>)
    ensures Sends(events) <= MAX_ATTEMPTS + Flushes(events)
  {
    if events != [] {
      SendsAreBounded(events[..|events| - 1]);
      AttemptsAreSends(events[..|events| - 1]);
    }
  }

  /**
   Since the newest intent, the tunnel came up while it was outstanding with its attempts spent: the
   guard of the retry timer that the flush does not ask.
   */
  predicate SpentFlush(events: seq<Event>) {
    if events == [] then false
    else
      var front, e := events[..|events| - 1], events[|events| - 1];
      var s := Final(front).sync;
      if e.Apply? then false
      else SpentFlush(front) || (e.Flush? && e.connected && Pending(s) && s.attempts >= MAX_ATTEMPTS)
  }

  /** An intent is delivered more than five times exactly if such a flush happened. */
  lemma {:induction false} ExceedsExactly(events: seq<Event>)
    ensures Sends(events) > MAX_ATTEMPTS <==> SpentFlush(events)
  {
    if events != [] {
      ExceedsExactly(events[..|events| - 1]);
      AttemptsAreSends(events[..|events| - 1]);
    }
  }

  lemma Snoc(events: seq<Event>, e: Event)
    ensures Final(events + [e]) == After(Final(events), e)
    ensures Run(events + [e]) <==> Run(events) && Enabled(Final(events), e)
  {
    assert (events + [e])[..|events|] == events;
  }

  /** Sent once, retried until the timer gives up, then sent once more because the tunnel came up. */
  const SIX_SENDS: seq<Event> :=
    [Apply(true)] + [Timer(true)] + [Timer(true)] + [Timer(true)] + [Timer(true)] + [Flush(true)]

  lemma SixSends()
    ensures Run(SIX_SENDS) && Sends(SIX_SENDS) == MAX_ATTEMPTS + 1
  {
    var t := Timer(true);
    var one, two := [] + [Apply(true)], [] + [Apply(true)] + [t];
    assert one == [Apply(true)] && Final([]) == START;
    Snoc([], Apply(true));
    Snoc(one, t);
    Snoc(two, t);
    Snoc(two + [t], t);
    Snoc(two + [t] + [t], t);
    Snoc(two + [t] + [t] + [t], Flush(true));
    assert SIX_SENDS == two + [t] + [t] + [t] + [Flush(true)];
    AttemptsAreSends(SIX_SENDS);
  }

  /** Nor is there another bound: as long as the intent is outstanding, coming up sends it once more. */
  lemma FlushesAreNotBounded(events: seq<Event>)
    requires Pending(Final(events).sync)
    ensures Sends(events + [Flush(true)]) == Sends(events) + 1
    ensures Pending(Final(events + [Flush(true)]).sync)
  {
    assert (events + [Flush(true)])[..|events|] == events;
  }

  /** One delivery is enough: its ok, whenever it comes, settles an intent that is still the newest. */
  lemma AnswerSettles(events: seq<Event>)
    requires Run(events)
    ensures var sent := events + [Apply(true)];
      var w := Final(sent + [Reply(Final(sent).sync.desired, true)]);
      Run(sent + [Reply(Final(sent).sync.desired, true)]) && !Pending(w.sync)
  {
    AcknowledgedIsMax(events);
    Snoc(events, Apply(true));
    Snoc(events + [Apply(true)], Reply(Final(events + [Apply(true)]).sync.desired, true));
  }
}
