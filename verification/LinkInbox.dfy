/**
 The connection-link inbox and its consumer, a view that may be destroyed and recreated at any moment.

 The first half is the program's own objects, each method tied to a function of the state before it.
 The second half runs those functions in any order the app can, and says what no order can break.
 */
module LinkInbox {
  import opened Options

  type Url = string

  /** What a URL parses to, or None where the parser refuses it. */
  type Link = string
  type Parser = Url -> Option<Link>

  // ----- the inbox -----------------------------------------------------------------------------

  datatype EndReason = Applied | Declined | Reported

  datatype Phase = Idle | Recoverable(url: Url) | Terminal(url: Url, reason: EndReason)

  datatype Inbox = Inbox(queued: seq<Url>, phase: Phase)

  const CAPACITY: nat := 16

  predicate IsOpen(i: Inbox, url: Url) { !i.phase.Idle? && i.phase.url == url }

  predicate Accepts(i: Inbox, url: Url) { !IsOpen(i, url) && url !in i.queued && |i.queued| < CAPACITY }

  function Delivered(i: Inbox, url: Url): Inbox {
    if Accepts(i, url) then i.(queued := i.queued + [url]) else i
  }

  function Taken(i: Inbox): (Inbox, Option<Url>) {
    if i.phase.Idle? && i.queued != [] then (Inbox(i.queued[1..], Recoverable(i.queued[0])), Some(i.queued[0]))
    else (i, None)
  }

  function Marked(i: Inbox, reason: EndReason): Inbox {
    if i.phase.Recoverable? then i.(phase := Terminal(i.phase.url, reason)) else i
  }

  function Finished(i: Inbox): Inbox { i.(phase := Idle) }

  function Recovered(i: Inbox): Inbox {
    if i.phase.Recoverable? then Inbox([i.phase.url] + i.queued, Idle) else i.(phase := Idle)
  }

  class ConnectionLinkInbox {
    var queued: seq<Url>
    var phase: Phase

    function View(): Inbox
      reads this
    {
      Inbox(queued, phase)
    }

    constructor ()
      ensures View() == Inbox([], Idle)
    {
      queued, phase := [], Idle;
    }

    method Deliver(url: Url)
      modifies this
      ensures View() == Delivered(old(View()), url)
    {
      if (!phase.Idle? && phase.url == url) || url in queued {
        return;
      }
      if CAPACITY <= |queued| {
        return;
      }
      queued := queued + [url];
    }

    method Take() returns (url: Option<Url>)
      modifies this
      ensures (View(), url) == Taken(old(View()))
    {
      if !phase.Idle? || queued == [] {
        return None;
      }
      url := Some(queued[0]);
      queued := queued[1..];
      phase := Recoverable(url.value);
    }

    method MarkTerminal(reason: EndReason)
      modifies this
      ensures View() == Marked(old(View()), reason)
    {
      if phase.Recoverable? {
        phase := Terminal(phase.url, reason);
      }
    }

    method Finish()
      modifies this
      ensures View() == Finished(old(View()))
    {
      phase := Idle;
    }

    method RecoverIfAbandoned()
      modifies this
      ensures View() == Recovered(old(View()))
    {
      match phase
      case Idle =>
      case Recoverable(u) =>
        phase := Idle;
        queued := [u] + queued;
      case Terminal(_, _) =>
        phase := Idle;
    }
  }

  // ----- the consumer --------------------------------------------------------------------------

  /**
   The view's own state, which dies with it. `due` counts the change callbacks of the two alert flags
   that have not run yet.
   */
  datatype Screen = Screen(pending: Option<Link>, showConfirm: bool, showResult: bool, due: nat)

  const FRESH: Screen := Screen(None, false, false, 0)

  predicate Quiet(v: Screen) { !v.showConfirm && !v.showResult }

  function Consumed(parse: Parser, i: Inbox, v: Screen): (Inbox, Screen) {
    if !Quiet(v) then (i, v)
    else
      var (i', url) := Taken(Recovered(i));
      if url.None? then (i', v)
      else if parse(url.value).Some? then (i', v.(pending := parse(url.value), showConfirm := true, due := v.due + 1))
      else (i', v.(pending := None, showResult := true, due := v.due + 1))
  }

  function Settled(parse: Parser, i: Inbox, v: Screen): (Inbox, Screen) {
    if !Quiet(v) then (i, v) else Consumed(parse, Finished(i), v)
  }

  /** The alerts after a button, whose alert goes away with it. */
  function ImportPressed(v: Screen): Screen { Screen(None, false, true, v.due + 2) }

  function CancelPressed(v: Screen): Screen { Screen(None, false, v.showResult, v.due + 1) }

  function OkPressed(v: Screen): Screen { v.(showResult := false, due := v.due + 1) }

  class ConnectionLinkImporter {
    const inbox: ConnectionLinkInbox
    const parse: Parser
    var pending: Option<Link>
    var showConfirm: bool
    var showResult: bool
    var due: nat
    var applied: seq<Link>  // what BackupManager.applyConnectionLink was called with

    function View(): Screen
      reads this
    {
      Screen(pending, showConfirm, showResult, due)
    }

    constructor (inbox: ConnectionLinkInbox, parse: Parser)
      ensures this.inbox == inbox && this.parse == parse && View() == FRESH && applied == []
    {
      this.inbox, this.parse := inbox, parse;
      pending, showConfirm, showResult, due, applied := None, false, false, 0, [];
    }

    method Consume()
      modifies this, inbox
      ensures (inbox.View(), View()) == Consumed(parse, old(inbox.View()), old(View()))
      ensures applied == old(applied)
    {
      if showConfirm || showResult {
        return;
      }
      inbox.RecoverIfAbandoned();
      var url := inbox.Take();
      if url.None? {
        return;
      }
      if parse(url.value).Some? {
        pending := parse(url.value);
        showConfirm := true;
      } else {
        pending := None;
        showResult := true;
      }
      due := due + 1;
    }

    /** A change callback of one of the flags. */
    method Settle()
      requires due > 0
      modifies this, inbox
      ensures (inbox.View(), View()) == Settled(parse, old(inbox.View()), old(View()).(due := old(due) - 1))
      ensures applied == old(applied)
    {
      due := due - 1;
      if showConfirm || showResult {
        return;
      }
      inbox.Finish();
      Consume();
    }

    /** The Import button, with the dismissal of the alert it belongs to. */
    method Import()
      requires showConfirm && pending.Some?
      modifies this, inbox
      ensures applied == old(applied) + [old(pending).value]
      ensures inbox.View() == Marked(old(inbox.View()), Applied)
      ensures View() == ImportPressed(old(View()))
    {
      applied := applied + [pending.value];
      inbox.MarkTerminal(Applied);
      pending := None;
      showResult := true;
      showConfirm := false;
      due := due + 2;
    }

    method Cancel()
      requires showConfirm
      modifies this, inbox
      ensures applied == old(applied)
      ensures inbox.View() == Marked(old(inbox.View()), Declined)
      ensures View() == CancelPressed(old(View()))
    {
      inbox.MarkTerminal(Declined);
      pending := None;
      showConfirm := false;
      due := due + 1;
    }

    method Ok()
      requires showResult
      modifies this, inbox
      ensures applied == old(applied)
      ensures inbox.View() == Marked(old(inbox.View()), Reported)
      ensures View() == OkPressed(old(View()))
    {
      inbox.MarkTerminal(Reported);
      showResult := false;
      due := due + 1;
    }
  }

  // ----- every order of events -----------------------------------------------------------------

  /** A delivery that left the inbox: the reason it ended for, or None if it was thrown away unseen. */
  datatype Ended = Ended(url: Url, reason: Option<EndReason>)

  /** The inbox, the view if there is one, and the history: what was accepted, how it ended, what was applied. */
  datatype World = World(
    inbox: Inbox, view: Option<Screen>, accepted: seq<Url>, ended: seq<Ended>, applied: seq<Link>)

  const START: World := World(Inbox([], Idle), None, [], [], [])

  datatype Event = Deliver(url: Url) | Create | Destroy | Consume | Settle | Import | Cancel | Ok

  predicate Enabled(w: World, e: Event) {
    match e
    case Deliver(_) => true
    case Create => w.view.None?
    case Destroy => w.view.Some?
    case Consume => w.view.Some?
    case Settle => w.view.Some? && w.view.value.due > 0
    case Import => w.view.Some? && w.view.value.showConfirm && w.view.value.pending.Some?
    case Cancel => w.view.Some? && w.view.value.showConfirm
    case Ok => w.view.Some? && w.view.value.showResult
  }

  /** How the open transaction ends if the inbox is reset now. */
  function Closing(p: Phase): seq<Ended> {
    match p
    case Idle => []
    case Recoverable(u) => [Ended(u, None)]
    case Terminal(u, r) => [Ended(u, Some(r))]
  }

  /** The same for `recoverIfAbandoned`, which puts a recoverable one back. */
  function Dropping(p: Phase): seq<Ended> {
    if p.Terminal? then Closing(p) else []
  }

  function ConsumeNext(parse: Parser, w: World, v: Screen): World {
    var (i, v') := Consumed(parse, w.inbox, v);
    w.(inbox := i, view := Some(v'), ended := if Quiet(v) then w.ended + Dropping(w.inbox.phase) else w.ended)
  }

  function After(parse: Parser, w: World, e: Event): World
    requires Enabled(w, e)
  {
    match e
    case Deliver(url) =>
      w.(inbox := Delivered(w.inbox, url), accepted := if Accepts(w.inbox, url) then w.accepted + [url] else w.accepted)
    case Create => w.(view := Some(FRESH))
    case Destroy => w.(view := None)
    case Consume => ConsumeNext(parse, w, w.view.value)
    case Settle =>
      var v := w.view.value.(due := w.view.value.due - 1);
      var (i, v') := Settled(parse, w.inbox, v);
      w.(inbox := i, view := Some(v'), ended := if Quiet(v) then w.ended + Closing(w.inbox.phase) else w.ended)
    case Import =>
      w.(applied := w.applied + [w.view.value.pending.value], inbox := Marked(w.inbox, Applied),
         view := Some(ImportPressed(w.view.value)))
    case Cancel => w.(inbox := Marked(w.inbox, Declined), view := Some(CancelPressed(w.view.value)))
    case Ok => w.(inbox := Marked(w.inbox, Reported), view := Some(OkPressed(w.view.value)))
  }

  predicate Run(parse: Parser, w: World, events: seq<Event>)
    decreases |events|
  {
    events == [] || (Enabled(w, events[0]) && Run(parse, After(parse, w, events[0]), events[1..]))
  }

  function Final(parse: Parser, w: World, events: seq<Event>): World
    requires Run(parse, w, events)
    decreases |events|
  {
    if events == [] then w else Final(parse, After(parse, w, events[0]), events[1..])
  }

  ghost predicate Reachable(parse: Parser, w: World) {
    exists events :: Run(parse, START, events) && Final(parse, START, events) == w
  }

  // ----- the invariant -------------------------------------------------------------------------

  function Urls(ended: seq<Ended>): seq<Url> { seq(|ended|, i requires 0 <= i < |ended| => ended[i].url) }

  function OpenUrls(p: Phase): seq<Url> { if p.Idle? then [] else [p.url] }

  /** The links of the deliveries that ended as applied, in order. */
  function AppliedLinks(parse: Parser, ended: seq<Ended>): seq<Link> {
    if ended == [] then []
    else
      var last := ended[|ended| - 1];
      AppliedLinks(parse, ended[..|ended| - 1])
      + (if last.reason == Some(Applied) && parse(last.url).Some? then [parse(last.url).value] else [])
  }

  /** Nothing accepted is lost, duplicated or reordered. */
  predicate InOrder(w: World) {
    w.accepted == Urls(w.ended) + OpenUrls(w.inbox.phase) + w.inbox.queued
  }

  predicate Distinct(s: seq<Url>) { forall a, b :: 0 <= a < b < |s| ==> s[a] != s[b] }

  predicate WindowOk(i: Inbox) {
    Distinct(OpenUrls(i.phase) + i.queued) && |OpenUrls(i.phase)| + |i.queued| <= CAPACITY + 1
  }

  /** What is applied is what ended as applied, plus the open one while its receipt is up. */
  predicate AppliedOk(parse: Parser, w: World) {
    && (forall k :: 0 <= k < |w.ended| ==> w.ended[k].reason.Some?)
    && (forall k :: 0 <= k < |w.ended| && w.ended[k].reason == Some(Applied) ==> parse(w.ended[k].url).Some?)
    && (w.inbox.phase.Terminal? && w.inbox.phase.reason.Applied? ==> parse(w.inbox.phase.url).Some?)
    && w.applied == AppliedLinks(parse, w.ended + Dropping(w.inbox.phase))
  }

  /** What the view shows is the open transaction. */
  predicate ScreenOk(parse: Parser, w: World) {
    w.view.Some? ==>
      var v, p := w.view.value, w.inbox.phase;
      && !(v.showConfirm && v.showResult)
      && (v.showConfirm ==> p.Recoverable? && v.pending.Some? && parse(p.url) == v.pending)
      && (v.showResult ==> (p.Terminal? && p.reason.Applied?) || (p.Recoverable? && parse(p.url).None?))
      && (Quiet(v) && v.due > 0 ==> !p.Recoverable?)
  }

  predicate Inv(parse: Parser, w: World) {
    InOrder(w) && WindowOk(w.inbox) && AppliedOk(parse, w) && ScreenOk(parse, w)
  }

  lemma UrlsAppend(a: seq<Ended>, b: seq<Ended>)
    ensures Urls(a + b) == Urls(a) + Urls(b)
  {
  }

  /** The shape of Consumed: an abandoned prompt goes back to the front and is taken again. */
  lemma ConsumedShape(i: Inbox)
    ensures var (i', url) := Taken(Recovered(i));
      && i'.queued == (if i.phase.Recoverable? then i.queued else if i.queued == [] then [] else i.queued[1..])
      && i'.phase == (if i.phase.Recoverable? then i.phase
                      else if i.queued == [] then Idle else Recoverable(i.queued[0]))
      && url == (if i'.phase.Idle? then None else Some(i'.phase.url))
  {
    if i.phase.Recoverable? {
      assert ([i.phase.url] + i.queued)[1..] == i.queued;
    }
  }

  /** Reopening the inbox drops what is terminal and keeps everything else in place. */
  lemma ReopenKeepsOrder(i: Inbox)
    ensures var i' := Taken(Recovered(i)).0;
      && OpenUrls(i.phase) + i.queued == Urls(Dropping(i.phase)) + (OpenUrls(i'.phase) + i'.queued)
      && (WindowOk(i) ==> WindowOk(i'))
  {
    ConsumedShape(i);
    var i' := Taken(Recovered(i)).0;
    var all := OpenUrls(i.phase) + i.queued;
    assert OpenUrls(i'.phase) + i'.queued == all[|Dropping(i.phase)|..];
  }

  /** Regrouping the three parts of the history when the middle one moves on. */
  lemma Regroup(ended: seq<Url>, open: seq<Url>, queued: seq<Url>, gone: seq<Url>, open': seq<Url>, queued': seq<Url>)
    requires open + queued == gone + (open' + queued')
    ensures ended + open + queued == ended + gone + open' + queued'
  {
    assert ended + open + queued == ended + (open + queued);
    assert ended + gone + open' + queued' == ended + (gone + (open' + queued'));
  }

  lemma ConsumeKeepsOrder(parse: Parser, w: World, v: Screen)
    requires InOrder(w) && WindowOk(w.inbox)
    ensures var w' := ConsumeNext(parse, w, v); InOrder(w') && WindowOk(w'.inbox)
  {
    if Quiet(v) {
      var i, d := w.inbox, Dropping(w.inbox.phase);
      var i' := Taken(Recovered(i)).0;
      ReopenKeepsOrder(i);
      UrlsAppend(w.ended, d);
      Regroup(Urls(w.ended), OpenUrls(i.phase), i.queued, Urls(d), OpenUrls(i'.phase), i'.queued);
    }
  }

  lemma ConsumeKeepsApplied(parse: Parser, w: World, v: Screen)
    requires AppliedOk(parse, w)
    ensures AppliedOk(parse, ConsumeNext(parse, w, v))
  {
    if Quiet(v) {
      ConsumedShape(w.inbox);
      var ended := w.ended + Dropping(w.inbox.phase);
      assert ended + [] == ended;
    }
  }

  lemma ConsumeKeeps(parse: Parser, w: World, v: Screen)
    requires InOrder(w) && WindowOk(w.inbox) && AppliedOk(parse, w) && ScreenOk(parse, w.(view := Some(v)))
    ensures Inv(parse, ConsumeNext(parse, w, v))
  {
    ConsumeKeepsOrder(parse, w, v);
    ConsumeKeepsApplied(parse, w, v);
    ConsumedShape(w.inbox);
  }

  lemma MarkKeeps(parse: Parser, w: World, r: EndReason)
    requires InOrder(w) && WindowOk(w.inbox)
    ensures InOrder(w.(inbox := Marked(w.inbox, r))) && WindowOk(Marked(w.inbox, r))
  {
    assert OpenUrls(Marked(w.inbox, r).phase) == OpenUrls(w.inbox.phase);
  }

  /** Marking the open transaction adds its link to what is applied exactly if the reason says so. */
  lemma MarkApplies(parse: Parser, w: World, r: EndReason)
    requires AppliedOk(parse, w) && w.inbox.phase.Recoverable?
    requires r.Applied? ==> parse(w.inbox.phase.url).Some?
    ensures AppliedLinks(parse, w.ended + Dropping(Marked(w.inbox, r).phase))
            == w.applied + (if r.Applied? then [parse(w.inbox.phase.url).value] else [])
  {
    var e := Ended(w.inbox.phase.url, Some(r));
    assert w.ended + Dropping(w.inbox.phase) == w.ended;
    assert (w.ended + [e])[..|w.ended|] == w.ended;
  }

  lemma ButtonKeeps(parse: Parser, w: World, e: Event)
    requires Enabled(w, e) && Inv(parse, w) && (e.Import? || e.Cancel? || e.Ok?)
    ensures Inv(parse, After(parse, w, e))
  {
    var r := if e.Import? then Applied else if e.Cancel? then Declined else Reported;
    MarkKeeps(parse, w, r);
    if w.inbox.phase.Recoverable? {
      MarkApplies(parse, w, r);
    }
  }

  lemma SettleKeeps(parse: Parser, w: World)
    requires Enabled(w, Settle) && Inv(parse, w)
    ensures Inv(parse, After(parse, w, Settle))
  {
    var v := w.view.value.(due := w.view.value.due - 1);
    if Quiet(v) {
      var w1 := w.(inbox := Finished(w.inbox), ended := w.ended + Closing(w.inbox.phase));
      UrlsAppend(w.ended, Closing(w.inbox.phase));
      assert Urls(Closing(w.inbox.phase)) == OpenUrls(w.inbox.phase);
      assert Closing(w.inbox.phase) == Dropping(w.inbox.phase);
      assert w1.ended + Dropping(w1.inbox.phase) == w1.ended;
      assert OpenUrls(w1.inbox.phase) + w1.inbox.queued
             == (OpenUrls(w.inbox.phase) + w.inbox.queued)[|OpenUrls(w.inbox.phase)|..];
      ConsumeKeeps(parse, w1, v);
      assert After(parse, w, Settle) == ConsumeNext(parse, w1, v) by {
        assert w1.ended + [] == w1.ended;
      }
    }
  }

  lemma DeliverKeeps(parse: Parser, w: World, url: Url)
    requires Inv(parse, w)
    ensures Inv(parse, After(parse, w, Deliver(url)))
  {
    var open, queued := OpenUrls(w.inbox.phase), w.inbox.queued;
    if Accepts(w.inbox, url) {
      assert open + (queued + [url]) == open + queued + [url];
      assert Urls(w.ended) + open + (queued + [url]) == Urls(w.ended) + open + queued + [url];
    }
  }

  lemma InvKept(parse: Parser, w: World, e: Event)
    requires Enabled(w, e) && Inv(parse, w)
    ensures Inv(parse, After(parse, w, e))
  {
    match e
    case Deliver(url) => DeliverKeeps(parse, w, url);
    case Create =>
    case Destroy =>
    case Consume => ConsumeKeeps(parse, w, w.view.value);
    case Settle => SettleKeeps(parse, w);
    case _ => ButtonKeeps(parse, w, e);
  }

  lemma {:induction false} InvHolds(parse: Parser, w: World, events: seq<Event>)
    requires Inv(parse, w) && Run(parse, w, events)
    ensures Inv(parse, Final(parse, w, events))
    decreases |events|
  {
    if events != [] {
      InvKept(parse, w, events[0]);
      InvHolds(parse, After(parse, w, events[0]), events[1..]);
    }
  }

  lemma Reached(parse: Parser, w: World)
    requires Reachable(parse, w)
    ensures Inv(parse, w)
  {
    var events :| Run(parse, START, events) && Final(parse, START, events) == w;
    InvHolds(parse, START, events);
  }

  // ----- what no order of events can break -----------------------------------------------------

  /**
   However often the view dies, the accepted deliveries are, in order, those that ended, the open one
   and those queued; and every one that ended did so because the user imported it, declined it or was
   told it is unreadable.
   */
  lemma NothingIsLost(parse: Parser, w: World)
    requires Reachable(parse, w)
    ensures w.accepted == Urls(w.ended) + OpenUrls(w.inbox.phase) + w.inbox.queued
    ensures forall k :: 0 <= k < |w.ended| ==> w.ended[k].reason.Some?
  {
    Reached(parse, w);
  }

  /** The dedupe window holds no URL twice and never more than the capacity and the open one. */
  lemma WindowIsBounded(parse: Parser, w: World)
    requires Reachable(parse, w)
    ensures Distinct(OpenUrls(w.inbox.phase) + w.inbox.queued)
    ensures |OpenUrls(w.inbox.phase)| + |w.inbox.queued| <= CAPACITY + 1
  {
    Reached(parse, w);
  }

  /**
   Each accepted delivery is applied at most once: the links applied are those of the deliveries that
   ended so, in order.
   */
  lemma AppliedAtMostOnce(parse: Parser, w: World)
    requires Reachable(parse, w)
    ensures w.applied == AppliedLinks(parse, w.ended + Dropping(w.inbox.phase))
    ensures |w.applied| <= |w.accepted|
  {
    Reached(parse, w);
    AppliedLinksBound(parse, w.ended + Dropping(w.inbox.phase));
  }

  lemma {:induction false} AppliedLinksBound(parse: Parser, ended: seq<Ended>)
    ensures |AppliedLinks(parse, ended)| <= |ended|
  {
    if ended != [] {
      AppliedLinksBound(parse, ended[..|ended| - 1]);
    }
  }

  /** What Import applies is the link of the open transaction, the one the prompt was raised for. */
  lemma ImportAppliesTheOpenLink(parse: Parser, w: World)
    requires Reachable(parse, w) && Enabled(w, Import)
    ensures w.inbox.phase.Recoverable?
    ensures parse(w.inbox.phase.url).Some?
    ensures After(parse, w, Import).applied == w.applied + [parse(w.inbox.phase.url).value]
  {
    Reached(parse, w);
  }

  /** While a prompt is up, no event but its own buttons and the view's death changes what it would apply. */
  lemma PromptIsStable(parse: Parser, w: World, e: Event)
    requires Reachable(parse, w) && w.view.Some? && w.view.value.showConfirm
    requires Enabled(w, e) && !e.Import? && !e.Cancel? && !e.Destroy?
    ensures var w' := After(parse, w, e);
      w'.view.Some? && w'.view.value.showConfirm && w'.view.value.pending == w.view.value.pending
      && w'.inbox.phase == w.inbox.phase
  {
    Reached(parse, w);
  }

  /** The receipt of an import is up after it, and stays until it is closed or the view dies. */
  lemma ReceiptIsStable(parse: Parser, w: World, e: Event)
    requires Reachable(parse, w) && Enabled(w, e)
    ensures e.Import? ==> After(parse, w, e).view.value.showResult
    ensures w.view.Some? && w.view.value.showResult && !e.Ok? && !e.Destroy?
            ==> After(parse, w, e).view.Some? && After(parse, w, e).view.value.showResult
  {
    Reached(parse, w);
  }

  function Flips(v: Screen, v': Screen): nat {
    (if v.showConfirm != v'.showConfirm then 1 else 0) + (if v.showResult != v'.showResult then 1 else 0)
  }

  /** Each time an alert flag changes, one callback becomes due; Settle is one of them. */
  lemma FlipsAreDue(parse: Parser, w: World, e: Event)
    requires Reachable(parse, w) && Enabled(w, e) && w.view.Some? && !e.Destroy?
    ensures var v' := After(parse, w, e).view;
      v'.Some? && v'.value.due == w.view.value.due - (if e.Settle? then 1 else 0) + Flips(w.view.value, v'.value)
  {
    Reached(parse, w);
  }

  // ----- nothing waits for good ----------------------------------------------------------------

  /** A delivered URL is open or queued, unless the queue holds sixteen others. */
  lemma DeliveredIsThere(parse: Parser, w: World, url: Url)
    requires Reachable(parse, w)
    ensures var i := After(parse, w, Deliver(url)).inbox;
      url in OpenUrls(i.phase) + i.queued || |i.queued| >= 16
  {
    Reached(parse, w);
    var i := Delivered(w.inbox, url);
    if Accepts(w.inbox, url) {
      assert i.queued[|i.queued| - 1] == url;
    } else if IsOpen(w.inbox, url) {
      assert OpenUrls(i.phase)[0] == url;
    }
  }

  /** Once an alert has gone and the view has settled, either the next one is up or nothing waits. */
  lemma NothingWaitsUnseen(parse: Parser, i: Inbox, v: Screen)
    ensures var (i', v') := Settled(parse, i, v);
      Quiet(v') ==> i'.queued == [] && i'.phase.Idle?
    ensures Quiet(v) ==> var (i', v') := Consumed(parse, i, v); Quiet(v') ==> i'.queued == [] && i'.phase.Idle?
  {
  }

  /** The prompt or the complaint for the first of these is up, the others are queued; or there are none. */
  predicate Shows(parse: Parser, w: World, urls: seq<Url>) {
    && w.view.Some?
    && (if urls == [] then w.inbox == Inbox([], Idle) && Quiet(w.view.value)
        else
          && w.inbox == Inbox(urls[1..], Recoverable(urls[0]))
          && w.view.value.pending == parse(urls[0])
          && w.view.value.showConfirm == parse(urls[0]).Some?
          && w.view.value.showResult == parse(urls[0]).None?)
  }

  /** The links among these. */
  function Links(parse: Parser, urls: seq<Url>): seq<Link> {
    if urls == [] then [] else (if parse(urls[0]).Some? then [parse(urls[0]).value] else []) + Links(parse, urls[1..])
  }

  /** The buttons that answer what is shown for this one. */
  function Answer(parse: Parser, url: Url): seq<Event> {
    if parse(url).Some? then [Import, Ok, Settle] else [Ok, Settle]
  }

  function Answers(parse: Parser, urls: seq<Url>): seq<Event> {
    if urls == [] then [] else Answer(parse, urls[0]) + Answers(parse, urls[1..])
  }

  lemma {:induction false} RunConcat(parse: Parser, w: World, a: seq<Event>, b: seq<Event>)
    requires Run(parse, w, a) && Run(parse, Final(parse, w, a), b)
    ensures Run(parse, w, a + b) && Final(parse, w, a + b) == Final(parse, Final(parse, w, a), b)
    decreases |a|
  {
    if a == [] {
      assert a + b == b;
    } else {
      assert (a + b)[1..] == a[1..] + b;
      RunConcat(parse, After(parse, w, a[0]), a[1..], b);
    }
  }

  lemma RunOne(parse: Parser, w: World, e: Event)
    requires Enabled(w, e)
    ensures Run(parse, w, [e]) && Final(parse, w, [e]) == After(parse, w, e)
  {
    var w' := After(parse, w, e);
    assert [e][1..] == [] && Run(parse, w', []) && Final(parse, w', []) == w';
  }

  lemma RunTwo(parse: Parser, w: World, e: Event, f: Event)
    requires Enabled(w, e) && Enabled(After(parse, w, e), f)
    ensures Run(parse, w, [e, f]) && Final(parse, w, [e, f]) == After(parse, After(parse, w, e), f)
  {
    RunOne(parse, w, e);
    RunOne(parse, After(parse, w, e), f);
    RunConcat(parse, w, [e], [f]);
    assert [e] + [f] == [e, f];
  }

  /** A consumer with no alert, on an idle inbox, shows the first of the queue. */
  lemma ConsumeShows(parse: Parser, i: Inbox, v: Screen)
    requires Quiet(v) && i.phase.Idle?
    ensures var (i', v') := Consumed(parse, i, v);
      forall w: World :: w.inbox == i' && w.view == Some(v') ==> Shows(parse, w, i.queued)
  {
  }

  /** The last alert of a transaction closes: the next is shown, and nothing is applied. */
  lemma ClosingShowsTheNext(parse: Parser, w: World)
    requires w.view.Some? && w.view.value.showResult && !w.view.value.showConfirm
    ensures Run(parse, w, [Ok, Settle])
    ensures var w' := Final(parse, w, [Ok, Settle]);
      Shows(parse, w', w.inbox.queued) && w'.applied == w.applied && w'.accepted == w.accepted
  {
    RunTwo(parse, w, Ok, Settle);
    var v := OkPressed(w.view.value).(due := w.view.value.due);
    ConsumeShows(parse, Inbox(w.inbox.queued, Idle), v);
  }

  lemma AnswerShowsTheNext(parse: Parser, w: World, urls: seq<Url>)
    requires urls != [] && Shows(parse, w, urls)
    ensures Run(parse, w, Answer(parse, urls[0]))
    ensures var w' := Final(parse, w, Answer(parse, urls[0]));
      && Shows(parse, w', urls[1..])
      && w'.applied == w.applied + (if parse(urls[0]).Some? then [parse(urls[0]).value] else [])
  {
    if parse(urls[0]).Some? {
      RunOne(parse, w, Import);
      ClosingShowsTheNext(parse, After(parse, w, Import));
      RunConcat(parse, w, [Import], [Ok, Settle]);
      assert [Import] + [Ok, Settle] == [Import, Ok, Settle];
    } else {
      ClosingShowsTheNext(parse, w);
    }
  }

  lemma LinksUnroll(parse: Parser, applied: seq<Link>, urls: seq<Url>)
    requires urls != []
    ensures applied + (if parse(urls[0]).Some? then [parse(urls[0]).value] else []) + Links(parse, urls[1..])
            == applied + Links(parse, urls)
  {
    var first := if parse(urls[0]).Some? then [parse(urls[0]).value] else [];
    assert Links(parse, urls) == first + Links(parse, urls[1..]);
    Associative(applied, first, Links(parse, urls[1..]));
  }

  lemma Associative(a: seq<Link>, b: seq<Link>, c: seq<Link>)
    ensures a + b + c == a + (b + c)
  {
  }

  lemma {:induction false} AnswersDrain(parse: Parser, w: World, urls: seq<Url>)
    requires Shows(parse, w, urls)
    ensures Run(parse, w, Answers(parse, urls))
    ensures var w' := Final(parse, w, Answers(parse, urls));
      w'.inbox == Inbox([], Idle) && w'.applied == w.applied + Links(parse, urls)
    decreases |urls|
  {
    if urls != [] {
      AnswerShowsTheNext(parse, w, urls);
      var w1 := Final(parse, w, Answer(parse, urls[0]));
      AnswersDrain(parse, w1, urls[1..]);
      RunConcat(parse, w, Answer(parse, urls[0]), Answers(parse, urls[1..]));
      LinksUnroll(parse, w.applied, urls);
    }
  }

  /** Declining shows the next one too, and applies nothing. */
  lemma CancelShowsTheNext(parse: Parser, w: World, urls: seq<Url>)
    requires urls != [] && Shows(parse, w, urls) && parse(urls[0]).Some?
    ensures Run(parse, w, [Cancel, Settle])
    ensures var w' := Final(parse, w, [Cancel, Settle]); Shows(parse, w', urls[1..]) && w'.applied == w.applied
  {
    RunTwo(parse, w, Cancel, Settle);
    ConsumeShows(parse, Inbox(w.inbox.queued, Idle), CancelPressed(w.view.value).(due := w.view.value.due));
  }

  /** What the user has not answered yet: the open link, unless its outcome was seen, and the queue. */
  function Unanswered(i: Inbox): seq<Url> { (if i.phase.Recoverable? then [i.phase.url] else []) + i.queued }

  /** A new view, whatever became of the last one. */
  function Reopens(w: World): seq<Event> { (if w.view.Some? then [Destroy] else []) + [Create, Consume] }

  /** A new view on any inbox. */
  lemma CreateShows(parse: Parser, w: World)
    requires w.view.None?
    ensures Run(parse, w, [Create, Consume])
    ensures var w' := Final(parse, w, [Create, Consume]);
      Shows(parse, w', Unanswered(w.inbox)) && w'.applied == w.applied
  {
    RunTwo(parse, w, Create, Consume);
    ConsumedShape(w.inbox);
    var open, queued := if w.inbox.phase.Recoverable? then [w.inbox.phase.url] else [], w.inbox.queued;
    assert open == [] ==> Unanswered(w.inbox) == queued;
    assert open != [] ==> (open + queued)[0] == w.inbox.phase.url && (open + queued)[1..] == queued;
  }

  lemma ReopenShows(parse: Parser, w: World)
    ensures Run(parse, w, Reopens(w))
    ensures var w' := Final(parse, w, Reopens(w)); Shows(parse, w', Unanswered(w.inbox)) && w'.applied == w.applied
  {
    if w.view.Some? {
      RunOne(parse, w, Destroy);
      CreateShows(parse, After(parse, w, Destroy));
      RunConcat(parse, w, [Destroy], [Create, Consume]);
    } else {
      CreateShows(parse, w);
      assert [] + [Create, Consume] == [Create, Consume];
    }
  }

  /**
   Wherever the app has got to, and whatever became of the view: a new one can still bring every link not
   answered yet before the user, who by importing them all applies each of them once, in order.
   */
  lemma EverythingCanBeImported(parse: Parser, w: World)
    ensures var events := Reopens(w) + Answers(parse, Unanswered(w.inbox));
      && Run(parse, w, events)
      && Final(parse, w, events).inbox == Inbox([], Idle)
      && Final(parse, w, events).applied == w.applied + Links(parse, Unanswered(w.inbox))
  {
    ReopenShows(parse, w);
    AnswersDrain(parse, Final(parse, w, Reopens(w)), Unanswered(w.inbox));
    RunConcat(parse, w, Reopens(w), Answers(parse, Unanswered(w.inbox)));
  }
}
