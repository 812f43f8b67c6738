/**
 Which network path a speed test is attributed to.

 The program walks a list of timestamped observations. What its verdict should mean is a fact about a
 function of time, the route in force at each instant; the lemmas say exactly when the two agree.
 */
module SpeedTestPath {
  import opened Options

  datatype Path = ThroughVpn | DirectMode | VpnOff

  /** From `at` onward the route was `path`, until another observation says otherwise. */
  datatype Observation = Observation(at: real, path: Path)

  /** A closed interval of time. */
  datatype Window = Window(open: real, close: real)

  /** What the engine reports of one phase; `startedAt` is zero if its window never opened. */
  datatype PhaseProgress = PhaseProgress(startedAt: real, closedAt: real)

  datatype Progress = Progress(download: Option<PhaseProgress>, upload: Option<PhaseProgress>)

  datatype Trace = Trace(seen: seq<Path>) {
    predicate IsAttributable() { |seen| == 1 }

    /** Attributable to this path. */
    predicate Names(path: Path) { |seen| == 1 && seen[0] == path }

    /** Appends on any change, so a return to an earlier path counts. */
    function Record(path: Path): Trace {
      if seen != [] && seen[|seen| - 1] == path then this else Trace(seen + [path])
    }
  }

  // ----- what the program computes -------------------------------------------------------------

  function InsertByTime(s: seq<Observation>, o: Observation): seq<Observation> {
    if s == [] || s[|s| - 1].at <= o.at then s + [o]
    else InsertByTime(s[..|s| - 1], o) + [s[|s| - 1]]
  }

  /** The library sort, which keeps the order of equal timestamps. */
  function SortByTime(obs: seq<Observation>): seq<Observation> {
    if obs == [] then [] else InsertByTime(SortByTime(obs[..|obs| - 1]), obs[|obs| - 1])
  }

  /** The last element at or before `t`. */
  function LastAtOrBefore(s: seq<Observation>, t: real): Option<Observation> {
    if s == [] then None
    else if s[|s| - 1].at <= t then Some(s[|s| - 1])
    else LastAtOrBefore(s[..|s| - 1], t)
  }

  predicate Inside(o: Observation, w: Window) { w.open < o.at <= w.close }

  /** The paths of the changes inside the window, in order. */
  function Changes(s: seq<Observation>, w: Window): seq<Path> {
    if s == [] then []
    else if Inside(s[|s| - 1], w) then Changes(s[..|s| - 1], w) + [s[|s| - 1].path]
    else Changes(s[..|s| - 1], w)
  }

  function Opening(s: seq<Observation>, w: Window): seq<Path> {
    var o := LastAtOrBefore(s, w.open);
    if o.Some? then [o.value.path] else []
  }

  /** Every path the window hears of: the one in force at its opening, then the changes inside it. */
  function Heard(s: seq<Observation>, w: Window): seq<Path> { Opening(s, w) + Changes(s, w) }

  /** A list of paths with immediate repetitions left out. */
  function Collapsed(paths: seq<Path>): Trace {
    if paths == [] then Trace([]) else Collapsed(paths[..|paths| - 1]).Record(paths[|paths| - 1])
  }

  /** The trace over one window. */
  function TraceOver(w: Window, obs: seq<Observation>): Trace { Collapsed(Heard(SortByTime(obs), w)) }

  method Over(w: Window, obs: seq<Observation>) returns (trace: Trace)
    ensures trace == TraceOver(w, obs)
  {
    trace := Trace([]);
    var sorted := SortByTime(obs);
    var inForce := LastAtOrBefore(sorted, w.open);
    if inForce.Some? {
      trace := trace.Record(inForce.value.path);
    }
    ghost var opening := Opening(sorted, w);
    assert trace == Collapsed(opening + Changes(sorted[..0], w)) by {
      assert opening + [] == opening;
      assert opening != [] ==> opening[..0] == [];
    }
    for i := 0 to |sorted|
      invariant trace == Collapsed(opening + Changes(sorted[..i], w))
    {
      var o := sorted[i];
      assert sorted[..i + 1][..i] == sorted[..i];
      ghost var before := opening + Changes(sorted[..i], w);
      if w.open < o.at <= w.close {
        trace := trace.Record(o.path);
        assert opening + Changes(sorted[..i + 1], w) == before + [o.path];
        assert (before + [o.path])[..|before|] == before;
      } else {
        assert opening + Changes(sorted[..i + 1], w) == before;
      }
    }
    assert sorted[..|sorted|] == sorted;
  }

  function WindowOf(p: Option<PhaseProgress>): seq<Window> {
    if p.Some? && p.value.startedAt > 0.0 && p.value.closedAt >= p.value.startedAt
    then [Window(p.value.startedAt, p.value.closedAt)] else []
  }

  function Windows(p: Progress): seq<Window> { WindowOf(p.download) + WindowOf(p.upload) }

  predicate Quiet(traces: seq<Trace>) {
    forall k :: 0 <= k < |traces| ==> traces[k].IsAttributable()
  }

  /** The one path of every trace in turn, repetitions left out. */
  function Merged(traces: seq<Trace>): Trace
    requires Quiet(traces)
  {
    if traces == [] then Trace([])
    else
      assert traces[|traces| - 1].IsAttributable();
      Merged(traces[..|traces| - 1]).Record(traces[|traces| - 1].seen[0])
  }

  function TracesOver(ws: seq<Window>, obs: seq<Observation>): (traces: seq<Trace>)
    ensures |traces| == |ws|
  {
    seq(|ws|, k requires 0 <= k < |ws| => TraceOver(ws[k], obs))
  }

  /** The first trace from `i` on that names no single path; the number of traces if they all do. */
  function FirstNoisy(traces: seq<Trace>, i: nat): (k: nat)
    requires i <= |traces|
    ensures i <= k <= |traces|
    ensures forall j :: i <= j < k ==> traces[j].IsAttributable()
    ensures k < |traces| ==> !traces[k].IsAttributable()
    decreases |traces| - i
  {
    if i < |traces| && traces[i].IsAttributable() then FirstNoisy(traces, i + 1) else i
  }

  /** The trace of the first window that saw a change or no route, else the windows' paths in turn. */
  function Measured(traces: seq<Trace>): Trace {
    var k := FirstNoisy(traces, 0);
    if k < |traces| then traces[k] else Merged(traces)
  }

  method MergeWindows(ws: seq<Window>, obs: seq<Observation>) returns (trace: Trace)
    ensures trace == Measured(TracesOver(ws, obs))
  {
    ghost var traces := TracesOver(ws, obs);
    var merged := Trace([]);
    for i := 0 to |ws|
      invariant Quiet(traces[..i])
      invariant merged == Merged(traces[..i])
      invariant FirstNoisy(traces, 0) == FirstNoisy(traces, i)
    {
      var t := Over(ws[i], obs);
      assert t == traces[i];
      if !t.IsAttributable() {
        return t;
      }
      merged := merged.Record(t.seen[0]);
      QuietGrows(traces, i);
    }
    assert traces[..|ws|] == traces;
    return merged;
  }

  method OverMeasurement(p: Progress, obs: seq<Observation>, fallback: Trace) returns (trace: Trace)
    ensures Windows(p) == [] ==> trace == fallback
    ensures !IsMeasured(p.download) && !IsMeasured(p.upload) ==> trace == fallback
    ensures IsMeasured(p.download) || IsMeasured(p.upload) ==> (trace.IsAttributable() <==> OneRoute(p, obs))
    ensures Windows(p) != [] ==> (trace.IsAttributable() <==> Attributable(Windows(p), obs))
    ensures Windows(p) != [] ==> trace == Measured(TracesOver(Windows(p), obs))
  {
    var ws := Windows(p);
    WindowsAreMeasured(p);
    OneRouteIsAttributable(p, obs);
    if ws == [] {
      return fallback;
    }
    trace := MergeWindows(ws, obs);
    WindowsAreOrdered(p);
    VerdictIsTheRoute(ws, obs);
  }

  // ----- what it means ------------------------------------------------------------------------

  /** The newest observation at or before `t`, the later in the list among equals. */
  function Newest(obs: seq<Observation>, t: real): Option<Observation> {
    if obs == [] then None
    else
      var o, rest := obs[|obs| - 1], Newest(obs[..|obs| - 1], t);
      if o.at <= t && (rest.None? || rest.value.at <= o.at) then Some(o) else rest
  }

  /** The route in force at `t`, or None before the first observation. */
  function RouteAt(obs: seq<Observation>, t: real): Option<Path> {
    var o := Newest(obs, t);
    if o.Some? then Some(o.value.path) else None
  }

  /** The route is `p` wherever it is known in the window, and it is known somewhere in it. */
  ghost predicate SoleRoute(obs: seq<Observation>, w: Window, p: Path) {
    && (forall t: real :: w.open <= t <= w.close ==> RouteAt(obs, t) == None || RouteAt(obs, t) == Some(p))
    && (exists t: real :: w.open <= t <= w.close && RouteAt(obs, t) == Some(p))
  }

  /** No two observations made at one instant inside the window contradict each other. */
  predicate TiesAgree(obs: seq<Observation>, w: Window) {
    forall a, b :: a in obs && b in obs && Inside(a, w) && a.at == b.at ==> a.path == b.path
  }

  ghost predicate Carries(obs: seq<Observation>, ws: seq<Window>, p: Path) {
    forall k :: 0 <= k < |ws| ==> SoleRoute(obs, ws[k], p)
  }

  /** One route carried every window. */
  ghost predicate Attributable(ws: seq<Window>, obs: seq<Observation>) {
    (exists p: Path :: Carries(obs, ws, p)) && AllTiesAgree(obs, ws)
  }

  predicate AllTiesAgree(obs: seq<Observation>, ws: seq<Window>) {
    forall k :: 0 <= k < |ws| ==> TiesAgree(obs, ws[k])
  }

  // The same of the phases themselves, by the instants at which they measured.

  /** The engine reported a usable window. */
  predicate IsMeasured(phase: Option<PhaseProgress>) {
    phase.Some? && 0.0 < phase.value.startedAt <= phase.value.closedAt
  }

  /** The phase was measuring at `t`. */
  predicate Measuring(phase: Option<PhaseProgress>, t: real) {
    IsMeasured(phase) && phase.value.startedAt <= t <= phase.value.closedAt
  }

  /** Wherever the route is known while the phase measured, it is `p`, and it is known somewhere. */
  ghost predicate MeasuredOn(phase: Option<PhaseProgress>, obs: seq<Observation>, p: Path) {
    && (forall t: real :: Measuring(phase, t) ==> RouteAt(obs, t) == None || RouteAt(obs, t) == Some(p))
    && (IsMeasured(phase) ==> exists t: real :: Measuring(phase, t) && RouteAt(obs, t) == Some(p))
  }

  /** No two observations of one instant, after the phase opened and until it closed, contradict each other. */
  predicate AgreesDuring(phase: Option<PhaseProgress>, obs: seq<Observation>) {
    forall a, b :: a in obs && b in obs && a.at == b.at && Measuring(phase, a.at) && phase.value.startedAt < a.at
                   ==> a.path == b.path
  }

  /** One route carried everything that was measured. */
  ghost predicate OneRoute(p: Progress, obs: seq<Observation>) {
    && (exists path: Path :: MeasuredOn(p.download, obs, path) && MeasuredOn(p.upload, obs, path))
    && AgreesDuring(p.download, obs) && AgreesDuring(p.upload, obs)
  }

  /** The windows are those of the phases measured, download and upload alike. */
  lemma WindowsAreMeasured(p: Progress)
    ensures forall w :: w in Windows(p) <==> IsWindowOf(p.download, w) || IsWindowOf(p.upload, w)
    ensures Windows(p) == [] <==> !IsMeasured(p.download) && !IsMeasured(p.upload)
  {
  }

  predicate IsWindowOf(phase: Option<PhaseProgress>, w: Window) {
    IsMeasured(phase) && w.open == phase.value.startedAt && w.close == phase.value.closedAt
  }

  lemma PhaseIsItsWindow(phase: Option<PhaseProgress>, w: Window, obs: seq<Observation>, p: Path)
    requires IsWindowOf(phase, w)
    ensures SoleRoute(obs, w, p) <==> MeasuredOn(phase, obs, p)
    ensures TiesAgree(obs, w) <==> AgreesDuring(phase, obs)
  {
    assert forall t: real :: Measuring(phase, t) <==> w.open <= t <= w.close;
    if MeasuredOn(phase, obs, p) {
      var t :| Measuring(phase, t) && RouteAt(obs, t) == Some(p);
      assert w.open <= t <= w.close;
    }
    if SoleRoute(obs, w, p) {
      var t :| w.open <= t <= w.close && RouteAt(obs, t) == Some(p);
      assert Measuring(phase, t);
    }
  }

  lemma PhaseCarries(phase: Option<PhaseProgress>, obs: seq<Observation>, path: Path)
    ensures Carries(obs, WindowOf(phase), path) <==> MeasuredOn(phase, obs, path)
    ensures AllTiesAgree(obs, WindowOf(phase)) <==> AgreesDuring(phase, obs)
  {
    if IsMeasured(phase) {
      PhaseIsItsWindow(phase, WindowOf(phase)[0], obs, path);
    }
  }

  lemma BothWindows(obs: seq<Observation>, d: seq<Window>, u: seq<Window>, path: Path)
    ensures Carries(obs, d + u, path) <==> Carries(obs, d, path) && Carries(obs, u, path)
    ensures AllTiesAgree(obs, d + u) <==> AllTiesAgree(obs, d) && AllTiesAgree(obs, u)
  {
    assert forall k :: 0 <= k < |d| ==> (d + u)[k] == d[k];
    assert forall k :: 0 <= k < |u| ==> (d + u)[|d| + k] == u[k];
  }

  lemma OneRouteIsAttributable(p: Progress, obs: seq<Observation>)
    ensures Attributable(Windows(p), obs) <==> OneRoute(p, obs)
  {
    PhaseCarries(p.download, obs, VpnOff);
    PhaseCarries(p.upload, obs, VpnOff);
    BothWindows(obs, WindowOf(p.download), WindowOf(p.upload), VpnOff);
    forall path: Path
      ensures Carries(obs, Windows(p), path)
              <==> MeasuredOn(p.download, obs, path) && MeasuredOn(p.upload, obs, path)
    {
      PhaseCarries(p.download, obs, path);
      PhaseCarries(p.upload, obs, path);
      BothWindows(obs, WindowOf(p.download), WindowOf(p.upload), path);
    }
  }

  // ----- the sort ------------------------------------------------------------------------------

  predicate Ordered(s: seq<Observation>) { forall i, j :: 0 <= i < j < |s| ==> s[i].at <= s[j].at }

  lemma {:induction false} InsertKeeps(s: seq<Observation>, o: Observation)
    requires Ordered(s)
    ensures forall x :: x in InsertByTime(s, o) <==> x in s || x == o
    ensures Ordered(InsertByTime(s, o))
  {
    if s != [] && s[|s| - 1].at > o.at {
      var last, front := s[|s| - 1], s[..|s| - 1];
      InsertKeeps(front, o);
      assert forall x :: x in s <==> x in front || x == last;
      var inserted := InsertByTime(front, o);
      forall i | 0 <= i < |inserted| ensures inserted[i].at <= last.at {
        assert inserted[i] in inserted;
        if inserted[i] in front {
          var j :| 0 <= j < |front| && front[j] == inserted[i];
          assert s[j] == front[j];
        }
      }
    }
  }

  lemma {:induction false} InsertFinds(s: seq<Observation>, o: Observation, t: real)
    requires Ordered(s)
    ensures var before := LastAtOrBefore(s, t);
      LastAtOrBefore(InsertByTime(s, o), t)
      == if o.at <= t && (before.None? || before.value.at <= o.at) then Some(o) else before
  {
    if s == [] || s[|s| - 1].at <= o.at {
      assert (s + [o])[..|s|] == s;
      NewestInOrder(s, t);
    } else {
      var last, front := s[|s| - 1], s[..|s| - 1];
      InsertFinds(front, o, t);
      var inserted := InsertByTime(front, o);
      assert (inserted + [last])[..|inserted|] == inserted;
    }
  }

  /** The last element at or before `t` is one of the list, and none is newer. */
  lemma {:induction false} NewestInOrder(s: seq<Observation>, t: real)
    requires Ordered(s)
    ensures var o := LastAtOrBefore(s, t);
      if o.Some? then o.value in s && o.value.at <= t && forall x :: x in s && x.at <= t ==> x.at <= o.value.at
      else forall x :: x in s ==> t < x.at
  {
    if s != [] {
      NewestInOrder(s[..|s| - 1], t);
      assert forall x :: x in s <==> x in s[..|s| - 1] || x == s[|s| - 1];
    }
  }

  /** Sorting loses nothing and finds the observation in force. */
  lemma {:induction false} SortFinds(obs: seq<Observation>, t: real)
    ensures Ordered(SortByTime(obs))
    ensures forall x :: x in SortByTime(obs) <==> x in obs
    ensures LastAtOrBefore(SortByTime(obs), t) == Newest(obs, t)
  {
    if obs != [] {
      SortFinds(obs[..|obs| - 1], t);
      InsertKeeps(SortByTime(obs[..|obs| - 1]), obs[|obs| - 1]);
      InsertFinds(SortByTime(obs[..|obs| - 1]), obs[|obs| - 1], t);
      assert forall x :: x in obs <==> x in obs[..|obs| - 1] || x == obs[|obs| - 1];
    }
  }

  /** Nothing newer between two instants: the same observation is in force at both. */
  lemma {:induction false} StillInForce(s: seq<Observation>, earlier: real, t: real)
    requires earlier <= t && LastAtOrBefore(s, t).Some? && LastAtOrBefore(s, t).value.at <= earlier
    ensures LastAtOrBefore(s, earlier) == LastAtOrBefore(s, t)
  {
    if s[|s| - 1].at > t {
      StillInForce(s[..|s| - 1], earlier, t);
    }
  }

  // ----- the trace -----------------------------------------------------------------------------

  predicate AllAre(paths: seq<Path>, p: Path) { forall q :: q in paths ==> q == p }

  lemma OnePath(t: Trace)
    ensures t.IsAttributable() <==> exists p: Path :: t.Names(p)
  {
    if t.IsAttributable() {
      assert t.Names(t.seen[0]);
    }
  }

  lemma AllAreAppend(front: seq<Path>, last: Path, p: Path)
    ensures AllAre(front + [last], p) <==> AllAre(front, p) && last == p
  {
    var all := front + [last];
    assert all[|front|] in all;
    assert forall q :: q in all <==> q in front || q == last;
  }

  lemma RecordOne(t: Trace, last: Path, p: Path)
    ensures t.Record(last).Names(p) <==> last == p && (t.seen == [] || t.Names(p))
    ensures t.Record(last).seen != []
  {
  }

  /** A trace names one path exactly if that is all there was to record. */
  lemma {:induction false} CollapsedToOne(paths: seq<Path>, p: Path)
    ensures Collapsed(paths).Names(p) <==> paths != [] && AllAre(paths, p)
    ensures Collapsed(paths).seen == [] <==> paths == []
  {
    if paths != [] {
      var front, last := paths[..|paths| - 1], paths[|paths| - 1];
      CollapsedToOne(front, p);
      RecordOne(Collapsed(front), last, p);
      AllAreAppend(front, last, p);
      assert paths == front + [last];
      assert front == [] ==> AllAre(front, p);
    }
  }

  /** How often a list of paths moves on to another. */
  function Moves(paths: seq<Path>): nat {
    if |paths| < 2 then 0
    else Moves(paths[..|paths| - 1]) + (if paths[|paths| - 1] != paths[|paths| - 2] then 1 else 0)
  }

  /** A trace has one entry more than there were changes, a return to an earlier path being one. */
  lemma {:induction false} CollapsedCountsChanges(paths: seq<Path>)
    ensures paths != [] ==> |Collapsed(paths).seen| == Moves(paths) + 1
    ensures paths != [] ==> Collapsed(paths).seen[|Collapsed(paths).seen| - 1] == paths[|paths| - 1]
  {
    if |paths| > 1 {
      CollapsedCountsChanges(paths[..|paths| - 1]);
    } else if |paths| == 1 {
      assert Collapsed(paths[..0]) == Trace([]);
    }
  }

  lemma {:induction false} ChangesAre(s: seq<Observation>, w: Window)
    ensures forall p :: p in Changes(s, w) <==> exists o :: o in s && Inside(o, w) && o.path == p
  {
    if s != [] {
      var front, last := s[..|s| - 1], s[|s| - 1];
      ChangesAre(front, w);
      assert forall o :: o in s <==> o in front || o == last;
      forall p ensures p in Changes(s, w) <==> exists o :: o in s && Inside(o, w) && o.path == p {
        if Inside(last, w) && last.path == p {
          assert last in s;
        }
      }
    }
  }

  /** A path in force at some instant of the window is one the window hears of. */
  lemma RouteIsHeard(obs: seq<Observation>, w: Window, t: real)
    requires w.open <= t <= w.close && Newest(obs, t).Some?
    ensures Newest(obs, t).value.path in Heard(SortByTime(obs), w)
  {
    var s := SortByTime(obs);
    SortFinds(obs, t);
    var o := Newest(obs, t).value;
    if o.at <= w.open {
      StillInForce(s, w.open, t);
      assert Opening(s, w) == [o.path];
    } else {
      NewestInOrder(s, t);
      ChangesAre(s, w);
      assert o in s && Inside(o, w);
    }
  }

  /** Where ties agree, a path the window hears of is in force at some instant of it. */
  lemma HeardIsRoute(obs: seq<Observation>, w: Window, p: Path) returns (t: real)
    requires w.open <= w.close && TiesAgree(obs, w) && p in Heard(SortByTime(obs), w)
    ensures w.open <= t <= w.close && RouteAt(obs, t) == Some(p)
  {
    var s := SortByTime(obs);
    if p in Opening(s, w) {
      SortFinds(obs, w.open);
      t := w.open;
    } else {
      ChangesAre(s, w);
      var o :| o in s && Inside(o, w) && o.path == p;
      SortFinds(obs, o.at);
      NewestInOrder(s, o.at);
      t := o.at;
    }
  }

  /** If the window hears of one path only, that is the path of every observation inside it. */
  lemma HeardInside(w: Window, obs: seq<Observation>, o: Observation)
    requires o in obs && Inside(o, w)
    ensures o.path in Heard(SortByTime(obs), w)
  {
    SortFinds(obs, w.open);
    ChangesAre(SortByTime(obs), w);
    assert o in SortByTime(obs);
  }

  lemma TraceGivesRoute(w: Window, obs: seq<Observation>, p: Path)
    requires w.open <= w.close && TraceOver(w, obs).Names(p)
    ensures SoleRoute(obs, w, p) && TiesAgree(obs, w)
  {
    var s := SortByTime(obs);
    var heard := Heard(s, w);
    CollapsedToOne(heard, p);
    forall t: real | w.open <= t <= w.close && Newest(obs, t).Some? ensures RouteAt(obs, t) == Some(p) {
      RouteIsHeard(obs, w, t);
    }
    forall o | o in obs && Inside(o, w) ensures o.path == p {
      HeardInside(w, obs, o);
    }
    assert heard[0] in heard;
    var t := HeardIsRoute(obs, w, p);
  }

  lemma RouteGivesTrace(w: Window, obs: seq<Observation>, p: Path)
    requires w.open <= w.close && SoleRoute(obs, w, p) && TiesAgree(obs, w)
    ensures TraceOver(w, obs).Names(p)
  {
    var heard := Heard(SortByTime(obs), w);
    CollapsedToOne(heard, p);
    forall q | q in heard ensures q == p {
      var t := HeardIsRoute(obs, w, q);
    }
    var t :| w.open <= t <= w.close && RouteAt(obs, t) == Some(p);
    RouteIsHeard(obs, w, t);
  }

  /**
   One window: its trace names a single path exactly when the route takes a single value in it and no
   two observations contradict each other at one instant inside it.
   */
  lemma WindowVerdict(w: Window, obs: seq<Observation>, p: Path)
    requires w.open <= w.close
    ensures TraceOver(w, obs).Names(p) <==> SoleRoute(obs, w, p) && TiesAgree(obs, w)
  {
    if TraceOver(w, obs).Names(p) {
      TraceGivesRoute(w, obs, p);
    } else if SoleRoute(obs, w, p) && TiesAgree(obs, w) {
      RouteGivesTrace(w, obs, p);
    }
  }

  lemma {:induction false} WindowsAreOrdered(p: Progress)
    ensures forall k :: 0 <= k < |Windows(p)| ==> Windows(p)[k].open <= Windows(p)[k].close
  {
  }

  lemma QuietGrows(traces: seq<Trace>, i: nat)
    requires i < |traces| && Quiet(traces[..i]) && traces[i].IsAttributable()
    ensures Quiet(traces[..i + 1])
    ensures Merged(traces[..i + 1]) == Merged(traces[..i]).Record(traces[i].seen[0])
  {
    assert traces[..i + 1] == traces[..i] + [traces[i]];
    assert traces[..i + 1][..i] == traces[..i];
  }

  predicate AllName(traces: seq<Trace>, p: Path) { forall k :: 0 <= k < |traces| ==> traces[k].Names(p) }

  lemma AllNameAppend(front: seq<Trace>, last: Trace, p: Path)
    ensures AllName(front + [last], p) <==> AllName(front, p) && last.Names(p)
  {
    assert (front + [last])[|front|] == last;
    assert forall k :: 0 <= k < |front| ==> (front + [last])[k] == front[k];
  }

  lemma {:induction false} MergedToOne(traces: seq<Trace>, p: Path)
    requires Quiet(traces)
    ensures Merged(traces).Names(p) <==> traces != [] && AllName(traces, p)
    ensures Merged(traces).seen == [] <==> traces == []
  {
    if traces != [] {
      var front, last := traces[..|traces| - 1], traces[|traces| - 1];
      MergedToOne(front, p);
      QuietGrows(traces, |traces| - 1);
      assert traces[..|traces|] == traces;
      RecordOne(Merged(front), last.seen[0], p);
      AllNameAppend(front, last, p);
      assert traces == front + [last];
    }
  }

  /**
   All windows: each saw one path, and the same one, exactly when one route carried them all and no
   two observations contradict each other inside one.
   */
  lemma VerdictIsTheRoute(ws: seq<Window>, obs: seq<Observation>)
    requires forall k :: 0 <= k < |ws| ==> ws[k].open <= ws[k].close
    ensures Attributable(ws, obs) ==> Quiet(TracesOver(ws, obs))
    ensures Quiet(TracesOver(ws, obs)) && ws != []
            ==> (Merged(TracesOver(ws, obs)).IsAttributable() <==> Attributable(ws, obs))
  {
    var traces := TracesOver(ws, obs);
    forall p: Path, k | 0 <= k < |ws|
      ensures traces[k].Names(p) <==> SoleRoute(obs, ws[k], p) && TiesAgree(obs, ws[k])
    {
      WindowVerdict(ws[k], obs, p);
    }
    if Attributable(ws, obs) {
      var p: Path :| Carries(obs, ws, p);
      if ws != [] {
        MergedToOne(traces, p);
      }
    } else if Quiet(traces) && ws != [] && Merged(traces).IsAttributable() {
      var p := Merged(traces).seen[0];
      OnePath(Merged(traces));
      MergedToOne(traces, p);
      assert Carries(obs, ws, p);
    }
  }

  // ----- what follows --------------------------------------------------------------------------

  /** Every window's opening was observed: then the route has one single value on the windows' union. */
  lemma CoveredVerdict(ws: seq<Window>, obs: seq<Observation>)
    requires forall k :: 0 <= k < |ws| ==> ws[k].open <= ws[k].close && RouteAt(obs, ws[k].open).Some?
    requires forall k :: 0 <= k < |ws| ==> TiesAgree(obs, ws[k])
    ensures Attributable(ws, obs) <==>
      exists p: Path :: SoleValue(obs, ws, p)
  {
    if Attributable(ws, obs) {
      var p: Path :| Carries(obs, ws, p);
      forall t: real | InAny(ws, t) ensures RouteAt(obs, t) == Some(p) {
        var k :| 0 <= k < |ws| && ws[k].open <= t <= ws[k].close;
        KnownFromThenOn(obs, ws[k].open, t);
        assert SoleRoute(obs, ws[k], p);
      }
      assert SoleValue(obs, ws, p);
    }
    if p: Path :| SoleValue(obs, ws, p) {
      forall k | 0 <= k < |ws| ensures SoleRoute(obs, ws[k], p) {
        assert InAny(ws, ws[k].open);
        forall t: real | ws[k].open <= t <= ws[k].close ensures RouteAt(obs, t) == Some(p) {
          assert InAny(ws, t);
        }
      }
      assert Carries(obs, ws, p);
    }
  }

  ghost predicate InAny(ws: seq<Window>, t: real) { exists k :: 0 <= k < |ws| && ws[k].open <= t <= ws[k].close }

  /** The route is `p` at every instant of every window. */
  ghost predicate SoleValue(obs: seq<Observation>, ws: seq<Window>, p: Path) {
    forall t: real :: InAny(ws, t) ==> RouteAt(obs, t) == Some(p)
  }

  lemma {:induction false} KnownFromThenOn(obs: seq<Observation>, t: real, later: real)
    requires t <= later && RouteAt(obs, t).Some?
    ensures RouteAt(obs, later).Some?
  {
    if obs[|obs| - 1].at > t {
      KnownFromThenOn(obs[..|obs| - 1], t, later);
    }
  }

  // ----- what the trace does not depend on -----------------------------------------------------

  /** The observations inside the window, in the order of the list. */
  function InsideOf(obs: seq<Observation>, w: Window): seq<Observation> {
    if obs == [] then []
    else if Inside(obs[|obs| - 1], w) then InsideOf(obs[..|obs| - 1], w) + [obs[|obs| - 1]]
    else InsideOf(obs[..|obs| - 1], w)
  }

  lemma InsideSnoc(s: seq<Observation>, o: Observation, w: Window)
    ensures InsideOf(s + [o], w) == if Inside(o, w) then InsideOf(s, w) + [o] else InsideOf(s, w)
  {
    assert (s + [o])[..|s|] == s;
  }

  lemma SortSnoc(s: seq<Observation>, o: Observation)
    ensures SortByTime(s + [o]) == InsertByTime(SortByTime(s), o)
  {
    assert (s + [o])[..|s|] == s;
  }

  lemma InsertSnoc(s: seq<Observation>, last: Observation, o: Observation)
    ensures InsertByTime(s + [last], o) == if last.at <= o.at then s + [last] + [o] else InsertByTime(s, o) + [last]
  {
    assert (s + [last])[..|s|] == s;
  }

  lemma {:induction false} InsideConcat(a: seq<Observation>, b: seq<Observation>, w: Window)
    ensures InsideOf(a + b, w) == InsideOf(a, w) + InsideOf(b, w)
  {
    if b == [] {
      assert a + b == a;
    } else {
      var front, last := b[..|b| - 1], b[|b| - 1];
      InsideConcat(a, front, w);
      assert a + b == (a + front) + [last] && b == front + [last];
      InsideSnoc(a + front, last, w);
      InsideSnoc(front, last, w);
    }
  }

  lemma {:induction false} InsideMembers(s: seq<Observation>, w: Window)
    ensures forall o :: o in InsideOf(s, w) ==> o in s
  {
    if s != [] {
      InsideMembers(s[..|s| - 1], w);
    }
  }

  lemma NewestInside(s: seq<Observation>, o: Observation, w: Window)
    requires Ordered(s) && s != [] && s[|s| - 1].at <= o.at
    ensures InsertByTime(InsideOf(s, w), o) == InsideOf(s, w) + [o]
  {
    InsideMembers(s, w);
    var inside := InsideOf(s, w);
    if inside != [] {
      var last := inside[|inside| - 1];
      assert last in inside;
      var i :| 0 <= i < |s| && s[i] == last;
    }
  }

  /** Inserting and choosing what is inside commute. */
  predicate Commutes(s: seq<Observation>, o: Observation, w: Window) {
    InsideOf(InsertByTime(s, o), w) == if Inside(o, w) then InsertByTime(InsideOf(s, w), o) else InsideOf(s, w)
  }

  lemma CommutesAtEnd(s: seq<Observation>, o: Observation, w: Window)
    requires Ordered(s) && (s == [] || s[|s| - 1].at <= o.at)
    ensures Commutes(s, o, w)
  {
    InsideSnoc(s, o, w);
    if s != [] {
      NewestInside(s, o, w);
    }
  }

  lemma CommutesBefore(front: seq<Observation>, last: Observation, o: Observation, w: Window)
    requires o.at < last.at && Commutes(front, o, w)
    ensures Commutes(front + [last], o, w)
  {
    InsertSnoc(front, last, o);
    InsideSnoc(InsertByTime(front, o), last, w);
    InsideSnoc(front, last, w);
    InsertSnoc(InsideOf(front, w), last, o);
  }

  lemma {:induction false} InsideInsert(s: seq<Observation>, o: Observation, w: Window)
    requires Ordered(s)
    ensures Commutes(s, o, w)
  {
    if s == [] || s[|s| - 1].at <= o.at {
      CommutesAtEnd(s, o, w);
    } else {
      var front, last := s[..|s| - 1], s[|s| - 1];
      InsideInsert(front, o, w);
      CommutesBefore(front, last, o, w);
      assert s == front + [last];
    }
  }

  lemma {:induction false} InsideSort(obs: seq<Observation>, w: Window)
    ensures InsideOf(SortByTime(obs), w) == SortByTime(InsideOf(obs, w))
  {
    if obs != [] {
      var front, last := obs[..|obs| - 1], obs[|obs| - 1];
      InsideSort(front, w);
      SortFinds(front, w.open);
      InsideInsert(SortByTime(front), last, w);
      SortSnoc(InsideOf(front, w), last);
    }
  }

  lemma ChangesSnoc(s: seq<Observation>, o: Observation, w: Window)
    ensures Changes(s + [o], w) == if Inside(o, w) then Changes(s, w) + [o.path] else Changes(s, w)
  {
    assert (s + [o])[..|s|] == s;
  }

  lemma {:induction false} ChangesOfInside(s: seq<Observation>, w: Window)
    ensures Changes(s, w) == Changes(InsideOf(s, w), w)
  {
    if s != [] {
      var front, last := s[..|s| - 1], s[|s| - 1];
      ChangesOfInside(front, w);
      ChangesSnoc(InsideOf(front, w), last, w);
    }
  }

  /** The trace depends on nothing but the route at the opening and the observations inside the window. */
  lemma TraceDependsOn(w: Window, obs: seq<Observation>, obs': seq<Observation>)
    requires RouteAt(obs, w.open) == RouteAt(obs', w.open) && InsideOf(obs, w) == InsideOf(obs', w)
    ensures TraceOver(w, obs) == TraceOver(w, obs')
  {
    SortFinds(obs, w.open);
    SortFinds(obs', w.open);
    InsideSort(obs, w);
    InsideSort(obs', w);
    ChangesOfInside(SortByTime(obs), w);
    ChangesOfInside(SortByTime(obs'), w);
  }

  /** So does what the run is attributed to: nothing in the gap between the phases or outside them matters. */
  lemma OutsideDoesNotMatter(p: Progress, obs: seq<Observation>, obs': seq<Observation>)
    requires forall k :: 0 <= k < |Windows(p)| ==> SameInside(obs, obs', Windows(p)[k])
    ensures TracesOver(Windows(p), obs) == TracesOver(Windows(p), obs')
    ensures Measured(TracesOver(Windows(p), obs)) == Measured(TracesOver(Windows(p), obs'))
  {
    forall k | 0 <= k < |Windows(p)| ensures TraceOver(Windows(p)[k], obs) == TraceOver(Windows(p)[k], obs') {
      assert SameInside(obs, obs', Windows(p)[k]);
      TraceDependsOn(Windows(p)[k], obs, obs');
    }
    assert TracesOver(Windows(p), obs) == TracesOver(Windows(p), obs');
  }

  predicate SameInside(obs: seq<Observation>, obs': seq<Observation>, w: Window) {
    RouteAt(obs, w.open) == RouteAt(obs', w.open) && InsideOf(obs, w) == InsideOf(obs', w)
  }

  /** One more observation, anywhere in the list, is the newest or changes nothing. */
  lemma {:induction false} NewestWith(a: seq<Observation>, o: Observation, b: seq<Observation>, t: real)
    ensures var n, n' := Newest(a + b, t), Newest(a + [o] + b, t);
      n' == n || (o.at <= t && n' == Some(o) && (n.None? || n.value.at <= o.at))
  {
    if b == [] {
      assert a + b == a && (a + [o] + b)[..|a|] == a;
      assert a + [o] + b == a + [o];
    } else {
      var front, last := b[..|b| - 1], b[|b| - 1];
      NewestWith(a, o, front, t);
      assert (a + b)[..|a + b| - 1] == a + front;
      assert (a + [o] + b)[..|a + [o] + b| - 1] == a + [o] + front;
    }
  }

  lemma {:induction false} NewestIsNewest(obs: seq<Observation>, t: real)
    ensures var n := Newest(obs, t);
      if n.Some? then n.value in obs && n.value.at <= t && forall x :: x in obs && x.at <= t ==> x.at <= n.value.at
      else forall x :: x in obs ==> t < x.at
  {
    SortFinds(obs, t);
    NewestInOrder(SortByTime(obs), t);
  }

  /** Not inside the window, and followed by another observation before the window opens if it comes before. */
  predicate Irrelevant(o: Observation, obs: seq<Observation>, w: Window) {
    !Inside(o, w) && (o.at <= w.open ==> exists x :: x in obs && o.at < x.at <= w.open)
  }

  /** Such an observation, wherever it stands in the list, leaves the trace as it is. */
  lemma IrrelevantObservation(w: Window, a: seq<Observation>, o: Observation, b: seq<Observation>)
    requires Irrelevant(o, a + b, w)
    ensures SameInside(a + b, a + [o] + b, w) && TraceOver(w, a + [o] + b) == TraceOver(w, a + b)
  {
    NewestWith(a, o, b, w.open);
    NewestIsNewest(a + b, w.open);
    InsideWithout(a, o, b, w);
    TraceDependsOn(w, a + b, a + [o] + b);
  }

  /** Nor does it change what the whole run is attributed to, if it is irrelevant to every window. */
  lemma IrrelevantToTheRun(p: Progress, a: seq<Observation>, o: Observation, b: seq<Observation>)
    requires forall k :: 0 <= k < |Windows(p)| ==> Irrelevant(o, a + b, Windows(p)[k])
    ensures Measured(TracesOver(Windows(p), a + [o] + b)) == Measured(TracesOver(Windows(p), a + b))
  {
    forall k | 0 <= k < |Windows(p)| ensures SameInside(a + b, a + [o] + b, Windows(p)[k]) {
      IrrelevantObservation(Windows(p)[k], a, o, b);
    }
    OutsideDoesNotMatter(p, a + b, a + [o] + b);
  }

  /**
   A round trip that starts and ends while nothing is measured: the route moves at `leave` and is back at
   `back`, with no other observation between them and no window touched.
   */
  lemma RoundTripInTheGap(p: Progress, a: seq<Observation>, leave: Observation, b: seq<Observation>,
                          back: Observation, c: seq<Observation>)
    requires leave.at < back.at && RouteAt(a + b + c, leave.at) == Some(back.path)
    requires forall x :: x in a + b + c ==> x.at < leave.at || back.at < x.at
    requires forall k :: 0 <= k < |Windows(p)| ==> Windows(p)[k].close < leave.at || back.at <= Windows(p)[k].open
    ensures Measured(TracesOver(Windows(p), a + [leave] + b + [back] + c))
            == Measured(TracesOver(Windows(p), a + b + c))
  {
    var obs, obs' := a + b + c, a + [leave] + b + [back] + c;
    WindowsAreOrdered(p);
    forall k | 0 <= k < |Windows(p)| ensures SameInside(obs, obs', Windows(p)[k]) {
      TripOutside(Windows(p)[k], a, leave, b, back, c);
    }
    OutsideDoesNotMatter(p, obs, obs');
  }

  lemma NewestEarlier(obs: seq<Observation>, earlier: real, t: real)
    requires earlier <= t && Newest(obs, t).Some? && Newest(obs, t).value.at <= earlier
    ensures Newest(obs, earlier) == Newest(obs, t)
  {
    SortFinds(obs, t);
    SortFinds(obs, earlier);
    StillInForce(SortByTime(obs), earlier, t);
  }

  lemma InsideWithout(a: seq<Observation>, o: Observation, b: seq<Observation>, w: Window)
    requires !Inside(o, w)
    ensures InsideOf(a + [o] + b, w) == InsideOf(a + b, w)
  {
    InsideConcat(a, b, w);
    InsideConcat(a + [o], b, w);
    InsideSnoc(a, o, w);
  }

  lemma TripOutside(w: Window, a: seq<Observation>, leave: Observation, b: seq<Observation>,
                    back: Observation, c: seq<Observation>)
    requires w.open <= w.close && leave.at < back.at && RouteAt(a + b + c, leave.at) == Some(back.path)
    requires forall x :: x in a + b + c ==> x.at < leave.at || back.at < x.at
    requires w.close < leave.at || back.at <= w.open
    ensures SameInside(a + b + c, a + [leave] + b + [back] + c, w)
  {
    var obs, one, both := a + b + c, a + b + [back] + c, a + [leave] + b + [back] + c;
    assert one == (a + b) + [back] + c && obs == (a + b) + c;
    assert both == a + [leave] + (b + [back] + c) && one == a + (b + [back] + c);
    InsideWithout(a, leave, b + [back] + c, w);
    InsideWithout(a + b, back, c, w);
    NewestWith(a + b, back, c, w.open);
    NewestWith(a, leave, b + [back] + c, w.open);
    NewestIsNewest(one, w.open);
    assert back in one;
    if back.at <= w.open {
      NewestIsNewest(obs, w.open);
      KnownFromThenOn(obs, leave.at, w.open);
      var n := Newest(obs, w.open);
      if n.Some? && n.value.at < leave.at {
        NewestEarlier(obs, leave.at, w.open);
      }
    }
  }
  /**
   The condition on ties is needed: a route that is the VPN throughout, with a DIRECT observation
   contradicted at its own instant, is not attributed.
   */
  lemma TiesMatter()
    ensures var w := Window(1.0, 9.0);
      var obs := [Observation(0.0, ThroughVpn), Observation(5.0, DirectMode), Observation(5.0, ThroughVpn)];
      SoleRoute(obs, w, ThroughVpn) && !TraceOver(w, obs).IsAttributable()
  {
    var w := Window(1.0, 9.0);
    var a, b, c := Observation(0.0, ThroughVpn), Observation(5.0, DirectMode), Observation(5.0, ThroughVpn);
    var obs := [a, b, c];
    assert obs[..2] == [a, b] && [a, b][..1] == [a];
    forall t: real | 1.0 <= t <= 9.0 ensures RouteAt(obs, t) == Some(ThroughVpn) {
      assert Newest([a], t) == Some(a);
      assert Newest([a, b], t) == if 5.0 <= t then Some(b) else Some(a);
    }
    assert RouteAt(obs, 1.0) == Some(ThroughVpn);
    assert !TiesAgree(obs, w) by {
      assert b in obs && c in obs && Inside(b, w);
    }
    forall p: Path ensures !TraceOver(w, obs).Names(p) {
      WindowVerdict(w, obs, p);
    }
    OnePath(TraceOver(w, obs));
  }

}
