/**
 The goroutine that drains the log channel into the log file: it buffers until the file's path is known,
 then opens the file once per batch.

 A line is known by its place among the lines the channel accepted.
 */
module LogWriter {
  const PENDING_CAP: nat := 1000

  /**
   What one turn of the loop meets: whether the path is set, whether the file opens, and how many more
   lines the channel has ready for this batch.
   */
  datatype Turn = Turn(pathSet: bool, opens: bool, ready: nat)

  /** Lines consumed, and where each of them went. */
  datatype Log = Log(consumed: nat, written: seq<nat>, pending: seq<nat>, lost: seq<nat>)

  const EMPTY: Log := Log(0, [], [], [])

  function Interval(from: nat, to: nat): seq<nat>
    requires from <= to
  {
    seq(to - from, k requires 0 <= k < to - from => from + k)
  }

  /** The turn loses its own line: there is no room to keep it, or no file to write it to. */
  predicate Loses(log: Log, t: Turn) {
    if t.pathSet then !t.opens else |log.pending| >= PENDING_CAP
  }

  /** One turn, on a channel that accepts `total` lines in all; none are left once `consumed` reaches it. */
  function Turned(total: nat, log: Log, t: Turn): Log {
    if log.consumed >= total then log
    else
      var line, next := log.consumed, log.consumed + 1;
      if Loses(log, t) then log.(consumed := next, lost := log.lost + [line])
      else if !t.pathSet then log.(consumed := next, pending := log.pending + [line])
      else
        var end := if next + t.ready <= total then next + t.ready else total;
        log.(consumed := end, written := log.written + log.pending + Interval(line, end), pending := [])
  }

  function Drained(total: nat, turns: seq<Turn>): Log {
    if turns == [] then EMPTY else Turned(total, Drained(total, turns[..|turns| - 1]), turns[|turns| - 1])
  }

  /** The lines at these places. */
  function At(lines: seq<string>, places: seq<nat>): seq<string>
    requires Below(places, |lines|)
  {
    seq(|places|, k requires 0 <= k < |places| => lines[places[k]])
  }

  // ----- what every schedule keeps -------------------------------------------------------------

  predicate Increasing(places: seq<nat>) { forall i, j :: 0 <= i < j < |places| ==> places[i] < places[j] }

  predicate Below(places: seq<nat>, bound: nat) { forall k :: 0 <= k < |places| ==> places[k] < bound }

  /** Each line consumed was kept or lost, and not both. */
  predicate OneFate(log: Log) {
    forall line: nat :: line < log.consumed ==> (line in log.written + log.pending) != (line in log.lost)
  }

  /**
   Written and pending, in this order, are in the order of the channel; with the lost they are all that
   was consumed.
   */
  predicate Sound(total: nat, log: Log) {
    var kept := log.written + log.pending;
    && log.consumed <= total
    && Increasing(kept) && Increasing(log.lost)
    && Below(log.written, log.consumed) && Below(log.pending, log.consumed) && Below(log.lost, log.consumed)
    && |kept| + |log.lost| == log.consumed
    && OneFate(log)
    && |log.pending| <= PENDING_CAP
  }

  /** Increasing and below a bound, then an interval from the bound on. */
  lemma IncreasingAppend(kept: seq<nat>, from: nat, to: nat)
    requires from <= to && Increasing(kept) && Below(kept, from)
    ensures Increasing(kept + Interval(from, to)) && Below(kept + Interval(from, to), to)
  {
  }

  lemma LosingKeeps(total: nat, log: Log, t: Turn)
    requires Sound(total, log) && log.consumed < total && Loses(log, t)
    ensures Sound(total, Turned(total, log, t))
  {
    var log' := Turned(total, log, t);
    var next := log.consumed;
    assert log.lost + Interval(next, next + 1) == log'.lost;
    IncreasingAppend(log.lost, next, next + 1);
    forall line: nat | line < log'.consumed
      ensures (line in log'.written + log'.pending) != (line in log'.lost)
    {
      assert line in log'.lost <==> line in log.lost || line == next;
    }
  }

  /** What a turn that loses nothing adds to what is kept. */
  lemma TurnAdds(total: nat, log: Log, t: Turn)
    requires Sound(total, log) && log.consumed < total && !Loses(log, t)
    ensures var log' := Turned(total, log, t);
      && log.consumed < log'.consumed <= total && log'.lost == log.lost
      && log'.written + log'.pending == log.written + log.pending + Interval(log.consumed, log'.consumed)
      && Below(log'.written, log'.consumed) && Below(log'.pending, log'.consumed) && |log'.pending| <= PENDING_CAP
  {
  }

  lemma OneFateGrows(kept: seq<nat>, lost: seq<nat>, from: nat, to: nat, line: nat)
    requires from <= to && Below(kept, from) && Below(lost, from) && line < to
    requires line < from ==> (line in kept) != (line in lost)
    ensures (line in kept + Interval(from, to)) != (line in lost)
  {
    if line >= from {
      assert Interval(from, to)[line - from] == line;
    }
  }

  lemma KeepingKeeps(total: nat, log: Log, t: Turn)
    requires Sound(total, log) && log.consumed < total && !Loses(log, t)
    ensures Sound(total, Turned(total, log, t))
  {
    var log' := Turned(total, log, t);
    var kept := log.written + log.pending;
    TurnAdds(total, log, t);
    assert Below(kept, log.consumed);
    IncreasingAppend(kept, log.consumed, log'.consumed);
    forall line: nat | line < log'.consumed
      ensures (line in log'.written + log'.pending) != (line in log'.lost)
    {
      OneFateGrows(kept, log.lost, log.consumed, log'.consumed, line);
    }
  }

  lemma TurnKeeps(total: nat, log: Log, t: Turn)
    requires Sound(total, log)
    ensures Sound(total, Turned(total, log, t))
  {
    if log.consumed < total {
      if Loses(log, t) {
        LosingKeeps(total, log, t);
      } else {
        KeepingKeeps(total, log, t);
      }
    }
  }

  /**
   For every schedule, what the file holds followed by what waits is an in-order selection of the lines
   the channel accepted, and each line consumed is kept or lost, once.
   */
  lemma {:induction false} InOrder(total: nat, turns: seq<Turn>)
    ensures Sound(total, Drained(total, turns))
  {
    if turns != [] {
      InOrder(total, turns[..|turns| - 1]);
      TurnKeeps(total, Drained(total, turns[..|turns| - 1]), turns[|turns| - 1]);
    }
  }

  /** The turn at `k` loses this line. */
  predicate LostAt(total: nat, turns: seq<Turn>, k: nat, line: nat) {
    && k < |turns|
    && var before := Drained(total, turns[..k]);
       before.consumed == line < total
       && if turns[k].pathSet then !turns[k].opens else |before.pending| == 1000
  }

  /** The lines missing are exactly those that a turn found no room or no file for. */
  lemma {:induction false} LostExactly(total: nat, turns: seq<Turn>, line: nat)
    ensures line in Drained(total, turns).lost <==> exists k: nat :: LostAt(total, turns, k, line)
  {
    if turns != [] {
      var front, n := turns[..|turns| - 1], |turns| - 1;
      LostExactly(total, front, line);
      InOrder(total, front);
      forall k: nat | k < n ensures LostAt(total, turns, k, line) <==> LostAt(total, front, k, line) {
        assert front[..k] == turns[..k];
      }
      assert turns[..n] == front;
      if line in Drained(total, turns).lost && line !in Drained(total, front).lost {
        assert LostAt(total, turns, n, line);
      }
      if k: nat :| LostAt(total, turns, k, line) {
        if k < n {
          assert LostAt(total, front, k, line);
        }
      }
    }
  }

  /** A turn with the path set and a file leaves nothing waiting, and takes all the lines ready with its own. */
  lemma OpenTurnFlushes(total: nat, turns: seq<Turn>, t: Turn)
    requires t.pathSet && t.opens && Drained(total, turns).consumed < total
    ensures var before, log := Drained(total, turns), Drained(total, turns + [t]);
      && log.pending == [] && log.lost == before.lost
      && (before.consumed + 1 + t.ready >= total ==> log.consumed == total)
      && (before.consumed + 1 + t.ready <= total ==> log.consumed == before.consumed + 1 + t.ready)
      && log.written == before.written + before.pending + Interval(before.consumed, log.consumed)
  {
    assert (turns + [t])[..|turns|] == turns;
  }

  /** The turns that came before the path was known. */
  function Blind(turns: seq<Turn>): nat {
    if turns == [] then 0 else Blind(turns[..|turns| - 1]) + (if turns[|turns| - 1].pathSet then 0 else 1)
  }

  predicate AlwaysOpens(turns: seq<Turn>) { forall k :: 0 <= k < |turns| && turns[k].pathSet ==> turns[k].opens }

  /** With no failure to open and at most a thousand lines before the path is set, nothing is lost. */
  lemma {:induction false} NothingLost(total: nat, turns: seq<Turn>)
    requires Blind(turns) <= 1000 && AlwaysOpens(turns)
    ensures Drained(total, turns).lost == [] && |Drained(total, turns).pending| <= Blind(turns)
  {
    if turns != [] {
      NothingLost(total, turns[..|turns| - 1]);
    }
  }

  /** Nothing lost means that the file and what waits are the lines themselves, from the first on. */
  lemma NothingLostIsAPrefix(lines: seq<string>, turns: seq<Turn>)
    requires Blind(turns) <= 1000 && AlwaysOpens(turns)
    ensures var log := Drained(|lines|, turns);
      log.consumed <= |lines| && log.written + log.pending == Interval(0, log.consumed)
  {
    NothingLost(|lines|, turns);
    InOrder(|lines|, turns);
    var log := Drained(|lines|, turns);
    IncreasingAndFull(log.written + log.pending, log.consumed);
  }

  lemma {:induction false} IncreasingIsAhead(places: seq<nat>, k: nat)
    requires Increasing(places) && k < |places|
    ensures k <= places[k]
  {
    if k > 0 {
      IncreasingIsAhead(places, k - 1);
    }
  }

  lemma {:induction false} IncreasingIsBehind(places: seq<nat>, n: nat, k: nat)
    requires Increasing(places) && Below(places, n) && |places| == n && k < n
    ensures places[k] <= k
    decreases n - k
  {
    if k < n - 1 {
      IncreasingIsBehind(places, n, k + 1);
    }
  }

  lemma IncreasingAndFull(places: seq<nat>, n: nat)
    requires Increasing(places) && Below(places, n) && |places| == n
    ensures places == Interval(0, n)
  {
    forall k | 0 <= k < n ensures places[k] == Interval(0, n)[k] {
      IncreasingIsAhead(places, k);
      IncreasingIsBehind(places, n, k);
    }
  }

  // ----- the loop ------------------------------------------------------------------------------

  /** The file and the buffer after these turns of the loop. */
  method StartLogWriter(lines: seq<string>, turns: seq<Turn>) returns (file: seq<string>, pending: seq<string>)
    ensures Sound(|lines|, Drained(|lines|, turns))
    ensures file == At(lines, Drained(|lines|, turns).written)
    ensures pending == At(lines, Drained(|lines|, turns).pending)
  {
    file, pending := [], [];
    var consumed := 0;
    for i := 0 to |turns|
      invariant Sound(|lines|, Drained(|lines|, turns[..i]))
      invariant consumed == Drained(|lines|, turns[..i]).consumed
      invariant file == At(lines, Drained(|lines|, turns[..i]).written)
      invariant pending == At(lines, Drained(|lines|, turns[..i]).pending)
    {
      ghost var log := Drained(|lines|, turns[..i]);
      assert turns[..i + 1][..i] == turns[..i];
      InOrder(|lines|, turns[..i + 1]);
      if consumed < |lines| {
        file, pending, consumed := OneTurn(lines, turns[i], file, pending, consumed, log);
      }
    }
    assert turns[..|turns|] == turns;
  }

  lemma AtFlush(lines: seq<string>, written: seq<nat>, pending: seq<nat>, from: nat, to: nat)
    requires from <= to <= |lines| && Below(written, |lines|) && Below(pending, |lines|)
    ensures Below(written + pending + Interval(from, to), |lines|)
    ensures At(lines, written + pending + Interval(from, to))
            == At(lines, written) + At(lines, pending) + lines[from..to]
  {
  }

  /** The body of the loop. */
  method OneTurn(lines: seq<string>, t: Turn, file0: seq<string>, pending0: seq<string>, consumed0: nat, ghost log: Log)
    returns (file: seq<string>, pending: seq<string>, consumed: nat)
    requires consumed0 == log.consumed < |lines| && Below(log.written, |lines|) && Below(log.pending, |lines|)
    requires file0 == At(lines, log.written) && pending0 == At(lines, log.pending)
    ensures var log' := Turned(|lines|, log, t);
      && consumed == log'.consumed && Below(log'.written, |lines|) && Below(log'.pending, |lines|)
      && file == At(lines, log'.written) && pending == At(lines, log'.pending)
  {
    file, pending, consumed := file0, pending0, consumed0 + 1;
    var line := lines[consumed0];
    if !t.pathSet {
      if |pending| < PENDING_CAP {
        pending := pending + [line];
      }
      return;
    }
    if !t.opens {
      return;
    }
    for k := 0 to |pending|
      invariant file == file0 + pending[..k]
    {
      file := file + [pending[k]];
    }
    pending := [];
    file := file + [line];
    var ready := t.ready;
    while ready > 0 && consumed < |lines|
      invariant consumed0 < consumed <= |lines|
      invariant consumed + ready == consumed0 + 1 + t.ready
      invariant file == file0 + pending0 + lines[consumed0..consumed]
    {
      file := file + [lines[consumed]];
      consumed := consumed + 1;
      ready := ready - 1;
    }
    AtFlush(lines, log.written, log.pending, consumed0, consumed);
  }
}
