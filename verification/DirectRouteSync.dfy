/**
 The bookkeeping of DIRECT mode: what the profile wants, what the routes are, and the one apply that may
 be running. The driver around it, with its callers and its queue, is in DirectDriver.
 */
module DirectRouteSync {
  import opened Options

  const MAX_ATTEMPTS: nat := 3

  datatype Sync = Sync(desired: bool, applied: bool, inFlight: Option<bool>, attempts: nat)

  function Fresh(applied: bool): Sync { Sync(applied, applied, None, 0) }

  /** Starts an apply if one is warranted. */
  function Started(s: Sync): (Sync, Option<bool>) {
    if s.desired == s.applied then (s.(attempts := 0), None)
    else if s.attempts < MAX_ATTEMPTS
    then (s.(attempts := s.attempts + 1, inFlight := Some(s.desired)), Some(s.desired))
    else (s, None)
  }

  function Intended(s: Sync, value: bool): (Sync, Option<bool>) {
    var s' := s.(desired := value, attempts := 0);
    if s.inFlight.Some? then (s', None) else Started(s')
  }

  function Completed(s: Sync, ok: bool): (Sync, Option<bool>) {
    if s.inFlight.None? then (s, None)
    else
      var s' := s.(inFlight := None);
      Started(if ok then s'.(applied := s.inFlight.value, attempts := 0) else s')
  }

  predicate IsSettled(s: Sync) { s.inFlight.None? && s.desired == s.applied }

  predicate IsStuck(s: Sync) { s.inFlight.None? && s.desired != s.applied && s.attempts >= MAX_ATTEMPTS }

  class DirectRouteSync {
    var desired: bool
    var applied: bool
    var inFlight: Option<bool>
    var attempts: nat

    function View(): Sync
      reads this
    {
      Sync(desired, applied, inFlight, attempts)
    }

    constructor (applied: bool)
      ensures View() == Fresh(applied)
    {
      this.desired, this.applied, inFlight, attempts := applied, applied, None, 0;
    }

    method Intend(value: bool) returns (start: Option<bool>)
      modifies this
      ensures (View(), start) == Intended(old(View()), value)
    {
      desired := value;
      attempts := 0;
      if inFlight.Some? {
        return None;
      }
      start := StartIfNeeded();
    }

    method Finish(ok: bool) returns (next: Option<bool>)
      modifies this
      ensures (View(), next) == Completed(old(View()), ok)
    {
      if inFlight.None? {
        return None;
      }
      var value := inFlight.value;
      inFlight := None;
      if ok {
        applied := value;
        attempts := 0;
      }
      next := StartIfNeeded();
    }

    method StartIfNeeded() returns (start: Option<bool>)
      modifies this
      ensures (View(), start) == Started(old(View()))
    {
      if desired == applied {
        attempts := 0;
        return None;
      }
      if attempts >= MAX_ATTEMPTS {
        return None;
      }
      attempts := attempts + 1;
      inFlight := Some(desired);
      return inFlight;
    }
  }

  // ----- what every run keeps ------------------------------------------------------------------

  /**
   The machine rests only settled or stuck. What is being applied is never what is already applied, and
   an apply that is no longer wanted has a fresh attempt budget behind it.
   */
  predicate Sound(s: Sync) {
    && s.attempts <= MAX_ATTEMPTS
    && (s.inFlight.None? ==> IsSettled(s) || IsStuck(s))
    && (IsSettled(s) ==> s.attempts == 0)
    && (s.inFlight.Some? ==> s.inFlight.value != s.applied)
    && (s.inFlight.Some? && s.inFlight.value != s.desired ==> s.attempts == 0)
  }

  /** The completions still possible if nothing new is intended. */
  function Budget(s: Sync): nat {
    if s.inFlight.None? || s.attempts > MAX_ATTEMPTS then 0 else MAX_ATTEMPTS + 1 - s.attempts
  }

  datatype Call = Intend(value: bool) | Finish(ok: bool)

  function After(s: Sync, c: Call): Sync {
    match c
    case Intend(v) => Intended(s, v).0
    case Finish(ok) => Completed(s, ok).0
  }

  function Run(s: Sync, calls: seq<Call>): Sync {
    if calls == [] then s else After(Run(s, calls[..|calls| - 1]), calls[|calls| - 1])
  }

  /** The value that the last successful completion of the run applied. */
  function LastApplied(initial: bool, calls: seq<Call>): bool {
    if calls == [] then initial
    else
      var before, c := calls[..|calls| - 1], calls[|calls| - 1];
      var s := Run(Fresh(initial), before);
      if c == Finish(true) && s.inFlight.Some? then s.inFlight.value else LastApplied(initial, before)
  }

  /** The value last intended in the run. */
  function LastIntent(initial: bool, calls: seq<Call>): bool {
    if calls == [] then initial
    else
      var c := calls[|calls| - 1];
      if c.Intend? then c.value else LastIntent(initial, calls[..|calls| - 1])
  }

  /**
   After any run of intents and completions: the machine is sound, so no unmet intent is left undriven
   with budget to spare; `desired` is the last intent; `applied` is the last success and nothing else.
   */
  lemma {:induction false} NeverUndriven(initial: bool, calls: seq<Call>)
    ensures var s := Run(Fresh(initial), calls);
      && Sound(s)
      && s.desired == LastIntent(initial, calls)
      && s.applied == LastApplied(initial, calls)
  {
    if calls != [] {
      NeverUndriven(initial, calls[..|calls| - 1]);
    }
  }

  /** Every completion of a running apply spends budget, whatever its outcome. */
  lemma CompletionSpends(s: Sync, ok: bool)
    requires Sound(s) && s.inFlight.Some?
    ensures Sound(Completed(s, ok).0) && Budget(Completed(s, ok).0) < Budget(s) <= MAX_ATTEMPTS + 1
    ensures Completed(s, ok).0.desired == s.desired
  {
  }

  function Completions(s: Sync, oks: seq<bool>): Sync
    decreases |oks|
  {
    if oks == [] then s else Completions(Completed(s, oks[0]).0, oks[1..])
  }

  /**
   With no new intent, one completion more than the attempts is enough to come to rest, and rest means
   the last intent is in force or its attempts are spent.
   */
  lemma {:induction false} ComesToRest(s: Sync, oks: seq<bool>)
    requires Sound(s) && |oks| >= Budget(s)
    ensures var s' := Completions(s, oks); s'.desired == s.desired && (IsSettled(s') || IsStuck(s'))
    decreases |oks|
  {
    if oks != [] {
      if s.inFlight.Some? {
        CompletionSpends(s, oks[0]);
      }
      ComesToRest(Completed(s, oks[0]).0, oks[1..]);
    }
  }

  /** A new intent, even the same again on a stuck machine, is in force already or being driven with fresh attempts. */
  lemma IntentIsDriven(s: Sync, value: bool)
    requires Sound(s)
    ensures var s' := Intended(s, value).0;
      Sound(s') && s'.desired == value && (IsSettled(s') || s'.inFlight.Some?)
    ensures s.inFlight.None? && value != s.applied
            ==> Intended(s, value).1 == Some(value) && Intended(s, value).0.attempts == 1
  {
  }

  /** A completion leaves an unmet intent undriven exactly if it is the third failure for it. */
  lemma StuckExactly(s: Sync, ok: bool)
    requires Sound(s) && s.inFlight.Some?
    ensures IsStuck(Completed(s, ok).0) <==> !ok && s.desired != s.applied && s.attempts == MAX_ATTEMPTS
  {
  }

  /** Some outcome from `from` up to `to` is a success. */
  predicate Succeeds(oks: seq<bool>, from: nat, to: nat) { exists i :: from <= i < to && i < |oks| && oks[i] }

  lemma SucceedsLater(oks: seq<bool>, from: nat, to: nat)
    requires oks != []
    ensures Succeeds(oks, from + 1, to + 1) <==> Succeeds(oks[1..], from, to)
    ensures Succeeds(oks, 0, to + 1) <==> oks[0] || Succeeds(oks[1..], 0, to)
  {
    if i :| from <= i < to && i < |oks[1..]| && oks[1..][i] {
      assert oks[i + 1];
    }
    if i :| from + 1 <= i < to + 1 && i < |oks| && oks[i] {
      assert oks[1..][i - 1];
    }
    if i :| 0 <= i < to && i < |oks[1..]| && oks[1..][i] {
      assert oks[i + 1];
    }
    if i :| 0 <= i < to + 1 && i < |oks| && oks[i] && i > 0 {
      assert oks[1..][i - 1];
    }
  }

  /** An apply that is wanted ends settled exactly if one of the completions its budget allows succeeds. */
  lemma {:induction false} WantedSettles(s: Sync, oks: seq<bool>)
    requires Sound(s) && s.inFlight == Some(s.desired) && |oks| >= Budget(s)
    ensures IsSettled(Completions(s, oks)) <==> Succeeds(oks, 0, Budget(s))
    decreases |oks|
  {
    var s' := Completed(s, oks[0]).0;
    SucceedsLater(oks, 0, Budget(s) - 1);
    if s'.inFlight.None? {
      SettledStays(s', oks[1..]);
    } else {
      WantedSettles(s', oks[1..]);
    }
  }

  /**
   With no new intent the machine ends settled, and not stuck, exactly if: for an apply that is wanted,
   one of the completions its budget allows succeeds; for one no longer wanted, it fails, or one of the
   three attempts to take it back succeeds.
   */
  lemma SettlesExactly(s: Sync, oks: seq<bool>)
    requires Sound(s) && s.inFlight.Some? && |oks| >= Budget(s)
    ensures IsSettled(Completions(s, oks)) <==>
      if s.inFlight.value == s.desired then Succeeds(oks, 0, Budget(s))
      else !oks[0] || Succeeds(oks, 1, MAX_ATTEMPTS + 1)
    ensures IsStuck(Completions(s, oks)) <==> !IsSettled(Completions(s, oks))
  {
    ComesToRest(s, oks);
    if s.inFlight.value == s.desired {
      WantedSettles(s, oks);
    } else {
      var s' := Completed(s, oks[0]).0;
      SucceedsLater(oks, 0, MAX_ATTEMPTS);
      if oks[0] {
        WantedSettles(s', oks[1..]);
      } else {
        SettledStays(s', oks[1..]);
      }
    }
  }

  /** If the applies succeed, the last intent wins, in two completions at most. */
  lemma LastIntentWins(s: Sync, oks: seq<bool>)
    requires Sound(s) && s.inFlight.Some? && |oks| >= 2 && oks[0] && oks[1]
    ensures IsSettled(Completions(s, oks)) && Completions(s, oks).applied == s.desired
  {
    var s2 := Completed(Completed(s, true).0, true).0;
    assert Completions(s, oks) == Completions(s2, oks[1..][1..]);
    SettledStays(s2, oks[1..][1..]);
  }

  lemma {:induction false} SettledStays(s: Sync, oks: seq<bool>)
    requires s.inFlight.None?
    ensures Completions(s, oks) == s
    decreases |oks|
  {
    if oks != [] {
      SettledStays(s, oks[1..]);
    }
  }

  /** The bound is tight: an intent repeated while its apply runs can take all four completions. */
  lemma BoundIsTight()
    ensures var s := Run(Fresh(false), [Intend(true), Intend(true)]);
      Completions(s, [false, false, false]).inFlight.Some? && IsStuck(Completions(s, [false, false, false, false]))
  {
    assert [Intend(true), Intend(true)][..1] == [Intend(true)] && [Intend(true)][..0] == [];
    assert Run(Fresh(false), []) == Fresh(false);
    assert Run(Fresh(false), [Intend(true)]) == Sync(true, false, Some(true), 1);
    var s := Run(Fresh(false), [Intend(true), Intend(true)]);
    assert s == Sync(true, false, Some(true), 0);
    var s1, s2, s3 := s.(attempts := 1), s.(attempts := 2), s.(attempts := 3);
    var f := false;
    assert [f, f, f][1..] == [f, f] && [f, f][1..] == [f] && [f, f, f, f][1..] == [f, f, f];
    assert Completions(s3, []) == s3 && Completions(s2, [f]) == s3 && Completions(s1, [f, f]) == s3;
    assert Completions(s3, [f]) == s3.(inFlight := None);
    assert Completions(s2, [f, f]) == Completions(s3, [f]);
    assert Completions(s1, [f, f, f]) == Completions(s2, [f, f]);
  }
}
