/**
 The WireGuard registry: any number of concurrent starts, attaches and stops on any number of handles.

 Each section the program runs under `tunnelsMu` is one function on the registry (`Registered`,
 `Installed`, `Unregistered`); the state machine interleaves them with the unlocked steps of the
 callers. `past` records the abstract state after every step; it is what linearizability talks about.
 */
module WireGuardRegistry {
  import opened Options

  // ----- the registry and its locked sections --------------------------------------------------

  /** A tunnel entry; `handle` is the key it was registered under. */
  datatype Entry = Entry(handle: int, device: Option<nat>)

  datatype Registry = Registry(nextId: int, tunnels: map<int, nat>, entries: seq<Entry>)

  const EMPTY: Registry := Registry(1, map[], [])

  function Registered(r: Registry, device: Option<nat>): Registry {
    Registry(r.nextId + 1, r.tunnels[r.nextId := |r.entries|], r.entries + [Entry(r.nextId, device)])
  }

  /** `tunnels[id] == entry`: the entry an attach looked up is still the one registered. */
  predicate StillRegistered(r: Registry, entry: nat) {
    entry < |r.entries| && r.entries[entry].handle in r.tunnels && r.tunnels[r.entries[entry].handle] == entry
  }

  /** The check-and-set of the install: the new registry and the code the attach will return. */
  function Installed(r: Registry, entry: nat, device: nat): (Registry, int)
    requires entry < |r.entries|
  {
    if !StillRegistered(r, entry) then (r, -7)
    else if r.entries[entry].device.Some? then (r, -2)
    else (r.(entries := r.entries[entry := r.entries[entry].(device := Some(device))]), 1)
  }

  /** The one section of the stop: unregister, then read the device the tunnel owned. */
  function Unregistered(r: Registry, handle: int): (Registry, Option<nat>) {
    (r.(tunnels := r.tunnels - {handle}),
     if handle in r.tunnels && r.tunnels[handle] < |r.entries| then r.entries[r.tunnels[handle]].device else None)
  }

  // ----- the atomic specification --------------------------------------------------------------

  datatype Tunnel = Empty | Occupied | Stopped

  type Abstract = map<int, Tunnel>

  datatype Kind = Start(ready: bool) | Attach(handle: int) | Stop(handle: int)

  /** An atomic call that answers `code`: the state after it, or None where the code is not allowed. */
  function Permit(a: Abstract, kind: Kind, code: int): Option<Abstract> {
    match kind
    case Start(ready) =>
      if code < 0 then Some(a)
      else if code !in a then Some(a[code := if ready then Occupied else Empty])
      else None
    case Stop(h) => if code == 0 then Some(if h in a then a[h := Stopped] else a) else None
    case Attach(h) =>
      if code == 1 then (if h in a && a[h] == Empty then Some(a[h := Occupied]) else None)
      else if code == -2 then (if h in a && a[h] == Occupied then Some(a) else None)
      else if code == -1 then (if h !in a || a[h] == Stopped then Some(a) else None)
      else if code == -7 then (if h in a && a[h] == Stopped then Some(a) else None)
      else if -6 <= code <= -3 then (if h in a && a[h] == Empty then Some(a) else None)
      else None
  }

  function TunnelAt(r: Registry, h: int): Tunnel {
    if h !in r.tunnels || |r.entries| <= r.tunnels[h] then Stopped
    else if r.entries[r.tunnels[h]].device.Some? then Occupied else Empty
  }

  /** Every handle ever given out, with the state of its tunnel. */
  function AbstractOf(r: Registry): Abstract {
    map h | 1 <= h < r.nextId :: TunnelAt(r, h)
  }

  // ----- the machine ---------------------------------------------------------------------------

  /** Where a call is. `at` is the step of the attach's lookup; `code` what the call will answer. */
  datatype Phase =
    | Called
    | Brought(dev: nat)
    | Looked(entry: nat, at: nat)
    | Checked(entry: nat, at: nat)
    | Made(entry: nat, at: nat, dev: nat)
    | Up(entry: nat, at: nat, dev: nat)
    | Closing(dev: nat, code: int)
    | Returning(code: int)
    | Done(code: int)

  /** A call: when it was invoked, the step it is linearized at once decided, and when it returned. */
  datatype Call = Call(kind: Kind, phase: Phase, inv: nat, lin: nat, resp: nat)

  /** `closes[d]` counts the Close calls on device `d`; one device per element. */
  datatype State = State(reg: Registry, closes: seq<nat>, calls: seq<Call>, past: seq<Abstract>)

  const INIT: State := State(EMPTY, [], [], [map[]])

  datatype Move =
    | StartErr(code: int)
    | Bring
    | UpErr(code: int)
    | Register
    | Lookup
    | Precheck
    | SetupErr(code: int)
    | Build
    | ConfigErr(code: int)
    | ConfigOk
    | Install
    | Unregister
    | Close
    | Return

  datatype Action = Invoke(kind: Kind) | Step(call: nat, move: Move)

  predicate CanMove(s: State, i: nat, m: Move)
    requires i < |s.calls|
  {
    var c := s.calls[i];
    match m
    case StartErr(code) => c.kind.Start? && c.phase.Called? && code < 0
    case Bring => c.kind.Start? && c.kind.ready && c.phase.Called?
    case UpErr(code) => c.kind.Start? && c.phase.Brought? && -4 <= code <= -3
    case Register => c.kind.Start? && (if c.kind.ready then c.phase.Brought? else c.phase.Called?)
    case Lookup => c.kind.Attach? && c.phase.Called?
    case Precheck => c.kind.Attach? && c.phase.Looked? && c.phase.entry < |s.reg.entries|
    case SetupErr(code) => c.phase.Checked? && -4 <= code <= -3
    case Build => c.phase.Checked?
    case ConfigErr(code) => c.phase.Made? && -6 <= code <= -5
    case ConfigOk => c.phase.Made?
    case Install => c.phase.Up? && c.phase.entry < |s.reg.entries|
    case Unregister => c.kind.Stop? && c.phase.Called?
    case Close => c.phase.Closing? && c.phase.dev < |s.closes|
    case Return => c.phase.Returning?
  }

  predicate Enabled(s: State, a: Action) {
    match a
    case Invoke(_) => true
    case Step(i, m) => i < |s.calls| && CanMove(s, i, m)
  }

  /** The first step from `from` on at which the tunnel was occupied (the number of steps if none was). */
  function FirstOccupied(past: seq<Abstract>, h: int, from: nat): (t: nat)
    requires from <= |past|
    ensures from <= t <= |past|
    ensures t < |past| ==> h in past[t] && past[t][h] == Occupied
    ensures forall u :: from <= u < t ==> !(h in past[u] && past[u][h] == Occupied)
    decreases |past| - from
  {
    if from == |past| then from
    else if h in past[from] && past[from][h] == Occupied then from
    else FirstOccupied(past, h, from + 1)
  }

  function NextRegistry(s: State, i: nat, m: Move): Registry
    requires i < |s.calls| && CanMove(s, i, m)
  {
    var c := s.calls[i];
    match m
    case Register => Registered(s.reg, if c.kind.ready then Some(c.phase.dev) else None)
    case Install => Installed(s.reg, c.phase.entry, c.phase.dev).0
    case Unregister => Unregistered(s.reg, c.kind.handle).0
    case _ => s.reg
  }

  function NextCloses(s: State, i: nat, m: Move): seq<nat>
    requires i < |s.calls| && CanMove(s, i, m)
  {
    match m
    case Bring => s.closes + [0]
    case Build => s.closes + [0]
    case Close => s.closes[s.calls[i].phase.dev := s.closes[s.calls[i].phase.dev] + 1]
    case _ => s.closes
  }

  function NextCall(s: State, i: nat, m: Move): Call
    requires i < |s.calls| && CanMove(s, i, m)
  {
    var c := s.calls[i];
    var now := |s.past|;
    match m
    case StartErr(code) => c.(phase := Returning(code), lin := now)
    case Bring => c.(phase := Brought(|s.closes|))
    case UpErr(code) => c.(phase := Closing(c.phase.dev, code), lin := now)
    case Register => c.(phase := Returning(s.reg.nextId), lin := now)
    case Lookup =>
      if c.kind.handle in s.reg.tunnels then c.(phase := Looked(s.reg.tunnels[c.kind.handle], now))
      else c.(phase := Returning(-1), lin := now)
    case Precheck =>
      if s.reg.entries[c.phase.entry].device.Some? then
        c.(phase := Returning(-2),
           lin := if c.phase.at <= now then FirstOccupied(s.past, c.kind.handle, c.phase.at) else now)
      else c.(phase := Checked(c.phase.entry, c.phase.at))
    case SetupErr(code) => c.(phase := Returning(code), lin := c.phase.at)
    case Build => c.(phase := Made(c.phase.entry, c.phase.at, |s.closes|))
    case ConfigErr(code) => c.(phase := Closing(c.phase.dev, code), lin := c.phase.at)
    case ConfigOk => c.(phase := Up(c.phase.entry, c.phase.at, c.phase.dev))
    case Install =>
      var code := Installed(s.reg, c.phase.entry, c.phase.dev).1;
      c.(phase := if code == 1 then Returning(1) else Closing(c.phase.dev, code), lin := now)
    case Unregister =>
      var dev := Unregistered(s.reg, c.kind.handle).1;
      c.(phase := if dev.Some? then Closing(dev.value, 0) else Returning(0), lin := now)
    case Close => c.(phase := Returning(c.phase.code))
    case Return => c.(phase := Done(c.phase.code), resp := now)
  }

  function After(s: State, a: Action): State
    requires Enabled(s, a)
  {
    match a
    case Invoke(kind) =>
      State(s.reg, s.closes, s.calls + [Call(kind, Called, |s.past|, 0, 0)], s.past + [AbstractOf(s.reg)])
    case Step(i, m) =>
      var reg := NextRegistry(s, i, m);
      State(reg, NextCloses(s, i, m), s.calls[i := NextCall(s, i, m)], s.past + [AbstractOf(reg)])
  }

  predicate Run(s: State, actions: seq<Action>)
    decreases |actions|
  {
    actions == [] || (Enabled(s, actions[0]) && Run(After(s, actions[0]), actions[1..]))
  }

  function Final(s: State, actions: seq<Action>): State
    requires Run(s, actions)
    decreases |actions|
  {
    if actions == [] then s else Final(After(s, actions[0]), actions[1..])
  }

  ghost predicate Reachable(s: State) {
    exists actions :: Run(INIT, actions) && Final(INIT, actions) == s
  }

  // ----- the registry's own invariant ----------------------------------------------------------

  ghost predicate RegistryOk(r: Registry) {
    && 1 <= r.nextId
    && (forall h :: h in r.tunnels ==> r.tunnels[h] < |r.entries| && r.entries[r.tunnels[h]].handle == h)
    && (forall e :: 0 <= e < |r.entries| ==> 1 <= r.entries[e].handle < r.nextId)
    && (forall e, f :: 0 <= e < f < |r.entries| ==> r.entries[e].handle != r.entries[f].handle)
  }

  lemma RegisteredIsStart(r: Registry, device: Option<nat>)
    requires RegistryOk(r)
    ensures RegistryOk(Registered(r, device))
    ensures Permit(AbstractOf(r), Start(device.Some?), r.nextId) == Some(AbstractOf(Registered(r, device)))
  {
    var r' := Registered(r, device);
    assert forall g :: 1 <= g < r.nextId ==> TunnelAt(r', g) == TunnelAt(r, g);
    assert AbstractOf(r') == AbstractOf(r)[r.nextId := if device.Some? then Occupied else Empty];
  }

  /** The three outcomes of the install are what the atomic attach answers on that registry. */
  lemma InstalledIsAttach(r: Registry, entry: nat, device: nat)
    requires RegistryOk(r) && entry < |r.entries|
    ensures var (r', code) := Installed(r, entry, device);
      && RegistryOk(r')
      && Permit(AbstractOf(r), Attach(r.entries[entry].handle), code) == Some(AbstractOf(r'))
      && (code == 1 <==> r' != r)
      && (code == 1 ==> AbstractOf(r')[r.entries[entry].handle] == Occupied)
  {
    if StillRegistered(r, entry) && r.entries[entry].device.None? {
      InstallOccupies(r, entry, device);
    }
  }

  /** A successful install turns one empty tunnel into an occupied one. */
  lemma InstallOccupies(r: Registry, entry: nat, device: nat)
    requires RegistryOk(r) && StillRegistered(r, entry) && r.entries[entry].device.None?
    ensures var r', h := Installed(r, entry, device).0, r.entries[entry].handle;
      && RegistryOk(r') && r' != r
      && h in AbstractOf(r) && AbstractOf(r)[h] == Empty && AbstractOf(r') == AbstractOf(r)[h := Occupied]
  {
    var r', h := Installed(r, entry, device).0, r.entries[entry].handle;
    assert r'.entries[entry].device != r.entries[entry].device;
    forall g | 1 <= g < r.nextId && g != h ensures TunnelAt(r', g) == TunnelAt(r, g) {
      assert g in r.tunnels ==> r.tunnels[g] != entry;
    }
  }

  lemma UnregisteredIsStop(r: Registry, handle: int)
    requires RegistryOk(r)
    ensures RegistryOk(Unregistered(r, handle).0)
    ensures Permit(AbstractOf(r), Stop(handle), 0) == Some(AbstractOf(Unregistered(r, handle).0))
  {
    var r' := Unregistered(r, handle).0;
    assert forall g :: 1 <= g < r.nextId && g != handle ==> TunnelAt(r', g) == TunnelAt(r, g);
    assert handle in AbstractOf(r) ==> AbstractOf(r') == AbstractOf(r)[handle := Stopped];
    assert handle !in AbstractOf(r) ==> AbstractOf(r') == AbstractOf(r);
  }

  // ----- linearization points ------------------------------------------------------------------

  predicate Decided(c: Call) { c.phase.Closing? || c.phase.Returning? || c.phase.Done? }

  function Code(c: Call): int
    requires Decided(c)
  {
    c.phase.code
  }

  /** Linearized by its own section, which may change the state: stops and successful starts and attaches. */
  predicate Prompt(c: Call)
    requires Decided(c)
  {
    match c.kind
    case Start(_) => Code(c) >= 0
    case Attach(_) => Code(c) == 1
    case Stop(_) => true
  }

  ghost predicate PastOk(s: State) {
    && RegistryOk(s.reg)
    && |s.past| > 0 && s.past[0] == map[]
    && s.past[|s.past| - 1] == AbstractOf(s.reg)
  }

  /** A decided call has a point within its interval where the atomic specification gives its answer. */
  ghost predicate PointOk(past: seq<Abstract>, c: Call) {
    Decided(c) ==>
      && 1 <= c.inv <= c.lin < |past|
      && (c.phase.Done? ==> c.lin <= c.resp < |past|)
      && (if Prompt(c) then Permit(past[c.lin - 1], c.kind, Code(c)) == Some(past[c.lin])
          else Permit(past[c.lin], c.kind, Code(c)) == Some(past[c.lin]))
  }

  predicate Preparing(p: Phase) { p.Looked? || p.Checked? || p.Made? || p.Up? }

  /** What an attach knows from its lookup on: the tunnel was live at step `at`, and empty once pre-checked. */
  ghost predicate LookupOk(s: State, c: Call) {
    && (!Decided(c) ==> 1 <= c.inv <= |s.past|)
    && (Preparing(c.phase) ==>
          && c.kind.Attach? && c.inv <= c.phase.at < |s.past|
          && c.phase.entry < |s.reg.entries| && s.reg.entries[c.phase.entry].handle == c.kind.handle
          && c.kind.handle in s.past[c.phase.at]
          && s.past[c.phase.at][c.kind.handle] != Stopped
          && (c.phase.Looked? ==> PrecheckCovered(s, c))
          && (!c.phase.Looked? ==> s.past[c.phase.at][c.kind.handle] == Empty))
  }

  /** Hindsight: a device seen at the pre-check was there at the lookup or was installed since, while registered. */
  ghost predicate PrecheckCovered(s: State, c: Call)
    requires c.kind.Attach? && c.phase.Looked? && c.phase.at < |s.past| && c.phase.entry < |s.reg.entries|
    requires c.kind.handle in s.past[c.phase.at]
  {
    if s.reg.entries[c.phase.entry].device.Some?
    then FirstOccupied(s.past, c.kind.handle, c.phase.at) < |s.past|
    else s.past[c.phase.at][c.kind.handle] == Empty
  }

  /** The state changes only at the point of a prompt call, and no two prompt calls share a point. */
  ghost predicate ChangesOk(s: State) {
    && (forall k :: 1 <= k < |s.past| ==> s.past[k] == s.past[k - 1] || HasPrompt(s.calls, k))
    && (forall i, j :: 0 <= i < j < |s.calls| && Decided(s.calls[i]) && Decided(s.calls[j])
                       && Prompt(s.calls[i]) && Prompt(s.calls[j])
                       ==> s.calls[i].lin != s.calls[j].lin)
  }

  ghost predicate HasPrompt(calls: seq<Call>, k: nat) {
    exists i :: 0 <= i < |calls| && Decided(calls[i]) && Prompt(calls[i]) && calls[i].lin == k
  }

  ghost predicate PointsOk(s: State) {
    && (forall i :: 0 <= i < |s.calls| ==> PointOk(s.past, s.calls[i]))
    && (forall i :: 0 <= i < |s.calls| ==> LookupOk(s, s.calls[i]))
    && ChangesOk(s)
  }

  /** How the registry moves under one step: an entry, once made, keeps its handle and never loses its device. */
  lemma RegistryMoves(s: State, a: Action)
    requires Enabled(s, a) && PastOk(s) && PointsOk(s)
    ensures var s' := After(s, a);
      && PastOk(s') && |s'.past| == |s.past| + 1 && s'.past[..|s.past|] == s.past
      && |s.reg.entries| <= |s'.reg.entries|
      && (forall e :: 0 <= e < |s.reg.entries| ==>
            s'.reg.entries[e].handle == s.reg.entries[e].handle
            && (s.reg.entries[e].device.Some? ==> s'.reg.entries[e].device.Some?)
            && (s'.reg.entries[e].device.Some? ==>
                  s.reg.entries[e].device.Some?
                  || (s.reg.entries[e].handle in s'.past[|s.past|]
                      && s'.past[|s.past|][s.reg.entries[e].handle] == Occupied)))
  {
    if a.Step? {
      var c := s.calls[a.call];
      assert LookupOk(s, c);
      match a.move
      case Register => RegisteredIsStart(s.reg, if c.kind.ready then Some(c.phase.dev) else None);
      case Install => InstalledIsAttach(s.reg, c.phase.entry, c.phase.dev);
      case Unregister => UnregisteredIsStop(s.reg, c.kind.handle);
      case _ =>
    }
  }

  /** The search gives the same answer on a longer past, or the newest step if that is the first. */
  lemma {:induction false} FirstOccupiedGrows(past: seq<Abstract>, a: Abstract, h: int, from: nat)
    requires from <= |past|
    ensures var t := FirstOccupied(past, h, from);
      FirstOccupied(past + [a], h, from) ==
        if t < |past| then t else if h in a && a[h] == Occupied then |past| else |past| + 1
    decreases |past| - from
  {
    if from < |past| {
      assert (past + [a])[from] == past[from];
      FirstOccupiedGrows(past, a, h, from + 1);
    }
  }

  lemma OtherLookupKept(s: State, a: Action, c: Call)
    requires Enabled(s, a) && PastOk(s) && PointsOk(s) && LookupOk(s, c)
    ensures LookupOk(After(s, a), c)
  {
    var s' := After(s, a);
    RegistryMoves(s, a);
    if Preparing(c.phase) {
      assert s'.past[c.phase.at] == s.past[c.phase.at];
      if c.phase.Looked? {
        var now := s'.past[|s.past|];
        assert s'.past == s.past + [now];
        FirstOccupiedGrows(s.past, now, c.kind.handle, c.phase.at);
      }
    }
  }

  lemma OwnLookupKept(s: State, i: nat, m: Move)
    requires Enabled(s, Step(i, m)) && PastOk(s) && PointsOk(s)
    ensures LookupOk(After(s, Step(i, m)), NextCall(s, i, m))
  {
    var s' := After(s, Step(i, m));
    var c := s.calls[i];
    var c' := NextCall(s, i, m);
    RegistryMoves(s, Step(i, m));
    assert LookupOk(s, c);
    if Preparing(c'.phase) && m.Lookup? {
      var now := s'.past[|s.past|];
      assert now == AbstractOf(s.reg);
      assert c'.phase.at == |s.past|;
    } else if Preparing(c'.phase) {
      assert s'.past[c.phase.at] == s.past[c.phase.at];
    }
  }

  /** The moves that answer from a locked section: their point is the section itself. */
  lemma SectionPoint(s: State, i: nat, m: Move)
    requires Enabled(s, Step(i, m)) && PastOk(s) && LookupOk(s, s.calls[i])
    requires m.Register? || m.Install? || m.Unregister?
    ensures var c := NextCall(s, i, m);
      Decided(c) && c.lin == |s.past|
      && Permit(AbstractOf(s.reg), c.kind, Code(c)) == Some(AbstractOf(NextRegistry(s, i, m)))
      && (Prompt(c) || AbstractOf(NextRegistry(s, i, m)) == AbstractOf(s.reg))
  {
    var c := s.calls[i];
    match m
    case Register => RegisteredIsStart(s.reg, if c.kind.ready then Some(c.phase.dev) else None);
    case Install => InstalledIsAttach(s.reg, c.phase.entry, c.phase.dev);
    case Unregister => UnregisteredIsStop(s.reg, c.kind.handle);
  }

  lemma OwnPointKept(s: State, i: nat, m: Move)
    requires Enabled(s, Step(i, m)) && PastOk(s) && PointsOk(s)
    ensures PointOk(After(s, Step(i, m)).past, NextCall(s, i, m))
  {
    var c := s.calls[i];
    var past' := After(s, Step(i, m)).past;
    assert LookupOk(s, c) && PointOk(s.past, c);
    if m.Register? || m.Install? || m.Unregister? {
      SectionPoint(s, i, m);
      assert past'[|s.past| - 1] == AbstractOf(s.reg) && past'[|s.past|] == AbstractOf(NextRegistry(s, i, m));
    } else {
      assert NextRegistry(s, i, m) == s.reg;
      OtherPoint(s, i, m, past');
    }
  }

  lemma OtherPoint(s: State, i: nat, m: Move, past': seq<Abstract>)
    requires Enabled(s, Step(i, m)) && PastOk(s) && !m.Register? && !m.Install? && !m.Unregister?
    requires LookupOk(s, s.calls[i]) && PointOk(s.past, s.calls[i])
    requires past' == s.past + [AbstractOf(s.reg)]
    ensures PointOk(past', NextCall(s, i, m))
  {
    assert forall k :: 0 <= k < |s.past| ==> past'[k] == s.past[k];
  }

  /** Only a prompt decision changes the abstract state. */
  lemma OwnChange(s: State, i: nat, m: Move)
    requires Enabled(s, Step(i, m)) && PastOk(s) && PointsOk(s)
    ensures var c, c' := s.calls[i], NextCall(s, i, m);
      && (Decided(c) ==> Decided(c') && c'.lin == c.lin && (Prompt(c) <==> Prompt(c')))
      && (Decided(c') && !Decided(c) && Prompt(c') ==> c'.lin == |s.past|)
      && ((Decided(c') && !Decided(c) && Prompt(c')) || AbstractOf(NextRegistry(s, i, m)) == AbstractOf(s.reg))
  {
    var c := s.calls[i];
    assert LookupOk(s, c);
    if m.Install? {
      InstalledIsAttach(s.reg, c.phase.entry, c.phase.dev);
    }
  }

  /** A step leaves the decisions already taken as they are, and takes at most one new prompt one, now. */
  lemma DecisionsStay(s: State, a: Action)
    requires Enabled(s, a) && PastOk(s) && PointsOk(s)
    ensures var s' := After(s, a);
      && |s.calls| <= |s'.calls|
      && (forall i :: 0 <= i < |s.calls| && Decided(s.calls[i]) ==>
            Decided(s'.calls[i]) && s'.calls[i].lin == s.calls[i].lin < |s.past|
            && (Prompt(s'.calls[i]) <==> Prompt(s.calls[i])))
      && (forall i :: 0 <= i < |s'.calls| && Decided(s'.calls[i]) && Prompt(s'.calls[i]) ==>
            (i < |s.calls| && Decided(s.calls[i])) || (a == Step(i, a.move) && s'.calls[i].lin == |s.past|))
  {
    if a.Step? {
      OwnChange(s, a.call, a.move);
    }
    assert forall i :: 0 <= i < |s.calls| ==> PointOk(s.past, s.calls[i]);
  }

  /** A change of the abstract state still has its prompt call after the step, or this step is it. */
  lemma ChangeHasPrompt(s: State, a: Action, k: nat)
    requires Enabled(s, a) && PastOk(s) && PointsOk(s) && 1 <= k <= |s.past|
    ensures var s' := After(s, a); s'.past[k] == s'.past[k - 1] || HasPrompt(s'.calls, k)
  {
    var s' := After(s, a);
    DecisionsStay(s, a);
    if k == |s.past| {
      if a.Step? {
        OwnChange(s, a.call, a.move);
      }
    } else if s.past[k] != s.past[k - 1] {
      var i :| 0 <= i < |s.calls| && Decided(s.calls[i]) && Prompt(s.calls[i]) && s.calls[i].lin == k;
      assert Decided(s'.calls[i]);
    }
  }

  lemma ChangesKept(s: State, a: Action)
    requires Enabled(s, a) && PastOk(s) && PointsOk(s)
    ensures ChangesOk(After(s, a))
  {
    var s' := After(s, a);
    DecisionsStay(s, a);
    forall k | 1 <= k < |s'.past| ensures s'.past[k] == s'.past[k - 1] || HasPrompt(s'.calls, k) {
      ChangeHasPrompt(s, a, k);
    }
  }

  lemma PointsKept(s: State, a: Action)
    requires Enabled(s, a) && PastOk(s) && PointsOk(s)
    ensures PastOk(After(s, a)) && PointsOk(After(s, a))
  {
    var s' := After(s, a);
    RegistryMoves(s, a);
    ChangesKept(s, a);
    forall i | 0 <= i < |s'.calls|
      ensures PointOk(s'.past, s'.calls[i]) && LookupOk(s', s'.calls[i])
    {
      if a.Step? && a.call == i {
        OwnPointKept(s, i, a.move);
        OwnLookupKept(s, i, a.move);
      } else if i < |s.calls| {
        assert PointOk(s.past, s.calls[i]);
        assert forall k :: 0 <= k < |s.past| ==> s'.past[k] == s.past[k];
        OtherLookupKept(s, a, s.calls[i]);
      }
    }
  }

  // ----- the linearization ---------------------------------------------------------------------

  /** The decided calls from `i` on whose point is step `k`, prompt ones or the others. */
  function At(calls: seq<Call>, k: nat, prompt: bool, i: nat): seq<nat>
    requires i <= |calls|
    decreases |calls| - i
  {
    if i == |calls| then []
    else
      var rest := At(calls, k, prompt, i + 1);
      if Decided(calls[i]) && calls[i].lin == k && Prompt(calls[i]) == prompt then [i] + rest else rest
  }

  /** All decided calls with a point up to step `k`, by step, the prompt one of each step first. */
  function Order(calls: seq<Call>, k: nat): seq<nat> {
    if k == 0 then [] else Order(calls, k - 1) + At(calls, k, true, 0) + At(calls, k, false, 0)
  }

  ghost predicate AllDecided(calls: seq<Call>, order: seq<nat>) {
    forall a :: 0 <= a < |order| ==> order[a] < |calls| && Decided(calls[order[a]])
  }

  /** The atomic specification run over the calls in the given order, each answering what it answered. */
  ghost function Replay(calls: seq<Call>, order: seq<nat>, a: Abstract): Option<Abstract>
    requires AllDecided(calls, order)
    decreases |order|
  {
    if order == [] then Some(a)
    else match Permit(a, calls[order[0]].kind, Code(calls[order[0]]))
         case None => None
         case Some(b) => Replay(calls, order[1..], b)
  }

  predicate Apart(o: seq<nat>) { forall a, b :: 0 <= a < b < |o| ==> o[a] != o[b] }

  /** A call that returned before another was invoked comes before it. */
  ghost predicate RealTime(s: State, order: seq<nat>) {
    forall a, b :: 0 <= a < b < |order| && order[a] < |s.calls| && order[b] < |s.calls|
                   && s.calls[order[b]].phase.Done? ==>
      !(s.calls[order[b]].resp < s.calls[order[a]].inv)
  }

  /** `order` is a sequential history equivalent to the concurrent one. */
  ghost predicate Linearization(s: State, order: seq<nat>) {
    // it orders decided calls, each once, and leaves out no call that returned
    && AllDecided(s.calls, order)
    && Apart(order)
    && (forall x :: 0 <= x < |s.calls| && s.calls[x].phase.Done? ==> x in order)
    // the atomic specification gives every call the answer it gave, and ends where the program is
    && Replay(s.calls, order, map[]) == Some(AbstractOf(s.reg))
    && RealTime(s, order)
  }

  predicate HasPoint(calls: seq<Call>, x: nat, k: nat, prompt: bool) {
    x < |calls| && Decided(calls[x]) && Prompt(calls[x]) == prompt && calls[x].lin == k
  }

  lemma {:induction false} AtMembers(calls: seq<Call>, k: nat, prompt: bool, i: nat)
    requires i <= |calls|
    ensures forall x :: x in At(calls, k, prompt, i) ==> i <= x && HasPoint(calls, x, k, prompt)
    decreases |calls| - i
  {
    if i < |calls| {
      AtMembers(calls, k, prompt, i + 1);
    }
  }

  lemma ConsApart(x: nat, o: seq<nat>)
    requires x !in o && Apart(o)
    ensures Apart([x] + o)
  {
    forall a, b | 0 <= a < b < |o| + 1 ensures ([x] + o)[a] != ([x] + o)[b] {
      assert ([x] + o)[b] == o[b - 1];
    }
  }

  lemma {:induction false} AtDistinct(calls: seq<Call>, k: nat, prompt: bool, i: nat)
    requires i <= |calls|
    ensures Apart(At(calls, k, prompt, i))
    decreases |calls| - i
  {
    if i < |calls| {
      AtDistinct(calls, k, prompt, i + 1);
      AtMembers(calls, k, prompt, i + 1);
      ConsApart(i, At(calls, k, prompt, i + 1));
    }
  }

  lemma AtIsRight(calls: seq<Call>, k: nat, prompt: bool)
    ensures var o := At(calls, k, prompt, 0);
      && AllDecided(calls, o)
      && (forall a :: 0 <= a < |o| ==> Prompt(calls[o[a]]) == prompt && calls[o[a]].lin == k)
      && (forall a, b :: 0 <= a < b < |o| ==> o[a] != o[b])
  {
    var o := At(calls, k, prompt, 0);
    AtMembers(calls, k, prompt, 0);
    AtDistinct(calls, k, prompt, 0);
    forall a | 0 <= a < |o| ensures HasPoint(calls, o[a], k, prompt) {
      assert o[a] in o;
    }
  }

  lemma {:induction false} AtIsComplete(calls: seq<Call>, k: nat, prompt: bool, i: nat, x: nat)
    requires i <= x < |calls| && Decided(calls[x]) && Prompt(calls[x]) == prompt && calls[x].lin == k
    ensures x in At(calls, k, prompt, i)
    decreases |calls| - i
  {
    if i < x {
      AtIsComplete(calls, k, prompt, i + 1, x);
    }
  }

  /** Sorted by point, without repetition, all points up to `k`. */
  ghost predicate ByPoint(calls: seq<Call>, o: seq<nat>, k: nat) {
    && AllDecided(calls, o)
    && (forall a :: 0 <= a < |o| ==> calls[o[a]].lin <= k)
    && (forall a, b :: 0 <= a < b < |o| ==> o[a] != o[b] && calls[o[a]].lin <= calls[o[b]].lin)
  }

  lemma ByPointGrows(calls: seq<Call>, o: seq<nat>, p: seq<nat>, k: nat)
    requires ByPoint(calls, o, k) && AllDecided(calls, p)
    requires forall a :: 0 <= a < |p| ==> calls[p[a]].lin == k && p[a] !in o
    requires forall a, b :: 0 <= a < b < |p| ==> p[a] != p[b]
    ensures ByPoint(calls, o + p, k)
  {
  }

  lemma SortedStep(calls: seq<Call>, o: seq<nat>, p: seq<nat>, q: seq<nat>, k: nat)
    requires k > 0 && ByPoint(calls, o, k - 1) && AllDecided(calls, p) && AllDecided(calls, q)
    requires forall a :: 0 <= a < |p| ==> calls[p[a]].lin == k && Prompt(calls[p[a]])
    requires forall a :: 0 <= a < |q| ==> calls[q[a]].lin == k && !Prompt(calls[q[a]])
    requires forall a, b :: 0 <= a < b < |p| ==> p[a] != p[b]
    requires forall a, b :: 0 <= a < b < |q| ==> q[a] != q[b]
    ensures ByPoint(calls, o + p + q, k)
  {
    ByPointGrows(calls, o, p, k);
    forall a | 0 <= a < |q| ensures q[a] !in o && q[a] !in p {
    }
    ByPointGrows(calls, o + p, q, k);
  }

  lemma {:induction false} OrderIsSorted(calls: seq<Call>, k: nat)
    ensures ByPoint(calls, Order(calls, k), k)
  {
    if k > 0 {
      OrderIsSorted(calls, k - 1);
      AtIsRight(calls, k, true);
      AtIsRight(calls, k, false);
      SortedStep(calls, Order(calls, k - 1), At(calls, k, true, 0), At(calls, k, false, 0), k);
    }
  }

  lemma {:induction false} OrderIsComplete(calls: seq<Call>, k: nat, x: nat)
    requires x < |calls| && Decided(calls[x]) && 1 <= calls[x].lin <= k
    ensures x in Order(calls, k)
  {
    if calls[x].lin < k {
      OrderIsComplete(calls, k - 1, x);
    } else {
      AtIsComplete(calls, k, Prompt(calls[x]), 0, x);
    }
  }

  lemma {:induction false} ReplayAppend(calls: seq<Call>, o: seq<nat>, p: seq<nat>, a: Abstract)
    requires AllDecided(calls, o) && AllDecided(calls, p) && Replay(calls, o, a).Some?
    ensures Replay(calls, o + p, a) == Replay(calls, p, Replay(calls, o, a).value)
    decreases |o|
  {
    if o == [] {
      assert o + p == p;
    } else {
      assert (o + p)[1..] == o[1..] + p;
      ReplayAppend(calls, o[1..], p, Permit(a, calls[o[0]].kind, Code(calls[o[0]])).value);
    }
  }

  /** The calls that change nothing are all allowed at their step. */
  lemma {:induction false} ReplayQuiet(s: State, q: seq<nat>, k: nat)
    requires PointsOk(s) && k < |s.past|
    requires AllDecided(s.calls, q)
    requires forall a :: 0 <= a < |q| ==> !Prompt(s.calls[q[a]]) && s.calls[q[a]].lin == k
    ensures Replay(s.calls, q, s.past[k]) == Some(s.past[k])
    decreases |q|
  {
    if q != [] {
      assert PointOk(s.past, s.calls[q[0]]);
      ReplayQuiet(s, q[1..], k);
    }
  }

  lemma OnePrompt(s: State, p: seq<nat>, k: nat, b: nat)
    requires ChangesOk(s) && AllDecided(s.calls, p) && b < |p|
    requires forall a :: 0 <= a < |p| ==> Prompt(s.calls[p[a]]) && s.calls[p[a]].lin == k
    requires forall a, b :: 0 <= a < b < |p| ==> p[a] != p[b]
    ensures b == 0
  {
    assert s.calls[p[0]].lin == s.calls[p[b]].lin;
  }

  /** The one prompt call of a step, if there is one, takes the state from the step before. */
  lemma ReplayPrompt(s: State, p: seq<nat>, k: nat)
    requires PointsOk(s) && 1 <= k < |s.past|
    requires AllDecided(s.calls, p)
    requires forall a :: 0 <= a < |p| ==> Prompt(s.calls[p[a]]) && s.calls[p[a]].lin == k
    requires forall a, b :: 0 <= a < b < |p| ==> p[a] != p[b]
    requires forall x :: 0 <= x < |s.calls| && Decided(s.calls[x]) && Prompt(s.calls[x]) && s.calls[x].lin == k
               ==> x in p
    ensures Replay(s.calls, p, s.past[k - 1]) == Some(s.past[k])
  {
    if p == [] {
      assert !HasPrompt(s.calls, k);
    } else {
      assert PointOk(s.past, s.calls[p[0]]);
      OnePrompt(s, p, k, |p| - 1);
      assert p[1..] == [];
    }
  }

  lemma {:induction false} ReplayOrder(s: State, k: nat)
    requires PointsOk(s) && k < |s.past| && s.past[0] == map[]
    ensures AllDecided(s.calls, Order(s.calls, k))
    ensures Replay(s.calls, Order(s.calls, k), map[]) == Some(s.past[k])
  {
    if k > 0 {
      ReplayOrder(s, k - 1);
      ReplayStep(s, k);
      ReplayThree(s.calls, Order(s.calls, k - 1), At(s.calls, k, true, 0), At(s.calls, k, false, 0),
                  s.past[k - 1], s.past[k]);
    }
  }

  lemma ReplayStep(s: State, k: nat)
    requires PointsOk(s) && 1 <= k < |s.past|
    ensures AllDecided(s.calls, At(s.calls, k, true, 0)) && AllDecided(s.calls, At(s.calls, k, false, 0))
    ensures Replay(s.calls, At(s.calls, k, true, 0), s.past[k - 1]) == Some(s.past[k])
    ensures Replay(s.calls, At(s.calls, k, false, 0), s.past[k]) == Some(s.past[k])
  {
    AtIsRight(s.calls, k, true);
    AtIsRight(s.calls, k, false);
    forall x: nat | x < |s.calls| && Decided(s.calls[x]) && Prompt(s.calls[x]) && s.calls[x].lin == k
      ensures x in At(s.calls, k, true, 0)
    {
      AtIsComplete(s.calls, k, true, 0, x);
    }
    ReplayPrompt(s, At(s.calls, k, true, 0), k);
    ReplayQuiet(s, At(s.calls, k, false, 0), k);
  }

  lemma ReplayThree(calls: seq<Call>, o: seq<nat>, p: seq<nat>, q: seq<nat>, a: Abstract, b: Abstract)
    requires AllDecided(calls, o) && AllDecided(calls, p) && AllDecided(calls, q)
    requires Replay(calls, o, map[]) == Some(a) && Replay(calls, p, a) == Some(b) && Replay(calls, q, b) == Some(b)
    ensures AllDecided(calls, o + p + q) && Replay(calls, o + p + q, map[]) == Some(b)
  {
    ReplayAppend(calls, o, p, map[]);
    ReplayAppend(calls, o + p, q, map[]);
  }

  lemma {:induction false} PointsHold(s: State, actions: seq<Action>)
    requires PastOk(s) && PointsOk(s) && Run(s, actions)
    ensures PastOk(Final(s, actions)) && PointsOk(Final(s, actions))
    decreases |actions|
  {
    if actions != [] {
      PointsKept(s, actions[0]);
      PointsHold(After(s, actions[0]), actions[1..]);
    }
  }

  lemma PointsReached(s: State)
    requires Reachable(s)
    ensures PastOk(s) && PointsOk(s)
  {
    var actions :| Run(INIT, actions) && Final(INIT, actions) == s;
    assert AbstractOf(EMPTY) == map[];
    PointsHold(INIT, actions);
  }

  /** An order by point that has every returned call respects real time. */
  lemma OrderIsRealTime(s: State, order: seq<nat>, k: nat)
    requires ByPoint(s.calls, order, k) && forall i :: 0 <= i < |s.calls| ==> PointOk(s.past, s.calls[i])
    ensures RealTime(s, order)
  {
    forall a, b | 0 <= a < b < |order| && s.calls[order[b]].phase.Done?
      ensures !(s.calls[order[b]].resp < s.calls[order[a]].inv)
    {
      assert PointOk(s.past, s.calls[order[a]]) && PointOk(s.past, s.calls[order[b]]);
      assert s.calls[order[a]].lin <= s.calls[order[b]].lin;
    }
  }

  lemma OrderHasAll(s: State, k: nat)
    requires k == |s.past| - 1 && forall i :: 0 <= i < |s.calls| ==> PointOk(s.past, s.calls[i])
    ensures forall x: nat :: x < |s.calls| && s.calls[x].phase.Done? ==> x in Order(s.calls, k)
  {
    forall x: nat | x < |s.calls| && s.calls[x].phase.Done? ensures x in Order(s.calls, k) {
      assert PointOk(s.past, s.calls[x]);
      OrderIsComplete(s.calls, k, x);
    }
  }

  lemma OrderLinearizes(s: State)
    requires PastOk(s) && PointsOk(s)
    ensures Linearization(s, Order(s.calls, |s.past| - 1))
  {
    var last: nat := |s.past| - 1;
    OrderIsSorted(s.calls, last);
    ReplayOrder(s, last);
    OrderHasAll(s, last);
    OrderIsRealTime(s, Order(s.calls, last), last);
  }

  /**
   Every concurrent history of starts, attaches and stops is linearizable: the calls that returned,
   with those already decided, can be put in one order that respects real time and in which the
   atomic specification gives each of them the answer it gave.
   */
  lemma Linearizable(s: State)
    requires Reachable(s)
    ensures exists order :: Linearization(s, order)
  {
    PointsReached(s);
    OrderLinearizes(s);
  }

  // ----- who closes a device -------------------------------------------------------------------

  /** A device belongs to the call that has it in hand, or to the registered entry it is installed in. */
  datatype Owner = ByCall(call: nat) | ByTunnel(entry: nat)

  predicate Owns(s: State, o: Owner, d: nat) {
    match o
    case ByCall(i) =>
      && i < |s.calls|
      && (s.calls[i].phase.Brought? || s.calls[i].phase.Made? || s.calls[i].phase.Up? || s.calls[i].phase.Closing?)
      && s.calls[i].phase.dev == d
    case ByTunnel(e) => StillRegistered(s.reg, e) && s.reg.entries[e].device == Some(d)
  }

  ghost predicate OwnersOk(s: State) {
    && (forall o, d: nat :: Owns(s, o, d) ==> d < |s.closes| && s.closes[d] == 0)
    && (forall o, p, d: nat :: Owns(s, o, d) && Owns(s, p, d) ==> o == p)
    && (forall d :: 0 <= d < |s.closes| ==> s.closes[d] == 1 || (s.closes[d] == 0 && exists o :: Owns(s, o, d)))
  }

  /** The owner of `d` after a step, given the owner before it. */
  function Heir(s: State, a: Action, o: Owner): Owner
    requires Enabled(s, a)
  {
    if a.Step? && a.move.Register? && o == ByCall(a.call) then ByTunnel(|s.reg.entries|)
    else if a.Step? && a.move.Install? && o == ByCall(a.call)
            && Installed(s.reg, s.calls[a.call].phase.entry, s.calls[a.call].phase.dev).1 == 1
    then ByTunnel(s.calls[a.call].phase.entry)
    else if a.Step? && a.move.Unregister? && o.ByTunnel? && o.entry < |s.reg.entries|
            && s.reg.entries[o.entry].handle == s.calls[a.call].kind.handle
    then ByCall(a.call)
    else o
  }

  /** A device just closed has no owner. */
  lemma ClosedHasNoOwner(s: State, a: Action, o: Owner, d: nat)
    requires Enabled(s, a) && OwnersOk(s) && Owns(After(s, a), o, d)
    ensures !(a.Step? && a.move.Close? && s.calls[a.call].phase.dev == d)
  {
    if a.Step? && a.move.Close? && s.calls[a.call].phase.dev == d {
      assert Owns(s, ByCall(a.call), d);
      assert Owns(s, o, d);
    }
  }

  /** Ownership only ever passes on: whoever owns a device now owned it or got it from its owner. */
  lemma OwnershipPasses(s: State, a: Action, o: Owner, d: nat)
    requires Enabled(s, a) && RegistryOk(s.reg) && OwnersOk(s) && Owns(After(s, a), o, d)
    ensures (exists p :: Owns(s, p, d) && Heir(s, a, p) == o)
            || (a.Step? && (a.move.Bring? || a.move.Build?) && o == ByCall(a.call) && d == |s.closes|)
    ensures !(a.Step? && a.move.Close? && s.calls[a.call].phase.dev == d)
  {
    ClosedHasNoOwner(s, a, o, d);
    if !(a.Step? && (a.move.Bring? || a.move.Build?) && o == ByCall(a.call)) {
      var p := Giver(s, a, o);
      match o {
        case ByCall(i) => CallWasGiven(s, a, i, d);
        case ByTunnel(e) => TunnelWasGiven(s, a, e, d);
      }
      assert Owns(s, p, d) && Heir(s, a, p) == o;
    }
  }

  /** Who owned before the step what `o` owns after it. */
  function Giver(s: State, a: Action, o: Owner): Owner
    requires Enabled(s, a)
  {
    if a.Step? && a.move.Register? && o == ByTunnel(|s.reg.entries|) then ByCall(a.call)
    else if a.Step? && a.move.Install? && After(s, a).reg != s.reg && o == ByTunnel(s.calls[a.call].phase.entry)
    then ByCall(a.call)
    else if a.Step? && a.move.Unregister? && o == ByCall(a.call) && s.calls[a.call].kind.handle in s.reg.tunnels
    then ByTunnel(s.reg.tunnels[s.calls[a.call].kind.handle])
    else o
  }

  lemma TunnelWasGiven(s: State, a: Action, e: nat, d: nat)
    requires Enabled(s, a) && RegistryOk(s.reg) && Owns(After(s, a), ByTunnel(e), d)
    ensures Owns(s, Giver(s, a, ByTunnel(e)), d) && Heir(s, a, Giver(s, a, ByTunnel(e))) == ByTunnel(e)
  {
  }

  lemma CallWasGiven(s: State, a: Action, i: nat, d: nat)
    requires Enabled(s, a) && RegistryOk(s.reg) && Owns(After(s, a), ByCall(i), d)
    requires !(a.Step? && (a.move.Bring? || a.move.Build?) && a.call == i)
    ensures Owns(s, Giver(s, a, ByCall(i)), d) && Heir(s, a, Giver(s, a, ByCall(i))) == ByCall(i)
  {
  }

  lemma HeirOfTunnel(s: State, a: Action, e: nat, d: nat)
    requires Enabled(s, a) && RegistryOk(s.reg) && OwnersOk(s) && Owns(s, ByTunnel(e), d)
    ensures Owns(After(s, a), Heir(s, a, ByTunnel(e)), d)
  {
  }

  lemma HeirOfCall(s: State, a: Action, i: nat, d: nat)
    requires Enabled(s, a) && RegistryOk(s.reg) && OwnersOk(s) && Owns(s, ByCall(i), d)
    requires !(a.Step? && a.move.Close? && i == a.call)
    ensures Owns(After(s, a), Heir(s, a, ByCall(i)), d)
  {
  }

  lemma HeirOwns(s: State, a: Action, o: Owner, d: nat)
    requires Enabled(s, a) && RegistryOk(s.reg) && OwnersOk(s) && Owns(s, o, d)
    requires !(a.Step? && a.move.Close? && o == ByCall(a.call))
    ensures Owns(After(s, a), Heir(s, a, o), d)
  {
    match o
    case ByCall(i) => HeirOfCall(s, a, i, d);
    case ByTunnel(e) => HeirOfTunnel(s, a, e, d);
  }

  lemma OwnersKept(s: State, a: Action)
    requires Enabled(s, a) && RegistryOk(s.reg) && OwnersOk(s)
    ensures OwnersOk(After(s, a))
  {
    var s' := After(s, a);
    forall o, d: nat | Owns(s', o, d)
      ensures d < |s'.closes| && s'.closes[d] == 0
    {
      OwnershipPasses(s, a, o, d);
    }
    forall o, p, d: nat | Owns(s', o, d) && Owns(s', p, d)
      ensures o == p
    {
      OwnershipPasses(s, a, o, d);
      OwnershipPasses(s, a, p, d);
    }
    forall d | 0 <= d < |s'.closes|
      ensures s'.closes[d] == 1 || (s'.closes[d] == 0 && exists o :: Owns(s', o, d))
    {
      if d == |s.closes| {
        assert Owns(s', ByCall(a.call), d);
      } else if a.Step? && a.move.Close? && s.calls[a.call].phase.dev == d {
        assert Owns(s, ByCall(a.call), d);
      } else if s.closes[d] == 0 {
        var o :| Owns(s, o, d);
        HeirOwns(s, a, o, d);
      }
    }
  }

  lemma {:induction false} OwnersHold(s: State, actions: seq<Action>)
    requires PastOk(s) && PointsOk(s) && OwnersOk(s) && Run(s, actions)
    ensures OwnersOk(Final(s, actions))
    decreases |actions|
  {
    if actions != [] {
      PointsKept(s, actions[0]);
      OwnersKept(s, actions[0]);
      OwnersHold(After(s, actions[0]), actions[1..]);
    }
  }

  /**
   In every reachable state each device ever built has exactly one owner (the attach building or
   refusing it, the registered tunnel, or the stop that took it) and is not closed, or has none and
   was closed exactly once.
   */
  lemma OneOwnerOrClosedOnce(s: State, d: nat)
    requires Reachable(s) && d < |s.closes|
    ensures s.closes[d] <= 1
    ensures s.closes[d] == 0 <==> exists o :: Owns(s, o, d)
    ensures forall o, p :: Owns(s, o, d) && Owns(s, p, d) ==> o == p
  {
    var actions :| Run(INIT, actions) && Final(INIT, actions) == s;
    assert AbstractOf(EMPTY) == map[];
    OwnersHold(INIT, actions);
  }

  /** Once every call has returned no device is leaked: it serves a registered tunnel or was closed once. */
  lemma NothingLeaks(s: State, d: nat)
    requires Reachable(s) && d < |s.closes|
    requires forall i :: 0 <= i < |s.calls| ==> s.calls[i].phase.Done?
    ensures s.closes[d] == 1 || exists e: nat :: StillRegistered(s.reg, e) && s.reg.entries[e].device == Some(d)
  {
    OneOwnerOrClosedOnce(s, d);
    if s.closes[d] == 0 {
      var o :| Owns(s, o, d);
      assert o.ByTunnel?;
      assert StillRegistered(s.reg, o.entry) && s.reg.entries[o.entry].device == Some(d);
    }
  }
}
