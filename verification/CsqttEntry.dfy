/**
 One csqtt tunnel entry: its start goroutine against any number of stops, attaches and failures.

 The question is who closes what the others built. The client is published under `clientMu`, the
 device installed under `devMu`; neither lock covers the cancel, so the checks inside the sections
 are separate actions here and the cancel may fall between a check and the store that follows it.
 Every timeout is a free choice.
 */
module CsqttEntry {
  import opened Options

  // ----- state ---------------------------------------------------------------------------------

  /** The start goroutine. `Checking` and `Committed` are inside publishClient, with `clientMu` held. */
  datatype Dialer = Dialing | Returned | Checking | Committed | Refused | Finishing | Over

  /** A stop. `saw` tells that its wait ended because `dialed` was closed, not by the budget. */
  datatype Stop =
    | StopCalled
    | Cancelling
    | Waiting
    | Joined(saw: bool)
    | ClosingClient(saw: bool)
    | ReadingDevice(saw: bool)
    | ClosingDevice(saw: bool, dev: nat)
    | StartingWait(saw: bool)
    | JoiningPumps(saw: bool)
    | Stopped(saw: bool)
    | NotMine

  /** An attach; from `Locked` to `Unlocking` it holds `devMu`. */
  datatype Attach =
    | AttachCalled
    | Found
    | Ready
    | Locked
    | NotCancelled
    | NoDevice
    | Opened(dev: nat)
    | Installed
    | Unlocking(code: int)
    | Attached(code: int)

  /** `taker` is the stop that found the handle registered, once one has; `waiting`: it waits for the pumps. */
  datatype State = State(
    registered: bool, cancelled: bool, failed: bool,
    dialer: Dialer, built: bool, client: bool, clientCloses: nat,
    stops: seq<Stop>, taker: Option<nat>,
    attaches: seq<Attach>, devMu: Option<nat>, dev: Option<nat>, devCloses: seq<nat>,
    pumps: nat, waiting: bool)

  const INIT: State :=
    State(true, false, false, Dialing, false, false, 0, [], None, [], None, None, [], 0, false)

  /** `e.dialed` is closed by the goroutine's deferred close, after everything else it does. */
  predicate Dialed(s: State) { s.dialer.Over? }

  predicate ClientMuFree(s: State) { !s.dialer.Checking? && !s.dialer.Committed? }

  // ----- actions -------------------------------------------------------------------------------

  datatype DialMove = GiveUp | DialErr | DialOk | LockClient | CheckCancel | Store | CloseRefused | CloseDialed

  datatype StopMove =
    | Take | Cancel | SeeDialed | Timeout | ReadClient | CloseClient | ReadDevice | CloseDevice | StartWait | Leave

  datatype AttachMove =
    | Lookup | NeedClient | LockDevice | CheckStop | CheckDevice
    | OpenErr(code: int) | OpenOk | Install | AddPumps | Unlock

  datatype Action =
    | Fail                            // any terminal failure: e.fail sets the error and cancels
    | PumpExit
    | NewStop
    | NewAttach
    | Dial(d: DialMove)
    | DoStop(stop: nat, sm: StopMove)
    | DoAttach(att: nat, am: AttachMove)

  predicate CanDial(s: State, m: DialMove) {
    match m
    case GiveUp => s.dialer.Dialing? && s.cancelled
    case DialErr => s.dialer.Dialing?
    case DialOk => s.dialer.Dialing?
    case LockClient => s.dialer.Returned?
    case CheckCancel => s.dialer.Checking?
    case Store => s.dialer.Committed?
    case CloseRefused => s.dialer.Refused?
    case CloseDialed => s.dialer.Finishing?
  }

  predicate CanStop(s: State, i: nat, m: StopMove)
    requires i < |s.stops|
  {
    var p := s.stops[i];
    match m
    case Take => p.StopCalled?
    case Cancel => p.Cancelling?
    case SeeDialed => p.Waiting? && Dialed(s)
    case Timeout => p.Waiting?
    case ReadClient => p.Joined? && ClientMuFree(s)
    case CloseClient => p.ClosingClient?
    case ReadDevice => p.ReadingDevice? && s.devMu.None?
    case CloseDevice => p.ClosingDevice? && p.dev < |s.devCloses|
    case StartWait => p.StartingWait?
    case Leave => p.JoiningPumps?
  }

  predicate CanAttach(s: State, i: nat, m: AttachMove)
    requires i < |s.attaches|
  {
    var p := s.attaches[i];
    match m
    case Lookup => p.AttachCalled?
    case NeedClient => p.Found? && ClientMuFree(s)
    case LockDevice => p.Ready? && s.devMu.None?
    case CheckStop => p.Locked?
    case CheckDevice => p.NotCancelled?
    case OpenErr(code) => p.NoDevice? && -4 <= code <= -3
    case OpenOk => p.NoDevice?
    case Install => p.Opened?
    case AddPumps => p.Installed?
    case Unlock => p.Unlocking?
  }

  predicate Enabled(s: State, a: Action) {
    match a
    case Fail => true
    case PumpExit => s.pumps > 0
    case NewStop => true
    case NewAttach => true
    case Dial(m) => CanDial(s, m)
    case DoStop(i, m) => i < |s.stops| && CanStop(s, i, m)
    case DoAttach(i, m) => i < |s.attaches| && CanAttach(s, i, m)
  }

  function DialNext(s: State, m: DialMove): State
    requires CanDial(s, m)
  {
    match m
    case GiveUp => s.(dialer := Finishing)
    case DialErr => s.(dialer := Finishing, failed := true, cancelled := true)
    case DialOk => s.(dialer := Returned, built := true)
    case LockClient => s.(dialer := Checking)
    case CheckCancel => s.(dialer := if s.cancelled then Refused else Committed)
    case Store => s.(dialer := Finishing, client := true)
    case CloseRefused => s.(dialer := Finishing, clientCloses := s.clientCloses + 1)
    case CloseDialed => s.(dialer := Over)
  }

  function StopPhase(s: State, i: nat, m: StopMove): Stop
    requires i < |s.stops| && CanStop(s, i, m)
  {
    var p := s.stops[i];
    match m
    case Take => if s.registered then Cancelling else NotMine
    case Cancel => Waiting
    case SeeDialed => Joined(true)
    case Timeout => Joined(false)
    case ReadClient => if s.client then ClosingClient(p.saw) else ReadingDevice(p.saw)
    case CloseClient => ReadingDevice(p.saw)
    case ReadDevice => if s.dev.Some? then ClosingDevice(p.saw, s.dev.value) else StartingWait(p.saw)
    case CloseDevice => StartingWait(p.saw)
    case StartWait => JoiningPumps(p.saw)
    case Leave => Stopped(p.saw)
  }

  function StopNext(s: State, i: nat, m: StopMove): State
    requires i < |s.stops| && CanStop(s, i, m)
  {
    s.(stops := s.stops[i := StopPhase(s, i, m)],
       registered := s.registered && !m.Take?,
       taker := if m.Take? && s.registered then Some(i) else s.taker,
       cancelled := s.cancelled || m.Cancel?,
       clientCloses := if m.CloseClient? then s.clientCloses + 1 else s.clientCloses,
       devCloses :=
         if m.CloseDevice? then s.devCloses[s.stops[i].dev := s.devCloses[s.stops[i].dev] + 1] else s.devCloses,
       waiting := s.waiting || m.StartWait?)
  }

  function AttachPhase(s: State, i: nat, m: AttachMove): Attach
    requires i < |s.attaches| && CanAttach(s, i, m)
  {
    match m
    case Lookup => if s.registered then Found else Attached(-1)
    case NeedClient => if s.client then Ready else Attached(-2)
    case LockDevice => Locked
    case CheckStop => if s.cancelled then Unlocking(-2) else NotCancelled
    case CheckDevice => if s.dev.Some? then Unlocking(-2) else NoDevice
    case OpenErr(code) => Unlocking(code)
    case OpenOk => Opened(|s.devCloses|)
    case Install => Installed
    case AddPumps => Unlocking(1)
    case Unlock => Attached(s.attaches[i].code)
  }

  function AttachNext(s: State, i: nat, m: AttachMove): State
    requires i < |s.attaches| && CanAttach(s, i, m)
  {
    s.(attaches := s.attaches[i := AttachPhase(s, i, m)],
       devMu := if m.LockDevice? then Some(i) else if m.Unlock? then None else s.devMu,
       dev := if m.Install? then Some(s.attaches[i].dev) else s.dev,
       devCloses := if m.OpenOk? then s.devCloses + [0] else s.devCloses,
       pumps := if m.AddPumps? then s.pumps + 3 else s.pumps)
  }

  /** The actions of everybody but the stops and the attaches. */
  function OuterNext(s: State, a: Action): State
    requires Enabled(s, a) && !a.DoStop? && !a.DoAttach?
  {
    match a
    case Fail => s.(failed := true, cancelled := true)
    case PumpExit => s.(pumps := s.pumps - 1)
    case NewStop => s.(stops := s.stops + [StopCalled])
    case NewAttach => s.(attaches := s.attaches + [AttachCalled])
    case Dial(m) => DialNext(s, m)
  }

  function After(s: State, a: Action): State
    requires Enabled(s, a)
  {
    match a
    case DoStop(i, m) => StopNext(s, i, m)
    case DoAttach(i, m) => AttachNext(s, i, m)
    case _ => OuterNext(s, a)
  }

  predicate Run(s: State, actions: seq<Action>)
    decreases |actions|
  {
    actions == [] || (Enabled(s, actions[0]) && Run(After(s, actions[0]), actions[1..]))
  }

  function Final(s: State, actions: seq<Action>): State
    requires Run(s, actions)
    decreases |actions|
  {
    if actions == [] then s else Final(After(s, actions[0]), actions[1..])
  }

  ghost predicate Reachable(s: State) {
    exists actions :: Run(INIT, actions) && Final(INIT, actions) == s
  }

  // ----- the invariant -------------------------------------------------------------------------

  /** The stop found the handle registered. */
  predicate Effective(p: Stop) { !p.StopCalled? && !p.NotMine? }

  predicate HasCancelled(p: Stop) { Effective(p) && !p.Cancelling? }

  predicate HasReadClient(p: Stop) { HasCancelled(p) && !p.Waiting? && !p.Joined? }

  predicate HasClosedClient(p: Stop) { HasReadClient(p) && !p.ClosingClient? }

  predicate HasReadDevice(p: Stop) { p.ClosingDevice? || p.StartingWait? || p.JoiningPumps? || p.Stopped? }

  predicate HasClosedDevice(p: Stop) { HasReadDevice(p) && !p.ClosingDevice? }

  predicate SawDialed(p: Stop) { HasCancelled(p) && !p.Waiting? && p.saw }

  /** Where the one effective stop is. */
  function Taken(s: State): Stop {
    if s.taker.Some? && s.taker.value < |s.stops| then s.stops[s.taker.value] else StopCalled
  }

  /** One stop at most takes the handle, and it takes it off the registry. */
  ghost predicate StopsOk(s: State) {
    && (forall i :: 0 <= i < |s.stops| ==> (Effective(s.stops[i]) <==> s.taker == Some(i)))
    && (s.taker.Some? ==> s.taker.value < |s.stops| && !s.registered)
    && (HasCancelled(Taken(s)) ==> s.cancelled)
    && (SawDialed(Taken(s)) ==> Dialed(s))
    && (s.waiting ==> HasClosedDevice(Taken(s)))
  }

  /** The goroutine has the client in its hands: not published, not closed. */
  predicate InHand(d: Dialer) { d.Returned? || d.Checking? || d.Committed? || d.Refused? }

  /** Where the client the dial returned is: in the goroutine's hands, published, or closed. */
  ghost predicate ClientOk(s: State) {
    && (s.dialer.Dialing? ==> !s.built)
    && (InHand(s.dialer) ==> s.built && !s.client && s.clientCloses == 0)
    && (s.client ==> s.built && (s.dialer.Finishing? || s.dialer.Over?))
    && (!s.built ==> s.clientCloses == 0)
    && (s.dialer.Committed? ==> !HasReadClient(Taken(s)))
    && (s.built && !s.client && !InHand(s.dialer) ==> s.clientCloses == 1)
    && (s.client ==> s.clientCloses == if HasClosedClient(Taken(s)) then 1 else 0)
    && (Taken(s).ClosingClient? ==> s.client)
  }

  predicate HoldsDevMu(p: Attach) {
    p.Locked? || p.NotCancelled? || p.NoDevice? || p.Opened? || p.Installed? || p.Unlocking?
  }

  /** Past the check of the cancel, and not yet done. */
  predicate Committing(p: Attach) { p.NotCancelled? || p.NoDevice? || p.Opened? || p.Installed? }

  /** Where the attach that holds `devMu` is. */
  function Holder(s: State): Attach {
    if s.devMu.Some? && s.devMu.value < |s.attaches| then s.attaches[s.devMu.value] else AttachCalled
  }

  ghost predicate LockOk(s: State) {
    && (forall i :: 0 <= i < |s.attaches| ==> (HoldsDevMu(s.attaches[i]) <==> s.devMu == Some(i)))
    && (s.devMu.Some? ==> s.devMu.value < |s.attaches|)
  }

  ghost predicate DeviceOk(s: State) {
    && (HasReadDevice(Taken(s)) ==> !Committing(Holder(s)))
    && (Holder(s).NoDevice? ==> s.dev.None?)
    && (Holder(s).Opened? ==> Holder(s).dev == 0 && s.devCloses == [0] && s.dev.None?)
    && (s.dev.None? && !Holder(s).Opened? ==> s.devCloses == [])
    && (s.dev.Some? ==> s.dev.value == 0 && s.devCloses == [if HasClosedDevice(Taken(s)) then 1 else 0])
    && (Taken(s).ClosingDevice? ==> s.dev == Some(Taken(s).dev))
  }

  ghost predicate Inv(s: State) { StopsOk(s) && ClientOk(s) && LockOk(s) && DeviceOk(s) }

  // ----- every action keeps it -----------------------------------------------------------------

  lemma StopsKeptByStop(s: State, i: nat, m: StopMove)
    requires Enabled(s, DoStop(i, m)) && StopsOk(s)
    ensures StopsOk(StopNext(s, i, m))
  {
    TakenMoves(s, i, m);
    var s' := StopNext(s, i, m);
    assert forall j :: 0 <= j < |s.stops| && j != i ==> s'.stops[j] == s.stops[j];
  }

  /** What the goroutine, a failure, a pump and a newcomer leave alone. */
  ghost predicate Outside(s: State, s': State) {
    && s'.registered == s.registered && s'.taker == s.taker && s'.waiting == s.waiting
    && s'.devMu == s.devMu && s'.dev == s.dev && s'.devCloses == s.devCloses
    && s.stops <= s'.stops && (forall i :: |s.stops| <= i < |s'.stops| ==> s'.stops[i] == StopCalled)
    && s.attaches <= s'.attaches && (forall i :: |s.attaches| <= i < |s'.attaches| ==> s'.attaches[i] == AttachCalled)
    && (s.cancelled ==> s'.cancelled) && (Dialed(s) ==> Dialed(s'))
  }

  lemma IsOutside(s: State, a: Action)
    requires Enabled(s, a) && !a.DoStop? && !a.DoAttach?
    ensures Outside(s, OuterNext(s, a))
  {
    match a
    case Dial(m) => DialIsOutside(s, m);
    case NewStop =>
      assert Outside(s, s.(stops := s.stops + [StopCalled]));
    case NewAttach =>
      assert Outside(s, s.(attaches := s.attaches + [AttachCalled]));
    case Fail =>
    case PumpExit =>
  }

  lemma DialIsOutside(s: State, m: DialMove)
    requires CanDial(s, m)
    ensures Outside(s, DialNext(s, m))
  {
    var s' := DialNext(s, m);
    assert s'.stops == s.stops && s'.attaches == s.attaches;
  }

  lemma OutsideKeepsStops(s: State, s': State)
    requires Outside(s, s') && StopsOk(s)
    ensures StopsOk(s') && Taken(s') == Taken(s)
  {
  }

  lemma OutsideKeepsLock(s: State, s': State)
    requires Outside(s, s') && LockOk(s)
    ensures LockOk(s') && Holder(s') == Holder(s)
  {
  }

  lemma StopsKept(s: State, a: Action)
    requires Enabled(s, a) && StopsOk(s)
    ensures StopsOk(After(s, a))
  {
    match a
    case DoStop(i, m) => StopsKeptByStop(s, i, m);
    case DoAttach(i, m) =>
    case _ =>
      IsOutside(s, a);
      OutsideKeepsStops(s, After(s, a));
  }

  /** A step of a stop that never took the handle leaves the effective one where it is. */
  lemma TakenMoves(s: State, i: nat, m: StopMove)
    requires Enabled(s, DoStop(i, m)) && StopsOk(s)
    ensures var s' := StopNext(s, i, m);
      if m.Take? then
        if s.registered then s.taker.None? && s'.taker == Some(i) && Taken(s').Cancelling?
        else s'.taker == s.taker && Taken(s') == Taken(s)
      else s.taker == s'.taker == Some(i) && Taken(s) == s.stops[i] && Taken(s') == StopPhase(s, i, m)
  {
    assert Effective(s.stops[i]) <==> s.taker == Some(i);
  }

  lemma ClientKeptByStop(s: State, i: nat, m: StopMove)
    requires Enabled(s, DoStop(i, m)) && StopsOk(s) && ClientOk(s)
    ensures ClientOk(StopNext(s, i, m))
  {
    TakenMoves(s, i, m);
  }

  lemma ClientKeptByDial(s: State, m: DialMove)
    requires CanDial(s, m) && StopsOk(s) && ClientOk(s)
    ensures ClientOk(DialNext(s, m))
  {
    assert Taken(DialNext(s, m)) == Taken(s);
  }

  lemma ClientKeptByNewStop(s: State)
    requires StopsOk(s) && ClientOk(s)
    ensures ClientOk(s.(stops := s.stops + [StopCalled]))
  {
    assert Taken(s.(stops := s.stops + [StopCalled])) == Taken(s);
  }

  lemma ClientKeptOutside(s: State, a: Action)
    requires Enabled(s, a) && !a.DoStop? && !a.DoAttach? && StopsOk(s) && ClientOk(s)
    ensures ClientOk(OuterNext(s, a))
  {
    match a
    case Dial(m) => ClientKeptByDial(s, m);
    case NewStop => ClientKeptByNewStop(s);
    case _ =>
  }

  lemma ClientKept(s: State, a: Action)
    requires Enabled(s, a) && StopsOk(s) && ClientOk(s)
    ensures ClientOk(After(s, a))
  {
    match a
    case DoStop(i, m) => ClientKeptByStop(s, i, m);
    case DoAttach(i, m) => assert Taken(AttachNext(s, i, m)) == Taken(s);
    case _ => ClientKeptOutside(s, a);
  }

  lemma LockKeptByAttach(s: State, i: nat, m: AttachMove)
    requires Enabled(s, DoAttach(i, m)) && LockOk(s)
    ensures LockOk(AttachNext(s, i, m))
  {
    assert HoldsDevMu(s.attaches[i]) <==> s.devMu == Some(i);
    var s' := AttachNext(s, i, m);
    assert forall j :: 0 <= j < |s.attaches| && j != i ==> s'.attaches[j] == s.attaches[j];
  }

  lemma LockKept(s: State, a: Action)
    requires Enabled(s, a) && LockOk(s)
    ensures LockOk(After(s, a))
  {
    match a
    case DoStop(i, m) =>
    case DoAttach(i, m) => LockKeptByAttach(s, i, m);
    case _ =>
      IsOutside(s, a);
      OutsideKeepsLock(s, After(s, a));
  }

  /** An attach that does not hold the lock leaves its holder where it is. */
  lemma HolderMoves(s: State, i: nat, m: AttachMove)
    requires Enabled(s, DoAttach(i, m)) && LockOk(s)
    ensures var s' := AttachNext(s, i, m);
      if m.Lookup? || m.NeedClient? then Holder(s') == Holder(s)
      else if m.LockDevice? then Holder(s) == AttachCalled && Holder(s').Locked?
      else if m.Unlock? then Holder(s').AttachCalled? && Holder(s).Unlocking?
      else Holder(s) == s.attaches[i] && Holder(s') == AttachPhase(s, i, m)
  {
    assert HoldsDevMu(s.attaches[i]) <==> s.devMu == Some(i);
  }

  lemma DeviceKeptByStop(s: State, i: nat, m: StopMove)
    requires Enabled(s, DoStop(i, m)) && StopsOk(s) && LockOk(s) && DeviceOk(s)
    ensures DeviceOk(StopNext(s, i, m))
  {
    TakenMoves(s, i, m);
  }

  lemma DeviceKeptByAttach(s: State, i: nat, m: AttachMove)
    requires Enabled(s, DoAttach(i, m)) && StopsOk(s) && LockOk(s) && DeviceOk(s)
    ensures DeviceOk(AttachNext(s, i, m))
  {
    HolderMoves(s, i, m);
    assert Taken(AttachNext(s, i, m)) == Taken(s);
  }

  lemma OutsideKeepsDevice(s: State, s': State)
    requires Outside(s, s') && StopsOk(s) && LockOk(s) && DeviceOk(s)
    ensures DeviceOk(s')
  {
    OutsideKeepsStops(s, s');
    OutsideKeepsLock(s, s');
  }

  lemma DeviceKeptOutside(s: State, a: Action)
    requires Enabled(s, a) && !a.DoStop? && !a.DoAttach? && StopsOk(s) && LockOk(s) && DeviceOk(s)
    ensures DeviceOk(OuterNext(s, a))
  {
    IsOutside(s, a);
    OutsideKeepsDevice(s, OuterNext(s, a));
  }

  lemma DeviceKept(s: State, a: Action)
    requires Enabled(s, a) && StopsOk(s) && LockOk(s) && DeviceOk(s)
    ensures DeviceOk(After(s, a))
  {
    match a
    case DoStop(i, m) => DeviceKeptByStop(s, i, m);
    case DoAttach(i, m) => DeviceKeptByAttach(s, i, m);
    case _ => DeviceKeptOutside(s, a);
  }

  lemma {:induction false} InvHolds(s: State, actions: seq<Action>)
    requires Inv(s) && Run(s, actions)
    ensures Inv(Final(s, actions))
    decreases |actions|
  {
    if actions != [] {
      StopsKept(s, actions[0]);
      ClientKept(s, actions[0]);
      LockKept(s, actions[0]);
      DeviceKept(s, actions[0]);
      InvHolds(After(s, actions[0]), actions[1..]);
    }
  }

  // ----- what every interleaving guarantees ----------------------------------------------------

  lemma Reached(s: State)
    requires Reachable(s)
    ensures Inv(s)
  {
    var actions :| Run(INIT, actions) && Final(INIT, actions) == s;
    InvHolds(INIT, actions);
  }

  /** The client the dial returned is never closed twice, by whomever. */
  lemma NeverClosedTwice(s: State)
    requires Reachable(s)
    ensures s.clientCloses <= 1 && (s.clientCloses == 1 ==> s.built)
  {
    Reached(s);
  }

  /**
   Once the start goroutine is over and the stop that took the handle has returned, the client the
   dial returned, if it returned one, has been closed exactly once: by the stop if it was published,
   by the goroutine if it was refused.
   */
  lemma ClosedByExactlyOne(s: State, i: nat)
    requires Reachable(s) && s.dialer.Over? && i < |s.stops| && s.stops[i].Stopped?
    ensures s.clientCloses == if s.built then 1 else 0
  {
    Reached(s);
    assert s.taker == Some(i);
  }

  /** A stop that saw `dialed` closed returns only after the client, if there was one, is closed. */
  lemma StopWaitsForTheClose(s: State, i: nat)
    requires Reachable(s) && i < |s.stops| && s.stops[i].Stopped? && s.stops[i].saw
    ensures Dialed(s) && s.clientCloses == if s.built then 1 else 0
  {
    Reached(s);
    assert s.taker == Some(i);
    ClosedByExactlyOne(s, i);
  }

  lemma {:induction false} RunSnoc(s: State, r: seq<Action>, a: Action)
    requires Run(s, r) && Enabled(Final(s, r), a)
    ensures Run(s, r + [a]) && Final(s, r + [a]) == After(Final(s, r), a)
    decreases |r|
  {
    if r == [] {
      assert [] + [a] == [a];
      assert [a][1..] == [];
    } else {
      assert (r + [a])[1..] == r[1..] + [a];
      RunSnoc(After(s, r[0]), r[1..], a);
    }
  }

  lemma ReachableStep(s: State, a: Action, s': State)
    requires Reachable(s) && Enabled(s, a) && After(s, a) == s'
    ensures Reachable(s')
  {
    var r :| Run(INIT, r) && Final(INIT, r) == s;
    RunSnoc(INIT, r, a);
  }

  /** A client returned by the dial with the one stop at `p`, which has cancelled. */
  function Lone(p: Stop): State {
    INIT.(registered := false, cancelled := true, taker := Some(0), dialer := Returned, built := true, stops := [p],
          waiting := p.JoiningPumps? || p.Stopped?)
  }

  /** The one stop at `p` before it has cancelled. */
  function Early(p: Stop): State {
    INIT.(stops := [p], taker := if p.StopCalled? then None else Some(0), registered := p.StopCalled?)
  }

  lemma LoneTakes()
    ensures Reachable(Early(Cancelling))
  {
    assert Run(INIT, []) && Final(INIT, []) == INIT;
    ReachableStep(INIT, NewStop, Early(StopCalled));
    ReachableStep(Early(StopCalled), DoStop(0, Take), Early(Cancelling));
  }

  lemma LoneCancels()
    ensures Reachable(Lone(Waiting))
  {
    LoneTakes();
    var cancelled := Early(Waiting).(cancelled := true);
    ReachableStep(Early(Cancelling), DoStop(0, Cancel), cancelled);
    ReachableStep(cancelled, Dial(DialOk), Lone(Waiting));
  }

  lemma LoneTimesOut()
    ensures Reachable(Lone(ReadingDevice(false)))
  {
    LoneCancels();
    ReachableStep(Lone(Waiting), DoStop(0, Timeout), Lone(Joined(false)));
    ReachableStep(Lone(Joined(false)), DoStop(0, ReadClient), Lone(ReadingDevice(false)));
  }

  lemma LoneJoins()
    ensures Reachable(Lone(StartingWait(false)))
  {
    LoneTimesOut();
    ReachableStep(Lone(ReadingDevice(false)), DoStop(0, ReadDevice), Lone(StartingWait(false)));
  }

  /** The condition is needed: a stop that gave up waiting may return before the client is closed. */
  lemma TimedOutStopMayNotWait()
    ensures exists s :: Reachable(s) && |s.stops| == 1 && s.stops[0] == Stopped(false) && s.built && s.clientCloses == 0
  {
    LoneJoins();
    ReachableStep(Lone(StartingWait(false)), DoStop(0, StartWait), Lone(JoiningPumps(false)));
    ReachableStep(Lone(JoiningPumps(false)), DoStop(0, Leave), Lone(Stopped(false)));
  }

  /** One stop at most does anything; every other one finds the handle gone. */
  lemma OneEffectiveStop(s: State, i: nat, j: nat)
    requires Reachable(s) && i < |s.stops| && j < |s.stops| && Effective(s.stops[i]) && Effective(s.stops[j])
    ensures i == j
  {
    Reached(s);
    assert s.taker == Some(i) && s.taker == Some(j);
  }

  /** At most one TUN device is ever opened; an open one is installed unless its attach is about to install it. */
  lemma AtMostOneDevice(s: State)
    requires Reachable(s)
    ensures |s.devCloses| <= 1
    ensures forall d :: 0 <= d < |s.devCloses| ==>
              s.dev == Some(d) || exists i :: 0 <= i < |s.attaches| && s.attaches[i] == Opened(d)
  {
    Reached(s);
    assert Holder(s).Opened? ==> s.attaches[s.devMu.value] == Opened(0);
  }

  /** When the effective stop has returned, every device ever opened is the entry's and was closed exactly once. */
  lemma DevicesClosedByTheStop(s: State, i: nat, d: nat)
    requires Reachable(s) && i < |s.stops| && s.stops[i].Stopped? && d < |s.devCloses|
    ensures s.dev == Some(d) && s.devCloses[d] == 1
  {
    Reached(s);
    assert s.taker == Some(i);
  }

  /** Once the stop waits for the pumps no attach is about to add any. */
  lemma NoAddAfterWait(s: State, i: nat)
    requires Reachable(s) && s.waiting && i < |s.attaches|
    ensures !Enabled(s, DoAttach(i, AddPumps))
  {
    Reached(s);
    assert HoldsDevMu(s.attaches[i]) <==> s.devMu == Some(i);
  }
}
