# Verification of the VPN client's protocols

A model, in Dafny, of the parts of this iOS VPN client whose correctness rests on an argument rather than on
reading one function: a worker protocol with a replaceable identity, two races over who closes a device, a
scalar multiplication on Curve25519, a queue whose consumer can vanish at any step, and the small machines
around them. `dafny verify dfyconfig.toml` checks everything.

| file | what it is about |
|---|---|
| `WorkerProtocol.dfy` | the csqtt workers: one identity for all, a one-slot kick channel each, a start gate, leases on pool slots |
| `WorkerLoop.dfy` | what those workers get done: the client comes to a stop, a loop serves, a kick restarts, a failure backs off |
| `WireGuardRegistry.dfy` | starts, attaches and stops on any number of handles: linearizability and device ownership |
| `WireGuardCalls.dfy` | where each of its calls leads when nobody interferes |
| `WireGuardTunnels.dfy` | the same registry as objects: the locked sections as methods on the map and its entries |
| `CsqttEntry.dfy` | one csqtt tunnel: start goroutine, stops, attaches; who closes the client and the device |
| `CsqttOutcomes.dfy` | what its attaches answer and why, how it comes up, and that nobody hangs on the way down |
| `FieldArithmetic.dfy`, `X25519.dfy`, `X25519Curve.dfy`, `WireGuardKey.dfy` | the Montgomery ladder of the link generator, the curve formulas, key clamping |
| `LinkInbox.dfy` | the connection-link queue and the view that consumes it |
| `SpeedTestPath.dfy` | which route a speed test is attributed to |
| `DirectRouteSync.dfy`, `DirectDriver.dfy` | the DIRECT-mode machine, and its driver with waiting callers |
| `Base64Link.dfy` | the unpadded base64url payload and its import |
| `ServerStore.dfy` | the named servers and the search for a free name |
| `LogWriter.dfy` | the goroutine that drains the log channel |
| `DisconnectReason.dfy`, `UplinkPaceSync.dfy` | two gates against stale answers |

How the concurrent parts are modelled: a state, a datatype of atomic actions, a predicate `Enabled` and a
function `After`; whatever the program does not decide (what a relay or the pool answers, when somebody cancels,
when a timeout fires, which thread moves next) is a parameter of the action. `Reachable` quantifies over every
finite sequence of actions. Beside what no run can break stand lemmas that exhibit runs: what a party can always still
do, and what the ordinary course of events leads to. Where the source is a class or a loop, the class or the loop is here too, proved equal
to the function the theorems are about.

Where comments and code disagree, the model follows the code:

- The header of `DirectRouteSync.swift` says that after every completion the machine is settled or has another
  apply running. There is a third state, stuck, once the attempts are spent (`isStuck`); `NeverUndriven` and
  `ComesToRest` state exactly these three; `StuckExactly` says after which completion it is stuck and `SettlesExactly`
  for which outcomes it ends settled; `BoundIsTight` has a run that ends stuck.
- `UplinkPaceSync.swift` calls five the number of attempts an intent gets. The send on `.connected` asks only
  whether something is pending, not whether the attempts are spent. `SixSends` is a run with six deliveries of one
  intent, and `ExceedsExactly` says when the five are exceeded: exactly if such a send found them spent.
- `performDirectApply` logs an intent without recorded settings as dropped. The `finish` it calls then starts the next
  apply, which nothing drives: `UnrecordedStrands`. With recorded settings, from the moment the tunnel comes
  up, it cannot happen (`OneApplyAtATime`, `EveryoneIsAnswered`).
- `SpeedTestPath.swift` describes the verdict as a fact about a piecewise-constant route. Two observations that
  contradict each other at one instant inside a window break that; `WindowVerdict` has the condition and
  `TiesMatter` the failing input.

## Model

| member | source | states |
|---|---|---|
| WorkerProtocol.StaleSessionsAreKicked | pkg/csqtt/client.go:184-197 | in every run a worker whose session announced a replaced identity has a kick buffered or a path-change hook still to kick it, though kicks coalesce and are consumed in four places |
| WorkerProtocol.QuietMeansCurrent | pkg/csqtt/client.go:488-492 | once the hooks are done and no kick is buffered, a serving worker is known under the current identity |
| WorkerProtocol.StaleStaysCovered | pkg/csqtt/client.go:683-689 | the same as an invariant of every single action: draining, coalescing, replacing, announcing |
| WorkerProtocol.OneReplacedGetConf | pkg/csqtt/client.go:876-901 | a worker writes any one replaced (generation, salt) pair at most once |
| WorkerProtocol.OneReplacedGetConfHappens | pkg/csqtt/client.go:883-886 | that bound is tight: the window between reading the identity and writing it can put one on the wire |
| WorkerProtocol.OneAllocationAtATime | pkg/csqtt/client.go:810-829 | at most one worker is between the start gate and the end of its allocation |
| WorkerProtocol.PoolCountsTheHolders | WireGuardBridge/csqtt_bridge.go:317-348 | the pool's count of every slot is the number of workers between a successful Creds and their release |
| WorkerProtocol.HoldersChange | WireGuardBridge/csqtt_bridge.go:325-333 | a slot gains exactly the worker that acquires it and loses exactly the worker that releases it |
| WorkerProtocol.RelayInsideItsLease | pkg/csqtt/client.go:828-867 | a relay is open only inside the lease it was dialled with, while that lease's worker is in the session |
| WorkerProtocol.TraceFollows | pkg/csqtt/client.go:802-845 | each move takes a lease from one allowed history to the next, on every exit path |
| WorkerProtocol.LeaseLives | pkg/csqtt/client.go:791-867 | a lease no longer held was released once and last, its relay closed before, refused at most once and only if no relay came up |
| WorkerProtocol.AllReturned | pkg/csqtt/client.go:724-762 | when every run loop has returned all counts are zero and every lease has had a complete life |
| WorkerProtocol.InvHolds | pkg/csqtt/client.go:724-950 | all of the above is one invariant of every run, for any number of workers, hooks and sessions |
| WorkerLoop.GoneMeansStopped | pkg/csqtt/client.go:727-737 | a run loop has returned only if the client is stopped, the fatal path included |
| WorkerLoop.RefusedStopsTheClient | pkg/csqtt/client.go:734-737 | a worker the server refuses for good stops the whole client and returns |
| WorkerLoop.StoppedForAReason | pkg/csqtt/client.go:425-430 | a run leaves the client running iff nobody closed it and no refusal in it was fatal |
| WorkerLoop.ReturnsAfterStop | pkg/csqtt/client.go:724-762 | after a stop, whatever happens, no worker makes more than 23 moves |
| WorkerLoop.NobodyHangs | pkg/csqtt/client.go:791-867 | once stopped, a worker that has not returned can move on whatever relay, pool and server do, or waits at the gate for one that can |
| WorkerLoop.LoopServes | pkg/csqtt/client.go:791-935 | from the top of its loop a worker whose pool, relay and server answer gets to serve under the current identity, with no kick left over |
| WorkerLoop.KickedComesBack | pkg/csqtt/client.go:743-747 | a kicked session ends without backing off and comes back serving under the current identity |
| WorkerLoop.BrokenBacksOff | pkg/csqtt/client.go:748-761 | a session that broke on its own backs off, then dials again |
| WorkerLoop.LinkBreaks | pkg/csqtt/client.go:906-935 | whoever waits for an answer or serves may lose its link, backs off and serves again |
| WorkerLoop.NoRelayBacksOff | pkg/csqtt/client.go:798-846 | so does a worker without a credential, a relay or a wrapper; the gate is given back |
| WorkerLoop.RefusedLeaseIsReturned | pkg/csqtt/client.go:826-838 | a lease whose relay did not come up is refused, then released; the other leases stay |
| WorkerLoop.ServedLeaseIsReturned | pkg/csqtt/client.go:826-867 | a lease with a relay is released once that is closed; the other leases stay |
| WorkerLoop.RelayStaysOpen | pkg/csqtt/client.go:860-867 | until the client is stopped whoever is in a session has its relay open: nobody else closes it |
| WorkerLoop.Retries | pkg/csqtt/client.go:890-921 | no answer in time: the next entry of the schedule, under the identity of that moment |
| WorkerLoop.GivesUp | pkg/csqtt/client.go:926-928 | after the last entry the session breaks |
| WorkerLoop.SessionWrites | pkg/csqtt/client.go:889-904 | in every run a worker writes at most three GETCONFs until it drains its channel again, and with a kick buffered at most the one it has begun |
| WorkerLoop.KickEndsTheWrites | pkg/csqtt/client.go:684-689 | the same for a kick from anywhere |
| WorkerLoop.OnlyAKickRestarts | pkg/csqtt/client.go:683-689 | in every run a session ends as asked for only if somebody kicked its worker |
| WorkerLoop.KicksPayForRestarts | pkg/csqtt/client.go:684-689 | a kick is used once: in every run a worker restarts at most as often as it was kicked |
| WorkerLoop.IdentityIsNew | pkg/csqtt/client.go:184-190 | the identity never comes back: it is the same at the end of a run only if no path change came in between |
| WorkerLoop.ReplacementKicksEveryone | pkg/csqtt/client.go:184-197 | after a path change its hook goes once over all the workers and leaves each with a kick |
| WorkerLoop.ForceCloseClosesTheRelay | pkg/csqtt/client.go:713-722 | closing a published relay closes it exactly once and changes nothing else |
| WireGuardRegistry.RegisteredIsStart | WireGuardBridge/bridge.go:555-560 | registering an entry is the atomic start |
| WireGuardRegistry.InstalledIsAttach | WireGuardBridge/bridge.go:717-741 | the check-and-set answers 1, -2 or -7 as the atomic attach does, and changes the state only for 1 |
| WireGuardRegistry.UnregisteredIsStop | WireGuardBridge/bridge.go:743-757 | the stop's section is the atomic stop, also on a handle that is not registered |
| WireGuardRegistry.RegistryMoves | WireGuardBridge/bridge.go:643-757 | no step takes a device out of an entry, and one appears in an entry only while it is registered |
| WireGuardRegistry.Linearizable | WireGuardBridge/bridge.go:643-757 | every concurrent history has a sequential order that respects real time and in which the atomic specification gives each call its answer, the unlocked -2 included |
| WireGuardRegistry.FirstOccupied | WireGuardBridge/bridge.go:652-655 | the point in hindsight of that -2: the first step since the lookup at which the tunnel was occupied |
| WireGuardRegistry.OwnershipPasses | WireGuardBridge/bridge.go:717-757 | whoever owns a device after a step owned it before, got it from its owner, or has just built it |
| WireGuardRegistry.OneOwnerOrClosedOnce | WireGuardBridge/bridge.go:643-757 | each device built has exactly one owner and is open, or has none and was closed exactly once |
| WireGuardRegistry.NothingLeaks | WireGuardBridge/bridge.go:711-741 | once every call has returned each device serves a registered tunnel or was closed once |
| WireGuardCalls.ReadyStart | WireGuardBridge/bridge.go:387-414 | a start whose device comes up hands out the next handle with that device installed, and leaves it open |
| WireGuardCalls.EmptyStart | WireGuardBridge/bridge.go:555-566 | a start without a device hands out the next handle, for an attach to come |
| WireGuardCalls.FailedStart | WireGuardBridge/bridge.go:391-401 | a start whose device fails closes it, registers nothing and answers the code of the step |
| WireGuardCalls.RefusedStart | WireGuardBridge/bridge.go:361-379 | a start that fails before it has a device answers the code of the failure and leaves everything as it is |
| WireGuardCalls.AttachInstalls | WireGuardBridge/bridge.go:643-741 | an attach on a live tunnel without a device installs the one it built, open, and answers 1 |
| WireGuardCalls.AttachFails | WireGuardBridge/bridge.go:698-707 | a device that takes no configuration or does not come up is closed, and the tunnel stays without one |
| WireGuardCalls.AttachHasNoDescriptor | WireGuardBridge/bridge.go:662-686 | without a usable descriptor nothing is built and nothing changes |
| WireGuardCalls.AttachIsRefused | WireGuardBridge/bridge.go:643-655 | on an unknown handle -1, on an occupied tunnel -2, and neither changes anything |
| WireGuardCalls.AttachAfterStop | WireGuardBridge/bridge.go:711-730 | a tunnel stopped under an attach: it closes the device it brought up and answers -7 |
| WireGuardCalls.StopCloses | WireGuardBridge/bridge.go:743-757 | a stop takes the handle away and closes the device of its tunnel once more, if there is one |
| WireGuardCalls.AttachAnswers | WireGuardBridge/bridge.go:643-741 | in every reachable state each answer of an attach says what it did: 1 installed a device, -5 to -7 closed the one it built, the others built none, but a -2 found at the end |
| WireGuardCalls.EmptyStartBuildsNothing | WireGuardBridge/bridge.go:555-566 | a start without a device never builds one, in no history |
| WireGuardCalls.OneLife | WireGuardBridge/bridge.go:555-757 | a reachable history in which a tunnel is started, attached and stopped: its device was installed and closed once |
| WireGuardTunnels.Tunnels.constructor | WireGuardBridge/bridge.go:117-121 | the empty registry |
| WireGuardTunnels.Tunnels.Register | WireGuardBridge/bridge.go:403-409 | the section on the objects is `Registered` on the abstract registry |
| WireGuardTunnels.Tunnels.Lookup | WireGuardBridge/bridge.go:643-651 | an attach gets the entry that its handle is registered with |
| WireGuardTunnels.Tunnels.Install | WireGuardBridge/bridge.go:717-741 | the check-and-set on the objects is `Installed`, code and state |
| WireGuardTunnels.Tunnels.Unregister | WireGuardBridge/bridge.go:745-757 | the stop's section on the objects is `Unregistered`, device and state |
| CsqttEntry.NeverClosedTwice | WireGuardBridge/csqtt_bridge.go:262-277 | the client a dial returned is never closed twice, by whomever |
| CsqttEntry.ClosedByExactlyOne | WireGuardBridge/csqtt_bridge.go:497-546 | once the start goroutine is over and the effective stop has returned, that client was closed exactly once |
| CsqttEntry.StopWaitsForTheClose | WireGuardBridge/csqtt_bridge.go:760-778 | a stop that saw `dialed` closed returns only after the close |
| CsqttEntry.TimedOutStopMayNotWait | WireGuardBridge/csqtt_bridge.go:769-773 | that condition is needed: after the budget a stop may return first |
| CsqttEntry.OneEffectiveStop | WireGuardBridge/csqtt_bridge.go:749-756 | of any number of stops one at most does anything |
| CsqttEntry.AtMostOneDevice | WireGuardBridge/csqtt_bridge.go:638-678 | at most one TUN device is ever opened, and it is installed or about to be |
| CsqttEntry.DevicesClosedByTheStop | WireGuardBridge/csqtt_bridge.go:779-784 | when the effective stop has returned every device opened is the entry's and was closed exactly once |
| CsqttEntry.NoAddAfterWait | WireGuardBridge/csqtt_bridge.go:672-676 | no pump is added once the stop waits for the pumps |
| CsqttEntry.InvHolds | WireGuardBridge/csqtt_bridge.go:497-546 | all of this is one invariant of every interleaving of dial, failures, stops and attaches |
| CsqttOutcomes.AttachNeedsTheClient | WireGuardBridge/csqtt_bridge.go:625-678 | an attach goes for the device only with a client; 1 means there is a client and a device, -1 that the handle is gone |
| CsqttOutcomes.RefusedForAReason | WireGuardBridge/csqtt_bridge.go:630-652 | -2 is answered only without a client, after a cancel, or with a device there |
| CsqttOutcomes.NoClientMeansCancelled | WireGuardBridge/csqtt_bridge.go:497-530 | a failed start cancels the tunnel, and a start that ended without publishing a client left it cancelled |
| CsqttOutcomes.DialIsPublished | WireGuardBridge/csqtt_bridge.go:266-277 | a client returned on a tunnel not stopped is published |
| CsqttOutcomes.DialIsRefused | WireGuardBridge/csqtt_bridge.go:526-530 | one returned after a stop is refused and closed by the start goroutine |
| CsqttOutcomes.ReadyTunnelComesUp | WireGuardBridge/csqtt_bridge.go:625-679 | the attach of a ready tunnel opens a device, installs it, starts three pumps and answers 1 |
| CsqttOutcomes.EarlyAttachIsRefused | WireGuardBridge/csqtt_bridge.go:630-634 | before the client is published an attach answers -2 and changes nothing |
| CsqttOutcomes.DialEnds | WireGuardBridge/csqtt_bridge.go:511-522 | a dial that fails cancels the tunnel; one is given up only on a cancelled tunnel, and fails nothing |
| CsqttOutcomes.FailureRefusesTheClient | WireGuardBridge/csqtt_bridge.go:510-530 | after a failure during the dial the client it returns is refused and closed by the start goroutine |
| CsqttOutcomes.LaterAttachIsRefused | WireGuardBridge/csqtt_bridge.go:638-652 | a cancelled tunnel, and one that has a device, answers -2 under the lock, and nothing else changes |
| CsqttOutcomes.AttachHasNoDevice | WireGuardBridge/csqtt_bridge.go:653-671 | without a descriptor -3, without a device on it -4, and nothing else changes |
| CsqttOutcomes.StopTakesItDown | WireGuardBridge/csqtt_bridge.go:747-797 | a stop of a registered tunnel takes it off the registry, cancels it, closes the client and the device it finds once each, and returns |
| CsqttOutcomes.LaterStopDoesNothing | WireGuardBridge/csqtt_bridge.go:749-756 | every other stop finds the handle gone and changes nothing |
| CsqttOutcomes.PumpsAreCounted | WireGuardBridge/csqtt_bridge.go:670-676 | over every run the wait group counts three pumps for each attach that came through, less those that ended |
| CsqttOutcomes.WaitStartsNone | WireGuardBridge/csqtt_bridge.go:672-676 | once the stop waits for the pumps no run starts another |
| CsqttOutcomes.PumpsCanEnd | WireGuardBridge/csqtt_bridge.go:687-743 | every pump can end, which leaves the wait group at zero |
| CsqttOutcomes.StopNeverHangs | WireGuardBridge/csqtt_bridge.go:749-797 | until it has returned, a stop or the holder of the lock it needs can move |
| CsqttOutcomes.StopSpends | WireGuardBridge/csqtt_bridge.go:749-797 | and every move of it leaves fewer |
| CsqttOutcomes.AttachNeverHangs | WireGuardBridge/csqtt_bridge.go:625-679 | the same for an attach |
| CsqttOutcomes.AttachSpends | WireGuardBridge/csqtt_bridge.go:625-679 | and every move of it leaves fewer |
| CsqttOutcomes.DialNeverHangs | WireGuardBridge/csqtt_bridge.go:497-546 | the start goroutine can always go on, and gives the dial up on a cancelled tunnel |
| CsqttOutcomes.DialSpends | WireGuardBridge/csqtt_bridge.go:497-546 | and every move of it leaves fewer |
| X25519.Step | quick_link.py:421-433 | the loop body, register by register, is one doubling and one differential addition |
| X25519.Ladder | quick_link.py:409-436 | the loop with its deferred swap leaves the affine form of the un-swapped register pair, in [0, m) |
| X25519.ScalarMult | quick_link.py:409-436 | the same over 2^255 - 19, all 255 bits of the scalar: the x-coordinate that the final pair shows, where z's power of P - 2 is its inverse, and 0 where z is 0 |
| X25519.DoubleIsMontgomery | quick_link.py:421-433 | the doubling equals ((X²-Z²)², 4XZ(X²+AXZ+Z²)) with A = 486662, modulo the prime |
| X25519.DiffAddIsMontgomery | quick_link.py:426-431 | the addition equals (4(x2x3-z2z3)², 4·x1·(x3z2-x2z3)²) |
| X25519.DiffAddIsSymmetric | quick_link.py:426-431 | which of the two points is ahead does not matter |
| X25519.LadderRepresents | quick_link.py:412-433 | after bits 254..t the pairs represent n·base and (n+1)·base with n = k >> t, in every abelian group where the two formulas are right |
| X25519.LadderMultiplies | quick_link.py:412-436 | so the ladder computes k·base, for every scalar below 2^255 |
| X25519.AffineIsCoordinate | quick_link.py:436-436 | the value returned is the x-coordinate x/z, wherever z's power of P - 2 is its inverse |
| X25519.LadderReturnsCoordinate | quick_link.py:409-436 | so it is the x-coordinate of k·base, for every scalar below 2^255 |
| X25519.InfinityIsZero | quick_link.py:436-436 | the point at infinity is returned as 0 |
| X25519.ModulusIsRight | quick_link.py:410-410 | the modulus is 2^255 - 19 |
| X25519.DoubleIsHomogeneous | quick_link.py:421-433 | scaling the input of the doubling only scales its output |
| X25519.DiffAddIsHomogeneous | quick_link.py:426-431 | the same for the addition, each input scaled by its own factor |
| X25519.RatioIgnoresRepresentatives | quick_link.py:412-436 | replacing the registers at any bit by other representatives of the same points leaves the final x2/z2 |
| X25519.ResultIgnoresRepresentatives | quick_link.py:436-436 | and the value returned, wherever the factor's inverse is its power of P - 2 |
| X25519Curve.DoublingIsTangent | quick_link.py:421-433 | on the curve the doubling gives the x-coordinate of the tangent's third point, l² - A - 2x |
| X25519Curve.ChordIdentity | quick_link.py:426-431 | the polynomial identity between sum and difference of two curve points |
| X25519Curve.SumAndDifferenceAbscissas | quick_link.py:426-431 | the relation of the x-coordinates of sum and difference that the addition solves |
| X25519Curve.DiffAddIsChord | quick_link.py:426-431 | told the x-coordinate of the difference, the addition gives that of the sum |
| WireGuardKey.Clamp | quick_link.py:442-445 | the three assignments, in place on the byte array |
| WireGuardKey.GenerateKeypair | quick_link.py:439-447 | both keys in base64: the private one decodes to the clamped bytes, the public one to the 32 bytes of the ladder's value for it and base point 9 |
| WireGuardKey.FromToBytes | quick_link.py:446-446 | little-endian bytes and back |
| WireGuardKey.ClampedKeys | quick_link.py:442-445 | the keys that clamping leaves alone are exactly 2^254 + 8m with 0 <= m < 2^251 |
| WireGuardKey.ClampingGivesKeys | quick_link.py:442-445 | every clamped key is one of them |
| LinkInbox.ConnectionLinkInbox.constructor | VKTurnProxy/VKTurnProxy/ConnectionLinkInbox.swift:70-88 | an empty queue, no transaction |
| LinkInbox.ConnectionLinkInbox.Deliver | VKTurnProxy/VKTurnProxy/ConnectionLinkInbox.swift:90-101 | appended, unless queued or open already or the queue is full |
| LinkInbox.ConnectionLinkInbox.Take | VKTurnProxy/VKTurnProxy/ConnectionLinkInbox.swift:109-114 | the oldest URL, opening a transaction, if none is open |
| LinkInbox.ConnectionLinkInbox.MarkTerminal | VKTurnProxy/VKTurnProxy/ConnectionLinkInbox.swift:126-128 | the first reason wins |
| LinkInbox.ConnectionLinkInbox.Finish | VKTurnProxy/VKTurnProxy/ConnectionLinkInbox.swift:136-138 | the transaction is over |
| LinkInbox.ConnectionLinkInbox.RecoverIfAbandoned | VKTurnProxy/VKTurnProxy/ConnectionLinkInbox.swift:153-168 | recoverable goes back to the front, terminal is dropped |
| LinkInbox.ConnectionLinkImporter.Consume | VKTurnProxy/VKTurnProxy/ConnectionLinkImport.swift:110-147 | with no alert up, reconcile, take the oldest and raise the prompt or the complaint |
| LinkInbox.ConnectionLinkImporter.Settle | VKTurnProxy/VKTurnProxy/ConnectionLinkImport.swift:99-103 | when no alert is left, finish and consume |
| LinkInbox.ConnectionLinkImporter.Import | VKTurnProxy/VKTurnProxy/ConnectionLinkImport.swift:48-59 | applies the pending link, marks it, shows the receipt |
| LinkInbox.ConnectionLinkImporter.Cancel | VKTurnProxy/VKTurnProxy/ConnectionLinkImport.swift:60-68 | marks it declined |
| LinkInbox.ConnectionLinkImporter.Ok | VKTurnProxy/VKTurnProxy/ConnectionLinkImport.swift:73-80 | marks it reported |
| LinkInbox.NothingIsLost | VKTurnProxy/VKTurnProxy/ConnectionLinkInbox.swift:90-168 | with the view destroyed and recreated at any step, accepted = ended ++ open ++ queued, in order, and each ended one ended for a reason the user gave |
| LinkInbox.WindowIsBounded | VKTurnProxy/VKTurnProxy/ConnectionLinkInbox.swift:70-101 | queued and open URLs are pairwise distinct and at most capacity + 1 |
| LinkInbox.AppliedAtMostOnce | VKTurnProxy/VKTurnProxy/ConnectionLinkImport.swift:48-59 | the links applied are, in order, those of the deliveries that ended as applied: each at most once |
| LinkInbox.ImportAppliesTheOpenLink | VKTurnProxy/VKTurnProxy/ConnectionLinkImport.swift:47-59 | what Import applies is the link of the open transaction, the one on screen |
| LinkInbox.PromptIsStable | VKTurnProxy/VKTurnProxy/ConnectionLinkImport.swift:110-126 | while the prompt is up nothing but its buttons and the view's death changes what it would apply |
| LinkInbox.ReceiptIsStable | VKTurnProxy/VKTurnProxy/ConnectionLinkImport.swift:48-59 | an import shows its receipt, which stays until it is closed or the view dies |
| LinkInbox.DeliveredIsThere | VKTurnProxy/VKTurnProxy/ConnectionLinkInbox.swift:90-101 | a delivered URL is open or queued unless sixteen are queued |
| LinkInbox.FlipsAreDue | VKTurnProxy/VKTurnProxy/ConnectionLinkImport.swift:84-89 | every change of an alert flag makes one settle due |
| LinkInbox.NothingWaitsUnseen | VKTurnProxy/VKTurnProxy/ConnectionLinkImport.swift:99-147 | once an alert is gone and settled, or a view consumed, the next is up or nothing is queued or open |
| LinkInbox.CancelShowsTheNext | VKTurnProxy/VKTurnProxy/ConnectionLinkImport.swift:60-68 | declining applies nothing and shows the next |
| LinkInbox.EverythingCanBeImported | VKTurnProxy/VKTurnProxy/ConnectionLinkImport.swift:47-147 | from every state, whatever became of the view, a run brings each unanswered link before the user, who by importing applies each once, in order |
| LinkInbox.InvHolds | VKTurnProxy/VKTurnProxy/ConnectionLinkImport.swift:47-147 | the invariant behind these, for every sequence of deliveries, destructions, callbacks and buttons |
| SpeedTestPath.Over | VKTurnProxy/VKTurnProxy/SpeedTestPath.swift:82-97 | the loop records the route in force at the opening and the changes inside, repetitions left out |
| SpeedTestPath.MergeWindows | VKTurnProxy/VKTurnProxy/SpeedTestPath.swift:131-141 | the trace of the first window that cannot be attributed, else the windows' paths merged |
| SpeedTestPath.OverMeasurement | VKTurnProxy/VKTurnProxy/SpeedTestPath.swift:123-142 | attributable if and only if one route carried everything the download and the upload measured; the fallback if neither was measured |
| SpeedTestPath.WindowsAreMeasured | VKTurnProxy/VKTurnProxy/SpeedTestPath.swift:126-129 | the windows are those of the phases with a usable one, download and upload alike |
| SpeedTestPath.OneRouteIsAttributable | VKTurnProxy/VKTurnProxy/SpeedTestPath.swift:114-117 | the verdict over windows is the verdict over the instants at which a phase was measuring |
| SpeedTestPath.SortFinds | VKTurnProxy/VKTurnProxy/SpeedTestPath.swift:85-92 | sorting loses nothing, and the last entry at or before an instant is the newest observation by then |
| SpeedTestPath.WindowVerdict | VKTurnProxy/VKTurnProxy/SpeedTestPath.swift:82-97 | one window names a path iff the route takes that single value in it and no two observations at one instant inside it disagree, for every list in every order |
| SpeedTestPath.VerdictIsTheRoute | VKTurnProxy/VKTurnProxy/SpeedTestPath.swift:123-142 | the same for all windows together |
| SpeedTestPath.CoveredVerdict | VKTurnProxy/VKTurnProxy/SpeedTestPath.swift:110-117 | if every opening was observed: iff the route has one value on the union of the windows |
| SpeedTestPath.InsideSort | VKTurnProxy/VKTurnProxy/SpeedTestPath.swift:85-95 | sorting and choosing what is inside a window commute |
| SpeedTestPath.TraceDependsOn | VKTurnProxy/VKTurnProxy/SpeedTestPath.swift:82-97 | the trace computed over a window depends on nothing but the route at its opening and the observations inside it |
| SpeedTestPath.OutsideDoesNotMatter | VKTurnProxy/VKTurnProxy/SpeedTestPath.swift:123-142 | so does the result over all windows, ties or not |
| SpeedTestPath.IrrelevantObservation | VKTurnProxy/VKTurnProxy/SpeedTestPath.swift:90-95 | an observation not inside the window, and superseded if it precedes the opening, changes no trace, wherever it stands in the list |
| SpeedTestPath.IrrelevantToTheRun | VKTurnProxy/VKTurnProxy/SpeedTestPath.swift:108-117 | nor the result of the run, if that holds for every window |
| SpeedTestPath.RoundTripInTheGap | VKTurnProxy/VKTurnProxy/SpeedTestPath.swift:108-112 | a round trip that starts and ends between or outside the windows leaves the result as it is |
| SpeedTestPath.TiesMatter | VKTurnProxy/VKTurnProxy/SpeedTestPath.swift:93-95 | the input for which the condition on ties is needed |
| SpeedTestPath.CollapsedCountsChanges | VKTurnProxy/VKTurnProxy/SpeedTestPath.swift:57-61 | a trace has one entry more than there were changes, a return to an earlier path being one |
| SpeedTestPath.CollapsedToOne | VKTurnProxy/VKTurnProxy/SpeedTestPath.swift:57-61 | recording names one path iff that is all there was to record |
| DirectRouteSync.DirectRouteSync.constructor | VKTurnProxy/VKTurnProxy/DirectRouteSync.swift:70-74 | settled on the mode the tunnel came up in |
| DirectRouteSync.DirectRouteSync.Intend | VKTurnProxy/VKTurnProxy/DirectRouteSync.swift:83-88 | the new state and what to start now |
| DirectRouteSync.DirectRouteSync.Finish | VKTurnProxy/VKTurnProxy/DirectRouteSync.swift:97-105 | the new state and what to apply next |
| DirectRouteSync.DirectRouteSync.StartIfNeeded | VKTurnProxy/VKTurnProxy/DirectRouteSync.swift:135-144 | an apply, within the attempts, if the routes are not as wanted |
| DirectRouteSync.NeverUndriven | VKTurnProxy/VKTurnProxy/DirectRouteSync.swift:48-144 | after any run: at rest only settled or stuck, desired is the last intent, applied is the last success and nothing else |
| DirectRouteSync.CompletionSpends | VKTurnProxy/VKTurnProxy/DirectRouteSync.swift:97-105 | every completion of any outcome decreases a measure of at most maxAttempts + 1 |
| DirectRouteSync.ComesToRest | VKTurnProxy/VKTurnProxy/DirectRouteSync.swift:40-46 | with no new intent, at most maxAttempts + 1 completions bring it to rest |
| DirectRouteSync.IntentIsDriven | VKTurnProxy/VKTurnProxy/DirectRouteSync.swift:40-46 | a new intent, even the same again on a stuck machine, is in force or being applied with fresh attempts |
| DirectRouteSync.StuckExactly | VKTurnProxy/VKTurnProxy/DirectRouteSync.swift:65-68 | a completion leaves the machine stuck iff it is the third failure of an unmet intent |
| DirectRouteSync.SettlesExactly | VKTurnProxy/VKTurnProxy/DirectRouteSync.swift:97-144 | with no new intent it ends settled iff a completion within the budget succeeds, or, for an apply no longer wanted, it fails or one of three attempts to take it back succeeds; else stuck |
| DirectRouteSync.LastIntentWins | VKTurnProxy/VKTurnProxy/DirectRouteSync.swift:27-31 | if the applies succeed the last intent is in force after two |
| DirectRouteSync.BoundIsTight | VKTurnProxy/VKTurnProxy/DirectRouteSync.swift:83-86 | an intent repeated in flight can take all four completions |
| DirectDriver.PacketTunnelProvider.RequestDirect | VKTurnProxy/PacketTunnel/PacketTunnelProvider.swift:1164-1190 | the queued closure of a request, before and after readiness |
| DirectDriver.PacketTunnelProvider.PerformDirectApply | VKTurnProxy/PacketTunnel/PacketTunnelProvider.swift:1193-1217 | one settings call becomes outstanding; without recorded settings the failure is reported, its next apply discarded and everyone answered |
| DirectDriver.PacketTunnelProvider.AfterDirectApply | VKTurnProxy/PacketTunnel/PacketTunnelProvider.swift:1262-1270 | start what is owed, else settle |
| DirectDriver.PacketTunnelProvider.SettleDirect | VKTurnProxy/PacketTunnel/PacketTunnelProvider.swift:1273-1284 | everyone waiting is answered with the applied value, in order |
| DirectDriver.PacketTunnelProvider.DirectBecameReady | VKTurnProxy/PacketTunnel/PacketTunnelProvider.swift:1287-1298 | the machine starts from the mode in force; a request from startup is queued again |
| DirectDriver.OneApplyAtATime | VKTurnProxy/PacketTunnel/PacketTunnelProvider.swift:1193-1270 | with recorded settings, an apply is in flight iff exactly one settings call, or its one outcome, is outstanding; applied is what the routes are unless a success is on its way |
| DirectDriver.LastRequestIsPursued | VKTurnProxy/PacketTunnel/PacketTunnelProvider.swift:1170-1181 | the mode last requested is recorded before readiness, and from then on desired or queued again |
| DirectDriver.SameModeIsAnswered | VKTurnProxy/PacketTunnel/PacketTunnelProvider.swift:1179-1188 | asking for the mode in force is answered at once, with no settings call |
| DirectDriver.OtherModeIsApplied | VKTurnProxy/PacketTunnel/PacketTunnelProvider.swift:1179-1270 | asking for the other makes one settings call; when it succeeds the routes and the answer are what was asked for |
| DirectDriver.ComesUpIdle | VKTurnProxy/PacketTunnel/PacketTunnelProvider.swift:1287-1298 | with nothing asked for before, a tunnel comes up at rest on the mode in force |
| DirectDriver.AnsweredOnceInOrder | VKTurnProxy/PacketTunnel/PacketTunnelProvider.swift:1273-1284 | callers are answered at most once, in the order they asked; none is dropped |
| DirectDriver.AnswersAreTheRoutes | VKTurnProxy/PacketTunnel/PacketTunnelProvider.swift:1273-1284 | an answer is given only at rest, with what the last successful apply left in force |
| DirectDriver.WorkShrinks | VKTurnProxy/PacketTunnel/PacketTunnelProvider.swift:1262-1298 | every callback and every turn of the main queue leaves less work |
| DirectDriver.UnrecordedStrands | VKTurnProxy/PacketTunnel/PacketTunnelProvider.swift:1194-1199 | if the tunnel came up without recorded settings, in either mode, a run leaves an apply in flight that nothing drives and a caller waiting for good |
| DirectDriver.EveryoneIsAnswered | VKTurnProxy/PacketTunnel/PacketTunnelProvider.swift:1164-1298 | with recorded settings, once requests stop, boundedly many steps are left, and then nobody waits and the machine is settled or stuck on the mode last requested |
| Base64Link.RoundTrip | VKTurnProxy/VKTurnProxy/BackupManager.swift:449-458 | for every byte string all four ways of writing it import as it, the generator's link included |
| Base64Link.VariantsNormalise | VKTurnProxy/VKTurnProxy/BackupManager.swift:452-455 | normalising any of them gives the one canonical encoding |
| Base64Link.AlphabetIsStandard | quick_link.py:401-401 | the alphabet is that of Table 1 of RFC 4648 |
| Base64Link.Vectors | quick_link.py:401-401 | the first vectors of section 10 of RFC 4648 |
| Base64Link.LinkDataIs | quick_link.py:401-401 | stripping `=` removes the padding and nothing else |
| Base64Link.LinksAreDistinct | quick_link.py:391-402 | different payloads make different links |
| Base64Link.LinkNeedsNoEscape | quick_link.py:399-402 | no character of the link needs escaping in a URL |
| Base64Link.DecodesExactly | VKTurnProxy/VKTurnProxy/BackupManager.swift:456-458 | the decoder accepts exactly whole groups, the last one padded by at most two |
| Base64Link.UnpaddedAccepted | VKTurnProxy/VKTurnProxy/BackupManager.swift:700-702 | unpadded input of either alphabet imports iff its length is not 1 modulo 4 |
| ServerStore.ServerStore.constructor | VKTurnProxy/VKTurnProxy/ServerStore.swift:57-83 | what was saved, or a first server; legacy ids seeded |
| ServerStore.ServerStore.Persist | VKTurnProxy/VKTurnProxy/ServerStore.swift:85-90 | the saved pair is the pair in memory |
| ServerStore.ServerStore.SeedLegacyWrapADeviceID | VKTurnProxy/VKTurnProxy/ServerStore.swift:121-131 | every WRAP-A server without a device id gets the legacy one, and it is saved iff one did |
| ServerStore.ServerStore.Activate | VKTurnProxy/VKTurnProxy/ServerStore.swift:180-186 | active if it exists, else nothing changes |
| ServerStore.ServerStore.Update | VKTurnProxy/VKTurnProxy/ServerStore.swift:188-192 | replaces the server with that id, if any |
| ServerStore.ServerStore.AddNew | VKTurnProxy/VKTurnProxy/ServerStore.swift:194-201 | appends a server under the least free default name |
| ServerStore.ServerStore.Copy | VKTurnProxy/VKTurnProxy/ServerStore.swift:203-211 | appends a copy under a new id and a free name, or nothing for an unknown id |
| ServerStore.ServerStore.Delete | VKTurnProxy/VKTurnProxy/ServerStore.swift:213-218 | never the last server; the first takes over from a deleted active one |
| ServerStore.ServerStore.ReplaceAll | VKTurnProxy/VKTurnProxy/ServerStore.swift:226-241 | the whole set from a backup, active by name or else the first |
| ServerStore.ServerStore.ResetFromFlatKeys | VKTurnProxy/VKTurnProxy/ServerStore.swift:246-253 | the set becomes one server |
| ServerStore.ServerStore.AddAndActivate | VKTurnProxy/VKTurnProxy/ServerStore.swift:257-263 | appends under a free name and activates |
| ServerStore.ServerStore.ComputeNextDefaultName | VKTurnProxy/VKTurnProxy/ServerStore.swift:267-272 | the loop ends, by pigeonhole, at the least free number |
| ServerStore.ServerStore.ComputeUniqueName | VKTurnProxy/VKTurnProxy/ServerStore.swift:274-280 | the same from 2 on, if the base itself is taken |
| ServerStore.FirstFreeIsLeast | VKTurnProxy/VKTurnProxy/ServerStore.swift:267-280 | within one probe more than there are names, at a free number, all smaller ones taken |
| ServerStore.DefaultNameIsLeast | VKTurnProxy/VKTurnProxy/ServerStore.swift:267-272 | within one probe more than there are servers, for the servers themselves |
| ServerStore.AlwaysSound | VKTurnProxy/VKTurnProxy/ServerStore.swift:180-263 | over any run of mutations: non-empty, ids distinct, the active id in the list, saved equals shown |
| ServerStore.LoadIsSound | VKTurnProxy/VKTurnProxy/ServerStore.swift:57-83 | what a start makes of what was saved is sound iff the ids differ and a lost active id is either the first server's or written back by the seeding |
| ServerStore.AlwaysSoundFromLoad | VKTurnProxy/VKTurnProxy/ServerStore.swift:57-83 | after any start with distinct ids, every run of mutations is as loaded or sound |
| ServerStore.AlwaysSoundFromFirstLaunch | VKTurnProxy/VKTurnProxy/ServerStore.swift:68-75 | from the first launch on |
| ServerStore.ActivateWins | VKTurnProxy/VKTurnProxy/ServerStore.swift:180-186 | a listed server becomes the active one, an unknown id changes nothing |
| ServerStore.UpdateChangesOne | VKTurnProxy/VKTurnProxy/ServerStore.swift:188-192 | one server gets its new profile, in its place; the others and the active one stay |
| ServerStore.AdditionsAppend | VKTurnProxy/VKTurnProxy/ServerStore.swift:194-211 | a new server is the default one, a copy its original but for id and name; neither becomes active |
| ServerStore.LinkedServerIsActive | VKTurnProxy/VKTurnProxy/ServerStore.swift:257-263 | a linked server is appended as it came but for its name, kept if free, and becomes active |
| ServerStore.DeleteTakesOne | VKTurnProxy/VKTurnProxy/ServerStore.swift:213-218 | one server goes, the others keep their order; the first left takes over from a deleted active one |
| ServerStore.RestoreChoosesTheActive | VKTurnProxy/VKTurnProxy/ServerStore.swift:226-241 | the backup's servers in order, seeded; active is the first of that name or else the first |
| ServerStore.DeleteIsSafe | VKTurnProxy/VKTurnProxy/ServerStore.swift:213-218 | in every such state a deletion leaves a server to take over |
| ServerStore.NamesStayDistinct | VKTurnProxy/VKTurnProxy/ServerStore.swift:194-280 | for every operation: distinct names stay distinct iff a rename takes no other server's name and a restored backup has no name twice |
| ServerStore.RenameCollides | VKTurnProxy/VKTurnProxy/ServerStore.swift:188-192 | a rename keeps names distinct iff its server is unknown or no server with another id has the name |
| ServerStore.NamesAlwaysDistinct | VKTurnProxy/VKTurnProxy/ServerStore.swift:180-263 | over every run of operations that meet the condition, names stay distinct |
| ServerStore.UpdateMayCollide | VKTurnProxy/VKTurnProxy/ServerStore.swift:188-192 | a sound store and a rename that collides |
| ServerStore.ReloadIsFaithful | VKTurnProxy/VKTurnProxy/ServerStore.swift:57-83 | starting again gives back the same servers, legacy ids seeded, and the same active one; doing it twice changes nothing |
| LogWriter.StartLogWriter | WireGuardBridge/bridge.go:1341-1400 | file and buffer of the loop are those of the specification, line by line |
| LogWriter.OneTurn | WireGuardBridge/bridge.go:1359-1397 | one turn: buffer, refuse, or flush the buffer, the line and the batch |
| LogWriter.InOrder | WireGuardBridge/bridge.go:1357-1398 | for every schedule, written ++ pending is an in-order selection of the accepted lines, and each consumed line is kept or lost, not both |
| LogWriter.LostExactly | WireGuardBridge/bridge.go:1363-1372 | the missing lines are exactly those refused at the cap or whose open failed |
| LogWriter.OpenTurnFlushes | WireGuardBridge/bridge.go:1373-1396 | a turn with the file open leaves nothing waiting and takes all the lines ready with its own |
| LogWriter.NothingLost | WireGuardBridge/bridge.go:1353-1358 | with at most 1000 lines before the path is set and no failure to open, nothing is lost |
| LogWriter.NothingLostIsAPrefix | WireGuardBridge/bridge.go:1373-1378 | then written ++ pending is the channel's own sequence from the first line on |
| DisconnectReason.DisconnectReasonGate.AttemptBegan | VKTurnProxy/VKTurnProxy/DisconnectReason.swift:64-66 | a new generation |
| DisconnectReason.DisconnectReasonGate.Observe | VKTurnProxy/VKTurnProxy/DisconnectReason.swift:70-91 | the gate after a status, and the generation of the death if it was one |
| DisconnectReason.DisconnectReasonGate.MayPublish | VKTurnProxy/VKTurnProxy/DisconnectReason.swift:111-113 | same generation and an empty slot |
| DisconnectReason.GateKnows | VKTurnProxy/VKTurnProxy/DisconnectReason.swift:64-91 | the two fields are, after any trace, whether a session is live and how many cycles began |
| DisconnectReason.DeathsAreDeaths | VKTurnProxy/VKTurnProxy/DisconnectReason.swift:80-86 | a death is reported exactly when a live session ends |
| DisconnectReason.DeathsIncrease | VKTurnProxy/VKTurnProxy/DisconnectReason.swift:70-91 | reported generations strictly increase and a session went live between any two: one death at most per session |
| DisconnectReason.PublishesOnlyForThisCycle | VKTurnProxy/VKTurnProxy/DisconnectReason.swift:111-113 | an answer may be published iff no attempt began and no session went live since its death, and the slot is empty |
| UplinkPaceSync.UplinkPaceSync.Intend | VKTurnProxy/VKTurnProxy/UplinkPaceSync.swift:55-59 | a new revision with a fresh budget |
| UplinkPaceSync.UplinkPaceSync.WillSend | VKTurnProxy/VKTurnProxy/UplinkPaceSync.swift:64-67 | one attempt more, for the newest revision |
| UplinkPaceSync.UplinkPaceSync.Acknowledge | VKTurnProxy/VKTurnProxy/UplinkPaceSync.swift:75-78 | only an ok for a newer revision counts |
| UplinkPaceSync.AcknowledgedIsMax | VKTurnProxy/VKTurnProxy/UplinkPaceSync.swift:40-78 | with replies lost, delayed, duplicated or reordered, acknowledged is the largest revision answered ok and never beyond desired |
| UplinkPaceSync.AnswerSettles | VKTurnProxy/VKTurnProxy/UplinkPaceSync.swift:64-78 | after any run, one delivery of a new intent and its ok settle it |
| UplinkPaceSync.SettledMeansConfirmed | VKTurnProxy/VKTurnProxy/UplinkPaceSync.swift:44-46 | not pending iff the newest intent itself was confirmed |
| UplinkPaceSync.AttemptsAreSends | VKTurnProxy/VKTurnProxy/UplinkPaceSync.swift:55-67 | attempts counts the deliveries of the newest intent |
| UplinkPaceSync.SendsAreBounded | VKTurnProxy/VKTurnProxy/TunnelManager.swift:1457-1522 | at most five deliveries of one intent, and one more for each time the tunnel came up with it outstanding |
| UplinkPaceSync.ExceedsExactly | VKTurnProxy/VKTurnProxy/TunnelManager.swift:1466-1469 | an intent is delivered more than five times iff the tunnel came up with it outstanding and its attempts spent |
| UplinkPaceSync.SixSends | VKTurnProxy/VKTurnProxy/TunnelManager.swift:1459-1520 | a run with six deliveries of one intent: sent, retried until the timer gives up, sent once more on coming up |
| UplinkPaceSync.FlushesAreNotBounded | VKTurnProxy/VKTurnProxy/TunnelManager.swift:1466-1469 | as long as the intent is outstanding, each time the tunnel comes up delivers it once more |

## Left out

- Integer widths: handles are unbounded, so a 32-bit `nextID` that wraps around onto a live handle is not modelled; identity generations and revisions are unbounded too.
- Wall-clock time: every budget, timer and backoff is a free choice of the step that follows it; `nextBackoff` and the doubling of the credential wait are not modelled.
- `pkg/csqtt/client.go`: the salt of an identity is identified with its generation; a panel restart, REPAIR and the liveness verdict are one free `Kick`; `setConfig`, `secondWorker`, the striper and the reassembler only carry data and are absent; `Release` and `Failed` are taken to be present.
- `Close` of the csqtt client: a relay published after `closeRelay` ran is not covered by it (it is closed by its own session), so no claim is made that `Close` frees every session.
- WorkerProtocol and CsqttEntry are state machines on values, one action per atomic step, because their locks do not cover the steps that race; the goroutines are not written out as loops.
- The credential pool: an `Acquire` fails or adds one holder; its slots, caps and cooldowns are not part of this model, nor is the loop that waits for a slot.
- `proxy.StopWithTimeout`, the WireGuard bind and `csqttWaitReady` are not part of this model.
- X25519: that `StepsAreRight` holds of the curve's own group is not derived from the tangent and chord lemmas; that 2^255 - 19 is prime, Fermat's little theorem and the curve's group law are hypotheses of the lemmas that use them; the formulas are proved on affine points with an invertible difference, not at the exceptional points. Security is not discussed.
- Base64: trailing bits of the last group are ignored by the modelled decoder, and input is taken to be single-unit characters; JSON, the schema and the URL around the payload are left out.
- LinkInbox: a button's handler and the dismissal of its alert are one step, and so are the importer's apply and its marking; message texts are absent.
- SpeedTestPath: the sort is taken to keep the order of equal timestamps; timestamps are reals; labels are absent.
- DirectDriver: the session is not stopped (`stopTunnel` drops the waiters); whether the first settings carry an address is a choice made when the tunnel comes up. A request from startup is queued again, so the last intent wins in the order of `intend` calls.
- ServerStore: encoding the list to be saved is taken to succeed; projection onto the flat keys, logging and the profile's other fields are absent; new ids are assumed new, as random UUIDs are.
- LogWriter: writing to an open file is taken to succeed; lines the sender dropped because the channel was full were never accepted.
- User interface, Keychain, App Intents, VK API, TURN, DTLS, captcha, DNS and socket code.
