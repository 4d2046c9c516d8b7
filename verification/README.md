# Verified model of chan's registries

This project models, in Dafny, the in-memory registries of `crates/chan-library`
and the dependency walk of `scripts/check-rust-floor.py`, and proves what they
keep over every run.

Each component has the same shape. Pure transitions say what one section under a
lock does. Runs are all sequences, or all interleavings, of those transitions,
with the outstanding guards and leases as ghost state. An invariant is proved for
every step and carried to every reachable state, and the theorems are about
reachable states. Where the source updates an object in place, a class has the
same fields, its loops carry invariants, and each method is proved to be the
transition.

| files | component |
|---|---|
| `SessionPresence`, `SessionRuns`, `SessionReaper`, `SessionNames`, `SessionLaws`, `SessionRegistry`, `NameRules` | participants of a session: guards, grace clock, owner election, handover, names |
| `ClientRoster`, `ClientRuns`, `ClientTheorems`, `ClientLaws`, `ClientSessions` | client roster: holders, leases, revocation channels, eviction, names |
| `CombinedRename`, `RenameBoth` | the rename that spans both registries under two locks |
| `OrderedSave`, `WorkspaceRows`, `WorkspaceOverlay` | ordered concurrent saves, intent generations |
| `KeyedLocks`, `RootKeys` | per-key locks with weak entries, single-flight key computations |
| `WindowPresence`, `WindowTransfers` | refcount maps of window sockets and transfers |
| `CaseFoldTable`, `CaseFoldCount`, `CaseFold`, `ParticipantNames`, `Decimal` | caseless keys, generated names |
| `RustVersion`, `RustFloor` | the Rust floor of the packaged dependencies |

`dafny verify dfyconfig.toml` checks the whole project.

## Properties the code does not keep

Each of these is shown by a concrete run or value, beside an exact condition for
all states.

- A session can have a live window and no owner: a reconnect never elects
  (`OwnerlessSession`, `OwnershipLostExactlyByReconnect`).
- A pending request can ask a window that no longer owns the session
  (`DisplacedWhileAsked`, `AskedOwnerMovesExactlyByReclaim`).
- Two live clients can show one name after a client returns
  (`ReturningNamesCollide`, `UniqueLostExactlyByReturn`).
- A stale snapshot row overrides a newer state when its generation is zero or the
  same (`ZeroGenerationSnapshotWins`, `EqualGenerationSnapshotWins`,
  `StaleSnapshotLoses`).
- A generation goes down when its 64-bit counter wraps (`LastGenerationWraps`,
  `GenerationDropsOnlyByWrap`).

## Modelling decisions

- A section under a lock is one step. Gaps between sections are program counters.
- Instants are natural numbers. Random draws are arbitrary values that meet the
  check the code applies to them.
- The word list of the name generator is any non-empty list of lowercase words.
- A watch channel of a client is a number into a list of revocation flags. A
  resumed client gets a new number.
- A write of a file replaces it and succeeds, replaces it and reports a failure,
  or does not replace it.
- Names in events are as callers pass them. A combined rename refuses a malformed
  name in the step that checks the client, although the code refuses it just
  before taking the lock.
- Dependency metadata is typed. It may lack packages, nodes or valid kinds.

## Model

| member | source | states |
|---|---|---|
| `SessionRuns.StepKeepsInv` | crates/chan-library/src/session_presence.rs:400-601 | every join, socket drop, reap, rename, handover step and takeover keeps the registry sound: socket counts are the outstanding guards, Live iff counted, `disconnected_at` set iff not, distinct join order, the owner and both ends of a pending request are participants and the ends differ |
| `SessionRuns.ReachableInv` | crates/chan-library/src/session_presence.rs:303-316 | that invariant holds after every run from an empty registry |
| `SessionRuns.DropNeverSaturates` | crates/chan-library/src/session_presence.rs:478-496 | in every run the saturating decrement of a dropped guard takes exactly one from a positive count |
| `SessionRuns.ReapSparesGuarded` | crates/chan-library/src/session_presence.rs:503-558 | no reap, at any instant, removes or touches a window that has an outstanding guard |
| `SessionRuns.AcceptInstallsTarget` | crates/chan-library/src/session_presence.rs:768-798 | in every run, accepting the pending request makes its target the owner and leaves nothing pending |
| `SessionRuns.RunBalance` | crates/chan-library/src/session_presence.rs:715-812 | along any run, resolutions of a request id plus what is still pending never exceed what was parked |
| `SessionRuns.ResolvedAtMostOnce` | crates/chan-library/src/session_presence.rs:764-812 | from an empty registry each parked request is resolved at most once |
| `SessionRuns.StaleRequestsVanish` | crates/chan-library/src/session_presence.rs:524-543 | no request survives a takeover that moved ownership, or the removal of its leader or target |
| `SessionRuns.OwnershipLostExactlyByReconnect` | crates/chan-library/src/session_presence.rs:400-460 | "a live participant implies an owner" is lost by a step iff that step is a join of a known window while the owner slot is vacant |
| `SessionRuns.OwnerlessSession` | crates/chan-library/src/session_presence.rs:408-419 | a concrete run that ends with a live window and no owner |
| `SessionRuns.AskedOwnerMovesExactlyByReclaim` | crates/chan-library/src/session_presence.rs:448-460 | "a pending request asks the current owner" is lost by a step iff a new local window joins while a request is pending and the owner is not local |
| `SessionRuns.DisplacedWhileAsked` | crates/chan-library/src/session_presence.rs:448-460 | a concrete run that ends with a request asking a displaced owner |
| `SessionReaper.ReapAbsorbs` | crates/chan-library/src/session_presence.rs:503-558 | for t1 <= t2, reaping at t1 and then t2 is reaping at t2 alone: same participants, states, owner and pending request |
| `SessionReaper.ScheduleIrrelevant` | crates/chan-library/src/session_presence.rs:503-558 | any ordered schedule of reaps ends where one reap at its last instant ends |
| `SessionReaper.ChangedIffMoved` | crates/chan-library/src/session_presence.rs:503-558 | a reap reports a change iff the registry moved |
| `SessionReaper.QuietBeforeDeadline` | crates/chan-library/src/session_presence.rs:562-580 | after a reap, every reap at that instant or later and before the returned deadline (at any later instant when there is none) does nothing and reports nothing |
| `SessionReaper.DueAtDeadline` | crates/chan-library/src/session_presence.rs:562-580 | a reap exactly at the returned deadline changes the registry, and the deadline lies in the future |
| `SessionReaper.NobodyGoneAfterReap` | crates/chan-library/src/session_presence.rs:284-299 | right after a reap nobody reads as gone at that instant |
| `SessionReaper.OwnerUnique` | crates/chan-library/src/session_presence.rs:586-595 | the local-first owner depends only on who is live, where, and in which join order |
| `SessionReaper.SameElection` | crates/chan-library/src/session_presence.rs:586-601 | reaps at different instants elect the same owner |
| `SessionReaper.JoinChangedIffViewMoves` | crates/chan-library/src/session_presence.rs:400-473 | a join reports a change iff the published snapshot (owner, names, roles, states) differs |
| `SessionNames.ReachableNamesApart` | crates/chan-library/src/session_presence.rs:261-269 | in every run default names are pairwise distinct under case folding, and two windows share a folded shown name only if one shows its gateway identity |
| `SessionNames.StepKeepsNames` | crates/chan-library/src/session_presence.rs:420-459 | each step keeps names apart |
| `SessionNames.RenameKeepsNames` | crates/chan-library/src/session_presence.rs:624-667 | a rename or reset, allowed or refused, keeps names apart |
| `SessionNames.ResetRefusedIff` | crates/chan-library/src/session_presence.rs:612-667 | in every run, a reset that would show the generated default is refused iff another window shows an explicit name or gateway identity that clashes with it; another window's default never does |
| `SessionNames.ReachableNamesAccepted` | crates/chan-library/src/session_presence.rs:602-667 | whatever names callers pass, every explicit name in a reachable registry is one that validation accepts unchanged |
| `SessionNames.IdentitiesMayBeShared` | crates/chan-library/src/session_presence.rs:420-446 | a concrete run in which two windows show one gateway identity |
| `SessionLaws.TakesPartUntilReaped` | crates/chan-library/src/session_presence.rs:503-541 | after any step a window takes part iff it just joined, or took part and was not reaped after 30 seconds without a guard |
| `SessionLaws.JoinedForLife` | crates/chan-library/src/session_presence.rs:219-244 | origin, identity, generated name and place in the join order never change while a window takes part |
| `SessionLaws.NewcomerAsItCame` | crates/chan-library/src/session_presence.rs:420-446 | a newcomer is recorded with the origin and identity it came with, unnamed, behind everybody in the join order |
| `SessionLaws.ClockStartsWithLastDrop` | crates/chan-library/src/session_presence.rs:478-496 | the grace clock starts at the instant the last guard drops, stops at the next join, and no other step touches it |
| `SessionLaws.StatesByTheClock` | crates/chan-library/src/session_presence.rs:282-299 | after a reap a window is live with a guard, disconnecting for 5 seconds without, then disconnected |
| `SessionLaws.StatesBetweenReaps` | crates/chan-library/src/session_presence.rs:408-419 | between reaps a state moves only to live at a join and to disconnecting at the last drop |
| `SessionLaws.OwnerMoves` | crates/chan-library/src/session_presence.rs:584-601 | the owner after any step: elected local-first by join order among the guarded windows exactly when an election is due, else handed over, taken over, or as before |
| `SessionLaws.LocalNewcomerEndsRemoteOwnership` | crates/chan-library/src/session_presence.rs:446-458 | after a new local window joins the owner is local, and a local owner stays |
| `SessionLaws.TakeoverIff` | crates/chan-library/src/session_presence.rs:814-842 | in every run a takeover succeeds iff the caller takes part and owns, insists, or finds no owner with a guard; its answer, its new state and its refusals are exact, and a refusal changes nothing |
| `SessionLaws.LiveOwnerYieldsOnlyToForce` | crates/chan-library/src/session_presence.rs:814-842 | another owner with a guard keeps the slot against an unforced takeover, and force always succeeds |
| `SessionLaws.RequestAsksForTheNamed` | crates/chan-library/src/session_presence.rs:715-752 | in every run a request parks the window it names, or the requester, with the live owner; each refusal comes in order and changes nothing |
| `SessionLaws.RequestStaysUntil` | crates/chan-library/src/session_presence.rs:764-842 | a pending request stays unchanged until its answer, its cancellation, a takeover that moves the owner, or the loss of an end |
| `SessionLaws.OnlyRequestsPark` | crates/chan-library/src/session_presence.rs:715-752 | no other step fills the slot |
| `SessionLaws.ShownInOrder` | crates/chan-library/src/session_presence.rs:161-269 | the explicit name is shown first, then the identity by the halves it has, then the generated name |
| `SessionLaws.RenameSetsExactly` | crates/chan-library/src/session_presence.rs:607-667 | an explicit name is set iff it is well-formed and no other window shows it in any case; it is then shown trimmed, and nothing else changes |
| `SessionLaws.ResetFallsBack` | crates/chan-library/src/session_presence.rs:612-667 | an allowed reset shows the identity or else the generated name; with an identity it is always allowed |
| `SessionLaws.OnlyRenamesName` | crates/chan-library/src/session_presence.rs:624-667 | no other step touches an explicit name |
| `SessionRegistry.FindLowest` | crates/chan-library/src/session_presence.rs:586-595 | the scan finds the live participant of one locality with the least join order, or there is none |
| `SessionRegistry.FindOwner` | crates/chan-library/src/session_presence.rs:586-595 | the two scans give the local-first owner |
| `SessionRegistry.FindDeadline` | crates/chan-library/src/session_presence.rs:562-580 | the scan gives the earliest future threshold of a disconnected participant |
| `SessionRegistry.SessionRegistry.constructor` | crates/chan-library/src/session_presence.rs:343-346 | a new registry is valid and empty |
| `SessionRegistry.SessionRegistry.DrawDefault` | crates/chan-library/src/session_presence.rs:424-431 | the drawn default clashes with no name in play |
| `SessionRegistry.SessionRegistry.Join` | crates/chan-library/src/session_presence.rs:400-473 | the join transition, kept valid, with the drawn default; `changed` as the view theorem has it |
| `SessionRegistry.SessionRegistry.SocketDropped` | crates/chan-library/src/session_presence.rs:478-496 | the drop transition; the grace clock is armed iff this was the last guard |
| `SessionRegistry.SessionRegistry.StepAll` | crates/chan-library/src/session_presence.rs:503-523 | the loop steps exactly the disconnected participants, lists exactly the gone ones, and reports a change iff a state moved |
| `SessionRegistry.SessionRegistry.RemoveAll` | crates/chan-library/src/session_presence.rs:524-543 | the loop removes exactly the gone windows, their request and their ownership |
| `SessionRegistry.SessionRegistry.ReapDue` | crates/chan-library/src/session_presence.rs:503-558 | the reap transition, kept valid; changed iff the registry moved; the deadline is the soonest one |
| `SessionRegistry.SessionRegistry.FindHolder` | crates/chan-library/src/session_presence.rs:636-653 | the scan names somebody else who shows the name, or the rename is allowed |
| `SessionRegistry.SessionRegistry.RenameValidated` | crates/chan-library/src/session_presence.rs:624-667 | the rename transition for a validated name; it succeeds iff nobody else shows the checked name; every error says what is true of the old registry |
| `SessionRegistry.SessionRegistry.Rename` | crates/chan-library/src/session_presence.rs:607-610 | the rename transition for any name: a malformed one is refused first with its reason, an accepted one is shown in its stored form |
| `SessionRegistry.SessionRegistry.ResetName` | crates/chan-library/src/session_presence.rs:617-620 | the reset transition; afterwards there is no explicit name |
| `SessionRegistry.SessionRegistry.RequestHandover` | crates/chan-library/src/session_presence.rs:715-752 | the request transition; each refusal by its own condition on participants, owner and guards, in order; on success the named window is parked with the owner that is answered |
| `SessionRegistry.SessionRegistry.ResolveHandover` | crates/chan-library/src/session_presence.rs:768-798 | the resolve transition; an answer is given iff the id is the pending one |
| `SessionRegistry.SessionRegistry.CancelHandover` | crates/chan-library/src/session_presence.rs:803-812 | the cancel transition |
| `SessionRegistry.SessionRegistry.Takeover` | crates/chan-library/src/session_presence.rs:818-842 | the takeover transition; it succeeds iff the caller takes part and owns, insists, or finds no owner with a guard, and says whether ownership moved; a refusal changes nothing |
| `SessionRegistry.SessionRegistry.DispatchIfLive` | crates/chan-library/src/session_presence.rs:365-374 | a dispatch runs iff the window has an outstanding guard |
| `NameRules.AcceptedUnchanged` | crates/chan-library/src/session_presence.rs:91-106 | a name is accepted as itself iff it has 1 to 64 characters, no outer white space and no control or format character |
| `NameRules.TrimIsStretch` | crates/chan-library/src/session_presence.rs:91-93 | trimming keeps one stretch of the name, drops only white space, and leaves none outside |
| `NameRules.ValidateIdempotent` | crates/chan-library/src/session_presence.rs:91-106 | what is accepted is stored in a form that is accepted unchanged |
| `NameRules.ValidateIff` | crates/chan-library/src/session_presence.rs:91-106 | a name is accepted iff its trimmed form has 1 to 64 characters and the whole name has no control or format character; it is stored trimmed, and each refusal has its exact condition |
| `NameRules.FormatIff` | crates/chan-library/src/session_presence.rs:57-86 | the format characters are exactly the listed ranges |
| `ClientRuns.StepKeepsInv` | crates/chan-library/src/client_sessions.rs:96-123 | every connect, observation, drop, detach, resume, rename and presentation keeps: holders and clients mutually inverse, leases and stored connections in bijection, own channels, at most `MAX_CLIENTS` clients, untagged records only while attached or detached |
| `ClientRuns.ReachableInv` | crates/chan-library/src/client_sessions.rs:312-475 | that invariant holds after every run |
| `ClientRuns.ConnectCases` | crates/chan-library/src/client_sessions.rs:312-407 | a connect is a reattachment, an admission on a new channel, or a refusal that only advances the connection counter |
| `ClientTheorems.LeaseRevokedOrCurrent` | crates/chan-library/src/client_sessions.rs:251-280 | in every run each outstanding lease is revoked, or listens to its client's current channel and that client is not detached |
| `ClientTheorems.DetachRevokesExactly` | crates/chan-library/src/client_sessions.rs:251-259 | after a detach a lease is revoked iff it was before or belongs to that client |
| `ClientTheorems.StepKeepsRevoked` | crates/chan-library/src/client_sessions.rs:263-280 | no step, a resume included, un-revokes a channel |
| `ClientTheorems.RunKeepsRevoked` | crates/chan-library/src/client_sessions.rs:263-280 | nor does any run |
| `ClientTheorems.RefusedIff` | crates/chan-library/src/client_sessions.rs:312-407 | refused as detached iff the holder is detached; refused at the limit iff the holder is new, the roster full and nobody evictable; a refusal changes only the counter |
| `ClientTheorems.StepKeepsDetached` | crates/chan-library/src/client_sessions.rs:251-291 | a detached tag stays detached through every step but its own resume |
| `ClientTheorems.NoConnectWhileDetached` | crates/chan-library/src/client_sessions.rs:312-407 | between a detach and a resume of its tag, over any run, every connect under that tag is refused as detached |
| `ClientTheorems.EvictedOnlyIdle` | crates/chan-library/src/client_sessions.rs:326-342 | a connect removes a holder only at the cap, and only the least recently seen idle undetached client |
| `ClientTheorems.EvictedIsOldest` | crates/chan-library/src/client_sessions.rs:326-342 | the evicted client is evictable and no evictable client was seen earlier |
| `ClientTheorems.DroppedOnlyUntagged` | crates/chan-library/src/client_sessions.rs:464-475 | any other step removes a holder only as an undetached untagged client whose last connection drops |
| `ClientTheorems.StepKeepsCommand` | crates/chan-library/src/client_sessions.rs:230-248 | only another command, or the loss of the record, changes a name set by command |
| `ClientTheorems.CommandSticks` | crates/chan-library/src/client_sessions.rs:230-248 | over any run without another command for it, a name set or reset by command stays |
| `ClientTheorems.RunKeepsDefaults` | crates/chan-library/src/client_sessions.rs:349-359 | generated default names stay pairwise distinct under case folding |
| `ClientTheorems.ReachableNamesAccepted` | crates/chan-library/src/client_sessions.rs:203-248 | whatever names callers pass, every explicit name in a reachable roster is one that validation accepts unchanged |
| `ClientTheorems.UniqueLostExactlyByReturn` | crates/chan-library/src/client_sessions.rs:103-117 | "live clients show distinct names" is lost by a step iff that step is the return, by a reconnect or a resume, of a client whose shown name a live client has taken |
| `ClientTheorems.ReturningNamesCollide` | crates/chan-library/src/client_sessions.rs:103-117 | a concrete run with unique live names, and a connect after which two live clients show one name |
| `ClientLaws.ConnectTouchesOne` | crates/chan-library/src/client_sessions.rs:312-407 | a connect leaves every kept record alone but the one it attaches to, which gains the connection and is seen now |
| `ClientLaws.NewcomerRecord` | crates/chan-library/src/client_sessions.rs:349-373 | an admitted client's whole record: holder, drawn name, no explicit name, first and last seen now, its one connection, a new channel |
| `ClientLaws.RecordedForLife` | crates/chan-library/src/client_sessions.rs:62-73 | tag, generated name and first connect of a record never change |
| `ClientLaws.SeenExactly` | crates/chan-library/src/client_sessions.rs:445-475 | a client is last seen at its latest connect, traffic or drop, and at no other event |
| `ClientLaws.SeenSince` | crates/chan-library/src/client_sessions.rs:445-475 | over any run that does not touch it the instant stays |
| `ClientLaws.ConnectionsFollowLeases` | crates/chan-library/src/client_sessions.rs:380-475 | a client's connections: one more by its connect, one refreshed by traffic in just what the traffic names, one less by its drop, else unchanged |
| `ClientLaws.DetachedUntilResumed` | crates/chan-library/src/client_sessions.rs:251-291 | a kept client is detached after a step iff the step detaches it, or it was and the step does not resume its tag |
| `ClientLaws.ResumeLifts` | crates/chan-library/src/client_sessions.rs:263-280 | after a resume its tag is not detached, with or without connections |
| `ClientLaws.ResumedIsLetIn` | crates/chan-library/src/client_sessions.rs:263-280 | straight after its resume a known tag is let in on its own record with a lease that is not revoked |
| `ClientLaws.LetIn` | crates/chan-library/src/client_sessions.rs:312-407 | a connect succeeds iff it reattaches or admits, always for a known holder that is not detached, and its lease is of that holder's client and not revoked |
| `ClientLaws.CommandNames` | crates/chan-library/src/client_sessions.rs:171-224 | a command sets a name iff the client is known, the name well-formed and no other connected undetached client shows it; the whole new state |
| `ClientLaws.CommandResets` | crates/chan-library/src/client_sessions.rs:171-224 | a reset brings back the generated name iff no other connected undetached client shows it; the whole new state |
| `ClientLaws.PresentationNames` | crates/chan-library/src/client_sessions.rs:230-248 | a presentation sets a name iff it is well-formed and free and no command has named the client; the whole new state |
| `ClientLaws.OnlyNamingNames` | crates/chan-library/src/client_sessions.rs:171-248 | no other step touches a kept record's name |
| `ClientLaws.ValidHolderIff` | crates/chan-library/src/client_sessions.rs:21-27 | a tag is 1 to 64 ASCII letters, digits, underscores and hyphens |
| `ClientRoster.SyntheticIsNoTag` | crates/chan-library/src/client_sessions.rs:21-27 | no tag a client can present is a synthetic holder |
| `ClientRoster.HolderTextInjective` | crates/chan-library/src/client_sessions.rs:321-325 | distinct holders have distinct keys |
| `ClientRoster.VictimUnique` | crates/chan-library/src/client_sessions.rs:329-338 | at most one client is next to be evicted |
| `ClientSessions.ClientSessions.constructor` | crates/chan-library/src/client_sessions.rs:133-137 | a new roster is valid and empty |
| `ClientSessions.ClientSessions.FindVictim` | crates/chan-library/src/client_sessions.rs:329-338 | the scan finds the evictable client of least activity, or there is none |
| `ClientSessions.ClientSessions.Connect` | crates/chan-library/src/client_sessions.rs:312-407 | the connect transition with a fresh id and a fresh default; success and each error exactly as the cases say |
| `ClientSessions.ClientSessions.Observe` | crates/chan-library/src/client_sessions.rs:445-461 | the traffic transition |
| `ClientSessions.ClientSessions.DropConnection` | crates/chan-library/src/client_sessions.rs:464-475 | the drop transition |
| `ClientSessions.ClientSessions.Detach` | crates/chan-library/src/client_sessions.rs:251-259 | the detach transition; answers iff the client is known, which is then detached |
| `ClientSessions.ClientSessions.Resume` | crates/chan-library/src/client_sessions.rs:263-280 | the resume transition; refused iff the tag is malformed, and afterwards the tag is not detached |
| `ClientSessions.ClientSessions.FindHeld` | crates/chan-library/src/client_sessions.rs:103-117 | the scan finds the first other live client that shows the name; none iff the name is available |
| `ClientSessions.ClientSessions.Rename` | crates/chan-library/src/client_sessions.rs:171-224 | the rename transition; it succeeds iff the name is well-formed, the client known and the checked name available, and its refusal is the first that fails |
| `ClientSessions.ClientSessions.PresentName` | crates/chan-library/src/client_sessions.rs:230-248 | the presentation transition; a malformed name is refused even after a command, otherwise it succeeds iff a command outranks it or the name is available |
| `CombinedRename.StepKeepsInv` | crates/chan-library/src/client_sessions.rs:182-224 | with the two locks as separate steps, every interleaving keeps: each lock has its one holder, locks are taken client first, and what a thread has checked stays true until it writes |
| `CombinedRename.HalfWayHoldsBoth` | crates/chan-library/src/client_sessions.rs:182-201 | while one thread has named the participant but not yet the client, no other thread holds either lock |
| `CombinedRename.StepRefines` | crates/chan-library/src/client_sessions.rs:182-224 | each fine step leaves the abstract registries alone or performs one whole operation on them |
| `CombinedRename.RunRefines` | crates/chan-library/src/client_sessions.rs:182-224 | after any interleaving the registries are the logged calls replayed one after the other, and each logged outcome is whether that call, combined or plain, answers with success at its place |
| `CombinedRename.RenamesAreAtomic` | crates/chan-library/src/client_sessions.rs:182-224 | whenever no lock is held, combined renames have changed both registries or neither |
| `CombinedRename.FinishedIsLogged` | crates/chan-library/src/client_sessions.rs:182-224 | each finished call is in that order exactly once, with the outcome it returned |
| `CombinedRename.NeverStuck` | crates/chan-library/src/client_sessions.rs:182-224 | until all calls are finished some thread can move: the lock order admits no deadlock |
| `CombinedRename.CombinedIsBothRenames` | crates/chan-library/src/session_presence.rs:624-667 | an allowed combined rename is the client rename and the participant rename; a refused one is neither |
| `CombinedRename.ReplayKeepsInvariants` | crates/chan-library/src/session_presence.rs:624-667 | both registries keep their invariants through any such order |
| `RenameBoth.RenameWithParticipant` | crates/chan-library/src/client_sessions.rs:182-224 | on the two objects: succeeds iff the name is well-formed and both registries allow it, then both show it and the client's is by command; otherwise neither changes |
| `OrderedSave.StepKeepsInv` | crates/chan-library/src/workspace_persist.rs:179-203 | every step of every writer keeps: tickets number the snapshots in the order of the changes, one writer publishes at a time, and the file is the snapshot of its ticket |
| `OrderedSave.FileNeverGoesBack` | crates/chan-library/src/workspace_persist.rs:179-203 | for any number of concurrent writers the file never goes from a newer snapshot to an older one |
| `OrderedSave.QuietFileIsCurrent` | crates/chan-library/src/workspace_persist.rs:96-203 | once no save is in flight, the newest save was attempted, and if its write replaced the file the file encodes the current data |
| `OrderedSave.BehindOnlyByFailedWrite` | crates/chan-library/src/workspace_persist.rs:276-300 | once quiet, the file is behind iff the newest write failed |
| `OrderedSave.SaveReturnsSettled` | crates/chan-library/src/workspace_persist.rs:179-203 | when a save returns, the newest attempted save is at least as new as its ticket and its write is over; the file holds that save iff that write replaced the file |
| `WorkspaceRows.FindUpsert` | crates/chan-library/src/workspace_persist.rs:208-221 | an upsert gives its path the next generation and leaves every other path alone |
| `WorkspaceRows.FindUpsertEach` | crates/chan-library/src/workspace_persist.rs:108-116 | a batch is, for each path, as many intents as it lists the path |
| `WorkspaceRows.FindReplace` | crates/chan-library/src/workspace_persist.rs:137-160 | for any snapshot, a replace keeps exactly its paths, the first row of each merged with the current row |
| `WorkspaceRows.FindForget` | crates/chan-library/src/workspace_persist.rs:125-131 | a forget drops exactly the given paths |
| `WorkspaceRows.IntentOutcome` | crates/chan-library/src/workspace_persist.rs:208-221 | an intent stores the next generation for a known path and generation 1 for a new one |
| `WorkspaceRows.ReplaceOutcome` | crates/chan-library/src/workspace_persist.rs:137-160 | the row of every path after a replace, case by case: dropped, taken as new, kept against an older row, taken over, or an intent |
| `WorkspaceRows.ForgetKeepsOthers` | crates/chan-library/src/workspace_persist.rs:125-131 | a forget keeps every row of another path as often as it was there |
| `WorkspaceRows.GenerationDropsOnlyByWrap` | crates/chan-library/src/workspace_persist.rs:96-160 | one operation lowers a retained path's generation iff it advances its counter past 2^64 - 1 |
| `WorkspaceRows.LastGenerationWraps` | crates/chan-library/src/workspace_persist.rs:208-221 | a concrete row whose generation wraps to zero |
| `WorkspaceRows.GenerationsNeverDecrease` | crates/chan-library/src/workspace_persist.rs:96-160 | over any mix of operations that does not wrap it, a retained path's generation never decreases |
| `WorkspaceRows.DesiredChangesOnlyByIntent` | crates/chan-library/src/workspace_persist.rs:96-160 | a desired state changes iff an intent or a snapshot row asks for the other state and that row is not of an older nonzero generation; then its generation moves on, unless the snapshot row is of that very generation |
| `WorkspaceRows.OlderSnapshotRowLoses` | crates/chan-library/src/workspace_persist.rs:137-160 | for any rows and any snapshot, a snapshot row of an older nonzero generation leaves the current row as it is |
| `WorkspaceRows.SetsMoveForward` | crates/chan-library/src/workspace_persist.rs:96-116 | intents accepted in between leave a row alone or move it to a later generation |
| `WorkspaceRows.StaleSnapshotLoses` | crates/chan-library/src/workspace_persist.rs:137-160 | after any mix of set, set_each and replace that retains the path, writing an earlier state back leaves the row as it is iff the earlier row agrees with it or is of an older nonzero generation |
| `WorkspaceRows.ZeroGenerationSnapshotWins` | crates/chan-library/src/workspace_persist.rs:137-160 | a concrete generation-zero row whose stale snapshot overrides a newer intent |
| `WorkspaceRows.EqualGenerationSnapshotWins` | crates/chan-library/src/workspace_persist.rs:137-160 | a concrete row of a nonzero generation that another snapshot changed and the stale one changes back |
| `WorkspaceRows.SortedIsSorted` | crates/chan-library/src/workspace_persist.rs:179-203 | the saved rows are the current rows in path order |
| `WorkspaceRows.SortedIsStable` | crates/chan-library/src/workspace_persist.rs:185 | rows of one path keep their order in the file |
| `WorkspaceRows.SortedIsUnique` | crates/chan-library/src/workspace_persist.rs:179-203 | with unique paths there is one such file |
| `WorkspaceOverlay.WorkspaceOverlay.constructor` | crates/chan-library/src/workspace_persist.rs:79-92 | opening reads the rows, or none when the file cannot be read, and does not write |
| `WorkspaceOverlay.WorkspaceOverlay.Upsert` | crates/chan-library/src/workspace_persist.rs:208-221 | the row is updated in place or appended; the returned generation is the stored one |
| `WorkspaceOverlay.WorkspaceOverlay.Persist` | crates/chan-library/src/workspace_persist.rs:179-203 | takes the next ticket; unless the write fails the file is the rows, sorted |
| `WorkspaceOverlay.WorkspaceOverlay.Set` | crates/chan-library/src/workspace_persist.rs:96-103 | the intent is stored and saved; the returned generation is the stored one |
| `WorkspaceOverlay.WorkspaceOverlay.SetEach` | crates/chan-library/src/workspace_persist.rs:108-116 | all spellings are stored and saved by one save |
| `WorkspaceOverlay.WorkspaceOverlay.ForgetEach` | crates/chan-library/src/workspace_persist.rs:125-131 | exactly the given paths go, and the rest is saved |
| `WorkspaceOverlay.WorkspaceOverlay.Replace` | crates/chan-library/src/workspace_persist.rs:137-160 | the merged snapshot is stored and saved: exactly its paths, and a new path with the state it came with |
| `WorkspaceOverlay.QuietOverlayIsSorted` | crates/chan-library/src/workspace_persist.rs:179-203 | for the overlay's encoding: once quiet after a written newest save, the file is exactly the current rows sorted by path, rows of one path in order |
| `KeyedLocks.StepKeepsInv` | crates/chan-library/src/root_locks.rs:58-142 | every lookup, grant, cancelled wait, failed try, detach, unlock, release and prune keeps: strong counts are the waiters and guards, they share the mutex their key's entry points to, one guard per locked mutex |
| `KeyedLocks.OneGuardPerKey` | crates/chan-library/src/root_locks.rs:58-83 | in every interleaving at most one guard per key is outstanding, borrowed or detached |
| `KeyedLocks.NewcomerShares` | crates/chan-library/src/root_locks.rs:85-98 | a lookup of a key that somebody holds or waits for gives their mutex |
| `KeyedLocks.EntryStaysWhileReferred` | crates/chan-library/src/root_locks.rs:124-142 | the entry of a key that somebody holds or waits for points to their mutex, and no step, not even the one in which they let go, removes or redirects it |
| `KeyedLocks.PruneSpares` | crates/chan-library/src/root_locks.rs:124-142 | a prune of any key spares the entries that anybody refers to |
| `KeyedLocks.WaitsOnlyForItsKey` | crates/chan-library/src/root_locks.rs:58-83 | a waiter can be granted unless a guard of its own key is outstanding |
| `KeyedLocks.TryFailsIffHeld` | crates/chan-library/src/root_locks.rs:72-83 | in every interleaving a try gives up iff a guard of its key is outstanding, and else holds the key |
| `KeyedLocks.LookupLeavesNoDeadEntry` | crates/chan-library/src/root_locks.rs:85-98 | after a lookup every entry belongs to a waiter or guard |
| `KeyedLocks.LastGuardRemovesEntry` | crates/chan-library/src/root_locks.rs:124-142 | a borrowed guard's final prune leaves its entry iff somebody else refers to the key |
| `KeyedLocks.BorrowedDropPrunes` | crates/chan-library/src/root_locks.rs:124-142 | over any run, once the drop of a borrowed guard is complete its key has an entry iff somebody refers to it |
| `KeyedLocks.EntryMap.constructor` | crates/chan-library/src/root_locks.rs:48-54 | a new entry map is empty |
| `KeyedLocks.EntryMap.Retain` | crates/chan-library/src/root_locks.rs:91 | the loop keeps exactly the entries whose mutex is alive |
| `KeyedLocks.EntryMap.MutexFor` | crates/chan-library/src/root_locks.rs:85-98 | the lookup transition |
| `KeyedLocks.EntryMap.DropGuard` | crates/chan-library/src/root_locks.rs:125-142 | the prune transition |
| `RootKeys.StepKeepsInv` | crates/chan-library/src/root_locks.rs:232-280 | every call, finish, publication, death and return keeps: each running computation has its own entry under its spelling, every other entry belongs to a dead one, and awaiting callers are on a channel of their spelling |
| `RootKeys.OneComputationPerSpelling` | crates/chan-library/src/root_locks.rs:242-280 | at most one computation of a spelling runs at a time |
| `RootKeys.AnswerIsOfJoined` | crates/chan-library/src/root_locks.rs:232-240 | a caller gets the answer of the computation it joined, and none iff that one died |
| `RootKeys.ReturnsIffOver` | crates/chan-library/src/root_locks.rs:232-240 | a caller can return iff the computation it joined has published or is over, so nobody waits for a dead one |
| `RootKeys.CallJoinsUnanswered` | crates/chan-library/src/root_locks.rs:242-258 | no call joins a channel that already has its answer |
| `RootKeys.CallStartsIffNoneRuns` | crates/chan-library/src/root_locks.rs:242-280 | a call starts a computation iff none of its spelling runs |
| `RootKeys.FinishRemovesOwnEntry` | crates/chan-library/src/root_locks.rs:265-277 | a finishing computation removes its own entry and no other |
| `RootKeys.DeadEntryIsReplaced` | crates/chan-library/src/root_locks.rs:251-260 | an entry whose sender is gone belongs to a dead computation, and the next call replaces it by a running one |
| `RootKeys.RootKeys.constructor` | crates/chan-library/src/root_locks.rs:222-225 | a new map has nothing in flight |
| `RootKeys.RootKeys.JoinOrStart` | crates/chan-library/src/root_locks.rs:242-280 | the call transition, kept valid; the caller waits on the returned channel |
| `RootKeys.RootKeys.Finish` | crates/chan-library/src/root_locks.rs:265-277 | the finish transition, kept valid |
| `WindowPresence.ConnectCounts` | crates/chan-library/src/window_presence.rs:123-149 | a connect adds exactly its guard to the per-window, per-holder counts |
| `WindowPresence.DisconnectCounts` | crates/chan-library/src/window_presence.rs:174-207 | a drop takes exactly its guard, and a window or holder without a socket is not listed |
| `WindowPresence.GuardIsCounted` | crates/chan-library/src/window_presence.rs:174-191 | an outstanding guard is counted, so no saturating decrement saturates |
| `WindowPresence.RunCounts` | crates/chan-library/src/window_presence.rs:53-55 | in every run the map is the per-window, per-holder count of the outstanding guards |
| `WindowPresence.ReachableView` | crates/chan-library/src/window_presence.rs:152-165 | in every run a window is connected iff it has a guard, and a holder is listed for it iff the holder has a guard of it |
| `WindowPresence.ConnectSignals` | crates/chan-library/src/window_presence.rs:123-149 | a connect signals iff the connected set or a holder set changed, and hooks iff the connected set changed |
| `WindowPresence.DisconnectSignals` | crates/chan-library/src/window_presence.rs:174-207 | a drop signals iff the connected set or a holder set changed, and hooks iff the connected set changed |
| `WindowPresence.WindowPresence.constructor` | crates/chan-library/src/window_presence.rs:91-94 | a new presence map is empty |
| `WindowPresence.WindowPresence.ConnectedIds` | crates/chan-library/src/window_presence.rs:151-154 | exactly the windows with an outstanding guard |
| `WindowPresence.WindowPresence.Holders` | crates/chan-library/src/window_presence.rs:156-165 | none iff the window has no guard, else exactly the holders of its guards |
| `WindowPresence.WindowPresence.ConnectSocket` | crates/chan-library/src/window_presence.rs:123-149 | the connect transition, kept counting, with the exact signals |
| `WindowPresence.WindowPresence.DropSocket` | crates/chan-library/src/window_presence.rs:174-222 | the drop transition, kept counting, with the exact signals |
| `WindowTransfers.StepKeepsInv` | crates/chan-library/src/window_transfers.rs:66-121 | with every guard's swap and adjust as separate steps, every interleaving keeps: each window's sum is what its guards have applied, no zero entries, no cell over the cap |
| `WindowTransfers.SumsAreExact` | crates/chan-library/src/window_transfers.rs:28-32 | in every run a window's sum is the total of what its guards have applied, for a guard at rest the count it was last asked to report up to 2^20, and it has an entry iff that is positive |
| `WindowTransfers.ClampNeverLoses` | crates/chan-library/src/window_transfers.rs:66-79 | in every run an adjustment moves the sum by exactly what the guard's contribution changed |
| `WindowTransfers.AdjustClamps` | crates/chan-library/src/window_transfers.rs:63-79 | any adjustment moves one window's sum by its delta but not below zero, and at zero removes the entry |
| `WindowTransfers.ClearedWindowHasNoEntry` | crates/chan-library/src/window_transfers.rs:101-121 | once every guard of a window has reported zero or dropped, the window has no entry |
| `WindowTransfers.ActiveWindowHasEntry` | crates/chan-library/src/window_transfers.rs:50-54 | a guard at rest that was asked to report a positive count keeps its window active |
| `WindowTransfers.NoOverflow` | crates/chan-library/src/window_transfers.rs:81-83 | with fewer than 2^43 sockets the signed sum stays below 2^63 |
| `WindowTransfers.WindowTransfers.constructor` | crates/chan-library/src/window_transfers.rs:34-37 | a new map is empty and accounts for no guard |
| `WindowTransfers.WindowTransfers.AdjustSum` | crates/chan-library/src/window_transfers.rs:66-79 | the clamped adjustment, an entry at zero removed |
| `WindowTransfers.WindowTransfers.HasActiveTransfer` | crates/chan-library/src/window_transfers.rs:52-54 | true iff the window's guards report a transfer between them |
| `WindowTransfers.TransferGuard.constructor` | crates/chan-library/src/window_transfers.rs:42-48 | a registered guard contributes nothing yet |
| `WindowTransfers.TransferGuard.Set` | crates/chan-library/src/window_transfers.rs:101-111 | the cell holds the count asked for, or 2^20 above it; the window's sum loses exactly the previous report and gains this one, no other sum moves, and a positive count makes the window active |
| `WindowTransfers.TransferGuard.DropGuard` | crates/chan-library/src/window_transfers.rs:114-121 | the window's sum loses exactly the last report, no other sum moves, and the sums stay what the guards report |
| `CaseFoldTable.ReplacementsAreSettled` | crates/chan-library/src/name_casefold.rs:18-1549 | no replacement character of the 1530 listed foldings is itself listed |
| `CaseFoldCount.WholeTableSize` | crates/chan-library/src/name_casefold.rs:18-1549 | the sorted table has exactly 1530 rows |
| `CaseFold.BuildTable` | crates/chan-library/src/name_casefold.rs:18-1549 | the foldings below any limit form a table sorted strictly by character |
| `CaseFold.BinarySearch` | crates/chan-library/src/name_casefold.rs:5-15 | the search finds the entry of a character iff the sorted table has one |
| `CaseFold.ComparisonKey` | crates/chan-library/src/name_casefold.rs:5-15 | the table-driven loop computes the per-character folding |
| `CaseFold.FoldConcat` | crates/chan-library/src/name_casefold.rs:5-15 | the key of a concatenation is the concatenation of the keys |
| `CaseFold.FoldIdempotent` | crates/chan-library/src/name_casefold.rs:5-15 | a key is its own key |
| `CaseFold.PlainIsOwnKey` | crates/chan-library/src/participant_names.rs:276-277 | a text of lowercase letters and digits is its own key |
| `CaseFold.FoldExamples` | crates/chan-library/src/name_casefold.rs:1571-1586 | dotted and dotless i and a ligature fold as pinned, and no normalization happens |
| `CaseFold.FoldPairs` | crates/chan-library/src/name_casefold.rs:1571-1577 | both sigmas and Cherokee fold as pinned |
| `CaseFold.AsciiFolds` | crates/chan-library/src/name_casefold.rs:18-45 | every ASCII capital folds to its small letter and every other ASCII character to itself |
| `CaseFold.FoldWords` | crates/chan-library/src/name_casefold.rs:1571-1575 | the pinned words with a long s and a sharp s fold as pinned |
| `CaseFold.UnassignedKeepSpelling` | crates/chan-library/src/name_casefold.rs:1555-1568 | the pinned unassigned code points keep their spelling |
| `ParticipantNames.FindVowels` | crates/chan-library/src/participant_names.rs:231-240 | the collected positions are exactly the vowel positions, each once |
| `ParticipantNames.PartialShuffle` | crates/chan-library/src/participant_names.rs:251-256 | the in-place shuffle keeps the positions, each once |
| `ParticipantNames.PickPositions` | crates/chan-library/src/participant_names.rs:244-258 | one or two distinct vowel positions are picked, none iff there is none |
| `ParticipantNames.MutateVowels` | crates/chan-library/src/participant_names.rs:230-269 | exactly the picked one or two vowels change, to different vowels, and nothing else |
| `ParticipantNames.FreeSuffix` | crates/chan-library/src/participant_names.rs:298-307 | the loop ends at the first free suffix, within one try more than there are taken names |
| `ParticipantNames.TriedCount` | crates/chan-library/src/participant_names.rs:298-307 | distinct suffixes give distinct candidates |
| `ParticipantNames.DrawName` | crates/chan-library/src/participant_names.rs:278-308 | the first free word; else the first free of at most 200 mutations; else, after 200 taken ones, the first word with its first free number |
| `ParticipantNames.GenerateName` | crates/chan-library/src/participant_names.rs:275-308 | never fails: some order of the words is drawn from that way; the name is its own comparison key and clashes with no taken name ignoring case |
| `Decimal.ParsePrint` | crates/chan-library/src/participant_names.rs:300-303 | decimal printing round-trips, hence is injective |
| `RustVersion.AcceptedIff` | scripts/check-rust-floor.py:24-28 | a version reads iff it is two or three decimal numbers joined by dots |
| `RustVersion.VersionRoundTrip` | scripts/check-rust-floor.py:24-28 | a printed version reads back as itself, a missing third part as zero |
| `RustVersion.ExceedsIsTotal` | scripts/check-rust-floor.py:81 | of two different versions exactly one exceeds the other, and none exceeds itself |
| `RustVersion.ExceedsIsTransitive` | scripts/check-rust-floor.py:81 | exceeding is transitive |
| `RustVersion.ExceedsByComponent` | scripts/check-rust-floor.py:81 | raising a component exceeds, whatever comes behind it |
| `RustFloor.FollowedUnlessDev` | scripts/check-rust-floor.py:88-90 | a dependency with valid kinds is followed iff it is not for development only |
| `RustFloor.ValidKindsIff` | scripts/check-rust-floor.py:85-87 | kinds are valid iff there are some, all of the three known ones |
| `RustFloor.SoundIff` | scripts/check-rust-floor.py:76-87 | a package is sound iff it and its node are there, its version reads if it is external, and all kinds are valid |
| `RustFloor.OffendsIff` | scripts/check-rust-floor.py:77-83 | a package offends iff it is external and requires a version that is neither the floor nor below it |
| `RustFloor.ChildrenInOrder` | scripts/check-rust-floor.py:84-90 | children are queued in the order of the dependencies |
| `RustFloor.Frontier` | scripts/check-rust-floor.py:67-75 | every path ends at a visited package or is at least as long as the front of the queue |
| `RustFloor.FrontIsShortest` | scripts/check-rust-floor.py:71-75 | an unvisited package leaves the queue by a shortest path, although marking happens only then |
| `RustFloor.AllFound` | scripts/check-rust-floor.py:68-90 | when the queue is empty exactly the reachable packages are visited |
| `RustFloor.FollowDependencies` | scripts/check-rust-floor.py:84-90 | the children are those with a normal or build kind, in order; the error is the first with invalid kinds |
| `RustFloor.Inspect` | scripts/check-rust-floor.py:76-83 | a package is external iff it is no member, and found iff it offends; its error is its fault |
| `RustFloor.Walk` | scripts/check-rust-floor.py:68-90 | on any finite, possibly cyclic graph the walk ends; it succeeds iff all it reaches is sound, and then reports each reachable offender once with a shortest path and all reachable externals; its error is a fault of something reachable |
| `RustFloor.FindRoot` | scripts/check-rust-floor.py:60-64 | the root is the one member of its name; the error says whether a member is unknown or the name not unique |
| `RustFloor.CheckMetadata` | scripts/check-rust-floor.py:52-93 | succeeds iff the floor reads, both roots are there once and all they reach is sound; then the findings are both exact reports; every error is explained |
| `RustFloor.PassesIff` | scripts/check-rust-floor.py:65-91 | there are no findings iff no external package that either root reaches needs more than the floor |
| `RustFloor.AtMostTheFloorPasses` | scripts/check-rust-floor.py:65-91 | a graph in which everything external requires at most the floor has no findings |
| `RustFloor.CountsDistinctExternals` | scripts/check-rust-floor.py:66-91 | the count is the number of distinct external packages reachable from either root |
| `RustFloor.SharedOffenderTwice` | scripts/check-rust-floor.py:67-83 | an offender that both roots reach is reported for both, each time by a shortest path from that root |

## Left out

- The text of error messages, findings, snapshots and wire payloads: only what they say is modelled.
- Serialized shapes, configuration, registry traits, tools, prompts and tenant plumbing: easy members with no deep property.
- `read_floor` and `main` of the floor script: file and process handling around the modelled check.
- JSON values of the wrong type, and repeated package or node ids, in dependency metadata.
- RustVersion.AcceptedIff: reads ASCII digits only; the script's pattern also admits other Unicode decimal digits.
- Counters other than row generations are unbounded: connection numbers, join order, save tickets and socket counts do not wrap.
- The order in which the change signals and hooks of concurrent sockets are delivered, after the lock is released.
- Sorted order of a window's holder listing: the model has the set.
- The reaper task, the wake-up it waits on, and real clocks: `ReapDue` is called with any instant.
- Poisoned locks: the code recovers by using the data, and no modelled section can stop half way.
- The distribution of random draws, and that the redraw loops of the generator and of client ids end: each draw is one arbitrary admissible value.
- WindowTransfers.NoOverflow: needs fewer than 2^43 sockets in a run; no bound on sockets is in the code.
- WorkspaceOverlay.WorkspaceOverlay.Persist: one save from ticket to file without interleaving; interleaved saves are in `OrderedSave`.
- Fairness and liveness of the locks beyond the absence of deadlock.
- COCOMO estimates and complexity reports: floating-point formulas.
