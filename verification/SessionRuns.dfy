/** What every run of the session registry keeps. */
module SessionRuns {
  import opened Wrappers
  import opened CaseFold
  import opened SessionPresence

  /** The registry together with the socket guards that callers still hold. */
  datatype System = System(registry: Registry, guards: multiset<WindowId>)

  datatype Event =
    | Joined(window: WindowId, local: bool, identity: Option<Identity>, defaultName: string)
    | Dropped(window: WindowId, at: Instant)
    | Reaped(now: Instant)
    | Renamed(window: WindowId, name: Option<string>)
    | Requested(id: string, requester: WindowId, target: Option<WindowId>)
    | Resolved(id: string, accept: bool)
    | Cancelled(id: string)
    | TookOver(caller: WindowId, force: bool)

  const START := System(EMPTY, multiset{})

  /** A guard is dropped once, and a new window draws a default nobody else has. */
  ghost predicate Enabled(s: System, e: Event) {
    match e
    case Joined(w, _, _, name) => w in s.registry.participants || FreshDefault(s.registry, name)
    case Dropped(w, _) => s.guards[w] > 0
    case _ => true
  }

  ghost function Next(r: Registry, e: Event): Registry {
    match e
    case Joined(w, local, identity, name) => Join(r, w, local, identity, name)
    case Dropped(w, at) => SocketDropped(r, w, at)
    case Reaped(now) => Reap(r, now)
    case Renamed(w, name) => Rename(r, w, name)
    case Requested(id, requester, target) =>
      var asked := RequestHandover(r, id, requester, target);
      if asked.Ok? then asked.value else r
    case Resolved(id, accept) => ResolveHandover(r, id, accept)
    case Cancelled(id) => CancelHandover(r, id)
    case TookOver(caller, force) =>
      var taken := Takeover(r, caller, force);
      if taken.Ok? then taken.value.0 else r
  }

  /** Whether the call answers with success. */
  ghost predicate Succeeds(r: Registry, e: Event) {
    match e
    case Renamed(w, name) => RenameAllowed(r, w, name)
    case Requested(id, requester, target) => RequestHandover(r, id, requester, target).Ok?
    case Resolved(id, _) => Matches(r, id)
    case TookOver(caller, force) => Takeover(r, caller, force).Ok?
    case _ => true
  }

  ghost function Apply(s: System, e: Event): System
    requires Enabled(s, e)
  {
    System(Next(s.registry, e),
           match e
           case Joined(w, _, _, _) => s.guards + multiset{w}
           case Dropped(w, _) => s.guards - multiset{w}
           case _ => s.guards)
  }

  ghost predicate Run(s: System, events: seq<Event>, t: System)
    decreases |events|
  {
    if events == [] then s == t
    else Enabled(s, events[0]) && Run(Apply(s, events[0]), events[1..], t)
  }

  // ---- The invariant ------------------------------------------------------

  ghost predicate Sound(p: Participant) {
    && p.state != Gone
    && (p.state == Live <==> p.sockets > 0)
    && (p.disconnectedAt.Some? <==> p.sockets == 0)
  }

  ghost predicate DistinctSeqs(ps: map<WindowId, Participant>) {
    forall v, w | v in ps && w in ps && v != w :: ps[v].joinSeq != ps[w].joinSeq
  }

  ghost predicate Stable(r: Registry) {
    && (forall w | w in r.participants :: Sound(r.participants[w]) && r.participants[w].joinSeq < r.nextSeq)
    && DistinctSeqs(r.participants)
    && (r.leader.Some? ==> r.leader.value in r.participants)
    && (r.pending.Some? ==>
          var h := r.pending.value;
          h.leader in r.participants && h.target in r.participants && h.leader != h.target)
  }

  /** Socket counts are exactly the outstanding guards. */
  ghost predicate CountsGuards(s: System) {
    forall w :: s.guards[w] == if w in s.registry.participants then s.registry.participants[w].sockets else 0
  }

  ghost predicate Inv(s: System) {
    Stable(s.registry) && CountsGuards(s)
  }

  lemma JoinKeepsStable(r: Registry, w: WindowId, local: bool, identity: Option<Identity>, name: string)
    requires Stable(r)
    ensures Stable(Join(r, w, local, identity, name))
  {
    hide BestOwner;
  }

  lemma ReapKeepsStable(r: Registry, now: Instant)
    requires Stable(r)
    ensures Stable(Reap(r, now))
  {
    hide BestOwner;
  }

  lemma RenameKeepsStable(r: Registry, w: WindowId, name: Option<string>)
    requires Stable(r)
    ensures Stable(Rename(r, w, name))
    ensures forall v | v in r.participants ::
      v in Rename(r, w, name).participants && Rename(r, w, name).participants[v].sockets == r.participants[v].sockets
    ensures Rename(r, w, name).participants.Keys == r.participants.Keys
  {
    hide Holds;
  }

  lemma RequestKeepsStable(r: Registry, id: string, requester: WindowId, target: Option<WindowId>)
    requires Stable(r)
    ensures var asked := RequestHandover(r, id, requester, target);
            asked.Ok? ==> Stable(asked.value) && asked.value.participants == r.participants
  {
    hide Sound, DistinctSeqs;
  }

  lemma ResolveKeepsStable(r: Registry, id: string, accept: bool)
    requires Stable(r)
    ensures Stable(ResolveHandover(r, id, accept)) && ResolveHandover(r, id, accept).participants == r.participants
    ensures Stable(CancelHandover(r, id)) && CancelHandover(r, id).participants == r.participants
  {
    hide Sound, DistinctSeqs;
  }

  lemma TakeoverKeepsStable(r: Registry, caller: WindowId, force: bool)
    requires Stable(r)
    ensures var taken := Takeover(r, caller, force);
            taken.Ok? ==> Stable(taken.value.0) && taken.value.0.participants == r.participants
  {
    hide Sound, DistinctSeqs;
  }

  lemma HandoversKeepStable(r: Registry, e: Event)
    requires Stable(r) && (e.Requested? || e.Resolved? || e.Cancelled? || e.TookOver?)
    ensures Stable(Next(r, e)) && Next(r, e).participants == r.participants
  {
    hide Stable, RequestHandover, ResolveHandover, CancelHandover, Takeover;
    match e
    case Requested(id, requester, target) => RequestKeepsStable(r, id, requester, target);
    case Resolved(id, accept) => ResolveKeepsStable(r, id, accept);
    case Cancelled(id) => ResolveKeepsStable(r, id, false);
    case TookOver(caller, force) => TakeoverKeepsStable(r, caller, force);
  }

  lemma StepKeepsStable(s: System, e: Event)
    requires Inv(s) && Enabled(s, e)
    ensures Stable(Next(s.registry, e))
  {
    hide Join, Reap, Rename, RequestHandover, ResolveHandover, CancelHandover, Takeover, FreshDefault;
    match e
    case Joined(w, local, identity, name) => JoinKeepsStable(s.registry, w, local, identity, name);
    case Dropped(w, at) =>
    case Reaped(now) => ReapKeepsStable(s.registry, now);
    case Renamed(w, name) => RenameKeepsStable(s.registry, w, name);
    case _ => HandoversKeepStable(s.registry, e);
  }

  lemma JoinCounts(s: System, w: WindowId, local: bool, identity: Option<Identity>, name: string)
    requires CountsGuards(s)
    ensures CountsGuards(System(Join(s.registry, w, local, identity, name), s.guards + multiset{w}))
  {
    hide BestOwner;
  }

  lemma DropCounts(s: System, w: WindowId, at: Instant)
    requires CountsGuards(s) && s.guards[w] > 0
    ensures CountsGuards(System(SocketDropped(s.registry, w, at), s.guards - multiset{w}))
  {
  }

  lemma ReapCounts(s: System, now: Instant)
    requires CountsGuards(s)
    ensures CountsGuards(System(Reap(s.registry, now), s.guards))
  {
    hide BestOwner;
  }

  lemma StepKeepsInv(s: System, e: Event)
    requires Inv(s) && Enabled(s, e)
    ensures Inv(Apply(s, e))
  {
    hide Stable, Join, SocketDropped, Reap, Rename, RequestHandover, ResolveHandover, CancelHandover, Takeover;
    StepKeepsStable(s, e);
    match e
    case Joined(w, local, identity, name) => JoinCounts(s, w, local, identity, name);
    case Dropped(w, at) => DropCounts(s, w, at);
    case Reaped(now) => ReapCounts(s, now);
    case Renamed(w, name) => RenameKeepsStable(s.registry, w, name);
    case _ => HandoversKeepStable(s.registry, e);
  }

  lemma {:induction false} RunKeepsInv(s: System, events: seq<Event>, t: System)
    requires Inv(s) && Run(s, events, t)
    ensures Inv(t)
    decreases |events|
  {
    hide Inv, Apply, Enabled;
    if events != [] {
      StepKeepsInv(s, events[0]);
      RunKeepsInv(Apply(s, events[0]), events[1..], t);
    }
  }

  /** Every reachable registry. */
  lemma ReachableInv(events: seq<Event>, t: System)
    requires Run(START, events, t)
    ensures Inv(t)
  {
    RunKeepsInv(START, events, t);
  }

  /** The saturating decrement never saturates: a dropped guard was counted. */
  lemma DropNeverSaturates(events: seq<Event>, t: System, w: WindowId, at: Instant)
    requires Run(START, events, t) && Enabled(t, Dropped(w, at))
    ensures w in t.registry.participants && t.registry.participants[w].sockets > 0
    ensures SocketDropped(t.registry, w, at).participants[w].sockets == t.registry.participants[w].sockets - 1
  {
    ReachableInv(events, t);
  }

  /** No reap removes, or even touches, a window with an outstanding guard. */
  lemma ReapSparesGuarded(events: seq<Event>, t: System, w: WindowId, now: Instant)
    requires Run(START, events, t) && t.guards[w] > 0
    ensures w in t.registry.participants && w in Reap(t.registry, now).participants
    ensures Reap(t.registry, now).participants[w] == t.registry.participants[w]
  {
    ReachableInv(events, t);
  }

  // ---- Handover -------------------------------------------------------------

  /** Accepting the pending request always installs its target. */
  lemma AcceptInstallsTarget(events: seq<Event>, t: System)
    requires Run(START, events, t) && t.registry.pending.Some?
    ensures var h := t.registry.pending.value;
            var r := ResolveHandover(t.registry, h.requestId, true);
            r.leader == Some(h.target) && h.target in r.participants && r.pending.None?
  {
    ReachableInv(events, t);
  }

  ghost predicate Parks(r: Registry, e: Event, id: string) {
    e.Requested? && e.id == id && RequestHandover(r, id, e.requester, e.target).Ok?
  }

  ghost predicate Settles(r: Registry, e: Event, id: string) {
    e.Resolved? && e.id == id && Matches(r, id)
  }

  /** How often a run parks a request under `id`. */
  ghost function Parked(r: Registry, events: seq<Event>, id: string): nat
    decreases |events|
  {
    if events == [] then 0
    else (if Parks(r, events[0], id) then 1 else 0) + Parked(Next(r, events[0]), events[1..], id)
  }

  /** How often a run resolves a request under `id`. */
  ghost function Settled(r: Registry, events: seq<Event>, id: string): nat
    decreases |events|
  {
    if events == [] then 0
    else (if Settles(r, events[0], id) then 1 else 0) + Settled(Next(r, events[0]), events[1..], id)
  }

  ghost function Waiting(r: Registry, id: string): nat {
    if Matches(r, id) then 1 else 0
  }

  lemma StepBalance(r: Registry, e: Event, id: string)
    ensures (if Settles(r, e, id) then 1 else 0) + Waiting(Next(r, e), id)
            <= Waiting(r, id) + if Parks(r, e, id) then 1 else 0
  {
    hide Holds, BestOwner;
  }

  lemma {:induction false} RunBalance(s: System, events: seq<Event>, t: System, id: string)
    requires Run(s, events, t)
    ensures Settled(s.registry, events, id) + Waiting(t.registry, id)
            <= Waiting(s.registry, id) + Parked(s.registry, events, id)
    decreases |events|
  {
    hide Next, Parks, Settles, Waiting, Enabled;
    if events != [] {
      StepBalance(s.registry, events[0], id);
      RunBalance(Apply(s, events[0]), events[1..], t, id);
    }
  }

  /** Each parked request is resolved at most once. */
  lemma ResolvedAtMostOnce(events: seq<Event>, t: System, id: string)
    requires Run(START, events, t)
    ensures Settled(EMPTY, events, id) + Waiting(t.registry, id) <= Parked(EMPTY, events, id)
  {
    RunBalance(START, events, t, id);
  }

  /** No request survives a takeover that moved leadership, or the loss of its leader or target. */
  lemma StaleRequestsVanish(s: System, e: Event)
    requires Inv(s) && Enabled(s, e) && s.registry.pending.Some?
    ensures var h := s.registry.pending.value;
            var r := Next(s.registry, e);
            && (e.TookOver? && r.leader != s.registry.leader ==> r.pending.None?)
            && (h.leader !in r.participants || h.target !in r.participants ==> r.pending.None?)
  {
    hide Holds, BestOwner, FreshDefault;
  }

  // ---- Two properties the registry keeps except for one branch ----------------

  /** Somebody live implies a designated owner. */
  ghost predicate Owned(r: Registry) {
    (exists w :: w in r.participants && r.participants[w].sockets > 0) ==> r.leader.Some?
  }

  /** The reconnect of a known window elects nobody. */
  ghost predicate ReconnectsUnowned(r: Registry, e: Event) {
    e.Joined? && e.window in r.participants && r.leader.None?
  }

  /** Ownership is lost exactly by a reconnect that finds the owner slot vacant. */
  lemma OwnershipLostExactlyByReconnect(s: System, e: Event)
    requires Inv(s) && Enabled(s, e) && Owned(s.registry)
    ensures Owned(Next(s.registry, e)) <==> !ReconnectsUnowned(s.registry, e)
  {
    hide Holds, FreshDefault, BestOwner;
    var r, r' := s.registry, Next(s.registry, e);
    if ReconnectsUnowned(r, e) {
      assert e.window in r'.participants && r'.participants[e.window].sockets > 0;
    } else if r.leader.None? {
      assert forall w | w in r.participants :: r.participants[w].sockets == 0;
    }
  }

  /** The pending request asks the current owner. */
  ghost predicate AsksOwner(r: Registry) {
    r.pending.Some? ==> r.leader == Some(r.pending.value.leader)
  }

  /** A new local window reclaims the slot from a remote owner being asked. */
  ghost predicate ReclaimsWhileAsked(r: Registry, e: Event) {
    e.Joined? && e.window !in r.participants && e.local && r.pending.Some? && !LocalOwner(r)
  }

  /** A request is left asking a former owner exactly by such a join. */
  lemma AskedOwnerMovesExactlyByReclaim(s: System, e: Event)
    requires Inv(s) && Enabled(s, e) && AsksOwner(s.registry)
    ensures AsksOwner(Next(s.registry, e)) <==> !ReclaimsWhileAsked(s.registry, e)
  {
    hide Holds, FreshDefault, BestOwner;
    if ReclaimsWhileAsked(s.registry, e) {
      var r' := Next(s.registry, e);
      assert r'.participants[e.window].local && r'.participants[e.window].sockets > 0;
    }
  }

  lemma RunStarts(s: System)
    ensures Run(s, [], s)
  {
  }

  /** A run extended by one event. */
  lemma {:induction false} RunExtends(s: System, events: seq<Event>, t: System, e: Event)
    requires Run(s, events, t) && Enabled(t, e)
    ensures Run(s, events + [e], Apply(t, e))
    decreases |events|
  {
    hide Enabled, Apply;
    if events == [] {
      assert ([] + [e])[1..] == [];
      assert Run(Apply(t, e), [], Apply(t, e));
    } else {
      RunExtends(Apply(s, events[0]), events[1..], t, e);
      assert (events + [e])[1..] == events[1..] + [e];
    }
  }

  /** Two windows, the first one the owner. */
  ghost function BothJoined(local: bool): Registry {
    Registry(map["a" := Participant(None, None, "x", local, 1, 0, Live, None),
                 "b" := Participant(None, None, "y", local, 1, 1, Live, None)],
             Some("a"), 2, None)
  }

  lemma BothJoinedIsReachable(local: bool) returns (events: seq<Event>)
    ensures Run(START, events, System(BothJoined(local), multiset{"a", "b"}))
  {
    hide Fold, BestOwner, Run;
    var t := START;
    RunStarts(t);
    var e := Joined("a", local, None, "x");
    RunExtends(START, [], t, e);
    events, t := [] + [e], Apply(t, e);
    assert t.registry.leader == Some("a");
    assert FreshDefault(t.registry, "y") by {
      PlainIsOwnKey("x");
      PlainIsOwnKey("y");
    }
    e := Joined("b", local, None, "y");
    RunExtends(START, events, t, e);
    events, t := events + [e], Apply(t, e);
    assert t.registry.participants == BothJoined(local).participants;
    assert t.guards == multiset{"a", "b"};
  }

  /** The same windows, both left, the owner first. */
  ghost function BothLeft(): Registry {
    Registry(map["a" := Participant(None, None, "x", true, 0, 0, Disconnecting, Some(0)),
                 "b" := Participant(None, None, "y", true, 0, 1, Disconnecting, Some(RELOAD_GRACE))],
             Some("a"), 2, None)
  }

  lemma BothLeftIsReachable() returns (events: seq<Event>)
    ensures Run(START, events, System(BothLeft(), multiset{}))
  {
    hide Fold, BestOwner, Run;
    events := BothJoinedIsReachable(true);
    var t := System(BothJoined(true), multiset{"a", "b"});
    var e := Dropped("a", 0);
    RunExtends(START, events, t, e);
    events, t := events + [e], Apply(t, e);
    e := Dropped("b", RELOAD_GRACE);
    RunExtends(START, events, t, e);
    events, t := events + [e], Apply(t, e);
    assert t.registry.participants == BothLeft().participants;
  }

  /** A live window without an owner: the owner went gone while nobody was live. */
  lemma OwnerlessSession() returns (events: seq<Event>, t: System)
    ensures Run(START, events, t) && !Owned(t.registry)
  {
    hide Fold, BestOwner, Run;
    events := BothLeftIsReachable();
    t := System(BothLeft(), multiset{});
    var e := Reaped(GONE_GRACE);
    RunExtends(START, events, t, e);
    events, t := events + [e], Apply(t, e);
    assert t.registry.participants.Keys == {"b"};
    assert t.registry.leader.None?;
    e := Joined("b", true, None, "");
    RunExtends(START, events, t, e);
    events, t := events + [e], Apply(t, e);
    assert "b" in t.registry.participants && t.registry.participants["b"].sockets > 0;
  }

  /** A request left asking a remote window that a local one has displaced. */
  lemma DisplacedWhileAsked() returns (events: seq<Event>, t: System)
    ensures Run(START, events, t) && !AsksOwner(t.registry)
  {
    hide Fold, BestOwner, Run;
    events := BothJoinedIsReachable(false);
    t := System(BothJoined(false), multiset{"a", "b"});
    var e := Requested("r", "b", None);
    RunExtends(START, events, t, e);
    events, t := events + [e], Apply(t, e);
    assert FreshDefault(t.registry, "z") by {
      PlainIsOwnKey("x");
      PlainIsOwnKey("y");
      PlainIsOwnKey("z");
    }
    e := Joined("c", true, None, "z");
    RunExtends(START, events, t, e);
    events, t := events + [e], Apply(t, e);
    assert t.registry.participants["c"].local;
  }
}
