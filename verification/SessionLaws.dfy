/**
 * What each step does to a session, said of the outstanding guards, the
 * instants of the events and the published names, field by field.
 */
module SessionLaws {
  import opened Wrappers
  import opened CaseFold
  import opened SessionPresence
  import opened SessionRuns
  import NameRules

  const SECOND: nat := 1_000_000_000

  /** The window has no socket, and its last one dropped at least `grace` before `now`. */
  ghost predicate OutFor(s: System, w: WindowId, now: Instant, grace: nat) {
    && w in s.registry.participants && s.guards[w] == 0
    && s.registry.participants[w].disconnectedAt.Some?
    && s.registry.participants[w].disconnectedAt.value + grace <= now
  }

  ghost function After(s: System, e: Event): Registry
    requires Enabled(s, e)
  {
    Apply(s, e).registry
  }

  // ---- Who takes part --------------------------------------------------------------------

  lemma GoneIffOut(s: System, w: WindowId, now: Instant)
    requires Inv(s)
    ensures GoneAt(s.registry, w, now) <==> OutFor(s, w, now, 30 * SECOND)
  {
    hide DistinctSeqs;
  }

  /** A window takes part from its first join until a reap finds it out for 30 seconds. */
  lemma TakesPartUntilReaped(s: System, e: Event, w: WindowId)
    requires Inv(s) && Enabled(s, e)
    ensures w in After(s, e).participants <==>
            || (e.Joined? && e.window == w)
            || (w in s.registry.participants && !(e.Reaped? && OutFor(s, w, e.now, 30 * SECOND)))
  {
    hide BestOwner, FreshDefault, Holds, OutFor, Stable, CountsGuards, GoneAt, NameRules.WellFormed, NameRules.Stored,
         RequestHandover, ResolveHandover, CancelHandover, Takeover;
    match e
    case Joined(_, _, _, _) =>
    case Dropped(_, _) =>
    case Renamed(_, _) =>
    case Reaped(now) => GoneIffOut(s, w, now);
    case _ => HandoversTouchNobody(s.registry, e);
  }

  /** The owner is live exactly while it has a guard. */
  lemma LiveLeaderIff(s: System)
    requires Inv(s)
    ensures LiveLeader(s.registry) <==> s.registry.leader.Some? && s.guards[s.registry.leader.value] > 0
  {
    hide DistinctSeqs, Sound;
  }

  /** The handover events and the takeover touch no participant. */
  lemma HandoversTouchNobody(r: Registry, e: Event)
    requires e.Requested? || e.Resolved? || e.Cancelled? || e.TookOver?
    ensures Next(r, e).participants == r.participants
  {
    hide LiveLeader;
  }

  ghost predicate SameOrigin(p: Participant, q: Participant) {
    p.local == q.local && p.identity == q.identity && p.defaultName == q.defaultName && p.joinSeq == q.joinSeq
  }

  lemma ReapKeepsOrigin(r: Registry, now: Instant, w: WindowId)
    requires w in Reap(r, now).participants
    ensures w in r.participants && SameOrigin(r.participants[w], Reap(r, now).participants[w])
  {
    hide BestOwner, ComputedState;
  }

  /** What a window was when it joined it stays: its origin, identity, generated name and place in the join order. */
  lemma JoinedForLife(s: System, e: Event, w: WindowId)
    requires Enabled(s, e) && w in s.registry.participants && w in After(s, e).participants
    ensures SameOrigin(s.registry.participants[w], After(s, e).participants[w])
  {
    hide BestOwner, FreshDefault, RenameAllowed, Reap, RequestHandover, ResolveHandover, CancelHandover, Takeover,
         NameRules.Stored;
    match e
    case Joined(_, _, _, _) =>
    case Dropped(_, _) =>
    case Renamed(_, _) =>
    case Reaped(now) => ReapKeepsOrigin(s.registry, now, w);
    case _ => HandoversTouchNobody(s.registry, e);
  }

  /** A newcomer is recorded as it came, without an explicit name, behind everybody in the join order. */
  lemma NewcomerAsItCame(s: System, e: Event)
    requires Inv(s) && Enabled(s, e) && e.Joined? && e.window !in s.registry.participants
    ensures e.window in After(s, e).participants
    ensures var p := After(s, e).participants[e.window];
            && p.local == e.local && p.identity == e.identity && p.defaultName == e.defaultName && p.name.None?
            && forall v | v in s.registry.participants :: s.registry.participants[v].joinSeq < p.joinSeq
  {
    hide BestOwner, FreshDefault, CountsGuards, DistinctSeqs, Sound;
  }

  // ---- The grace clock --------------------------------------------------------------------

  /** The clock starts at the drop of the last guard, stops at the next join, and no other step touches it. */
  lemma ClockStartsWithLastDrop(s: System, e: Event, w: WindowId)
    requires Inv(s) && Enabled(s, e) && w in s.registry.participants && w in After(s, e).participants
    ensures After(s, e).participants[w].disconnectedAt ==
            if e.Joined? && e.window == w then None
            else if e.Dropped? && e.window == w && s.guards[w] == 1 then Some(e.at)
            else s.registry.participants[w].disconnectedAt
  {
    hide BestOwner, FreshDefault, RenameAllowed, ComputedState, DistinctSeqs,
         RequestHandover, ResolveHandover, CancelHandover, Takeover;
    if e.Requested? || e.Resolved? || e.Cancelled? || e.TookOver? {
      HandoversTouchNobody(s.registry, e);
    }
  }

  /** A reap leaves a window without sockets disconnecting for 5 seconds, then disconnected; nobody else's state moves. */
  lemma StatesByTheClock(s: System, now: Instant, w: WindowId)
    requires Inv(s) && w in Reap(s.registry, now).participants
    ensures Reap(s.registry, now).participants[w].state ==
            if s.guards[w] > 0 then Live
            else if OutFor(s, w, now, 5 * SECOND) then Disconnected
            else Disconnecting
  {
    hide BestOwner, DistinctSeqs;
  }

  /** Between reaps a state moves only with the guards: live at a join, disconnecting at the last drop. */
  lemma StatesBetweenReaps(s: System, e: Event, w: WindowId)
    requires Inv(s) && Enabled(s, e) && !e.Reaped? && w in s.registry.participants && w in After(s, e).participants
    ensures After(s, e).participants[w].state ==
            if e.Joined? && e.window == w then Live
            else if e.Dropped? && e.window == w && s.guards[w] == 1 then Disconnecting
            else s.registry.participants[w].state
  {
    hide BestOwner, FreshDefault, Holds, DistinctSeqs, NameRules.WellFormed, NameRules.Stored,
         RequestHandover, ResolveHandover, CancelHandover, Takeover;
    match e
    case Joined(_, _, _, _) =>
    case Dropped(_, _) =>
    case Renamed(_, _) =>
    case _ => HandoversTouchNobody(s.registry, e);
  }

  // ---- The owner -----------------------------------------------------------------------------

  /** Nobody iff nobody is live; else the first live window of the join order, among the local ones if there are any. */
  ghost predicate Elected(s: System, owner: Option<WindowId>) {
    var ps := s.registry.participants;
    && (owner.None? <==> forall v | v in ps :: s.guards[v] == 0)
    && (owner.Some? ==>
          && owner.value in ps && s.guards[owner.value] > 0
          && forall v | v in ps && s.guards[v] > 0 ::
               && (ps[v].local ==> ps[owner.value].local)
               && (ps[v].local == ps[owner.value].local ==> ps[owner.value].joinSeq <= ps[v].joinSeq))
  }

  lemma BestIsElected(s: System)
    requires CountsGuards(s)
    ensures Elected(s, BestOwner(s.registry.participants))
  {
    var owner := BestOwner(s.registry.participants);
    hide BestOwner;
    assert owner.Some? ==> s.guards[owner.value] > 0;
  }

  /** Who elects: a newcomer to a vacant slot, a local newcomer under an owner that is not local, the loss of the owner. */
  ghost predicate Elects(s: System, e: Event)
    requires Enabled(s, e)
  {
    || (e.Joined? && e.window !in s.registry.participants
        && (s.registry.leader.None? || (e.local && !LocalOwner(s.registry))))
    || (e.Reaped? && s.registry.leader.Some? && s.registry.leader.value !in After(s, e).participants)
  }

  lemma ElectionByElects(s: System, e: Event)
    requires Inv(s) && Enabled(s, e) && Elects(s, e)
    ensures After(s, e).leader == BestOwner(After(s, e).participants)
  {
    assert s.registry.leader.Some? ==> s.registry.leader.value in s.registry.participants;
    hide BestOwner, FreshDefault, Stable, CountsGuards, ComputedState;
  }

  lemma OwnerOtherwise(s: System, e: Event)
    requires Inv(s) && Enabled(s, e) && !Elects(s, e)
    ensures After(s, e).leader == OwnerByCall(s, e)
  {
    hide BestOwner, FreshDefault, RenameAllowed, ComputedState, LiveLeader, LocalOwner, RequestHandover, Takeover,
         TakeoverOpen, Stable, CountsGuards;
    match e
    case TookOver(caller, force) => TakeoverCases(s, caller, force);
    case Resolved(id, accept) =>
      if s.registry.pending.Some? {
        TargetTakesPart(s);
      }
    case Requested(id, requester, target) => RequestKeepsOwner(s.registry, id, requester, target);
    case _ =>
  }

  lemma TargetTakesPart(s: System)
    requires Inv(s) && s.registry.pending.Some?
    ensures s.registry.pending.value.target in s.registry.participants
  {
  }

  lemma RequestKeepsOwner(r: Registry, id: string, requester: WindowId, target: Option<WindowId>)
    ensures var asked := RequestHandover(r, id, requester, target); asked.Ok? ==> asked.value.leader == r.leader
  {
  }

  /** The owner a handover or takeover installs, or the one there was. */
  ghost function OwnerByCall(s: System, e: Event): Option<WindowId> {
    if e.Resolved? && e.accept && s.registry.pending.Some? && s.registry.pending.value.requestId == e.id
    then Some(s.registry.pending.value.target)
    else if e.TookOver? && TakeoverOpen(s, e.caller, e.force) then Some(e.caller)
    else s.registry.leader
  }

  /** The owner after any step: elected, handed over, taken over, or as before. */
  lemma OwnerMoves(s: System, e: Event)
    requires Inv(s) && Enabled(s, e)
    ensures Elects(s, e) ==> Elected(Apply(s, e), After(s, e).leader)
    ensures !Elects(s, e) ==> After(s, e).leader == OwnerByCall(s, e)
  {
    StepKeepsInv(s, e);
    BestIsElected(Apply(s, e));
    hide BestOwner, Next, Stable, CountsGuards, Elected, Elects, OwnerByCall, Enabled;
    if Elects(s, e) {
      ElectionByElects(s, e);
    } else {
      OwnerOtherwise(s, e);
    }
  }

  /** A local newcomer never leaves the session to a remote owner. */
  lemma LocalNewcomerEndsRemoteOwnership(s: System, e: Event)
    requires Inv(s) && Enabled(s, e) && e.Joined? && e.window !in s.registry.participants && e.local
    ensures LocalOwner(After(s, e))
    ensures LocalOwner(s.registry) ==> After(s, e).leader == s.registry.leader
  {
    OwnerMoves(s, e);
    NewcomerAsItCame(s, e);
    StepKeepsInv(s, e);
    if Elects(s, e) {
      var t := Apply(s, e);
      assert t.guards[e.window] > 0;
      hide Next, Enabled;
    } else {
      JoinedForLife(s, e, s.registry.leader.value);
    }
  }

  // ---- Takeover ----------------------------------------------------------------------------------

  /** The caller takes part, and owns already, insists, or finds no owner with a socket. */
  ghost predicate TakeoverOpen(s: System, caller: WindowId, force: bool) {
    && caller in s.registry.participants
    && (s.registry.leader == Some(caller) || force || s.registry.leader.None? || s.guards[s.registry.leader.value] == 0)
  }

  lemma TakeoverCases(s: System, caller: WindowId, force: bool)
    requires Inv(s)
    ensures var taken := Takeover(s.registry, caller, force);
            && (taken.Ok? <==> TakeoverOpen(s, caller, force))
            && (taken.Ok? ==>
                  && (taken.value.1 <==> s.registry.leader != Some(caller))
                  && taken.value.0 == s.registry.(leader := Some(caller),
                                                  pending := if s.registry.leader == Some(caller) then s.registry.pending else None))
            && (taken.Err? ==> taken.error == if caller !in s.registry.participants then NotAParticipant else LeaderLive)
  {
    LiveLeaderIff(s);
    hide Inv, LiveLeader;
  }

  lemma RefusalChangesNothing(r: Registry, e: Event)
    requires (e.TookOver? || e.Requested?) && !Succeeds(r, e)
    ensures Next(r, e) == r
  {
    hide Takeover, RequestHandover;
  }

  /**
   * In every run a takeover succeeds exactly when it is open. It then reports
   * whether the owner changed, and clears the request only if it did; a
   * refused one changes nothing.
   */
  lemma TakeoverIff(events: seq<Event>, t: System, caller: WindowId, force: bool)
    requires Run(START, events, t)
    ensures var taken := Takeover(t.registry, caller, force);
            && (taken.Ok? <==> TakeoverOpen(t, caller, force))
            && (taken.Ok? ==>
                  && (taken.value.1 <==> t.registry.leader != Some(caller))
                  && taken.value.0 == t.registry.(leader := Some(caller),
                                                  pending := if t.registry.leader == Some(caller) then t.registry.pending else None))
            && (taken.Err? ==> taken.error == if caller !in t.registry.participants then NotAParticipant else LeaderLive)
            && (taken.Err? ==> Next(t.registry, TookOver(caller, force)) == t.registry)
  {
    hide Run, Inv, Takeover, TakeoverOpen, Next;
    ReachableInv(events, t);
    TakeoverCases(t, caller, force);
    if Takeover(t.registry, caller, force).Err? {
      RefusalChangesNothing(t.registry, TookOver(caller, force));
    }
  }

  /** A live owner keeps the slot against everybody who does not insist, and loses it to any participant who does. */
  lemma LiveOwnerYieldsOnlyToForce(events: seq<Event>, t: System, caller: WindowId)
    requires Run(START, events, t) && caller in t.registry.participants
    requires t.registry.leader.Some? && t.registry.leader.value != caller
    ensures Takeover(t.registry, caller, false).Ok? <==> t.guards[t.registry.leader.value] == 0
    ensures Takeover(t.registry, caller, true).Ok?
  {
    TakeoverIff(events, t, caller, false);
    TakeoverIff(events, t, caller, true);
    hide Run, Takeover;
  }

  // ---- Handover ------------------------------------------------------------------------------------

  /** Why a request for `chosen` is refused, in the order in which it is found out. */
  ghost function RequestRefusal(s: System, requester: WindowId, chosen: WindowId): Option<HandoverError> {
    if s.registry.pending.Some? then Some(AlreadyPending)
    else if requester !in s.registry.participants then Some(NotAParticipant)
    else if chosen !in s.registry.participants then Some(UnknownTarget)
    else if s.registry.leader.None? then Some(NoLeader)
    else if s.registry.leader.value == chosen then Some(AlreadyLeader)
    else if s.guards[s.registry.leader.value] == 0 then Some(LeaderNotLive)
    else None
  }

  lemma RequestCases(s: System, id: string, requester: WindowId, target: Option<WindowId>, chosen: WindowId)
    requires Inv(s) && chosen == match target case Some(w) => w case None => requester
    ensures var refusal := RequestRefusal(s, requester, chosen);
            var asked := RequestHandover(s.registry, id, requester, target);
            && (refusal.Some? ==> asked == Err(refusal.value))
            && (refusal.None? ==>
                  && s.registry.leader.Some?
                  && asked == Ok(s.registry.(pending := Some(Handover(id, requester, chosen, s.registry.leader.value)))))
  {
    LiveLeaderIff(s);
    hide Inv, LiveLeader;
    var asked := RequestHandover(s.registry, id, requester, target);
    var refusal := RequestRefusal(s, requester, chosen);
    if s.registry.pending.Some? {
      assert asked == Err(AlreadyPending);
    } else if requester !in s.registry.participants {
      assert asked == Err(NotAParticipant);
    } else if chosen !in s.registry.participants {
      assert asked == Err(UnknownTarget);
    }
  }

  /**
   * In every run a request asks the live owner for the window it names, or for
   * the requester when it names none; a refused one changes nothing.
   */
  lemma RequestAsksForTheNamed(events: seq<Event>, t: System, id: string, requester: WindowId, target: Option<WindowId>)
    requires Run(START, events, t)
    ensures var chosen := match target case Some(w) => w case None => requester;
            var refusal := RequestRefusal(t, requester, chosen);
            var asked := RequestHandover(t.registry, id, requester, target);
            && (refusal.Some? ==> asked == Err(refusal.value) && Next(t.registry, Requested(id, requester, target)) == t.registry)
            && (refusal.None? ==>
                  && t.registry.leader.Some?
                  && asked == Ok(t.registry.(pending := Some(Handover(id, requester, chosen, t.registry.leader.value)))))
  {
    hide Run, Inv, RequestHandover, RequestRefusal, Next;
    ReachableInv(events, t);
    RequestCases(t, id, requester, target, match target case Some(w) => w case None => requester);
    if RequestHandover(t.registry, id, requester, target).Err? {
      RefusalChangesNothing(t.registry, Requested(id, requester, target));
    }
  }

  /** What becomes of a pending request: only its answer, its cancellation, a moving takeover or the loss of an end removes it. */
  lemma RequestStaysUntil(s: System, e: Event)
    requires Inv(s) && Enabled(s, e) && s.registry.pending.Some?
    ensures var h := s.registry.pending.value;
            After(s, e).pending ==
            if || ((e.Resolved? || e.Cancelled?) && e.id == h.requestId)
               || (e.TookOver? && TakeoverOpen(s, e.caller, e.force) && s.registry.leader != Some(e.caller))
               || h.leader !in After(s, e).participants || h.target !in After(s, e).participants
            then None else s.registry.pending
  {
    EndsTakePart(s);
    hide BestOwner, FreshDefault, RenameAllowed, ComputedState, RequestHandover, Takeover, TakeoverOpen, Stable, CountsGuards;
    match e
    case TookOver(caller, force) =>
      TakeoverCases(s, caller, force);
      HandoversTouchNobody(s.registry, e);
    case Requested(id, requester, target) => SecondRequestRefused(s.registry, e);
    case _ =>
  }

  lemma EndsTakePart(s: System)
    requires Inv(s) && s.registry.pending.Some?
    ensures var h := s.registry.pending.value; h.leader in s.registry.participants && h.target in s.registry.participants
  {
  }

  lemma SecondRequestRefused(r: Registry, e: Event)
    requires e.Requested? && r.pending.Some?
    ensures Next(r, e) == r
  {
  }

  /** Nothing but a request fills the slot. */
  lemma OnlyRequestsPark(s: System, e: Event)
    requires Enabled(s, e) && s.registry.pending.None? && !e.Requested?
    ensures After(s, e).pending.None?
  {
    hide BestOwner, FreshDefault, RenameAllowed;
  }

  // ---- Names -------------------------------------------------------------------------------------------

  /** The explicit name is shown first, then the identity by whatever halves it has, then the generated name. */
  lemma ShownInOrder(p: Participant)
    ensures p.name.Some? ==> EffectiveName(p) == p.name.value
    ensures p.name.None? ==>
              match p.identity
              case Some(Identity(Some(name), Some(email))) => EffectiveName(p) == name + " <" + email + ">"
              case Some(Identity(Some(name), None)) => EffectiveName(p) == name
              case Some(Identity(None, Some(email))) => EffectiveName(p) == email
              case _ => EffectiveName(p) == p.defaultName
    ensures DisplayString(p.identity).None? <==>
              p.identity.None? || (p.identity.value.displayName.None? && p.identity.value.email.None?)
  {
  }

  /** An explicit name is set exactly if it is well-formed and nobody else shows it in any case; it is then shown trimmed. */
  lemma RenameSetsExactly(s: System, w: WindowId, name: string)
    ensures var ps := s.registry.participants;
            var valid := NameRules.Validate(name);
            var r := Next(s.registry, Renamed(w, Some(name)));
            var allowed := w in ps && valid.Ok?
                           && forall v | v in ps && v != w :: Fold(EffectiveName(ps[v])) != Fold(valid.value);
            && (Succeeds(s.registry, Renamed(w, Some(name))) <==> allowed)
            && (allowed ==> w in r.participants && EffectiveName(r.participants[w]) == valid.value
                            && r == s.registry.(participants := ps[w := ps[w].(name := Some(valid.value))]))
            && (!allowed ==> r == s.registry)
  {
    hide Fold, NameRules.Validate;
    var ps := s.registry.participants;
    if w in ps && NameRules.Validate(name).Ok? {
      forall v
        ensures Holds(s.registry, w, Some(name), v) <==>
                v in ps && v != w && Fold(EffectiveName(ps[v])) == Fold(NameRules.Validate(name).value)
      {
      }
    }
  }

  /** A reset, where allowed, brings back the identity or the generated name; an identity is never refused. */
  lemma ResetFallsBack(s: System, w: WindowId)
    requires w in s.registry.participants
    ensures var ps := s.registry.participants;
            var r := Next(s.registry, Renamed(w, None));
            && (DisplayString(ps[w].identity).Some? ==> Succeeds(s.registry, Renamed(w, None)))
            && (Succeeds(s.registry, Renamed(w, None)) ==>
                  && r == s.registry.(participants := ps[w := ps[w].(name := None)])
                  && EffectiveName(r.participants[w]) ==
                     if DisplayString(ps[w].identity).Some? then DisplayString(ps[w].identity).value else ps[w].defaultName)
            && (!Succeeds(s.registry, Renamed(w, None)) ==> r == s.registry)
  {
    hide Fold, DisplayString;
  }

  /** No other step touches anybody's explicit name. */
  lemma OnlyRenamesName(s: System, e: Event, w: WindowId)
    requires Enabled(s, e) && w in s.registry.participants && w in After(s, e).participants
    requires !(e.Renamed? && e.window == w)
    ensures After(s, e).participants[w].name == s.registry.participants[w].name
  {
    hide BestOwner, FreshDefault, RenameAllowed, ComputedState, RequestHandover, ResolveHandover, CancelHandover, Takeover;
    if e.Requested? || e.Resolved? || e.Cancelled? || e.TookOver? {
      HandoversTouchNobody(s.registry, e);
    }
  }
}
