/** The registry as it runs: fields updated in place, loops over the participants. */
module SessionRegistry {
  import opened Wrappers
  import opened CaseFold
  import opened SessionPresence
  import opened SessionRuns
  import opened SessionReaper
  import opened SessionLaws
  import NameRules
  import ParticipantNames

  datatype RenameError = Malformed(reason: NameRules.NameError) | Unknown | Taken(holder: WindowId)

  /** The first live participant of one locality, by a scan. */
  method FindLowest(ps: map<WindowId, Participant>, local: bool) returns (owner: Option<WindowId>)
    ensures owner.Some? ==> Lowest(ps, owner.value, local)
    ensures owner.None? ==> forall v :: !Eligible(ps, v, local)
  {
    owner := None;
    var todo := ps.Keys;
    while todo != {}
      invariant todo <= ps.Keys
      invariant owner.Some? ==> Eligible(ps, owner.value, local)
      invariant forall v | v !in todo && Eligible(ps, v, local) ::
        owner.Some? && ps[owner.value].joinSeq <= ps[v].joinSeq
      decreases |todo|
    {
      var w :| w in todo;
      todo := todo - {w};
      if Eligible(ps, w, local) && (owner.None? || ps[w].joinSeq < ps[owner.value].joinSeq) {
        owner := Some(w);
      }
    }
  }

  /** The owner under the local-first rule. */
  method FindOwner(ps: map<WindowId, Participant>) returns (owner: Option<WindowId>)
    requires DistinctSeqs(ps)
    ensures owner == BestOwner(ps)
  {
    owner := FindLowest(ps, true);
    if owner.None? {
      owner := FindLowest(ps, false);
    }
    ghost var best := BestOwner(ps);
    assert best.Some? ==> Eligible(ps, best.value, ps[best.value].local);
    assert owner.Some? ==> owner.value in ps;
  }

  /** The earliest threshold, by a scan. */
  method FindDeadline(r: Registry, now: Instant) returns (deadline: Option<Instant>)
    ensures SoonestDeadline(r, now, deadline)
  {
    deadline := None;
    var ps := r.participants;
    var todo := ps.Keys;
    while todo != {}
      invariant todo <= ps.Keys
      invariant deadline.Some? ==> exists w :: w in ps && NextThreshold(ps[w], now) == deadline
      invariant forall w | w in ps && w !in todo && NextThreshold(ps[w], now).Some? ::
        deadline.Some? && deadline.value <= NextThreshold(ps[w], now).value
      decreases |todo|
    {
      var w :| w in todo;
      todo := todo - {w};
      var threshold := NextThreshold(ps[w], now);
      if threshold.Some? && (deadline.None? || threshold.value < deadline.value) {
        deadline := threshold;
      }
    }
  }

  class SessionRegistry {
    var participants: map<WindowId, Participant>
    var leader: Option<WindowId>
    var nextSeq: nat
    var pending: Option<Handover>
    const words: seq<string>

    /** The socket guards handed out and not yet dropped. */
    ghost var guards: multiset<WindowId>

    function View(): Registry
      reads this
    {
      Registry(participants, leader, nextSeq, pending)
    }

    ghost function Contents(): System
      reads this
    {
      System(View(), guards)
    }

    ghost predicate Valid()
      reads this
    {
      && Inv(Contents())
      && words != [] && forall w | w in words :: ParticipantNames.Lowercase(w)
    }

    constructor (words: seq<string>)
      requires words != [] && forall w | w in words :: ParticipantNames.Lowercase(w)
      ensures Valid() && Contents() == START
    {
      this.words := words;
      participants, leader, nextSeq, pending := map[], None, 0, None;
      guards := multiset{};
    }

    /** Draw a default name against every name in play. */
    method DrawDefault() returns (name: string)
      requires Valid()
      ensures FreshDefault(View(), name)
    {
      hide Fold;
      var shown := set w | w in participants :: EffectiveName(participants[w]);
      var defaults := set w | w in participants :: participants[w].defaultName;
      name := ParticipantNames.GenerateName(words, shown + defaults);
      forall w | w in participants
        ensures !Clash(name, EffectiveName(participants[w])) && !Clash(name, participants[w].defaultName)
      {
        assert EffectiveName(participants[w]) in shown + defaults;
        assert participants[w].defaultName in shown + defaults;
      }
    }

    /** A socket of a known window: a reload, or a return within the grace. */
    method Reconnect(window: WindowId) returns (changed: bool)
      requires window in participants
      modifies this`participants
      ensures participants == old(participants)[window := Revived(old(participants)[window])]
      ensures changed == JoinChanged(old(View()), window)
    {
      var p := participants[window];
      var wasLive := p.sockets > 0;
      p := p.(sockets := p.sockets + 1, disconnectedAt := None);
      changed := !wasLive && p.state != Live;
      if changed {
        p := p.(state := Live);
      }
      participants := participants[window := p];
    }

    /** A new window: draw its name, append it to the join order, elect if due. */
    method Admit(window: WindowId, local: bool, identity: Option<Identity>) returns (drawn: string)
      requires Valid() && window !in participants
      modifies this`participants, this`nextSeq, this`leader
      ensures FreshDefault(old(View()), drawn)
      ensures View() == SessionPresence.Join(old(View()), window, local, identity, drawn)
    {
      hide BestOwner, FreshDefault;
      drawn := DrawDefault();
      var ownerIsLocal := leader.Some? && participants[leader.value].local;
      participants := participants[window := Participant(None, identity, drawn, local, 1, nextSeq, Live, None)];
      nextSeq := nextSeq + 1;
      if leader.None? || (local && !ownerIsLocal) {
        leader := FindOwner(participants);
      }
    }

    /** Register one live socket; the caller holds the guard until it drops. */
    method Join(window: WindowId, local: bool, identity: Option<Identity>) returns (changed: bool, ghost joined: Event)
      requires Valid()
      modifies this
      ensures Valid()
      ensures joined.Joined? && joined.window == window && joined.local == local && joined.identity == identity
      ensures Enabled(old(Contents()), joined) && Contents() == Apply(old(Contents()), joined)
      ensures changed == JoinChanged(old(View()), window)
    {
      hide FreshDefault, BestOwner, Inv;
      if window in participants {
        changed := Reconnect(window);
        joined := Joined(window, local, identity, "");
      } else {
        var drawn := Admit(window, local, identity);
        joined := Joined(window, local, identity, drawn);
        changed := true;
      }
      guards := guards + multiset{window};
      StepKeepsInv(old(Contents()), joined);
    }

    /** Decrement the count; the last socket starts the grace clock. */
    method Release(window: WindowId, at: Instant) returns (armed: bool)
      modifies this`participants
      ensures View() == SessionPresence.SocketDropped(old(View()), window, at)
      ensures armed <==> window in old(participants) && old(participants)[window].sockets <= 1
    {
      armed := false;
      if window in participants {
        var p := participants[window];
        p := p.(sockets := if p.sockets > 0 then p.sockets - 1 else 0);
        if p.sockets == 0 {
          p := p.(state := Disconnecting, disconnectedAt := Some(at));
          armed := true;
        }
        participants := participants[window := p];
      }
    }

    /** A guard's drop; `armed` says that the grace clock started. */
    method SocketDropped(window: WindowId, at: Instant) returns (armed: bool)
      requires Valid() && guards[window] > 0
      modifies this
      ensures Valid() && Contents() == Apply(old(Contents()), Dropped(window, at))
      ensures armed <==> old(guards[window]) == 1
    {
      hide Stable, SessionPresence.SocketDropped;
      StepKeepsInv(Contents(), Dropped(window, at));
      armed := Release(window, at);
      guards := guards - multiset{window};
    }

    /** Step every disconnected participant and list the ones that went gone. */
    method StepAll(now: Instant) returns (gone: seq<WindowId>, changed: bool)
      modifies this`participants
      ensures participants.Keys == old(participants).Keys
      ensures forall w | w in participants :: participants[w] == Stepped(old(participants)[w], now)
      ensures forall w :: w in gone <==> GoneAt(old(View()), w, now)
      ensures changed == ReapChanged(old(View()), now)
    {
      gone, changed := [], false;
      var todo := participants.Keys;
      while todo != {}
        invariant todo <= participants.Keys == old(participants).Keys
        invariant forall w | w in participants ::
          participants[w] == if w in todo then old(participants)[w] else Stepped(old(participants)[w], now)
        invariant forall w :: w in gone <==> w !in todo && GoneAt(old(View()), w, now)
        invariant changed <==>
          exists w :: w in participants && w !in todo && Stepped(old(participants)[w], now).state != old(participants)[w].state
        decreases |todo|
      {
        var w :| w in todo;
        todo := todo - {w};
        var p := participants[w];
        if p.sockets == 0 {
          var next := ComputedState(p, now);
          if next != p.state {
            participants := participants[w := p.(state := next)];
            changed := true;
          }
          if next == Gone {
            gone := gone + [w];
          }
        }
      }
    }

    /** Remove the gone participants, their handover and their leadership. */
    method RemoveAll(gone: seq<WindowId>) returns (leaderLost: bool)
      requires forall w | w in gone :: w in participants
      modifies this`participants, this`leader, this`pending
      ensures participants == old(participants) - (set w | w in gone)
      ensures leaderLost <==> old(leader).Some? && old(leader).value in gone
      ensures leader == if leaderLost then None else old(leader)
      ensures pending ==
        if old(pending).Some? && (old(pending).value.leader in gone || old(pending).value.target in gone)
        then None else old(pending)
    {
      leaderLost := false;
      for i := 0 to |gone|
        invariant participants == old(participants) - (set w | w in gone[..i])
        invariant leaderLost <==> old(leader).Some? && old(leader).value in gone[..i]
        invariant leader == if leaderLost then None else old(leader)
        invariant pending ==
          if old(pending).Some? && (old(pending).value.leader in gone[..i] || old(pending).value.target in gone[..i])
          then None else old(pending)
      {
        assert gone[..i + 1] == gone[..i] + [gone[i]];
        participants := participants - {gone[i]};
        if leader == Some(gone[i]) {
          leader := None;
          leaderLost := true;
        }
        if pending.Some? && (pending.value.leader == gone[i] || pending.value.target == gone[i]) {
          pending := None;
        }
      }
      assert gone[..|gone|] == gone;
    }

    /** Step, remove and, when the leader went, elect. */
    method Sweep(now: Instant) returns (changed: bool)
      requires Stable(View())
      modifies this`participants, this`leader, this`pending
      ensures View() == Reap(old(View()), now) && changed == ReapChanged(old(View()), now)
    {
      hide BestOwner;
      ghost var before := View();
      ReapKeepsStable(before, now);
      var gone;
      gone, changed := StepAll(now);
      var leaderLost := RemoveAll(gone);
      assert participants == Survivors(before, now);
      if leaderLost {
        leader := FindOwner(participants);
      }
    }

    /** Advance the grace clock to `now`. */
    method ReapDue(now: Instant) returns (changed: bool, nextDeadline: Option<Instant>)
      requires Valid()
      modifies this
      ensures Valid() && Contents() == Apply(old(Contents()), Reaped(now))
      ensures changed <==> View() != old(View())
      ensures SoonestDeadline(View(), now, nextDeadline)
    {
      hide BestOwner, CountsGuards, Reap, Stable, ReapChanged, SoonestDeadline;
      ghost var before := View();
      StepKeepsInv(Contents(), Reaped(now));
      ReapKeepsStable(before, now);
      ChangedIffMoved(before, now);
      changed := Sweep(now);
      nextDeadline := FindDeadline(View(), now);
    }

    /** Somebody else who shows the name, by a scan. */
    method FindHolder(window: WindowId, name: Option<string>) returns (holder: Option<WindowId>)
      requires window in participants && NameRules.Accepted(name)
      ensures holder.Some? ==> Holds(View(), window, name, holder.value)
      ensures holder.None? ==> RenameAllowed(View(), window, name)
    {
      hide Fold, NameRules.Stored, NameRules.WellFormed;
      holder := None;
      var checked := CheckedName(participants[window], name);
      if checked.Some? {
        var todo := participants.Keys;
        while todo != {}
          invariant todo <= participants.Keys
          invariant forall w | w !in todo :: !Holds(View(), window, name, w)
          decreases |todo|
        {
          var w :| w in todo;
          todo := todo - {w};
          if w != window && Clash(EffectiveName(participants[w]), checked.value) {
            return Some(w);
          }
        }
      }
    }

    /** Set or clear the explicit name, validated before, checked under the same lock. */
    method RenameValidated(window: WindowId, name: Option<string>) returns (result: Result<string, RenameError>)
      requires Valid() && NameRules.Accepted(name)
      modifies this
      ensures Valid() && Contents() == Apply(old(Contents()), Renamed(window, name))
      ensures result.Ok? <==> RenameAllowed(old(View()), window, name)
      ensures result.Ok? <==> Succeeds(old(View()), Renamed(window, name))
      ensures result.Ok? ==> window in participants && result.value == EffectiveName(participants[window])
      ensures result == Err(Unknown) <==> window !in old(participants)
      ensures result.Err? && !result.error.Unknown? ==>
        result.error.Taken? && window in old(participants) && Holds(old(View()), window, name, result.error.holder)
    {
      hide Holds, NameRules.Stored, NameRules.WellFormed;
      StepKeepsInv(old(Contents()), Renamed(window, name));
      if window !in participants {
        return Err(Unknown);
      }
      var holder := FindHolder(window, name);
      if holder.Some? {
        return Err(Taken(holder.value));
      }
      participants := participants[window := participants[window].(name := name)];
      result := Ok(EffectiveName(participants[window]));
    }

    /** Set the explicit name; a malformed one is refused before anything is looked at. */
    method Rename(window: WindowId, name: string) returns (result: Result<string, RenameError>)
      requires Valid()
      modifies this
      ensures Valid() && Contents() == Apply(old(Contents()), Renamed(window, Some(name)))
      ensures result.Ok? <==> RenameAllowed(old(View()), window, Some(name))
      ensures result.Ok? ==> Ok(result.value) == NameRules.Validate(name)
      ensures NameRules.Validate(name).Err? ==> result == Err(Malformed(NameRules.Validate(name).error))
      ensures NameRules.Validate(name).Ok? ==>
        && (result == Err(Unknown) <==> window !in old(participants))
        && (result.Err? && !result.error.Unknown? ==>
              result.error.Taken? && window in old(participants) && Holds(old(View()), window, Some(name), result.error.holder))
    {
      hide NameRules.Validate, Holds;
      var valid := NameRules.Validate(name);
      if valid.Err? {
        return Err(Malformed(valid.error));
      }
      StoredRenames(View(), window, Some(name));
      result := RenameValidated(window, Some(valid.value));
    }

    /** Clear the explicit name. */
    method ResetName(window: WindowId) returns (result: Result<string, RenameError>)
      requires Valid()
      modifies this
      ensures Valid() && Contents() == Apply(old(Contents()), Renamed(window, None))
      ensures result.Ok? <==> RenameAllowed(old(View()), window, None)
      ensures result.Ok? ==> window in participants && participants[window].name.None?
      ensures result == Err(Unknown) <==> window !in old(participants)
    {
      hide Holds;
      result := RenameValidated(window, None);
    }

    /** Park a request; the answer is the owner to ask. */
    method RequestHandover(id: string, requester: WindowId, target: Option<WindowId>)
      returns (result: Result<WindowId, HandoverError>)
      requires Valid()
      modifies this
      ensures Valid() && Contents() == Apply(old(Contents()), Requested(id, requester, target))
      ensures result.Ok? ==> old(leader) == Some(result.value)
      ensures result.Ok? <==> Succeeds(old(View()), Requested(id, requester, target))
      ensures var chosen := if target.Some? then target.value else requester;
              match RequestRefusal(old(Contents()), requester, chosen)
              case Some(error) => result == Err(error) && View() == old(View())
              case None => result.Ok? && pending == Some(Handover(id, requester, chosen, result.value))
    {
      StepKeepsInv(old(Contents()), Requested(id, requester, target));
      RequestCases(Contents(), id, requester, target, if target.Some? then target.value else requester);
      if pending.Some? {
        return Err(AlreadyPending);
      }
      if requester !in participants {
        return Err(NotAParticipant);
      }
      var chosen := if target.Some? then target.value else requester;
      if chosen !in participants {
        return Err(UnknownTarget);
      }
      if leader.None? {
        return Err(NoLeader);
      }
      if leader.value == chosen {
        return Err(AlreadyLeader);
      }
      if participants[leader.value].sockets == 0 {
        return Err(LeaderNotLive);
      }
      pending := Some(Handover(id, requester, chosen, leader.value));
      return Ok(leader.value);
    }

    /** Answer the pending request; `None` when `id` is stale. */
    method ResolveHandover(id: string, accept: bool) returns (newLeader: Option<Option<WindowId>>)
      requires Valid()
      modifies this
      ensures Valid() && Contents() == Apply(old(Contents()), Resolved(id, accept))
      ensures newLeader.Some? <==> old(pending).Some? && old(pending).value.requestId == id
      ensures newLeader.Some? <==> Succeeds(old(View()), Resolved(id, accept))
      ensures newLeader.Some? ==> newLeader.value == if accept then Some(old(pending).value.target) else None
    {
      StepKeepsInv(old(Contents()), Resolved(id, accept));
      if pending.None? || pending.value.requestId != id {
        return None;
      }
      var handover := pending.value;
      pending := None;
      if accept && handover.target in participants {
        leader := Some(handover.target);
        return Some(Some(handover.target));
      }
      return Some(None);
    }

    /** Drop the pending request `id` without an answer. */
    method CancelHandover(id: string)
      requires Valid()
      modifies this
      ensures Valid() && Contents() == Apply(old(Contents()), Cancelled(id))
    {
      StepKeepsInv(old(Contents()), Cancelled(id));
      if pending.Some? && pending.value.requestId == id {
        pending := None;
      }
    }

    /** Seize the owner slot; the answer says whether it moved. */
    method Takeover(caller: WindowId, force: bool) returns (result: Result<bool, HandoverError>)
      requires Valid()
      modifies this
      ensures Valid() && Contents() == Apply(old(Contents()), TookOver(caller, force))
      ensures result.Ok? ==> leader == Some(caller) && (result.value <==> old(leader) != leader)
      ensures result.Ok? <==> TakeoverOpen(old(Contents()), caller, force)
      ensures result.Ok? <==> Succeeds(old(View()), TookOver(caller, force))
      ensures result.Err? ==> View() == old(View())
      ensures result.Err? ==> result.error == if caller !in old(participants) then NotAParticipant else LeaderLive
    {
      StepKeepsInv(old(Contents()), TookOver(caller, force));
      TakeoverCases(Contents(), caller, force);
      if caller !in participants {
        return Err(NotAParticipant);
      }
      if leader == Some(caller) {
        return Ok(false);
      }
      var leaderLive := leader.Some? && leader.value in participants && participants[leader.value].sockets > 0;
      if leaderLive && !force {
        return Err(LeaderLive);
      }
      leader := Some(caller);
      pending := None;
      return Ok(true);
    }

    /** Whether a dispatch to `window` runs now. */
    method DispatchIfLive(window: WindowId) returns (runs: bool)
      requires Valid()
      ensures runs <==> guards[window] > 0
    {
      runs := window in participants && participants[window].sockets > 0 && participants[window].state == Live;
    }
  }
}
