/** Revocation, admission, eviction and names over runs of the client roster. */
module ClientTheorems {
  import opened Wrappers
  import opened CaseFold
  import opened ClientRoster
  import opened ClientRuns
  import NameRules

  // ---- Revocation ---------------------------------------------------------------

  ghost predicate Revoked(s: World, n: nat) {
    n in s.leases && s.leases[n].channel < |s.roster.revoked| && s.roster.revoked[s.leases[n].channel]
  }

  /** In every reachable state a lease is revoked or listens to its client's current channel. */
  lemma LeaseRevokedOrCurrent(events: seq<Event>, t: World, n: nat)
    requires Run(START, events, t) && n in t.leases
    ensures t.leases[n].client in t.roster.clients
    ensures Revoked(t, n)
            || (t.leases[n].channel == t.roster.clients[t.leases[n].client].channel
                && !Detached(t.roster, t.leases[n].client))
  {
    ReachableInv(events, t);
    hide Run;
    assert LeasesMatch(t) && LeasesListen(t);
  }

  /** Detaching revokes all leases of the client and no other lease. */
  lemma DetachRevokesExactly(s: World, id: ClientId, n: nat)
    requires Inv(s) && id in s.roster.clients && n in s.leases
    ensures var t := Apply(s, DetachedBy(id));
            Revoked(t, n) <==> Revoked(s, n) || s.leases[n].client == id
  {
    hide TagsTell, Mirrored, UntaggedAttached;
  }

  /** No step takes a revocation back, so resuming revives no old lease. */
  lemma StepKeepsRevoked(s: World, e: Event, channel: nat)
    requires Enabled(s, e) && channel < |s.roster.revoked| && s.roster.revoked[channel]
    ensures channel < |Apply(s, e).roster.revoked| && Apply(s, e).roster.revoked[channel]
  {
    if e.Connected? {
      ConnectCases(s, e);
      if Admits(s.roster, e) {
        AddedRevoked(s.roster, e);
      }
    }
    hide Connect, NameAvailable, ValidHolder, Added;
  }

  lemma {:induction false} RunKeepsRevoked(s: World, events: seq<Event>, t: World, channel: nat)
    requires Run(s, events, t) && channel < |s.roster.revoked| && s.roster.revoked[channel]
    ensures channel < |t.roster.revoked| && t.roster.revoked[channel]
    decreases |events|
  {
    hide Apply, Enabled;
    if events != [] {
      StepKeepsRevoked(s, events[0], channel);
      RunKeepsRevoked(Apply(s, events[0]), events[1..], t, channel);
    }
  }

  // ---- Admission --------------------------------------------------------------------

  /** A connect is refused exactly for a detached holder or a roster nobody can leave. */
  lemma RefusedIff(r: Roster, holder: Option<string>, placement: Placement, now: nat, newId: ClientId, name: string)
    requires Mirrored(r)
    ensures var (r', answer) := Connect(r, holder, placement, now, newId, name);
            var key := HolderOf(holder, r.nextConnection + 1);
            && (answer == Err(IsDetached) <==> HolderDetached(r, key))
            && (answer == Err(LimitReached) <==>
                  key !in r.holders && |r.clients| >= 4096 && forall id :: !Evictable(r, id))
            && (answer.Err? ==> r' == r.(nextConnection := r.nextConnection + 1))
  {
    CountedRoom(r, r.nextConnection + 1);
    hide ValidHolder;
  }

  ghost predicate Resumes(e: Event, tag: string) {
    e == ResumedBy(tag)
  }

  lemma ConnectKeepsDetached(s: World, e: Event, holder: Holder)
    requires Inv(s) && Enabled(s, e) && e.Connected? && HolderDetached(s.roster, holder)
    ensures HolderDetached(Apply(s, e).roster, holder)
  {
    var r, id := s.roster, s.roster.holders[holder];
    assert Mirrored(r);
    ConnectCases(s, e);
    hide RosterOk, LeasesOk, UntaggedAttached, Connect, FreshDraw, MakeRoom, ValidHolder, Added, AddClient;
    if Admits(r, e) {
      EvictionSpares(r, e, holder, id);
    }
  }

  lemma OtherStepsKeepDetached(s: World, e: Event, tag: string)
    requires RosterOk(s.roster) && Enabled(s, e) && !e.Connected? && HolderDetached(s.roster, Tag(tag)) && !Resumes(e, tag)
    ensures HolderDetached(Apply(s, e).roster, Tag(tag))
  {
    hide NameAvailable, ValidHolder;
    var id := s.roster.holders[Tag(tag)];
    assert s.roster.clients[id].tagged;
  }

  /** A detached holder stays detached through every step but its own resume. */
  lemma StepKeepsDetached(s: World, e: Event, tag: string)
    requires Inv(s) && Enabled(s, e) && HolderDetached(s.roster, Tag(tag)) && !Resumes(e, tag)
    ensures HolderDetached(Apply(s, e).roster, Tag(tag))
  {
    hide Apply, HolderDetached, RosterOk, LeasesOk, UntaggedAttached, FreshDraw;
    if e.Connected? {
      ConnectKeepsDetached(s, e, Tag(tag));
    } else {
      OtherStepsKeepDetached(s, e, tag);
    }
  }

  /** Eviction leaves a client it may not take where it is. */
  lemma EvictionSpares(r: Roster, e: Event, holder: Holder, id: ClientId)
    requires Admits(r, e) && Mirrored(r) && FreshDraw(r, e.newId, e.defaultName)
    requires holder in r.holders && r.holders[holder] == id && !Evictable(r, id)
    ensures id in Added(r, e).clients && Added(r, e).clients[id] == r.clients[id] && id != e.newId
    ensures holder in Added(r, e).holders && Added(r, e).holders[holder] == id
    ensures Added(r, e).revoked == r.revoked + [false]
  {
    hide VictimOf, FreshDefault;
  }

  lemma {:induction false} RunKeepsDetached(s: World, events: seq<Event>, t: World, tag: string)
    requires Inv(s) && Run(s, events, t) && HolderDetached(s.roster, Tag(tag))
    requires forall i | 0 <= i < |events| :: !Resumes(events[i], tag)
    ensures Inv(t) && HolderDetached(t.roster, Tag(tag))
    decreases |events|
  {
    hide Apply, Enabled, Inv, HolderDetached;
    if events != [] {
      StepKeepsInv(s, events[0]);
      StepKeepsDetached(s, events[0], tag);
      RunKeepsDetached(Apply(s, events[0]), events[1..], t, tag);
    }
  }

  /** Between a detach and a resume of its tag no connect under that tag succeeds. */
  lemma NoConnectWhileDetached(s: World, events: seq<Event>, t: World, tag: string,
                               placement: Placement, now: nat, newId: ClientId, name: string)
    requires Inv(s) && Run(s, events, t) && HolderDetached(s.roster, Tag(tag)) && ValidHolder(tag)
    requires forall i | 0 <= i < |events| :: !Resumes(events[i], tag)
    ensures Connect(t.roster, Some(tag), placement, now, newId, name).1 == Err(IsDetached)
  {
    RunKeepsDetached(s, events, t, tag);
    hide Run;
    RefusedIff(t.roster, Some(tag), placement, now, newId, name);
  }

  // ---- Removal ------------------------------------------------------------------------

  /** A connect removes a holder only as the oldest idle undetached client, at the cap. */
  lemma EvictedOnlyIdle(s: World, e: Event, holder: Holder)
    requires Inv(s) && Enabled(s, e) && e.Connected? && holder in s.roster.holders
    requires holder !in Apply(s, e).roster.holders
    ensures Admits(s.roster, e) && |s.roster.clients| == 4096 && Victim(s.roster, s.roster.holders[holder])
  {
    ConnectCases(s, e);
    assert Mirrored(s.roster);
    hide RosterOk, LeasesOk, UntaggedAttached, Connect, FreshDraw, ValidHolder, Added, MakeRoom, Victim;
    assert Admits(s.roster, e);
    NonVictimStays(s.roster, e, holder, s.roster.holders[holder]);
  }

  lemma DropRemoves(s: World, n: nat, now: nat, holder: Holder)
    requires RosterOk(s.roster) && LeasesMatch(s) && n in s.leases && holder in s.roster.holders
    requires holder !in Drop(s.roster, s.leases[n], now).holders
    ensures var id := s.roster.holders[holder];
            && id == s.leases[n].client && id in s.roster.clients && !Detached(s.roster, id)
            && holder.Synthetic? && s.roster.clients[id].connections.Keys == {n}
  {
    hide OwnChannels, ValidHolder;
    var c := s.roster.clients[s.leases[n].client];
    assert (c.connections - {n}).Keys == {};
    assert c.connections.Keys == (c.connections - {n}).Keys + {n};
  }

  /** Any other step removes a holder only with the last lease of an undetached untagged client. */
  lemma DroppedOnlyUntagged(s: World, e: Event, holder: Holder)
    requires Inv(s) && Enabled(s, e) && !e.Connected? && holder in s.roster.holders
    requires holder !in Apply(s, e).roster.holders
    ensures e.DroppedBy? && holder.Synthetic? && s.leases[e.connection].client == s.roster.holders[holder]
    ensures var id := s.roster.holders[holder];
            id in s.roster.clients && !Detached(s.roster, id)
            && s.roster.clients[id].connections.Keys == {e.connection}
  {
    hide RosterOk, LeasesMatch, LeasesListen, UntaggedAttached, NameAvailable, ValidHolder, Drop;
    DropRemoves(s, e.connection, e.now, holder);
  }

  lemma NonVictimStays(r: Roster, e: Event, holder: Holder, id: ClientId)
    requires Admits(r, e) && Mirrored(r) && |r.clients| <= MAX_CLIENTS && holder in r.holders && r.holders[holder] == id
    ensures holder in Added(r, e).holders || (|r.clients| == MAX_CLIENTS && Victim(r, id))
  {
    assert VictimOf(r).Some? ==> Victim(r, VictimOf(r).value);
    hide VictimOf, Victim;
  }

  /** Eviction happens only at the cap, and takes the least recently seen idle client. */
  lemma EvictedIsOldest(s: World, e: Event, other: ClientId)
    requires Inv(s) && Enabled(s, e) && Admits(s.roster, e) && |s.roster.clients| == MAX_CLIENTS
    requires Evictable(s.roster, other)
    ensures VictimOf(s.roster).Some? && Evictable(s.roster, VictimOf(s.roster).value)
    ensures s.roster.clients[VictimOf(s.roster).value].lastSeen <= s.roster.clients[other].lastSeen
    ensures s.roster.clients[VictimOf(s.roster).value].holder !in Apply(s, e).roster.holders
  {
    ConnectCases(s, e);
    assert Mirrored(s.roster);
    hide RosterOk, LeasesOk, UntaggedAttached, Connect, FreshDraw, ValidHolder;
  }

  // ---- Names ------------------------------------------------------------------------------

  /** The record behind `id` leaves the roster in this step. */
  ghost predicate Forgets(s: World, e: Event, id: ClientId)
    requires Enabled(s, e) && id in s.roster.clients
  {
    s.roster.clients[id].holder !in Apply(s, e).roster.holders
  }

  ghost predicate Commands(e: Event, id: ClientId) {
    e.RenamedTo? && e.id == id
  }

  ghost predicate NamedByCommand(s: World, id: ClientId, name: Option<string>) {
    id in s.roster.clients && s.roster.clients[id].source == Command && s.roster.clients[id].name == name
  }

  lemma ConnectKeepsCommand(s: World, e: Event, id: ClientId, name: Option<string>)
    requires Inv(s) && Enabled(s, e) && e.Connected? && NamedByCommand(s, id, name) && !Forgets(s, e, id)
    ensures NamedByCommand(Apply(s, e), id, name)
  {
    var r := s.roster;
    assert Mirrored(r);
    ConnectCases(s, e);
    hide RosterOk, LeasesOk, UntaggedAttached, Connect, FreshDraw, MakeRoom, ValidHolder, Added, AddClient;
    if Admits(r, e) {
      KeptRecord(r, e, id);
    }
  }

  /** A record whose holder is still listed was not evicted, so its id was not reused. */
  lemma KeptRecord(r: Roster, e: Event, id: ClientId)
    requires Admits(r, e) && Mirrored(r) && FreshDraw(r, e.newId, e.defaultName) && id in r.clients
    requires r.clients[id].holder in Added(r, e).holders
    ensures id != e.newId && id in Added(r, e).clients && Added(r, e).clients[id] == r.clients[id]
  {
    assert VictimOf(r).Some? ==> VictimOf(r).value in r.clients;
    hide VictimOf, FreshDefault;
  }

  /** Traffic and drops leave a kept record's name alone. */
  lemma TrafficKeepsName(r: Roster, lease: Lease, terminal: Option<string>, grid: Option<(nat, nat)>, now: nat, id: ClientId)
    requires id in r.clients
    ensures var r' := Observe(r, lease, terminal, grid, now);
            id in r'.clients && r'.clients[id].name == r.clients[id].name && r'.clients[id].source == r.clients[id].source
    ensures var r' := Drop(r, lease, now);
            r.clients[id].holder in r'.holders ==>
              id in r'.clients && r'.clients[id].name == r.clients[id].name && r'.clients[id].source == r.clients[id].source
  {
  }

  /** Only another command changes the name of a record named by command. */
  lemma StepKeepsCommand(s: World, e: Event, id: ClientId, name: Option<string>)
    requires Inv(s) && Enabled(s, e) && NamedByCommand(s, id, name) && !Commands(e, id) && !Forgets(s, e, id)
    ensures NamedByCommand(Apply(s, e), id, name)
  {
    hide Inv, Connect, NameAvailable, ValidHolder, Observe, Drop, FreshDraw;
    match e
    case Connected(_, _, _, _, _) => ConnectKeepsCommand(s, e, id, name);
    case DroppedBy(n, now) => TrafficKeepsName(s.roster, s.leases[n], None, None, now, id);
    case ObservedBy(n, terminal, grid, now) => TrafficKeepsName(s.roster, s.leases[n], terminal, grid, now, id);
    case _ =>
  }

  /** The events leave the record of `id` listed and no command names it. */
  ghost predicate LeftAlone(s: World, events: seq<Event>, id: ClientId)
    decreases |events|
  {
    events != [] ==>
      && Enabled(s, events[0]) && id in s.roster.clients
      && !Commands(events[0], id) && !Forgets(s, events[0], id)
      && LeftAlone(Apply(s, events[0]), events[1..], id)
  }

  /** After a command rename or reset no presentation changes that record's name again. */
  lemma {:induction false} CommandSticks(s: World, events: seq<Event>, t: World, id: ClientId, name: Option<string>)
    requires Inv(s) && Run(s, events, t) && NamedByCommand(s, id, name) && LeftAlone(s, events, id)
    ensures NamedByCommand(t, id, name)
    decreases |events|
  {
    hide Apply, Enabled, Inv, NamedByCommand, Forgets, Commands;
    if events != [] {
      StepKeepsInv(s, events[0]);
      StepKeepsCommand(s, events[0], id, name);
      CommandSticks(Apply(s, events[0]), events[1..], t, id, name);
    }
  }

  /** No two generated defaults clash, shown or not. */
  ghost predicate DistinctDefaults(r: Roster) {
    forall a, b | a in r.clients && b in r.clients && a != b :: !Clash(r.clients[a].defaultName, r.clients[b].defaultName)
  }

  lemma AdmitKeepsDefaults(r: Roster, e: Event)
    requires Admits(r, e) && FreshDraw(r, e.newId, e.defaultName) && DistinctDefaults(r)
    ensures DistinctDefaults(Added(r, e))
  {
    hide VictimOf, Fold;
  }

  lemma StepKeepsDefaults(s: World, e: Event)
    requires Enabled(s, e) && DistinctDefaults(s.roster)
    ensures DistinctDefaults(Apply(s, e).roster)
  {
    hide Fold, Connect, NameAvailable, ValidHolder;
    if e.Connected? {
      ConnectCases(s, e);
      if Admits(s.roster, e) {
        AdmitKeepsDefaults(s.roster, e);
        hide Added;
      }
    }
  }

  lemma {:induction false} RunKeepsDefaults(s: World, events: seq<Event>, t: World)
    requires Run(s, events, t) && DistinctDefaults(s.roster)
    ensures DistinctDefaults(t.roster)
    decreases |events|
  {
    hide Apply, Enabled, DistinctDefaults;
    if events != [] {
      StepKeepsDefaults(s, events[0]);
      RunKeepsDefaults(Apply(s, events[0]), events[1..], t);
    }
  }

  // ---- Explicit names are stored as the rules accept them ----------------------------------------

  ghost predicate NamesAccepted(r: Roster) {
    forall id | id in r.clients :: NameRules.Accepted(r.clients[id].name)
  }

  lemma NoNameAccepted()
    ensures NameRules.Accepted(None)
  {
  }

  lemma ConnectKeepsAccepted(s: World, e: Event)
    requires Enabled(s, e) && e.Connected? && NamesAccepted(s.roster)
    ensures NamesAccepted(Apply(s, e).roster)
  {
    ConnectCases(s, e);
    if Admits(s.roster, e) {
      AddedRevoked(s.roster, e);
      AddedUnnamed(s.roster, e);
    }
    NoNameAccepted();
    hide Apply, Enabled, Added, Reconnects, Admits, NameRules.Accepted;
  }

  lemma AddedUnnamed(r: Roster, e: Event)
    requires Admits(r, e)
    ensures e.newId in Added(r, e).clients && Added(r, e).clients[e.newId].name.None?
  {
    hide MakeRoom;
  }

  lemma StepKeepsAccepted(s: World, e: Event)
    requires Enabled(s, e) && NamesAccepted(s.roster)
    ensures NamesAccepted(Apply(s, e).roster)
  {
    if e.Connected? {
      ConnectKeepsAccepted(s, e);
    } else {
      hide NameRules.Accepted, NameRules.Stored, NameAvailable, Connect, ValidHolder;
      match e
      case RenamedTo(id, name) =>
        if RenameAllowed(s.roster, id, name) {
          NameRules.StoredIsAccepted(name);
        }
      case PresentedAs(id, name) =>
        if PresentAllowed(s.roster, id, name) {
          NameRules.StoredIsAccepted(Some(name));
        }
      case _ =>
    }
  }

  lemma {:induction false} RunKeepsAccepted(s: World, events: seq<Event>, t: World)
    requires Run(s, events, t) && NamesAccepted(s.roster)
    ensures NamesAccepted(t.roster)
    decreases |events|
  {
    hide NamesAccepted, Apply, Enabled;
    if events != [] {
      StepKeepsAccepted(s, events[0]);
      RunKeepsAccepted(Apply(s, events[0]), events[1..], t);
    }
  }

  /** Whatever names callers pass, every explicit name in a reachable roster is one the rules accept as it is. */
  lemma ReachableNamesAccepted(events: seq<Event>, t: World, id: ClientId)
    requires Run(START, events, t) && id in t.roster.clients && t.roster.clients[id].name.Some?
    ensures NameRules.Validate(t.roster.clients[id].name.value) == Ok(t.roster.clients[id].name.value)
  {
    RunKeepsAccepted(START, events, t);
    hide Run, NameRules.Validate;
  }

  // ---- Unique names of live clients, and where they are lost -----------------------------------

  ghost predicate UniqueLive(r: Roster) {
    forall a, b | LiveClient(r, a) && LiveClient(r, b) && a != b :: !Clash(ShownName(r.clients[a]), ShownName(r.clients[b]))
  }

  /** `id` becomes live under a name it kept while it was not: by a reconnect, or by a resume. */
  ghost predicate Returns(r: Roster, e: Event, id: ClientId) {
    && id in r.clients && !LiveClient(r, id)
    && (|| (Reconnects(r, e) && r.holders[Key(r, e)] == id)
        || (e.ResumedBy? && ValidHolder(e.tag) && HolderDetached(r, Tag(e.tag)) && r.holders[Tag(e.tag)] == id
            && r.clients[id].connections != map[]))
  }

  /** The returning client's name was taken meanwhile by a live one. */
  ghost predicate ReturnsToTakenName(r: Roster, e: Event) {
    exists id :: Returns(r, e, id) && !NameAvailable(r, id, ShownName(r.clients[id]))
  }

  /** Every live client but `id` was live before under the same name. */
  ghost predicate OnlyMoves(r: Roster, r': Roster, id: ClientId) {
    forall a | a != id && LiveClient(r', a) :: LiveClient(r, a) && ShownName(r'.clients[a]) == ShownName(r.clients[a])
  }

  lemma UniqueIffMoverFits(r: Roster, r': Roster, id: ClientId)
    requires UniqueLive(r) && OnlyMoves(r, r', id)
    ensures UniqueLive(r') <==> (LiveClient(r', id) ==> NameAvailable(r', id, ShownName(r'.clients[id])))
  {
    hide Fold, LiveClient;
    if UniqueLive(r') && LiveClient(r', id) {
      forall other ensures !NameHeld(r', id, ShownName(r'.clients[id]), other) {
      }
    } else if LiveClient(r', id) ==> NameAvailable(r', id, ShownName(r'.clients[id])) {
      forall a, b | LiveClient(r', a) && LiveClient(r', b) && a != b
        ensures !Clash(ShownName(r'.clients[a]), ShownName(r'.clients[b]))
      {
        if a == id {
          assert !NameHeld(r', id, ShownName(r'.clients[id]), b);
        } else if b == id {
          assert !NameHeld(r', id, ShownName(r'.clients[id]), a);
        }
      }
    }
  }

  /** A client returning among unchanged others fits exactly if its name is still free. */
  lemma ReturnFits(r: Roster, r': Roster, id: ClientId)
    requires UniqueLive(r) && OnlyMoves(r, r', id) && id in r.clients && LiveClient(r', id)
    requires ShownName(r'.clients[id]) == ShownName(r.clients[id])
    requires forall a | a != id && LiveClient(r, a) :: LiveClient(r', a)
    ensures UniqueLive(r') <==> NameAvailable(r, id, ShownName(r.clients[id]))
  {
    hide Fold, LiveClient;
    UniqueIffMoverFits(r, r', id);
    assert forall other :: NameHeld(r', id, ShownName(r'.clients[id]), other)
                           <==> NameHeld(r, id, ShownName(r.clients[id]), other);
  }

  /** Attaching makes exactly the attached client live. */
  lemma AttachLive(r: Roster, id: ClientId, n: nat, placement: Placement, now: nat)
    requires id in r.clients && !Detached(r, id)
    ensures var r' := Attach(r.(nextConnection := n), id, n, placement, now);
            forall a :: (LiveClient(r', a) <==> LiveClient(r, a) || a == id)
                        && (LiveClient(r', a) ==> ShownName(r'.clients[a]) == ShownName(r.clients[a]))
  {
    var r' := Attach(r.(nextConnection := n), id, n, placement, now);
    assert n in r'.clients[id].connections;
  }

  lemma ReconnectUnique(s: World, e: Event)
    requires Inv(s) && Enabled(s, e) && UniqueLive(s.roster) && Reconnects(s.roster, e)
    ensures UniqueLive(Apply(s, e).roster) <==> !ReturnsToTakenName(s.roster, e)
  {
    ConnectCases(s, e);
    var r, n := s.roster, s.roster.nextConnection + 1;
    var id := r.holders[Key(r, e)];
    var r' := Attach(r.(nextConnection := n), id, n, e.placement, e.now);
    AttachLive(r, id, n, e.placement, e.now);
    hide Inv, Apply, Enabled, Attach, LiveClient, NameAvailable, UniqueLive, ShownName;
    if LiveClient(r, id) {
      SameLive(r, r');
    } else {
      ReturnFits(r, r', id);
      assert Returns(r, e, id);
    }
  }

  lemma SameLive(r: Roster, r': Roster)
    requires UniqueLive(r)
    requires forall a | LiveClient(r', a) :: LiveClient(r, a) && ShownName(r'.clients[a]) == ShownName(r.clients[a])
    ensures UniqueLive(r')
  {
    hide Fold, LiveClient;
  }

  lemma AdmitUnique(s: World, e: Event)
    requires Inv(s) && Enabled(s, e) && UniqueLive(s.roster) && Admits(s.roster, e)
    ensures UniqueLive(Apply(s, e).roster)
  {
    hide Inv, Apply, FreshDraw, MakeRoom, Added, Fold, Connect, Attach, UniqueLive, ShownName;
    ConnectCases(s, e);
    var r, added := s.roster, Added(s.roster, e);
    ChannelsInRange(s);
    AddedRevoked(r, e);
    RoomIsRest(r, e);
    NewcomerFits(r, added, e.newId, r.nextConnection + 1, e.placement, e.now);
  }

  lemma ChannelsInRange(s: World)
    requires Inv(s)
    ensures forall id | id in s.roster.clients :: s.roster.clients[id].channel < |s.roster.revoked|
  {
    hide LeasesOk, TagsTell, UntaggedAttached;
  }

  /** A newcomer whose default clashes with nobody's shown name keeps live names apart. */
  lemma NewcomerFits(r: Roster, added: Roster, id: ClientId, n: nat, placement: Placement, now: nat)
    requires UniqueLive(r) && id in added.clients
    requires forall a | a != id && a in added.clients ::
      && a in r.clients && added.clients[a] == r.clients[a] && Detached(added, a) == Detached(r, a)
      && !Clash(ShownName(added.clients[id]), ShownName(added.clients[a]))
    ensures UniqueLive(Attach(added, id, n, placement, now))
  {
    hide Fold;
    var r' := Attach(added, id, n, placement, now);
    assert OnlyMoves(r, r', id);
    UniqueIffMoverFits(r, r', id);
    assert forall other :: !NameHeld(r', id, ShownName(r'.clients[id]), other);
  }

  lemma RoomIsRest(r: Roster, e: Event)
    requires Admits(r, e) && FreshDraw(r, e.newId, e.defaultName)
    ensures forall id | id in Added(r, e).clients && id != e.newId ::
      !Clash(ShownName(Added(r, e).clients[e.newId]), ShownName(Added(r, e).clients[id]))
  {
    hide VictimOf, Fold;
  }

  lemma ResumeUnique(r: Roster, tag: string)
    requires RosterOk(r) && UniqueLive(r)
    ensures UniqueLive(Resume(r, tag)) <==> !ReturnsToTakenName(r, ResumedBy(tag))
  {
    var r' := Resume(r, tag);
    hide ValidHolder, Fold, TagsTell;
    if ValidHolder(tag) && HolderDetached(r, Tag(tag)) && r.clients[r.holders[Tag(tag)]].connections != map[] {
      var id := r.holders[Tag(tag)];
      assert forall a :: LiveClient(r', a) <==> LiveClient(r, a) || a == id;
      hide LiveClient, NameAvailable, UniqueLive;
      ReturnFits(r, r', id);
      assert Returns(r, ResumedBy(tag), id);
    } else {
      SameLive(r, r');
    }
  }

  lemma NamingUnique(r: Roster, id: ClientId, name: Option<string>, source: NameSource)
    requires UniqueLive(r) && id in r.clients && NameAvailable(r, id, CheckedName(r.clients[id], name))
    ensures UniqueLive(Named(r, id, name, source))
  {
    hide Fold;
    var r' := Named(r, id, name, source);
    UniqueIffMoverFits(r, r', id);
    forall other ensures !NameHeld(r', id, ShownName(r'.clients[id]), other) {
      assert !NameHeld(r, id, CheckedName(r.clients[id], name), other);
    }
  }

  lemma ShrinkingLive(s: World, e: Event)
    requires Enabled(s, e) && (e.ObservedBy? || e.DroppedBy? || e.DetachedBy?)
    ensures var r, r' := s.roster, Apply(s, e).roster;
            forall a | LiveClient(r', a) :: LiveClient(r, a) && ShownName(r'.clients[a]) == ShownName(r.clients[a])
  {
    var r, r' := s.roster, Apply(s, e).roster;
    forall a | LiveClient(r', a)
      ensures LiveClient(r, a) && ShownName(r'.clients[a]) == ShownName(r.clients[a])
    {
      var n :| n in r'.clients[a].connections;
      assert n in r.clients[a].connections;
    }
  }

  lemma OtherStepsUnique(s: World, e: Event)
    requires Inv(s) && Enabled(s, e) && UniqueLive(s.roster) && !e.Connected? && !e.ResumedBy?
    ensures UniqueLive(Apply(s, e).roster)
  {
    var r, r' := s.roster, Apply(s, e).roster;
    hide Inv, LiveClient, UniqueLive, NameAvailable, Observe, Drop, Detach, ShownName;
    match e
    case RenamedTo(id, name) =>
      if RenameAllowed(r, id, name) {
        NamingUnique(r, id, NameRules.Stored(name), Command);
      }
    case PresentedAs(id, name) =>
      if PresentAllowed(r, id, name) && r.clients[id].source != Command {
        NamingUnique(r, id, NameRules.Stored(Some(name)), Presented);
      }
    case _ =>
      ShrinkingLive(s, e);
      SameLive(r, r');
  }

  lemma RefusedUnique(s: World, e: Event)
    requires Enabled(s, e) && UniqueLive(s.roster) && e.Connected? && !Reconnects(s.roster, e) && !Admits(s.roster, e)
    ensures UniqueLive(Apply(s, e).roster)
  {
    ConnectCases(s, e);
    hide Apply, Enabled, Reconnects, Admits, ShownName, UniqueLive, Fold;
    SameLive(s.roster, s.roster.(nextConnection := s.roster.nextConnection + 1));
  }

  lemma ResumeStepUnique(s: World, e: Event)
    requires Inv(s) && Enabled(s, e) && UniqueLive(s.roster) && e.ResumedBy?
    ensures UniqueLive(Apply(s, e).roster) <==> !ReturnsToTakenName(s.roster, e)
  {
    hide RosterOk, LeasesOk, UntaggedAttached, UniqueLive, ReturnsToTakenName, Resume;
    ResumeUnique(s.roster, e.tag);
  }

  /** Nobody returns but by a reconnect or a resume. */
  lemma NobodyReturns(r: Roster, e: Event)
    requires !Reconnects(r, e) && !e.ResumedBy?
    ensures !ReturnsToTakenName(r, e)
  {
    hide Reconnects, NameAvailable, LiveClient;
  }

  /**
   * Live clients keep distinct names through every step except one: a client
   * that comes back, by reconnecting or by being resumed, to a name taken since.
   */
  lemma UniqueLostExactlyByReturn(s: World, e: Event)
    requires Inv(s) && Enabled(s, e) && UniqueLive(s.roster)
    ensures UniqueLive(Apply(s, e).roster) <==> !ReturnsToTakenName(s.roster, e)
  {
    hide Inv, Enabled, Apply, UniqueLive, ReturnsToTakenName, Reconnects, Admits;
    if Reconnects(s.roster, e) {
      ReconnectUnique(s, e);
    } else if e.ResumedBy? {
      ResumeStepUnique(s, e);
    } else {
      NobodyReturns(s.roster, e);
      if Admits(s.roster, e) {
        AdmitUnique(s, e);
      } else if e.Connected? {
        RefusedUnique(s, e);
      } else {
        OtherStepsUnique(s, e);
      }
    }
  }

  // ---- A run that ends with two live clients under one name ---------------------------------------

  ghost function First(p: Placement): Client {
    Client(Tag("a"), true, "x", None, Generated, 0, 0, map[1 := p], 0)
  }

  ghost function Second(p: Placement): Client {
    Client(Tag("b"), true, "y", None, Generated, 0, 0, map[2 := p], 1)
  }

  ghost function OneConnected(p: Placement): World {
    World(Roster(map[0 := First(p)], map[Tag("a") := 0], 1, [false]), map[1 := Lease(0, 1, 0)])
  }

  ghost function OneLeft(p: Placement): World {
    World(Roster(map[0 := First(p).(connections := map[])], map[Tag("a") := 0], 1, [false]), map[])
  }

  ghost function OtherConnected(p: Placement): World {
    World(Roster(map[0 := First(p).(connections := map[]), 1 := Second(p)],
                 map[Tag("a") := 0, Tag("b") := 1], 2, [false, false]),
          map[2 := Lease(1, 2, 1)])
  }

  ghost function NameTaken(p: Placement): World {
    World(Roster(map[0 := First(p).(connections := map[]), 1 := Second(p).(name := Some("x"), source := Command)],
                 map[Tag("a") := 0, Tag("b") := 1], 2, [false, false]),
          map[2 := Lease(1, 2, 1)])
  }

  lemma FirstConnects(p: Placement)
    ensures var e := Connected(Some("a"), p, 0, 0, "x"); Enabled(START, e) && Apply(START, e) == OneConnected(p)
  {
    hide Fold, VictimOf;
    assert |START.roster.clients| == 0 && Tagged(Some("a"));
  }

  lemma FirstLeaves(p: Placement)
    ensures var e := DroppedBy(1, 0); Enabled(OneConnected(p), e) && Apply(OneConnected(p), e) == OneLeft(p)
  {
    assert map[1 := p] - {1} == map[];
    assert Apply(OneConnected(p), DroppedBy(1, 0)).leases == map[];
  }

  lemma SecondFits(p: Placement)
    ensures |OneLeft(p).roster.clients| == 1 && FreshDefault(OneLeft(p).roster, "y") && ValidHolder("b")
  {
    hide Fold;
    PlainIsOwnKey("x");
    PlainIsOwnKey("y");
    assert OneLeft(p).roster.clients.Keys == {0};
  }

  lemma SecondConnects(p: Placement)
    ensures var e := Connected(Some("b"), p, 0, 1, "y"); Enabled(OneLeft(p), e) && Apply(OneLeft(p), e) == OtherConnected(p)
  {
    hide FreshDefault, ValidHolder, VictimOf;
    SecondFits(p);
    assert map[2 := p] == map[][2 := p];
  }

  lemma TakenNameAccepted()
    ensures NameRules.Accepted(Some("x"))
  {
    NameRules.AcceptedUnchanged("x");
  }

  lemma SecondTakesName(p: Placement)
    ensures Apply(OtherConnected(p), RenamedTo(1, Some("x"))) == NameTaken(p)
  {
    TakenNameAccepted();
    hide Fold, NameRules.WellFormed, NameRules.Stored;
    var r := OtherConnected(p).roster;
    assert forall other :: !NameHeld(r, 1, "x", other);
    assert NameAvailable(r, 1, "x");
  }

  /**
   * A reachable roster of unique live names in which the returning client's
   * name was taken; once it is back, two live clients show one name.
   */
  lemma ReturningNamesCollide(p: Placement) returns (events: seq<Event>, back: Event)
    ensures Run(START, events, NameTaken(p)) && UniqueLive(NameTaken(p).roster)
    ensures back.Connected? && Enabled(NameTaken(p), back) && !UniqueLive(Apply(NameTaken(p), back).roster)
  {
    FirstConnects(p);
    FirstLeaves(p);
    SecondConnects(p);
    SecondTakesName(p);
    NameIsTaken(p);
    hide Apply, OneConnected, OneLeft, OtherConnected, NameTaken, UniqueLive, ReturnsToTakenName, Inv;
    var e1, e2 := Connected(Some("a"), p, 0, 0, "x"), DroppedBy(1, 0);
    var e3, e4 := Connected(Some("b"), p, 0, 1, "y"), RenamedTo(1, Some("x"));
    assert Run(NameTaken(p), [], NameTaken(p));
    assert [e4][1..] == [] && Run(OtherConnected(p), [e4], NameTaken(p));
    assert [e3, e4][1..] == [e4] && Run(OneLeft(p), [e3, e4], NameTaken(p));
    assert [e2, e3, e4][1..] == [e3, e4] && Run(OneConnected(p), [e2, e3, e4], NameTaken(p));
    events := [e1, e2, e3, e4];
    assert events[1..] == [e2, e3, e4];
    back := Connected(Some("a"), p, 0, 0, "");
    ReachableInv(events, NameTaken(p));
    UniqueLostExactlyByReturn(NameTaken(p), back);
  }

  lemma NameIsTaken(p: Placement)
    ensures UniqueLive(NameTaken(p).roster) && Enabled(NameTaken(p), Connected(Some("a"), p, 0, 0, ""))
    ensures ReturnsToTakenName(NameTaken(p).roster, Connected(Some("a"), p, 0, 0, ""))
  {
    hide Fold;
    var r := NameTaken(p).roster;
    assert Tagged(Some("a"));
    assert 2 in r.clients[1].connections;
    assert Returns(r, Connected(Some("a"), p, 0, 0, ""), 0);
    assert NameHeld(r, 0, "x", 1);
  }
}
