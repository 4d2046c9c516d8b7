/** What each step does to a client's record, field by field, and to the leases. */
module ClientLaws {
  import opened Wrappers
  import opened CaseFold
  import opened ClientRoster
  import opened ClientRuns
  import NameRules

  /** The record of `id` outlives the step. */
  ghost predicate Kept(s: World, e: Event, id: ClientId)
    requires Enabled(s, e)
  {
    && id in s.roster.clients && id in Apply(s, e).roster.clients
    && s.roster.clients[id].holder == Apply(s, e).roster.clients[id].holder
  }

  ghost function Before(s: World, id: ClientId): Client
    requires id in s.roster.clients
  {
    s.roster.clients[id]
  }

  ghost function After(s: World, e: Event, id: ClientId): Client
    requires Enabled(s, e) && Kept(s, e, id)
  {
    Apply(s, e).roster.clients[id]
  }

  /** The step is a connect that `id` is given a lease for. */
  ghost predicate Attaches(s: World, e: Event, id: ClientId) {
    Reconnects(s.roster, e) && s.roster.holders[Key(s.roster, e)] == id
  }

  /** The step is traffic on, or the drop of, a lease of `id`. */
  ghost predicate OnLeaseOf(s: World, e: Event, id: ClientId)
    requires Enabled(s, e)
  {
    (e.ObservedBy? || e.DroppedBy?) && s.leases[e.connection].client == id
  }

  // ---- A connect, seen from one record ------------------------------------------------------

  lemma AddedKeeps(r: Roster, e: Event, id: ClientId)
    requires Admits(r, e) && id in r.clients && id in Added(r, e).clients
    requires Added(r, e).clients[id].holder == r.clients[id].holder && Mirrored(r)
    ensures id != e.newId && Added(r, e).clients[id] == r.clients[id]
  {
    AddedRevoked(r, e);
    AddedRecord(r, e);
    hide Added;
  }

  lemma AddedRecord(r: Roster, e: Event)
    requires Admits(r, e)
    ensures e.newId in Added(r, e).clients
    ensures Added(r, e).clients[e.newId] ==
            Client(Key(r, e), Tagged(e.holder), e.defaultName, None, Generated, e.now, e.now, map[], |r.revoked|)
    ensures Key(r, e) in Added(r, e).holders && Added(r, e).holders[Key(r, e)] == e.newId
  {
    AddedRevoked(r, e);
    hide MakeRoom, ValidHolder;
  }

  /** A connect leaves every kept record alone but the one it attaches to, which gains the connection. */
  lemma ConnectTouchesOne(s: World, e: Event, id: ClientId)
    requires Inv(s) && Enabled(s, e) && e.Connected? && Kept(s, e, id)
    ensures After(s, e, id) ==
            if Attaches(s, e, id)
            then Before(s, id).(lastSeen := e.now,
                                connections := Before(s, id).connections[s.roster.nextConnection + 1 := e.placement])
            else Before(s, id)
  {
    ConnectCases(s, e);
    var r := s.roster;
    if Admits(r, e) {
      AddedRecord(r, e);
      assert Added(r, e).clients[id].holder == r.clients[id].holder;
      AddedKeeps(r, e, id);
    }
    hide Apply, Added, LeasesOk, UntaggedAttached, FreshDraw, MakeRoom, Connect, ValidHolder;
  }

  // ---- The other steps, seen from one record ---------------------------------------------------

  /** What traffic leaves of a connection: the terminal and grid it names, the others as they were. */
  ghost predicate Refreshed(p: Placement, q: Placement, e: Event)
    requires e.ObservedBy?
  {
    && q.lastSeen == e.now
    && q.terminal == (if e.terminal.None? then p.terminal else e.terminal)
    && q.grid == (if e.grid.None? then p.grid else e.grid)
    && q.tenant == p.tenant && q.window == p.window && q.kind == p.kind && q.transport == p.transport
    && q.connectedAt == p.connectedAt
  }

  lemma LeaseIsStored(s: World, n: nat)
    requires Inv(s) && n in s.leases
    ensures s.leases[n].connection == n && s.leases[n].client in s.roster.clients
    ensures n in s.roster.clients[s.leases[n].client].connections
  {
    hide RosterOk, UntaggedAttached, LeasesListen;
  }

  lemma ObserveTouchesOne(s: World, e: Event, id: ClientId) returns (q: Placement)
    requires Inv(s) && Enabled(s, e) && e.ObservedBy? && Kept(s, e, id)
    ensures OnLeaseOf(s, e, id) ==>
              && e.connection in Before(s, id).connections && Refreshed(Before(s, id).connections[e.connection], q, e)
              && After(s, e, id) == Before(s, id).(lastSeen := e.now,
                                                   connections := Before(s, id).connections[e.connection := q])
    ensures !OnLeaseOf(s, e, id) ==> After(s, e, id) == Before(s, id)
  {
    LeaseIsStored(s, e.connection);
    hide Inv;
    var lease := s.leases[e.connection];
    q := Observed(s.roster.clients[lease.client].connections[e.connection], e.terminal, e.grid, e.now);
  }

  lemma DropTouchesOne(s: World, e: Event, id: ClientId)
    requires Inv(s) && Enabled(s, e) && e.DroppedBy? && Kept(s, e, id)
    ensures After(s, e, id) ==
            if OnLeaseOf(s, e, id)
            then Before(s, id).(lastSeen := e.now, connections := Before(s, id).connections - {e.connection})
            else Before(s, id)
  {
    LeaseIsStored(s, e.connection);
    hide Inv;
  }

  /** The step resumes the tag that `id` holds. */
  ghost predicate ResumesClient(s: World, e: Event, id: ClientId)
    requires id in s.roster.clients
  {
    e.ResumedBy? && Before(s, id).holder == Tag(e.tag)
  }

  lemma ResumeTouchesOne(s: World, e: Event, id: ClientId)
    requires Inv(s) && Enabled(s, e) && e.ResumedBy? && Kept(s, e, id)
    ensures var lifted := ResumesClient(s, e, id) && Detached(s.roster, id);
            && After(s, e, id) == (if lifted then Before(s, id).(channel := |s.roster.revoked|) else Before(s, id))
            && (lifted ==> Apply(s, e).roster.revoked == s.roster.revoked + [false])
            && s.roster.revoked <= Apply(s, e).roster.revoked
  {
    hide LeasesOk, UntaggedAttached, OwnChannels;
  }

  lemma DetachTouchesNobody(s: World, e: Event, id: ClientId)
    requires Enabled(s, e) && e.DetachedBy? && Kept(s, e, id)
    ensures After(s, e, id) == Before(s, id)
  {
  }

  lemma NamingTouchesNames(s: World, e: Event, id: ClientId)
    requires Enabled(s, e) && (e.RenamedTo? || e.PresentedAs?) && Kept(s, e, id)
    ensures After(s, e, id) == Before(s, id).(name := After(s, e, id).name, source := After(s, e, id).source)
    ensures e.id != id ==> After(s, e, id) == Before(s, id)
    ensures Apply(s, e).roster.revoked == s.roster.revoked
  {
    hide NameAvailable, NameRules.Stored, NameRules.WellFormed;
  }

  /** Everything about one step and one kept record at once. */
  lemma RecordAfter(s: World, e: Event, id: ClientId)
    requires Inv(s) && Enabled(s, e) && Kept(s, e, id)
    ensures var p, q := Before(s, id), After(s, e, id);
            && q.tagged == p.tagged && q.defaultName == p.defaultName && q.connectedAt == p.connectedAt
            && q.lastSeen == (if Attaches(s, e, id) || OnLeaseOf(s, e, id) then e.now else p.lastSeen)
            && (!((e.RenamedTo? || e.PresentedAs?) && e.id == id) ==> q.name == p.name && q.source == p.source)
  {
    if e.Connected? {
      ConnectTouchesOne(s, e, id);
    } else if e.ObservedBy? {
      var q := ObserveTouchesOne(s, e, id);
    } else if e.DroppedBy? {
      DropTouchesOne(s, e, id);
    } else if e.ResumedBy? {
      ResumeTouchesOne(s, e, id);
    } else if e.DetachedBy? {
      DetachTouchesNobody(s, e, id);
    } else {
      NamingTouchesNames(s, e, id);
    }
    hide Inv, Apply, Enabled, Kept, Reconnects, Before, Refreshed, ResumesClient;
  }

  // ---- What a record keeps for life -----------------------------------------------------------

  /** A client's holder, its generated name and the instant of its first connect never change. */
  lemma RecordedForLife(s: World, e: Event, id: ClientId)
    requires Inv(s) && Enabled(s, e) && Kept(s, e, id)
    ensures var p, q := Before(s, id), After(s, e, id);
            p.tagged == q.tagged && p.defaultName == q.defaultName && p.connectedAt == q.connectedAt
  {
    hide *;
    RecordAfter(s, e, id);
  }

  /** A newcomer's record: its holder and drawn name, no explicit name, first and last seen now, on a new channel. */
  lemma NewcomerRecord(s: World, e: Event)
    requires Inv(s) && Enabled(s, e) && Admits(s.roster, e)
    ensures var t, n := Apply(s, e), s.roster.nextConnection + 1;
            && e.newId in t.roster.clients
            && t.roster.clients[e.newId] ==
               Client(Key(s.roster, e), Tagged(e.holder), e.defaultName, None, Generated, e.now, e.now,
                      map[n := e.placement], |s.roster.revoked|)
            && Key(s.roster, e) in t.roster.holders && t.roster.holders[Key(s.roster, e)] == e.newId
  {
    ConnectCases(s, e);
    AddedRecord(s.roster, e);
    hide Inv, Apply, Added, FreshDraw, MakeRoom, Connect, ValidHolder;
  }

  // ---- Connections and activity ------------------------------------------------------------------

  /** A client was last seen at its latest connect, traffic or drop, and at no other event. */
  lemma SeenExactly(s: World, e: Event, id: ClientId)
    requires Inv(s) && Enabled(s, e) && Kept(s, e, id)
    ensures After(s, e, id).lastSeen ==
            if Attaches(s, e, id) || OnLeaseOf(s, e, id) then e.now else Before(s, id).lastSeen
  {
    hide *;
    RecordAfter(s, e, id);
  }

  /** A client's connections: one more by its connect, one refreshed by traffic on it, one less by its drop. */
  lemma ConnectionsFollowLeases(s: World, e: Event, id: ClientId)
    requires Inv(s) && Enabled(s, e) && Kept(s, e, id)
    ensures var before, after := Before(s, id).connections, After(s, e, id).connections;
            if Attaches(s, e, id) then after == before[s.roster.nextConnection + 1 := e.placement]
            else if e.ObservedBy? && OnLeaseOf(s, e, id) then
              && after.Keys == before.Keys && e.connection in before
              && Refreshed(before[e.connection], after[e.connection], e)
              && forall n | n in before && n != e.connection :: after[n] == before[n]
            else if e.DroppedBy? && OnLeaseOf(s, e, id) then after == before - {e.connection}
            else after == before
  {
    if e.Connected? {
      ConnectTouchesOne(s, e, id);
    } else if e.ObservedBy? {
      var q := ObserveTouchesOne(s, e, id);
    } else if e.DroppedBy? {
      DropTouchesOne(s, e, id);
    } else if e.ResumedBy? {
      ResumeTouchesOne(s, e, id);
    } else if e.DetachedBy? {
      DetachTouchesNobody(s, e, id);
    } else {
      NamingTouchesNames(s, e, id);
    }
    hide Inv, Apply, Enabled, Kept, Reconnects, Before, Refreshed, ResumesClient;
  }

  /** After a run in which nothing touches it any more, a client was last seen at the event that did. */
  lemma {:induction false} SeenSince(s: World, events: seq<Event>, t: World, id: ClientId)
    requires Inv(s) && Run(s, events, t) && Untouched(s, events, id)
    ensures id in t.roster.clients && t.roster.clients[id].lastSeen == s.roster.clients[id].lastSeen
    decreases |events|
  {
    if events != [] {
      var e := events[0];
      hide Inv, Apply, Enabled, Attaches, OnLeaseOf;
      StepKeepsInv(s, e);
      SeenExactly(s, e, id);
      SeenSince(Apply(s, e), events[1..], t, id);
    }
  }

  /** The record of `id` outlives every event, and none of them is its connect, traffic or drop. */
  ghost predicate Untouched(s: World, events: seq<Event>, id: ClientId)
    decreases |events|
  {
    && id in s.roster.clients
    && (events != [] ==>
          && Enabled(s, events[0]) && Kept(s, events[0], id)
          && !Attaches(s, events[0], id) && !OnLeaseOf(s, events[0], id)
          && Untouched(Apply(s, events[0]), events[1..], id))
  }

  // ---- Detaching and resuming ------------------------------------------------------------------------

  lemma DetachedByConnect(s: World, e: Event, id: ClientId)
    requires Inv(s) && Enabled(s, e) && e.Connected? && Kept(s, e, id)
    ensures Detached(Apply(s, e).roster, id) <==> Detached(s.roster, id)
  {
    ConnectTouchesOne(s, e, id);
    ConnectCases(s, e);
    if Admits(s.roster, e) {
      AddedRevoked(s.roster, e);
    }
    assert s.roster.clients[id].channel < |s.roster.revoked|;
    hide Inv, Apply, Enabled, Added, Admits, Reconnects;
  }

  /** A client is detached from its detach until the resume of its tag, connected or not. */
  lemma DetachedUntilResumed(s: World, e: Event, id: ClientId)
    requires Inv(s) && Enabled(s, e) && Kept(s, e, id)
    ensures Detached(Apply(s, e).roster, id) <==>
            (e.DetachedBy? && e.id == id) || (Detached(s.roster, id) && !ResumesClient(s, e, id))
  {
    if e.Connected? {
      DetachedByConnect(s, e, id);
    } else {
      DetachedOtherwise(s, e, id);
    }
  }

  lemma DetachedOtherwise(s: World, e: Event, id: ClientId)
    requires Inv(s) && Enabled(s, e) && !e.Connected? && Kept(s, e, id)
    ensures Detached(Apply(s, e).roster, id) <==>
            (e.DetachedBy? && e.id == id) || (Detached(s.roster, id) && !ResumesClient(s, e, id))
  {
    assert s.roster.clients[id].channel < |s.roster.revoked|;
    if e.ResumedBy? {
      ResumeTouchesOne(s, e, id);
      hide Inv, Apply, Enabled, Kept, ResumesClient;
    } else if e.DetachedBy? {
      DetachTouchesNobody(s, e, id);
      DetachFlags(s, e, id);
      hide Inv, Apply, Enabled, Kept;
    } else {
      RevokedOtherwise(s, e);
      ChannelKept(s, e, id);
      hide Inv, Apply, Enabled, Kept;
    }
  }

  lemma DetachFlags(s: World, e: Event, id: ClientId)
    requires Inv(s) && Enabled(s, e) && e.DetachedBy? && Kept(s, e, id)
    ensures var t := Apply(s, e).roster;
            && |t.revoked| == |s.roster.revoked|
            && (t.revoked[Before(s, id).channel] <==> s.roster.revoked[Before(s, id).channel] || e.id == id)
  {
    hide LeasesOk, UntaggedAttached, TagsTell;
  }

  lemma RevokedOtherwise(s: World, e: Event)
    requires Enabled(s, e) && !e.Connected? && !e.ResumedBy? && !e.DetachedBy?
    ensures Apply(s, e).roster.revoked == s.roster.revoked
  {
    hide NameAvailable, NameRules.Stored, NameRules.WellFormed;
  }

  lemma ChannelKept(s: World, e: Event, id: ClientId)
    requires Inv(s) && Enabled(s, e) && !e.Connected? && !e.ResumedBy? && !e.DetachedBy? && Kept(s, e, id)
    ensures After(s, e, id).channel == Before(s, id).channel
  {
    if e.ObservedBy? {
      var q := ObserveTouchesOne(s, e, id);
    } else if e.DroppedBy? {
      DropTouchesOne(s, e, id);
    } else {
      NamingTouchesNames(s, e, id);
    }
    hide Inv, Apply, Enabled, Kept, Before, Refreshed;
  }

  /** A resume lifts the detachment of its tag, whether or not the client still has connections. */
  lemma ResumeLifts(s: World, tag: string)
    requires Inv(s) && ValidHolder(tag)
    ensures !HolderDetached(Apply(s, ResumedBy(tag)).roster, Tag(tag))
    ensures Apply(s, ResumedBy(tag)).roster.holders == s.roster.holders
  {
    hide LeasesOk, UntaggedAttached, TagsTell, ValidHolder;
  }

  /** Connection `n` has a lease on `id` that is not revoked. */
  ghost predicate LeaseLives(s: World, n: nat, id: ClientId) {
    && n in s.leases && s.leases[n].connection == n && s.leases[n].client == id
    && s.leases[n].channel < |s.roster.revoked| && !s.roster.revoked[s.leases[n].channel]
  }

  /** Straight after its resume a known tag is let in, on its own record, with a lease that is not revoked. */
  lemma ResumedIsLetIn(s: World, tag: string, t: World, e: Event)
    requires Inv(s) && ValidHolder(tag) && Tag(tag) in s.roster.holders && t == Apply(s, ResumedBy(tag))
    requires e.Connected? && e.holder == Some(tag)
    ensures Enabled(t, e) && Succeeds(t.roster, e)
    ensures LeaseLives(Apply(t, e), t.roster.nextConnection + 1, s.roster.holders[Tag(tag)])
  {
    ResumeLifts(s, tag);
    StepKeepsInv(s, ResumedBy(tag));
    assert Key(t.roster, e) == Tag(tag) && Enabled(t, e);
    hide Apply, ValidHolder, Inv, Succeeds, HolderDetached;
    LetIn(t, e);
  }

  /** A connect that succeeds hands out a lease on its client's current, unrevoked channel. */
  lemma LetIn(s: World, e: Event)
    requires Inv(s) && Enabled(s, e) && e.Connected?
    ensures Succeeds(s.roster, e) <==> Reconnects(s.roster, e) || Admits(s.roster, e)
    ensures Key(s.roster, e) in s.roster.holders && !HolderDetached(s.roster, Key(s.roster, e)) ==> Reconnects(s.roster, e)
    ensures Succeeds(s.roster, e) ==>
              var t := Apply(s, e);
              && Key(s.roster, e) in t.roster.holders
              && (Key(s.roster, e) in s.roster.holders ==> t.roster.holders == s.roster.holders)
              && LeaseLives(t, s.roster.nextConnection + 1, t.roster.holders[Key(s.roster, e)])
  {
    ConnectCases(s, e);
    SucceedsIff(s, e);
    if Admits(s.roster, e) {
      AddedRecord(s.roster, e);
      AddedRevoked(s.roster, e);
    }
    hide Apply, Added, LeasesOk, UntaggedAttached, TagsTell, Succeeds, Enabled, MakeRoom;
  }

  lemma SucceedsIff(s: World, e: Event)
    requires Inv(s) && e.Connected?
    ensures Succeeds(s.roster, e) <==> Reconnects(s.roster, e) || Admits(s.roster, e)
  {
    CountedRoom(s.roster, s.roster.nextConnection + 1);
    hide LeasesOk, UntaggedAttached, TagsTell, MakeRoom, ValidHolder;
  }

  // ---- Names ---------------------------------------------------------------------------------------------

  /** Another client that is connected and not detached shows the name, in any case. */
  ghost predicate ShownByLive(r: Roster, id: ClientId, name: string) {
    exists other :: && other in r.clients && other != id
                    && r.clients[other].connections != map[] && !Detached(r, other)
                    && Fold(ShownName(r.clients[other])) == Fold(name)
  }

  lemma AvailableIff(r: Roster, id: ClientId, name: string)
    ensures NameAvailable(r, id, name) <==> !ShownByLive(r, id, name)
  {
    hide Fold;
    if ShownByLive(r, id, name) {
      var other :| && other in r.clients && other != id
                   && r.clients[other].connections != map[] && !Detached(r, other)
                   && Fold(ShownName(r.clients[other])) == Fold(name);
      assert NameHeld(r, id, name, other);
    } else {
      forall other
        ensures !NameHeld(r, id, name, other)
      {
      }
    }
  }

  /** A command names a known client exactly if the name is well-formed and free; it is then shown trimmed. */
  lemma CommandNames(s: World, id: ClientId, name: string)
    ensures var valid := NameRules.Validate(name);
            var t := Apply(s, RenamedTo(id, Some(name)));
            var allowed := id in s.roster.clients && valid.Ok? && !ShownByLive(s.roster, id, valid.value);
            && (Succeeds(s.roster, RenamedTo(id, Some(name))) <==> allowed)
            && t == if !allowed then s
                    else s.(roster := s.roster.(clients :=
                            s.roster.clients[id := s.roster.clients[id].(name := Some(valid.value), source := Command)]))
  {
    hide Fold, NameRules.Validate, NameAvailable, ShownByLive;
    if NameRules.Validate(name).Ok? {
      AvailableIff(s.roster, id, NameRules.Validate(name).value);
    }
  }

  /** A reset brings back the generated name exactly if no other live client shows it. */
  lemma CommandResets(s: World, id: ClientId)
    ensures var t := Apply(s, RenamedTo(id, None));
            var allowed := id in s.roster.clients && !ShownByLive(s.roster, id, s.roster.clients[id].defaultName);
            && (Succeeds(s.roster, RenamedTo(id, None)) <==> allowed)
            && (allowed ==> id in t.roster.clients && ShownName(t.roster.clients[id]) == s.roster.clients[id].defaultName)
            && t == if !allowed then s
                    else s.(roster := s.roster.(clients :=
                            s.roster.clients[id := s.roster.clients[id].(name := None, source := Command)]))
  {
    hide Fold, NameAvailable, ShownByLive;
    if id in s.roster.clients {
      AvailableIff(s.roster, id, s.roster.clients[id].defaultName);
    }
  }

  /** A presentation names a client that no command has named, exactly if the name is well-formed and free. */
  lemma PresentationNames(s: World, id: ClientId, name: string)
    ensures var valid := NameRules.Validate(name);
            var t := Apply(s, PresentedAs(id, name));
            var known := id in s.roster.clients && valid.Ok?;
            var free := known && s.roster.clients[id].source != Command && !ShownByLive(s.roster, id, valid.value);
            && (Succeeds(s.roster, PresentedAs(id, name)) <==> free || (known && s.roster.clients[id].source == Command))
            && t == if !free then s
                    else s.(roster := s.roster.(clients :=
                            s.roster.clients[id := s.roster.clients[id].(name := Some(valid.value), source := Presented)]))
  {
    hide Fold, NameRules.Validate, NameAvailable, ShownByLive;
    if NameRules.Validate(name).Ok? {
      AvailableIff(s.roster, id, NameRules.Validate(name).value);
    }
  }

  /** No other step touches a kept record's name. */
  lemma OnlyNamingNames(s: World, e: Event, id: ClientId)
    requires Inv(s) && Enabled(s, e) && Kept(s, e, id)
    requires !((e.RenamedTo? || e.PresentedAs?) && e.id == id)
    ensures After(s, e, id).name == Before(s, id).name && After(s, e, id).source == Before(s, id).source
  {
    hide *;
    RecordAfter(s, e, id);
  }

  /** The explicit name is shown, else the generated one. */
  lemma ShownInOrder(c: Client)
    ensures ShownName(c) == match c.name case Some(name) => name case None => c.defaultName
  {
  }

  // ---- Tags ------------------------------------------------------------------------------------------------

  const SMALL: string := "abcdefghijklmnopqrstuvwxyz"
  const CAPITAL: string := "ABCDEFGHIJKLMNOPQRSTUVWXYZ"
  const OTHER: string := "0123456789_-"

  lemma SmallListed(c: char)
    ensures c in SMALL <==> 'a' <= c <= 'z'
  {
    if 'a' <= c <= 'z' {
      assert SMALL[c as int - 'a' as int] == c;
    }
  }

  lemma CapitalListed(c: char)
    ensures c in CAPITAL <==> 'A' <= c <= 'Z'
  {
    if 'A' <= c <= 'Z' {
      assert CAPITAL[c as int - 'A' as int] == c;
    }
  }

  lemma OtherListed(c: char)
    ensures c in OTHER <==> '0' <= c <= '9' || c == '_' || c == '-'
  {
    if '0' <= c <= '9' {
      assert OTHER[c as int - '0' as int] == c;
    }
    assert OTHER[10] == '_' && OTHER[11] == '-';
  }

  /** A tag is 1 to 64 ASCII letters, digits, underscores and hyphens. */
  lemma ValidHolderIff(tag: string)
    ensures ValidHolder(tag) <==>
            1 <= |tag| <= 64 && forall i | 0 <= i < |tag| :: tag[i] in SMALL || tag[i] in CAPITAL || tag[i] in OTHER
  {
    forall i | 0 <= i < |tag|
      ensures TagChar(tag[i]) <==> tag[i] in SMALL || tag[i] in CAPITAL || tag[i] in OTHER
    {
      SmallListed(tag[i]);
      CapitalListed(tag[i]);
      OtherListed(tag[i]);
    }
  }
}
