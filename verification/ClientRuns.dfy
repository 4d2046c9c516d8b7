/** What every run of the client roster keeps. */
module ClientRuns {
  import opened Wrappers
  import opened CaseFold
  import opened ClientRoster

  /** The roster together with the outstanding leases, by connection number. */
  datatype World = World(roster: Roster, leases: map<nat, Lease>)

  datatype Event =
    | Connected(holder: Option<string>, placement: Placement, now: nat, newId: ClientId, defaultName: string)
    | ObservedBy(connection: nat, terminal: Option<string>, grid: Option<(nat, nat)>, now: nat)
    | DroppedBy(connection: nat, now: nat)
    | DetachedBy(id: ClientId)
    | ResumedBy(tag: string)
    | RenamedTo(id: ClientId, name: Option<string>)
    | PresentedAs(id: ClientId, shown: string)

  const START := World(EMPTY, map[])

  /** Where a new client's id and default name are drawn: after any eviction. */
  ghost predicate FreshDraw(r: Roster, newId: ClientId, defaultName: string) {
    var room := MakeRoom(r);
    room.Some? ==> newId < ID_SPACE && newId !in room.value.clients && FreshDefault(room.value, defaultName)
  }

  ghost predicate Enabled(s: World, e: Event) {
    match e
    case Connected(holder, _, _, newId, name) =>
      HolderOf(holder, s.roster.nextConnection + 1) in s.roster.holders || FreshDraw(s.roster, newId, name)
    case ObservedBy(n, _, _, _) => n in s.leases
    case DroppedBy(n, _) => n in s.leases
    case _ => true
  }

  /** Whether the call answers with success. */
  ghost predicate Succeeds(r: Roster, e: Event) {
    match e
    case Connected(holder, placement, now, newId, name) => Connect(r, holder, placement, now, newId, name).1.Ok?
    case DetachedBy(id) => id in r.clients
    case ResumedBy(tag) => ValidHolder(tag)
    case RenamedTo(id, name) => RenameAllowed(r, id, name)
    case PresentedAs(id, name) => PresentAllowed(r, id, name)
    case _ => true
  }

  ghost function Apply(s: World, e: Event): World
    requires Enabled(s, e)
  {
    match e
    case Connected(holder, placement, now, newId, name) =>
      var (r, answer) := Connect(s.roster, holder, placement, now, newId, name);
      World(r, if answer.Ok? then s.leases[answer.value.connection := answer.value] else s.leases)
    case ObservedBy(n, terminal, grid, now) => s.(roster := Observe(s.roster, s.leases[n], terminal, grid, now))
    case DroppedBy(n, now) => World(Drop(s.roster, s.leases[n], now), s.leases - {n})
    case DetachedBy(id) => s.(roster := Detach(s.roster, id))
    case ResumedBy(holder) => s.(roster := Resume(s.roster, holder))
    case RenamedTo(id, name) => s.(roster := Rename(s.roster, id, name))
    case PresentedAs(id, name) => s.(roster := Present(s.roster, id, name))
  }

  ghost predicate Run(s: World, events: seq<Event>, t: World)
    decreases |events|
  {
    if events == [] then s == t
    else Enabled(s, events[0]) && Run(Apply(s, events[0]), events[1..], t)
  }

  // ---- The invariant ----------------------------------------------------------

  /** The two maps are mutual inverses. */
  ghost predicate Mirrored(r: Roster) {
    && (forall h | h in r.holders :: r.holders[h] in r.clients && r.clients[r.holders[h]].holder == h)
    && (forall id | id in r.clients :: r.clients[id].holder in r.holders && r.holders[r.clients[id].holder] == id)
  }

  /** Outstanding leases and stored connections are in bijection. */
  ghost predicate LeasesMatch(s: World) {
    && (forall n | n in s.leases ::
          && s.leases[n].connection == n && n <= s.roster.nextConnection
          && s.leases[n].client in s.roster.clients
          && n in s.roster.clients[s.leases[n].client].connections)
    && (forall id, n | id in s.roster.clients && n in s.roster.clients[id].connections ::
          n in s.leases && s.leases[n].client == id)
  }

  ghost predicate OwnChannels(r: Roster) {
    && (forall id | id in r.clients :: r.clients[id].channel < |r.revoked|)
    && (forall a, b | a in r.clients && b in r.clients && a != b :: r.clients[a].channel != r.clients[b].channel)
  }

  /** A lease that is not revoked listens to its client's current channel. */
  ghost predicate LeasesListen(s: World) {
    forall n | n in s.leases ::
      && s.leases[n].channel < |s.roster.revoked|
      && (s.roster.revoked[s.leases[n].channel]
          || (s.leases[n].client in s.roster.clients
              && s.leases[n].channel == s.roster.clients[s.leases[n].client].channel))
  }

  /** Tagged clients carry valid tags; the others carry the number of their connection. */
  ghost predicate TagsTell(r: Roster) {
    forall id | id in r.clients ::
      match r.clients[id].holder
      case Tag(tag) => r.clients[id].tagged && ValidHolder(tag)
      case Synthetic(n) => !r.clients[id].tagged && n <= r.nextConnection
  }

  /** An untagged client is gone once its lease is, unless it was detached. */
  ghost predicate UntaggedAttached(r: Roster) {
    forall id | id in r.clients && !r.clients[id].tagged :: r.clients[id].connections != map[] || Detached(r, id)
  }

  ghost predicate RosterOk(r: Roster) {
    Mirrored(r) && OwnChannels(r) && TagsTell(r)
  }

  ghost predicate LeasesOk(s: World) {
    LeasesMatch(s) && LeasesListen(s)
  }

  ghost predicate Inv(s: World) {
    && RosterOk(s.roster) && LeasesOk(s)
    && UntaggedAttached(s.roster)
    && |s.roster.clients| <= MAX_CLIENTS
  }

  // ---- The parts of a connect ----------------------------------------------------

  lemma CountKeeps(s: World)
    requires RosterOk(s.roster) && LeasesOk(s)
    ensures var r := s.roster.(nextConnection := s.roster.nextConnection + 1);
            RosterOk(r) && LeasesOk(s.(roster := r))
  {
    hide ValidHolder;
  }

  lemma KeyCounts(keys: set<ClientId>, id: ClientId)
    ensures |keys - {id}| == |keys| - if id in keys then 1 else 0
    ensures |keys + {id}| == |keys| + if id in keys then 0 else 1
  {
    if id in keys {
      assert keys + {id} == keys;
    } else {
      assert keys - {id} == keys;
    }
  }

  lemma RemoveKeepsRoster(r: Roster, id: ClientId)
    requires RosterOk(r) && id in r.clients
    ensures RosterOk(RemoveClient(r, id))
  {
    hide ValidHolder;
  }

  lemma RemoveKeepsLeases(s: World, id: ClientId)
    requires LeasesOk(s) && id in s.roster.clients && s.roster.clients[id].connections == map[]
    ensures LeasesOk(s.(roster := RemoveClient(s.roster, id)))
  {
  }

  lemma AddKeepsRoster(r: Roster, id: ClientId, holder: Holder, tagged: bool, name: string, now: nat)
    requires RosterOk(r) && id !in r.clients && holder !in r.holders
    requires if tagged then holder.Tag? && ValidHolder(holder.tag) else holder == Synthetic(r.nextConnection)
    ensures RosterOk(AddClient(r, id, holder, tagged, name, now))
  {
    hide ValidHolder;
  }

  lemma AddKeepsLeases(s: World, id: ClientId, holder: Holder, tagged: bool, name: string, now: nat)
    requires LeasesOk(s) && id !in s.roster.clients
    ensures LeasesOk(s.(roster := AddClient(s.roster, id, holder, tagged, name, now)))
  {
  }

  lemma AttachKeepsRoster(r: Roster, id: ClientId, placement: Placement, now: nat)
    requires RosterOk(r) && id in r.clients
    ensures RosterOk(Attach(r, id, r.nextConnection, placement, now))
  {
    hide ValidHolder;
  }

  lemma AttachKeepsLeases(s: World, id: ClientId, placement: Placement, now: nat)
    requires LeasesOk(s) && id in s.roster.clients && s.roster.clients[id].channel < |s.roster.revoked|
    requires s.roster.nextConnection !in s.leases
    ensures var n := s.roster.nextConnection;
            LeasesOk(World(Attach(s.roster, id, n, placement, now),
                           s.leases[n := Lease(id, n, s.roster.clients[id].channel)]))
  {
  }

  /** Counting the connection does not change who yields a slot. */
  lemma CountedRoom(r: Roster, n: nat)
    ensures var counted := r.(nextConnection := n);
            && (MakeRoom(counted).Some? <==> MakeRoom(r).Some?)
            && (MakeRoom(r).Some? ==> MakeRoom(counted) == Some(MakeRoom(r).value.(nextConnection := n)))
  {
    var counted := r.(nextConnection := n);
    assert forall id :: Evictable(counted, id) <==> Evictable(r, id);
    assert forall id :: Victim(counted, id) <==> Victim(r, id);
    var a, b := VictimOf(r), VictimOf(counted);
    if a.Some? && b.Some? {
      VictimUnique(r, a.value, b.value);
    }
  }

  ghost function Key(r: Roster, e: Event): Holder
    requires e.Connected?
  {
    HolderOf(e.holder, r.nextConnection + 1)
  }

  /** The holder is known and not detached. */
  ghost predicate Reconnects(r: Roster, e: Event) {
    e.Connected? && Key(r, e) in r.holders && r.holders[Key(r, e)] in r.clients && !Detached(r, r.holders[Key(r, e)])
  }

  /** The holder is new and there is, or can be, room for it. */
  ghost predicate Admits(r: Roster, e: Event) {
    e.Connected? && Key(r, e) !in r.holders && MakeRoom(r).Some?
  }

  ghost function Added(r: Roster, e: Event): Roster
    requires Admits(r, e)
  {
    AddClient(MakeRoom(r).value.(nextConnection := r.nextConnection + 1),
              e.newId, Key(r, e), Tagged(e.holder), e.defaultName, e.now)
  }

  /** The three outcomes of a connect; a refused one only counts. */
  lemma ConnectCases(s: World, e: Event)
    requires Enabled(s, e) && e.Connected?
    ensures var r, n := s.roster, s.roster.nextConnection + 1;
            var counted := r.(nextConnection := n);
            Apply(s, e) ==
              if Reconnects(r, e) then
                var id := r.holders[Key(r, e)];
                World(Attach(counted, id, n, e.placement, e.now), s.leases[n := Lease(id, n, r.clients[id].channel)])
              else if Admits(r, e) then
                World(Attach(Added(r, e), e.newId, n, e.placement, e.now), s.leases[n := Lease(e.newId, n, |r.revoked|)])
              else s.(roster := counted)
  {
    CountedRoom(s.roster, s.roster.nextConnection + 1);
    hide VictimOf, FreshDefault, ValidHolder;
  }

  lemma RoomKeeps(s: World, room: Roster)
    requires RosterOk(s.roster) && LeasesOk(s) && MakeRoom(s.roster) == Some(room)
    ensures RosterOk(room) && LeasesOk(s.(roster := room))
    ensures room.nextConnection == s.roster.nextConnection && room.revoked == s.roster.revoked
    ensures forall h | h in room.holders :: h in s.roster.holders
  {
    hide RosterOk, LeasesOk, VictimOf;
    if |s.roster.clients| >= MAX_CLIENTS {
      RemoveKeepsRoster(s.roster, VictimOf(s.roster).value);
      RemoveKeepsLeases(s, VictimOf(s.roster).value);
    }
  }

  lemma AdmitKeeps(s: World, e: Event)
    requires Inv(s) && Enabled(s, e) && Admits(s.roster, e)
    ensures RosterOk(Added(s.roster, e)) && LeasesOk(World(Added(s.roster, e), s.leases))
  {
    CountKeeps(s);
    var n := s.roster.nextConnection + 1;
    var counted := s.(roster := s.roster.(nextConnection := n));
    CountedRoom(s.roster, n);
    hide RosterOk, LeasesOk, UntaggedAttached, FreshDefault, MakeRoom;
    var room := MakeRoom(counted.roster).value;
    RoomKeeps(counted, room);
    AddKeepsRoster(room, e.newId, Key(s.roster, e), Tagged(e.holder), e.defaultName, e.now);
    AddKeepsLeases(counted.(roster := room), e.newId, Key(s.roster, e), Tagged(e.holder), e.defaultName, e.now);
  }

  lemma ConnectKeeps(s: World, e: Event)
    requires Inv(s) && Enabled(s, e) && e.Connected?
    ensures RosterOk(Apply(s, e).roster) && LeasesOk(Apply(s, e))
  {
    ConnectCases(s, e);
    CountKeeps(s);
    var r, n := s.roster, s.roster.nextConnection + 1;
    var counted := r.(nextConnection := n);
    assert n !in s.leases by { assert LeasesMatch(s); }
    assert OwnChannels(r);
    hide RosterOk, LeasesOk, UntaggedAttached, MakeRoom, Attach, Connect, FreshDraw, ValidHolder;
    if Reconnects(r, e) {
      AttachKeepsRoster(counted, r.holders[Key(r, e)], e.placement, e.now);
      AttachKeepsLeases(s.(roster := counted), r.holders[Key(r, e)], e.placement, e.now);
    } else if Admits(r, e) {
      AdmitKeeps(s, e);
      AddedRevoked(r, e);
      AttachKeepsRoster(Added(r, e), e.newId, e.placement, e.now);
      AttachKeepsLeases(World(Added(r, e), s.leases), e.newId, e.placement, e.now);
    }
  }

  /** Making room touches no channel, and the newcomer gets a new one. */
  lemma AddedRevoked(r: Roster, e: Event)
    requires Admits(r, e)
    ensures Added(r, e).revoked == r.revoked + [false]
    ensures e.newId in Added(r, e).clients && Added(r, e).clients[e.newId].channel == |r.revoked|
    ensures forall id | id in Added(r, e).clients && id != e.newId ::
      id in r.clients && Added(r, e).clients[id] == r.clients[id]
  {
    hide VictimOf;
  }

  lemma AttachKeepsAttached(r: Roster, r': Roster, id: ClientId, n: nat, placement: Placement, now: nat)
    requires UntaggedAttached(r) && id in r'.clients
    requires forall other | other in r'.clients && other != id ::
      other in r.clients && r'.clients[other] == r.clients[other] && Detached(r, other) == Detached(r', other)
    ensures UntaggedAttached(Attach(r', id, n, placement, now))
  {
    assert n in Attach(r', id, n, placement, now).clients[id].connections;
  }

  lemma ConnectKeepsAttached(s: World, e: Event)
    requires Inv(s) && Enabled(s, e) && e.Connected?
    ensures UntaggedAttached(Apply(s, e).roster)
  {
    ConnectCases(s, e);
    var r, n := s.roster, s.roster.nextConnection + 1;
    assert OwnChannels(r);
    hide RosterOk, LeasesOk, UntaggedAttached, MakeRoom, Attach, Added, Connect, FreshDraw, ValidHolder;
    if Reconnects(r, e) {
      AttachKeepsAttached(r, r.(nextConnection := n), r.holders[Key(r, e)], n, e.placement, e.now);
    } else if Admits(r, e) {
      AddedRevoked(r, e);
      AttachKeepsAttached(r, Added(r, e), e.newId, n, e.placement, e.now);
    } else {
      CountKeepsAttached(r, n);
    }
  }

  lemma CountKeepsAttached(r: Roster, n: nat)
    requires UntaggedAttached(r)
    ensures UntaggedAttached(r.(nextConnection := n))
  {
  }

  // ---- The other steps ---------------------------------------------------------------

  lemma DropKeepsRoster(r: Roster, lease: Lease, now: nat)
    requires RosterOk(r) && UntaggedAttached(r)
    ensures RosterOk(Drop(r, lease, now)) && UntaggedAttached(Drop(r, lease, now))
  {
    hide ValidHolder;
    var r' := Drop(r, lease, now);
    if lease.client in r.clients && lease.client !in r'.clients {
      RemoveKeepsRoster(r, lease.client);
    }
  }

  lemma DropKeepsLeases(s: World, n: nat, now: nat)
    requires LeasesOk(s) && n in s.leases
    ensures LeasesOk(World(Drop(s.roster, s.leases[n], now), s.leases - {n}))
  {
    var c := s.roster.clients[s.leases[n].client];
    forall m | m in s.leases && m != n && s.leases[m].client == s.leases[n].client
      ensures c.connections - {n} != map[]
    {
      assert m in c.connections - {n};
    }
  }

  /** Clients that differ in nothing the roster invariant reads. */
  ghost predicate Relabelled(r: Roster, r': Roster) {
    && r'.holders == r.holders && r'.nextConnection == r.nextConnection && r'.revoked == r.revoked
    && r'.clients.Keys == r.clients.Keys
    && forall id | id in r.clients ::
         var c, d := r.clients[id], r'.clients[id];
         c.holder == d.holder && c.tagged == d.tagged && c.channel == d.channel && c.connections.Keys == d.connections.Keys
  }

  lemma RelabelKeepsRoster(r: Roster, r': Roster)
    requires RosterOk(r) && UntaggedAttached(r) && Relabelled(r, r')
    ensures RosterOk(r') && UntaggedAttached(r')
  {
    hide ValidHolder;
    forall id | id in r.clients && r'.clients[id].connections == map[]
      ensures r.clients[id].connections == map[]
    {
      assert r.clients[id].connections.Keys == {};
    }
  }

  lemma RelabelKeepsLeases(s: World, r: Roster)
    requires LeasesOk(s) && Relabelled(s.roster, r)
    ensures LeasesOk(s.(roster := r))
  {
    assert forall id, n | id in r.clients && n in r.clients[id].connections :: n in s.roster.clients[id].connections;
  }

  lemma DetachKeepsRoster(r: Roster, id: ClientId)
    requires RosterOk(r) && UntaggedAttached(r)
    ensures RosterOk(Detach(r, id)) && UntaggedAttached(Detach(r, id))
  {
    hide ValidHolder;
  }

  lemma DetachKeepsLeases(s: World, id: ClientId)
    requires LeasesOk(s)
    ensures LeasesOk(s.(roster := Detach(s.roster, id)))
  {
  }

  lemma ResumeKeepsRoster(r: Roster, tag: string)
    requires RosterOk(r)
    ensures RosterOk(Resume(r, tag))
  {
    hide ValidHolder;
  }

  /** Only tagged clients are ever resumed. */
  lemma ResumeKeepsAttached(r: Roster, tag: string)
    requires RosterOk(r) && UntaggedAttached(r)
    ensures UntaggedAttached(Resume(r, tag))
  {
    hide ValidHolder;
  }

  lemma ResumeKeepsLeases(s: World, tag: string)
    requires LeasesOk(s)
    ensures LeasesOk(s.(roster := Resume(s.roster, tag)))
  {
    hide ValidHolder;
  }

  lemma RoomSize(r: Roster)
    requires MakeRoom(r).Some? && |r.clients| <= MAX_CLIENTS
    ensures |MakeRoom(r).value.clients| < MAX_CLIENTS
  {
    hide VictimOf;
    if |r.clients| >= MAX_CLIENTS {
      assert MakeRoom(r).value.clients.Keys == r.clients.Keys - {VictimOf(r).value};
      KeyCounts(r.clients.Keys, VictimOf(r).value);
    }
  }

  lemma AddedSize(r: Roster, e: Event)
    requires Admits(r, e) && |r.clients| <= MAX_CLIENTS
    ensures |Added(r, e).clients| <= MAX_CLIENTS
  {
    hide VictimOf, MakeRoom, FreshDraw;
    var room := MakeRoom(r).value;
    RoomSize(r);
    assert Added(r, e).clients.Keys == room.clients.Keys + {e.newId};
    KeyCounts(room.clients.Keys, e.newId);
  }

  lemma AttachKeepsSize(r: Roster, id: ClientId, n: nat, placement: Placement, now: nat)
    requires id in r.clients
    ensures |Attach(r, id, n, placement, now).clients| == |r.clients|
  {
    assert Attach(r, id, n, placement, now).clients.Keys == r.clients.Keys;
  }

  lemma ConnectKeepsSize(s: World, e: Event)
    requires Inv(s) && Enabled(s, e) && e.Connected?
    ensures |Apply(s, e).roster.clients| <= MAX_CLIENTS
  {
    ConnectCases(s, e);
    hide RosterOk, LeasesOk, UntaggedAttached, MakeRoom, Attach, Added, Connect, FreshDraw, ValidHolder;
    var r, n := s.roster, s.roster.nextConnection + 1;
    if Reconnects(r, e) {
      AttachKeepsSize(r.(nextConnection := n), r.holders[Key(r, e)], n, e.placement, e.now);
    } else if Admits(r, e) {
      AddedRevoked(r, e);
      AddedSize(r, e);
      AttachKeepsSize(Added(r, e), e.newId, n, e.placement, e.now);
    }
  }

  lemma OtherStepsKeepSize(s: World, e: Event)
    requires Enabled(s, e) && !e.Connected?
    ensures |Apply(s, e).roster.clients| <= |s.roster.clients|
  {
    hide NameAvailable, ValidHolder;
    var r, r' := s.roster, Apply(s, e).roster;
    if e.DroppedBy? && s.leases[e.connection].client !in r'.clients {
      assert r'.clients.Keys == r.clients.Keys - {s.leases[e.connection].client};
      KeyCounts(r.clients.Keys, s.leases[e.connection].client);
    } else {
      assert r'.clients.Keys == r.clients.Keys;
    }
  }

  lemma StepKeepsInv(s: World, e: Event)
    requires Inv(s) && Enabled(s, e)
    ensures Inv(Apply(s, e))
  {
    hide RosterOk, LeasesOk, UntaggedAttached, Connect, Detach, Resume, Drop, NameAvailable, FreshDraw;
    if e.Connected? {
      ConnectKeepsSize(s, e);
    } else {
      OtherStepsKeepSize(s, e);
    }
    match e
    case Connected(_, _, _, _, _) =>
      ConnectKeeps(s, e);
      ConnectKeepsAttached(s, e);
    case DroppedBy(n, now) =>
      DropKeepsRoster(s.roster, s.leases[n], now);
      DropKeepsLeases(s, n, now);
    case DetachedBy(id) =>
      DetachKeepsRoster(s.roster, id);
      DetachKeepsLeases(s, id);
    case ResumedBy(tag) =>
      ResumeKeepsRoster(s.roster, tag);
      ResumeKeepsAttached(s.roster, tag);
      ResumeKeepsLeases(s, tag);
    case _ =>
      RelabelKeepsRoster(s.roster, Apply(s, e).roster);
      RelabelKeepsLeases(s, Apply(s, e).roster);
  }

  lemma {:induction false} RunKeepsInv(s: World, events: seq<Event>, t: World)
    requires Inv(s) && Run(s, events, t)
    ensures Inv(t)
    decreases |events|
  {
    hide Inv, Apply, Enabled;
    if events != [] {
      StepKeepsInv(s, events[0]);
      RunKeepsInv(Apply(s, events[0]), events[1..], t);
    }
  }

  /** Every reachable roster. */
  lemma ReachableInv(events: seq<Event>, t: World)
    requires Run(START, events, t)
    ensures Inv(t)
  {
    RunKeepsInv(START, events, t);
  }
}
