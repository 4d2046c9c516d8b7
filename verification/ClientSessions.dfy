/** The roster as it runs: maps and channels updated in place. */
module ClientSessions {
  import opened Wrappers
  import opened CaseFold
  import opened ClientRoster
  import opened ClientRuns
  import ClientLaws
  import NameRules
  import ParticipantNames

  /** Why a name is refused. */
  datatype NameRefusal = Malformed(reason: NameRules.NameError) | NoClient | Held(id: ClientId)

  /** Fewer than `limit` taken ids leave one free below `limit`. */
  lemma {:induction false} FreeIdExists(taken: set<ClientId>, limit: nat) returns (id: ClientId)
    requires |taken| < limit
    ensures id < limit && id !in taken
    decreases limit
  {
    if limit - 1 in taken {
      assert |taken - {limit - 1}| == |taken| - 1;
      id := FreeIdExists(taken - {limit - 1}, limit - 1);
    } else {
      id := limit - 1;
    }
  }

  class ClientSessions {
    var clients: map<ClientId, Client>
    var holders: map<Holder, ClientId>
    var nextConnection: nat
    /** The value of every revocation channel made so far. */
    var revoked: seq<bool>
    const words: seq<string>

    /** The leases handed out and not yet dropped. */
    ghost var leases: map<nat, Lease>

    function View(): Roster
      reads this
    {
      Roster(clients, holders, nextConnection, revoked)
    }

    ghost function Contents(): World
      reads this
    {
      World(View(), leases)
    }

    ghost predicate Valid()
      reads this
    {
      && Inv(Contents())
      && words != [] && forall w | w in words :: ParticipantNames.Lowercase(w)
    }

    constructor (words: seq<string>)
      requires words != [] && forall w | w in words :: ParticipantNames.Lowercase(w)
      ensures Valid() && Contents() == START
    {
      this.words := words;
      clients, holders, nextConnection, revoked := map[], map[], 0, [];
      leases := map[];
    }

    /** The idle undetached client with the least activity, by a scan. */
    method FindVictim() returns (victim: Option<ClientId>)
      ensures victim.Some? ==> Victim(View(), victim.value)
      ensures victim.None? ==> forall id :: !Evictable(View(), id)
    {
      victim := None;
      var todo := clients.Keys;
      while todo != {}
        invariant todo <= clients.Keys
        invariant victim.Some? ==> Evictable(View(), victim.value)
        invariant forall id | id !in todo && Evictable(View(), id) ::
          victim.Some? && EvictedBefore(View(), victim.value, id)
        decreases |todo|
      {
        var id :| id in todo;
        todo := todo - {id};
        if Evictable(View(), id) && (victim.None? || EvictedBefore(View(), id, victim.value)) {
          victim := Some(id);
        }
      }
    }

    /** Draw a default name against every name in play. */
    method DrawDefault() returns (name: string)
      requires words != [] && forall w | w in words :: ParticipantNames.Lowercase(w)
      ensures FreshDefault(View(), name)
    {
      hide Fold;
      var shown := set id | id in clients :: ShownName(clients[id]);
      var defaults := set id | id in clients :: clients[id].defaultName;
      name := ParticipantNames.GenerateName(words, shown + defaults);
      forall id | id in clients
        ensures !Clash(name, ShownName(clients[id])) && !Clash(name, clients[id].defaultName)
      {
        assert ShownName(clients[id]) in shown + defaults;
        assert clients[id].defaultName in shown + defaults;
      }
    }

    /** Evict the oldest idle client when the roster is full. */
    method MakeRoom() returns (ok: bool)
      requires |clients| <= MAX_CLIENTS
      modifies this`clients, this`holders
      ensures ok <==> ClientRoster.MakeRoom(old(View())).Some?
      ensures ok ==> Some(View()) == ClientRoster.MakeRoom(old(View())) && |clients| < MAX_CLIENTS
      ensures !ok ==> View() == old(View())
    {
      if |clients| >= MAX_CLIENTS {
        var oldest := FindVictim();
        if oldest.None? {
          assert VictimOf(View()).None?;
          return false;
        }
        assert oldest == VictimOf(View()) by {
          VictimUnique(View(), oldest.value, VictimOf(View()).value);
        }
        var id := oldest.value;
        KeyCounts(clients.Keys, id);
        holders := holders - {clients[id].holder};
        clients := clients - {id};
        assert clients.Keys == old(clients).Keys - {id};
      }
      return true;
    }

    /** Insert a new client under a random unused id. */
    method Insert(key: Holder, tagged: bool, now: nat) returns (id: ClientId, drawn: string)
      requires |clients| < MAX_CLIENTS
      requires words != [] && forall w | w in words :: ParticipantNames.Lowercase(w)
      modifies this`clients, this`holders, this`revoked
      ensures id < ID_SPACE && id !in old(clients) && FreshDefault(old(View()), drawn)
      ensures View() == AddClient(old(View()), id, key, tagged, drawn, now)
    {
      hide FreshDefault;
      assert exists i :: 0 <= i < ID_SPACE && i !in clients by {
        var i := FreeIdExists(clients.Keys, ID_SPACE);
      }
      id :| 0 <= id < ID_SPACE && id !in clients;
      drawn := DrawDefault();
      clients := clients[id := Client(key, tagged, drawn, None, Generated, now, now, map[], |revoked|)];
      revoked := revoked + [false];
      holders := holders[key := id];
    }

    /** A client for a holder the roster does not know. */
    method Admit(key: Holder, tagged: bool, now: nat) returns (ok: bool, id: ClientId, drawn: string)
      requires |clients| <= MAX_CLIENTS
      requires words != [] && forall w | w in words :: ParticipantNames.Lowercase(w)
      modifies this`clients, this`holders, this`revoked
      ensures ok <==> ClientRoster.MakeRoom(old(View())).Some?
      ensures ok ==>
        var room := ClientRoster.MakeRoom(old(View())).value;
        FreshDraw(old(View()), id, drawn) && View() == AddClient(room, id, key, tagged, drawn, now)
      ensures !ok ==> View() == old(View())
    {
      hide ClientRoster.MakeRoom, FreshDefault;
      id, drawn := 0, "";
      ok := MakeRoom();
      if ok {
        id, drawn := Insert(key, tagged, now);
      }
    }

    /** Store a connection of `id` and lease it. */
    method AttachTo(id: ClientId, placement: Placement, now: nat) returns (lease: Lease)
      requires id in clients
      modifies this`clients, this`leases
      ensures View() == Attach(old(View()), id, nextConnection, placement, now)
      ensures lease == Lease(id, nextConnection, old(clients)[id].channel)
      ensures leases == old(leases)[nextConnection := lease]
    {
      var client := clients[id];
      client := client.(lastSeen := now, connections := client.connections[nextConnection := placement]);
      clients := clients[id := client];
      lease := Lease(id, nextConnection, client.channel);
      leases := leases[nextConnection := lease];
    }

    /** The client of `key`, known or new; `None` when there is no room for a new one. */
    method FindOrAdmit(key: Holder, tagged: bool, now: nat) returns (id: Option<ClientId>, drawn: string)
      requires |clients| <= MAX_CLIENTS
      requires words != [] && forall w | w in words :: ParticipantNames.Lowercase(w)
      modifies this`clients, this`holders, this`revoked
      ensures key in old(holders) ==> id == Some(old(holders)[key]) && View() == old(View())
      ensures key !in old(holders) && ClientRoster.MakeRoom(old(View())).None? ==> id == None && View() == old(View())
      ensures key !in old(holders) && ClientRoster.MakeRoom(old(View())).Some? ==>
        var room := ClientRoster.MakeRoom(old(View())).value;
        id.Some? && FreshDraw(old(View()), id.value, drawn) && View() == AddClient(room, id.value, key, tagged, drawn, now)
    {
      hide ClientRoster.MakeRoom, FreshDraw;
      drawn := "";
      if key in holders {
        return Some(holders[key]), drawn;
      }
      var ok, added;
      ok, added, drawn := Admit(key, tagged, now);
      id := if ok then Some(added) else None;
    }

    /** Count the connection and find its client, admitting a new one if there is room. */
    method Locate(holder: Option<string>, placement: Placement, now: nat)
      returns (id: Option<ClientId>, ghost e: Event)
      requires Valid()
      modifies this`clients, this`holders, this`revoked, this`nextConnection
      ensures e.Connected? && e.holder == holder && e.placement == placement && e.now == now
      ensures Enabled(old(Contents()), e)
      ensures nextConnection == old(nextConnection) + 1
      ensures View() == if Admits(old(View()), e) then Added(old(View()), e) else old(View()).(nextConnection := nextConnection)
      ensures id == if Key(old(View()), e) in old(holders) then Some(old(holders)[Key(old(View()), e)])
                    else if Admits(old(View()), e) then Some(e.newId) else None
    {
      hide Inv, FreshDraw, ClientRoster.MakeRoom, Attach, ClientRoster.Connect, Apply, ValidHolder, AddClient;
      ghost var s, r := Contents(), View();
      InvParts(s);
      nextConnection := nextConnection + 1;
      CountedRoom(r, nextConnection);
      var tagged := holder.Some? && ValidHolder(holder.value);
      var key := if tagged then Tag(holder.value) else Synthetic(nextConnection);
      var drawn;
      id, drawn := FindOrAdmit(key, tagged, now);
      e := Connected(holder, placement, now, if id.Some? then id.value else 0, drawn);
      CountedDraw(r, nextConnection, e.newId, drawn);
      assert Enabled(s, e) by { NoRoomNoDraw(r, e.newId, drawn); }
    }

    /** The section under the lock, from the count to the lease. */
    method Register(holder: Option<string>, placement: Placement, now: nat)
      returns (result: Result<Lease, ConnectError>, ghost e: Event)
      requires Valid()
      modifies this
      ensures e.Connected? && e.holder == holder && e.placement == placement && e.now == now
      ensures Enabled(old(Contents()), e) && Contents() == Apply(old(Contents()), e)
      ensures result.Ok? <==> Reconnects(old(View()), e) || Admits(old(View()), e)
      ensures result.Ok? ==> leases == old(leases)[nextConnection := result.value]
      ensures result.Err? ==> result.error == if Key(old(View()), e) in old(holders) then IsDetached else LimitReached
    {
      hide Inv, FreshDraw, Attach, Apply, Key, Added;
      ghost var s, r := Contents(), View();
      InvParts(s);
      var id;
      id, e := Locate(holder, placement, now);
      ConnectCases(s, e);
      if id.None? {
        return Err(LimitReached), e;
      }
      if Admits(r, e) {
        AddedRevoked(r, e);
      }
      if revoked[clients[id.value].channel] {
        return Err(IsDetached), e;
      }
      var lease := AttachTo(id.value, placement, now);
      result := Ok(lease);
    }

    /** Register a connection, or refuse it. */
    method Connect(holder: Option<string>, placement: Placement, now: nat)
      returns (result: Result<Lease, ConnectError>, ghost e: Event)
      requires Valid()
      modifies this
      ensures Valid()
      ensures e.Connected? && e.holder == holder && e.placement == placement && e.now == now
      ensures Enabled(old(Contents()), e) && Contents() == Apply(old(Contents()), e)
      ensures result.Ok? <==> Succeeds(old(View()), e)
      ensures result.Ok? <==> Reconnects(old(View()), e) || Admits(old(View()), e)
      ensures result.Ok? ==> leases == old(leases)[nextConnection := result.value]
      ensures result.Err? ==> result.error == if Key(old(View()), e) in old(holders) then IsDetached else LimitReached
    {
      hide Inv, Enabled, Apply, Reconnects, Admits, Key, Succeeds;
      result, e := Register(holder, placement, now);
      StepKeepsInv(old(Contents()), e);
      ClientLaws.SucceedsIff(old(Contents()), e);
    }

    /** What a lease's traffic writes. */
    method RecordTraffic(lease: Lease, terminal: Option<string>, grid: Option<(nat, nat)>, now: nat)
      modifies this`clients
      ensures View() == ClientRoster.Observe(old(View()), lease, terminal, grid, now)
    {
      if lease.client in clients {
        var client := clients[lease.client].(lastSeen := now);
        if lease.connection in client.connections {
          var seen := client.connections[lease.connection].(lastSeen := now);
          if terminal.Some? {
            seen := seen.(terminal := terminal);
          }
          if grid.Some? {
            seen := seen.(grid := grid);
          }
          client := client.(connections := client.connections[lease.connection := seen]);
        }
        clients := clients[lease.client := client];
      }
    }

    /** Traffic seen on a lease. */
    method Observe(lease: Lease, terminal: Option<string>, grid: Option<(nat, nat)>, now: nat)
      requires Valid() && lease.connection in leases && leases[lease.connection] == lease
      modifies this
      ensures Valid() && Contents() == Apply(old(Contents()), ObservedBy(lease.connection, terminal, grid, now))
    {
      hide Inv, ClientRoster.Observe;
      StepKeepsInv(Contents(), ObservedBy(lease.connection, terminal, grid, now));
      RecordTraffic(lease, terminal, grid, now);
    }

    /** Forget a connection, and an untagged client with its last one. */
    method Release(lease: Lease, now: nat)
      requires forall id | id in clients :: clients[id].channel < |revoked|
      modifies this`clients, this`holders
      ensures View() == Drop(old(View()), lease, now)
    {
      if lease.client in clients {
        ghost var before := clients;
        var client := clients[lease.client];
        client := client.(connections := client.connections - {lease.connection}, lastSeen := now);
        clients := clients[lease.client := client];
        if !client.tagged && client.connections == map[] && !revoked[client.channel] {
          clients := clients - {lease.client};
          holders := holders - {client.holder};
          assert clients == before - {lease.client};
        }
      }
    }

    /** The drop of a lease; an untagged client leaves with its last one. */
    method DropConnection(lease: Lease, now: nat)
      requires Valid() && lease.connection in leases && leases[lease.connection] == lease
      modifies this
      ensures Valid() && Contents() == Apply(old(Contents()), DroppedBy(lease.connection, now))
    {
      hide Inv, Drop;
      InvParts(Contents());
      StepKeepsInv(Contents(), DroppedBy(lease.connection, now));
      Release(lease, now);
      leases := leases - {lease.connection};
    }

    /** Revoke every lease of one client. */
    method Detach(id: ClientId) returns (known: bool)
      requires Valid()
      modifies this
      ensures Valid() && Contents() == Apply(old(Contents()), DetachedBy(id))
      ensures known <==> id in old(clients)
      ensures known <==> Succeeds(old(View()), DetachedBy(id))
      ensures known ==> Detached(View(), id)
    {
      hide Inv;
      InvParts(Contents());
      StepKeepsInv(Contents(), DetachedBy(id));
      known := id in clients;
      if known {
        revoked := revoked[clients[id].channel := true];
      }
    }

    /** Let a detached holder connect again, on a new channel. */
    method Resume(tag: string) returns (ok: bool)
      requires Valid()
      modifies this
      ensures Valid() && Contents() == Apply(old(Contents()), ResumedBy(tag))
      ensures ok <==> ValidHolder(tag)
      ensures ok <==> Succeeds(old(View()), ResumedBy(tag))
      ensures ok ==> !HolderDetached(View(), Tag(tag))
    {
      hide Inv, ValidHolder;
      InvParts(Contents());
      StepKeepsInv(Contents(), ResumedBy(tag));
      ok := ValidHolder(tag);
      if ok && Tag(tag) in holders {
        var id := holders[Tag(tag)];
        if revoked[clients[id].channel] {
          clients := clients[id := clients[id].(channel := |revoked|)];
          revoked := revoked + [false];
        }
      }
    }

    /** The first live client, in id order, that shows `name`. */
    method FindHeld(id: ClientId, name: string) returns (other: Option<ClientId>)
      ensures other.Some? ==> NameHeld(View(), id, name, other.value)
      ensures other.Some? ==> forall a: ClientId | a < other.value :: !NameHeld(View(), id, name, a)
      ensures other.None? <==> NameAvailable(View(), id, name)
    {
      hide Fold;
      other := None;
      var todo := clients.Keys;
      while todo != {}
        invariant todo <= clients.Keys
        invariant other.Some? ==> NameHeld(View(), id, name, other.value)
        invariant forall a | a !in todo && NameHeld(View(), id, name, a) :: other.Some? && other.value <= a
        decreases |todo|
      {
        var a :| a in todo;
        todo := todo - {a};
        if a != id && LiveClient(View(), a) && Clash(ShownName(clients[a]), name) && (other.None? || a < other.value) {
          other := Some(a);
        }
      }
    }

    /** Rename a client by command, or reset it to its generated name. */
    method Rename(id: ClientId, name: Option<string>) returns (result: Result<string, NameRefusal>)
      requires Valid()
      modifies this
      ensures Valid() && Contents() == Apply(old(Contents()), RenamedTo(id, name))
      ensures result.Ok? <==> Succeeds(old(View()), RenamedTo(id, name))
      ensures result.Ok? ==> id in clients && result.value == ShownName(clients[id])
      ensures result.Err? ==> Refuses(old(View()), id, name, result.error)
    {
      hide Inv, NameHeld, NameRules.Validate;
      StepKeepsInv(Contents(), RenamedTo(id, name));
      if !NameRules.WellFormed(name) {
        return Err(Malformed(NameRules.Validate(name.value).error));
      }
      if id !in clients {
        return Err(NoClient);
      }
      var stored := NameRules.Stored(name);
      var held := FindHeld(id, CheckedName(clients[id], stored));
      if held.Some? {
        return Err(Held(held.value));
      }
      clients := clients[id := clients[id].(name := stored, source := Command)];
      result := Ok(ShownName(clients[id]));
    }

    /** A name the client presents for itself; a command outranks it, but not a malformed name's refusal. */
    method PresentName(id: ClientId, name: string) returns (result: Result<string, NameRefusal>)
      requires Valid()
      modifies this
      ensures Valid() && Contents() == Apply(old(Contents()), PresentedAs(id, name))
      ensures result.Ok? <==> Succeeds(old(View()), PresentedAs(id, name))
      ensures result.Ok? ==> id in clients && result.value == ShownName(clients[id])
      ensures result.Err? ==> Refuses(old(View()), id, Some(name), result.error)
    {
      hide Inv, NameHeld, NameRules.Validate;
      StepKeepsInv(Contents(), PresentedAs(id, name));
      var valid := NameRules.Validate(name);
      if valid.Err? {
        return Err(Malformed(valid.error));
      }
      if id !in clients {
        return Err(NoClient);
      }
      if clients[id].source == Command {
        return Ok(ShownName(clients[id]));
      }
      var held := FindHeld(id, valid.value);
      if held.Some? {
        return Err(Held(held.value));
      }
      clients := clients[id := clients[id].(name := Some(valid.value), source := Presented)];
      result := Ok(valid.value);
    }
  }

  /** The refusal is the first that applies: the name is malformed, the client unknown, the name held. */
  ghost predicate Refuses(r: Roster, id: ClientId, name: Option<string>, refusal: NameRefusal) {
    match refusal
    case Malformed(reason) => name.Some? && NameRules.Validate(name.value) == Err(reason)
    case NoClient => NameRules.WellFormed(name) && id !in r.clients
    case Held(other) =>
      NameRules.WellFormed(name) && id in r.clients
      && NameHeld(r, id, CheckedName(r.clients[id], NameRules.Stored(name)), other)
  }

  lemma InvParts(s: World)
    requires Inv(s)
    ensures forall id | id in s.roster.clients :: s.roster.clients[id].channel < |s.roster.revoked|
    ensures forall h | h in s.roster.holders :: s.roster.holders[h] in s.roster.clients
    ensures |s.roster.clients| <= MAX_CLIENTS
  {
    hide LeasesOk, TagsTell, UntaggedAttached;
  }

  lemma NoRoomNoDraw(r: Roster, id: ClientId, name: string)
    ensures ClientRoster.MakeRoom(r).None? ==> FreshDraw(r, id, name)
  {
    hide ClientRoster.MakeRoom;
  }

  /** Counting the connection does not change what a draw must avoid. */
  lemma CountedDraw(r: Roster, n: nat, id: ClientId, name: string)
    ensures FreshDraw(r.(nextConnection := n), id, name) <==> FreshDraw(r, id, name)
  {
    CountedRoom(r, n);
    hide ClientRoster.MakeRoom, Fold;
  }
}
