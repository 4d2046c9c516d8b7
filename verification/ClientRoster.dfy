/**
 * The library-wide client roster on values. A holder tag names a client, a
 * client holds connections, and every connection holds a lease subscribed to
 * the revocation channel its client had when it connected. Each transition is
 * one critical section of the roster's lock.
 */
module ClientRoster {
  import opened Wrappers
  import opened CaseFold
  import Decimal
  import NameRules

  /** The random 64-bit word behind a client id. */
  type ClientId = nat

  const MAX_CLIENTS: nat := 4096
  const ID_SPACE: nat := 0x1_0000_0000_0000_0000

  /** A valid client tag, or the synthetic holder of one untagged connection. */
  datatype Holder = Tag(tag: string) | Synthetic(connection: nat)

  datatype NameSource = Generated | Presented | Command

  datatype Placement = Placement(
    tenant: string, window: string, kind: string, transport: string,
    terminal: Option<string>, grid: Option<(nat, nat)>,
    connectedAt: nat, lastSeen: nat)

  datatype Client = Client(
    holder: Holder,
    tagged: bool,
    defaultName: string,
    name: Option<string>,
    source: NameSource,
    connectedAt: nat,
    lastSeen: nat,
    connections: map<nat, Placement>,
    channel: nat)

  /** `revoked[k]` is the value of the k-th revocation channel made so far. */
  datatype Roster = Roster(
    clients: map<ClientId, Client>,
    holders: map<Holder, ClientId>,
    nextConnection: nat,
    revoked: seq<bool>)

  datatype Lease = Lease(client: ClientId, connection: nat, channel: nat)

  datatype ConnectError = LimitReached | IsDetached

  const EMPTY := Roster(map[], map[], 0, [])

  // ---- Reading ------------------------------------------------------------

  predicate TagChar(c: char) {
    'a' <= c <= 'z' || 'A' <= c <= 'Z' || '0' <= c <= '9' || c == '_' || c == '-'
  }

  predicate ValidHolder(tag: string) {
    0 < |tag| <= 64 && forall i | 0 <= i < |tag| :: TagChar(tag[i])
  }

  /** The key a holder is stored under. */
  function HolderText(holder: Holder): string {
    match holder
    case Tag(tag) => tag
    case Synthetic(connection) => "untagged:" + Decimal.Print(connection)
  }

  ghost predicate Wellformed(holder: Holder) {
    holder.Tag? ==> ValidHolder(holder.tag)
  }

  /** A synthetic holder cannot be claimed by a tag. */
  lemma SyntheticIsNoTag(connection: nat)
    ensures !ValidHolder(HolderText(Synthetic(connection)))
  {
    assert HolderText(Synthetic(connection))[8] == ':';
  }

  /** No two holders share a key. */
  lemma HolderTextInjective(a: Holder, b: Holder)
    requires Wellformed(a) && Wellformed(b) && HolderText(a) == HolderText(b)
    ensures a == b
  {
    match (a, b)
    case (Synthetic(m), Synthetic(n)) =>
      assert HolderText(a)[9..] == Decimal.Print(m) && HolderText(b)[9..] == Decimal.Print(n);
      Decimal.PrintInjective(m, n);
    case (Synthetic(m), Tag(_)) => SyntheticIsNoTag(m);
    case (Tag(_), Synthetic(n)) => SyntheticIsNoTag(n);
    case (Tag(_), Tag(_)) =>
  }

  function ShownName(c: Client): string {
    if c.name.Some? then c.name.value else c.defaultName
  }

  predicate Detached(r: Roster, id: ClientId) {
    id in r.clients && r.clients[id].channel < |r.revoked| && r.revoked[r.clients[id].channel]
  }

  predicate LiveClient(r: Roster, id: ClientId): (live: bool)
    ensures live ==> id in r.clients
  {
    id in r.clients && r.clients[id].connections != map[] && !Detached(r, id)
  }

  /** The holder's client was explicitly detached. */
  predicate HolderDetached(r: Roster, holder: Holder) {
    holder in r.holders && Detached(r, r.holders[holder])
  }

  // ---- Eviction -------------------------------------------------------------

  predicate Evictable(r: Roster, id: ClientId) {
    id in r.clients && r.clients[id].connections == map[] && !Detached(r, id)
  }

  /** Least activity first, and the lower id among equals. */
  predicate EvictedBefore(r: Roster, a: ClientId, b: ClientId)
    requires a in r.clients && b in r.clients
  {
    r.clients[a].lastSeen < r.clients[b].lastSeen
    || (r.clients[a].lastSeen == r.clients[b].lastSeen && a <= b)
  }

  ghost predicate Victim(r: Roster, id: ClientId) {
    Evictable(r, id) && forall other | Evictable(r, other) :: EvictedBefore(r, id, other)
  }

  lemma {:induction false} VictimExists(r: Roster, within: set<ClientId>) returns (id: ClientId)
    requires exists v :: v in within && Evictable(r, v)
    ensures id in within && Evictable(r, id)
    ensures forall other | other in within && Evictable(r, other) :: EvictedBefore(r, id, other)
    decreases |within|
  {
    var first :| first in within && Evictable(r, first);
    var rest := set v | v in within && v != first && Evictable(r, v) && EvictedBefore(r, v, first);
    if v :| v in rest {
      assert |rest| < |within| by {
        assert within == rest + (within - rest) && first in within - rest;
      }
      id := VictimExists(r, rest);
    } else {
      id := first;
    }
    assert forall other | other in within && Evictable(r, other) :: other in rest || EvictedBefore(r, first, other);
  }

  ghost function VictimOf(r: Roster): (victim: Option<ClientId>)
    ensures victim.Some? ==> Victim(r, victim.value)
    ensures victim.None? ==> forall id :: !Evictable(r, id)
  {
    if v :| Evictable(r, v) then
      assert exists id :: Victim(r, id) by {
        var id := VictimExists(r, r.clients.Keys);
        assert Victim(r, id);
      }
      var id :| Victim(r, id);
      Some(id)
    else
      None
  }

  lemma VictimUnique(r: Roster, a: ClientId, b: ClientId)
    requires Victim(r, a) && Victim(r, b)
    ensures a == b
  {
  }

  function RemoveClient(r: Roster, id: ClientId): Roster {
    if id in r.clients
    then r.(clients := r.clients - {id}, holders := r.holders - {r.clients[id].holder})
    else r
  }

  /** The roster with a free slot, or nothing when every client must be spared. */
  ghost function MakeRoom(r: Roster): Option<Roster> {
    if |r.clients| < MAX_CLIENTS then Some(r)
    else if VictimOf(r).Some? then Some(RemoveClient(r, VictimOf(r).value))
    else None
  }

  // ---- Connecting -------------------------------------------------------------

  /** A default name no client shows or falls back to, ignoring case. */
  ghost predicate FreshDefault(r: Roster, defaultName: string) {
    forall id | id in r.clients ::
      !Clash(defaultName, ShownName(r.clients[id])) && !Clash(defaultName, r.clients[id].defaultName)
  }

  function AddClient(r: Roster, id: ClientId, holder: Holder, tagged: bool, defaultName: string, now: nat): Roster {
    var client := Client(holder, tagged, defaultName, None, Generated, now, now, map[], |r.revoked|);
    r.(clients := r.clients[id := client], holders := r.holders[holder := id], revoked := r.revoked + [false])
  }

  function Attach(r: Roster, id: ClientId, connection: nat, placement: Placement, now: nat): Roster
    requires id in r.clients
  {
    var c := r.clients[id];
    r.(clients := r.clients[id := c.(lastSeen := now, connections := c.connections[connection := placement])])
  }

  predicate Tagged(holder: Option<string>) {
    holder.Some? && ValidHolder(holder.value)
  }

  /** The holder a connection registers under; a malformed tag counts as none. */
  function HolderOf(holder: Option<string>, connection: nat): Holder {
    if Tagged(holder) then Tag(holder.value) else Synthetic(connection)
  }

  /** The roster after a connect, and its lease or the reason for refusal. */
  ghost function Connect(r: Roster, holder: Option<string>, placement: Placement, now: nat,
                         newId: ClientId, defaultName: string)
    : (Roster, Result<Lease, ConnectError>)
  {
    var n := r.nextConnection + 1;
    var counted := r.(nextConnection := n);
    var key := HolderOf(holder, n);
    if key in r.holders then
      var id := r.holders[key];
      if id !in r.clients || Detached(r, id) then (counted, Err(IsDetached))
      else (Attach(counted, id, n, placement, now), Ok(Lease(id, n, r.clients[id].channel)))
    else if MakeRoom(counted).None? then (counted, Err(LimitReached))
    else
      var added := AddClient(MakeRoom(counted).value, newId, key, Tagged(holder), defaultName, now);
      (Attach(added, newId, n, placement, now), Ok(Lease(newId, n, |r.revoked|)))
  }

  // ---- The other transitions -----------------------------------------------------

  function Observed(p: Placement, terminal: Option<string>, grid: Option<(nat, nat)>, now: nat): Placement {
    p.(lastSeen := now,
       terminal := if terminal.Some? then terminal else p.terminal,
       grid := if grid.Some? then grid else p.grid)
  }

  function Observe(r: Roster, lease: Lease, terminal: Option<string>, grid: Option<(nat, nat)>, now: nat): Roster {
    if lease.client !in r.clients then r
    else
      var c := r.clients[lease.client];
      var connections :=
        if lease.connection in c.connections
        then c.connections[lease.connection := Observed(c.connections[lease.connection], terminal, grid, now)]
        else c.connections;
      r.(clients := r.clients[lease.client := c.(lastSeen := now, connections := connections)])
  }

  function Drop(r: Roster, lease: Lease, now: nat): Roster {
    if lease.client !in r.clients then r
    else
      var c := r.clients[lease.client];
      var c' := c.(connections := c.connections - {lease.connection}, lastSeen := now);
      if !c.tagged && c'.connections == map[] && !Detached(r, lease.client)
      then RemoveClient(r, lease.client)
      else r.(clients := r.clients[lease.client := c'])
  }

  function Detach(r: Roster, id: ClientId): Roster {
    if id in r.clients && r.clients[id].channel < |r.revoked|
    then r.(revoked := r.revoked[r.clients[id].channel := true]) else r
  }

  /** A detached client gets a new channel; old leases stay on the old one. */
  function Resume(r: Roster, tag: string): Roster {
    if ValidHolder(tag) && HolderDetached(r, Tag(tag)) then
      var id := r.holders[Tag(tag)];
      r.(clients := r.clients[id := r.clients[id].(channel := |r.revoked|)], revoked := r.revoked + [false])
    else r
  }

  // ---- Names -----------------------------------------------------------------------

  /** Another live client shows this name. */
  ghost predicate NameHeld(r: Roster, id: ClientId, name: string, other: ClientId) {
    other != id && LiveClient(r, other) && Clash(ShownName(r.clients[other]), name)
  }

  ghost predicate NameAvailable(r: Roster, id: ClientId, name: string) {
    forall other :: !NameHeld(r, id, name, other)
  }

  /** The name a rename must keep unique; a reset checks the generated default. */
  function CheckedName(c: Client, name: Option<string>): string {
    if name.Some? then name.value else c.defaultName
  }

  ghost predicate RenameAllowed(r: Roster, id: ClientId, name: Option<string>) {
    && NameRules.WellFormed(name) && id in r.clients
    && NameAvailable(r, id, CheckedName(r.clients[id], NameRules.Stored(name)))
  }

  function Named(r: Roster, id: ClientId, name: Option<string>, source: NameSource): Roster
    requires id in r.clients
  {
    r.(clients := r.clients[id := r.clients[id].(name := name, source := source)])
  }

  ghost function Rename(r: Roster, id: ClientId, name: Option<string>): Roster {
    if RenameAllowed(r, id, name) then Named(r, id, NameRules.Stored(name), Command) else r
  }

  /** A malformed name is refused even after a command, which outranks any other. */
  ghost predicate PresentAllowed(r: Roster, id: ClientId, name: string) {
    && NameRules.WellFormed(Some(name)) && id in r.clients
    && (r.clients[id].source == Command || NameAvailable(r, id, NameRules.Stored(Some(name)).value))
  }

  ghost function Present(r: Roster, id: ClientId, name: string): Roster {
    if PresentAllowed(r, id, name) && r.clients[id].source != Command
    then Named(r, id, NameRules.Stored(Some(name)), Presented) else r
  }
}
