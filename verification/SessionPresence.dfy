/**
 * The per-tenant session registry on values: participants with socket counts
 * and a grace clock, one designated-owner slot, one pending handover. Each
 * transition below is one critical section of the registry's lock.
 */
module SessionPresence {
  import opened Wrappers
  import opened CaseFold
  import NameRules

  type WindowId = string

  /** Nanoseconds, the resolution of the clock. */
  type Instant = nat

  const RELOAD_GRACE: nat := 5_000_000_000
  const GONE_GRACE: nat := 30_000_000_000

  datatype Lifecycle = Live | Disconnecting | Disconnected | Gone

  datatype Identity = Identity(displayName: Option<string>, email: Option<string>)

  datatype Participant = Participant(
    name: Option<string>,
    identity: Option<Identity>,
    defaultName: string,
    local: bool,
    sockets: nat,
    joinSeq: nat,
    state: Lifecycle,
    disconnectedAt: Option<Instant>)

  datatype Handover = Handover(requestId: string, requester: WindowId, target: WindowId, leader: WindowId)

  datatype Registry = Registry(
    participants: map<WindowId, Participant>,
    leader: Option<WindowId>,
    nextSeq: nat,
    pending: Option<Handover>)

  datatype HandoverError =
    | NotAParticipant | NoLeader | UnknownTarget | AlreadyLeader
    | AlreadyPending | LeaderNotLive | LeaderLive

  const EMPTY := Registry(map[], None, 0, None)

  // ---- One participant -------------------------------------------------

  function DisplayString(identity: Option<Identity>): Option<string> {
    match identity
    case None => None
    case Some(Identity(Some(name), Some(email))) => Some(name + " <" + email + ">")
    case Some(Identity(Some(name), None)) => Some(name)
    case Some(Identity(None, email)) => email
  }

  /** The published name: the rename, else the gateway identity, else the default. */
  function EffectiveName(p: Participant): string {
    if p.name.Some? then p.name.value
    else if DisplayString(p.identity).Some? then DisplayString(p.identity).value
    else p.defaultName
  }

  predicate ShowsIdentity(p: Participant) {
    p.name.None? && DisplayString(p.identity).Some?
  }

  /** Time since the last socket dropped; zero while the clock is not running. */
  function Elapsed(p: Participant, now: Instant): nat {
    if p.disconnectedAt.Some? && p.disconnectedAt.value <= now
    then now - p.disconnectedAt.value else 0
  }

  function ComputedState(p: Participant, now: Instant): Lifecycle {
    if p.sockets > 0 then Live
    else if Elapsed(p, now) >= GONE_GRACE then Gone
    else if Elapsed(p, now) >= RELOAD_GRACE then Disconnected
    else Disconnecting
  }

  // ---- The designated owner --------------------------------------------

  predicate Eligible(ps: map<WindowId, Participant>, w: WindowId, local: bool) {
    w in ps && ps[w].sockets > 0 && ps[w].local == local
  }

  /** `w` joined first among the live participants of one locality. */
  ghost predicate Lowest(ps: map<WindowId, Participant>, w: WindowId, local: bool) {
    && Eligible(ps, w, local)
    && forall v | Eligible(ps, v, local) :: ps[w].joinSeq <= ps[v].joinSeq
  }

  lemma {:induction false} LowestExists(ps: map<WindowId, Participant>, within: set<WindowId>, local: bool)
    returns (w: WindowId)
    requires exists v :: v in within && Eligible(ps, v, local)
    ensures w in within && Eligible(ps, w, local)
    ensures forall v | v in within && Eligible(ps, v, local) :: ps[w].joinSeq <= ps[v].joinSeq
    decreases |within|
  {
    var first :| first in within && Eligible(ps, first, local);
    var rest := set v | v in within && Eligible(ps, v, local) && ps[v].joinSeq < ps[first].joinSeq;
    if v :| v in rest {
      Shrinks(rest, within, first);
      w := LowestExists(ps, rest, local);
    } else {
      w := first;
    }
    assert forall v | v in within && Eligible(ps, v, local) :: v in rest || ps[first].joinSeq <= ps[v].joinSeq;
  }

  lemma {:induction false} Shrinks(small: set<WindowId>, big: set<WindowId>, w: WindowId)
    requires small <= big - {w} && w in big
    ensures |small| < |big|
  {
    assert big == small + (big - small) && w in big - small;
  }

  ghost function LowestOf(ps: map<WindowId, Participant>, local: bool): (owner: Option<WindowId>)
    ensures owner.Some? ==> Lowest(ps, owner.value, local)
    ensures owner.None? ==> forall v :: !Eligible(ps, v, local)
  {
    if v :| Eligible(ps, v, local) then
      assert exists w :: Lowest(ps, w, local) by {
        var w := LowestExists(ps, ps.Keys, local);
        assert Lowest(ps, w, local);
      }
      var w :| Lowest(ps, w, local);
      Some(w)
    else
      None
  }

  /** Local-first: a remote is designated only when no local participant is live. */
  ghost function BestOwner(ps: map<WindowId, Participant>): (owner: Option<WindowId>)
    ensures owner.Some? ==> owner.value in ps && ps[owner.value].sockets > 0
    ensures owner.Some? ==> forall v | v in ps && ps[v].sockets > 0 ::
      && (ps[v].local ==> ps[owner.value].local)
      && (ps[v].local == ps[owner.value].local ==> ps[owner.value].joinSeq <= ps[v].joinSeq)
    ensures owner.None? ==> forall v | v in ps :: ps[v].sockets == 0
  {
    var local := LowestOf(ps, true);
    if local.Some? then local
    else
      assert forall v | v in ps && ps[v].sockets > 0 :: Eligible(ps, v, ps[v].local);
      LowestOf(ps, false)
  }

  // ---- Joining and leaving ---------------------------------------------

  /** A default name no participant shows or falls back to, ignoring case. */
  ghost predicate FreshDefault(r: Registry, defaultName: string) {
    forall w | w in r.participants ::
      && !Clash(defaultName, EffectiveName(r.participants[w]))
      && !Clash(defaultName, r.participants[w].defaultName)
  }

  predicate LocalOwner(r: Registry) {
    r.leader.Some? && r.leader.value in r.participants && r.participants[r.leader.value].local
  }

  function Revived(p: Participant): Participant {
    p.(sockets := p.sockets + 1, disconnectedAt := None,
       state := if p.sockets == 0 then Live else p.state)
  }

  ghost function Join(r: Registry, w: WindowId, local: bool, identity: Option<Identity>, defaultName: string): Registry {
    if w in r.participants then
      r.(participants := r.participants[w := Revived(r.participants[w])])
    else
      var p := Participant(None, identity, defaultName, local, 1, r.nextSeq, Live, None);
      var ps := r.participants[w := p];
      Registry(ps, if r.leader.None? || (local && !LocalOwner(r)) then BestOwner(ps) else r.leader,
               r.nextSeq + 1, r.pending)
  }

  /** What `join` reports to its caller for broadcasting. */
  predicate JoinChanged(r: Registry, w: WindowId) {
    w in r.participants ==> r.participants[w].sockets == 0 && r.participants[w].state != Live
  }

  function Released(p: Participant, at: Instant): Participant {
    var left := if p.sockets > 0 then p.sockets - 1 else 0;
    if left == 0 then p.(sockets := 0, state := Disconnecting, disconnectedAt := Some(at))
    else p.(sockets := left)
  }

  function SocketDropped(r: Registry, w: WindowId, at: Instant): Registry {
    if w in r.participants then r.(participants := r.participants[w := Released(r.participants[w], at)]) else r
  }

  // ---- The reaper -------------------------------------------------------

  predicate GoneAt(r: Registry, w: WindowId, now: Instant) {
    w in r.participants && ComputedState(r.participants[w], now) == Gone
  }

  function Stepped(p: Participant, now: Instant): Participant {
    if p.sockets > 0 then p else p.(state := ComputedState(p, now))
  }

  function Survivors(r: Registry, now: Instant): map<WindowId, Participant> {
    map w | w in r.participants && !GoneAt(r, w, now) :: Stepped(r.participants[w], now)
  }

  ghost function Reap(r: Registry, now: Instant): Registry {
    var ps := Survivors(r, now);
    Registry(ps,
             if r.leader.Some? && GoneAt(r, r.leader.value, now) then BestOwner(ps) else r.leader,
             r.nextSeq,
             if r.pending.Some? && (GoneAt(r, r.pending.value.leader, now) || GoneAt(r, r.pending.value.target, now))
             then None else r.pending)
  }

  /** Some stored state stepped. */
  ghost predicate ReapChanged(r: Registry, now: Instant) {
    exists w :: w in r.participants && Stepped(r.participants[w], now).state != r.participants[w].state
  }

  /** The next grace threshold a participant has not crossed at `now`. */
  function NextThreshold(p: Participant, now: Instant): Option<Instant> {
    if p.sockets > 0 || p.disconnectedAt.None? then None
    else if Elapsed(p, now) < RELOAD_GRACE then Some(p.disconnectedAt.value + RELOAD_GRACE)
    else if Elapsed(p, now) < GONE_GRACE then Some(p.disconnectedAt.value + GONE_GRACE)
    else None
  }

  /** `deadline` is the earliest pending threshold, if there is one. */
  ghost predicate SoonestDeadline(r: Registry, now: Instant, deadline: Option<Instant>) {
    && (deadline.None? ==> forall w | w in r.participants :: NextThreshold(r.participants[w], now).None?)
    && (deadline.Some? ==>
          && (exists w :: w in r.participants && NextThreshold(r.participants[w], now) == deadline)
          && forall w | w in r.participants && NextThreshold(r.participants[w], now).Some? ::
               deadline.value <= NextThreshold(r.participants[w], now).value)
  }

  // ---- Renaming ----------------------------------------------------------

  /** The name a rename or reset must keep unique; a shown identity need not be. */
  function CheckedName(p: Participant, name: Option<string>): Option<string> {
    if name.Some? then name
    else if DisplayString(p.identity).None? then Some(p.defaultName)
    else None
  }

  /** `other` already shows the checked name. */
  ghost predicate Holds(r: Registry, w: WindowId, name: Option<string>, other: WindowId)
    requires w in r.participants
  {
    var checked := CheckedName(r.participants[w], NameRules.Stored(name));
    && checked.Some? && other in r.participants && other != w
    && Clash(EffectiveName(r.participants[other]), checked.value)
  }

  ghost predicate RenameAllowed(r: Registry, w: WindowId, name: Option<string>) {
    NameRules.WellFormed(name) && w in r.participants && forall other :: !Holds(r, w, name, other)
  }

  ghost function Rename(r: Registry, w: WindowId, name: Option<string>): Registry {
    if RenameAllowed(r, w, name)
    then r.(participants := r.participants[w := r.participants[w].(name := NameRules.Stored(name))]) else r
  }

  /** Renaming to a well-formed name is renaming to its stored form. */
  lemma StoredRenames(r: Registry, w: WindowId, name: Option<string>)
    requires NameRules.WellFormed(name)
    ensures NameRules.Accepted(NameRules.Stored(name))
    ensures w in r.participants ==> forall other :: Holds(r, w, NameRules.Stored(name), other) <==> Holds(r, w, name, other)
    ensures RenameAllowed(r, w, NameRules.Stored(name)) <==> RenameAllowed(r, w, name)
    ensures Rename(r, w, NameRules.Stored(name)) == Rename(r, w, name)
  {
    NameRules.StoredIsAccepted(name);
    hide NameRules.Stored, NameRules.WellFormed, Fold, CheckedName;
  }

  // ---- Handover and takeover ----------------------------------------------

  predicate LiveLeader(r: Registry) {
    r.leader.Some? && r.leader.value in r.participants && r.participants[r.leader.value].sockets > 0
  }

  function RequestHandover(r: Registry, id: string, requester: WindowId, target: Option<WindowId>)
    : Result<Registry, HandoverError>
  {
    var chosen := if target.Some? then target.value else requester;
    if r.pending.Some? then Err(AlreadyPending)
    else if requester !in r.participants then Err(NotAParticipant)
    else if chosen !in r.participants then Err(UnknownTarget)
    else if r.leader.None? then Err(NoLeader)
    else if r.leader.value == chosen then Err(AlreadyLeader)
    else if !LiveLeader(r) then Err(LeaderNotLive)
    else Ok(r.(pending := Some(Handover(id, requester, chosen, r.leader.value))))
  }

  predicate Matches(r: Registry, id: string) {
    r.pending.Some? && r.pending.value.requestId == id
  }

  function ResolveHandover(r: Registry, id: string, accept: bool): Registry {
    if !Matches(r, id) then r
    else if accept && r.pending.value.target in r.participants
    then r.(pending := None, leader := Some(r.pending.value.target))
    else r.(pending := None)
  }

  function CancelHandover(r: Registry, id: string): Registry {
    if Matches(r, id) then r.(pending := None) else r
  }

  /** The new registry and whether leadership moved. */
  function Takeover(r: Registry, caller: WindowId, force: bool): Result<(Registry, bool), HandoverError> {
    if caller !in r.participants then Err(NotAParticipant)
    else if r.leader == Some(caller) then Ok((r, false))
    else if LiveLeader(r) && !force then Err(LeaderLive)
    else Ok((r.(leader := Some(caller), pending := None), true))
  }
}
