/**
 * One asynchronous mutex per key, held by weak entries. A mutex lives as long
 * as a waiter or guard refers to it; entries whose mutex died are pruned. The
 * sections under the entry-map mutex, the grants, and the two halves of a
 * guard's drop are separate steps that interleave freely.
 */
module KeyedLocks {
  type Tid = nat
  type MutexId = nat

  /** The entry map, and of every mutex its strong count and whether it is locked. */
  datatype Table<!K(==)> = Table(
    entries: map<K, MutexId>,
    strong: map<MutexId, nat>,
    locked: set<MutexId>)

  datatype Pc<K> =
    | Idle
    | Waiting(key: K, mutex: MutexId)           // `lock`, awaiting the mutex
    | Trying(key: K, mutex: MutexId)            // `try_lock`, about to try
    | Holding(key: K, mutex: MutexId)           // a guard that borrows the entry map
    | Detaching(key: K, mutex: MutexId)         // its mutex guard taken out, its own drop still to run
    | Detached(key: K, mutex: MutexId)          // an owned guard without the entry map
    | Unlocked(key: K, mutex: MutexId, prunes: bool)  // unlocked, its reference still to go
    | Pruning(key: K)                           // reference gone, entry still to be looked at

  datatype State<!K(==)> = State(table: Table<K>, threads: map<Tid, Pc<K>>)

  // ---- The sections under the entry-map mutex ---------------------------------------

  function Strong<K>(table: Table<K>, m: MutexId): nat {
    if m in table.strong then table.strong[m] else 0
  }

  /** `retain` the entries whose mutex is alive. */
  ghost function Live<K(!new)>(table: Table<K>): map<K, MutexId> {
    map k | k in table.entries && Strong(table, table.entries[k]) > 0 :: table.entries[k]
  }

  /** Upgrade the live entry of `key`, or install the new mutex `m` there; one more reference either way. */
  ghost function Lookup<K(!new)>(table: Table<K>, key: K, m: MutexId): (Table<K>, MutexId) {
    var live := Live(table);
    if key in live then
      (table.(entries := live, strong := table.strong[live[key] := Strong(table, live[key]) + 1]), live[key])
    else
      (table.(entries := live[key := m], strong := table.strong[m := 1]), m)
  }

  /** The guard's last act: remove the entry if nobody refers to its mutex. */
  function Prune<K>(table: Table<K>, key: K): Table<K> {
    if key in table.entries && Strong(table, table.entries[key]) == 0
    then table.(entries := table.entries - {key}) else table
  }

  function DropReference<K>(table: Table<K>, m: MutexId): Table<K> {
    table.(strong := table.strong[m := if Strong(table, m) > 0 then Strong(table, m) - 1 else 0])
  }

  // ---- Steps --------------------------------------------------------------------------

  ghost function At<K>(s: State<K>, t: Tid, pc: Pc<K>): State<K> {
    s.(threads := s.threads[t := pc])
  }

  /** `lock` or `try_lock` looks its mutex up; a new one was never seen before. */
  ghost predicate LooksUp<K(!new)>(s: State<K>, t: Tid, key: K, m: MutexId, tries: bool, s': State<K>)
    requires t in s.threads
  {
    var (table, mutex) := Lookup(s.table, key, m);
    && s.threads[t] == Idle && m !in s.table.strong
    && s' == At(s.(table := table), t, if tries then Trying(key, mutex) else Waiting(key, mutex))
  }

  ghost predicate Granted<K>(s: State<K>, t: Tid, s': State<K>)
    requires t in s.threads
  {
    var pc := s.threads[t];
    && (pc.Waiting? || pc.Trying?) && pc.mutex !in s.table.locked
    && s' == At(s.(table := s.table.(locked := s.table.locked + {pc.mutex})), t, Holding(pc.key, pc.mutex))
  }

  /** A cancelled wait, or a try on a locked mutex: the reference goes, the entry is not looked at. */
  ghost predicate GivesUp<K>(s: State<K>, t: Tid, s': State<K>)
    requires t in s.threads
  {
    var pc := s.threads[t];
    && (pc.Waiting? || (pc.Trying? && pc.mutex in s.table.locked))
    && s' == At(s.(table := DropReference(s.table, pc.mutex)), t, Idle)
  }

  ghost predicate Detaches<K>(s: State<K>, t: Tid, s': State<K>)
    requires t in s.threads
  {
    var pc := s.threads[t];
    || (pc.Holding? && s' == At(s, t, Detaching(pc.key, pc.mutex)))
    || (pc.Detaching? && s' == At(s.(table := Prune(s.table, pc.key)), t, Detached(pc.key, pc.mutex)))
  }

  ghost predicate Unlocks<K>(s: State<K>, t: Tid, s': State<K>)
    requires t in s.threads
  {
    var pc := s.threads[t];
    && (pc.Holding? || pc.Detached?)
    && s' == At(s.(table := s.table.(locked := s.table.locked - {pc.mutex})), t, Unlocked(pc.key, pc.mutex, pc.Holding?))
  }

  ghost predicate Releases<K>(s: State<K>, t: Tid, s': State<K>)
    requires t in s.threads
  {
    var pc := s.threads[t];
    || (pc.Unlocked? && s' == At(s.(table := DropReference(s.table, pc.mutex)), t, if pc.prunes then Pruning(pc.key) else Idle))
    || (pc.Pruning? && s' == At(s.(table := Prune(s.table, pc.key)), t, Idle))
  }

  ghost predicate Step<K(!new)>(s: State<K>, t: Tid, s': State<K>) {
    && t in s.threads
    && (|| (exists key, m, tries :: LooksUp(s, t, key, m, tries, s'))
        || Granted(s, t, s') || GivesUp(s, t, s') || Detaches(s, t, s') || Unlocks(s, t, s') || Releases(s, t, s'))
  }

  ghost predicate Initial<K>(s: State<K>) {
    s.table == Table(map[], map[], {}) && forall t | t in s.threads :: s.threads[t] == Idle
  }

  ghost predicate Steps<K(!new)>(s: State<K>, s': State<K>) {
    exists t :: Step(s, t, s')
  }

  ghost predicate Run<K(!new)>(trace: seq<State<K>>) {
    && trace != [] && Initial(trace[0])
    && forall i | 0 < i < |trace| :: Steps(trace[i - 1], trace[i])
  }

  // ---- The invariant ---------------------------------------------------------------------

  /** The thread waits for, holds or is about to let go of a mutex. */
  predicate Refers<K>(pc: Pc<K>) {
    !pc.Idle? && !pc.Pruning?
  }

  /** The thread holds the lock of its key. */
  predicate Guards<K>(pc: Pc<K>) {
    pc.Holding? || pc.Detaching? || pc.Detached?
  }

  predicate RefersTo<K>(pc: Pc<K>, m: MutexId) {
    Refers(pc) && pc.mutex == m
  }

  ghost function Referrers<K>(s: State<K>, m: MutexId): set<Tid> {
    set t | t in s.threads && RefersTo(s.threads[t], m)
  }

  /** Every strong count is the number of waiters and guards that refer to the mutex. */
  ghost predicate CountsRefer<K>(s: State<K>) {
    && (forall m | m in s.table.strong :: s.table.strong[m] == |Referrers(s, m)|)
    && (forall t | t in s.threads && Refers(s.threads[t]) :: s.threads[t].mutex in s.table.strong)
    && (forall k | k in s.table.entries :: s.table.entries[k] in s.table.strong)
  }

  /** Waiters and guards of a key share the mutex its entry points to, and keys do not share mutexes. */
  ghost predicate EntriesHold<K(!new)>(s: State<K>) {
    && (forall t | t in s.threads && Refers(s.threads[t]) ::
          s.threads[t].key in s.table.entries && s.table.entries[s.threads[t].key] == s.threads[t].mutex)
    && (forall j, k | j in s.table.entries && k in s.table.entries && j != k :: s.table.entries[j] != s.table.entries[k])
  }

  /** A mutex is locked exactly by one guard. */
  ghost predicate LocksHold<K>(s: State<K>) {
    && (forall t | t in s.threads && Guards(s.threads[t]) :: s.threads[t].mutex in s.table.locked)
    && (forall m | m in s.table.locked :: exists t :: t in s.threads && Guards(s.threads[t]) && s.threads[t].mutex == m)
    && (forall t, u | t in s.threads && u in s.threads && Guards(s.threads[t]) && Guards(s.threads[u])
                      && s.threads[t].mutex == s.threads[u].mutex :: t == u)
  }

  ghost predicate Inv<K(!new)>(s: State<K>) {
    CountsRefer(s) && EntriesHold(s) && LocksHold(s)
  }

  lemma AliveIffReferred<K(!new)>(s: State<K>, m: MutexId)
    requires CountsRefer(s) && m in s.table.strong
    ensures Strong(s.table, m) > 0 <==> exists t :: t in s.threads && RefersTo(s.threads[t], m)
  {
    if t :| t in s.threads && RefersTo(s.threads[t], m) {
      assert t in Referrers(s, m);
    }
    if Strong(s.table, m) > 0 {
      var t :| t in Referrers(s, m);
    }
  }

  /** How one thread's move changes who refers to a mutex. */
  lemma ReferrersMove<K(!new)>(s: State<K>, t: Tid, pc: Pc<K>, table: Table<K>, m: MutexId)
    requires t in s.threads
    ensures var s' := At(s.(table := table), t, pc);
            |Referrers(s', m)| + (if RefersTo(s.threads[t], m) then 1 else 0)
            == |Referrers(s, m)| + (if RefersTo(pc, m) then 1 else 0)
  {
    var s' := At(s.(table := table), t, pc);
    var others := Referrers(s, m) - {t};
    assert Referrers(s', m) - {t} == others;
    assert Referrers(s, m) == if RefersTo(s.threads[t], m) then others + {t} else others;
    assert Referrers(s', m) == if RefersTo(pc, m) then others + {t} else others;
  }

  lemma NobodyRefersUnseen<K(!new)>(s: State<K>, m: MutexId)
    requires CountsRefer(s) && m !in s.table.strong
    ensures Referrers(s, m) == {}
  {
  }

  /** A move whose count follows it keeps the counts. */
  lemma MoveKeepsCounts<K(!new)>(s: State<K>, t: Tid, pc: Pc<K>, table: Table<K>)
    requires CountsRefer(s) && t in s.threads
    requires table.strong.Keys >= s.table.strong.Keys
    requires Refers(pc) ==> pc.mutex in table.strong
    requires forall k | k in table.entries :: table.entries[k] in table.strong
    requires forall m | m in table.strong ::
      table.strong[m] + (if RefersTo(s.threads[t], m) then 1 else 0) == Strong(s.table, m) + (if RefersTo(pc, m) then 1 else 0)
    ensures CountsRefer(At(s.(table := table), t, pc))
  {
    var s' := At(s.(table := table), t, pc);
    forall m | m in table.strong ensures table.strong[m] == |Referrers(s', m)| {
      ReferrersMove(s, t, pc, table, m);
      if m !in s.table.strong {
        NobodyRefersUnseen(s, m);
      }
    }
  }

  lemma LookupKeepsCounts<K(!new)>(s: State<K>, t: Tid, key: K, m: MutexId, tries: bool, s': State<K>)
    requires Inv(s) && t in s.threads && LooksUp(s, t, key, m, tries, s')
    ensures CountsRefer(s')
  {
    MoveKeepsCounts(s, t, s'.threads[t], s'.table);
  }

  lemma LookupKeepsEntries<K(!new)>(s: State<K>, t: Tid, key: K, m: MutexId, tries: bool, s': State<K>)
    requires Inv(s) && t in s.threads && LooksUp(s, t, key, m, tries, s')
    ensures EntriesHold(s')
  {
    hide LocksHold;
    forall u | u in s.threads && Refers(s.threads[u])
      ensures s.threads[u].key in Live(s.table) && Live(s.table)[s.threads[u].key] == s.threads[u].mutex
    {
      AliveIffReferred(s, s.threads[u].mutex);
    }
    hide CountsRefer, Referrers;
  }

  lemma LookupKeepsLocks<K(!new)>(s: State<K>, t: Tid, key: K, m: MutexId, tries: bool, s': State<K>)
    requires Inv(s) && t in s.threads && LooksUp(s, t, key, m, tries, s')
    ensures LocksHold(s')
  {
    hide CountsRefer, EntriesHold, Live;
    forall l | l in s'.table.locked ensures exists u :: u in s'.threads && Guards(s'.threads[u]) && s'.threads[u].mutex == l {
      var u :| u in s.threads && Guards(s.threads[u]) && s.threads[u].mutex == l;
      assert s'.threads[u] == s.threads[u];
    }
  }

  /** The other steps, one predicate each, are moves of one thread on the table. */
  ghost predicate Moves<K(!new)>(s: State<K>, t: Tid, s': State<K>)
    requires t in s.threads
  {
    Granted(s, t, s') || GivesUp(s, t, s') || Detaches(s, t, s') || Unlocks(s, t, s') || Releases(s, t, s')
  }

  lemma MovesKeepCounts<K(!new)>(s: State<K>, t: Tid, s': State<K>)
    requires CountsRefer(s) && t in s.threads && Moves(s, t, s')
    ensures CountsRefer(s')
  {
    assert RefersTo(s.threads[t], if Refers(s.threads[t]) then s.threads[t].mutex else 0) ==> t in Referrers(s, s.threads[t].mutex);
    hide Referrers;
    MoveKeepsCounts(s, t, s'.threads[t], s'.table);
  }

  /** A prune removes no entry that anybody refers to. */
  lemma PruneSpares<K(!new)>(s: State<K>, key: K, t: Tid)
    requires CountsRefer(s) && EntriesHold(s) && t in s.threads && Refers(s.threads[t])
    ensures s.threads[t].key in Prune(s.table, key).entries
    ensures Prune(s.table, key).entries[s.threads[t].key] == s.threads[t].mutex
  {
    AliveIffReferred(s, s.threads[t].mutex);
  }

  lemma MovesKeepEntries<K(!new)>(s: State<K>, t: Tid, s': State<K>)
    requires CountsRefer(s) && EntriesHold(s) && t in s.threads && Moves(s, t, s')
    ensures EntriesHold(s')
  {
    var pc := s.threads[t];
    if pc.Detaching? || pc.Pruning? {
      forall u | u in s.threads && Refers(s.threads[u])
        ensures s.threads[u].key in Prune(s.table, pc.key).entries
        ensures Prune(s.table, pc.key).entries[s.threads[u].key] == s.threads[u].mutex
      {
        PruneSpares(s, pc.key, u);
      }
    }
    hide CountsRefer, Strong;
  }

  lemma MovesKeepLocks<K(!new)>(s: State<K>, t: Tid, s': State<K>)
    requires LocksHold(s) && t in s.threads && Moves(s, t, s')
    ensures LocksHold(s')
  {
    hide Strong;
    forall m | m in s'.table.locked ensures exists u :: u in s'.threads && Guards(s'.threads[u]) && s'.threads[u].mutex == m {
      if m in s.table.locked {
        var u :| u in s.threads && Guards(s.threads[u]) && s.threads[u].mutex == m;
        assert Guards(s'.threads[u]) && s'.threads[u].mutex == m;
      } else {
        assert Guards(s'.threads[t]);
      }
    }
  }

  lemma StepKeepsInv<K(!new)>(s: State<K>, t: Tid, s': State<K>)
    requires Inv(s) && Step(s, t, s')
    ensures Inv(s')
  {
    hide CountsRefer, EntriesHold, LocksHold;
    if key, m, tries :| LooksUp(s, t, key, m, tries, s') {
      LookupKeepsCounts(s, t, key, m, tries, s');
      LookupKeepsEntries(s, t, key, m, tries, s');
      LookupKeepsLocks(s, t, key, m, tries, s');
    } else {
      MovesKeepCounts(s, t, s');
      MovesKeepEntries(s, t, s');
      MovesKeepLocks(s, t, s');
    }
  }

  lemma {:induction false} RunKeepsInv<K(!new)>(trace: seq<State<K>>, k: nat)
    requires Run(trace) && k < |trace|
    ensures Inv(trace[k])
    decreases k
  {
    if k > 0 {
      RunKeepsInv(trace, k - 1);
      assert Steps(trace[k - 1], trace[k]);
      hide Inv;
      var t :| Step(trace[k - 1], t, trace[k]);
      StepKeepsInv(trace[k - 1], t, trace[k]);
    }
  }

  // ---- What it is for -------------------------------------------------------------------

  /** At most one guard per key, borrowed or detached, in every reachable state. */
  lemma OneGuardPerKey<K(!new)>(trace: seq<State<K>>, k: nat, t: Tid, u: Tid)
    requires Run(trace) && k < |trace| && t in trace[k].threads && u in trace[k].threads
    requires Guards(trace[k].threads[t]) && Guards(trace[k].threads[u]) && trace[k].threads[t].key == trace[k].threads[u].key
    ensures t == u
  {
    RunKeepsInv(trace, k);
    hide Run, CountsRefer;
  }

  /** All holders and waiters of a key share the mutex of its entry, so a newcomer joins them. */
  lemma NewcomerShares<K(!new)>(trace: seq<State<K>>, k: nat, t: Tid, m: MutexId)
    requires Run(trace) && k < |trace| && t in trace[k].threads && Refers(trace[k].threads[t])
    ensures var pc := trace[k].threads[t];
            && pc.key in trace[k].table.entries && trace[k].table.entries[pc.key] == pc.mutex
            && Lookup(trace[k].table, pc.key, m).1 == pc.mutex
  {
    RunKeepsInv(trace, k);
    hide Run, LocksHold;
    AliveIffReferred(trace[k], trace[k].threads[t].mutex);
  }

  lemma ReferredEntry<K(!new)>(s: State<K>, t: Tid)
    requires EntriesHold(s) && t in s.threads && Refers(s.threads[t])
    ensures s.threads[t].key in s.table.entries && s.table.entries[s.threads[t].key] == s.threads[t].mutex
  {
  }

  /** A lookup keeps the entry of any key that somebody refers to. */
  lemma LookupSpares<K(!new)>(s: State<K>, u: Tid, key: K, m: MutexId, tries: bool, s': State<K>, t: Tid)
    requires CountsRefer(s) && EntriesHold(s) && u in s.threads && LooksUp(s, u, key, m, tries, s')
    requires t in s.threads && Refers(s.threads[t])
    ensures var pc := s.threads[t]; pc.key in s'.table.entries && s'.table.entries[pc.key] == pc.mutex
  {
    ReferredEntry(s, t);
    AliveIffReferred(s, s.threads[t].mutex);
    hide CountsRefer, EntriesHold, Referrers;
    assert s.threads[t].key in Live(s.table);
  }

  lemma MoveSpares<K(!new)>(s: State<K>, u: Tid, s': State<K>, t: Tid)
    requires CountsRefer(s) && EntriesHold(s) && u in s.threads && Moves(s, u, s') && t in s.threads && Refers(s.threads[t])
    ensures var pc := s.threads[t]; pc.key in s'.table.entries && s'.table.entries[pc.key] == pc.mutex
  {
    ReferredEntry(s, t);
    if s.threads[u].Detaching? || s.threads[u].Pruning? {
      PruneSpares(s, s.threads[u].key, t);
    }
    hide CountsRefer, EntriesHold, Prune;
  }

  lemma StepSpares<K(!new)>(s: State<K>, s': State<K>, t: Tid)
    requires Inv(s) && Steps(s, s') && t in s.threads && Refers(s.threads[t])
    ensures var pc := s.threads[t]; pc.key in s'.table.entries && s'.table.entries[pc.key] == pc.mutex
  {
    hide CountsRefer, LocksHold, EntriesHold, LooksUp, Granted, GivesUp, Detaches, Unlocks, Releases;
    var u :| Step(s, u, s');
    if key, m, tries :| LooksUp(s, u, key, m, tries, s') {
      LookupSpares(s, u, key, m, tries, s', t);
    } else {
      MoveSpares(s, u, s', t);
    }
  }

  lemma StepKeepsReference<K(!new)>(s: State<K>, s': State<K>, t: Tid)
    requires Steps(s, s') && t in s.threads && t in s'.threads && Refers(s.threads[t]) && Refers(s'.threads[t])
    ensures s'.threads[t].key == s.threads[t].key && s'.threads[t].mutex == s.threads[t].mutex
  {
    hide Lookup, Prune, DropReference;
  }

  /**
   * The entry of a key that somebody holds or waits for points to their mutex,
   * and no step, not even the one in which they let go, removes or redirects it.
   */
  lemma EntryStaysWhileReferred<K(!new)>(trace: seq<State<K>>, k: nat, t: Tid)
    requires Run(trace) && 0 < k < |trace| && t in trace[k - 1].threads && Refers(trace[k - 1].threads[t])
    ensures var pc := trace[k - 1].threads[t];
            && pc.key in trace[k - 1].table.entries && trace[k - 1].table.entries[pc.key] == pc.mutex
            && pc.key in trace[k].table.entries && trace[k].table.entries[pc.key] == pc.mutex
            && (t in trace[k].threads && Refers(trace[k].threads[t]) ==>
                  trace[k].threads[t].key == pc.key && trace[k].threads[t].mutex == pc.mutex)
  {
    hide Steps, Initial, CountsRefer, LocksHold, EntriesHold;
    RunKeepsInv(trace, k - 1);
    ReferredEntry(trace[k - 1], t);
    StepSpares(trace[k - 1], trace[k], t);
    if t in trace[k].threads && Refers(trace[k].threads[t]) {
      StepKeepsReference(trace[k - 1], trace[k], t);
    }
  }

  /** A waiter is kept out only by a guard of its own key. */
  lemma WaitsOnlyForItsKey<K(!new)>(trace: seq<State<K>>, k: nat, t: Tid)
    requires Run(trace) && k < |trace| && t in trace[k].threads && (trace[k].threads[t].Waiting? || trace[k].threads[t].Trying?)
    ensures var s := trace[k];
            || (exists u :: u in s.threads && Guards(s.threads[u]) && s.threads[u].key == s.threads[t].key)
            || (exists s' :: Granted(s, t, s'))
  {
    RunKeepsInv(trace, k);
    hide Run, CountsRefer;
    var s, pc := trace[k], trace[k].threads[t];
    if pc.mutex in s.table.locked {
      var u :| u in s.threads && Guards(s.threads[u]) && s.threads[u].mutex == pc.mutex;
      assert s.threads[u].key == pc.key;
    } else {
      var s' := At(s.(table := s.table.(locked := s.table.locked + {pc.mutex})), t, Holding(pc.key, pc.mutex));
      assert Granted(s, t, s');
    }
  }

  /** A mutex in hand is locked exactly while a guard of its key is outstanding. */
  lemma LockedIffGuarded<K(!new)>(s: State<K>, t: Tid)
    requires EntriesHold(s) && LocksHold(s) && t in s.threads && Refers(s.threads[t])
    ensures s.threads[t].mutex in s.table.locked <==>
            exists u :: u in s.threads && Guards(s.threads[u]) && s.threads[u].key == s.threads[t].key
  {
    var pc := s.threads[t];
    if pc.mutex in s.table.locked {
      var u :| u in s.threads && Guards(s.threads[u]) && s.threads[u].mutex == pc.mutex;
      assert s.threads[u].key == pc.key;
    }
  }

  /** A try never waits: it gives up exactly if its key is held at that moment, and else holds it. */
  lemma TryFailsIffHeld<K(!new)>(trace: seq<State<K>>, k: nat, t: Tid)
    requires Run(trace) && k < |trace| && t in trace[k].threads && trace[k].threads[t].Trying?
    ensures var s := trace[k];
            var held := exists u :: u in s.threads && Guards(s.threads[u]) && s.threads[u].key == s.threads[t].key;
            && ((exists s' :: GivesUp(s, t, s')) <==> held) && ((exists s' :: Granted(s, t, s')) <==> !held)
  {
    RunKeepsInv(trace, k);
    hide Run, CountsRefer;
    LockedIffGuarded(trace[k], t);
    hide EntriesHold, LocksHold;
    var s, pc := trace[k], trace[k].threads[t];
    if pc.mutex in s.table.locked {
      assert GivesUp(s, t, At(s.(table := DropReference(s.table, pc.mutex)), t, Idle));
    } else {
      assert Granted(s, t, At(s.(table := s.table.(locked := s.table.locked + {pc.mutex})), t, Holding(pc.key, pc.mutex)));
    }
  }

  /** A lookup leaves only entries that some waiter or guard refers to. */
  lemma LookupLeavesNoDeadEntry<K(!new)>(trace: seq<State<K>>, k: nat, t: Tid, key: K, m: MutexId, tries: bool, s': State<K>)
    requires Run(trace) && k < |trace| && t in trace[k].threads && LooksUp(trace[k], t, key, m, tries, s')
    ensures forall j | j in s'.table.entries :: exists u :: u in s'.threads && Refers(s'.threads[u]) && s'.threads[u].key == j
  {
    RunKeepsInv(trace, k);
    hide Run, LocksHold;
    var s := trace[k];
    forall j | j in s'.table.entries
      ensures exists u :: u in s'.threads && Refers(s'.threads[u]) && s'.threads[u].key == j
    {
      if j == key {
        assert Refers(s'.threads[t]);
      } else {
        AliveIffReferred(s, s.table.entries[j]);
        var u :| u in s.threads && RefersTo(s.threads[u], s.table.entries[j]);
        assert s'.threads[u] == s.threads[u];
      }
    }
  }

  /** The last borrowed guard of a key leaves no entry behind. */
  lemma LastGuardRemovesEntry<K(!new)>(trace: seq<State<K>>, k: nat, t: Tid)
    requires Run(trace) && k < |trace| && t in trace[k].threads && trace[k].threads[t].Pruning?
    ensures var s, key := trace[k], trace[k].threads[t].key;
            key in Prune(s.table, key).entries <==> exists u :: u in s.threads && Refers(s.threads[u]) && s.threads[u].key == key
  {
    RunKeepsInv(trace, k);
    hide Run, LocksHold;
    var s, key := trace[k], trace[k].threads[t].key;
    if key in s.table.entries {
      AliveIffReferred(s, s.table.entries[key]);
      if u :| u in s.threads && RefersTo(s.threads[u], s.table.entries[key]) {
        assert s.threads[u].key == key;
      }
    }
  }

  // ---- The whole drop of a borrowed guard ------------------------------------------------------

  /** The thread holds a borrowed guard of the key, or is on its way through the guard's drop. */
  predicate Borrowing<K(==)>(pc: Pc<K>, key: K) {
    || (pc.Holding? && pc.key == key)
    || (pc.Unlocked? && pc.key == key && pc.prunes)
    || (pc.Pruning? && pc.key == key)
  }

  /** One step of a borrower that does not detach: on through the drop, or out of it by a prune of its key. */
  lemma BorrowerSteps<K(!new)>(s: State<K>, s': State<K>, t: Tid, key: K)
    requires Steps(s, s') && t in s.threads && Borrowing(s.threads[t], key) && t in s'.threads
    requires !s'.threads[t].Detaching? && !s'.threads[t].Detached?
    ensures s'.threads[t].Idle? || Borrowing(s'.threads[t], key)
    ensures s'.threads[t].Idle? ==> s.threads[t] == Pruning(key) && s' == At(s.(table := Prune(s.table, key)), t, Idle)
  {
    hide Lookup, Prune, DropReference;
  }

  /** The thread stays between taking and dropping a borrowed guard in all states from `i` to `k`. */
  ghost predicate Keeps<K(!new)>(trace: seq<State<K>>, i: nat, k: nat, t: Tid) {
    forall m | i <= m <= k && m < |trace| ::
      t in trace[m].threads && !trace[m].threads[t].Idle? && !trace[m].threads[t].Detaching? && !trace[m].threads[t].Detached?
  }

  lemma {:induction false} StaysBorrowing<K(!new)>(trace: seq<State<K>>, i: nat, k: nat, t: Tid)
    requires Run(trace) && i <= k < |trace| && Keeps(trace, i, k, t) && trace[i].threads[t].Holding?
    ensures Borrowing(trace[k].threads[t], trace[i].threads[t].key)
    decreases k - i
  {
    hide Steps, Initial;
    if i < k {
      StaysBorrowing(trace, i, k - 1, t);
      BorrowerSteps(trace[k - 1], trace[k], t, trace[i].threads[t].key);
    }
  }

  /** A borrowed guard that was not detached has, once its drop is complete, left an entry only if others refer to the key. */
  lemma BorrowedDropPrunes<K(!new)>(trace: seq<State<K>>, i: nat, k: nat, t: Tid)
    requires Run(trace) && i < k < |trace| && Keeps(trace, i, k - 1, t) && trace[i].threads[t].Holding?
    requires t in trace[k].threads && trace[k].threads[t].Idle?
    ensures var s, key := trace[k], trace[i].threads[t].key;
            key in s.table.entries <==> exists u :: u in s.threads && Refers(s.threads[u]) && s.threads[u].key == key
  {
    hide Steps, Initial, Prune;
    StaysBorrowing(trace, i, k - 1, t);
    var s, s', key := trace[k - 1], trace[k], trace[i].threads[t].key;
    BorrowerSteps(s, s', t, key);
    LastGuardRemovesEntry(trace, k - 1, t);
    hide Run;
    assert forall u | u != t :: (u in s'.threads <==> u in s.threads) && (u in s.threads ==> s'.threads[u] == s.threads[u]);
    if u :| u in s.threads && Refers(s.threads[u]) && s.threads[u].key == key {
      assert u in s'.threads && Refers(s'.threads[u]);
    }
  }

  // ---- The entry map as it is coded --------------------------------------------------------

  class EntryMap<K(==, !new)> {
    var entries: map<K, MutexId>
    var strong: map<MutexId, nat>
    var locked: set<MutexId>
    /** Mutexes are numbered as they are made. */
    var made: nat

    ghost function Contents(): Table<K>
      reads this
    {
      Table(entries, strong, locked)
    }

    ghost predicate Valid()
      reads this
    {
      && (forall m | m in strong :: m < made)
      && (forall k | k in entries :: entries[k] in strong)
    }

    constructor ()
      ensures Valid() && Contents() == Table(map[], map[], {})
    {
      entries, strong, locked, made := map[], map[], {}, 0;
    }

    /** Drop the entries whose mutex died. */
    method Retain()
      requires Valid()
      modifies this`entries
      ensures Valid() && entries == Live(old(Contents()))
    {
      var todo := entries.Keys;
      while todo != {}
        invariant Valid() && todo <= entries.Keys <= old(entries).Keys
        invariant forall k | k in entries :: entries[k] == old(entries)[k]
        invariant forall k | k in old(entries) && k !in todo ::
          k in entries <==> Strong(old(Contents()), old(entries)[k]) > 0
        decreases |todo|
      {
        var k :| k in todo;
        todo := todo - {k};
        if strong[entries[k]] == 0 {
          entries := entries - {k};
        }
      }
    }

    /** The mutex of a key: the live one, or a new one. */
    method MutexFor(key: K) returns (mutex: MutexId)
      requires Valid()
      modifies this
      ensures Valid() && old(made) !in old(strong)
      ensures (Contents(), mutex) == Lookup(old(Contents()), key, old(made))
    {
      Retain();
      if key in entries {
        mutex := entries[key];
        strong := strong[mutex := strong[mutex] + 1];
      } else {
        mutex := made;
        made := made + 1;
        entries := entries[key := mutex];
        strong := strong[mutex := 1];
      }
    }

    /** The second half of a borrowed guard's drop. */
    method DropGuard(key: K)
      requires Valid()
      modifies this`entries
      ensures Valid() && Contents() == Prune(old(Contents()), key)
    {
      if key in entries && strong[entries[key]] == 0 {
        entries := entries - {key};
      }
    }
  }
}
