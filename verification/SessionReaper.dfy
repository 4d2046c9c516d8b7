/** When the reaper runs does not matter, and its deadline is exact. */
module SessionReaper {
  import opened Wrappers
  import opened SessionPresence
  import opened SessionRuns

  /** With distinct join orders the first of a locality is unique. */
  lemma OwnerUnique(ps: map<WindowId, Participant>, qs: map<WindowId, Participant>)
    requires DistinctSeqs(ps)
    requires forall w, local :: Eligible(ps, w, local) <==> Eligible(qs, w, local)
    requires forall w | w in ps && w in qs :: ps[w].joinSeq == qs[w].joinSeq
    ensures BestOwner(ps) == BestOwner(qs)
  {
    forall local ensures LowestOf(ps, local) == LowestOf(qs, local) {
      var a, b := LowestOf(ps, local), LowestOf(qs, local);
      assert a.Some? ==> Eligible(qs, a.value, local);
      assert b.Some? ==> Eligible(ps, b.value, local);
    }
  }

  lemma ComputedStateAdvances(p: Participant, t1: Instant, t2: Instant)
    requires t1 <= t2
    ensures ComputedState(p, t1) == Gone ==> ComputedState(p, t2) == Gone
    ensures Stepped(Stepped(p, t1), t2) == Stepped(p, t2)
    ensures ComputedState(Stepped(p, t1), t2) == ComputedState(p, t2)
  {
  }

  lemma SurvivorsAbsorb(r: Registry, t1: Instant, t2: Instant)
    requires t1 <= t2
    ensures Survivors(Reap(r, t1), t2) == Survivors(r, t2)
    ensures forall w :: GoneAt(Reap(r, t1), w, t2) <==> GoneAt(r, w, t2) && !GoneAt(r, w, t1)
    ensures forall w :: GoneAt(r, w, t1) ==> GoneAt(r, w, t2)
  {
    hide BestOwner, ComputedState, Stepped;
    forall w | w in r.participants {
      ComputedStateAdvances(r.participants[w], t1, t2);
    }
    assert Survivors(Reap(r, t1), t2) == Survivors(r, t2);
  }

  /** The live participants, hence the owner they elect, are the same at both times. */
  lemma SameElection(r: Registry, t1: Instant, t2: Instant)
    requires Stable(r)
    ensures BestOwner(Survivors(r, t1)) == BestOwner(Survivors(r, t2))
  {
    OwnerUnique(Survivors(r, t1), Survivors(r, t2));
  }

  /** An earlier reap leaves no trace in a later one. */
  lemma ReapAbsorbs(r: Registry, t1: Instant, t2: Instant)
    requires Stable(r) && t1 <= t2
    ensures Reap(Reap(r, t1), t2) == Reap(r, t2)
  {
    SurvivorsAbsorb(r, t1, t2);
    SameElection(r, t1, t2);
    ReapKeepsStable(r, t1);
    hide BestOwner, Survivors, ComputedState;
    var once := Reap(r, t1);
    if r.leader.Some? && GoneAt(r, r.leader.value, t1) && once.leader.Some? {
      ElectedSurvive(r, t1, t2);
    }
  }

  /** Who is elected by a reap is live, hence not gone at any time. */
  lemma ElectedSurvive(r: Registry, t1: Instant, t2: Instant)
    requires BestOwner(Survivors(r, t1)).Some?
    ensures !GoneAt(Reap(r, t1), BestOwner(Survivors(r, t1)).value, t2)
  {
  }

  ghost function ReapAll(r: Registry, times: seq<Instant>): Registry
    decreases |times|
  {
    if times == [] then r else ReapAll(Reap(r, times[0]), times[1..])
  }

  /** Any schedule of reaps ends where a single reap at its last instant ends. */
  lemma {:induction false} ScheduleIrrelevant(r: Registry, times: seq<Instant>)
    requires Stable(r) && times != []
    requires forall i, j | 0 <= i < j < |times| :: times[i] <= times[j]
    ensures ReapAll(r, times) == Reap(r, times[|times| - 1])
    decreases |times|
  {
    hide Reap, Stable;
    if |times| > 1 {
      ReapKeepsStable(r, times[0]);
      ScheduleIrrelevant(Reap(r, times[0]), times[1..]);
      ReapAbsorbs(r, times[0], times[|times| - 1]);
    } else {
      assert times[1..] == [];
      assert ReapAll(r, times) == ReapAll(Reap(r, times[0]), []);
    }
  }

  /** `changed` is reported exactly when the registry moved. */
  lemma ChangedIffMoved(r: Registry, now: Instant)
    requires Stable(r)
    ensures ReapChanged(r, now) <==> Reap(r, now) != r
  {
    hide BestOwner;
    if !ReapChanged(r, now) {
      forall w | w in r.participants
        ensures !GoneAt(r, w, now) && Stepped(r.participants[w], now) == r.participants[w]
      {
      }
      assert Survivors(r, now) == r.participants;
    } else {
      var w :| w in r.participants && Stepped(r.participants[w], now).state != r.participants[w].state;
      assert w in Reap(r, now).participants ==> Reap(r, now).participants[w] != r.participants[w];
    }
  }

  /** Between a threshold and the next one a participant's state does not move. */
  lemma QuietParticipant(p: Participant, now: Instant, t: Instant)
    requires now <= t
    requires p.disconnectedAt.Some? || p.sockets > 0
    requires ComputedState(p, now) != Gone
    requires NextThreshold(p, now).Some? ==> t < NextThreshold(p, now).value
    ensures ComputedState(p, t) == ComputedState(p, now)
  {
  }

  /** A reap before the returned deadline does nothing and reports nothing. */
  lemma QuietBeforeDeadline(r: Registry, now: Instant, deadline: Option<Instant>, t: Instant)
    requires Stable(r) && now <= t
    requires SoonestDeadline(Reap(r, now), now, deadline)
    requires deadline.Some? ==> t < deadline.value
    ensures Reap(Reap(r, now), t) == Reap(r, now)
    ensures !ReapChanged(Reap(r, now), t)
  {
    var s := Reap(r, now);
    ReapKeepsStable(r, now);
    forall w | w in s.participants
      ensures Stepped(s.participants[w], t).state == s.participants[w].state
    {
      ComputedStateAdvances(r.participants[w], now, now);
      QuietParticipant(s.participants[w], now, t);
    }
    ChangedIffMoved(s, t);
  }

  /** A reap exactly at the returned deadline changes something. */
  lemma DueAtDeadline(r: Registry, now: Instant, deadline: Instant)
    requires Stable(r)
    requires SoonestDeadline(Reap(r, now), now, Some(deadline))
    ensures now < deadline
    ensures ReapChanged(Reap(r, now), deadline)
    ensures Reap(Reap(r, now), deadline) != Reap(r, now)
  {
    var s := Reap(r, now);
    ReapKeepsStable(r, now);
    var w :| w in s.participants && NextThreshold(s.participants[w], now) == Some(deadline);
    ComputedStateAdvances(r.participants[w], now, now);
    assert Stepped(s.participants[w], deadline).state != s.participants[w].state;
    ChangedIffMoved(s, deadline);
  }

  /** Right after a reap no participant reads as gone at that instant. */
  lemma NobodyGoneAfterReap(r: Registry, now: Instant)
    ensures forall w | w in Reap(r, now).participants :: ComputedState(Reap(r, now).participants[w], now) != Gone
  {
    hide BestOwner;
  }

  // ---- The public view -----------------------------------------------------

  datatype Row = Row(name: string, local: bool, status: Lifecycle)

  /** The published rows and owner at `now`. */
  function Snapshot(r: Registry, now: Instant): (map<WindowId, Row>, Option<WindowId>) {
    (map w | w in r.participants ::
       Row(EffectiveName(r.participants[w]), r.participants[w].local, ComputedState(r.participants[w], now)),
     r.leader)
  }

  /** A join reports a change exactly when the published view moved. */
  lemma JoinChangedIffViewMoves(
      r: Registry, w: WindowId, local: bool, identity: Option<Identity>, name: string, now: Instant)
    requires Stable(r)
    ensures JoinChanged(r, w) <==> Snapshot(Join(r, w, local, identity, name), now) != Snapshot(r, now)
  {
    hide BestOwner;
    var before, after := Snapshot(r, now).0, Snapshot(Join(r, w, local, identity, name), now).0;
    if JoinChanged(r, w) {
      assert w in after && after[w].status == Live;
      assert w in before ==> before[w].status != Live;
    } else {
      assert after == before;
    }
  }
}
