/**
 * Root keys, computed off the runtime with one computation in flight per path
 * spelling. Callers of a spelling share the channel of its computation. A
 * finishing computation removes its entry, then publishes; one that dies
 * leaves its entry behind without a sender.
 */
module RootKeys {
  import opened Wrappers

  type Cid = nat
  type ChannelId = nat

  datatype Channel<P> = Channel(value: Option<P>, sender: bool)

  /** A computation of the spelling, which publishes on the channel it is numbered by. */
  datatype Computation<P> =
    | Computing(spelling: P)
    | Publishing(spelling: P, key: P)   // its entry is out of the map
    | Published(spelling: P, key: P)    // answered, its sender still held
    | Ended(spelling: P, answer: Option<P>)

  datatype Caller<P> =
    | Outside
    | Awaiting(root: P, channel: ChannelId)
    | Answered(root: P, channel: ChannelId, key: Option<P>)

  datatype State<!P(==)> = State(
    inFlight: map<P, ChannelId>,
    channels: seq<Channel<P>>,
    computations: seq<Computation<P>>,
    callers: map<Cid, Caller<P>>)

  predicate HasSender<P>(s: State<P>, c: ChannelId) {
    c < |s.channels| && s.channels[c].sender
  }

  // ---- Steps -----------------------------------------------------------------------------

  /** Join the computation in flight if its sender is alive; else start one and enter it. */
  ghost function Joined<P(!new)>(s: State<P>, caller: Cid, root: P): State<P> {
    if root in s.inFlight && HasSender(s, s.inFlight[root]) then
      s.(callers := s.callers[caller := Awaiting(root, s.inFlight[root])])
    else
      s.(inFlight := s.inFlight[root := |s.channels|],
         channels := s.channels + [Channel(None, true)],
         computations := s.computations + [Computing(root)],
         callers := s.callers[caller := Awaiting(root, |s.channels|)])
  }

  ghost predicate Calls<P(!new)>(s: State<P>, caller: Cid, root: P, s': State<P>)
    requires caller in s.callers
  {
    !s.callers[caller].Awaiting? && s' == Joined(s, caller, root)
  }

  /** The answer of the channel, or none once its sender is gone without one. */
  ghost predicate Returns<P>(s: State<P>, caller: Cid, s': State<P>)
    requires caller in s.callers
  {
    var c := s.callers[caller];
    && c.Awaiting? && c.channel < |s.channels|
    && (s.channels[c.channel].value.Some? || !s.channels[c.channel].sender)
    && s' == s.(callers := s.callers[caller := Answered(c.root, c.channel, s.channels[c.channel].value)])
  }

  ghost predicate GivesUp<P>(s: State<P>, caller: Cid, s': State<P>)
    requires caller in s.callers
  {
    s.callers[caller].Awaiting? && s' == s.(callers := s.callers[caller := Outside])
  }

  /** The key is known; under the map's mutex the entry goes, if it is this computation's own. */
  ghost predicate Finishes<P>(s: State<P>, c: ChannelId, key: P, s': State<P>)
    requires c < |s.computations|
  {
    var spelling := s.computations[c].spelling;
    && s.computations[c].Computing?
    && s' == s.(computations := s.computations[c := Publishing(spelling, key)],
                inFlight := if spelling in s.inFlight && s.inFlight[spelling] == c then s.inFlight - {spelling} else s.inFlight)
  }

  ghost predicate Publishes<P>(s: State<P>, c: ChannelId, s': State<P>)
    requires c < |s.computations| && c < |s.channels|
  {
    var comp := s.computations[c];
    || (comp.Publishing?
        && s' == s.(computations := s.computations[c := Published(comp.spelling, comp.key)],
                    channels := s.channels[c := s.channels[c].(value := Some(comp.key))]))
    || (comp.Published?
        && s' == s.(computations := s.computations[c := Ended(comp.spelling, Some(comp.key))],
                    channels := s.channels[c := s.channels[c].(sender := false)]))
  }

  /** A panic, or a runtime shutting down before the computation ran. */
  ghost predicate Dies<P>(s: State<P>, c: ChannelId, s': State<P>)
    requires c < |s.computations| && c < |s.channels|
  {
    && s.computations[c].Computing?
    && s' == s.(computations := s.computations[c := Ended(s.computations[c].spelling, None)],
                channels := s.channels[c := s.channels[c].(sender := false)])
  }

  ghost predicate CallerMoves<P(!new)>(s: State<P>, caller: Cid, s': State<P>) {
    caller in s.callers
    && ((exists root :: Calls(s, caller, root, s')) || Returns(s, caller, s') || GivesUp(s, caller, s'))
  }

  ghost predicate CallerSteps<P(!new)>(s: State<P>, s': State<P>) {
    exists caller :: CallerMoves(s, caller, s')
  }

  ghost predicate ComputationMoves<P(!new)>(s: State<P>, c: ChannelId, s': State<P>) {
    c < |s.computations| && c < |s.channels|
    && ((exists key :: Finishes(s, c, key, s')) || Publishes(s, c, s') || Dies(s, c, s'))
  }

  ghost predicate ComputationSteps<P(!new)>(s: State<P>, s': State<P>) {
    exists c :: ComputationMoves(s, c, s')
  }

  ghost predicate Step<P(!new)>(s: State<P>, s': State<P>) {
    CallerSteps(s, s') || ComputationSteps(s, s')
  }

  ghost predicate Initial<P>(s: State<P>) {
    s.inFlight == map[] && s.channels == [] && s.computations == [] && forall c | c in s.callers :: s.callers[c] == Outside
  }

  ghost predicate Run<P(!new)>(trace: seq<State<P>>) {
    && trace != [] && Initial(trace[0])
    && forall i | 0 < i < |trace| :: Step(trace[i - 1], trace[i])
  }

  // ---- The invariant -----------------------------------------------------------------------

  /** What a channel shows is what its computation has done. */
  ghost predicate ChannelFits<P>(channel: Channel<P>, comp: Computation<P>) {
    match comp
    case Computing(_) => channel == Channel(None, true)
    case Publishing(_, _) => channel == Channel(None, true)
    case Published(_, key) => channel == Channel(Some(key), true)
    case Ended(_, answer) => channel == Channel(answer, false)
  }

  ghost predicate ChannelsFit<P>(s: State<P>) {
    && |s.channels| == |s.computations|
    && forall c | 0 <= c < |s.channels| :: ChannelFits(s.channels[c], s.computations[c])
  }

  /** Running computations are the entries of their spellings, and no entry has an answer. */
  ghost predicate EntriesFit<P(!new)>(s: State<P>) {
    && (forall c | 0 <= c < |s.computations| && s.computations[c].Computing? ::
          s.computations[c].spelling in s.inFlight && s.inFlight[s.computations[c].spelling] == c)
    && (forall root | root in s.inFlight ::
          && s.inFlight[root] < |s.computations|
          && s.computations[s.inFlight[root]].spelling == root
          && (s.computations[s.inFlight[root]].Computing? || s.computations[s.inFlight[root]] == Ended(root, None)))
  }

  ghost predicate CallersFit<P>(s: State<P>) {
    forall caller | caller in s.callers && !s.callers[caller].Outside? ::
      var c := s.callers[caller];
      && c.channel < |s.computations| && s.computations[c.channel].spelling == c.root
      && (c.Answered? ==> match s.computations[c.channel]
                          case Published(_, key) => c.key == Some(key)
                          case Ended(_, answer) => c.key == answer
                          case _ => false)
  }

  ghost predicate Inv<P(!new)>(s: State<P>) {
    ChannelsFit(s) && EntriesFit(s) && CallersFit(s)
  }

  lemma CallKeepsInv<P(!new)>(s: State<P>, caller: Cid, root: P, s': State<P>)
    requires Inv(s) && caller in s.callers && Calls(s, caller, root, s')
    ensures Inv(s')
  {
  }

  lemma ReturnKeepsInv<P(!new)>(s: State<P>, caller: Cid, s': State<P>)
    requires Inv(s) && caller in s.callers && (Returns(s, caller, s') || GivesUp(s, caller, s'))
    ensures Inv(s')
  {
  }

  lemma FinishKeepsInv<P(!new)>(s: State<P>, c: ChannelId, key: P, s': State<P>)
    requires Inv(s) && c < |s.computations| && Finishes(s, c, key, s')
    ensures Inv(s')
  {
  }

  lemma PublishKeepsInv<P(!new)>(s: State<P>, c: ChannelId, s': State<P>)
    requires Inv(s) && c < |s.computations| && c < |s.channels| && Publishes(s, c, s')
    ensures Inv(s')
  {
  }

  lemma DeathKeepsInv<P(!new)>(s: State<P>, c: ChannelId, s': State<P>)
    requires Inv(s) && c < |s.computations| && c < |s.channels| && Dies(s, c, s')
    ensures Inv(s')
  {
  }

  lemma StepKeepsInv<P(!new)>(s: State<P>, s': State<P>)
    requires Inv(s) && Step(s, s')
    ensures Inv(s')
  {
    hide Inv, Calls, Returns, GivesUp, Finishes, Publishes, Dies;
    if CallerSteps(s, s') {
      var caller :| CallerMoves(s, caller, s');
      if root :| Calls(s, caller, root, s') {
        CallKeepsInv(s, caller, root, s');
      } else {
        ReturnKeepsInv(s, caller, s');
      }
    } else {
      var c :| ComputationMoves(s, c, s');
      if key :| Finishes(s, c, key, s') {
        FinishKeepsInv(s, c, key, s');
      } else if Publishes(s, c, s') {
        PublishKeepsInv(s, c, s');
      } else {
        DeathKeepsInv(s, c, s');
      }
    }
  }

  lemma {:induction false} RunKeepsInv<P(!new)>(trace: seq<State<P>>, k: nat)
    requires Run(trace) && k < |trace|
    ensures Inv(trace[k])
    decreases k
  {
    if k > 0 {
      RunKeepsInv(trace, k - 1);
      hide Inv, Step;
      StepKeepsInv(trace[k - 1], trace[k]);
    }
  }

  // ---- What it is for --------------------------------------------------------------------------

  /** At most one computation of a spelling runs at a time. */
  lemma OneComputationPerSpelling<P(!new)>(trace: seq<State<P>>, k: nat, c: ChannelId, d: ChannelId)
    requires Run(trace) && k < |trace| && c < |trace[k].computations| && d < |trace[k].computations|
    requires trace[k].computations[c].Computing? && trace[k].computations[d].Computing?
    requires trace[k].computations[c].spelling == trace[k].computations[d].spelling
    ensures c == d
  {
    RunKeepsInv(trace, k);
    hide Run;
  }

  /** A caller gets the answer of the computation it joined, or none exactly if that one died. */
  lemma AnswerIsOfJoined<P(!new)>(trace: seq<State<P>>, k: nat, caller: Cid)
    requires Run(trace) && k < |trace| && caller in trace[k].callers && trace[k].callers[caller].Answered?
    ensures var s, a := trace[k], trace[k].callers[caller];
            && a.channel < |s.computations| && s.computations[a.channel].spelling == a.root
            && (a.key.None? <==> s.computations[a.channel] == Ended(a.root, None))
            && (a.key.Some? ==>
                  || s.computations[a.channel] == Published(a.root, a.key.value)
                  || s.computations[a.channel] == Ended(a.root, a.key))
  {
    RunKeepsInv(trace, k);
    hide Run;
  }

  /** A caller can return exactly when the computation it joined has published or is over: nobody waits for a dead one. */
  lemma ReturnsIffOver<P(!new)>(trace: seq<State<P>>, k: nat, caller: Cid)
    requires Run(trace) && k < |trace| && caller in trace[k].callers && trace[k].callers[caller].Awaiting?
    ensures var s, c := trace[k], trace[k].callers[caller].channel;
            && c < |s.computations|
            && ((exists s' :: Returns(s, caller, s')) <==> s.computations[c].Published? || s.computations[c].Ended?)
  {
    RunKeepsInv(trace, k);
    hide Run;
    var s, a := trace[k], trace[k].callers[caller];
    if s.computations[a.channel].Published? || s.computations[a.channel].Ended? {
      assert Returns(s, caller, s.(callers := s.callers[caller := Answered(a.root, a.channel, s.channels[a.channel].value)]));
    }
  }

  /** A call never joins a channel that already has an answer, nor one whose computation is over. */
  lemma CallJoinsUnanswered<P(!new)>(trace: seq<State<P>>, k: nat, caller: Cid, root: P, s': State<P>)
    requires Run(trace) && k < |trace| && caller in trace[k].callers && Calls(trace[k], caller, root, s')
    ensures var c := s'.callers[caller].channel;
            && c < |s'.channels| && c < |s'.computations|
            && s'.channels[c] == Channel(None, true) && s'.computations[c] == Computing(root)
  {
    RunKeepsInv(trace, k);
    hide Run;
  }

  /** A call starts a computation exactly when none of its spelling runs. */
  lemma CallStartsIffNoneRuns<P(!new)>(trace: seq<State<P>>, k: nat, caller: Cid, root: P, s': State<P>)
    requires Run(trace) && k < |trace| && caller in trace[k].callers && Calls(trace[k], caller, root, s')
    ensures |s'.computations| > |trace[k].computations| <==>
            forall c | 0 <= c < |trace[k].computations| :: trace[k].computations[c] != Computing(root)
  {
    RunKeepsInv(trace, k);
    hide Run;
  }

  /** A finishing computation removes its own entry and nothing else. */
  lemma FinishRemovesOwnEntry<P(!new)>(trace: seq<State<P>>, k: nat, c: ChannelId, key: P, s': State<P>)
    requires Run(trace) && k < |trace| && c < |trace[k].computations| && Finishes(trace[k], c, key, s')
    ensures var spelling := trace[k].computations[c].spelling;
            && spelling in trace[k].inFlight && trace[k].inFlight[spelling] == c
            && s'.inFlight == trace[k].inFlight - {spelling}
  {
    RunKeepsInv(trace, k);
    hide Run;
  }

  /** An entry left behind belongs to a computation that died, and the next call replaces it. */
  lemma DeadEntryIsReplaced<P(!new)>(trace: seq<State<P>>, k: nat, caller: Cid, root: P, s': State<P>)
    requires Run(trace) && k < |trace| && caller in trace[k].callers && Calls(trace[k], caller, root, s')
    requires root in trace[k].inFlight && !HasSender(trace[k], trace[k].inFlight[root])
    ensures trace[k].inFlight[root] < |trace[k].computations|
    ensures trace[k].computations[trace[k].inFlight[root]] == Ended(root, None)
    ensures root in s'.inFlight && s'.inFlight[root] == |trace[k].computations| && |s'.computations| > s'.inFlight[root]
    ensures s'.computations[s'.inFlight[root]] == Computing(root)
  {
    RunKeepsInv(trace, k);
    hide Run;
  }

  // ---- The map as it is coded ---------------------------------------------------------------------

  class RootKeys<P(==, !new)> {
    var inFlight: map<P, ChannelId>
    var channels: seq<Channel<P>>
    var computations: seq<Computation<P>>
    ghost var callers: map<Cid, Caller<P>>

    ghost function Contents(): State<P>
      reads this
    {
      State(inFlight, channels, computations, callers)
    }

    constructor ()
      ensures Contents() == State(map[], [], [], map[]) && Inv(Contents())
    {
      inFlight, channels, computations, callers := map[], [], [], map[];
    }

    /** The receiver a caller of `root` waits on. */
    method JoinOrStart(ghost caller: Cid, root: P) returns (answer: ChannelId)
      requires Inv(Contents()) && (caller in callers ==> !callers[caller].Awaiting?)
      modifies this
      ensures Inv(Contents())
      ensures Contents() == old(Joined(Contents(), caller, root)) && callers[caller] == Awaiting(root, answer)
    {
      hide Inv;
      JoinedKeepsInv(Contents(), caller, root);
      EntriesNumberChannels(Contents(), root);
      if root in inFlight && channels[inFlight[root]].sender {
        answer := inFlight[root];
      } else {
        answer := |channels|;
        channels := channels + [Channel(None, true)];
        computations := computations + [Computing(root)];
        inFlight := inFlight[root := answer];
      }
      callers := callers[caller := Awaiting(root, answer)];
    }

    /** The end of a computation's work: take its entry out, if it is its own. */
    method Finish(own: ChannelId, key: P)
      requires Inv(Contents()) && own < |computations| && computations[own].Computing?
      modifies this
      ensures Inv(Contents()) && Finishes(old(Contents()), own, key, Contents())
    {
      var spelling := computations[own].spelling;
      ghost var before := Contents();
      if spelling in inFlight && inFlight[spelling] == own {
        inFlight := inFlight - {spelling};
      }
      computations := computations[own := Publishing(spelling, key)];
      FinishKeepsInv(before, own, key, Contents());
    }
  }

  /** A caller not seen before comes from outside. */
  lemma EntersOutside<P(!new)>(s: State<P>, caller: Cid)
    requires Inv(s)
    ensures Inv(s.(callers := if caller in s.callers then s.callers else s.callers[caller := Outside]))
  {
  }

  lemma JoinedKeepsInv<P(!new)>(s: State<P>, caller: Cid, root: P)
    requires Inv(s) && (caller in s.callers ==> !s.callers[caller].Awaiting?)
    ensures Inv(Joined(s, caller, root))
  {
    hide Inv;
    var entered := s.(callers := if caller in s.callers then s.callers else s.callers[caller := Outside]);
    EntersOutside(s, caller);
    CallKeepsInv(entered, caller, root, Joined(entered, caller, root));
    assert Joined(entered, caller, root).callers == Joined(s, caller, root).callers;
  }

  lemma EntriesNumberChannels<P(!new)>(s: State<P>, root: P)
    requires Inv(s)
    ensures |s.channels| == |s.computations| && (root in s.inFlight ==> s.inFlight[root] < |s.channels|)
  {
  }
}
