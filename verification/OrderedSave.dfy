/**
 * The ordered save protocol of the workspace overlay and the colour store, for
 * any number of concurrent writers. A writer changes the data under the data
 * lock, takes a ticket together with a snapshot under that lock, and later
 * publishes the snapshot under the save lock unless a newer ticket was there
 * first. `D` is the data, `F` what a file holds.
 */
module OrderedSave {
  import opened Wrappers

  type Tid = nat

  /** A write either replaces the file or not, and may report an error after replacing it. */
  datatype WriteResult = Written | WrittenButFailed | NotWritten

  datatype Pc<F> =
    | Idle
    | Changed                            // the data is changed, no ticket taken yet
    | Captured(ticket: nat, content: F)  // ticket and encoded snapshot in hand
    | Locked(ticket: nat, content: F)    // holding the save lock
    | Claimed(ticket: nat, content: F)   // and recorded as the latest save
    | Done

  datatype Store<!D, !F> = Store(
    encode: D -> F,
    data: D,
    nextSave: nat,
    latestSave: nat,
    saveLock: Option<Tid>,
    file: F,
    writers: map<Tid, Pc<F>>,
    // what happened so far
    snapshots: seq<D>,
    fileTicket: nat,
    results: map<nat, WriteResult>)

  ghost function At<D, F>(s: Store<D, F>, t: Tid, pc: Pc<F>): map<Tid, Pc<F>> {
    s.writers[t := pc]
  }

  /** The overlay changes its rows in one critical section and snapshots them in another. */
  ghost predicate Change<D, F>(s: Store<D, F>, t: Tid, data: D, s': Store<D, F>)
    requires t in s.writers
  {
    s.writers[t] == Idle && s' == s.(data := data, writers := At(s, t, Changed))
  }

  ghost function Capturing<D, F>(s: Store<D, F>, t: Tid, data: D): Store<D, F> {
    s.(data := data, nextSave := s.nextSave + 1, snapshots := s.snapshots + [data],
       writers := At(s, t, Captured(s.nextSave + 1, s.encode(data))))
  }

  ghost predicate Capture<D, F>(s: Store<D, F>, t: Tid, s': Store<D, F>)
    requires t in s.writers
  {
    s.writers[t] == Changed && s' == Capturing(s, t, s.data)
  }

  /** The colour store changes its value and snapshots it in one critical section. */
  ghost predicate ChangeAndCapture<D, F>(s: Store<D, F>, t: Tid, data: D, s': Store<D, F>)
    requires t in s.writers
  {
    s.writers[t] == Idle && s' == Capturing(s, t, data)
  }

  ghost predicate Lock<D, F>(s: Store<D, F>, t: Tid, s': Store<D, F>)
    requires t in s.writers
  {
    var pc := s.writers[t];
    && pc.Captured? && s.saveLock.None?
    && s' == s.(saveLock := Some(t), writers := At(s, t, Locked(pc.ticket, pc.content)))
  }

  /** Give way to a newer save, or exclude the older ones before writing. */
  ghost predicate Decide<D, F>(s: Store<D, F>, t: Tid, s': Store<D, F>)
    requires t in s.writers
  {
    var pc := s.writers[t];
    && pc.Locked?
    && if pc.ticket <= s.latestSave
       then s' == s.(saveLock := None, writers := At(s, t, Done))
       else s' == s.(latestSave := pc.ticket, writers := At(s, t, Claimed(pc.ticket, pc.content)))
  }

  ghost predicate Write<D, F>(s: Store<D, F>, t: Tid, result: WriteResult, s': Store<D, F>)
    requires t in s.writers
  {
    var pc := s.writers[t];
    && pc.Claimed?
    && s' == s.(saveLock := None, writers := At(s, t, Done), results := s.results[pc.ticket := result],
                file := if result == NotWritten then s.file else pc.content,
                fileTicket := if result == NotWritten then s.fileTicket else pc.ticket)
  }

  /** A writer that finished may start over with another change. */
  ghost predicate Restart<D, F>(s: Store<D, F>, t: Tid, s': Store<D, F>)
    requires t in s.writers
  {
    s.writers[t] == Done && s' == s.(writers := At(s, t, Idle))
  }

  ghost predicate Step<D(!new), F(!new)>(s: Store<D, F>, t: Tid, s': Store<D, F>) {
    && t in s.writers
    && (|| Capture(s, t, s') || Lock(s, t, s') || Decide(s, t, s') || Restart(s, t, s')
        || (exists d :: Change(s, t, d, s')) || (exists d :: ChangeAndCapture(s, t, d, s'))
        || (exists result :: Write(s, t, result, s')))
  }

  /** A store just opened on a file; `loaded` is what was read from it. */
  ghost predicate Opened<D, F>(s: Store<D, F>) {
    && s.nextSave == 0 && s.latestSave == 0 && s.saveLock.None? && s.snapshots == [] && s.fileTicket == 0
    && s.results == map[] && forall t | t in s.writers :: s.writers[t] == Idle
  }

  ghost predicate Steps<D(!new), F(!new)>(s: Store<D, F>, s': Store<D, F>) {
    exists t :: Step(s, t, s')
  }

  ghost predicate Run<D(!new), F(!new)>(trace: seq<Store<D, F>>) {
    && trace != [] && Opened(trace[0])
    && forall i | 0 < i < |trace| :: Steps(trace[i - 1], trace[i])
  }

  // ---- The invariant ------------------------------------------------------------

  predicate HasTicket<F>(pc: Pc<F>) {
    pc.Captured? || pc.Locked? || pc.Claimed?
  }

  /** Tickets in hand number snapshots, each its own. */
  ghost predicate TicketsFit<D, F>(s: Store<D, F>) {
    && s.nextSave == |s.snapshots|
    && (forall t | t in s.writers && HasTicket(s.writers[t]) ::
          && 1 <= s.writers[t].ticket <= |s.snapshots|
          && s.writers[t].content == s.encode(s.snapshots[s.writers[t].ticket - 1]))
    && (forall t, u | t in s.writers && u in s.writers && HasTicket(s.writers[t]) && HasTicket(s.writers[u]) && t != u ::
          s.writers[t].ticket != s.writers[u].ticket)
  }

  ghost predicate LockFits<D, F>(s: Store<D, F>) {
    && (forall t | t in s.writers :: s.writers[t].Locked? || s.writers[t].Claimed? <==> s.saveLock == Some(t))
    && (forall t | t in s.writers && s.writers[t].Claimed? ::
          s.latestSave == s.writers[t].ticket && s.fileTicket < s.latestSave && s.latestSave !in s.results)
  }

  /** The file holds the snapshot of its ticket, which is no newer than the latest save. */
  ghost predicate FileFits<D, F>(s: Store<D, F>, original: F) {
    && s.fileTicket <= s.latestSave <= |s.snapshots|
    && s.file == if s.fileTicket == 0 then original else s.encode(s.snapshots[s.fileTicket - 1])
  }

  ghost predicate InHand<F>(writers: map<Tid, Pc<F>>, k: nat) {
    exists t :: t in writers && HasTicket(writers[t]) && writers[t].ticket == k
  }

  ghost predicate Writing<F>(writers: map<Tid, Pc<F>>) {
    exists t :: t in writers && writers[t].Claimed?
  }

  ghost predicate Uncaptured<F>(writers: map<Tid, Pc<F>>) {
    exists t :: t in writers && writers[t].Changed?
  }

  /** Tickets above the latest save are still in some writer's hand, and the latest one was or is being written. */
  ghost predicate Pending<D, F>(s: Store<D, F>) {
    && (forall k | s.latestSave < k <= |s.snapshots| :: InHand(s.writers, k))
    && (s.latestSave > 0 ==> s.latestSave in s.results || Writing(s.writers))
    && (forall k | k in s.results :: 1 <= k <= s.latestSave)
    && (s.latestSave in s.results ==> (s.results[s.latestSave] != NotWritten <==> s.fileTicket == s.latestSave))
  }

  /** The data is the newest snapshot, unless a writer has yet to capture its change. */
  ghost predicate DataFits<D, F>(s: Store<D, F>, loaded: D) {
    || Uncaptured(s.writers)
    || s.data == if s.snapshots == [] then loaded else s.snapshots[|s.snapshots| - 1]
  }

  /** Tickets and the lock. */
  ghost predicate Orderly<D, F>(s: Store<D, F>) {
    TicketsFit(s) && LockFits(s)
  }

  /** What is, or will be, on disk. */
  ghost predicate Durable<D, F>(s: Store<D, F>, loaded: D, original: F) {
    FileFits(s, original) && Pending(s) && DataFits(s, loaded)
  }

  ghost predicate Inv<D, F>(s: Store<D, F>, loaded: D, original: F) {
    Orderly(s) && Durable(s, loaded, original)
  }

  /** How one writer's move changes who holds what. */
  lemma MoveFacts<F(!new)>(writers: map<Tid, Pc<F>>, t: Tid, pc: Pc<F>)
    requires t in writers
    ensures var moved := writers[t := pc];
            && (HasTicket(pc) ==> InHand(moved, pc.ticket))
            && (forall k | InHand(writers, k) && !(HasTicket(writers[t]) && writers[t].ticket == k) :: InHand(moved, k))
            && (pc.Claimed? || (Writing(writers) && !writers[t].Claimed?) ==> Writing(moved))
            && (pc.Changed? || (Uncaptured(writers) && !writers[t].Changed?) ==> Uncaptured(moved))
  {
    var moved := writers[t := pc];
    assert moved[t] == pc;
    forall k | InHand(writers, k) && !(HasTicket(writers[t]) && writers[t].ticket == k)
      ensures InHand(moved, k)
    {
      var u :| u in writers && HasTicket(writers[u]) && writers[u].ticket == k;
      assert moved[u] == writers[u];
    }
    if u :| u in writers && writers[u].Claimed? {
      assert u != t ==> moved[u] == writers[u];
    }
    if u :| u in writers && writers[u].Changed? {
      assert u != t ==> moved[u] == writers[u];
    }
  }

  lemma CaptureKeepsOrder<D(!new), F(!new)>(s: Store<D, F>, t: Tid, data: D)
    requires Orderly(s) && t in s.writers && !HasTicket(s.writers[t])
    ensures Orderly(Capturing(s, t, data))
  {
  }

  lemma CaptureKeepsDurable<D(!new), F(!new)>(s: Store<D, F>, t: Tid, data: D, loaded: D, original: F)
    requires Durable(s, loaded, original) && s.nextSave == |s.snapshots| && t in s.writers && !HasTicket(s.writers[t])
    ensures Durable(Capturing(s, t, data), loaded, original)
  {
    var s' := Capturing(s, t, data);
    MoveFacts(s.writers, t, s'.writers[t]);
    hide InHand, Writing, Uncaptured;
  }

  lemma PlainKeepsOrder<D(!new), F(!new)>(s: Store<D, F>, t: Tid, s': Store<D, F>)
    requires Orderly(s) && s.fileTicket <= s.latestSave && (forall k | k in s.results :: k <= s.latestSave)
    requires t in s.writers && (Restart(s, t, s') || exists d :: Change(s, t, d, s'))
    ensures Orderly(s')
  {
  }

  lemma PlainKeepsDurable<D(!new), F(!new)>(s: Store<D, F>, t: Tid, s': Store<D, F>, loaded: D, original: F)
    requires Inv(s, loaded, original) && t in s.writers && (Restart(s, t, s') || exists d :: Change(s, t, d, s'))
    ensures Durable(s', loaded, original)
  {
    MoveFacts(s.writers, t, s'.writers[t]);
    hide InHand, Writing, Uncaptured;
  }

  lemma LockKeepsOrder<D(!new), F(!new)>(s: Store<D, F>, t: Tid, s': Store<D, F>)
    requires Orderly(s) && s.fileTicket <= s.latestSave && (forall k | k in s.results :: k <= s.latestSave)
    requires t in s.writers && Lock(s, t, s')
    ensures Orderly(s')
  {
  }

  lemma LockKeepsDurable<D(!new), F(!new)>(s: Store<D, F>, t: Tid, s': Store<D, F>, loaded: D, original: F)
    requires Inv(s, loaded, original) && t in s.writers && Lock(s, t, s')
    ensures Durable(s', loaded, original)
  {
    MoveFacts(s.writers, t, s'.writers[t]);
    hide InHand, Writing, Uncaptured;
  }

  /** Who still has a ticket has the one it had. */
  ghost predicate SameTickets<D, F>(s: Store<D, F>, s': Store<D, F>) {
    && s'.snapshots == s.snapshots && s'.encode == s.encode && s'.nextSave == s.nextSave
    && forall u | u in s'.writers && HasTicket(s'.writers[u]) ::
         && u in s.writers && HasTicket(s.writers[u])
         && s'.writers[u].ticket == s.writers[u].ticket && s'.writers[u].content == s.writers[u].content
  }

  lemma SameTicketsFit<D(!new), F(!new)>(s: Store<D, F>, s': Store<D, F>)
    requires TicketsFit(s) && SameTickets(s, s')
    ensures TicketsFit(s')
  {
    hide HasTicket;
  }

  lemma DecideSameTickets<D(!new), F(!new)>(s: Store<D, F>, t: Tid, s': Store<D, F>)
    requires t in s.writers && Decide(s, t, s')
    ensures SameTickets(s, s')
  {
  }

  lemma DecideKeepsLock<D(!new), F(!new)>(s: Store<D, F>, t: Tid, s': Store<D, F>)
    requires LockFits(s) && s.fileTicket <= s.latestSave && (forall k | k in s.results :: k <= s.latestSave)
    requires t in s.writers && Decide(s, t, s')
    ensures LockFits(s')
  {
  }

  lemma DecideKeepsOrder<D(!new), F(!new)>(s: Store<D, F>, t: Tid, s': Store<D, F>)
    requires Orderly(s) && s.fileTicket <= s.latestSave && (forall k | k in s.results :: k <= s.latestSave)
    requires t in s.writers && Decide(s, t, s')
    ensures Orderly(s')
  {
    hide TicketsFit, LockFits, Decide, SameTickets;
    DecideSameTickets(s, t, s');
    SameTicketsFit(s, s');
    DecideKeepsLock(s, t, s');
  }

  lemma DecideKeepsDurable<D(!new), F(!new)>(s: Store<D, F>, t: Tid, s': Store<D, F>, loaded: D, original: F)
    requires Inv(s, loaded, original) && t in s.writers && Decide(s, t, s')
    ensures Durable(s', loaded, original)
  {
    MoveFacts(s.writers, t, s'.writers[t]);
    hide InHand, Writing, Uncaptured;
  }

  lemma WriteKeepsOrder<D(!new), F(!new)>(s: Store<D, F>, t: Tid, s': Store<D, F>, result: WriteResult)
    requires Orderly(s) && s.fileTicket <= s.latestSave && (forall k | k in s.results :: k <= s.latestSave)
    requires t in s.writers && Write(s, t, result, s')
    ensures Orderly(s')
  {
  }

  lemma WriteKeepsDurable<D(!new), F(!new)>(s: Store<D, F>, t: Tid, s': Store<D, F>, loaded: D, original: F, result: WriteResult)
    requires Inv(s, loaded, original) && t in s.writers && Write(s, t, result, s')
    ensures Durable(s', loaded, original)
  {
    MoveFacts(s.writers, t, s'.writers[t]);
    hide InHand, Writing, Uncaptured;
  }

  lemma StepKeepsInv<D(!new), F(!new)>(s: Store<D, F>, t: Tid, s': Store<D, F>, loaded: D, original: F)
    requires Inv(s, loaded, original) && Step(s, t, s')
    ensures Inv(s', loaded, original)
  {
    assert FileFits(s, original) && Pending(s) && TicketsFit(s);
    hide Orderly, Durable, FileFits, Pending, TicketsFit;
    if Capture(s, t, s') {
      CaptureKeepsOrder(s, t, s.data);
      CaptureKeepsDurable(s, t, s.data, loaded, original);
    } else if d :| ChangeAndCapture(s, t, d, s') {
      CaptureKeepsOrder(s, t, d);
      CaptureKeepsDurable(s, t, d, loaded, original);
    } else if Lock(s, t, s') {
      LockKeepsOrder(s, t, s');
      LockKeepsDurable(s, t, s', loaded, original);
    } else if Decide(s, t, s') {
      DecideKeepsOrder(s, t, s');
      DecideKeepsDurable(s, t, s', loaded, original);
    } else if result :| Write(s, t, result, s') {
      WriteKeepsOrder(s, t, s', result);
      WriteKeepsDurable(s, t, s', loaded, original, result);
    } else {
      PlainKeepsOrder(s, t, s');
      PlainKeepsDurable(s, t, s', loaded, original);
    }
  }

  // ---- Over whole runs -------------------------------------------------------------

  lemma {:induction false} RunKeepsInv<D(!new), F(!new)>(trace: seq<Store<D, F>>, k: nat)
    requires Run(trace) && k < |trace|
    ensures Inv(trace[k], trace[0].data, trace[0].file) && trace[k].encode == trace[0].encode
    decreases k
  {
    if k > 0 {
      RunKeepsInv(trace, k - 1);
      assert Steps(trace[k - 1], trace[k]);
      var t :| Step(trace[k - 1], t, trace[k]);
      StepKeepsInv(trace[k - 1], t, trace[k], trace[0].data, trace[0].file);
      EncodeKept(trace[k - 1], t, trace[k]);
    }
  }

  lemma EncodeKept<D(!new), F(!new)>(s: Store<D, F>, t: Tid, s': Store<D, F>)
    requires Step(s, t, s')
    ensures s'.encode == s.encode
  {
  }

  lemma StepNeverGoesBack<D(!new), F(!new)>(s: Store<D, F>, t: Tid, s': Store<D, F>, loaded: D, original: F)
    requires Inv(s, loaded, original) && Step(s, t, s')
    ensures s.fileTicket <= s'.fileTicket && s.snapshots <= s'.snapshots
    ensures s.fileTicket == s'.fileTicket ==> s.file == s'.file
  {
    hide TicketsFit, Pending, DataFits;
  }

  /** The file never goes from a newer snapshot to an older one, and always holds the snapshot of its ticket. */
  lemma {:induction false} FileNeverGoesBack<D(!new), F(!new)>(trace: seq<Store<D, F>>, i: nat, j: nat)
    requires Run(trace) && i <= j < |trace|
    ensures trace[i].fileTicket <= trace[j].fileTicket <= |trace[j].snapshots|
    ensures trace[i].snapshots <= trace[j].snapshots
    ensures trace[j].file == if trace[j].fileTicket == 0 then trace[0].file
                             else trace[0].encode(trace[j].snapshots[trace[j].fileTicket - 1])
    decreases j - i
  {
    hide Inv, Steps, Opened;
    RunKeepsInv(trace, j);
    FileIsItsTicket(trace[j], trace[0].data, trace[0].file);
    if i < j {
      FileNeverGoesBack(trace, i, j - 1);
      RunKeepsInv(trace, j - 1);
      StepsNeverGoBack(trace[j - 1], trace[j], trace[0].data, trace[0].file);
    }
  }

  lemma FileIsItsTicket<D(!new), F(!new)>(s: Store<D, F>, loaded: D, original: F)
    requires Inv(s, loaded, original)
    ensures s.fileTicket <= |s.snapshots|
    ensures s.file == if s.fileTicket == 0 then original else s.encode(s.snapshots[s.fileTicket - 1])
  {
    hide Orderly, Pending, DataFits;
  }

  lemma StepsNeverGoBack<D(!new), F(!new)>(s: Store<D, F>, s': Store<D, F>, loaded: D, original: F)
    requires Inv(s, loaded, original) && Steps(s, s')
    ensures s.fileTicket <= s'.fileTicket && s.snapshots <= s'.snapshots
  {
    hide Inv, Step;
    var t :| Step(s, t, s');
    StepNeverGoesBack(s, t, s', loaded, original);
  }

  /** The step in which the writer's save ends, by its own write or by giving way. */
  ghost predicate Returns<D, F>(s: Store<D, F>, t: Tid, s': Store<D, F>) {
    && t in s.writers && HasTicket(s.writers[t])
    && t in s'.writers && s'.writers[t] == Done
  }

  lemma TicketPositive<D(!new), F(!new)>(s: Store<D, F>, t: Tid, loaded: D, original: F)
    requires Inv(s, loaded, original) && t in s.writers && HasTicket(s.writers[t])
    ensures s.writers[t].ticket >= 1
  {
  }

  lemma StepSettles<D(!new), F(!new)>(s: Store<D, F>, u: Tid, s': Store<D, F>, t: Tid, loaded: D, original: F)
    requires Inv(s, loaded, original) && Inv(s', loaded, original) && Step(s, u, s') && Returns(s, t, s')
    ensures s.writers[t].ticket <= s'.latestSave && s'.latestSave in s'.results
    ensures s'.results[s'.latestSave] != NotWritten <==> s'.fileTicket == s'.latestSave
  {
    TicketPositive(s, t, loaded, original);
    hide TicketsFit, FileFits, DataFits, InHand;
    assert u == t;
    assert s.writers[t].Locked? || s.writers[t].Claimed?;
    if s.writers[t].Locked? {
      assert !Writing(s.writers);
    }
  }

  /**
   * When a save returns, the newest attempted save is at least as new and its
   * write is over; unless that write did not replace the file, the file holds
   * that save.
   */
  lemma SaveReturnsSettled<D(!new), F(!new)>(trace: seq<Store<D, F>>, k: nat, t: Tid)
    requires Run(trace) && 0 < k < |trace| && Returns(trace[k - 1], t, trace[k])
    ensures var s := trace[k];
            && trace[k - 1].writers[t].ticket <= s.latestSave <= |s.snapshots| && s.latestSave in s.results
            && (s.fileTicket == s.latestSave <==> s.results[s.latestSave] != NotWritten)
            && (s.results[s.latestSave] != NotWritten ==>
                  s.latestSave > 0 && s.file == trace[0].encode(s.snapshots[s.latestSave - 1]))
  {
    hide Inv, Step, Opened;
    RunKeepsInv(trace, k - 1);
    RunKeepsInv(trace, k);
    assert Steps(trace[k - 1], trace[k]);
    var u :| Step(trace[k - 1], u, trace[k]);
    hide Run;
    TicketPositive(trace[k - 1], t, trace[0].data, trace[0].file);
    StepSettles(trace[k - 1], u, trace[k], t, trace[0].data, trace[0].file);
    LatestNumbers(trace[k], trace[0].data, trace[0].file);
    FileIsItsTicket(trace[k], trace[0].data, trace[0].file);
  }

  lemma LatestNumbers<D(!new), F(!new)>(s: Store<D, F>, loaded: D, original: F)
    requires Inv(s, loaded, original)
    ensures s.latestSave <= |s.snapshots|
  {
    hide Orderly, Pending, DataFits;
  }

  /** No save is in flight. */
  ghost predicate Quiet<D, F>(s: Store<D, F>) {
    forall t | t in s.writers :: s.writers[t] == Idle || s.writers[t] == Done
  }

  /**
   * Once no save is in flight, the newest save was attempted, not skipped; and
   * if that one write replaced the file, the file holds the current data.
   */
  lemma QuietFileIsCurrent<D(!new), F(!new)>(trace: seq<Store<D, F>>)
    requires Run(trace) && Quiet(trace[|trace| - 1])
    ensures var s := trace[|trace| - 1];
            && (s.nextSave > 0 ==> s.nextSave in s.results)
            && (s.nextSave > 0 && s.results[s.nextSave] != NotWritten ==> s.file == trace[0].encode(s.data))
            && (s.nextSave == 0 ==> s.data == trace[0].data && s.file == trace[0].file)
  {
    RunKeepsInv(trace, |trace| - 1);
    hide Run;
    var s := trace[|trace| - 1];
    assert s.latestSave == |s.snapshots| by {
      if s.latestSave < |s.snapshots| {
        assert InHand(s.writers, |s.snapshots|);
      }
    }
  }

  /** A write that fails leaves the file on an older snapshot: this is the only way to end up behind. */
  lemma BehindOnlyByFailedWrite<D(!new), F(!new)>(trace: seq<Store<D, F>>)
    requires Run(trace) && Quiet(trace[|trace| - 1]) && trace[|trace| - 1].nextSave > 0
    ensures var s := trace[|trace| - 1];
            s.nextSave in s.results && (s.fileTicket == s.nextSave <==> s.results[s.nextSave] != NotWritten)
  {
    QuietFileIsCurrent(trace);
    RunKeepsInv(trace, |trace| - 1);
    hide Run;
  }
}
