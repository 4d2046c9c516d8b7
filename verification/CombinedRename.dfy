/**
 * A rename that spans the client roster and the session registry. Any number
 * of threads run; each holds the roster's lock, the registry's lock or, for a
 * combined rename, first the one and then the other too. Every lock
 * acquisition, check, write and release is a step of its own, and the steps of
 * different threads interleave freely.
 */
module CombinedRename {
  import opened Wrappers
  import NameRules
  import CR = ClientRoster
  import CW = ClientRuns
  import SP = SessionPresence
  import SW = SessionRuns

  type Tid = nat

  /** What a thread is to do; the other operations of each registry take its lock once. */
  datatype Op =
    | Combined(id: CR.ClientId, name: Option<string>, window: SP.WindowId)
    | OnClients(clientEvent: CW.Event)
    | OnParticipants(participantEvent: SW.Event)

  datatype Pc =
    | Start
    | ClientLocked          // the client lock is held
    | ClientChecked         // and the client side allows the rename
    | BothLocked            // the participant lock is held too
    | ParticipantChecked    // and both sides allow the rename
    | ParticipantNamed      // the participant is renamed, the client not yet
    | BothNamed             // both are renamed, both locks still held
    | Releasing(ok: bool)   // the participant lock is released
    | ParticipantLocked     // a registry operation holds its lock
    | Finished(ok: bool)

  datatype Thread = Thread(op: Op, pc: Pc)

  /** One operation that was carried out or refused, and whether it answered with success. */
  datatype Entry = Entry(tid: Tid, op: Op, ok: bool)

  datatype State = State(
    world: CW.World,
    system: SW.System,
    clientLock: Option<Tid>,
    participantLock: Option<Tid>,
    threads: map<Tid, Thread>,
    log: seq<Entry>)

  datatype Both = Both(world: CW.World, system: SW.System)

  // ---- The operations as single steps --------------------------------------------

  ghost predicate Allowed(b: Both, op: Op)
    requires op.Combined?
  {
    CR.RenameAllowed(b.world.roster, op.id, op.name) && SP.RenameAllowed(b.system.registry, op.window, op.name)
  }

  ghost function NameClient(w: CW.World, op: Op): CW.World
    requires op.Combined? && op.id in w.roster.clients
  {
    w.(roster := CR.Named(w.roster, op.id, NameRules.Stored(op.name), CR.Command))
  }

  ghost function NameParticipant(s: SW.System, op: Op): SW.System
    requires op.Combined? && op.window in s.registry.participants
  {
    s.(registry := s.registry.(participants :=
        s.registry.participants[op.window := s.registry.participants[op.window].(name := NameRules.Stored(op.name))]))
  }

  /** Whether the operation answers with success. An event no caller can issue does not. */
  ghost predicate Succeeds(b: Both, op: Op) {
    match op
    case Combined(_, _, _) => Allowed(b, op)
    case OnClients(e) => CW.Enabled(b.world, e) && CW.Succeeds(b.world.roster, e)
    case OnParticipants(e) => SW.Enabled(b.system, e) && SW.Succeeds(b.system.registry, e)
  }

  /** What the operation does, refused or not. An event no caller can issue is skipped. */
  ghost function Atomic(b: Both, op: Op): Both {
    match op
    case Combined(_, _, _) => if Allowed(b, op) then Both(NameClient(b.world, op), NameParticipant(b.system, op)) else b
    case OnClients(e) => if CW.Enabled(b.world, e) then b.(world := CW.Apply(b.world, e)) else b
    case OnParticipants(e) => if SW.Enabled(b.system, e) then b.(system := SW.Apply(b.system, e)) else b
  }

  /** The logged operations run one at a time. */
  ghost function Replay(b: Both, log: seq<Entry>): Both
    decreases |log|
  {
    if log == [] then b else Atomic(Replay(b, log[..|log| - 1]), log[|log| - 1].op)
  }

  /** Each logged outcome is what the operation would report at its place in the log. */
  ghost predicate Faithful(b: Both, log: seq<Entry>) {
    forall i | 0 <= i < |log| :: log[i].ok == Succeeds(Replay(b, log[..i]), log[i].op)
  }

  // ---- The interleaved steps ----------------------------------------------------

  ghost function At(s: State, t: Tid, pc: Pc): map<Tid, Thread>
    requires t in s.threads
  {
    s.threads[t := s.threads[t].(pc := pc)]
  }

  ghost function Logged(s: State, t: Tid, ok: bool): seq<Entry>
    requires t in s.threads
  {
    s.log + [Entry(t, s.threads[t].op, ok)]
  }

  ghost predicate Acquire(s: State, t: Tid, s': State)
    requires t in s.threads
  {
    && s.threads[t].pc == Start
    && if s.threads[t].op.OnParticipants?
       then s.participantLock.None? && s' == s.(participantLock := Some(t), threads := At(s, t, ParticipantLocked))
       else s.clientLock.None? && s' == s.(clientLock := Some(t), threads := At(s, t, ClientLocked))
  }

  /** The single critical section of an operation on one registry; an event no caller can issue is skipped. */
  ghost predicate Single(s: State, t: Tid, s': State)
    requires t in s.threads
  {
    SingleClient(s, t, s') || SingleParticipant(s, t, s')
  }

  ghost predicate SingleClient(s: State, t: Tid, s': State)
    requires t in s.threads
  {
    && s.threads[t].pc == ClientLocked && s.threads[t].op.OnClients?
    && var e := s.threads[t].op.clientEvent;
    var ok := CW.Enabled(s.world, e) && CW.Succeeds(s.world.roster, e);
    s' == s.(world := if CW.Enabled(s.world, e) then CW.Apply(s.world, e) else s.world,
             clientLock := None, threads := At(s, t, Finished(ok)), log := Logged(s, t, ok))
  }

  ghost predicate SingleParticipant(s: State, t: Tid, s': State)
    requires t in s.threads
  {
    && s.threads[t].pc == ParticipantLocked && s.threads[t].op.OnParticipants?
    && var e := s.threads[t].op.participantEvent;
    var ok := SW.Enabled(s.system, e) && SW.Succeeds(s.system.registry, e);
    s' == s.(system := if SW.Enabled(s.system, e) then SW.Apply(s.system, e) else s.system,
             participantLock := None, threads := At(s, t, Finished(ok)), log := Logged(s, t, ok))
  }

  /** The client side of a combined rename is looked up and checked under the client lock. */
  ghost predicate CheckClient(s: State, t: Tid, s': State)
    requires t in s.threads
  {
    var op := s.threads[t].op;
    && op.Combined? && s.threads[t].pc == ClientLocked
    && if CR.RenameAllowed(s.world.roster, op.id, op.name)
       then s' == s.(threads := At(s, t, ClientChecked))
       else s' == s.(threads := At(s, t, Finished(false)), clientLock := None, log := Logged(s, t, false))
  }

  ghost predicate AcquireSecond(s: State, t: Tid, s': State)
    requires t in s.threads
  {
    && s.threads[t].pc == ClientChecked && s.participantLock.None?
    && s' == s.(participantLock := Some(t), threads := At(s, t, BothLocked))
  }

  ghost predicate CheckParticipant(s: State, t: Tid, s': State)
    requires t in s.threads
  {
    var op := s.threads[t].op;
    && op.Combined? && s.threads[t].pc == BothLocked
    && if SP.RenameAllowed(s.system.registry, op.window, op.name)
       then s' == s.(threads := At(s, t, ParticipantChecked))
       else s' == s.(threads := At(s, t, Releasing(false)), participantLock := None, log := Logged(s, t, false))
  }

  ghost predicate WriteParticipant(s: State, t: Tid, s': State)
    requires t in s.threads
  {
    var op := s.threads[t].op;
    && op.Combined? && s.threads[t].pc == ParticipantChecked && op.window in s.system.registry.participants
    && s' == s.(system := NameParticipant(s.system, op), threads := At(s, t, ParticipantNamed), log := Logged(s, t, true))
  }

  ghost predicate WriteClient(s: State, t: Tid, s': State)
    requires t in s.threads
  {
    var op := s.threads[t].op;
    && op.Combined? && s.threads[t].pc == ParticipantNamed && op.id in s.world.roster.clients
    && s' == s.(world := NameClient(s.world, op), threads := At(s, t, BothNamed))
  }

  ghost predicate Release(s: State, t: Tid, s': State)
    requires t in s.threads
  {
    || (s.threads[t].pc == BothNamed
        && s' == s.(participantLock := None, threads := At(s, t, Releasing(true))))
    || (s.threads[t].pc.Releasing?
        && s' == s.(clientLock := None, threads := At(s, t, Finished(s.threads[t].pc.ok))))
  }

  ghost predicate Step(s: State, t: Tid, s': State) {
    && t in s.threads
    && (|| Acquire(s, t, s') || Single(s, t, s') || CheckClient(s, t, s') || AcquireSecond(s, t, s')
        || CheckParticipant(s, t, s') || WriteParticipant(s, t, s') || WriteClient(s, t, s') || Release(s, t, s'))
  }

  /** Any operations, on any registries, with no lock held and nothing started. */
  ghost predicate Initial(s: State) {
    && s.clientLock.None? && s.participantLock.None? && s.log == []
    && forall t | t in s.threads :: s.threads[t].pc == Start
  }

  ghost predicate Steps(s: State, s': State) {
    exists t :: Step(s, t, s')
  }

  /** `trace` lists the states of a run. */
  ghost predicate Run(trace: seq<State>) {
    && trace != [] && Initial(trace[0])
    && forall i | 0 < i < |trace| :: Steps(trace[i - 1], trace[i])
  }

  // ---- The invariant ---------------------------------------------------------------

  predicate HoldsClient(pc: Pc) {
    !pc.Start? && !pc.ParticipantLocked? && !pc.Finished?
  }

  predicate HoldsParticipant(pc: Pc) {
    pc.BothLocked? || pc.ParticipantChecked? || pc.ParticipantNamed? || pc.BothNamed? || pc.ParticipantLocked?
  }

  /** The operation has taken effect or has been refused, with this outcome. */
  function Outcome(pc: Pc): Option<bool> {
    match pc
    case ParticipantNamed => Some(true)
    case BothNamed => Some(true)
    case Releasing(ok) => Some(ok)
    case Finished(ok) => Some(ok)
    case _ => None
  }

  ghost predicate LocksAgree(s: State) {
    && (forall t | t in s.threads :: HoldsClient(s.threads[t].pc) <==> s.clientLock == Some(t))
    && (forall t | t in s.threads :: HoldsParticipant(s.threads[t].pc) <==> s.participantLock == Some(t))
    && (s.clientLock.Some? ==> s.clientLock.value in s.threads)
    && (s.participantLock.Some? ==> s.participantLock.value in s.threads)
  }

  ghost predicate PcFits(thread: Thread) {
    match thread.pc
    case Start => true
    case Finished(_) => true
    case ClientLocked => !thread.op.OnParticipants?
    case ParticipantLocked => thread.op.OnParticipants?
    case _ => thread.op.Combined?
  }

  /** What was checked under a lock is still so while the lock is held. */
  ghost predicate ChecksHold(s: State) {
    forall t | t in s.threads ::
      var pc, op := s.threads[t].pc, s.threads[t].op;
      && PcFits(s.threads[t])
      && (pc.ClientChecked? || pc.BothLocked? || pc.ParticipantChecked? ==> CR.RenameAllowed(s.world.roster, op.id, op.name))
      && (pc.ParticipantChecked? ==> SP.RenameAllowed(s.system.registry, op.window, op.name))
      && (pc.ParticipantChecked? || pc.ParticipantNamed? ==> op.id in s.world.roster.clients)
  }

  /** Every operation is logged once, when it takes effect, with the outcome it reports. */
  ghost predicate LogAgrees(s: State) {
    && (forall i | 0 <= i < |s.log| ::
          && s.log[i].tid in s.threads
          && s.log[i].op == s.threads[s.log[i].tid].op
          && Outcome(s.threads[s.log[i].tid].pc) == Some(s.log[i].ok))
    && (forall i, j | 0 <= i < j < |s.log| :: s.log[i].tid != s.log[j].tid)
    && (forall t | t in s.threads && Outcome(s.threads[t].pc).Some? :: exists i :: 0 <= i < |s.log| && s.log[i].tid == t)
  }

  ghost predicate Inv(s: State) {
    LocksAgree(s) && ChecksHold(s) && LogAgrees(s)
  }

  /** The registries as the log has them: a rename half written counts as written. */
  ghost function Abstract(s: State): Both {
    if s.clientLock.Some? && s.clientLock.value in s.threads
       && var thread := s.threads[s.clientLock.value];
          thread.pc == ParticipantNamed && thread.op.Combined? && thread.op.id in s.world.roster.clients
    then Both(NameClient(s.world, s.threads[s.clientLock.value].op), s.system)
    else Both(s.world, s.system)
  }

  /** The lock after its holder, or the thread that takes it, moves on. */
  function LockAfter(lock: Option<Tid>, t: Tid, before: bool, after: bool): Option<Tid> {
    if before == after then lock else if after then Some(t) else None
  }

  /** What every step has in common: who moves, what the locks and the log then say, what stays. */
  ghost predicate Moves(s: State, t: Tid, s': State)
    requires t in s.threads
  {
    && t in s'.threads && s'.threads == At(s, t, s'.threads[t].pc)
    && var pc, pc', op := s.threads[t].pc, s'.threads[t].pc, s.threads[t].op;
    && s'.clientLock == LockAfter(s.clientLock, t, HoldsClient(pc), HoldsClient(pc'))
    && s'.participantLock == LockAfter(s.participantLock, t, HoldsParticipant(pc), HoldsParticipant(pc'))
    && (HoldsClient(pc') && !HoldsClient(pc) ==> s.clientLock.None?)
    && (HoldsParticipant(pc') && !HoldsParticipant(pc) ==> s.participantLock.None?)
    && (s'.world != s.world ==> (pc.ClientLocked? && pc'.Finished?) || (pc.ParticipantNamed? && pc'.BothNamed?))
    && (s'.system != s.system ==> (pc.ParticipantLocked? && pc'.Finished?) || (pc.ParticipantChecked? && pc'.ParticipantNamed?))
    && PcFits(s'.threads[t])
    && (pc'.ClientChecked? ==> CR.RenameAllowed(s.world.roster, op.id, op.name))
    && (pc'.BothLocked? ==> pc.ClientChecked?)
    && (pc'.ParticipantChecked? ==> pc.BothLocked? && SP.RenameAllowed(s.system.registry, op.window, op.name))
    && (pc'.ParticipantNamed? ==> pc.ParticipantChecked?)
    && if Outcome(pc).Some? then s'.log == s.log && Outcome(pc') == Outcome(pc)
       else if Outcome(pc').Some? then s'.log == Logged(s, t, Outcome(pc').value)
       else s'.log == s.log
  }

  lemma StepMoves(s: State, t: Tid, s': State)
    requires t in s.threads && PcFits(s.threads[t]) && Step(s, t, s')
    ensures Moves(s, t, s')
  {
    hide CR.RenameAllowed, SP.RenameAllowed, NameClient, NameParticipant,
         CW.Enabled, CW.Succeeds, CW.Apply, SW.Enabled, SW.Succeeds, SW.Apply;
    assert s'.threads[t].op == s.threads[t].op;
  }

  lemma StepKeepsLocks(s: State, t: Tid, s': State)
    requires LocksAgree(s) && t in s.threads && Moves(s, t, s')
    ensures LocksAgree(s')
  {
    hide HoldsClient, HoldsParticipant, Outcome, PcFits, CR.RenameAllowed, SP.RenameAllowed;
  }

  /** A thread other than the one that moves keeps what it checked. */
  lemma StepKeepsChecks(s: State, t: Tid, s': State)
    requires LocksAgree(s) && ChecksHold(s) && t in s.threads && Moves(s, t, s')
    ensures ChecksHold(s')
  {
    hide Outcome, PcFits, CR.NameAvailable, SP.RenameAllowed;
    forall u | u in s'.threads && u != t
      ensures s'.threads[u] == s.threads[u]
      ensures HoldsClient(s.threads[u].pc) ==> s'.world == s.world
      ensures HoldsParticipant(s.threads[u].pc) ==> s'.system == s.system
    {
    }
  }

  lemma StepKeepsLog(s: State, t: Tid, s': State)
    requires LogAgrees(s) && t in s.threads && Moves(s, t, s')
    ensures LogAgrees(s')
  {
    hide Outcome, PcFits, HoldsClient, HoldsParticipant, CR.RenameAllowed, SP.RenameAllowed;
    forall u | u in s'.threads && Outcome(s'.threads[u].pc).Some?
      ensures exists i :: 0 <= i < |s'.log| && s'.log[i].tid == u
    {
      if s'.log != s.log && u == t {
        assert s'.log[|s.log|].tid == t;
      } else {
        var i :| 0 <= i < |s.log| && s.log[i].tid == u;
        assert s'.log[i].tid == u;
      }
    }
  }

  lemma StepKeepsInv(s: State, t: Tid, s': State)
    requires Inv(s) && Step(s, t, s')
    ensures Inv(s')
  {
    hide LocksAgree, LogAgrees, Step, Moves;
    assert t in s.threads by { StepNames(s, t, s'); }
    StepMoves(s, t, s');
    StepKeepsLocks(s, t, s');
    StepKeepsChecks(s, t, s');
    StepKeepsLog(s, t, s');
  }

  lemma StepNames(s: State, t: Tid, s': State)
    requires Step(s, t, s')
    ensures t in s.threads
  {
  }

  // ---- Linearizability -------------------------------------------------------------

  lemma ReplayExtends(b: Both, log: seq<Entry>, entry: Entry)
    requires Faithful(b, log) && entry.ok == Succeeds(Replay(b, log), entry.op)
    ensures Faithful(b, log + [entry])
    ensures Replay(b, log + [entry]) == Atomic(Replay(b, log), entry.op)
  {
    hide Succeeds, Atomic;
    var longer := log + [entry];
    assert longer[..|log|] == log;
    forall i | 0 <= i < |longer| ensures longer[i].ok == Succeeds(Replay(b, longer[..i]), longer[i].op) {
      if i < |log| {
        assert longer[..i] == log[..i];
      }
    }
  }

  /** A step either leaves the abstract registries alone or performs its operation on them, and logs it. */
  ghost predicate Refines(s: State, t: Tid, s': State)
    requires t in s.threads
  {
    if s'.log == s.log then Abstract(s') == Abstract(s)
    else
      var op := s.threads[t].op;
      && s'.log == s.log + [Entry(t, op, Succeeds(Abstract(s), op))]
      && Abstract(s') == Atomic(Abstract(s), op)
  }

  /** Only the holder of both locks can be half way. */
  lemma AbstractIs(s: State, t: Tid)
    requires LocksAgree(s) && ChecksHold(s) && t in s.threads
    ensures s.threads[t].pc == ParticipantNamed ==>
              && s.threads[t].op.Combined? && s.threads[t].op.id in s.world.roster.clients
              && Abstract(s) == Both(NameClient(s.world, s.threads[t].op), s.system)
    ensures s.threads[t].pc != ParticipantNamed && (HoldsClient(s.threads[t].pc) || HoldsParticipant(s.threads[t].pc)) ==>
              Abstract(s) == Both(s.world, s.system)
    ensures s.clientLock.None? || s.participantLock.None? ==> Abstract(s) == Both(s.world, s.system)
  {
    hide CR.RenameAllowed, SP.RenameAllowed, NameClient;
  }

  /** While one thread is half way, no other thread holds a lock. */
  lemma HalfWayHoldsBoth(s: State, t: Tid, u: Tid)
    requires Inv(s) && t in s.threads && u in s.threads && s.threads[t].pc == ParticipantNamed && u != t
    ensures s.clientLock == Some(t) && s.participantLock == Some(t)
    ensures !HoldsClient(s.threads[u].pc) && !HoldsParticipant(s.threads[u].pc)
  {
    hide LogAgrees, ChecksHold;
  }

  lemma SingleRefines(s: State, t: Tid, s': State)
    requires Inv(s) && Inv(s') && t in s.threads && Single(s, t, s')
    ensures Refines(s, t, s')
  {
    AbstractIs(s, t);
    AbstractIs(s', t);
    assert PcFits(s.threads[t]);
    var ok := Succeeds(Both(s.world, s.system), s.threads[t].op);
    assert |s.log + [Entry(t, s.threads[t].op, ok)]| > |s.log|;
    hide LocksAgree, LogAgrees, Abstract, CW.Enabled, CW.Succeeds, CW.Apply, SW.Enabled, SW.Succeeds, SW.Apply;
  }

  lemma ChecksRefine(s: State, t: Tid, s': State)
    requires Inv(s) && Inv(s') && t in s.threads && (CheckClient(s, t, s') || CheckParticipant(s, t, s'))
    ensures Refines(s, t, s')
  {
    AbstractIs(s, t);
    AbstractIs(s', t);
    var op := s.threads[t].op;
    assert |s.log + [Entry(t, op, true)]| > |s.log| && |s.log + [Entry(t, op, false)]| > |s.log|;
    assert PcFits(s.threads[t]);
    hide LocksAgree, LogAgrees, Abstract, CR.RenameAllowed, SP.RenameAllowed, NameClient, NameParticipant, Single;
  }

  lemma MovesRefine(s: State, t: Tid, s': State)
    requires Inv(s) && Inv(s') && t in s.threads
    requires Acquire(s, t, s') || AcquireSecond(s, t, s') || WriteParticipant(s, t, s') || WriteClient(s, t, s') || Release(s, t, s')
    ensures Refines(s, t, s')
  {
    AbstractIs(s, t);
    AbstractIs(s', t);
    var op := s.threads[t].op;
    assert |s.log + [Entry(t, op, true)]| > |s.log| && |s.log + [Entry(t, op, false)]| > |s.log|;
    assert PcFits(s.threads[t]);
    hide LocksAgree, LogAgrees, Abstract, CR.RenameAllowed, SP.RenameAllowed, NameClient, NameParticipant, Single;
  }

  lemma StepRefines(s: State, t: Tid, s': State)
    requires Inv(s) && Inv(s') && t in s.threads && Step(s, t, s')
    ensures Refines(s, t, s')
  {
    hide Inv, Refines, Single, CheckClient, CheckParticipant, Acquire, AcquireSecond, WriteParticipant, WriteClient, Release;
    if Single(s, t, s') {
      SingleRefines(s, t, s');
    } else if CheckClient(s, t, s') || CheckParticipant(s, t, s') {
      ChecksRefine(s, t, s');
    } else {
      MovesRefine(s, t, s');
    }
  }

  /** At the end of every run the log explains the registries. */
  lemma {:induction false} RunRefines(trace: seq<State>)
    requires Run(trace)
    ensures var b, s := Both(trace[0].world, trace[0].system), trace[|trace| - 1];
            Inv(s) && Faithful(b, s.log) && Replay(b, s.log) == Abstract(s)
    decreases |trace|
  {
    if |trace| == 1 {
      InitialHolds(trace[0]);
    } else {
      var front := trace[..|trace| - 1];
      assert Run(front) by {
        forall i | 0 < i < |front| ensures Steps(front[i - 1], front[i]) {
          assert Steps(trace[i - 1], trace[i]);
        }
      }
      RunRefines(front);
      var b, s, s' := Both(trace[0].world, trace[0].system), trace[|trace| - 2], trace[|trace| - 1];
      assert Steps(s, s');
      hide Inv, Step, Initial, Faithful, Replay, Abstract;
      var t :| Step(s, t, s');
      StepNames(s, t, s');
      StepKeepsInv(s, t, s');
      StepRefines(s, t, s');
      if s'.log != s.log {
        var op := s.threads[t].op;
        ReplayExtends(b, s.log, Entry(t, op, Succeeds(Abstract(s), op)));
      }
    }
  }

  lemma InitialHolds(s: State)
    requires Initial(s)
    ensures Inv(s) && Faithful(Both(s.world, s.system), s.log)
    ensures Replay(Both(s.world, s.system), s.log) == Abstract(s)
  {
    hide CR.RenameAllowed, SP.RenameAllowed;
  }

  /** No thread is between its first lock and its end. */
  ghost predicate Quiet(s: State) {
    s.clientLock.None? && s.participantLock.None?
  }

  /**
   * A combined rename changed both registries or neither: whenever no lock is
   * held, the registries are the result of the logged operations one after
   * another, each with the outcome it reported.
   */
  lemma RenamesAreAtomic(trace: seq<State>)
    requires Run(trace) && Quiet(trace[|trace| - 1])
    ensures var b, s := Both(trace[0].world, trace[0].system), trace[|trace| - 1];
            Faithful(b, s.log) && Both(s.world, s.system) == Replay(b, s.log)
  {
    RunRefines(trace);
    hide Run, Faithful, Replay;
  }

  /** Every finished operation is in the log once, with the outcome it returned. */
  lemma FinishedIsLogged(trace: seq<State>, t: Tid)
    requires Run(trace) && t in trace[|trace| - 1].threads && trace[|trace| - 1].threads[t].pc.Finished?
    ensures var s := trace[|trace| - 1];
            exists i :: && 0 <= i < |s.log| && s.log[i] == Entry(t, s.threads[t].op, s.threads[t].pc.ok)
                        && forall j | 0 <= j < |s.log| && s.log[j].tid == t :: j == i
  {
    RunRefines(trace);
    hide Run, Faithful, Replay, LocksAgree, ChecksHold;
    var s := trace[|trace| - 1];
    var i :| 0 <= i < |s.log| && s.log[i].tid == t;
    assert s.log[i] == Entry(t, s.threads[t].op, s.threads[t].pc.ok);
  }

  /** The lock order admits no deadlock: some thread can move until all are finished. */
  lemma NeverStuck(trace: seq<State>, u: Tid) returns (t: Tid, s': State)
    requires Run(trace) && u in trace[|trace| - 1].threads && !trace[|trace| - 1].threads[u].pc.Finished?
    ensures Step(trace[|trace| - 1], t, s')
  {
    RunRefines(trace);
    hide Run, Faithful, Replay, LogAgrees;
    var s := trace[|trace| - 1];
    t := if s.participantLock.Some? then s.participantLock.value
         else if s.clientLock.Some? then s.clientLock.value else u;
    s' := CanMove(s, t);
  }

  lemma CanMove(s: State, t: Tid) returns (s': State)
    requires LocksAgree(s) && ChecksHold(s) && t in s.threads && !s.threads[t].pc.Finished?
    requires s.participantLock == Some(t) || (s.participantLock.None? && (s.clientLock == Some(t) || s.clientLock.None?))
    ensures Step(s, t, s')
  {
    hide LocksAgree, CR.NameAvailable, SP.Holds, CW.Enabled, CW.Succeeds, CW.Apply, SW.Enabled, SW.Succeeds, SW.Apply;
    var op := s.threads[t].op;
    match s.threads[t].pc
    case Start =>
      assert s.participantLock.None? && s.clientLock.None? by { assert LocksAgree(s); StartHoldsNothing(s, t); }
      s' := if op.OnParticipants? then s.(participantLock := Some(t), threads := At(s, t, ParticipantLocked))
            else s.(clientLock := Some(t), threads := At(s, t, ClientLocked));
      assert Acquire(s, t, s');
    case ClientLocked =>
      if op.OnClients? {
        var e := op.clientEvent;
        var ok := CW.Enabled(s.world, e) && CW.Succeeds(s.world.roster, e);
        s' := s.(world := if CW.Enabled(s.world, e) then CW.Apply(s.world, e) else s.world,
                 clientLock := None, threads := At(s, t, Finished(ok)), log := Logged(s, t, ok));
        assert SingleClient(s, t, s');
      } else {
        s' := if CR.RenameAllowed(s.world.roster, op.id, op.name) then s.(threads := At(s, t, ClientChecked))
              else s.(threads := At(s, t, Finished(false)), clientLock := None, log := Logged(s, t, false));
        assert CheckClient(s, t, s');
      }
    case ClientChecked =>
      assert s.participantLock.None? by { StartHoldsNothing(s, t); }
      s' := s.(participantLock := Some(t), threads := At(s, t, BothLocked));
      assert AcquireSecond(s, t, s');
    case BothLocked =>
      s' := if SP.RenameAllowed(s.system.registry, op.window, op.name) then s.(threads := At(s, t, ParticipantChecked))
            else s.(threads := At(s, t, Releasing(false)), participantLock := None, log := Logged(s, t, false));
      assert CheckParticipant(s, t, s');
    case ParticipantChecked =>
      s' := s.(system := NameParticipant(s.system, op), threads := At(s, t, ParticipantNamed), log := Logged(s, t, true));
      assert WriteParticipant(s, t, s');
    case ParticipantNamed =>
      s' := s.(world := NameClient(s.world, op), threads := At(s, t, BothNamed));
      assert WriteClient(s, t, s');
    case BothNamed =>
      s' := s.(participantLock := None, threads := At(s, t, Releasing(true)));
      assert Release(s, t, s');
    case Releasing(ok) =>
      s' := s.(clientLock := None, threads := At(s, t, Finished(ok)));
      assert Release(s, t, s');
    case ParticipantLocked =>
      var e := op.participantEvent;
      var ok := SW.Enabled(s.system, e) && SW.Succeeds(s.system.registry, e);
      s' := s.(system := if SW.Enabled(s.system, e) then SW.Apply(s.system, e) else s.system,
               participantLock := None, threads := At(s, t, Finished(ok)), log := Logged(s, t, ok));
      assert SingleParticipant(s, t, s');
  }

  lemma StartHoldsNothing(s: State, t: Tid)
    requires LocksAgree(s) && t in s.threads
    ensures s.threads[t].pc == Start ==> s.clientLock != Some(t) && s.participantLock != Some(t)
    ensures s.threads[t].pc == ClientChecked ==> s.participantLock != Some(t)
  {
  }

  // ---- What one operation does -----------------------------------------------------

  /** An allowed combined rename is the rename of the client and of the participant; a refused one is neither. */
  lemma CombinedIsBothRenames(b: Both, op: Op)
    requires op.Combined?
    ensures Atomic(b, op) ==
            if Allowed(b, op)
            then Both(CW.Apply(b.world, CW.RenamedTo(op.id, op.name)), SW.Apply(b.system, SW.Renamed(op.window, op.name)))
            else b
  {
    hide CR.NameAvailable, SP.Holds;
  }

  lemma AtomicKeepsInvariants(b: Both, op: Op)
    requires CW.Inv(b.world) && SW.Inv(b.system)
    ensures CW.Inv(Atomic(b, op).world) && SW.Inv(Atomic(b, op).system)
  {
    if op.Combined? {
      CombinedIsBothRenames(b, op);
    }
    hide CW.Inv, SW.Inv, CW.Apply, SW.Apply, CW.Enabled, SW.Enabled, Allowed;
    match op
    case Combined(id, name, window) =>
      if Allowed(b, op) {
        RenamesAreEnabled(b, op);
        CW.StepKeepsInv(b.world, CW.RenamedTo(id, name));
        SW.StepKeepsInv(b.system, SW.Renamed(window, name));
      }
    case OnClients(e) =>
      if CW.Enabled(b.world, e) {
        CW.StepKeepsInv(b.world, e);
      }
    case OnParticipants(e) =>
      if SW.Enabled(b.system, e) {
        SW.StepKeepsInv(b.system, e);
      }
  }

  lemma RenamesAreEnabled(b: Both, op: Op)
    requires op.Combined?
    ensures CW.Enabled(b.world, CW.RenamedTo(op.id, op.name)) && SW.Enabled(b.system, SW.Renamed(op.window, op.name))
  {
  }

  lemma {:induction false} ReplayKeepsInvariants(b: Both, log: seq<Entry>)
    requires CW.Inv(b.world) && SW.Inv(b.system)
    ensures CW.Inv(Replay(b, log).world) && SW.Inv(Replay(b, log).system)
    decreases |log|
  {
    hide CW.Inv, SW.Inv, Atomic;
    if log != [] {
      ReplayKeepsInvariants(b, log[..|log| - 1]);
      AtomicKeepsInvariants(Replay(b, log[..|log| - 1]), log[|log| - 1].op);
    }
  }
}
