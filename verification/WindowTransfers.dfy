/**
 * Live transfer counts summed per window. A guard's report swaps its own cell
 * and then adjusts the window's sum; the two steps of different guards
 * interleave freely. A guard's drop subtracts what it last reported.
 */
module WindowTransfers {
  type WindowId = string

  /** The largest count one socket may report. */
  const MAX_REPORTED: nat := 0x10_0000

  datatype Pc =
    | Resting
    | Swapped(previous: nat)   // the cell holds the new report, the sum not yet
    | Dropped

  /** One socket's guard: its window, the count it was last asked to report, its cell, and where it is. */
  datatype Guard = Guard(window: WindowId, asked: nat, last: nat, pc: Pc)

  datatype State = State(sums: map<WindowId, nat>, guards: seq<Guard>)

  // ---- The sum map -----------------------------------------------------------------------

  function SumOf(sums: map<WindowId, nat>, w: WindowId): nat {
    if w in sums then sums[w] else 0
  }

  /** Add `delta`, clamped at zero; an entry that reaches zero goes. */
  function Adjust(sums: map<WindowId, nat>, w: WindowId, delta: int): map<WindowId, nat> {
    if delta == 0 then sums
    else
      var next := SumOf(sums, w) + delta;
      if next <= 0 then sums - {w} else sums[w := next]
  }

  function Capped(active: nat): nat {
    if active < MAX_REPORTED then active else MAX_REPORTED
  }

  // ---- Steps --------------------------------------------------------------------------------

  ghost predicate Registers(s: State, w: WindowId, s': State) {
    s' == s.(guards := s.guards + [Guard(w, 0, 0, Resting)])
  }

  ghost predicate Swaps(s: State, g: nat, active: nat, s': State)
    requires g < |s.guards|
  {
    var guard := s.guards[g];
    && guard.pc == Resting
    && s' == s.(guards := s.guards[g := guard.(asked := active, last := Capped(active), pc := Swapped(guard.last))])
  }

  ghost predicate Adjusts(s: State, g: nat, s': State)
    requires g < |s.guards|
  {
    var guard := s.guards[g];
    && guard.pc.Swapped?
    && s' == State(Adjust(s.sums, guard.window, guard.last - guard.pc.previous), s.guards[g := guard.(pc := Resting)])
  }

  ghost predicate Drops(s: State, g: nat, s': State)
    requires g < |s.guards|
  {
    var guard := s.guards[g];
    && guard.pc == Resting
    && s' == State(Adjust(s.sums, guard.window, 0 - guard.last), s.guards[g := guard.(pc := Dropped)])
  }

  ghost predicate Moves(s: State, g: nat, s': State)
    requires g < |s.guards|
  {
    (exists active :: Swaps(s, g, active, s')) || Adjusts(s, g, s') || Drops(s, g, s')
  }

  ghost predicate Step(s: State, s': State) {
    || (exists w :: Registers(s, w, s'))
    || (exists g: nat :: g < |s.guards| && Moves(s, g, s'))
  }

  ghost predicate Run(trace: seq<State>) {
    && trace != [] && trace[0] == State(map[], [])
    && forall i | 0 < i < |trace| :: Step(trace[i - 1], trace[i])
  }

  // ---- The invariant -------------------------------------------------------------------------

  /** A count as it may be reported: no more than 2^20. */
  function Reported(asked: nat): nat {
    if asked > 0x10_0000 then 0x10_0000 else asked
  }

  /** What the guard has put into its window's sum so far: at rest, the count it was last asked to report. */
  function Applied(guard: Guard): nat {
    match guard.pc
    case Resting => Reported(guard.asked)
    case Swapped(previous) => previous
    case Dropped => 0
  }

  function Total(guards: seq<Guard>, w: WindowId): nat {
    if guards == [] then 0
    else Total(guards[..|guards| - 1], w)
         + if guards[|guards| - 1].window == w then Applied(guards[|guards| - 1]) else 0
  }

  ghost predicate Inv(s: State) {
    && (forall w :: SumOf(s.sums, w) == Total(s.guards, w))
    && (forall w | w in s.sums :: s.sums[w] > 0)
    && (forall g | 0 <= g < |s.guards| :: s.guards[g].last == Reported(s.guards[g].asked) && Applied(s.guards[g]) <= MAX_REPORTED)
  }

  lemma {:induction false} TotalUpdate(guards: seq<Guard>, g: nat, guard: Guard, w: WindowId)
    requires g < |guards| && guard.window == guards[g].window
    ensures Total(guards[g := guard], w) + (if guard.window == w then Applied(guards[g]) else 0)
            == Total(guards, w) + (if guard.window == w then Applied(guard) else 0)
  {
    var front := guards[..|guards| - 1];
    if g == |guards| - 1 {
      assert guards[g := guard][..|guards| - 1] == front;
    } else {
      TotalUpdate(front, g, guard, w);
      assert guards[g := guard][..|guards| - 1] == front[g := guard];
    }
  }

  lemma {:induction false} TotalCoversEach(guards: seq<Guard>, g: nat)
    requires g < |guards|
    ensures Applied(guards[g]) <= Total(guards, guards[g].window)
  {
    if g < |guards| - 1 {
      TotalCoversEach(guards[..|guards| - 1], g);
    }
  }

  /** Any adjustment: the window's sum moves by `delta` but not below zero, and at zero there is no entry. */
  lemma AdjustClamps(sums: map<WindowId, nat>, w: WindowId, delta: int, other: WindowId)
    ensures var next := SumOf(sums, w) + delta;
            SumOf(Adjust(sums, w, delta), other) == if other != w then SumOf(sums, other) else if next > 0 then next else 0
    ensures delta != 0 ==> (w in Adjust(sums, w, delta) <==> SumOf(sums, w) + delta > 0)
    ensures other != w ==> (other in Adjust(sums, w, delta) <==> other in sums)
  {
  }

  /** An adjustment by `delta` that the sum covers moves that window's sum by `delta` and no other. */
  lemma AdjustIsExact(sums: map<WindowId, nat>, w: WindowId, delta: int, other: WindowId)
    requires SumOf(sums, w) + delta >= 0
    ensures SumOf(Adjust(sums, w, delta), other) == SumOf(sums, other) + if other == w then delta else 0
  {
  }

  /** An adjustment by what a guard's contribution changed keeps the sums, and its clamp changes nothing. */
  lemma AdjustKeepsInv(s: State, g: nat, guard: Guard)
    requires Inv(s) && g < |s.guards| && guard.window == s.guards[g].window
    requires guard.last == Reported(guard.asked) && Applied(guard) <= MAX_REPORTED
    ensures SumOf(s.sums, guard.window) + Applied(guard) - Applied(s.guards[g]) >= 0
    ensures Inv(State(Adjust(s.sums, guard.window, Applied(guard) - Applied(s.guards[g])), s.guards[g := guard]))
  {
    TotalCoversEach(s.guards, g);
    var delta := Applied(guard) - Applied(s.guards[g]);
    var sums' := Adjust(s.sums, guard.window, delta);
    forall w
      ensures SumOf(sums', w) == Total(s.guards[g := guard], w)
    {
      hide Adjust, SumOf, Total, Applied;
      AdjustIsExact(s.sums, guard.window, delta, w);
      TotalUpdate(s.guards, g, guard, w);
    }
  }

  lemma CellsAreCapped(s: State, g: nat)
    requires Inv(s) && g < |s.guards|
    ensures s.guards[g].last == Reported(s.guards[g].asked) && Applied(s.guards[g]) <= MAX_REPORTED
  {
  }

  lemma RegisterKeepsInv(s: State, w: WindowId, s': State)
    requires Inv(s) && Registers(s, w, s')
    ensures Inv(s')
  {
    assert s'.guards[..|s.guards|] == s.guards;
  }

  lemma StepKeepsInv(s: State, s': State)
    requires Inv(s) && Step(s, s')
    ensures Inv(s')
  {
    hide Total, SumOf, Inv;
    if w :| Registers(s, w, s') {
      RegisterKeepsInv(s, w, s');
    } else {
      var g: nat :| g < |s.guards| && Moves(s, g, s');
      CellsAreCapped(s, g);
      if active :| Swaps(s, g, active, s') {
        AdjustKeepsInv(s, g, s'.guards[g]);
        assert s' == State(Adjust(s.sums, s'.guards[g].window, 0), s.guards[g := s'.guards[g]]);
      } else {
        AdjustKeepsInv(s, g, s'.guards[g]);
      }
    }
  }

  lemma {:induction false} RunKeepsInv(trace: seq<State>, k: nat)
    requires Run(trace) && k < |trace|
    ensures Inv(trace[k])
    decreases k
  {
    if k > 0 {
      RunKeepsInv(trace, k - 1);
      hide Inv, Step;
      StepKeepsInv(trace[k - 1], trace[k]);
    }
  }

  // ---- What it is for ----------------------------------------------------------------------------

  /** In every reachable state a window's sum is the total its guards have applied, and zero has no entry. */
  lemma SumsAreExact(trace: seq<State>, k: nat, w: WindowId)
    requires Run(trace) && k < |trace|
    ensures SumOf(trace[k].sums, w) == Total(trace[k].guards, w)
    ensures w in trace[k].sums <==> Total(trace[k].guards, w) > 0
  {
    RunKeepsInv(trace, k);
    hide Run;
    assert SumOf(trace[k].sums, w) == Total(trace[k].guards, w);
  }

  /** The clamp never loses anything: no adjustment takes more than the sum holds. */
  lemma ClampNeverLoses(trace: seq<State>, k: nat, g: nat, s': State)
    requires Run(trace) && k < |trace| && g < |trace[k].guards| && (Adjusts(trace[k], g, s') || Drops(trace[k], g, s'))
    ensures var w := trace[k].guards[g].window;
            SumOf(s'.sums, w) == SumOf(trace[k].sums, w) + Applied(s'.guards[g]) - Applied(trace[k].guards[g])
  {
    RunKeepsInv(trace, k);
    hide Run;
    AdjustKeepsInv(trace[k], g, s'.guards[g]);
  }

  /** The guard has applied a zero report, or is gone. */
  predicate Cleared(guard: Guard) {
    guard.pc == Dropped || (guard.pc == Resting && guard.asked == 0)
  }

  lemma {:induction false} ClearedTotal(guards: seq<Guard>, w: WindowId)
    requires forall g | 0 <= g < |guards| && guards[g].window == w :: Cleared(guards[g])
    ensures Total(guards, w) == 0
  {
    if guards != [] {
      ClearedTotal(guards[..|guards| - 1], w);
    }
  }

  /** Once every guard of a window has reported zero or dropped, the window has no entry. */
  lemma ClearedWindowHasNoEntry(trace: seq<State>, k: nat, w: WindowId)
    requires Run(trace) && k < |trace|
    requires forall g | 0 <= g < |trace[k].guards| && trace[k].guards[g].window == w :: Cleared(trace[k].guards[g])
    ensures w !in trace[k].sums
  {
    SumsAreExact(trace, k, w);
    ClearedTotal(trace[k].guards, w);
  }

  /** An active transfer is seen: a guard at rest on a positive report keeps the window listed. */
  lemma ActiveWindowHasEntry(trace: seq<State>, k: nat, g: nat)
    requires Run(trace) && k < |trace| && g < |trace[k].guards|
    requires trace[k].guards[g].pc == Resting && trace[k].guards[g].asked > 0
    ensures trace[k].guards[g].window in trace[k].sums
  {
    SumsAreExact(trace, k, trace[k].guards[g].window);
    TotalCoversEach(trace[k].guards, g);
  }

  lemma {:induction false} TotalBounded(guards: seq<Guard>, w: WindowId)
    requires forall g | 0 <= g < |guards| :: Applied(guards[g]) <= MAX_REPORTED
    ensures Total(guards, w) <= |guards| * MAX_REPORTED
  {
    if guards != [] {
      TotalBounded(guards[..|guards| - 1], w);
    }
  }

  /** The signed arithmetic cannot overflow with fewer than 2^43 sockets. */
  lemma NoOverflow(trace: seq<State>, k: nat, w: WindowId)
    requires Run(trace) && k < |trace| && |trace[k].guards| < 0x800_0000_0000
    ensures SumOf(trace[k].sums, w) < 0x8000_0000_0000_0000
  {
    RunKeepsInv(trace, k);
    hide Run;
    assert SumOf(trace[k].sums, w) == Total(trace[k].guards, w);
    TotalBounded(trace[k].guards, w);
  }

  // ---- The map as it is coded ----------------------------------------------------------------------

  class WindowTransfers {
    var inner: map<WindowId, nat>

    /** The guards registered so far, by number, with what each last reported. */
    ghost var guards: seq<Guard>

    ghost function Contents(): State
      reads this
    {
      State(inner, guards)
    }

    /** The sums are what the guards have reported. */
    ghost predicate Valid()
      reads this
    {
      Inv(Contents())
    }

    constructor ()
      ensures Valid() && Contents() == State(map[], [])
    {
      inner, guards := map[], [];
    }

    method AdjustSum(window: WindowId, delta: int)
      modifies this`inner
      ensures inner == Adjust(old(inner), window, delta)
    {
      if delta == 0 {
        return;
      }
      var entry := if window in inner then inner[window] else 0;
      var next := if entry + delta > 0 then entry + delta else 0;
      inner := if next == 0 then inner - {window} else inner[window := next];
    }

    /** Whether the live sockets of the window report a transfer between them. */
    method HasActiveTransfer(window: WindowId) returns (active: bool)
      requires Valid()
      ensures active <==> Total(guards, window) > 0
    {
      active := window in inner && inner[window] > 0;
      assert SumOf(inner, window) == Total(guards, window);
    }
  }

  class TransferGuard {
    const transfers: WindowTransfers
    const window: WindowId
    var last: nat

    /** The guard's number in the map's account. */
    ghost const number: nat

    /** The map's account has this guard at rest on its last report. */
    ghost predicate Valid()
      reads this, transfers
    {
      number < |transfers.guards| && transfers.guards[number] == Guard(window, transfers.guards[number].asked, last, Resting)
    }

    /** Register one socket, which reports nothing yet. */
    constructor (transfers: WindowTransfers, window: WindowId)
      requires transfers.Valid()
      modifies transfers
      ensures this.transfers == transfers && this.window == window && last == 0
      ensures transfers.Valid() && Valid() && number == old(|transfers.guards|)
      ensures Registers(old(transfers.Contents()), window, transfers.Contents())
    {
      this.transfers, this.window, last, number := transfers, window, 0, |transfers.guards|;
      new;
      ghost var before := transfers.Contents();
      transfers.guards := transfers.guards + [Guard(window, 0, 0, Resting)];
      RegisterKeepsInv(before, window, transfers.Contents());
    }

    /** Report a count: the window's sum loses the previous report and gains this one, capped. */
    method Set(active: nat)
      requires transfers.Valid() && Valid()
      modifies this, transfers
      ensures transfers.Valid() && Valid()
      ensures active <= 0x10_0000 ==> last == active
      ensures active > 0x10_0000 ==> last == 0x10_0000
      ensures transfers.guards == old(transfers.guards)[number := Guard(window, active, last, Resting)]
      ensures active > 0 ==> SumOf(transfers.inner, window) > 0
      ensures SumOf(transfers.inner, window) == old(SumOf(transfers.inner, window)) - old(last) + last
      ensures forall w | w != window :: SumOf(transfers.inner, w) == old(SumOf(transfers.inner, w))
    {
      hide Inv, SumOf, Adjust, Total;
      ghost var before, guard := transfers.Contents(), Guard(window, active, Capped(active), Resting);
      SumCoversEach(before, number);
      CellsAreCapped(before, number);
      AdjustKeepsInv(before, number, guard);
      var capped := if active < MAX_REPORTED then active else MAX_REPORTED;
      var previous := last;
      ExactAdjust(before.sums, window, capped - previous);
      last := capped;
      if capped != previous {
        transfers.AdjustSum(window, capped - previous);
      }
      transfers.guards := transfers.guards[number := guard];
    }

    /** The guard's drop: its last report leaves the window's sum. */
    method DropGuard()
      requires transfers.Valid() && Valid()
      modifies transfers
      ensures transfers.Valid() && transfers.guards == old(transfers.guards)[number := old(transfers.guards[number]).(pc := Dropped)]
      ensures SumOf(transfers.inner, window) == old(SumOf(transfers.inner, window)) - last
      ensures forall w | w != window :: SumOf(transfers.inner, w) == old(SumOf(transfers.inner, w))
    {
      hide Inv, SumOf, Adjust, Total;
      ghost var before, guard := transfers.Contents(), transfers.guards[number].(pc := Dropped);
      CellsAreCapped(before, number);
      AdjustKeepsInv(before, number, guard);
      ExactAdjust(before.sums, window, 0 - last);
      if last > 0 {
        transfers.AdjustSum(window, 0 - last);
      }
      transfers.guards := transfers.guards[number := guard];
    }
  }

  /** A window's sum holds what each of its guards has put there. */
  lemma SumCoversEach(s: State, g: nat)
    requires Inv(s) && g < |s.guards|
    ensures Applied(s.guards[g]) <= SumOf(s.sums, s.guards[g].window)
  {
    TotalCoversEach(s.guards, g);
  }

  lemma ExactAdjust(sums: map<WindowId, nat>, w: WindowId, delta: int)
    requires SumOf(sums, w) + delta >= 0
    ensures forall other :: SumOf(Adjust(sums, w, delta), other) == SumOf(sums, other) + if other == w then delta else 0
    ensures delta == 0 ==> Adjust(sums, w, delta) == sums
  {
    forall other
      ensures SumOf(Adjust(sums, w, delta), other) == SumOf(sums, other) + if other == w then delta else 0
    {
      AdjustIsExact(sums, w, delta, other);
    }
  }
}
