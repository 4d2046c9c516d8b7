/** The rows of the workspace overlay: intents, generations, merging, sorting. */
module WorkspaceRows {
  import opened Wrappers

  /** Generations are 64-bit and wrap. */
  const U64: nat := 0x1_0000_0000_0000_0000

  datatype Row = Row(path: string, desiredOn: bool, generation: nat)

  function Bump(generation: nat): nat {
    (generation + 1) % U64
  }

  ghost predicate Bounded(rows: seq<Row>) {
    forall i | 0 <= i < |rows| :: rows[i].generation < U64
  }

  ghost predicate UniquePaths(rows: seq<Row>) {
    forall i, j | 0 <= i < j < |rows| :: rows[i].path != rows[j].path
  }

  /** The first row of a path. */
  function Find(rows: seq<Row>, path: string): (row: Option<Row>)
    ensures row.Some? ==> row.value in rows && row.value.path == path
    ensures row.None? ==> forall i | 0 <= i < |rows| :: rows[i].path != path
  {
    if rows == [] then None
    else if rows[0].path == path then Some(rows[0])
    else Find(rows[1..], path)
  }

  /** The row an accepted intent leaves behind. */
  function Accepted(current: Option<Row>, path: string, on: bool): Row {
    if current.Some? then Row(path, on, Bump(current.value.generation)) else Row(path, on, 1)
  }

  function Upsert(rows: seq<Row>, path: string, on: bool): seq<Row> {
    if rows == [] then [Accepted(None, path, on)]
    else if rows[0].path == path then [Accepted(Some(rows[0]), path, on)] + rows[1..]
    else [rows[0]] + Upsert(rows[1..], path, on)
  }

  function UpsertEach(rows: seq<Row>, paths: seq<string>, on: bool): seq<Row>
    decreases |paths|
  {
    if paths == [] then rows else UpsertEach(Upsert(rows, paths[0], on), paths[1..], on)
  }

  function Forget(rows: seq<Row>, paths: seq<string>): seq<Row> {
    if rows == [] then []
    else (if rows[0].path in paths then [] else [rows[0]]) + Forget(rows[1..], paths)
  }

  /** How a snapshot row meets the current row of its path. */
  function Merge(current: Option<Row>, replacement: Row): Row {
    if replacement.generation == 0 then
      if current.None? then replacement.(generation := 1)
      else if replacement.desiredOn == current.value.desiredOn then replacement.(generation := current.value.generation)
      else replacement.(generation := Bump(current.value.generation))
    else if current.Some? && current.value.generation > replacement.generation then current.value
    else replacement
  }

  function Replace(rows: seq<Row>, snapshot: seq<Row>): (merged: seq<Row>)
    ensures |merged| == |snapshot|
    ensures forall i | 0 <= i < |snapshot| :: merged[i] == Merge(Find(rows, snapshot[i].path), snapshot[i])
  {
    seq(|snapshot|, i requires 0 <= i < |snapshot| => Merge(Find(rows, snapshot[i].path), snapshot[i]))
  }

  // ---- Lookups after each operation -----------------------------------------------

  lemma {:induction false} FindUpsert(rows: seq<Row>, path: string, on: bool, p: string)
    ensures Find(Upsert(rows, path, on), p) ==
            if p == path then Some(Accepted(Find(rows, path), path, on)) else Find(rows, p)
  {
    if rows != [] {
      var tail := Upsert(rows[1..], path, on);
      FindUpsert(rows[1..], path, on, p);
      if rows[0].path == path {
        assert Upsert(rows, path, on)[1..] == rows[1..];
      } else {
        assert Upsert(rows, path, on)[1..] == tail;
      }
    }
  }

  /** Where the upsert lands: on the first row of the path, or behind all rows. */
  lemma {:induction false} UpsertAt(rows: seq<Row>, i: nat, path: string, on: bool)
    requires i <= |rows| && (forall k | 0 <= k < i :: rows[k].path != path) && (i < |rows| ==> rows[i].path == path)
    ensures Find(rows, path) == if i < |rows| then Some(rows[i]) else None
    ensures Upsert(rows, path, on) ==
            if i < |rows| then rows[i := Accepted(Some(rows[i]), path, on)] else rows + [Accepted(None, path, on)]
  {
    if i > 0 {
      UpsertAt(rows[1..], i - 1, path, on);
    } else if i < |rows| {
      assert [Accepted(Some(rows[0]), path, on)] + rows[1..] == rows[0 := Accepted(Some(rows[0]), path, on)];
    }
  }

  lemma {:induction false} UpsertBounded(rows: seq<Row>, path: string, on: bool)
    requires Bounded(rows)
    ensures Bounded(Upsert(rows, path, on))
  {
    if rows != [] {
      UpsertBounded(rows[1..], path, on);
    }
  }

  lemma MergeKeepsPath(rows: seq<Row>, replacement: Row)
    ensures Merge(Find(rows, replacement.path), replacement).path == replacement.path
  {
  }

  lemma ReplaceBounded(rows: seq<Row>, snapshot: seq<Row>)
    requires Bounded(snapshot) && Bounded(rows)
    ensures Bounded(Replace(rows, snapshot))
  {
    hide Find;
  }

  /** Rows of the same paths are found at the same place. */
  lemma {:induction false} FindPlace(rows: seq<Row>, others: seq<Row>, p: string)
    requires |rows| == |others| && forall i | 0 <= i < |rows| :: rows[i].path == others[i].path
    ensures Find(rows, p).Some? <==> Find(others, p).Some?
    ensures Find(rows, p).Some? ==>
              exists i :: 0 <= i < |rows| && rows[i] == Find(rows, p).value && others[i] == Find(others, p).value
  {
    if rows != [] && rows[0].path != p {
      FindPlace(rows[1..], others[1..], p);
      if Find(rows, p).Some? {
        var i :| 0 <= i < |rows[1..]| && rows[1..][i] == Find(rows, p).value && others[1..][i] == Find(others, p).value;
        assert rows[i + 1] == Find(rows, p).value && others[i + 1] == Find(others, p).value;
      }
    }
  }

  lemma FindReplace(rows: seq<Row>, snapshot: seq<Row>, p: string)
    ensures Find(Replace(rows, snapshot), p) ==
            if Find(snapshot, p).None? then None else Some(Merge(Find(rows, p), Find(snapshot, p).value))
  {
    var merged := Replace(rows, snapshot);
    forall i | 0 <= i < |snapshot|
      ensures merged[i].path == snapshot[i].path
    {
      MergeKeepsPath(rows, snapshot[i]);
    }
    FindPlace(snapshot, merged, p);
  }

  lemma {:induction false} FindForget(rows: seq<Row>, paths: seq<string>, p: string)
    ensures Find(Forget(rows, paths), p) == if p in paths then None else Find(rows, p)
  {
    if rows != [] {
      FindForget(rows[1..], paths, p);
      if rows[0].path in paths {
        assert Forget(rows, paths) == Forget(rows[1..], paths);
      } else {
        assert Forget(rows, paths)[1..] == Forget(rows[1..], paths);
      }
    }
  }

  lemma {:induction false} ForgetSnoc(rows: seq<Row>, row: Row, paths: seq<string>)
    ensures Forget(rows + [row], paths) == Forget(rows, paths) + if row.path in paths then [] else [row]
  {
    if rows != [] {
      ForgetSnoc(rows[1..], row, paths);
      assert (rows + [row])[1..] == rows[1..] + [row];
    } else {
      assert [row][1..] == [];
    }
  }

  lemma {:induction false} ForgetBounded(rows: seq<Row>, paths: seq<string>)
    requires Bounded(rows)
    ensures Bounded(Forget(rows, paths))
  {
    if rows != [] {
      ForgetBounded(rows[1..], paths);
    }
  }

  /** A forget keeps every other row as often as it was there. */
  lemma {:induction false} ForgetKeepsOthers(rows: seq<Row>, paths: seq<string>, row: Row)
    ensures multiset(Forget(rows, paths))[row] == if row.path in paths then 0 else multiset(rows)[row]
  {
    if rows != [] {
      assert rows == [rows[0]] + rows[1..];
      ForgetKeepsOthers(rows[1..], paths, row);
    }
  }

  /** An intent: the next generation for a known path, the first for a new one; no other path is touched. */
  lemma IntentOutcome(rows: seq<Row>, path: string, on: bool, p: string)
    ensures Find(Upsert(rows, path, on), p) ==
            if p != path then Find(rows, p)
            else if Find(rows, path).None? then Some(Row(path, on, 1))
            else Some(Row(path, on, (Find(rows, path).value.generation + 1) % U64))
  {
    FindUpsert(rows, path, on, p);
    hide Find, Upsert;
  }

  /**
   * A replace, path by path: a path the snapshot lacks goes, a new one is taken
   * as it is but for a missing generation, and a known one keeps the current
   * state against an older snapshot, is taken over by a newer or equal one,
   * and without a generation counts as an intent exactly if it differs.
   */
  lemma ReplaceOutcome(rows: seq<Row>, snapshot: seq<Row>, p: string)
    ensures var taken, row := Find(snapshot, p), Find(rows, p);
            Find(Replace(rows, snapshot), p) ==
            if taken.None? then None
            else if row.None? then
              Some(Row(p, taken.value.desiredOn, if taken.value.generation == 0 then 1 else taken.value.generation))
            else if taken.value.generation != 0 then
              Some(if row.value.generation > taken.value.generation then row.value else taken.value)
            else if taken.value.desiredOn == row.value.desiredOn then row
            else Some(Row(p, taken.value.desiredOn, (row.value.generation + 1) % U64))
  {
    FindReplace(rows, snapshot, p);
    hide Find, Replace;
  }

  // ---- Generations ----------------------------------------------------------------

  datatype Op =
    | Set(path: string, on: bool)
    | SetEach(paths: seq<string>, eachOn: bool)
    | ReplaceAll(snapshot: seq<Row>)

  /** Generations fit their 64 bits, and so does the length of a batch. */
  ghost predicate WellFormed(op: Op) {
    match op
    case Set(_, _) => true
    case SetEach(paths, _) => |paths| < U64
    case ReplaceAll(snapshot) => Bounded(snapshot)
  }

  function Apply(rows: seq<Row>, op: Op): seq<Row> {
    match op
    case Set(path, on) => Upsert(rows, path, on)
    case SetEach(paths, on) => UpsertEach(rows, paths, on)
    case ReplaceAll(snapshot) => Replace(rows, snapshot)
  }

  /** How often the operation is a new intent for `p`, each of which advances its generation. */
  ghost function Advances(rows: seq<Row>, op: Op, p: string): nat {
    match op
    case Set(path, _) => if path == p then 1 else 0
    case SetEach(paths, _) => multiset(paths)[p]
    case ReplaceAll(snapshot) =>
      var current, replacement := Find(rows, p), Find(snapshot, p);
      if current.Some? && replacement.Some? && replacement.value.generation == 0
         && replacement.value.desiredOn != current.value.desiredOn then 1 else 0
  }

  /** The counter of `p` is advanced past its end. */
  ghost predicate Wraps(rows: seq<Row>, op: Op, p: string) {
    Find(rows, p).Some? && Advances(rows, op, p) > 0 && Find(rows, p).value.generation + Advances(rows, op, p) >= U64
  }

  /** The row left behind by `times` accepted intents for one path. */
  function AcceptedTimes(current: Option<Row>, path: string, on: bool, times: nat): Option<Row> {
    if times == 0 then current
    else Some(Row(path, on, ((if current.Some? then current.value.generation else 0) + times) % U64))
  }

  lemma AcceptedOnceMore(current: Option<Row>, path: string, on: bool, times: nat)
    ensures AcceptedTimes(Some(Accepted(current, path, on)), path, on, times) == AcceptedTimes(current, path, on, times + 1)
  {
  }

  /** A batch is as many intents for a path as it lists the path, repetitions included. */
  lemma {:induction false} FindUpsertEach(rows: seq<Row>, paths: seq<string>, on: bool, p: string)
    ensures Find(UpsertEach(rows, paths, on), p) == AcceptedTimes(Find(rows, p), p, on, multiset(paths)[p])
    decreases |paths|
  {
    hide Find, Upsert, AcceptedTimes, Accepted;
    if paths == [] {
      assert multiset(paths)[p] == 0;
      FewIntents(Find(rows, p), p, on);
    } else {
      var times := multiset(paths[1..])[p];
      assert paths == [paths[0]] + paths[1..];
      FindUpsert(rows, paths[0], on, p);
      FindUpsertEach(Upsert(rows, paths[0], on), paths[1..], on, p);
      AcceptedOnceMore(Find(rows, p), p, on, times);
    }
  }

  lemma FewIntents(current: Option<Row>, path: string, on: bool)
    ensures AcceptedTimes(current, path, on, 0) == current
    ensures AcceptedTimes(current, path, on, 1) == Some(Accepted(current, path, on))
  {
  }

  /** What an operation leaves of the row of `p`. */
  ghost function After(rows: seq<Row>, op: Op, p: string): Option<Row> {
    match op
    case Set(path, on) => AcceptedTimes(Find(rows, p), p, on, if path == p then 1 else 0)
    case SetEach(paths, on) => AcceptedTimes(Find(rows, p), p, on, multiset(paths)[p])
    case ReplaceAll(snapshot) =>
      if Find(snapshot, p).None? then None else Some(Merge(Find(rows, p), Find(snapshot, p).value))
  }

  lemma FindAfter(rows: seq<Row>, op: Op, p: string)
    ensures Find(Apply(rows, op), p) == After(rows, op, p)
  {
    hide Find, Upsert, UpsertEach, Replace, AcceptedTimes, Accepted;
    match op
    case Set(path, on) =>
      FindUpsert(rows, path, on, p);
      FewIntents(Find(rows, p), p, on);
    case SetEach(paths, on) => FindUpsertEach(rows, paths, on, p);
    case ReplaceAll(snapshot) => FindReplace(rows, snapshot, p);
  }

  lemma {:induction false} OccursAtMost(paths: seq<string>, p: string)
    ensures multiset(paths)[p] <= |paths|
  {
    if paths != [] {
      assert paths == [paths[0]] + paths[1..];
      OccursAtMost(paths[1..], p);
    }
  }

  /** A retained path's generation goes down exactly when its counter wraps. */
  lemma GenerationDropsOnlyByWrap(rows: seq<Row>, op: Op, p: string)
    requires WellFormed(op) && Bounded(rows)
    requires Find(rows, p).Some? && Find(Apply(rows, op), p).Some?
    ensures Find(rows, p).value.generation <= Find(Apply(rows, op), p).value.generation <==> !Wraps(rows, op, p)
  {
    hide Apply;
    FindAfter(rows, op, p);
    if op.SetEach? {
      OccursAtMost(op.paths, p);
    }
    assert Find(rows, p).value.generation < U64;
    hide Find, Bounded;
  }

  /** Such a step: the last generation wraps to zero. */
  lemma LastGenerationWraps()
    ensures var rows, op := [Row("/a", true, U64 - 1)], Set("/a", false);
            Wraps(rows, op, "/a") && Find(Apply(rows, op), "/a") == Some(Row("/a", false, 0))
  {
    var rows, op := [Row("/a", true, U64 - 1)], Set("/a", false);
    assert Apply(rows, op) == [Row("/a", false, 0)];
  }

  /** The operation asks for the other state of `p`, and not by a snapshot row that is older than the current one. */
  ghost predicate Overrides(rows: seq<Row>, op: Op, p: string)
    requires Find(rows, p).Some?
  {
    var current := Find(rows, p).value;
    match op
    case Set(path, on) => path == p && on != current.desiredOn
    case SetEach(paths, on) => p in paths && on != current.desiredOn
    case ReplaceAll(snapshot) =>
      var replacement := Find(snapshot, p);
      && replacement.Some? && replacement.value.desiredOn != current.desiredOn
      && !(0 < replacement.value.generation < current.generation)
  }

  /**
   * The desired state of a retained path changes exactly by such an operation;
   * then its generation moves on, unless a snapshot row of that very
   * generation took its place.
   */
  lemma DesiredChangesOnlyByIntent(rows: seq<Row>, op: Op, p: string)
    requires WellFormed(op) && Bounded(rows)
    requires Find(rows, p).Some? && Find(Apply(rows, op), p).Some?
    ensures var before, after := Find(rows, p).value, Find(Apply(rows, op), p).value;
            && (before.desiredOn != after.desiredOn <==> Overrides(rows, op, p))
            && (Overrides(rows, op, p) && !Wraps(rows, op, p) ==>
                  || before.generation < after.generation
                  || (op.ReplaceAll? && Find(op.snapshot, p).value.generation == before.generation))
  {
    hide Apply;
    FindAfter(rows, op, p);
    assert Find(rows, p).value.generation < U64;
    hide Find, Bounded;
  }

  /** A snapshot row of an older nonzero generation changes nothing of the current row. */
  lemma OlderSnapshotRowLoses(rows: seq<Row>, snapshot: seq<Row>, p: string)
    requires Find(rows, p).Some? && Find(snapshot, p).Some?
    requires 0 < Find(snapshot, p).value.generation < Find(rows, p).value.generation
    ensures Find(Replace(rows, snapshot), p) == Find(rows, p)
  {
    FindReplace(rows, snapshot, p);
    hide Find, Replace;
  }

  ghost function Applied(rows: seq<Row>, ops: seq<Op>): seq<Row>
    decreases |ops|
  {
    if ops == [] then rows else Applied(Apply(rows, ops[0]), ops[1..])
  }

  /** `p` is listed all along and its counter never wraps. */
  ghost predicate Retained(rows: seq<Row>, ops: seq<Op>, p: string)
    decreases |ops|
  {
    && Find(rows, p).Some?
    && (ops != [] ==> WellFormed(ops[0]) && !Wraps(rows, ops[0], p) && Retained(Apply(rows, ops[0]), ops[1..], p))
  }

  lemma ApplyBounded(rows: seq<Row>, op: Op)
    requires Bounded(rows) && WellFormed(op)
    ensures Bounded(Apply(rows, op))
  {
    match op
    case Set(path, on) => UpsertBounded(rows, path, on);
    case SetEach(paths, on) => UpsertEachBounded(rows, paths, on);
    case ReplaceAll(snapshot) => ReplaceBounded(rows, snapshot);
  }

  lemma {:induction false} UpsertEachBounded(rows: seq<Row>, paths: seq<string>, on: bool)
    requires Bounded(rows)
    ensures Bounded(UpsertEach(rows, paths, on))
    decreases |paths|
  {
    if paths != [] {
      UpsertBounded(rows, paths[0], on);
      UpsertEachBounded(Upsert(rows, paths[0], on), paths[1..], on);
    }
  }

  /** Over any mix of operations a retained path's generation never decreases. */
  lemma {:induction false} GenerationsNeverDecrease(rows: seq<Row>, ops: seq<Op>, p: string)
    requires Bounded(rows) && Retained(rows, ops, p)
    ensures Find(Applied(rows, ops), p).Some? && Bounded(Applied(rows, ops))
    ensures Find(rows, p).value.generation <= Find(Applied(rows, ops), p).value.generation
    decreases |ops|
  {
    hide Find, Bounded, Apply, WellFormed, Wraps;
    if ops != [] {
      ApplyBounded(rows, ops[0]);
      GenerationDropsOnlyByWrap(rows, ops[0], p);
      GenerationsNeverDecrease(Apply(rows, ops[0]), ops[1..], p);
    }
  }

  // ---- A stale snapshot against newer intents ------------------------------------------

  ghost predicate SetsOnly(ops: seq<Op>) {
    forall i | 0 <= i < |ops| :: !ops[i].ReplaceAll?
  }

  lemma SetMovesForward(rows: seq<Row>, op: Op, p: string)
    requires Bounded(rows) && Find(rows, p).Some? && WellFormed(op) && !op.ReplaceAll? && !Wraps(rows, op, p)
    ensures Find(Apply(rows, op), p).Some?
    ensures Find(Apply(rows, op), p) == Find(rows, p)
            || Find(rows, p).value.generation < Find(Apply(rows, op), p).value.generation
  {
    hide Apply;
    FindAfter(rows, op, p);
    assert Find(rows, p).value.generation < U64;
    hide Find, Bounded;
  }

  /** Intents accepted meanwhile leave a path alone or move it to a later generation. */
  lemma {:induction false} SetsMoveForward(rows: seq<Row>, ops: seq<Op>, p: string)
    requires Bounded(rows) && Retained(rows, ops, p) && SetsOnly(ops)
    ensures Find(Applied(rows, ops), p).Some?
    ensures Find(Applied(rows, ops), p) == Find(rows, p)
            || Find(rows, p).value.generation < Find(Applied(rows, ops), p).value.generation
    decreases |ops|
  {
    hide Find, Bounded, Apply, WellFormed, Wraps;
    if ops != [] {
      ApplyBounded(rows, ops[0]);
      SetMovesForward(rows, ops[0], p);
      SetsMoveForward(Apply(rows, ops[0]), ops[1..], p);
    }
  }

  /** A row no newer than the current one gives way to it exactly if it agrees or is of an older nonzero generation. */
  lemma MergeKeepsCurrent(current: Row, stale: Row)
    requires current.path == stale.path && stale.generation <= current.generation < U64
    ensures Merge(Some(current), stale) == current <==>
            stale.desiredOn == current.desiredOn || 0 < stale.generation < current.generation
  {
  }

  /**
   * Writing back a snapshot taken before any mix of operations leaves a row as
   * those operations have it exactly if the snapshot agrees with it, or the
   * snapshot's generation is nonzero and older.
   */
  lemma StaleSnapshotLoses(rows: seq<Row>, ops: seq<Op>, p: string)
    requires Bounded(rows) && Retained(rows, ops, p)
    ensures var now := Applied(rows, ops);
            Find(now, p).Some?
            && var stale, current := Find(rows, p).value, Find(now, p).value;
            (Find(Replace(now, rows), p) == Find(now, p) <==>
               stale.desiredOn == current.desiredOn || 0 < stale.generation < current.generation)
  {
    var now := Applied(rows, ops);
    GenerationsNeverDecrease(rows, ops, p);
    FindReplace(now, rows, p);
    assert Find(now, p).value.generation < U64;
    hide Find, Applied, Replace, Retained, Bounded, Merge;
    MergeKeepsCurrent(Find(now, p).value, Find(rows, p).value);
  }

  lemma AppliedOne(rows: seq<Row>, op: Op)
    ensures Applied(rows, [op]) == Apply(rows, op)
  {
    hide Apply;
    assert [op][1..] == [];
    assert Applied(Apply(rows, op), []) == Apply(rows, op);
  }

  /** A row that does not: loaded at generation zero, turned off, and turned on again by the stale snapshot. */
  lemma ZeroGenerationSnapshotWins()
    ensures var rows := [Row("/a", true, 0)];
            var now := Applied(rows, [Set("/a", false)]);
            && Retained(rows, [Set("/a", false)], "/a")
            && Find(now, "/a") == Some(Row("/a", false, 1)) && Find(Replace(now, rows), "/a") == Some(Row("/a", true, 2))
  {
    var rows, op := [Row("/a", true, 0)], Set("/a", false);
    AppliedOne(rows, op);
    assert Apply(rows, op) == [Row("/a", false, 1)];
    assert [op][1..] == [] && Retained(Apply(rows, op), [], "/a");
  }

  /** Another: turned off by a snapshot of the same generation, and on again by the stale one. */
  lemma EqualGenerationSnapshotWins()
    ensures var rows := [Row("/a", true, 5)];
            var ops := [ReplaceAll([Row("/a", false, 5)])];
            var now := Applied(rows, ops);
            && Retained(rows, ops, "/a")
            && Find(now, "/a") == Some(Row("/a", false, 5)) && Find(Replace(now, rows), "/a") == Some(Row("/a", true, 5))
  {
    var rows, op := [Row("/a", true, 5)], ReplaceAll([Row("/a", false, 5)]);
    AppliedOne(rows, op);
    assert Apply(rows, op) == [Row("/a", false, 5)];
    assert [op][1..] == [] && Retained(Apply(rows, op), [], "/a");
  }

  // ---- The file ----------------------------------------------------------------------

  /** Lexicographic order of paths. */
  predicate PathLe(a: string, b: string) {
    a == [] || (b != [] && (a[0] < b[0] || (a[0] == b[0] && PathLe(a[1..], b[1..]))))
  }

  lemma {:induction false} PathLeTotal(a: string, b: string)
    ensures PathLe(a, b) || PathLe(b, a)
    ensures PathLe(a, b) && PathLe(b, a) ==> a == b
  {
    if a != [] && b != [] && a[0] == b[0] {
      PathLeTotal(a[1..], b[1..]);
      assert a == [a[0]] + a[1..] && b == [b[0]] + b[1..];
    }
  }

  lemma {:induction false} PathLeTransitive(a: string, b: string, c: string)
    requires PathLe(a, b) && PathLe(b, c)
    ensures PathLe(a, c)
  {
    if a != [] && a[0] == b[0] == c[0] {
      PathLeTransitive(a[1..], b[1..], c[1..]);
    }
  }

  ghost predicate SortedRows(rows: seq<Row>) {
    forall i, j | 0 <= i < j < |rows| :: PathLe(rows[i].path, rows[j].path)
  }

  /** Insert behind the rows of smaller or equal path, which keeps the sort stable. */
  function Insert(rows: seq<Row>, row: Row): seq<Row> {
    if rows == [] then [row]
    else if PathLe(rows[|rows| - 1].path, row.path) then rows + [row]
    else Insert(rows[..|rows| - 1], row) + [rows[|rows| - 1]]
  }

  /** The stable sort by path. */
  function Sorted(rows: seq<Row>): seq<Row> {
    if rows == [] then [] else Insert(Sorted(rows[..|rows| - 1]), rows[|rows| - 1])
  }

  lemma {:induction false} InsertSorts(rows: seq<Row>, row: Row)
    requires SortedRows(rows)
    ensures SortedRows(Insert(rows, row)) && multiset(Insert(rows, row)) == multiset(rows) + multiset{row}
  {
    if rows != [] {
      var front, last := rows[..|rows| - 1], rows[|rows| - 1];
      assert rows == front + [last];
      if PathLe(last.path, row.path) {
        forall i | 0 <= i < |rows| ensures PathLe(rows[i].path, row.path) {
          if i < |front| {
            PathLeTransitive(rows[i].path, last.path, row.path);
          }
        }
      } else {
        InsertSorts(front, row);
        PathLeTotal(last.path, row.path);
        var inserted := Insert(front, row);
        forall i | 0 <= i < |inserted| ensures PathLe(inserted[i].path, last.path) {
          assert inserted[i] in multiset(inserted);
          assert inserted[i] == row || inserted[i] in front;
        }
      }
    }
  }

  /** The saved rows are the current rows, in path order. */
  lemma {:induction false} SortedIsSorted(rows: seq<Row>)
    ensures SortedRows(Sorted(rows)) && multiset(Sorted(rows)) == multiset(rows)
  {
    if rows != [] {
      hide SortedRows, Insert, PathLe;
      SortedIsSorted(rows[..|rows| - 1]);
      InsertSorts(Sorted(rows[..|rows| - 1]), rows[|rows| - 1]);
      assert rows == rows[..|rows| - 1] + [rows[|rows| - 1]];
    }
  }

  /** The rows of one path, in order. */
  function RowsOf(rows: seq<Row>, p: string): seq<Row> {
    if rows == [] then []
    else RowsOf(rows[..|rows| - 1], p) + if rows[|rows| - 1].path == p then [rows[|rows| - 1]] else []
  }

  lemma {:induction false} InsertKeepsOrder(rows: seq<Row>, row: Row, p: string)
    requires SortedRows(rows)
    ensures RowsOf(Insert(rows, row), p) == RowsOf(rows, p) + if row.path == p then [row] else []
  {
    if rows == [] {
      assert [row][..0] == [];
    } else {
      var front, last := rows[..|rows| - 1], rows[|rows| - 1];
      if PathLe(last.path, row.path) {
        assert (rows + [row])[..|rows|] == rows;
      } else {
        InsertKeepsOrder(front, row, p);
        PathLeTotal(last.path, row.path);
        var inserted := Insert(front, row);
        assert (inserted + [last])[..|inserted|] == inserted;
      }
    }
  }

  /** The sort is stable: rows of one path stay in order. */
  lemma {:induction false} SortedIsStable(rows: seq<Row>, p: string)
    ensures RowsOf(Sorted(rows), p) == RowsOf(rows, p)
  {
    if rows != [] {
      var front := rows[..|rows| - 1];
      SortedIsSorted(front);
      SortedIsStable(front, p);
      InsertKeepsOrder(Sorted(front), rows[|rows| - 1], p);
      hide Insert, PathLe;
    }
  }

  /** The first row of a sorted file is the least. */
  lemma LeastFirst(rows: seq<Row>, row: Row)
    requires SortedRows(rows) && row in rows
    ensures PathLe(rows[0].path, row.path)
  {
    PathLeTotal(row.path, row.path);
    hide PathLe;
  }

  lemma SameFirst(a: seq<Row>, b: seq<Row>)
    requires UniquePaths(a) && SortedRows(a) && SortedRows(b) && multiset(a) == multiset(b) && a != [] && b != []
    ensures a[0] == b[0]
  {
    hide PathLe;
    assert a[0] in multiset(b) && b[0] in multiset(a);
    LeastFirst(a, b[0]);
    LeastFirst(b, a[0]);
    PathLeTotal(a[0].path, b[0].path);
  }

  lemma TailRows(rows: seq<Row>)
    requires rows != []
    ensures multiset(rows[1..]) == multiset(rows) - multiset{rows[0]}
  {
    assert rows == [rows[0]] + rows[1..];
  }

  /** With unique paths there is one such file. */
  lemma {:induction false} SortedIsUnique(a: seq<Row>, b: seq<Row>)
    requires UniquePaths(a) && SortedRows(a) && SortedRows(b) && multiset(a) == multiset(b)
    ensures a == b
  {
    hide PathLe;
    assert |a| == |multiset(a)| == |multiset(b)| == |b|;
    if a != [] {
      SameFirst(a, b);
      TailRows(a);
      TailRows(b);
      SortedIsUnique(a[1..], b[1..]);
      assert a == [a[0]] + a[1..] && b == [b[0]] + b[1..];
    }
  }
}
