/** The overlay store as one thread sees it: rows in place, then an ordered save. */
module WorkspaceOverlay {
  import opened Wrappers
  import opened WorkspaceRows
  import opened OrderedSave

  class WorkspaceOverlay {
    var rows: seq<Row>
    var nextSave: nat
    var latestSave: nat
    var file: seq<Row>

    /** No save is newer than the tickets given out. */
    ghost predicate Valid()
      reads this
    {
      latestSave <= nextSave && Bounded(rows)
    }

    /** Open on a file whose rows were read, or on no rows if it could not be. */
    constructor (file: seq<Row>, readable: bool)
      requires Bounded(file)
      ensures Valid() && rows == (if readable then file else []) && this.file == file
    {
      rows, this.file := if readable then file else [], file;
      nextSave, latestSave := 0, 0;
    }

    /** Record an intent in place, or append a row for it. */
    method Upsert(path: string, on: bool) returns (generation: nat)
      requires Bounded(rows)
      modifies this`rows
      ensures rows == WorkspaceRows.Upsert(old(rows), path, on) && Bounded(rows)
      ensures Find(rows, path) == Some(Row(path, on, generation))
    {
      UpsertBounded(rows, path, on);
      FindUpsert(rows, path, on, path);
      hide Find, WorkspaceRows.Upsert;
      var i := 0;
      while i < |rows| && rows[i].path != path
        invariant i <= |rows|
        invariant forall k | 0 <= k < i :: rows[k].path != path
      {
        i := i + 1;
      }
      UpsertAt(rows, i, path, on);
      if i < |rows| {
        generation := Bump(rows[i].generation);
        rows := rows[i := rows[i].(desiredOn := on, generation := generation)];
      } else {
        generation := 1;
        rows := rows + [Row(path, on, 1)];
      }
    }

    /** Ticket, snapshot, sort; then publish unless a newer save did. */
    method Persist(outcome: WriteResult)
      requires Valid()
      modifies this`nextSave, this`latestSave, this`file
      ensures Valid() && nextSave == old(nextSave) + 1 && latestSave == nextSave
      ensures file == if outcome == NotWritten then old(file) else Sorted(rows)
      ensures outcome != NotWritten ==> SortedRows(file) && multiset(file) == multiset(rows)
    {
      SortedIsSorted(rows);
      nextSave := nextSave + 1;
      var generation, snapshot := nextSave, Sorted(rows);
      if generation <= latestSave {
        return;
      }
      latestSave := generation;
      if outcome != NotWritten {
        file := snapshot;
      }
    }

    /** Accept an intent and save. */
    method Set(path: string, on: bool, outcome: WriteResult) returns (generation: nat)
      requires Valid()
      modifies this
      ensures Valid() && rows == Apply(old(rows), Op.Set(path, on))
      ensures Find(rows, path) == Some(Row(path, on, generation))
      ensures file == if outcome == NotWritten then old(file) else Sorted(rows)
    {
      generation := Upsert(path, on);
      Persist(outcome);
    }

    /** Accept an intent under several spellings at once and save once. */
    method SetEach(paths: seq<string>, on: bool, outcome: WriteResult)
      requires Valid()
      modifies this
      ensures Valid() && rows == Apply(old(rows), Op.SetEach(paths, on)) && nextSave == old(nextSave) + 1
      ensures file == if outcome == NotWritten then old(file) else Sorted(rows)
    {
      for i := 0 to |paths|
        invariant Valid() && nextSave == old(nextSave) && file == old(file)
        invariant UpsertEach(rows, paths[i..], on) == UpsertEach(old(rows), paths, on)
      {
        assert paths[i..][1..] == paths[i + 1..];
        var generation := Upsert(paths[i], on);
      }
      Persist(outcome);
    }

    /** Drop every row of the given paths and save. */
    method ForgetEach(paths: seq<string>, outcome: WriteResult)
      requires Valid()
      modifies this
      ensures Valid() && rows == Forget(old(rows), paths)
      ensures forall p :: Find(rows, p) == if p in paths then None else Find(old(rows), p)
      ensures file == if outcome == NotWritten then old(file) else Sorted(rows)
    {
      ForgetBounded(rows, paths);
      forall p ensures Find(Forget(rows, paths), p) == if p in paths then None else Find(rows, p) {
        FindForget(rows, paths, p);
      }
      hide Find, Forget;
      var kept: seq<Row> := [];
      assert rows[..0] == [];
      ForgetNothing(paths);
      for i := 0 to |rows|
        invariant rows == old(rows) && file == old(file) && Valid()
        invariant kept == Forget(rows[..i], paths)
      {
        assert rows[..i + 1] == rows[..i] + [rows[i]];
        ForgetSnoc(rows[..i], rows[i], paths);
        if rows[i].path !in paths {
          kept := kept + [rows[i]];
        }
      }
      assert rows[..|rows|] == rows;
      rows := kept;
      Persist(outcome);
    }

    /** The row of a path by a scan. */
    method Lookup(path: string) returns (row: Option<Row>)
      ensures row == Find(rows, path)
    {
      for i := 0 to |rows|
        invariant Find(rows, path) == Find(rows[i..], path)
      {
        if rows[i].path == path {
          return Some(rows[i]);
        }
        assert rows[i..][1..] == rows[i + 1..];
      }
      return None;
    }

    /** Replace all rows by a snapshot, in which newer accepted intents win. */
    method Replace(snapshot: seq<Row>, outcome: WriteResult)
      requires Valid() && Bounded(snapshot)
      modifies this
      ensures Valid() && rows == Apply(old(rows), ReplaceAll(snapshot))
      ensures forall p | Find(old(rows), p).None? && Find(snapshot, p).Some? ::
        Find(rows, p) == Some(Row(p, Find(snapshot, p).value.desiredOn,
                                  if Find(snapshot, p).value.generation == 0 then 1 else Find(snapshot, p).value.generation))
      ensures forall p :: Find(rows, p).Some? <==> Find(snapshot, p).Some?
      ensures file == if outcome == NotWritten then old(file) else Sorted(rows)
    {
      ReplaceBounded(rows, snapshot);
      hide Find;
      var merged := snapshot;
      for i := 0 to |snapshot|
        invariant |merged| == |snapshot| && rows == old(rows) && file == old(file) && Valid()
        invariant forall k | 0 <= k < i :: merged[k] == Merge(Find(rows, snapshot[k].path), snapshot[k])
        invariant forall k | i <= k < |snapshot| :: merged[k] == snapshot[k]
      {
        var replacement := merged[i];
        var current := Lookup(replacement.path);
        if current.Some? && replacement.generation == 0 {
          replacement := replacement.(generation :=
            if replacement.desiredOn == current.value.desiredOn then current.value.generation
            else Bump(current.value.generation));
        } else if current.None? && replacement.generation == 0 {
          replacement := replacement.(generation := 1);
        } else if current.Some? && current.value.generation > replacement.generation {
          replacement := current.value;
        }
        merged := merged[i := replacement];
      }
      assert merged == WorkspaceRows.Replace(rows, snapshot);
      forall p
        ensures Find(merged, p).Some? <==> Find(snapshot, p).Some?
        ensures Find(rows, p).None? && Find(snapshot, p).Some? ==>
          Find(merged, p) == Some(Row(p, Find(snapshot, p).value.desiredOn,
                                      if Find(snapshot, p).value.generation == 0 then 1 else Find(snapshot, p).value.generation))
      {
        ReplaceOutcome(rows, snapshot, p);
      }
      rows := merged;
      Persist(outcome);
    }
  }

  lemma ForgetNothing(paths: seq<string>)
    ensures Forget([], paths) == []
  {
  }

  /**
   * For concurrent writers: at rest, after a newest save that replaced the
   * file, the file is the sorted arrangement of the current rows.
   */
  lemma QuietOverlayIsSorted(trace: seq<Store<seq<Row>, seq<Row>>>)
    requires Run(trace) && Quiet(trace[|trace| - 1]) && trace[0].encode == (rows => Sorted(rows))
    ensures var s := trace[|trace| - 1];
            s.nextSave > 0 && s.nextSave in s.results && s.results[s.nextSave] != NotWritten ==>
              && SortedRows(s.file) && multiset(s.file) == multiset(s.data)
              && forall p :: RowsOf(s.file, p) == RowsOf(s.data, p)
  {
    var data := trace[|trace| - 1].data;
    forall p
      ensures RowsOf(Sorted(data), p) == RowsOf(data, p)
    {
      SortedIsStable(data, p);
    }
    QuietFileIsCurrent(trace);
    hide Run;
    SortedIsSorted(trace[|trace| - 1].data);
  }
}
