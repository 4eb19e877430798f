/**
Writing the state file: the steps of `save_to_directory` and
`backup_invalid_state` against a directory in which any step may fail, and what
a reader finds if the process stops after any of them.
*/
module StateDirectory {
  import opened Primitives

  const MAX_TEMP_ATTEMPTS := 64

  /** A file's bytes, and whether they are known to be on disk. */
  datatype Entry = Entry(bytes: seq<byte>, synced: bool)

  type Entries = map<string, Entry>

  /** What the environment does: which steps fail, how much a write writes, what names are drawn. */
  datatype World = World(fails: nat -> bool, written: nat -> nat, tag: nat -> Option<string>)

  function At(entries: Entries, name: string): Option<Entry> {
    if name in entries then Some(entries[name]) else None
  }

  /** A directory, and every state it has been in. */
  class Directory {
    var entries: Entries
    const world: World
    var clock: nat
    ghost var history: seq<Entries>

    constructor (entries: Entries, world: World)
      ensures this.entries == entries && this.world == world && history == [entries]
    {
      this.entries, this.world, clock, history := entries, world, 0, [entries];
    }

    method Apply(next: Entries) returns (ok: bool)
      modifies this
      ensures clock == old(clock) + 1
      ensures entries == if ok then next else old(entries)
      ensures history == old(history) + [entries]
    {
      ok := !world.fails(clock);
      if ok { entries := next; }
      clock := clock + 1;
      history := history + [entries];
    }

    /** `write_all` of a new file: on failure some prefix may have been written. */
    method WriteAll(name: string, contents: seq<byte>) returns (ok: bool)
      requires name in entries
      modifies this
      ensures ok ==> entries == old(entries)[name := Entry(contents, false)]
      ensures !ok ==> exists n: nat :: n <= |contents| && entries == old(entries)[name := Entry(contents[..n], false)]
      ensures history == old(history) + [entries]
    {
      ok := !world.fails(clock);
      var n := world.written(clock);
      var kept := if ok || n > |contents| then |contents| else n;
      assert contents[..|contents|] == contents;
      entries := entries[name := Entry(contents[..kept], false)];
      clock := clock + 1;
      history := history + [entries];
    }
  }

  // ---- saving ---------------------------------------------------------------

  /** Names a save makes up: longer than the state name, so never equal to it. */
  function TempName(stateName: string, tag: string): (name: string)
    ensures name != stateName
  {
    stateName + ".tmp-" + tag
  }

  predicate MadeUp(before: Entries, now: Entries, stateName: string, name: string) {
    name in now && name != stateName && name !in before
  }

  /**
  What a reader may find: the state name holds either what it held or the whole
  new contents, on disk; every other entry is as it was; and at most one made-up
  name is left over.
  */
  ghost predicate SaveView(before: Entries, now: Entries, stateName: string, contents: seq<byte>) {
    && (At(now, stateName) == At(before, stateName) || At(now, stateName) == Some(Entry(contents, true)))
    && (forall n :: n in before && n != stateName ==> At(now, n) == At(before, n))
    && (forall a, b :: MadeUp(before, now, stateName, a) && MadeUp(before, now, stateName, b) ==> a == b)
  }

  ghost predicate AllViews(before: Entries, views: seq<Entries>, stateName: string, contents: seq<byte>) {
    forall i :: 0 <= i < |views| ==> SaveView(before, views[i], stateName, contents)
  }

  datatype SaveOutcome = Saved | SaveFailed

  /** Every state recorded since `start`, and the present one, is one a reader may find. */
  ghost predicate Tracked(directory: Directory, start: nat, before: Entries, stateName: string, contents: seq<byte>)
    reads directory
  {
    && start <= |directory.history|
    && AllViews(before, directory.history[start..], stateName, contents)
    && SaveView(before, directory.entries, stateName, contents)
  }

  lemma TempIsAView(before: Entries, temp: string, entry: Entry, stateName: string, contents: seq<byte>)
    requires temp != stateName && temp !in before
    ensures SaveView(before, before[temp := entry], stateName, contents)
    ensures SaveView(before, before, stateName, contents)
    ensures SaveView(before, before[stateName := Entry(contents, true)], stateName, contents)
  {
  }

  /** One step to a state a reader may find. */
  method Step(directory: Directory, next: Entries, ghost start: nat, ghost before: Entries,
              stateName: string, contents: seq<byte>)
    returns (ok: bool)
    requires Tracked(directory, start, before, stateName, contents)
    requires SaveView(before, next, stateName, contents)
    modifies directory
    ensures Tracked(directory, start, before, stateName, contents)
    ensures directory.entries == if ok then next else old(directory.entries)
    ensures directory.history == old(directory.history) + [directory.entries]
  {
    ghost var views := directory.history[start..];
    ok := directory.Apply(next);
    assert directory.history[start..] == views + [directory.entries];
  }

  method WriteTemp(directory: Directory, temp: string, ghost start: nat, ghost before: Entries,
                   stateName: string, contents: seq<byte>)
    returns (ok: bool)
    requires Tracked(directory, start, before, stateName, contents)
    requires temp != stateName && temp !in before && directory.entries == before[temp := Entry([], false)]
    modifies directory
    ensures Tracked(directory, start, before, stateName, contents)
    ensures exists entry :: directory.entries == before[temp := entry] && (ok ==> entry.bytes == contents)
    ensures directory.history == old(directory.history) + [directory.entries]
  {
    ghost var views := directory.history[start..];
    ok := directory.WriteAll(temp, contents);
    ghost var entry := directory.entries[temp];
    assert directory.entries == before[temp := entry];
    TempIsAView(before, temp, entry, stateName, contents);
    assert directory.history[start..] == views + [directory.entries];
  }

  /**
  Steps from the empty temporary file on: check it, write it, sync it, rename it
  over the state file, sync the directory; on any failure, unlink it.
  */
  method WriteAndRename(directory: Directory, temp: string, stateName: string, contents: seq<byte>,
                        ghost start: nat, ghost before: Entries)
    returns (outcome: SaveOutcome)
    requires temp != stateName && temp !in before && directory.entries == before[temp := Entry([], false)]
    requires Tracked(directory, start, before, stateName, contents)
    modifies directory
    ensures Tracked(directory, start, before, stateName, contents)
    ensures outcome == Saved ==> directory.entries == before[stateName := Entry(contents, true)]
  {
    ghost var entry := Entry([], false);
    var ok := Step(directory, directory.entries, start, before, stateName, contents);
    if ok {
      ok := WriteTemp(directory, temp, start, before, stateName, contents);
      entry := directory.entries[temp];
      if ok {
        TempIsAView(before, temp, Entry(contents, true), stateName, contents);
        assert before[temp := entry][temp := Entry(contents, true)] == before[temp := Entry(contents, true)];
        ok := Step(directory, directory.entries[temp := Entry(contents, true)], start, before, stateName, contents);
        if ok {
          ok := RenameOver(directory, temp, stateName, contents, start, before);
          if ok { return Saved; }
        }
      }
    }
    Unlinking(before, directory.entries, temp, stateName, contents);
    var unlinked := Step(directory, directory.entries - {temp}, start, before, stateName, contents);
    return SaveFailed;
  }

  method RenameOver(directory: Directory, temp: string, stateName: string, contents: seq<byte>,
                    ghost start: nat, ghost before: Entries)
    returns (ok: bool)
    requires temp != stateName && temp !in before && directory.entries == before[temp := Entry(contents, true)]
    requires Tracked(directory, start, before, stateName, contents)
    modifies directory
    ensures Tracked(directory, start, before, stateName, contents)
    ensures ok ==> directory.entries == before[stateName := Entry(contents, true)]
  {
    TempIsAView(before, temp, Entry(contents, true), stateName, contents);
    var renamed := (directory.entries - {temp})[stateName := directory.entries[temp]];
    assert renamed == before[stateName := Entry(contents, true)];
    ok := Step(directory, renamed, start, before, stateName, contents);
    if ok {
      ok := Step(directory, directory.entries, start, before, stateName, contents);
    }
  }

  lemma Unlinking(before: Entries, now: Entries, temp: string, stateName: string, contents: seq<byte>)
    requires SaveView(before, now, stateName, contents) && temp != stateName && temp !in before
    ensures SaveView(before, now - {temp}, stateName, contents)
  {
    assert forall a :: MadeUp(before, now - {temp}, stateName, a) ==> MadeUp(before, now, stateName, a);
  }

  /** Saving: a fresh temporary file, written and synced, renamed over the state file. */
  method SaveToDirectory(directory: Directory, stateName: string, contents: seq<byte>)
    returns (outcome: SaveOutcome)
    modifies directory
    ensures |old(directory.history)| <= |directory.history|
    ensures AllViews(old(directory.entries), directory.history[|old(directory.history)|..], stateName, contents)
    ensures SaveView(old(directory.entries), directory.entries, stateName, contents)
    ensures outcome == Saved ==> directory.entries == old(directory.entries)[stateName := Entry(contents, true)]
  {
    ghost var start := |directory.history|;
    ghost var before := directory.entries;
    for attempt := 0 to MAX_TEMP_ATTEMPTS
      invariant directory.entries == before && directory.history == old(directory.history)
    {
      var tag := directory.world.tag(attempt);
      if tag.None? { return SaveFailed; }
      var temp := TempName(stateName, tag.value);
      if temp in directory.entries { continue; }
      TempIsAView(before, temp, Entry([], false), stateName, contents);
      var created := Step(directory, directory.entries[temp := Entry([], false)], start, before, stateName, contents);
      if !created { return SaveFailed; }
      outcome := WriteAndRename(directory, temp, stateName, contents, start, before);
      return outcome;
    }
    return SaveFailed;
  }

  // ---- moving an undecodable file aside -------------------------------------

  /** The bytes are under the state name, or under one new backup name, and nothing else moved. */
  ghost predicate BackupView(before: Entries, now: Entries, stateName: string) {
    now == before
    || (exists backup :: && backup !in before && stateName in before
                         && now == (before - {stateName})[backup := before[stateName]])
  }

  datatype BackupOutcome = MovedTo(name: string) | NotMoved | MovedUnconfirmed

  function BackupName(stateName: string, tag: string): (name: string)
    ensures name != stateName
  {
    stateName + ".corrupt-" + tag
  }

  method BackupInvalidState(directory: Directory, stateName: string) returns (outcome: BackupOutcome)
    requires stateName in directory.entries
    modifies directory
    ensures |old(directory.history)| <= |directory.history|
    ensures forall i :: |old(directory.history)| <= i < |directory.history| ==>
              BackupView(old(directory.entries), directory.history[i], stateName)
    ensures BackupView(old(directory.entries), directory.entries, stateName)
    ensures outcome.MovedTo? ==>
              && outcome.name !in old(directory.entries)
              && directory.entries
                 == (old(directory.entries) - {stateName})[outcome.name := old(directory.entries)[stateName]]
    ensures outcome == NotMoved ==> directory.entries == old(directory.entries)
  {
    ghost var before := directory.entries;
    for attempt := 0 to MAX_TEMP_ATTEMPTS
      invariant directory.entries == before && directory.history == old(directory.history)
    {
      var tag := directory.world.tag(attempt);
      if tag.None? { return NotMoved; }
      var backup := BackupName(stateName, tag.value);
      if backup in directory.entries { continue; }
      var moved := directory.Apply((directory.entries - {stateName})[backup := directory.entries[stateName]]);
      if !moved { return NotMoved; }
      var checked := directory.Apply(directory.entries);
      if !checked { return MovedUnconfirmed; }
      var synced := directory.Apply(directory.entries);
      if !synced { return MovedUnconfirmed; }
      return MovedTo(backup);
    }
    return NotMoved;
  }

  /**
  After any step, the undecodable bytes are under exactly one of the names that
  are new or were the state's.
  */
  lemma BackupKeepsBytesOnce(before: Entries, now: Entries, stateName: string)
    requires stateName in before && BackupView(before, now, stateName)
    ensures exists name :: && name in now && now[name] == before[stateName]
                           && (name == stateName || name !in before)
                           && forall other :: other in now && (other == stateName || other !in before) ==> other == name
    ensures forall other :: other in before && other != stateName ==> At(now, other) == At(before, other)
  {
    if now == before {
      assert now[stateName] == before[stateName];
    } else {
      var backup :| && backup !in before
                    && now == (before - {stateName})[backup := before[stateName]];
      assert now[backup] == before[stateName];
    }
  }
}
