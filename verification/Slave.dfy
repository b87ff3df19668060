/** internal/cluster/sync.go: the sync operations of one slave, on its files, its
    backups and its saved state. */
module SlaveSync {
  import opened Text
  import opened Ordering
  import opened Config
  import opened Settings
  import opened Pull
  import opened Undo
  import opened Revision

  datatype Snapshot = Snapshot(rev: string, values: map<string, string>)

  datatype ApplyResult = Done | Refused | WriteFailed

  datatype SyncResult = Synced(applied: nat, skipped: nat) | Unreachable | Failed

  // BuildSnapshot

  ghost predicate Sound(fs: Files, values: map<string, string>) {
    forall key | key in values :: Entry(fs, key, values[key])
  }

  /** The keys of the settings of the given sections that are already collected. */
  ghost predicate HasSettings(fs: Files, values: map<string, string>, file: string, sections: set<string>) {
    forall s: Setting, value | s.file == file && s.section in sections && SharedCell(fs, s, IniKey(s), value) :: IniKey(s) in values
  }

  ghost predicate HasFiles(fs: Files, values: map<string, string>, paths: seq<string>) {
    forall path | path in paths && path in fs && SharedFile(fs, path, FileKey(path), fs[path]) :: FileKey(path) in values
  }

  method CollectSection(fs: Files, file: string, section: string, kv: Section, found: map<string, string>) returns (values: map<string, string>)
    requires IsIniFile(file) && section in Ini(fs, file) && Ini(fs, file)[section] == kv
    requires Sound(fs, found)
    ensures Sound(fs, values) && found.Keys <= values.Keys
    ensures HasSettings(fs, values, file, {section})
  {
    hide Classify, ParseFile, IniPath, IniKey;
    values := found;
    var keys := RangeKeys(kv);
    for n := 0 to |keys|
      invariant Sound(fs, values) && found.Keys <= values.Keys
      invariant forall m | 0 <= m < n :: Classify(IniKey(Setting(file, section, keys[m]))) != "" ==> IniKey(Setting(file, section, keys[m])) in values
    {
      var s := Setting(file, section, keys[n]);
      var key := IniKey(s);
      if Classify(key) != "" {
        assert SharedCell(fs, s, key, kv[keys[n]]);
        assert Entry(fs, key, kv[keys[n]]);
        values := values[key := kv[keys[n]]];
      }
    }
    forall s: Setting, value | s.file == file && s.section in {section} && SharedCell(fs, s, IniKey(s), value)
      ensures IniKey(s) in values
    {
      assert s.key in keys;
      var m :| 0 <= m < |keys| && keys[m] == s.key;
      assert s == Setting(file, section, keys[m]);
    }
  }

  method CollectIni(fs: Files, file: string, found: map<string, string>) returns (values: map<string, string>)
    requires IsIniFile(file) && Sound(fs, found)
    ensures Sound(fs, values) && found.Keys <= values.Keys
    ensures HasSettings(fs, values, file, Ini(fs, file).Keys)
  {
    hide Classify, ParseFile, IniPath, IniKey, SharedCell, Sound;
    values := found;
    var data := Ini(fs, file);
    var sections := RangeKeys(data);
    for n := 0 to |sections|
      invariant Sound(fs, values) && found.Keys <= values.Keys
      invariant forall m | 0 <= m < n :: HasSettings(fs, values, file, {sections[m]})
    {
      values := CollectSection(fs, file, sections[n], data[sections[n]], values);
    }
    forall s: Setting, value | s.file == file && s.section in Ini(fs, file).Keys && SharedCell(fs, s, IniKey(s), value)
      ensures IniKey(s) in values
    {
      assert s.section in sections;
      var m :| 0 <= m < |sections| && sections[m] == s.section;
      assert HasSettings(fs, values, file, {sections[m]});
    }
  }

  /** Every path a glob matches is clean, as a name read from a directory is. */
  predicate CleanPaths(fs: Files) {
    forall path | path in fs :: IsClean(path)
  }

  method CollectFiles(fs: Files, found: map<string, string>) returns (values: map<string, string>)
    requires CleanPaths(fs) && Sound(fs, found)
    ensures Sound(fs, values) && found.Keys <= values.Keys
    ensures forall path, key, value | SharedFile(fs, path, key, value) :: key in values
  {
    hide Classify, MatchesGlob, IsClean, FileKey, SharedCell;
    values := found;
    var paths := RangeKeys(fs);
    for n := 0 to |paths|
      invariant Sound(fs, values) && found.Keys <= values.Keys
      invariant HasFiles(fs, values, paths[..n])
    {
      var path := paths[n];
      ClassifyOfMatch(path);
      assert paths[..n + 1] == paths[..n] + [path];
      if MatchesGlob(path) && |fs[path]| <= MAX_FILE {
        assert SharedFile(fs, path, FileKey(path), fs[path]);
        assert Entry(fs, FileKey(path), fs[path]);
        values := values[FileKey(path) := fs[path]];
      }
    }
    assert paths[..|paths|] == paths;
  }

  lemma ClassifyOfMatch(path: string)
    ensures Classify(FileKey(path)) != "" <==> IsClean(path) && MatchesGlob(path)
  {
    hide MatchesGlob, IsClean;
    FileKeyParts(path);
  }

  method BuildSnapshot(fs: Files) returns (values: map<string, string>)
    requires CleanPaths(fs)
    ensures IsSnapshot(fs, values)
  {
    hide Classify, Ini, IniKey, FileKey, IniPath, SharedFile;
    values := CollectIni(fs, OPENPANEL, map[]);
    ghost var first := values;
    values := CollectIni(fs, ADMIN, values);
    ghost var second := values;
    values := CollectFiles(fs, values);
    forall key, value | Entry(fs, key, value)
      ensures key in values
    {
      if s :| SharedCell(fs, s, key, value) {
        assert HasSettings(fs, first, OPENPANEL, Ini(fs, OPENPANEL).Keys);
        assert s.section in Ini(fs, s.file).Keys;
      } else {
        var path :| SharedFile(fs, path, key, value);
      }
    }
  }

  // diff

  method ComputeDiff(local: map<string, string>, remote: map<string, string>, groups: seq<string>, pinned: seq<string>) returns (changes: seq<Change>)
    ensures changes == Diff(local, remote, groups, pinned)
  {
    hide Classify, Differs, IsLeast, StrictlySorted, DiffKeys;
    var differing := DifferingKeys(local, remote, groups);
    var sorted := SortStrings(differing);
    assert (set k | k in differing) == DiffKeys(local, remote, groups);
    assert forall k | k in sorted :: k in remote;
    changes := [];
    for n := 0 to |sorted|
      invariant |changes| == n && forall i | 0 <= i < n :: changes[i] == ChangeFor(local, remote, pinned, sorted[i])
    {
      var k := sorted[n];
      changes := changes + [Change(k, Classify(k), Get(local, k), remote[k], k in pinned)];
    }
    assert changes == ChangesFor(local, remote, pinned, sorted);
  }

  method DifferingKeys(local: map<string, string>, remote: map<string, string>, groups: seq<string>) returns (differing: seq<string>)
    ensures forall k :: k in differing <==> k in DiffKeys(local, remote, groups)
    ensures forall k | k in differing :: k in remote
    ensures forall i, j | 0 <= i < j < |differing| :: differing[i] != differing[j]
  {
    hide Classify, Get;
    var keys := RangeKeys(remote);
    differing := [];
    for n := 0 to |keys|
      invariant forall k :: k in differing <==> k in keys[..n] && Differs(local, remote, groups, k)
      invariant forall i, j | 0 <= i < j < |differing| :: differing[i] != differing[j]
    {
      var k := keys[n];
      assert keys[..n + 1] == keys[..n] + [k];
      assert k !in keys[..n];
      var group := Classify(k);
      if group == "" || group !in groups || Get(local, k) == remote[k] {
        continue;
      }
      differing := differing + [k];
    }
    assert keys[..|keys|] == keys;
  }

  // Facts for applyChanges

  lemma TouchedSnoc(changes: seq<Change>, n: nat)
    requires n < |changes|
    ensures Touched(changes[..n + 1]) == Touched(changes[..n]) + {PathOf(changes[n].key)}
  {
    hide PathOf;
    var all := changes[..n + 1];
    assert all[n] == changes[n];
    forall p | p in Touched(changes[..n])
      ensures p in Touched(all)
    {
      var i :| 0 <= i < n && p == PathOf(changes[..n][i].key);
      assert all[i] == changes[..n][i];
    }
    forall p | p in Touched(all)
      ensures p in Touched(changes[..n]) + {PathOf(changes[n].key)}
    {
      var i :| 0 <= i < n + 1 && p == PathOf(all[i].key);
      if i < n {
        assert changes[..n][i] == all[i];
      }
    }
  }

  lemma WriteStays(fs: Files, paths: set<string>, fs': Files, path: string, text: string)
    requires WritesOnly(fs, paths, fs') && path in paths
    ensures WritesOnly(fs, paths, fs'[path := text])
  {
  }

  /** Saving one more loaded file. */
  lemma SaveStep(base: Files, loaded: map<string, Sections>, file: string, data: Sections)
    requires IsIniFile(file) && file !in loaded
    ensures SaveAll(Work(base, loaded[file := data])) == SaveAll(Work(base, loaded))[IniPath(file) := Print(data)]
  {
    hide IniPath, Print;
    IniPathsDiffer();
  }

  lemma ApplyAllSnoc(w: Work, changes: seq<Change>, n: nat)
    requires n < |changes|
    ensures ApplyAll(w, changes[..n + 1]) == ApplyOne(ApplyAll(w, changes[..n]), changes[n])
  {
    hide ApplyOne;
    assert changes[..n + 1][..n] == changes[..n];
  }

  lemma {:induction false} UnpinnedFrom(cs: seq<Change>)
    ensures AllClassified(cs) ==> AllClassified(Unpinned(cs))
    ensures |Unpinned(cs)| <= |cs|
    decreases |cs|
  {
    hide Classify;
    if cs != [] {
      var n := |cs| - 1;
      UnpinnedFrom(cs[..n]);
      if AllClassified(cs) {
        assert AllClassified(cs[..n]);
        NewsSnoc(Unpinned(cs[..n]), cs[n]);
      }
    }
  }

  lemma DiffIsClassified(local: map<string, string>, remote: map<string, string>, groups: seq<string>, pinned: seq<string>)
    ensures AllClassified(Diff(local, remote, groups, pinned))
  {
    hide Classify;
    var ks := Sorted(DiffKeys(local, remote, groups));
    forall i | 0 <= i < |ks|
      ensures Classify(Diff(local, remote, groups, pinned)[i].key) != ""
    {
      assert ks[i] in ks;
    }
  }

  /** The check that no change is outside the allow list, and the paths to back up. */
  method TouchedPaths(changes: seq<Change>) returns (ok: bool, paths: seq<string>)
    ensures ok == AllClassified(changes)
    ensures ok ==> (set p | p in paths) == Touched(changes) && AllMayTouch(Touched(changes))
  {
    hide Classify, PathOf, MayTouch, Touched;
    var touched: map<string, bool> := map[];
    NothingTouched();
    for n := 0 to |changes|
      invariant forall m | 0 <= m < n :: Classify(changes[m].key) != ""
      invariant touched.Keys == Touched(changes[..n])
      invariant AllMayTouch(touched.Keys)
    {
      if Classify(changes[n].key) == "" {
        return false, [];
      }
      TouchedSnoc(changes, n);
      ClassifiedMayTouch(changes[n].key);
      touched := touched[PathOf(changes[n].key) := true];
    }
    assert changes[..|changes|] == changes;
    paths := RangeKeys(touched);
    ok := true;
  }

  lemma NothingTouched()
    ensures Touched([]) == {}
  {
  }

  // The slave

  class Slave {
    var files: Files
    var backups: seq<Backup>
    var groups: seq<string>
    var pinned: seq<string>
    var lastRev: string
    var follows: bool

    /** Copies every file a sync touches and lists the ones that do not exist. */
    method BackUp(paths: seq<string>)
      modifies this`backups
      ensures backups == NewestOf(old(backups) + [BackupOf(files, set p | p in paths)])
    {
      var copied: Files := map[];
      var missing: set<string> := {};
      for n := 0 to |paths|
        invariant Backup(copied, missing) == BackupOf(files, set p | p in paths[..n])
      {
        assert paths[..n + 1] == paths[..n] + [paths[n]];
        if paths[n] !in files {
          missing := missing + {paths[n]};
        } else {
          copied := copied[paths[n] := files[paths[n]]];
        }
      }
      assert paths[..|paths|] == paths;
      backups := backups + [Backup(copied, missing)];
      if |backups| > KEEP_BACKUP {
        backups := backups[|backups| - KEEP_BACKUP..];
      }
    }

    /** Restores the newest backup. */
    method RollBack() returns (ok: bool)
      modifies this`files, this`backups, this`lastRev
      ensures ok == (old(backups) != [])
      ensures !ok ==> files == old(files) && backups == old(backups) && lastRev == old(lastRev)
      ensures ok ==> Store(files, backups) == Undo.Step(Store(old(files), old(backups)), Rollback) && lastRev == ""
    {
      if backups == [] {
        return false;
      }
      var latest := backups[|backups| - 1];
      CopyBack(latest.files);
      RemoveCreated(latest);
      backups := backups[..|backups| - 1];
      lastRev := "";
      ok := true;
    }

    method CopyBack(copies: Files)
      modifies this`files
      ensures files == old(files) + copies
    {
      ghost var before := files;
      var saved := RangeKeys(copies);
      for n := 0 to |saved|
        invariant files == before + Restrict(copies, saved[..n])
      {
        RestrictSnoc(copies, saved, n);
        AddOne(before, Restrict(copies, saved[..n]), saved[n], copies[saved[n]]);
        files := files[saved[n] := copies[saved[n]]];
      }
      assert saved[..|saved|] == saved;
      assert Restrict(copies, saved) == copies;
    }

    method RemoveCreated(latest: Backup)
      modifies this`files
      ensures files == old(files) - Removable(latest)
    {
      hide Classify, FileKey;
      var rest := latest.missing;
      while rest != {}
        invariant rest <= latest.missing
        invariant files == old(files) - (set p | p in latest.missing - rest && Classify(FileKey(p)) != "")
        decreases rest
      {
        var p :| p in rest;
        if Classify(FileKey(p)) != "" {
          files := files - {p};
        }
        rest := rest - {p};
      }
    }

    /** Backs up, writes the changed files and saves the changed INI files. limit is the
        number of writes that succeed before one fails. */
    method ApplyChanges(changes: seq<Change>, limit: nat) returns (r: ApplyResult)
      modifies this`files, this`backups
      ensures r == Refused <==> !AllClassified(changes)
      ensures r == Refused ==> files == old(files) && backups == old(backups)
      ensures r != Refused ==>
                && AllMayTouch(Touched(changes)) && WritesOnly(old(files), Touched(changes), files)
                && backups == NewestOf(old(backups) + [BackupOf(old(files), Touched(changes))])
      ensures r == Done ==> files == Applied(old(files), changes)
      ensures limit >= |changes| + 2 ==> r != WriteFailed
    {
      hide Classify, PathOf, MayTouch, ApplyOne, Applied, Touched, AllClassified, WritesOnly, BackupOf;
      var ok, paths := TouchedPaths(changes);
      if !ok {
        return Refused;
      }
      BackUp(paths);
      r := WriteChanges(changes, limit);
    }

    method WriteChanges(changes: seq<Change>, limit: nat) returns (r: ApplyResult)
      requires AllClassified(changes)
      modifies this`files
      ensures r != Refused && WritesOnly(old(files), Touched(changes), files)
      ensures r == Done ==> files == Applied(old(files), changes)
      ensures limit >= |changes| + 2 ==> r == Done
    {
      hide Classify, SplitKey, Ini, IniPath, IsIniFile, View, With, Print, IsLeast;
      ghost var paths, start := Touched(changes), Work(files, map[]);
      var loaded: map<string, Sections> := map[];
      var left: nat := limit;
      for n := 0 to |changes|
        invariant Work(files, loaded) == ApplyAll(start, changes[..n])
        invariant WritesOnly(start.files, paths, files)
        invariant forall f | f in loaded :: IsIniFile(f) && IniPath(f) in paths
        invariant left >= limit - n
      {
        var c := changes[n];
        ghost var w := Work(files, loaded);
        ApplyAllSnoc(start, changes, n);
        assert PathOf(c.key) in paths;
        if FILE_PREFIX <= c.key {
          if left == 0 {
            return WriteFailed;
          }
          left := left - 1;
          WriteStays(start.files, paths, files, c.key[|FILE_PREFIX|..], c.now);
          files := files[c.key[|FILE_PREFIX|..] := c.now];
          continue;
        }
        ClassifiedIni(c.key);
        var s := SplitKey(c.key).value;
        var data := LoadOnce(loaded, s.file);
        data.Set(s.section, s.key, c.now);
        loaded := loaded[s.file := data.sections];
      }
      assert changes[..|changes|] == changes;
      r := SaveLoaded(loaded, left, paths);
      assert WritesOnly(start.files, paths, files) by {
        WritesTwice(start.files, paths, ApplyAll(start, changes).files, files);
      }
      AtMostTwo(loaded.Keys);
    }

    /** The INI file a change is for, read from disk the first time it is needed. */
    method LoadOnce(loaded: map<string, Sections>, file: string) returns (data: Data)
      ensures fresh(data) && data.sections == View(Work(files, loaded), file)
    {
      if file !in loaded {
        data := Load(if IniPath(file) in files then Some(files[IniPath(file)]) else None);
      } else {
        data := new Data(loaded[file]);
      }
    }

    method SaveLoaded(loaded: map<string, Sections>, limit: nat, ghost paths: set<string>) returns (r: ApplyResult)
      requires forall f | f in loaded :: IsIniFile(f) && IniPath(f) in paths
      modifies this`files
      ensures r != Refused && WritesOnly(old(files), paths, files)
      ensures r == Done ==> files == SaveAll(Work(old(files), loaded))
      ensures limit >= |loaded| ==> r == Done
    {
      hide Print, IniPath, IsIniFile, SaveAll, WritesOnly;
      var names := RangeKeys(loaded);
      ghost var base := files;
      NothingToSave(base, paths);
      SizeOf(loaded, names);
      assert Restrict(loaded, names[..0]) == map[];
      for n := 0 to |names|
        invariant files == SaveAll(Work(base, Restrict(loaded, names[..n])))
        invariant WritesOnly(base, paths, files)
      {
        var f := names[n];
        if n >= limit {
          return WriteFailed;
        }
        var data := new Data(loaded[f]);
        var text := Save(data);
        RestrictSnoc(loaded, names, n);
        WriteStays(base, paths, files, IniPath(f), text);
        SaveStep(base, Restrict(loaded, names[..n]), f, loaded[f]);
        files := files[IniPath(f) := text];
      }
      assert names[..|names|] == names;
      assert Restrict(loaded, names) == loaded;
      r := Done;
    }

    /** One sync. remote is the master's answer, None when it could not be had. local is
        the snapshot of this server that the sync compared it with. */
    method Pull(chosen: seq<string>, remote: Option<Snapshot>, limit: nat) returns (r: SyncResult, ghost local: map<string, string>)
      requires CleanPaths(files)
      modifies this`files, this`backups, this`lastRev
      ensures remote.None? <==> r == Unreachable
      ensures r == Unreachable ==> files == old(files) && backups == old(backups)
      ensures !r.Synced? ==> lastRev == old(lastRev)
      ensures remote.Some? ==> IsSnapshot(old(files), local)
      ensures remote.Some? ==>
                var gs := if chosen == [] then groups else chosen;
                var changes := Diff(local, remote.value.values, gs, pinned);
                && (r.Synced? ==>
                      && files == Pulled(old(files), local, remote.value.values, gs, pinned)
                      && lastRev == remote.value.rev
                      && r.applied == |Unpinned(changes)| && r.applied + r.skipped == |changes|)
                && WritesOnly(old(files), Touched(Unpinned(changes)), files)
                && backups == BackedUp(old(backups), old(files), Unpinned(changes))
                && (limit >= |changes| + 2 ==> r.Synced?)
    {
      hide Classify, Diff, Applied, Touched, IsSnapshot, WritesOnly, BackupOf, NewestOf;
      local := map[];
      var gs := if chosen == [] then groups else chosen;
      if remote.None? {
        return Unreachable, local;
      }
      var found := BuildSnapshot(files);
      local := found;
      var changes := ComputeDiff(found, remote.value.values, gs, pinned);
      var toApply, skipped := [], 0;
      for n := 0 to |changes|
        invariant toApply == Unpinned(changes[..n]) && |toApply| + skipped == n
      {
        assert changes[..n + 1][..n] == changes[..n];
        if changes[n].pinned {
          skipped := skipped + 1;
        } else {
          toApply := toApply + [changes[n]];
        }
      }
      assert changes[..|changes|] == changes;
      DiffIsClassified(found, remote.value.values, gs, pinned);
      UnpinnedFrom(changes);
      NoChanges(files);
      if |toApply| > 0 {
        var applied := ApplyChanges(toApply, limit);
        if applied != Done {
          return Failed, local;
        }
      }
      lastRev := remote.value.rev;
      r := Synced(|toApply|, skipped);
    }

    /** One round of the loop of a slave at the time now. first is the answer the round
        compares revisions with, second the one its sync fetches again. With a
        collision-free hash a round that is due syncs exactly when the master's first
        values are not the ones last applied, where nothing counts as applied at the
        start and after a rollback; what it then applies are the second values. */
    method FollowTick(now: int, lastFollow: Option<int>, first: Option<Snapshot>, second: Option<Snapshot>, limit: nat,
                      ghost applied: Option<map<string, string>>, ghost hash: string -> string)
      returns (pulled: bool, nextFollow: Option<int>, ghost nowApplied: Option<map<string, string>>)
      requires CleanPaths(files)
      requires Collisionless(hash) && TracksApplied(lastRev, applied, hash)
      requires Stamped(first, hash) && Stamped(second, hash)
      modifies this`files, this`backups, this`lastRev
      ensures nextFollow == if follows && (lastFollow.None? || now - lastFollow.value >= 5 * 60 * 1_000_000_000) then Some(now) else lastFollow
      ensures pulled <==>
                && follows && (lastFollow.None? || now - lastFollow.value >= 5 * 60 * 1_000_000_000)
                && first.Some? && applied != Some(first.value.values)
      ensures !pulled ==> files == old(files) && backups == old(backups) && nowApplied == applied
      ensures nowApplied == applied || (pulled && second.Some? && nowApplied == Some(second.value.values))
      ensures TracksApplied(lastRev, nowApplied, hash)
      ensures pulled && second.Some? && limit >= |second.value.values| + 2 ==> nowApplied == Some(second.value.values)
    {
      hide HashInput, NulFree, Classify, Pulled, Diff, Touched, WritesOnly, BackedUp;
      pulled, nextFollow, nowApplied := false, lastFollow, applied;
      if follows && IsDue(now, lastFollow) {
        nextFollow := Some(now);
        if first.Some? {
          RevisionMoved(lastRev, applied, hash, first.value.values);
        }
        pulled := first.Some? && first.value.rev != lastRev;
        if pulled {
          var r, local := Pull([], second, limit);
          if r.Synced? {
            nowApplied := Some(second.value.values);
          } else if second.Some? {
            DiffSize(local, second.value.values, groups, pinned);
          }
        }
      }
    }
  }

  /** An apply first backs up all it may write; without changes nothing is applied. */
  ghost function BackedUp(backups: seq<Backup>, fs: Files, changes: seq<Change>): seq<Backup> {
    if changes == [] then backups else NewestOf(backups + [BackupOf(fs, Touched(changes))])
  }

  /** The newest backup has the content of every file an apply may write and lists the
      paths without one; at most nine older ones stay. */
  lemma NewestBackup(backups: seq<Backup>, fs: Files, changes: seq<Change>)
    ensures var all := BackedUp(backups, fs, changes);
            && (changes == [] ==> all == backups)
            && (changes != [] ==>
                  && all != []
                  && (forall p :: p in all[|all| - 1].files <==> p in Touched(changes) && p in fs)
                  && (forall p | p in all[|all| - 1].files :: p in fs && all[|all| - 1].files[p] == fs[p])
                  && (forall p :: p in all[|all| - 1].missing <==> p in Touched(changes) && p !in fs)
                  && all[..|all| - 1] == backups[if |backups| > 9 then |backups| - 9 else 0..])
  {
    hide Touched;
  }

  lemma NoChanges(fs: Files)
    ensures Applied(fs, []) == fs
    ensures WritesOnly(fs, Touched([]), fs)
  {
  }

  lemma NothingToSave(base: Files, paths: set<string>)
    ensures SaveAll(Work(base, map[])) == base
    ensures WritesOnly(base, paths, base)
  {
  }

  lemma AddOne(a: Files, b: Files, k: string, v: string)
    ensures (a + b)[k := v] == a + b[k := v]
  {
  }

  lemma RestrictSnoc<V>(m: map<string, V>, ks: seq<string>, n: nat)
    requires n < |ks| && ks[n] in m
    requires forall i, j | 0 <= i < j < |ks| :: ks[i] != ks[j]
    ensures Restrict(m, ks[..n + 1]) == Restrict(m, ks[..n])[ks[n] := m[ks[n]]]
    ensures ks[n] !in Restrict(m, ks[..n])
  {
    assert ks[..n + 1] == ks[..n] + [ks[n]];
  }

  lemma WritesTwice(fs: Files, paths: set<string>, mid: Files, fs': Files)
    requires WritesOnly(fs, paths, mid) && WritesOnly(mid, paths, fs')
    ensures WritesOnly(fs, paths, fs')
  {
  }

  lemma AtMostTwo(names: set<string>)
    requires forall f | f in names :: IsIniFile(f)
    ensures |names| <= 2
  {
    assert names <= {OPENPANEL, ADMIN};
    CardinalityMonotone(names, {OPENPANEL, ADMIN});
  }

  lemma {:induction false} CardinalityMonotone<T>(a: set<T>, b: set<T>)
    requires a <= b
    ensures |a| <= |b|
    decreases |a|
  {
    if a != {} {
      var x :| x in a;
      CardinalityMonotone(a - {x}, b - {x});
    }
  }

  lemma {:induction false} SizeOf<V>(m: map<string, V>, names: seq<string>)
    requires forall k :: k in names <==> k in m
    requires forall i, j | 0 <= i < j < |names| :: names[i] != names[j]
    ensures |names| == |m|
    decreases |names|
  {
    if names == [] {
      assert m == map[];
    } else {
      var k, rest := names[0], names[1..];
      var m' := m - {k};
      assert forall x :: x in rest <==> x in m';
      SizeOf(m', rest);
      assert m'.Keys == m.Keys - {k};
    }
  }

  // The follow loop

  /** Five minutes, in nanoseconds. */
  const FOLLOW_POLL := 300_000_000_000

  predicate IsDue(now: int, lastFollow: Option<int>) {
    lastFollow.None? || now - lastFollow.value >= FOLLOW_POLL
  }

  /** An answer of the master carries the revision of its values. */
  ghost predicate Stamped(answer: Option<Snapshot>, hash: string -> string) {
    answer.Some? ==> NulFree(answer.value.values) && answer.value.rev == hash(HashInput(answer.value.values))
  }

  ghost predicate Collisionless(hash: string -> string) {
    (forall x, y | hash(x) == hash(y) :: x == y) && (forall x :: hash(x) != "")
  }

  /** The saved revision is empty or the revision of the values last applied. */
  ghost predicate TracksApplied(lastRev: string, applied: Option<map<string, string>>, hash: string -> string) {
    && lastRev == (if applied.None? then "" else hash(HashInput(applied.value)))
    && (applied.Some? ==> NulFree(applied.value))
  }

  lemma RevisionMoved(lastRev: string, applied: Option<map<string, string>>, hash: string -> string, master: map<string, string>)
    requires Collisionless(hash) && TracksApplied(lastRev, applied, hash) && NulFree(master)
    ensures hash(HashInput(master)) != lastRev <==> applied != Some(master)
  {
    hide HashInput, NulFree;
    if applied.Some? {
      HashInputIsCanonical(applied.value, master);
    }
  }

  lemma DiffSize(local: map<string, string>, remote: map<string, string>, groups: seq<string>, pinned: seq<string>)
    ensures |Diff(local, remote, groups, pinned)| <= |remote|
  {
    hide Differs;
    var keys := DiffKeys(local, remote, groups);
    SortedSize(keys);
    CardinalityMonotone(keys, remote.Keys);
  }

  lemma {:induction false} SortedSize(keys: set<string>)
    ensures |Sorted(keys)| == |keys|
    decreases |keys|
  {
    if keys != {} {
      SortedSize(keys - {Least(keys)});
    }
  }
}
