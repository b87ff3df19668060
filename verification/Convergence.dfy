/** When a second sync against the same master snapshot has nothing left to do. */
module Convergence {
  import opened Text
  import opened Ordering
  import opened Config
  import opened Settings
  import opened Pull

  /** After the sync every snapshot of this server differs from the master's only in
      pinned keys. */
  ghost predicate Converged(fs: Files, remote: map<string, string>, groups: seq<string>, pinned: seq<string>) {
    forall local | IsSnapshot(fs, local) :: forall k | k in DiffKeys(local, remote, groups) :: k in pinned
  }

  /** Every setting stored under a key the sync looks at already has the master's value
      or is the very setting the sync will write. */
  ghost predicate Settled(fs: Files, local: map<string, string>, remote: map<string, string>, groups: seq<string>, pinned: seq<string>) {
    forall s, key, value | SharedCell(fs, s, key, value) && key in remote && Wanted(key, groups) && key !in pinned ::
      value == remote[key] || ('.' !in s.section && Get(local, key) != remote[key])
  }

  /** No section name of a server's INI files has a dot. */
  ghost predicate NoDottedSections(fs: Files) {
    forall file, section | IsIniFile(file) && section in Ini(fs, file) :: '.' !in section
  }

  // A key that was written or was already right is right afterwards

  lemma FileKeyConverges(fs: Files, local: map<string, string>, remote: map<string, string>, groups: seq<string>, pinned: seq<string>, local': map<string, string>, key: string)
    requires NewsDeliverable(PulledNews(local, remote, groups, pinned)) && IsSnapshot(fs, local)
    requires IsSnapshot(Pulled(fs, local, remote, groups, pinned), local')
    requires key in remote && Wanted(key, groups) && key !in pinned && FILE_PREFIX <= key
    ensures Get(local', key) == remote[key]
  {
    hide Classify, Pulled, NewCell, Cell, IniKey, IsIniFile;
    var fs' := Pulled(fs, local, remote, groups, pinned);
    var path := key[|FILE_PREFIX|..];
    assert FileKey(path) == key;
    PullEffect(fs, local, remote, groups, pinned);
    DeliverableIsStorable(PulledNews(local, remote, groups, pinned));
    IniPathNotClassified(path, key);
    if key in PulledNews(local, remote, groups, pinned) {
      assert SharedFile(fs', path, key, remote[key]);
      FileEntry(fs', path, key, local');
    } else {
      assert path in fs <==> path in fs';
      FileEntry(fs, path, key, local);
      FileEntry(fs', path, key, local');
    }
  }

  /** The snapshot value of a shared file. */
  lemma FileEntry(fs: Files, path: string, key: string, values: map<string, string>)
    requires key == FileKey(path) && Classify(key) != "" && IsSnapshot(fs, values)
    ensures key in values <==> path in fs && |fs[path]| <= MAX_FILE
    ensures key in values ==> values[key] == fs[path]
  {
    hide Classify, Cell, IniKey, IsIniFile;
    FileKeyParts(path);
    if path in fs && |fs[path]| <= MAX_FILE {
      assert SharedFile(fs, path, key, fs[path]);
      assert Entry(fs, key, fs[path]);
    }
    if key in values {
      assert Entry(fs, key, values[key]);
      if s :| SharedCell(fs, s, key, values[key]) {
        IniKeyIsNoFileKey(s);
        assert false;
      } else {
        var p :| SharedFile(fs, p, key, values[key]);
        FileKeyParts(p);
      }
    }
  }

  /** The snapshot value under the key of an INI setting is the value of some setting
      with that key. */
  lemma IniEntry(fs: Files, key: string, values: map<string, string>) returns (s: Setting)
    requires !(FILE_PREFIX <= key) && IsSnapshot(fs, values) && key in values
    ensures SharedCell(fs, s, key, values[key])
  {
    hide Classify, Cell, IniKey, IsIniFile;
    assert Entry(fs, key, values[key]);
    forall path
      ensures !SharedFile(fs, path, key, values[key])
    {
      FileKeyParts(path);
    }
    s :| SharedCell(fs, s, key, values[key]);
  }

  lemma IniKeyConverges(fs: Files, local: map<string, string>, remote: map<string, string>, groups: seq<string>, pinned: seq<string>, local': map<string, string>, key: string)
    requires NewsDeliverable(PulledNews(local, remote, groups, pinned)) && IsSnapshot(fs, local)
    requires Settled(fs, local, remote, groups, pinned)
    requires IsSnapshot(Pulled(fs, local, remote, groups, pinned), local')
    requires key in remote && Wanted(key, groups) && key !in pinned && !(FILE_PREFIX <= key)
    ensures Get(local', key) == remote[key]
  {
    hide Classify, Pulled, Cell, IniKey, IsIniFile, FilesAgree, IsSnapshot, NewsDeliverable;
    var fs' := Pulled(fs, local, remote, groups, pinned);
    PullEffect(fs, local, remote, groups, pinned);
    DeliverableIsStorable(PulledNews(local, remote, groups, pinned));
    if key in PulledNews(local, remote, groups, pinned) || key in local {
      StillPresent(fs, local, remote, groups, pinned, local', key);
    }
    if key in local' {
      var s := IniEntry(fs', key, local');
      if !(key in PulledNews(local, remote, groups, pinned) && '.' !in s.section) {
        assert SharedCell(fs, s, key, local'[key]);
      }
    }
  }

  /** A key that was written or reported before is reported after the sync. */
  lemma StillPresent(fs: Files, local: map<string, string>, remote: map<string, string>, groups: seq<string>, pinned: seq<string>, local': map<string, string>, key: string)
    requires NewsDeliverable(PulledNews(local, remote, groups, pinned)) && IsSnapshot(fs, local)
    requires IsSnapshot(Pulled(fs, local, remote, groups, pinned), local')
    requires key in remote && Wanted(key, groups) && !(FILE_PREFIX <= key)
    requires key in PulledNews(local, remote, groups, pinned) || key in local
    ensures key in local'
  {
    hide Classify, Pulled, Cell, IniKey, IsIniFile, FilesAgree, SplitKey, NewsDeliverable;
    var fs' := Pulled(fs, local, remote, groups, pinned);
    PullEffect(fs, local, remote, groups, pinned);
    DeliverableIsStorable(PulledNews(local, remote, groups, pinned));
    if key in PulledNews(local, remote, groups, pinned) {
      ClassifiedIni(key);
      IniKeyOfSplit(key);
      assert SharedCell(fs', SplitKey(key).value, key, remote[key]);
      assert Entry(fs', key, remote[key]);
    } else {
      var s := IniEntry(fs, key, local);
      assert SharedCell(fs', s, key, local[key]);
      assert Entry(fs', key, local[key]);
    }
  }

  lemma SettledConverges(fs: Files, local: map<string, string>, remote: map<string, string>, groups: seq<string>, pinned: seq<string>)
    requires NewsDeliverable(PulledNews(local, remote, groups, pinned)) && IsSnapshot(fs, local)
    requires Settled(fs, local, remote, groups, pinned)
    ensures Converged(Pulled(fs, local, remote, groups, pinned), remote, groups, pinned)
  {
    hide Classify, Pulled, IsSnapshot, Settled, NewsDeliverable, PulledNews, Get;
    var fs' := Pulled(fs, local, remote, groups, pinned);
    forall local', k | IsSnapshot(fs', local') && k in DiffKeys(local', remote, groups)
      ensures k in pinned
    {
      if k !in pinned {
        if FILE_PREFIX <= k {
          FileKeyConverges(fs, local, remote, groups, pinned, local', k);
        } else {
          IniKeyConverges(fs, local, remote, groups, pinned, local', k);
        }
        assert false;
      }
    }
  }

  // An unsettled key shows up again

  ghost function IniSettings(fs: Files): set<Setting> {
    set file, section, k |
      file in {OPENPANEL, ADMIN} && section in Ini(fs, file) && k in Ini(fs, file)[section] :: Setting(file, section, k)
  }

  ghost function EntryKeys(fs: Files): set<string> {
    (set s | s in IniSettings(fs) && Classify(IniKey(s)) != "" :: IniKey(s))
    + (set path | path in fs && Classify(FileKey(path)) != "" && |fs[path]| <= MAX_FILE :: FileKey(path))
  }

  lemma EntryKeysAre(fs: Files, key: string)
    ensures key in EntryKeys(fs) <==> exists value :: Entry(fs, key, value)
  {
    hide Classify, Ini, IniKey, FileKey;
    if key in EntryKeys(fs) {
      if s :| s in IniSettings(fs) && Classify(IniKey(s)) != "" && key == IniKey(s) {
        var value := Ini(fs, s.file)[s.section][s.key];
        assert SharedCell(fs, s, key, value);
        assert Entry(fs, key, value);
      } else {
        var path :| path in fs && Classify(FileKey(path)) != "" && |fs[path]| <= MAX_FILE && key == FileKey(path);
        assert SharedFile(fs, path, key, fs[path]);
        assert Entry(fs, key, fs[path]);
      }
    }
    if value :| Entry(fs, key, value) {
      if s :| SharedCell(fs, s, key, value) {
        assert s in IniSettings(fs);
      } else {
        var path :| SharedFile(fs, path, key, value);
      }
    }
  }

  /** Some iteration order makes a snapshot report a given value. */
  lemma SnapshotWith(fs: Files, key: string, value: string) returns (values: map<string, string>)
    requires Entry(fs, key, value)
    ensures IsSnapshot(fs, values) && key in values && values[key] == value
  {
    hide Classify, Ini, IniKey, FileKey, Entry, EntryKeys;
    forall k
      ensures k in EntryKeys(fs) <==> exists v :: Entry(fs, k, v)
    {
      EntryKeysAre(fs, k);
    }
    values := map k | k in EntryKeys(fs) :: if k == key then value else (var v :| Entry(fs, k, v); v);
  }

  lemma UnsettledReturns(fs: Files, local: map<string, string>, remote: map<string, string>, groups: seq<string>, pinned: seq<string>)
    requires NewsDeliverable(PulledNews(local, remote, groups, pinned)) && IsSnapshot(fs, local)
    requires !Settled(fs, local, remote, groups, pinned)
    ensures !Converged(Pulled(fs, local, remote, groups, pinned), remote, groups, pinned)
  {
    hide Classify, Pulled, Cell, IniKey, IsIniFile, FilesAgree, IsSnapshot, NewsDeliverable;
    var fs' := Pulled(fs, local, remote, groups, pinned);
    PullEffect(fs, local, remote, groups, pinned);
    DeliverableIsStorable(PulledNews(local, remote, groups, pinned));
    var s, key, value :| SharedCell(fs, s, key, value) && key in remote && Wanted(key, groups) && key !in pinned
      && value != remote[key] && ('.' in s.section || Get(local, key) == remote[key]);
    assert SharedCell(fs', s, key, value);
    assert Entry(fs', key, value);
    var local' := SnapshotWith(fs', key, value);
    assert key in DiffKeys(local', remote, groups);
  }

  /** A second sync finds nothing but pinned keys exactly when every setting the sync
      looks at was settled. */
  lemma ConvergesExactlyWhenSettled(fs: Files, local: map<string, string>, remote: map<string, string>, groups: seq<string>, pinned: seq<string>)
    requires NewsDeliverable(PulledNews(local, remote, groups, pinned)) && IsSnapshot(fs, local)
    ensures Converged(Pulled(fs, local, remote, groups, pinned), remote, groups, pinned)
            <==> Settled(fs, local, remote, groups, pinned)
  {
    hide Settled, Converged, Pulled, IsSnapshot, NewsDeliverable, PulledNews;
    if Settled(fs, local, remote, groups, pinned) {
      SettledConverges(fs, local, remote, groups, pinned);
    } else {
      UnsettledReturns(fs, local, remote, groups, pinned);
    }
  }

  // Servers without dotted section names

  /** A snapshot of such a master can be written and read back on any slave. */
  lemma SnapshotIsDeliverable(fs: Files, values: map<string, string>)
    requires NoDottedSections(fs) && IsSnapshot(fs, values)
    ensures Deliverable(values)
  {
    hide Classify, ParseFile, Loadable, EntryOk, SectionOk, IniPath, IniKey, IsSnapshot, SplitKey;
    forall key | key in values && Classify(key) != ""
      ensures DeliverableValue(key, values[key])
    {
      if FILE_PREFIX <= key {
        assert FileKey(key[|FILE_PREFIX|..]) == key;
        FileEntry(fs, key[|FILE_PREFIX|..], key, values);
      } else {
        var s := IniEntry(fs, key, values);
        SplitOfIniKey(s);
        CellIsDeliverable(fs, s);
      }
    }
  }

  lemma DeliverableNews(local: map<string, string>, remote: map<string, string>, groups: seq<string>, pinned: seq<string>)
    requires Deliverable(remote)
    ensures NewsDeliverable(PulledNews(local, remote, groups, pinned))
  {
    hide Classify, DeliverableValue;
  }

  lemma UndottedIsSettled(fs: Files, local: map<string, string>, remote: map<string, string>, groups: seq<string>, pinned: seq<string>)
    requires NoDottedSections(fs) && IsSnapshot(fs, local)
    ensures Settled(fs, local, remote, groups, pinned)
  {
    hide Classify, Ini, IniKey, IsSnapshot;
    forall s, key, value | SharedCell(fs, s, key, value) && key in remote && Wanted(key, groups) && key !in pinned
      ensures value == remote[key] || ('.' !in s.section && Get(local, key) != remote[key])
    {
      if Get(local, key) == remote[key] {
        SnapshotHasCell(fs, local, s, key, value);
      }
    }
  }

  lemma SnapshotHasCell(fs: Files, local: map<string, string>, s: Setting, key: string, value: string)
    requires NoDottedSections(fs) && IsSnapshot(fs, local) && SharedCell(fs, s, key, value)
    ensures key in local && local[key] == value
  {
    hide Classify, Ini, IniKey, IsIniFile;
    assert Entry(fs, key, value);
    IniKeyIsNoFileKey(s);
    var t := IniEntry(fs, key, local);
    IniKeyInjective(s, t);
  }

  /** Between two servers whose section names have no dot, one sync is enough. */
  lemma PullConverges(master: Files, remote: map<string, string>, fs: Files, local: map<string, string>, groups: seq<string>, pinned: seq<string>)
    requires NoDottedSections(master) && IsSnapshot(master, remote)
    requires NoDottedSections(fs) && IsSnapshot(fs, local)
    ensures Converged(Pulled(fs, local, remote, groups, pinned), remote, groups, pinned)
  {
    hide Settled, Converged, Pulled, IsSnapshot, Deliverable, NoDottedSections;
    SnapshotIsDeliverable(master, remote);
    DeliverableNews(local, remote, groups, pinned);
    UndottedIsSettled(fs, local, remote, groups, pinned);
    SettledConverges(fs, local, remote, groups, pinned);
  }

  /** With a dotted section name it is not: the slave's [USERS.x] y and the master's
      [USERS] x.y travel under one key, so the old value can be reported again. */
  lemma DottedSectionReturns() returns (master: Files, remote: map<string, string>, fs: Files, local: map<string, string>)
    ensures IsSnapshot(master, remote) && NoDottedSections(master) && IsSnapshot(fs, local)
    ensures !Converged(Pulled(fs, local, remote, [GROUP_CORE], []), remote, [GROUP_CORE], [])
  {
    hide Deliverable, NewsDeliverable, PulledNews, IsSnapshot, Converged, Pulled, SharedCell, IniPath, IniKey, Parse, Print,
         Entry, Settled, NoDottedSections;
    var key := "openpanel:USERS.x.y";
    master := map[IniPath(OPENPANEL) := Print(map["USERS" := map["x.y" := "2"]])];
    PlainCell(master);
    remote := SnapshotWith(master, key, "2");
    SnapshotIsDeliverable(master, remote);
    fs := map[IniPath(OPENPANEL) := Print(map["USERS.x" := map["y" := "1"]])];
    DottedCell(fs);
    local := SnapshotWith(fs, key, "1");
    DeliverableNews(local, remote, [GROUP_CORE], []);
    DottedUnsettled(fs, local, remote);
    UnsettledReturns(fs, local, remote, [GROUP_CORE], []);
  }

  lemma PlainCell(master: Files)
    requires master == map[IniPath(OPENPANEL) := Print(map["USERS" := map["x.y" := "2"]])]
    ensures Entry(master, "openpanel:USERS.x.y", "2") && NoDottedSections(master)
  {
    hide IniPath, Classify, Parse, Print, IniKey, SplitKey;
    DottedKey();
    IniKeyOfSplit("openpanel:USERS.x.y");
    PlainFile();
    IniPathsDiffer();
    assert '.' !in "USERS";
    assert SharedCell(master, Setting(OPENPANEL, "USERS", "x.y"), "openpanel:USERS.x.y", "2");
  }

  lemma PlainFile()
    ensures Parse(Print(map["USERS" := map["x.y" := "2"]])) == map["USERS" := map["x.y" := "2"]]
  {
    hide Parse, Print;
    DottedEntry("x.y", "2");
    assert "x.y" in map["x.y" := "2"];
    assert EntriesOk(map["x.y" := "2"]);
    assert SectionOk("USERS");
    ParseOfPrint(map["USERS" := map["x.y" := "2"]]);
  }

  lemma DottedCell(fs: Files)
    requires fs == map[IniPath(OPENPANEL) := Print(map["USERS.x" := map["y" := "1"]])]
    ensures SharedCell(fs, Setting(OPENPANEL, "USERS.x", "y"), "openpanel:USERS.x.y", "1")
    ensures Entry(fs, "openpanel:USERS.x.y", "1")
  {
    hide IniPath, Classify, Parse, Print, IniKey, SplitKey;
    DottedKey();
    DottedFile();
  }

  lemma DottedKey()
    ensures SplitKey("openpanel:USERS.x.y") == Some(Setting(OPENPANEL, "USERS", "x.y"))
    ensures Classify("openpanel:USERS.x.y") == GROUP_CORE
    ensures IniKey(Setting(OPENPANEL, "USERS.x", "y")) == "openpanel:USERS.x.y"
    ensures !(FILE_PREFIX <= "openpanel:USERS.x.y")
  {
    hide SplitKey, NeverSynced, NameserverKey, CoreKey;
    var s := Setting(OPENPANEL, "USERS", "x.y");
    assert IniKey(s) == "openpanel:USERS.x.y";
    assert IniKey(Setting(OPENPANEL, "USERS.x", "y")) == "openpanel:USERS.x.y";
    SplitOfIniKey(s);
    assert CoreSection(OPENPANEL, "USERS");
    CoreSetting(s);
    IniKeyIsNoFileKey(s);
  }

  lemma CoreSetting(s: Setting)
    requires Undotted(s) && CoreSection(s.file, s.section)
    requires s.section != "SMTP" && s.section != "DEFAULT"
    ensures Classify(IniKey(s)) == GROUP_CORE
  {
    hide SplitKey, CoreKey, CoreSection, IniKey;
    SplitOfIniKey(s);
    IniKeyIsNoFileKey(s);
  }

  lemma DottedFile()
    ensures Parse(Print(map["USERS.x" := map["y" := "1"]])) == map["USERS.x" := map["y" := "1"]]
  {
    hide Parse, Print;
    DottedEntry("y", "1");
    assert "y" in map["y" := "1"];
    assert EntriesOk(map["y" := "1"]);
    assert SectionOk("USERS.x");
    ParseOfPrint(map["USERS.x" := map["y" := "1"]]);
  }

  lemma DottedEntry(k: string, v: string)
    requires k in {"y", "x.y"} && v in {"1", "2"}
    ensures EntryOk(k, v)
  {
    assert '=' !in k && '\n' !in k && '\n' !in v;
  }

  lemma DottedUnsettled(fs: Files, local: map<string, string>, remote: map<string, string>)
    requires SharedCell(fs, Setting(OPENPANEL, "USERS.x", "y"), "openpanel:USERS.x.y", "1")
    requires "openpanel:USERS.x.y" in remote && remote["openpanel:USERS.x.y"] == "2"
    ensures !Settled(fs, local, remote, [GROUP_CORE], [])
  {
    hide SplitKey, Classify, SharedCell;
    DottedKey();
    assert '.' in "USERS.x" by { assert "USERS.x"[5] == '.'; }
  }
}
