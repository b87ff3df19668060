/** Dotted sections whose settings a slave cannot store: one that never converges, and one
    that does although its value is lost. */
module UndeliveredCases {
  import opened Text
  import opened Ordering
  import opened Config
  import opened Settings
  import opened Pull
  import opened Convergence
  import opened Undelivered

  // Two masters with a dotted section

  /** The file of a server with one setting, and all that it reports. */
  function OneSetting(section: string, key: string, value: string): Sections {
    map[section := map[key := value]]
  }

  lemma OneSettingReads(section: string, key: string, value: string)
    requires SectionOk(section) && EntryOk(key, value)
    ensures Parse(Print(OneSetting(section, key, value))) == OneSetting(section, key, value)
  {
    hide SectionOk, EntryOk, Parse, Print;
    assert key in map[key := value];
    assert EntriesOk(map[key := value]);
    ParseOfPrint(OneSetting(section, key, value));
  }

  lemma OneSettingSnapshot(fs: Files, s: Setting, value: string)
    requires s.file == OPENPANEL && Classify(IniKey(s)) != ""
    requires fs.Keys == {IniPath(OPENPANEL)} && Ini(fs, OPENPANEL) == OneSetting(s.section, s.key, value)
    ensures IsSnapshot(fs, map[IniKey(s) := value])
  {
    hide Classify, Parse, IniPath, IniKey;
    IniPathsDiffer();
    assert SharedCell(fs, s, IniKey(s), value);
    assert Entry(fs, IniKey(s), value);
    forall key, v | Entry(fs, key, v)
      ensures key == IniKey(s)
    {
      if t :| SharedCell(fs, t, key, v) {
        assert t.file == OPENPANEL ==> t == s;
      } else {
        var path :| SharedFile(fs, path, key, v);
        FileKeyParts(path);
        IniPathNotClassified(path, key);
      }
    }
  }

  const SPACED := "openpanel:USERS. x.y"

  lemma UsersKey(k: string, name: string)
    requires k == OPENPANEL + ":" + "USERS" + "." + name
    ensures SplitKey(k) == Some(Setting(OPENPANEL, "USERS", name)) && Classify(k) == GROUP_CORE && !(FILE_PREFIX <= k)
  {
    hide SplitKey, Classify, IndexOf;
    var s := Setting(OPENPANEL, "USERS", name);
    assert '.' !in "USERS";
    assert IniKey(s) == k;
    SplitOfIniKey(s);
    assert CoreSection(OPENPANEL, "USERS");
    assert "USERS"[0] == 'U' && "SMTP"[0] == 'S' && "DEFAULT"[0] == 'D';
    CoreSetting(s);
    IniKeyIsNoFileKey(s);
  }

  lemma SpacedKey()
    ensures SplitKey(SPACED) == Some(Setting(OPENPANEL, "USERS", " x.y")) && Classify(SPACED) == GROUP_CORE && !(FILE_PREFIX <= SPACED)
    ensures IniKey(Setting(OPENPANEL, "USERS. x", "y")) == SPACED
  {
    hide SplitKey, Classify;
    assert SPACED == OPENPANEL + ":" + "USERS" + "." + " x.y";
    UsersKey(SPACED, " x.y");
  }

  lemma NoBracketNoHeader(line: string)
    requires '[' !in line
    ensures !IsHeader(TrimSpace(line))
  {
    hide TrimSpace;
    TrimKeepsOut(line, '[');
  }

  lemma SpacedLine()
    ensures !IsHeader(TrimSpace(" x.y=1")) && !EntryOk(" x.y", "1")
    ensures SectionOk("USERS. x") && EntryOk("y", "1")
  {
    hide TrimSpace, IsHeader;
    NoBracketNoHeader(" x.y=1");
    assert !Trimmed(" x.y") by { assert " x.y"[0] == ' '; }
    DottedEntry("y", "1");
  }

  /** A master's [USERS. x] y reaches a slave without settings as a line that reads back
      under another key, so the sync never ends. */
  lemma SpacedSectionReturns() returns (master: Files, remote: map<string, string>)
    ensures IsSnapshot(master, remote) && IsSnapshot(map[], map[]) && Settled(map[], map[], remote, [GROUP_CORE], [])
    ensures !Converged(Pulled(map[], map[], remote, [GROUP_CORE], []), remote, [GROUP_CORE], [])
  {
    hide SplitKey, Classify, IsSnapshot, Settled, Converged, Pulled, IniPath, IniKey, Parse, Print, EntryOk, IsHeader, TrimSpace, SectionOk;
    master := map[IniPath(OPENPANEL) := Print(OneSetting("USERS. x", "y", "1"))];
    remote := map[SPACED := "1"];
    SpacedKey();
    SpacedLine();
    OneSettingReads("USERS. x", "y", "1");
    OneSettingSnapshot(master, Setting(OPENPANEL, "USERS. x", "y"), "1");
    NothingReported();
    var news := PulledNews(map[], remote, [GROUP_CORE], []);
    assert SPACED in news;
    assert " x.y" + "=" + "1" == " x.y=1";
    NothingSettled(remote);
    UndeliverableReturns(map[], map[], remote, [GROUP_CORE], []);
  }

  lemma NothingReported()
    ensures IsSnapshot(map[], map[])
  {
  }

  lemma NothingSettled(remote: map<string, string>)
    ensures Settled(map[], map[], remote, [GROUP_CORE], [])
  {
    hide Classify, IniKey;
  }

  // A written header that does no harm

  const HELD := "openpanel:USERS.[a.b"

  lemma HeldKey()
    ensures SplitKey(HELD) == Some(Setting(OPENPANEL, "USERS", "[a.b")) && Classify(HELD) == GROUP_CORE && !(FILE_PREFIX <= HELD)
    ensures IniKey(Setting(OPENPANEL, "USERS.[a", "b")) == HELD
  {
    hide SplitKey, Classify;
    assert HELD == OPENPANEL + ":" + "USERS" + "." + "[a.b";
    UsersKey(HELD, "[a.b");
  }

  /** Two sections, the second of them dotted. */
  function TwoSections(value: string): Sections {
    OneSetting("USERS", "[a.b", value)["USERS.[a" := map["b" := "1]"]]
  }

  lemma HeldEntries()
    ensures SectionOk("USERS") && EntryOk("[a.b", "q")
    ensures SectionOk("USERS.[a") && EntryOk("b", "1]")
  {
    assert '=' !in "[a.b" && '\n' !in "[a.b" && '\n' !in "q" && '=' !in "b" && '\n' !in "b" && '\n' !in "1]";
  }

  lemma LocalReads()
    ensures Parse(Print(TwoSections("q"))) == TwoSections("q")
  {
    hide SectionOk, EntryOk, Parse, Print;
    HeldEntries();
    assert "[a.b" in map["[a.b" := "q"] && "b" in map["b" := "1]"];
    assert EntriesOk(map["[a.b" := "q"]) && EntriesOk(map["b" := "1]"]);
    ParseOfPrint(TwoSections("q"));
  }

  lemma SortedOne(k: string)
    ensures Sorted({k}) == [k]
  {
    assert StrictlySorted([k]);
    SortedIsUnique([k], Sorted({k}));
  }

  lemma SortedTwo(a: string, b: string)
    requires Less(a, b)
    ensures Sorted({a, b}) == [a, b]
  {
    LessIsStrict(a, b);
    SortedIsUnique([a, b], Sorted({a, b}));
  }

  /** The lines that are written: the second of them is a header. */
  lemma WrittenLines()
    ensures DataLines(TwoSections("1]"), Sorted(TwoSections("1]").Keys)) ==
            ["[USERS]", "[a.b=1]", ""] + SectionLines("USERS.[a", map["b" := "1]"])
  {
    hide SectionLines, Less;
    var d := TwoSections("1]");
    assert |"USERS"| != |"USERS.[a"|;
    assert d.Keys == {"USERS", "USERS.[a"};
    PrefixIsLess("USERS", ".[a");
    assert "USERS" + ".[a" == "USERS.[a";
    SortedTwo("USERS", "USERS.[a");
    DataLinesTwo(d, "USERS", "USERS.[a");
    assert d["USERS"] == map["[a.b" := "1]"] && d["USERS.[a"] == map["b" := "1]"];
    FirstLines();
  }

  lemma DataLinesTwo(d: Sections, a: string, b: string)
    requires a in d && b in d
    ensures DataLines(d, [a, b]) == SectionLines(a, d[a]) + SectionLines(b, d[b])
  {
    hide SectionLines;
    var names := [a, b];
    assert names[1..] == [b] && [b][1..] == [];
    assert DataLines(d, [b][1..]) == [];
    assert SectionLines(b, d[b]) + [] == SectionLines(b, d[b]);
  }

  lemma {:induction false} PrefixIsLess(a: string, rest: string)
    requires rest != ""
    ensures Less(a, a + rest)
    decreases |a|
  {
    if a == "" {
      assert a + rest == rest;
    } else {
      assert (a + rest)[1..] == a[1..] + rest;
      PrefixIsLess(a[1..], rest);
    }
  }

  lemma FirstLines()
    ensures SectionLines("USERS", map["[a.b" := "1]"]) == ["[USERS]", "[a.b=1]", ""]
  {
    var kv := map["[a.b" := "1]"];
    assert kv.Keys == {"[a.b"};
    SortedOne("[a.b");
    assert ["[a.b"][1..] == [];
    assert KeyLines(kv, ["[a.b"][1..]) == [];
    assert KeyLines(kv, ["[a.b"]) == ["[a.b" + "=" + "1]"];
    assert "[a.b" + "=" + "1]" == "[a.b=1]";
    assert "[" + "USERS" + "]" == "[USERS]";
  }

  lemma StepSkipsHeader(p: Parser, line: string)
    requires Trimmed(line) && IsHeader(line)
    ensures Step(p, line).data == p.data
  {
    hide TrimSpace;
  }

  lemma HeaderLines(p: Parser)
    ensures Fold(p, ["[USERS]", "[a.b=1]", ""]).data == p.data
  {
    hide Step, TrimSpace;
    var lines := ["[USERS]", "[a.b=1]", ""];
    assert lines[1..] == ["[a.b=1]", ""] && lines[1..][1..] == [""] && [""][1..] == [];
    assert IsHeader("[USERS]") && Trimmed("[USERS]");
    assert IsHeader("[a.b=1]") && Trimmed("[a.b=1]");
    StepSkipsHeader(p, "[USERS]");
    StepSkipsHeader(Step(p, "[USERS]"), "[a.b=1]");
    var q := Step(Step(p, "[USERS]"), "[a.b=1]");
    FoldBlank(q);
    assert Fold(q, [""]) == q;
  }

  /** The new value of the plain section is lost, that of the dotted one is read. */
  lemma WrittenReads()
    ensures Parse(Print(TwoSections("1]"))) == OneSetting("USERS.[a", "b", "1]")
  {
    hide Step, SplitLines, SectionLines, Unlines, DataLines, SectionOk, EntryOk, OneLine;
    var first, second := ["[USERS]", "[a.b=1]", ""], SectionLines("USERS.[a", map["b" := "1]"]);
    WrittenLines();
    HeldEntries();
    WrittenOneLine();
    SplitOfUnlines(first + second, "");
    assert Unlines(first + second) + "" == Unlines(first + second);
    SplitNothing();
    var p := Parser("", map[]);
    FoldConcat(p, first + second, [""]);
    FoldConcat(p, first, second);
    HeaderLines(p);
    assert "b" in map["b" := "1]"];
    assert EntriesOk(map["b" := "1]"]);
    FoldSection(Fold(p, first), "USERS.[a", map["b" := "1]"]);
    FoldBlank(Fold(p, first + second));
  }

  lemma WrittenOneLine()
    ensures AllOneLine(["[USERS]", "[a.b=1]", ""] + SectionLines("USERS.[a", map["b" := "1]"]))
  {
    hide SectionLines, EntryOk;
    HeldEntries();
    assert "b" in map["b" := "1]"];
    assert EntriesOk(map["b" := "1]"]);
    SectionLinesOneLine("USERS.[a", map["b" := "1]"]);
    assert OneLine("[USERS]") && OneLine("[a.b=1]") && OneLine("");
  }

  /** Why no written line may read as a header in ConvergesExactly: here one does, its
      value is lost, and still the sync has converged, because a dotted section that
      shares the key already has the master's value. */
  lemma LostHeaderConverges() returns (master: Files, remote: map<string, string>, fs: Files, local: map<string, string>)
    ensures IsSnapshot(master, remote) && IsSnapshot(fs, local)
    ensures !NewsDeliverable(PulledNews(local, remote, [GROUP_CORE], []))
    ensures Converged(Pulled(fs, local, remote, [GROUP_CORE], []), remote, [GROUP_CORE], [])
  {
    hide SplitKey, Classify, IsSnapshot, Converged, Pulled, IniPath, IniKey, Parse, Print, EntryOk, SectionOk, Entry;
    HeldKey();
    HeldEntries();
    var s, path := Setting(OPENPANEL, "USERS.[a", "b"), IniPath(OPENPANEL);
    master := map[path := Print(OneSetting("USERS.[a", "b", "1]"))];
    remote := map[HELD := "1]"];
    OneSettingReads("USERS.[a", "b", "1]");
    OneSettingSnapshot(master, s, "1]");
    fs := map[path := Print(TwoSections("q"))];
    LocalReads();
    LocalEntry(fs);
    local := SnapshotWith(fs, HELD, "q");
    HeldUndeliverable(local, remote);
    HeldPull(fs, local, remote);
    var fs' := fs[path := Print(TwoSections("1]"))];
    WrittenReads();
    HeldConverged(fs', remote);
  }

  lemma LocalEntry(fs: Files)
    requires IniPath(OPENPANEL) in fs && Ini(fs, OPENPANEL) == TwoSections("q")
    ensures Entry(fs, HELD, "q")
  {
    hide SplitKey, Classify, IniPath, Parse, IniKey;
    HeldKey();
    IniKeyOfSplit(HELD);
    assert "USERS" != "USERS.[a";
    assert SharedCell(fs, Setting(OPENPANEL, "USERS", "[a.b"), HELD, "q");
  }

  lemma HeldUndeliverable(local: map<string, string>, remote: map<string, string>)
    requires remote == map[HELD := "1]"] && HELD in local && local[HELD] == "q"
    ensures DiffKeys(local, remote, [GROUP_CORE]) == {HELD}
    ensures !NewsDeliverable(PulledNews(local, remote, [GROUP_CORE], []))
  {
    hide SplitKey, Classify;
    HeldKey();
    assert "q" != "1]";
    assert !EntryOk("[a.b", "1]");
    assert HELD in PulledNews(local, remote, [GROUP_CORE], []);
    assert !DeliverableValue(HELD, "1]");
  }

  /** Applying the one change. */
  lemma HeldApplied(fs: Files, c: Change)
    requires fs.Keys == {IniPath(OPENPANEL)} && Ini(fs, OPENPANEL) == TwoSections("q")
    requires c.key == HELD && c.now == "1]"
    ensures Applied(fs, [c]) == fs[IniPath(OPENPANEL) := Print(TwoSections("1]"))]
  {
    hide SplitKey, Classify, IniPath, Parse, Print, IniKey, TwoSections;
    HeldKey();
    SetHeld();
    assert [c][..0] == [];
    assert ApplyAll(Work(fs, map[]), [c][..0]) == Work(fs, map[]);
    assert OPENPANEL != ADMIN;
  }

  lemma HeldPull(fs: Files, local: map<string, string>, remote: map<string, string>)
    requires fs.Keys == {IniPath(OPENPANEL)} && Ini(fs, OPENPANEL) == TwoSections("q")
    requires remote == map[HELD := "1]"] && DiffKeys(local, remote, [GROUP_CORE]) == {HELD}
    ensures Pulled(fs, local, remote, [GROUP_CORE], []) == fs[IniPath(OPENPANEL) := Print(TwoSections("1]"))]
  {
    hide Classify, IniPath, Parse, Print, DiffKeys, Applied, TwoSections;
    SortedOne(HELD);
    var c := ChangeFor(local, remote, [], HELD);
    assert ChangesFor(local, remote, [], [HELD]) == [c];
    assert [c][..0] == [];
    assert Unpinned([c][..0]) == [];
    assert Unpinned([c]) == [c];
    HeldApplied(fs, c);
  }

  lemma SetHeld()
    ensures With(TwoSections("q"), "USERS", "[a.b", "1]") == TwoSections("1]")
  {
    var d, e := With(TwoSections("q"), "USERS", "[a.b", "1]"), TwoSections("1]");
    assert |"USERS"| != |"USERS.[a"|;
    assert SectionOf(TwoSections("q"), "USERS") == map["[a.b" := "q"];
    assert d["USERS"] == e["USERS"] && d["USERS.[a"] == e["USERS.[a"];
    assert d.Keys == e.Keys;
  }

  lemma HeldConverged(fs: Files, remote: map<string, string>)
    requires remote == map[HELD := "1]"]
    requires fs.Keys == {IniPath(OPENPANEL)} && Ini(fs, OPENPANEL) == OneSetting("USERS.[a", "b", "1]")
    ensures Converged(fs, remote, [GROUP_CORE], [])
  {
    hide SplitKey, Classify, IniPath, Parse, IniKey;
    HeldKey();
    IniPathsDiffer();
    var s := Setting(OPENPANEL, "USERS.[a", "b");
    assert SharedCell(fs, s, HELD, "1]");
    assert Entry(fs, HELD, "1]");
    forall local | IsSnapshot(fs, local)
      ensures Get(local, HELD) == "1]"
    {
      var t := IniEntry(fs, HELD, local);
    }
  }
}
