/** What a sync does with a value that a slave cannot store under the key it came with:
    the next comparison reports the key again. */
module Undelivered {
  import opened Text
  import opened Ordering
  import opened Config
  import opened Settings
  import opened Pull
  import opened Convergence

  // Files in which some lines do not read back

  /** One line that does not read as a section header. */
  predicate IsPlainLine(k: string, v: string) {
    OneLine(k) && OneLine(v) && !IsHeader(TrimSpace(k + "=" + v))
  }

  /** Every line is plain, and sections with a dot in their name read back. */
  predicate Mild(d: Sections) {
    forall s | s in d :: SectionOk(s) && MildEntries(s, d[s])
  }

  predicate MildEntries(s: string, kv: Section) {
    kv != map[] && forall k | k in kv :: IsPlainLine(k, kv[k]) && ('.' in s ==> EntryOk(k, kv[k]))
  }

  lemma EntryIsPlain(k: string, v: string)
    requires EntryOk(k, v)
    ensures IsPlainLine(k, v)
  {
    KeyLineEdges(k, v);
  }

  lemma LoadableIsMild(d: Sections)
    requires Loadable(d)
    ensures Mild(d)
  {
    hide EntryOk, SectionOk, IsPlainLine;
    forall s | s in d
      ensures MildEntries(s, d[s])
    {
      assert EntriesOk(d[s]);
      forall k | k in d[s]
        ensures IsPlainLine(k, d[s][k])
      {
        EntryIsPlain(k, d[s][k]);
      }
    }
  }

  lemma MildWith(d: Sections, section: string, key: string, value: string)
    requires Mild(d) && SectionOk(section) && '.' !in section && IsPlainLine(key, value)
    ensures Mild(With(d, section, key, value))
  {
    hide SectionOk, IsPlainLine, EntryOk;
    var kv := SectionOf(d, section)[key := value];
    assert key in kv;
    assert section in d ==> MildEntries(section, d[section]);
    assert MildEntries(section, kv);
  }

  /** A plain line changes the current section at most. */
  lemma StepPlain(p: Parser, k: string, v: string)
    requires p.section != "" && IsPlainLine(k, v)
    ensures Step(p, k + "=" + v).section == p.section
    ensures forall s | s != p.section :: s in Step(p, k + "=" + v).data <==> s in p.data
    ensures forall s | s != p.section && s in p.data :: Step(p, k + "=" + v).data[s] == p.data[s]
  {
    hide TrimSpace, CutAt, TrimBrackets, IsHeader, OneLine;
  }

  /** Section s is the only one that may differ. */
  ghost predicate OnlyIn(s: string, p: Parser, q: Parser) {
    && q.section == s
    && (forall x | x != s :: x in q.data <==> x in p.data)
    && forall x | x != s && x in p.data :: q.data[x] == p.data[x]
  }

  lemma {:induction false} FoldPlain(p: Parser, kv: Section, ks: seq<string>)
    requires p.section != ""
    requires forall k | k in ks :: k in kv && IsPlainLine(k, kv[k])
    ensures OnlyIn(p.section, p, Fold(p, KeyLines(kv, ks)))
    decreases |ks|
  {
    hide Step, IsPlainLine;
    if ks != [] {
      var k := ks[0];
      StepPlain(p, k, kv[k]);
      assert KeyLines(kv, ks)[1..] == KeyLines(kv, ks[1..]);
      FoldPlain(Step(p, k + "=" + kv[k]), kv, ks[1..]);
    }
  }

  lemma FoldMildSection(p: Parser, s: string, kv: Section)
    requires SectionOk(s) && s !in p.data && MildEntries(s, kv)
    ensures OnlyIn(s, p, Fold(p, SectionLines(s, kv)))
    ensures '.' in s ==> s in Fold(p, SectionLines(s, kv)).data && Fold(p, SectionLines(s, kv)).data[s] == kv
  {
    hide Step, IsHeader, EntryOk, IsPlainLine;
    var ks := Sorted(kv.Keys);
    var header, keys := ["[" + s + "]"], KeyLines(kv, ks);
    FoldHeader(p, s);
    FoldConcat(p, header, keys);
    FoldPlain(p.(section := s), kv, ks);
    FoldConcat(p, header + keys, [""]);
    FoldBlank(Fold(p, header + keys));
    if '.' in s {
      assert EntriesOk(kv);
      FoldSection(p, s, kv);
    }
  }

  lemma {:induction false} FoldMild(p: Parser, d: Sections, names: seq<string>)
    requires Mild(d) && StrictlySorted(names)
    requires forall s | s in names :: s in d && s !in p.data
    ensures forall x | x !in names :: x in Fold(p, DataLines(d, names)).data <==> x in p.data
    ensures forall x | x !in names && x in p.data :: Fold(p, DataLines(d, names)).data[x] == p.data[x]
    ensures forall x | x in names && '.' in x :: x in Fold(p, DataLines(d, names)).data && Fold(p, DataLines(d, names)).data[x] == d[x]
    decreases |names|
  {
    hide Step, IsHeader, SectionOk, EntryOk, IsPlainLine, MildEntries, SectionLines;
    if names != [] {
      var s, rest := names[0], names[1..];
      var q := Fold(p, SectionLines(s, d[s]));
      FoldMildSection(p, s, d[s]);
      FoldConcat(p, SectionLines(s, d[s]), DataLines(d, rest));
      forall x | x in rest
        ensures x in names && x != s
      {
        TailMembers(names, x);
      }
      assert forall x :: x in names <==> x == s || x in rest;
      FoldMild(q, d, rest);
    }
  }

  lemma {:induction false} PlainLinesOneLine(kv: Section, ks: seq<string>)
    requires forall k | k in ks :: k in kv && IsPlainLine(k, kv[k])
    ensures AllOneLine(KeyLines(kv, ks))
  {
    hide IsHeader, TrimSpace;
    if ks != [] {
      assert ks[0] in ks;
      assert forall k | k in ks[1..] :: k in ks;
      PlainLinesOneLine(kv, ks[1..]);
    }
  }

  lemma {:induction false} MildLinesOneLine(d: Sections, names: seq<string>)
    requires Mild(d) && forall s | s in names :: s in d
    ensures AllOneLine(DataLines(d, names))
  {
    hide IsPlainLine, EntryOk;
    if names != [] {
      var s := names[0];
      PlainLinesOneLine(d[s], Sorted(d[s].Keys));
      MildLinesOneLine(d, names[1..]);
      assert AllOneLine(SectionLines(s, d[s]));
      assert AllOneLine(SectionLines(s, d[s]) + DataLines(d, names[1..]));
    }
  }

  /** Reading back what was printed leaves every section with a dot as it was. */
  lemma MildReadsBack(d: Sections, x: string)
    requires Mild(d) && '.' in x
    ensures x in Parse(Print(d)) <==> x in d
    ensures x in d ==> Parse(Print(d))[x] == d[x]
  {
    hide Step, IsHeader, Mild, SplitLines;
    var names := Sorted(d.Keys);
    var lines := DataLines(d, names);
    var p := Parser("", map[]);
    MildLinesOneLine(d, names);
    SplitOfUnlines(lines, "");
    assert Unlines(lines) + "" == Unlines(lines);
    SplitNothing();
    FoldConcat(p, lines, [""]);
    FoldBlank(Fold(p, lines));
    FoldMild(p, d, names);
    assert x in names <==> x in d;
  }

  // A sync of plain lines leaves sections with a dot alone

  predicate IsPlainChange(key: string, value: string) {
    !(FILE_PREFIX <= key) ==> SplitKey(key).Some? ==> IsPlainLine(SplitKey(key).value.key, value)
  }

  predicate AllPlain(cs: seq<Change>) {
    forall i | 0 <= i < |cs| :: Classify(cs[i].key) != "" && IsPlainChange(cs[i].key, cs[i].now)
  }

  ghost predicate DottedAgree(d: Sections, e: Sections) {
    forall x | '.' in x :: (x in e <==> x in d) && (x in d ==> e[x] == d[x])
  }

  ghost predicate DottedKept(fs: Files, w: Work) {
    && SameInis(fs, w.files)
    && (forall file | file in w.loaded :: Mild(w.loaded[file]))
    && forall file | IsIniFile(file) :: DottedAgree(Ini(fs, file), View(w, file))
  }

  lemma MildView(w: Work, file: string)
    requires forall f | f in w.loaded :: Mild(w.loaded[f])
    ensures Mild(View(w, file))
  {
    hide Parse, Mild;
    if file !in w.loaded {
      IniIsLoadable(w.files, file);
      LoadableIsMild(Ini(w.files, file));
    }
  }

  lemma ApplyPlain(fs: Files, w: Work, c: Change)
    requires DottedKept(fs, w) && Classify(c.key) != "" && IsPlainChange(c.key, c.now)
    ensures DottedKept(fs, ApplyOne(w, c))
  {
    hide Classify, ParseFile, Mild, IniPath, IsPlainLine, SplitKey, SectionOk;
    var w' := ApplyOne(w, c);
    if FILE_PREFIX <= c.key {
      IniPathNotClassified(c.key[|FILE_PREFIX|..], c.key);
      forall file | IsIniFile(file)
        ensures DottedAgree(Ini(fs, file), View(w', file))
      {
        SameView(w, w', file);
      }
    } else {
      ClassifiedIni(c.key);
      IniKeyOfSplit(c.key);
      var t := SplitKey(c.key).value;
      MildView(w, t.file);
      MildWith(View(w, t.file), t.section, t.key, c.now);
    }
  }

  lemma {:induction false} ApplyAllPlain(fs: Files, cs: seq<Change>)
    requires AllPlain(cs)
    ensures DottedKept(fs, ApplyAll(Work(fs, map[]), cs))
    decreases |cs|
  {
    hide Classify, ApplyOne, DottedKept, IsPlainChange;
    if cs == [] {
      NothingApplied(fs);
    } else {
      ApplyAllPlain(fs, cs[..|cs| - 1]);
      ApplyPlain(fs, ApplyAll(Work(fs, map[]), cs[..|cs| - 1]), cs[|cs| - 1]);
    }
  }

  lemma NothingApplied(fs: Files)
    ensures DottedKept(fs, Work(fs, map[]))
  {
    hide ParseFile, IniPath;
  }

  lemma AppliedKeepsDotted(fs: Files, cs: seq<Change>, file: string)
    requires AllPlain(cs) && IsIniFile(file)
    ensures DottedAgree(Ini(fs, file), Ini(Applied(fs, cs), file))
  {
    hide Parse, Print, IniPath, Mild, AllPlain, ApplyAll;
    ApplyAllPlain(fs, cs);
    IniPathsDiffer();
    var w := ApplyAll(Work(fs, map[]), cs);
    if file in w.loaded {
      forall x | '.' in x
        ensures (x in Parse(Print(w.loaded[file])) <==> x in w.loaded[file])
        ensures x in w.loaded[file] ==> Parse(Print(w.loaded[file]))[x] == w.loaded[file][x]
      {
        MildReadsBack(w.loaded[file], x);
      }
    }
  }

  // Which changes are applied

  lemma {:induction false} UnpinnedAreNews(local: map<string, string>, remote: map<string, string>, pinned: seq<string>, ks: seq<string>)
    requires forall k | k in ks :: k in remote
    ensures forall c | c in Unpinned(ChangesFor(local, remote, pinned, ks)) :: c.key in ks && c.key !in pinned && c.now == remote[c.key]
    decreases |ks|
  {
    var cs := ChangesFor(local, remote, pinned, ks);
    if ks != [] {
      var n := |ks| - 1;
      assert cs[..n] == ChangesFor(local, remote, pinned, ks[..n]);
      assert ks[n] in ks;
      assert forall k | k in ks[..n] :: k in ks;
      UnpinnedAreNews(local, remote, pinned, ks[..n]);
    }
  }

  predicate AllPlainNews(news: map<string, string>) {
    forall k | k in news :: IsPlainChange(k, news[k])
  }

  lemma PulledKeepsDotted(fs: Files, local: map<string, string>, remote: map<string, string>, groups: seq<string>, pinned: seq<string>, file: string)
    requires AllPlainNews(PulledNews(local, remote, groups, pinned)) && IsIniFile(file)
    ensures DottedAgree(Ini(fs, file), Ini(Pulled(fs, local, remote, groups, pinned), file))
  {
    hide Classify, IsPlainChange, Applied, DottedAgree, Ini, IsIniFile, Unpinned;
    var ks := Sorted(DiffKeys(local, remote, groups));
    var cs := Unpinned(Diff(local, remote, groups, pinned));
    UnpinnedAreNews(local, remote, pinned, ks);
    forall i | 0 <= i < |cs|
      ensures Classify(cs[i].key) != "" && IsPlainChange(cs[i].key, cs[i].now)
    {
      assert cs[i] in cs;
      assert cs[i].key in PulledNews(local, remote, groups, pinned);
    }
    AppliedKeepsDotted(fs, cs, file);
  }

  // A value that was not delivered comes up again

  /** The key is reported with another value, or not at all. */
  ghost predicate CanReturn(fs: Files, k: string, value: string) {
    exists local :: IsSnapshot(fs, local) && Get(local, k) != value
  }

  lemma SomeSnapshot(fs: Files) returns (values: map<string, string>)
    ensures IsSnapshot(fs, values)
  {
    hide Classify, Ini, IniKey, FileKey, Entry, EntryKeys;
    forall k
      ensures k in EntryKeys(fs) <==> exists v :: Entry(fs, k, v)
    {
      EntryKeysAre(fs, k);
    }
    values := map k | k in EntryKeys(fs) :: (var v :| Entry(fs, k, v); v);
  }

  lemma ReturnsMeansNotConverged(fs: Files, remote: map<string, string>, groups: seq<string>, pinned: seq<string>, k: string)
    requires k in remote && Wanted(k, groups) && k !in pinned && CanReturn(fs, k, remote[k])
    ensures !Converged(fs, remote, groups, pinned)
  {
    hide Classify, IsSnapshot;
    var local :| IsSnapshot(fs, local) && Get(local, k) != remote[k];
    assert k in DiffKeys(local, remote, groups);
  }

  /** What a snapshot reports of an INI setting reads back, and is on one line. */
  lemma ReportedText(fs: Files, values: map<string, string>, k: string) returns (s: Setting)
    requires IsSnapshot(fs, values) && k in values && !(FILE_PREFIX <= k)
    ensures SharedCell(fs, s, k, values[k]) && EntryOk(s.key, values[k]) && OneLine(k)
  {
    hide Classify, ParseFile, SectionOk, IsSnapshot;
    s := IniEntry(fs, k, values);
    CellIsDeliverable(fs, s);
    SectionOneLine(s.section);
    PartsOneLine(s);
  }

  lemma SectionOneLine(section: string)
    requires SectionOk(section)
    ensures OneLine(section)
  {
  }

  lemma PartsOneLine(s: Setting)
    requires IsIniFile(s.file) && OneLine(s.section) && OneLine(s.key)
    ensures OneLine(IniKey(s))
  {
  }

  predicate IsBadText(k: string, value: string) {
    if FILE_PREFIX <= k then |value| > MAX_FILE else !OneLine(k) || !OneLine(value) || !Trimmed(value)
  }

  lemma BadTextReturns(fs: Files, local: map<string, string>, fs': Files, k: string, value: string)
    requires IsSnapshot(fs, local) && Get(local, k) != value && Classify(k) != "" && IsBadText(k, value)
    ensures CanReturn(fs', k, value)
  {
    hide Classify, IsSnapshot, EntryOk, OneLine;
    var local' := SomeSnapshot(fs');
    if Get(local', k) == value {
      if FILE_PREFIX <= k {
        var path := k[|FILE_PREFIX|..];
        assert FileKey(path) == k;
        FileEntry(fs', path, k, local');
      } else {
        ReportedIsGood(fs, local, k, value);
        ReportedIsGood(fs', local', k, value);
      }
      assert false;
    }
  }

  /** A value that is read, or missing where another is reported, is good text. */
  lemma ReportedIsGood(fs: Files, values: map<string, string>, k: string, value: string)
    requires IsSnapshot(fs, values) && !(FILE_PREFIX <= k)
    ensures k in values ==> OneLine(k)
    ensures k in values ==> OneLine(values[k]) && Trimmed(values[k])
    ensures OneLine("") && Trimmed("")
  {
    hide Classify, IsSnapshot;
    if k in values {
      var s := ReportedText(fs, values, k);
    }
  }

  /** The part of a key behind its section can be stored with some value. */
  predicate IsStorable(k: string) {
    Trimmed(k) && '=' !in k && (k != "" ==> k[0] != '#')
  }

  lemma BadKeyReturns(fs: Files, local: map<string, string>, fs': Files, k: string, value: string)
    requires IsSnapshot(fs, local) && Get(local, k) != value && Classify(k) != "" && !(FILE_PREFIX <= k)
    requires SplitKey(k).Some? && !IsStorable(SplitKey(k).value.key)
    requires forall file | IsIniFile(file) :: DottedAgree(Ini(fs, file), Ini(fs', file))
    ensures CanReturn(fs', k, value)
  {
    hide Classify, IsSnapshot, ParseFile, IsStorable, DottedAgree;
    if k in local {
      var s := BadKeyIsDotted(fs, local, k);
      SameDottedEntry(fs, fs', s, k, local[k]);
      var local' := SnapshotWith(fs', k, local[k]);
    } else {
      var local' := SomeSnapshot(fs');
      if k in local' {
        var s := BadKeyIsDotted(fs', local', k);
        SameDottedEntry(fs', fs, s, k, local'[k]);
        EntryIsReported(fs, local, k, local'[k]);
      }
    }
  }

  lemma SameDottedEntry(fs: Files, fs': Files, s: Setting, k: string, value: string)
    requires SharedCell(fs, s, k, value) && '.' in s.section
    requires DottedAgree(Ini(fs, s.file), Ini(fs', s.file)) || DottedAgree(Ini(fs', s.file), Ini(fs, s.file))
    ensures Entry(fs', k, value)
  {
    hide Classify, Ini;
    assert SharedCell(fs', s, k, value);
  }

  lemma EntryIsReported(fs: Files, values: map<string, string>, k: string, value: string)
    requires IsSnapshot(fs, values) && Entry(fs, k, value)
    ensures k in values
  {
    hide Entry;
  }

  /** Only a section with a dot can hold such a key. */
  lemma BadKeyIsDotted(fs: Files, values: map<string, string>, k: string) returns (s: Setting)
    requires IsSnapshot(fs, values) && k in values && !(FILE_PREFIX <= k)
    requires SplitKey(k).Some? && !IsStorable(SplitKey(k).value.key)
    ensures SharedCell(fs, s, k, values[k]) && '.' in s.section
  {
    hide Classify, ParseFile, IsSnapshot;
    s := ReportedText(fs, values, k);
    if '.' !in s.section {
      SplitOfIniKey(s);
      assert false;
    }
  }

  /** The line of a value reads as a section header. */
  predicate ReadsAsHeader(k: string, value: string) {
    !(FILE_PREFIX <= k) && SplitKey(k).Some? && IsHeader(TrimSpace(SplitKey(k).value.key + "=" + value))
  }

  lemma GoodTextIsPlain(k: string, value: string)
    requires !IsBadText(k, value) && !ReadsAsHeader(k, value)
    ensures IsPlainChange(k, value)
    ensures !DeliverableValue(k, value) ==> !(FILE_PREFIX <= k) && SplitKey(k).Some? && !IsStorable(SplitKey(k).value.key)
  {
    hide SplitKey, TrimSpace;
    if !(FILE_PREFIX <= k) && SplitKey(k).Some? {
      var s := SplitKey(k).value;
      IniKeyOfSplit(k);
      assert OneLine(s.key) by { KeyPart(s); }
      if IsStorable(s.key) && !EntryOk(s.key, value) {
        HeaderLine(s.key, value);
        assert false;
      }
    }
  }

  lemma KeyPart(s: Setting)
    requires OneLine(IniKey(s))
    ensures OneLine(s.key)
  {
    var k := IniKey(s);
    assert forall i | 0 <= i < |s.key| :: s.key[i] == k[|k| - |s.key| + i];
  }

  /** A storable key and a good value fail to read back only as a header. */
  lemma HeaderLine(k: string, v: string)
    requires IsStorable(k) && OneLine(k) && OneLine(v) && Trimmed(v) && !EntryOk(k, v)
    ensures IsHeader(TrimSpace(k + "=" + v))
  {
    hide IsSpace, OneLine;
    var line := k + "=" + v;
    assert k != "" && k[0] == '[' && v != "" && v[|v| - 1] == ']';
    assert line[0] == k[0] && line[|line| - 1] == v[|v| - 1];
    assert TrimSpace(line) == line;
  }

  predicate NoHeaders(news: map<string, string>) {
    forall k | k in news :: !ReadsAsHeader(k, news[k])
  }

  lemma UndeliverableReturns(fs: Files, local: map<string, string>, remote: map<string, string>, groups: seq<string>, pinned: seq<string>)
    requires IsSnapshot(fs, local) && NoHeaders(PulledNews(local, remote, groups, pinned))
    requires !NewsDeliverable(PulledNews(local, remote, groups, pinned))
    ensures !Converged(Pulled(fs, local, remote, groups, pinned), remote, groups, pinned)
  {
    hide Classify, IsSnapshot, Pulled, IsBadText, DeliverableValue, ReadsAsHeader, IsPlainChange, CanReturn, Converged, DottedAgree, SplitKey, IsStorable;
    var news := PulledNews(local, remote, groups, pinned);
    var fs' := Pulled(fs, local, remote, groups, pinned);
    if k :| k in news && IsBadText(k, news[k]) {
      BadTextReturns(fs, local, fs', k, remote[k]);
      ReturnsMeansNotConverged(fs', remote, groups, pinned, k);
    } else {
      forall k | k in news
        ensures IsPlainChange(k, news[k])
      {
        GoodTextIsPlain(k, news[k]);
      }
      forall file | IsIniFile(file)
        ensures DottedAgree(Ini(fs, file), Ini(fs', file))
      {
        PulledKeepsDotted(fs, local, remote, groups, pinned, file);
      }
      var k :| k in news && !DeliverableValue(k, news[k]);
      GoodTextIsPlain(k, news[k]);
      BadKeyReturns(fs, local, fs', k, remote[k]);
      ReturnsMeansNotConverged(fs', remote, groups, pinned, k);
    }
  }

  /** Any section names on both sides: a second comparison finds pinned keys only when the
      sync found its settings settled and every value it wrote can be stored under its
      key. Without that it finds more, unless a written line reads as a section header. */
  lemma ConvergesExactly(fs: Files, local: map<string, string>, remote: map<string, string>, groups: seq<string>, pinned: seq<string>)
    requires IsSnapshot(fs, local)
    ensures Settled(fs, local, remote, groups, pinned) && NewsDeliverable(PulledNews(local, remote, groups, pinned)) ==>
              Converged(Pulled(fs, local, remote, groups, pinned), remote, groups, pinned)
    ensures Converged(Pulled(fs, local, remote, groups, pinned), remote, groups, pinned)
              && NoHeaders(PulledNews(local, remote, groups, pinned)) ==>
              Settled(fs, local, remote, groups, pinned) && NewsDeliverable(PulledNews(local, remote, groups, pinned))
  {
    hide Settled, Converged, Pulled, IsSnapshot, NewsDeliverable, PulledNews, NoHeaders;
    var news := PulledNews(local, remote, groups, pinned);
    if NewsDeliverable(news) {
      ConvergesExactlyWhenSettled(fs, local, remote, groups, pinned);
    } else if NoHeaders(news) {
      UndeliverableReturns(fs, local, remote, groups, pinned);
    }
  }
}
