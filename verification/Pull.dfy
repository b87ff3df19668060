/** internal/cluster/sync.go: what a sync from the master changes on a slave, and
    why doing it again changes nothing more. */
module Pull {
  import opened Text
  import opened Ordering
  import opened Config
  import opened Settings

  // Snapshots

  function Ini(fs: Files, file: string): Sections {
    ParseFile(if IniPath(file) in fs then Some(fs[IniPath(file)]) else None)
  }

  /** The value a server currently has for a setting. */
  function Cell(fs: Files, s: Setting): Option<string> {
    Lookup(Ini(fs, s.file), s.section, s.key)
  }

  predicate SharedCell(fs: Files, s: Setting, key: string, value: string) {
    IsIniFile(s.file) && key == IniKey(s) && Classify(key) != "" && Cell(fs, s) == Some(value)
  }

  predicate SharedFile(fs: Files, path: string, key: string, value: string) {
    path in fs && key == FileKey(path) && Classify(key) != "" && |fs[path]| <= MAX_FILE && value == fs[path]
  }

  ghost predicate Entry(fs: Files, key: string, value: string) {
    (exists s :: SharedCell(fs, s, key, value)) || (exists path :: SharedFile(fs, path, key, value))
  }

  /** values is what BuildSnapshot may return. When two settings share a key, which of
      their values it holds depends on the iteration order of the maps. */
  ghost predicate IsSnapshot(fs: Files, values: map<string, string>) {
    && (forall key | key in values :: Entry(fs, key, values[key]))
    && (forall key, value | Entry(fs, key, value) :: key in values)
  }

  // The changes a snapshot calls for

  datatype Change = Change(key: string, group: string, was: string, now: string, pinned: bool)

  predicate Wanted(key: string, groups: seq<string>) {
    Classify(key) != "" && Classify(key) in groups
  }

  predicate Differs(local: map<string, string>, remote: map<string, string>, groups: seq<string>, key: string)
    requires key in remote
  {
    Wanted(key, groups) && Get(local, key) != remote[key]
  }

  function DiffKeys(local: map<string, string>, remote: map<string, string>, groups: seq<string>): set<string> {
    set k | k in remote && Differs(local, remote, groups, k)
  }

  function ChangeFor(local: map<string, string>, remote: map<string, string>, pinned: seq<string>, k: string): Change
    requires k in remote
  {
    Change(k, Classify(k), Get(local, k), remote[k], k in pinned)
  }

  function ChangesFor(local: map<string, string>, remote: map<string, string>, pinned: seq<string>, ks: seq<string>): (cs: seq<Change>)
    requires forall k | k in ks :: k in remote
    ensures |cs| == |ks| && forall i | 0 <= i < |ks| :: cs[i] == ChangeFor(local, remote, pinned, ks[i])
  {
    seq(|ks|, i requires 0 <= i < |ks| => ChangeFor(local, remote, pinned, ks[i]))
  }

  ghost function Diff(local: map<string, string>, remote: map<string, string>, groups: seq<string>, pinned: seq<string>): seq<Change> {
    ChangesFor(local, remote, pinned, Sorted(DiffKeys(local, remote, groups)))
  }

  /** What a comparison reports: by increasing key, exactly the shared keys of the master
      that are in a chosen group and have another value here, with both values. */
  lemma DiffExactly(local: map<string, string>, remote: map<string, string>, groups: seq<string>, pinned: seq<string>)
    ensures var cs := Diff(local, remote, groups, pinned);
            && (forall i, j | 0 <= i < j < |cs| :: Less(cs[i].key, cs[j].key))
            && forall c | c in cs :: c.key in remote && c.group == Classify(c.key) && c.was == (if c.key in local then local[c.key] else "")
                                     && c.now == remote[c.key] && (c.pinned <==> c.key in pinned)
    ensures forall k :: (exists c :: c in Diff(local, remote, groups, pinned) && c.key == k) <==>
                        && k in remote && Classify(k) != "" && Classify(k) in groups
                        && (if k in local then local[k] else "") != remote[k]
  {
    hide Classify, Sorted, Less;
    var ks, cs := Sorted(DiffKeys(local, remote, groups)), Diff(local, remote, groups, pinned);
    assert forall k :: k in ks <==> k in remote && Differs(local, remote, groups, k);
    assert forall i | 0 <= i < |cs| :: ks[i] in ks && cs[i] == ChangeFor(local, remote, pinned, ks[i]);
    forall c | c in cs
      ensures c.key in ks && c == ChangeFor(local, remote, pinned, c.key)
    {
      var i :| 0 <= i < |cs| && cs[i] == c;
    }
    forall k | k in ks
      ensures exists c :: c in cs && c.key == k
    {
      var i :| 0 <= i < |ks| && ks[i] == k;
      assert cs[i] in cs;
    }
  }

  function Unpinned(cs: seq<Change>): seq<Change> {
    if cs == [] then []
    else
      var rest := Unpinned(cs[..|cs| - 1]);
      if cs[|cs| - 1].pinned then rest else rest + [cs[|cs| - 1]]
  }

  // Applying changes

  /** The files so far, and the INI files loaded to be saved at the end. */
  datatype Work = Work(files: Files, loaded: map<string, Sections>)

  function View(w: Work, file: string): Sections {
    if file in w.loaded then w.loaded[file] else Ini(w.files, file)
  }

  function ApplyOne(w: Work, c: Change): Work {
    if FILE_PREFIX <= c.key then w.(files := w.files[c.key[|FILE_PREFIX|..] := c.now])
    else
      match SplitKey(c.key)
      case None => w
      case Some(s) => w.(loaded := w.loaded[s.file := With(View(w, s.file), s.section, s.key, c.now)])
  }

  function ApplyAll(w: Work, cs: seq<Change>): Work
    decreases |cs|
  {
    if cs == [] then w else ApplyOne(ApplyAll(w, cs[..|cs| - 1]), cs[|cs| - 1])
  }

  ghost function SaveOne(files: Files, loaded: map<string, Sections>, file: string): Files {
    if file in loaded then files[IniPath(file) := Print(loaded[file])] else files
  }

  ghost function SaveAll(w: Work): Files {
    SaveOne(SaveOne(w.files, w.loaded, OPENPANEL), w.loaded, ADMIN)
  }

  ghost function Applied(fs: Files, cs: seq<Change>): Files {
    SaveAll(ApplyAll(Work(fs, map[]), cs))
  }

  /** The files after a successful sync. */
  ghost function Pulled(fs: Files, local: map<string, string>, remote: map<string, string>, groups: seq<string>, pinned: seq<string>): Files {
    Applied(fs, Unpinned(Diff(local, remote, groups, pinned)))
  }

  // The effect of a list of changes on every setting and every file

  /** A value that survives being saved and loaded again. */
  predicate DeliverableValue(key: string, value: string) {
    if FILE_PREFIX <= key then |value| <= MAX_FILE
    else
      match SplitKey(key)
      case None => true
      case Some(s) => EntryOk(s.key, value)
  }

  predicate Deliverable(values: map<string, string>) {
    forall key | key in values && Classify(key) != "" :: DeliverableValue(key, values[key])
  }

  predicate NewsDeliverable(news: map<string, string>) {
    forall key | key in news :: DeliverableValue(key, news[key])
  }

  predicate AllClassified(cs: seq<Change>) {
    forall i | 0 <= i < |cs| :: Classify(cs[i].key) != ""
  }

  /** The values written to INI files survive being saved and loaded again. */
  predicate NewsStorable(news: map<string, string>) {
    forall key | key in news && !(FILE_PREFIX <= key) :: DeliverableValue(key, news[key])
  }

  /** The last value written under each key. */
  function News(cs: seq<Change>): map<string, string> {
    if cs == [] then map[] else News(cs[..|cs| - 1])[cs[|cs| - 1].key := cs[|cs| - 1].now]
  }

  function NewCell(news: map<string, string>, s: Setting, before: Option<string>): Option<string> {
    if '.' !in s.section && IniKey(s) in news then Some(news[IniKey(s)]) else before
  }

  ghost predicate FilesAgree(fs: Files, news: map<string, string>, fs': Files) {
    forall path | !IsIniPath(path) ::
      if FileKey(path) in news then path in fs' && fs'[path] == news[FileKey(path)]
      else (path in fs' <==> path in fs) && (path in fs ==> fs'[path] == fs[path])
  }

  ghost predicate CellsAgree(fs: Files, news: map<string, string>, w: Work) {
    forall s: Setting | IsIniFile(s.file) ::
      Lookup(View(w, s.file), s.section, s.key) == NewCell(news, s, Cell(fs, s))
  }

  predicate Named(d: Sections) {
    forall section | section in d :: SectionOk(section) && d[section] != map[]
  }

  ghost predicate LoadedNamed(w: Work) {
    forall file | file in w.loaded :: Named(w.loaded[file])
  }

  ghost predicate SameInis(fs: Files, fs': Files) {
    forall path | IsIniPath(path) :: (path in fs' <==> path in fs) && (path in fs ==> fs'[path] == fs[path])
  }

  lemma LookupWith(d: Sections, section: string, key: string, value: string, section': string, key': string)
    ensures Lookup(With(d, section, key, value), section', key') ==
            if section' == section && key' == key then Some(value) else Lookup(d, section', key')
  {
  }

  lemma ClassifiedIni(key: string)
    requires Classify(key) != "" && !(FILE_PREFIX <= key)
    ensures SplitKey(key).Some? && IsIniFile(SplitKey(key).value.file) && SectionOk(SplitKey(key).value.section)
  {
    hide ClassifyIni, SplitKey, SectionOk;
    SharedSection(key);
  }

  /** One file change. */
  lemma ApplyFileChange(fs: Files, news: map<string, string>, w: Work, c: Change)
    requires FILE_PREFIX <= c.key && Classify(c.key) != ""
    requires FilesAgree(fs, news, w.files) && CellsAgree(fs, news, w) && LoadedNamed(w) && SameInis(fs, w.files)
    ensures var w' := ApplyOne(w, c); var news' := news[c.key := c.now];
            FilesAgree(fs, news', w'.files) && CellsAgree(fs, news', w') && LoadedNamed(w') && SameInis(fs, w'.files)
  {
    hide Classify, ParseFile, Loadable, IniKey, IniPath, IsIniFile, Lookup, FilesAgree, IsIniPath;
    var path := c.key[|FILE_PREFIX|..];
    var w', news' := ApplyOne(w, c), news[c.key := c.now];
    IniPathNotClassified(path, c.key);
    WriteAgrees(fs, news, w.files, path, c.now);
    assert FileKey(path) == c.key;
    assert SameInis(fs, w'.files);
    forall s: Setting | IsIniFile(s.file)
      ensures Lookup(View(w', s.file), s.section, s.key) == NewCell(news', s, Cell(fs, s))
    {
      IniKeyIsNoFileKey(s);
      SameView(w, w', s.file);
    }
  }

  lemma WriteAgrees(fs: Files, news: map<string, string>, fs': Files, path: string, text: string)
    requires FilesAgree(fs, news, fs')
    ensures FilesAgree(fs, news[FileKey(path) := text], fs'[path := text])
  {
    hide IsIniPath;
    forall p
      ensures FileKey(p) == FileKey(path) <==> p == path
    {
      FileKeyParts(p);
      FileKeyParts(path);
    }
  }

  lemma IniPathNotClassified(path: string, key: string)
    requires FILE_PREFIX <= key && path == key[|FILE_PREFIX|..] && Classify(key) != ""
    ensures !IsIniPath(path)
  {
    hide ClassifyFile, ClassifyIni;
    if IsIniPath(path) {
      IniPathIsNotShared(path);
    }
  }

  lemma SameView(w: Work, w': Work, file: string)
    requires IsIniFile(file) && w'.loaded == w.loaded && SameInis(w.files, w'.files)
    ensures View(w', file) == View(w, file)
  {
    hide ParseFile, IniPath;
    assert file == OPENPANEL || file == ADMIN;
  }

  /** One change to an INI file. */
  lemma ApplyIniChange(fs: Files, news: map<string, string>, w: Work, c: Change)
    requires !(FILE_PREFIX <= c.key) && Classify(c.key) != ""
    requires FilesAgree(fs, news, w.files) && CellsAgree(fs, news, w) && LoadedNamed(w) && SameInis(fs, w.files)
    ensures var w' := ApplyOne(w, c); var news' := news[c.key := c.now];
            FilesAgree(fs, news', w'.files) && CellsAgree(fs, news', w') && LoadedNamed(w') && SameInis(fs, w'.files)
  {
    hide Classify, ParseFile, IniPath, IsIniFile, Lookup, With, SectionOk, Named, IniKey, SplitKey;
    ClassifiedIni(c.key);
    var t := SplitKey(c.key).value;
    IniKeyOfSplit(c.key);
    var w', news' := ApplyOne(w, c), news[c.key := c.now];
    NamedView(w, t.file);
    NamedWith(View(w, t.file), t.section, t.key, c.now);
    forall p | !IsIniPath(p)
      ensures FileKey(p) in news' <==> FileKey(p) in news
    {
      FileKeyParts(p);
    }
    forall s: Setting | IsIniFile(s.file)
      ensures Lookup(View(w', s.file), s.section, s.key) == NewCell(news', s, Cell(fs, s))
    {
      LookupWith(View(w, t.file), t.section, t.key, c.now, s.section, s.key);
      if '.' !in s.section && IniKey(s) == c.key {
        SameSetting(s, t);
      }
    }
  }

  lemma SameSetting(s: Setting, t: Setting)
    requires IsIniFile(s.file) && IsIniFile(t.file) && '.' !in s.section && '.' !in t.section
    requires IniKey(s) == IniKey(t)
    ensures s == t
  {
    IniKeyInjective(s, t);
  }

  lemma NamedView(w: Work, file: string)
    requires LoadedNamed(w)
    ensures Named(View(w, file))
  {
    hide Loadable, Named;
    if file !in w.loaded {
      IniIsLoadable(w.files, file);
      LoadableIsNamed(Ini(w.files, file));
    }
  }

  lemma NamedWith(d: Sections, section: string, key: string, value: string)
    requires Named(d) && SectionOk(section)
    ensures Named(With(d, section, key, value))
  {
    hide SectionOk;
    var kv := SectionOf(d, section)[key := value];
    assert key in kv;
  }

  lemma LoadableIsNamed(d: Sections)
    requires Loadable(d)
    ensures Named(d)
  {
    hide SectionOk, EntryOk;
    assert forall section | section in d :: EntriesOk(d[section]);
  }

  lemma IniIsLoadable(fs: Files, file: string)
    ensures Loadable(Ini(fs, file))
  {
    hide Parse, Loadable, IniPath;
    LoadableEmpty();
    if IniPath(file) in fs {
      ParseIsLoadable(fs[IniPath(file)]);
    }
  }

  lemma CellIsDeliverable(fs: Files, s: Setting)
    requires Cell(fs, s).Some?
    ensures SectionOk(s.section) && EntryOk(s.key, Cell(fs, s).value)
  {
    hide Ini, EntryOk, SectionOk;
    IniIsLoadable(fs, s.file);
    assert EntriesOk(Ini(fs, s.file)[s.section]);
  }

  lemma LoadableEmpty()
    ensures Loadable(map[])
  {
  }

  lemma {:induction false} ApplyAllEffect(fs: Files, cs: seq<Change>)
    requires AllClassified(cs)
    ensures var w := ApplyAll(Work(fs, map[]), cs);
            FilesAgree(fs, News(cs), w.files) && CellsAgree(fs, News(cs), w) && LoadedNamed(w) && SameInis(fs, w.files)
    decreases |cs|
  {
    hide Classify, ApplyOne, ParseFile, Named, Lookup, IniKey, IniPath, IsIniFile, FileKey;
    if cs != [] {
      var before, c := cs[..|cs| - 1], cs[|cs| - 1];
      ApplyAllEffect(fs, before);
      if FILE_PREFIX <= c.key {
        ApplyFileChange(fs, News(before), ApplyAll(Work(fs, map[]), before), c);
      } else {
        ApplyIniChange(fs, News(before), ApplyAll(Work(fs, map[]), before), c);
      }
    }
  }

  lemma IniPathsDiffer()
    ensures IniPath(OPENPANEL) != IniPath(ADMIN)
  {
    assert IniPath(OPENPANEL)[19] == 'p' && IniPath(ADMIN)[19] == 'a';
  }

  /** Saving writes each loaded file so that loading it again gives the same data. */
  lemma SavedView(w: Work, file: string)
    requires IsIniFile(file) && Loadable(View(w, file))
    ensures Ini(SaveAll(w), file) == View(w, file)
  {
    hide Parse, Print, Loadable, IniPath;
    IniPathsDiffer();
    if file in w.loaded {
      ParseOfPrint(w.loaded[file]);
    }
  }

  lemma StorableView(fs: Files, news: map<string, string>, w: Work, file: string)
    requires IsIniFile(file) && CellsAgree(fs, news, w) && LoadedNamed(w) && NewsStorable(news)
    ensures Loadable(View(w, file))
  {
    hide Classify, SectionOk, EntryOk, IniKey, SplitKey, Cell, Ini;
    NamedView(w, file);
    var d := View(w, file);
    forall section | section in d
      ensures SectionOk(section) && EntriesOk(d[section])
    {
      forall k | k in d[section]
        ensures EntryOk(k, d[section][k])
      {
        var s := Setting(file, section, k);
        assert Lookup(d, section, k) == NewCell(news, s, Cell(fs, s));
        StorableCell(fs, news, s);
      }
    }
  }

  lemma StorableCell(fs: Files, news: map<string, string>, s: Setting)
    requires IsIniFile(s.file) && NewsStorable(news) && NewCell(news, s, Cell(fs, s)).Some?
    ensures EntryOk(s.key, NewCell(news, s, Cell(fs, s)).value)
  {
    hide Classify, EntryOk, IniKey, SplitKey, Cell, IsIniFile;
    if '.' !in s.section && IniKey(s) in news {
      SplitOfIniKey(s);
      IniKeyIsNoFileKey(s);
    } else {
      CellIsDeliverable(fs, s);
    }
  }

  ghost predicate AllCellsAre(fs: Files, news: map<string, string>, fs': Files) {
    forall s: Setting | IsIniFile(s.file) :: Cell(fs', s) == NewCell(news, s, Cell(fs, s))
  }

  predicate IniNews(news: map<string, string>) {
    forall key | key in news :: Classify(key) != ""
  }

  /** What reads back in a file is storable. */
  lemma CellsMeanStorable(fs: Files, news: map<string, string>, fs': Files)
    requires AllCellsAre(fs, news, fs') && IniNews(news)
    ensures NewsStorable(news)
  {
    hide Classify, EntryOk, SectionOk, IniKey, SplitKey, Cell, IsIniFile;
    forall key | key in news && !(FILE_PREFIX <= key)
      ensures DeliverableValue(key, news[key])
    {
      ClassifiedIni(key);
      IniKeyOfSplit(key);
      var s := SplitKey(key).value;
      assert Cell(fs', s) == Some(news[key]);
      CellIsDeliverable(fs', s);
    }
  }

  lemma {:induction false} NewsAreIni(cs: seq<Change>)
    requires AllClassified(cs)
    ensures IniNews(News(cs))
    decreases |cs|
  {
    hide Classify;
    if cs != [] {
      NewsAreIni(cs[..|cs| - 1]);
    }
  }

  lemma StorableReadsBack(fs: Files, cs: seq<Change>)
    requires AllClassified(cs) && NewsStorable(News(cs))
    ensures AllCellsAre(fs, News(cs), Applied(fs, cs))
  {
    hide Classify, ApplyAll, AllClassified, NewsStorable, LoadedNamed, NewCell, News, IniPath, IniKey, FileKey, Loadable, View, Lookup, SaveAll,
         FilesAgree, SameInis, Ini, IsIniFile;
    ApplyAllEffect(fs, cs);
    var w := ApplyAll(Work(fs, map[]), cs);
    forall s: Setting | IsIniFile(s.file)
      ensures Cell(Applied(fs, cs), s) == NewCell(News(cs), s, Cell(fs, s))
    {
      StorableView(fs, News(cs), w, s.file);
      SavedView(w, s.file);
    }
  }

  lemma AppliedFiles(fs: Files, cs: seq<Change>)
    requires AllClassified(cs)
    ensures FilesAgree(fs, News(cs), Applied(fs, cs))
  {
    hide Classify, ApplyAll, AllClassified, LoadedNamed, CellsAgree, SameInis, News, IniPath, FileKey, Print;
    ApplyAllEffect(fs, cs);
  }

  /** Every file and every setting after a list of changes was applied. A shared file has
      the last value written; the settings read back as the last values written exactly
      when those are storable. */
  lemma AppliedEffect(fs: Files, cs: seq<Change>)
    requires AllClassified(cs)
    ensures FilesAgree(fs, News(cs), Applied(fs, cs))
    ensures AllCellsAre(fs, News(cs), Applied(fs, cs)) <==> NewsStorable(News(cs))
  {
    hide Applied, AllClassified, NewsStorable, News, FilesAgree, AllCellsAre, IniNews;
    AppliedFiles(fs, cs);
    NewsAreIni(cs);
    if NewsStorable(News(cs)) {
      StorableReadsBack(fs, cs);
    } else if AllCellsAre(fs, News(cs), Applied(fs, cs)) {
      CellsMeanStorable(fs, News(cs), Applied(fs, cs));
    }
  }

  // The effect of a sync

  ghost function PulledNews(local: map<string, string>, remote: map<string, string>, groups: seq<string>, pinned: seq<string>): map<string, string> {
    map k | k in remote && Differs(local, remote, groups, k) && k !in pinned :: remote[k]
  }

  ghost function NewsFor(remote: map<string, string>, ks: seq<string>, pinned: seq<string>): map<string, string> {
    map k | k in remote && k in ks && k !in pinned :: remote[k]
  }

  lemma NewsForSnoc(remote: map<string, string>, ks: seq<string>, pinned: seq<string>)
    requires ks != [] && ks[|ks| - 1] in remote
    ensures var k, before := ks[|ks| - 1], NewsFor(remote, ks[..|ks| - 1], pinned);
            NewsFor(remote, ks, pinned) == if k in pinned then before else before[k := remote[k]]
  {
    assert forall k :: k in ks <==> k in ks[..|ks| - 1] || k == ks[|ks| - 1];
  }

  lemma NewsSnoc(cs: seq<Change>, c: Change)
    ensures News(cs + [c]) == News(cs)[c.key := c.now]
    ensures AllClassified(cs) && Classify(c.key) != "" ==> AllClassified(cs + [c])
  {
    hide Classify;
    assert (cs + [c])[..|cs|] == cs;
  }

  lemma {:induction false} UnpinnedNews(local: map<string, string>, remote: map<string, string>, pinned: seq<string>, ks: seq<string>)
    requires forall k | k in ks :: k in remote && Classify(k) != ""
    ensures var cs := Unpinned(ChangesFor(local, remote, pinned, ks));
            AllClassified(cs) && News(cs) == NewsFor(remote, ks, pinned)
    decreases |ks|
  {
    hide Classify, News, NewsFor, AllClassified;
    var cs := ChangesFor(local, remote, pinned, ks);
    if ks == [] {
      assert cs == [];
      NoNews(remote, pinned);
    } else {
      var n := |ks| - 1;
      assert cs[..n] == ChangesFor(local, remote, pinned, ks[..n]);
      assert ks[n] in ks;
      assert forall k | k in ks[..n] :: k in ks;
      UnpinnedNews(local, remote, pinned, ks[..n]);
      NewsForSnoc(remote, ks, pinned);
      NewsSnoc(Unpinned(cs[..n]), cs[n]);
    }
  }

  lemma NoNews(remote: map<string, string>, pinned: seq<string>)
    ensures AllClassified([]) && News([]) == NewsFor(remote, [], pinned)
  {
  }

  /** A sync writes the master's value of exactly the keys that are shared, in a chosen
      group, not pinned and different here. All other settings and files keep their
      value: pinned and unclassified keys, other groups, keys the master does not have.
      The settings read back so exactly when every value that is written is storable. */
  lemma PullEffect(fs: Files, local: map<string, string>, remote: map<string, string>, groups: seq<string>, pinned: seq<string>)
    ensures var news := PulledNews(local, remote, groups, pinned);
            var fs' := Pulled(fs, local, remote, groups, pinned);
            FilesAgree(fs, news, fs') && (AllCellsAre(fs, news, fs') <==> NewsStorable(news))
  {
    hide Classify, Applied, FilesAgree, AllCellsAre, NewsStorable, Unpinned, News;
    var ks := Sorted(DiffKeys(local, remote, groups));
    UnpinnedNews(local, remote, pinned, ks);
    assert NewsFor(remote, ks, pinned) == PulledNews(local, remote, groups, pinned);
    AppliedEffect(fs, Unpinned(Diff(local, remote, groups, pinned)));
  }

  lemma DeliverableIsStorable(news: map<string, string>)
    requires NewsDeliverable(news)
    ensures NewsStorable(news)
  {
    hide DeliverableValue;
  }
}
