/** internal/cluster/sync.go: backups taken before a sync writes, and rolling them
    back. The backup directory is a sequence of backups, oldest first; names are
    time stamps and grow, so the newest comes last. */
module Undo {
  import opened Text
  import opened Settings
  import opened Pull

  const KEEP_BACKUP := 10

  /** The copied files, and the touched paths that had no file yet. */
  datatype Backup = Backup(files: Files, missing: set<string>)

  function BackupOf(fs: Files, paths: set<string>): Backup {
    Backup(map p | p in paths && p in fs :: fs[p], set p | p in paths && p !in fs)
  }

  function NewestOf<T>(s: seq<T>): (r: seq<T>)
  {
    if |s| > KEEP_BACKUP then s[|s| - KEEP_BACKUP..] else s
  }

  function Removable(b: Backup): set<string> {
    set p | p in b.missing && Classify(FileKey(p)) != ""
  }

  /** The files after rolling back to a backup. */
  function Restored(fs: Files, b: Backup): Files {
    (fs + b.files) - Removable(b)
  }

  // What an apply may do to the files

  function PathOf(key: string): string {
    if FILE_PREFIX <= key then key[|FILE_PREFIX|..]
    else if SplitKey(key).Some? then IniPath(SplitKey(key).value.file)
    else ""
  }

  function Touched(cs: seq<Change>): set<string> {
    set i | 0 <= i < |cs| :: PathOf(cs[i].key)
  }

  predicate MayTouch(path: string) {
    IsIniPath(path) || ClassifyFile(path) != ""
  }

  ghost predicate AllMayTouch(paths: set<string>) {
    forall p | p in paths :: MayTouch(p)
  }

  /** Only the given paths changed, and no file disappeared. */
  ghost predicate WritesOnly(fs: Files, paths: set<string>, fs': Files) {
    forall p :: (p in fs ==> p in fs') && (p !in paths ==> (p in fs' ==> p in fs) && (p in fs ==> fs'[p] == fs[p]))
  }

  lemma ClassifiedMayTouch(key: string)
    requires Classify(key) != ""
    ensures MayTouch(PathOf(key))
  {
    hide ClassifyFile, IniPath, SplitKey;
    if !(FILE_PREFIX <= key) {
      ClassifiedIni(key);
    }
  }

  /** Rolling back right after an apply, however far it got, gives back every file
      byte for byte exactly when no INI file was created. */
  lemma RestoreUndoes(fs: Files, paths: set<string>, fs': Files)
    requires AllMayTouch(paths) && WritesOnly(fs, paths, fs')
    ensures Restored(fs', BackupOf(fs, paths)) == fs <==> forall p | p in paths && IsIniPath(p) && p !in fs :: p !in fs'
  {
    hide ClassifyFile, Classify, IsIniPath;
    var b := BackupOf(fs, paths);
    var r := Restored(fs', b);
    forall p | p in paths
      ensures p in Removable(b) <==> p !in fs && !IsIniPath(p)
    {
      if IsIniPath(p) {
        IniPathIsNotShared(p);
      }
      ClassifiedFile(p);
    }
    forall p
      ensures p in r <==> p in fs || (p in fs' && p in paths && IsIniPath(p))
      ensures p in fs ==> r[p] == fs[p]
    {
    }
    if p :| p in paths && IsIniPath(p) && p !in fs && p in fs' {
      assert p in r;
    } else {
      assert forall p :: p in r <==> p in fs;
      assert r == fs;
    }
  }

  // The undo history

  /** The files each backup would bring back, if all newer ones are rolled back first. */
  function History(fs: Files, backups: seq<Backup>): (h: seq<Files>)
    ensures |h| == |backups|
    decreases |backups|
  {
    if backups == [] then []
    else
      var n := |backups| - 1;
      var before := Restored(fs, backups[n]);
      History(before, backups[..n]) + [before]
  }

  lemma {:induction false} HistoryOfSuffix(fs: Files, backups: seq<Backup>, k: nat)
    requires k <= |backups|
    ensures History(fs, backups[k..]) == History(fs, backups)[k..]
    decreases |backups|
  {
    hide Restored;
    var n := |backups| - 1;
    if k <= n {
      var before := Restored(fs, backups[n]);
      assert backups[k..][..n - k] == backups[..n][k..];
      HistoryOfSuffix(before, backups[..n], k);
    }
  }

  datatype Store = Store(files: Files, backups: seq<Backup>)

  /** An apply that touched some paths and left the given files, or a rollback. */
  datatype Op = Apply(paths: set<string>, result: Files) | Rollback

  ghost predicate Possible(st: Store, op: Op) {
    match op
    case Apply(paths, result) => AllMayTouch(paths) && WritesOnly(st.files, paths, result)
    case Rollback => st.backups != []
  }

  function Step(st: Store, op: Op): Store
    requires op.Rollback? ==> st.backups != []
  {
    match op
    case Apply(paths, result) => Store(result, NewestOf(st.backups + [BackupOf(st.files, paths)]))
    case Rollback =>
      var n := |st.backups| - 1;
      Store(Restored(st.files, st.backups[n]), st.backups[..n])
  }

  /** The machine a user expects: the current files and the states before the last
      ten applies. */
  datatype Log = Log(files: Files, past: seq<Files>)

  function LogStep(log: Log, op: Op): Log
    requires op.Rollback? ==> log.past != []
  {
    match op
    case Apply(_, result) => Log(result, NewestOf(log.past + [log.files]))
    case Rollback => Log(log.past[|log.past| - 1], log.past[..|log.past| - 1])
  }

  function LogOf(st: Store): Log {
    Log(st.files, History(st.files, st.backups))
  }

  predicate HasIniFiles(fs: Files) {
    IniPath(OPENPANEL) in fs && IniPath(ADMIN) in fs
  }

  lemma ApplySimulates(st: Store, paths: set<string>, result: Files)
    requires HasIniFiles(st.files) && Possible(st, Apply(paths, result))
    ensures LogOf(Step(st, Apply(paths, result))) == LogStep(LogOf(st), Apply(paths, result))
    ensures HasIniFiles(result)
  {
    hide Restored, BackupOf, IniPath;
    var b := BackupOf(st.files, paths);
    var all := st.backups + [b];
    RestoreUndoes(st.files, paths, result);
    assert Restored(result, b) == st.files;
    assert all[..|st.backups|] == st.backups;
    assert History(result, all) == History(st.files, st.backups) + [st.files];
    if |all| > KEEP_BACKUP {
      HistoryOfSuffix(result, all, |all| - KEEP_BACKUP);
    }
  }

  lemma RollbackKeepsIniFiles(fs: Files, b: Backup)
    requires HasIniFiles(fs)
    ensures HasIniFiles(Restored(fs, b))
  {
    hide Classify, ClassifyFile, IniPath;
    IniPathIsNotShared(IniPath(OPENPANEL));
    IniPathIsNotShared(IniPath(ADMIN));
    ClassifiedFile(IniPath(OPENPANEL));
    ClassifiedFile(IniPath(ADMIN));
  }

  /** Backups and rollbacks behave as a stack of at most ten earlier states, as long as
      both INI files exist at the start and nothing else writes. */
  lemma StepSimulates(st: Store, op: Op)
    requires HasIniFiles(st.files) && Possible(st, op)
    ensures LogOf(Step(st, op)) == LogStep(LogOf(st), op)
    ensures HasIniFiles(Step(st, op).files)
  {
    hide Restored, BackupOf, IniPath, WritesOnly;
    match op
    case Apply(paths, result) => ApplySimulates(st, paths, result);
    case Rollback =>
      RollbackKeepsIniFiles(st.files, st.backups[|st.backups| - 1]);
  }

  // Whole runs

  ghost predicate PossibleRun(st: Store, ops: seq<Op>)
    decreases |ops|
  {
    ops == [] || (Possible(st, ops[0]) && PossibleRun(Step(st, ops[0]), ops[1..]))
  }

  ghost function Run(st: Store, ops: seq<Op>): Store
    requires PossibleRun(st, ops)
    decreases |ops|
  {
    if ops == [] then st else Run(Step(st, ops[0]), ops[1..])
  }

  ghost predicate LogCanRun(log: Log, ops: seq<Op>)
    decreases |ops|
  {
    ops == [] || ((ops[0].Rollback? ==> log.past != []) && LogCanRun(LogStep(log, ops[0]), ops[1..]))
  }

  ghost function LogRun(log: Log, ops: seq<Op>): Log
    requires LogCanRun(log, ops)
    decreases |ops|
  {
    if ops == [] then log else LogRun(LogStep(log, ops[0]), ops[1..])
  }

  lemma {:induction false} RunSimulates(st: Store, ops: seq<Op>)
    requires HasIniFiles(st.files) && PossibleRun(st, ops)
    ensures LogCanRun(LogOf(st), ops)
    ensures LogOf(Run(st, ops)) == LogRun(LogOf(st), ops)
    decreases |ops|
  {
    hide HasIniFiles, Possible, Step, LogStep;
    if ops != [] {
      StepSimulates(st, ops[0]);
      PossibleRollback(st, ops[0]);
      RunSimulates(Step(st, ops[0]), ops[1..]);
    }
  }

  lemma PossibleRollback(st: Store, op: Op)
    requires Possible(st, op)
    ensures op.Rollback? ==> LogOf(st).past != []
  {
  }

  /** The files before each of a row of applies, then the files now. */
  function Trace(fs: Files, applies: seq<Op>): (t: seq<Files>)
    requires forall i | 0 <= i < |applies| :: applies[i].Apply?
    ensures |t| == |applies| + 1
    decreases |applies|
  {
    if applies == [] then [fs] else [fs] + Trace(applies[0].result, applies[1..])
  }

  function Rollbacks(n: nat): seq<Op> {
    seq(n, _ => Rollback)
  }

  lemma {:induction false} LogAfterApplies(log: Log, applies: seq<Op>)
    requires forall i | 0 <= i < |applies| :: applies[i].Apply?
    ensures LogCanRun(log, applies)
    ensures var t := Trace(log.files, applies); var n := |applies|;
            LogRun(log, applies).files == t[n] &&
            (n > 0 ==> LogRun(log, applies).past == NewestOf(log.past + t[..n]))
    decreases |applies|
  {
    hide NewestOf;
    if applies != [] {
      var rest, fs := applies[1..], log.files;
      var next := LogStep(log, applies[0]);
      LogAfterApplies(next, rest);
      var u := Trace(next.files, rest)[..|rest|];
      assert Trace(fs, applies)[..|applies|] == [fs] + u;
      Regroup(log.past, [fs], u);
      if rest == [] {
        assert log.past + [fs] == log.past + [fs] + u;
      } else {
        NewestTwice(log.past + [fs], u);
      }
    }
  }

  lemma NewestTwice<T>(a: seq<T>, b: seq<T>)
    ensures NewestOf(NewestOf(a) + b) == NewestOf(a + b)
  {
  }

  lemma {:induction false} LogAfterRollbacks(log: Log, n: nat)
    requires n <= |log.past|
    ensures LogCanRun(log, Rollbacks(n))
    ensures LogRun(log, Rollbacks(n)) == if n == 0 then log else Log(log.past[|log.past| - n], log.past[..|log.past| - n])
    decreases n
  {
    if n > 0 {
      assert Rollbacks(n)[1..] == Rollbacks(n - 1);
      LogAfterRollbacks(LogStep(log, Rollback), n - 1);
    }
  }

  lemma {:induction false} LogRunConcat(log: Log, a: seq<Op>, b: seq<Op>)
    requires LogCanRun(log, a) && LogCanRun(LogRun(log, a), b)
    ensures LogCanRun(log, a + b) && LogRun(log, a + b) == LogRun(LogRun(log, a), b)
    decreases |a|
  {
    if a == [] {
      assert a + b == b;
    } else {
      assert (a + b)[1..] == a[1..] + b;
      LogRunConcat(LogStep(log, a[0]), a[1..], b);
    }
  }

  /** After any number of applies, each cut off anywhere, n rollbacks (n at most ten and
      at most the number of applies) bring back exactly the files as they were before
      the last n applies. */
  lemma RollbacksUndoApplies(st: Store, applies: seq<Op>, n: nat)
    requires HasIniFiles(st.files)
    requires forall i | 0 <= i < |applies| :: applies[i].Apply?
    requires n <= |applies| && n <= 10
    requires PossibleRun(st, applies)
    ensures PossibleRun(st, applies + Rollbacks(n))
    ensures Run(st, applies + Rollbacks(n)).files == Trace(st.files, applies)[|applies| - n]
  {
    hide HasIniFiles, Possible, PossibleRun, Step, LogStep, LogRun, LogCanRun, History, Rollbacks, Trace;
    AppliesLeaveBackups(st, applies);
    RollbacksArePossible(Run(st, applies), n);
    PossibleConcat(st, applies, Rollbacks(n));
    RunSimulates(st, applies + Rollbacks(n));
    LogUndoes(LogOf(st), applies, n);
  }

  lemma {:induction false} AppliesLeaveBackups(st: Store, applies: seq<Op>)
    requires forall i | 0 <= i < |applies| :: applies[i].Apply?
    requires PossibleRun(st, applies)
    ensures var n := |st.backups| + |applies|;
            applies != [] ==> |Run(st, applies).backups| >= if n < KEEP_BACKUP then n else KEEP_BACKUP
    decreases |applies|
  {
    hide Possible, BackupOf, Restored;
    if applies != [] {
      assert applies[0].Apply?;
      AppliesLeaveBackups(Step(st, applies[0]), applies[1..]);
    }
  }

  lemma {:induction false} RollbacksArePossible(st: Store, n: nat)
    requires n <= |st.backups|
    ensures PossibleRun(st, Rollbacks(n))
    decreases n
  {
    hide Restored;
    if n > 0 {
      assert Rollbacks(n)[1..] == Rollbacks(n - 1);
      RollbacksArePossible(Step(st, Rollback), n - 1);
    }
  }

  lemma {:induction false} PossibleConcat(st: Store, a: seq<Op>, b: seq<Op>)
    requires PossibleRun(st, a) && PossibleRun(Run(st, a), b)
    ensures PossibleRun(st, a + b)
    decreases |a|
  {
    hide Possible, Step;
    if a == [] {
      assert a + b == b;
    } else {
      assert (a + b)[1..] == a[1..] + b;
      PossibleStep(st, a[0]);
      PossibleConcat(Step(st, a[0]), a[1..], b);
    }
  }

  lemma PossibleStep(st: Store, op: Op)
    requires Possible(st, op)
    ensures op.Rollback? ==> st.backups != []
  {
  }

  lemma LogUndoes(log: Log, applies: seq<Op>, n: nat)
    requires forall i | 0 <= i < |applies| :: applies[i].Apply?
    requires n <= |applies| && n <= KEEP_BACKUP
    ensures LogCanRun(log, applies + Rollbacks(n))
    ensures LogRun(log, applies + Rollbacks(n)).files == Trace(log.files, applies)[|applies| - n]
  {
    hide LogStep, LogRun, LogCanRun, Rollbacks, NewestOf, Trace;
    var k, t := |applies|, Trace(log.files, applies);
    LogAfterApplies(log, applies);
    if n > 0 {
      NewestEnd(log.past, t[..k], n);
    }
    LogAfterRollbacks(LogRun(log, applies), n);
    LogRunConcat(log, applies, Rollbacks(n));
  }

  lemma NewestEnd<T>(a: seq<T>, b: seq<T>, n: nat)
    requires 0 < n <= |b| && n <= KEEP_BACKUP
    ensures var r := NewestOf(a + b); n <= |r| && r[|r| - n] == b[|b| - n]
  {
  }

  /** Ten applies leave ten backups, so ten rollbacks are possible and no more. */
  lemma {:induction false} BackupsAreBounded(st: Store, ops: seq<Op>)
    requires |st.backups| <= 10 && PossibleRun(st, ops)
    ensures |Run(st, ops).backups| <= 10
    decreases |ops|
  {
    hide WritesOnly, AllMayTouch, Restored, BackupOf;
    if ops != [] {
      BackupsAreBounded(Step(st, ops[0]), ops[1..]);
    }
  }

  /** A server without openpanel.config: a sync creates the file, and the rollback right
      after it leaves the new file in place. */
  lemma CreatedIniStays(text: string)
    ensures var st, result := Store(map[], []), map[IniPath(OPENPANEL) := text];
            var ops := [Apply({IniPath(OPENPANEL)}, result), Rollback];
            PossibleRun(st, ops) && Run(st, ops) == Store(result, []) && result != st.files
  {
    hide Classify, ClassifyFile, Restored;
    var path := IniPath(OPENPANEL);
    var st, result := Store(map[], []), map[path := text];
    var apply := Apply({path}, result);
    var ops := [apply, Rollback];
    IniIsNeverRemoved(result, path);
    assert BackupOf(map[], {path}) == Backup(map[], {path});
    var mid := Step(st, apply);
    assert mid == Store(result, [Backup(map[], {path})]);
    assert ops[1..] == [Rollback] && [Rollback][1..] == [];
    assert Step(mid, Rollback) == Store(result, []);
    RunTwo(st, ops, mid, Store(result, []));
  }

  lemma IniIsNeverRemoved(fs: Files, path: string)
    requires IsIniPath(path)
    ensures Restored(fs, Backup(map[], {path})) == fs
  {
    hide Classify, ClassifyFile, IsIniPath;
    IniPathIsNotShared(path);
    ClassifiedFile(path);
  }

  lemma RunTwo(st: Store, ops: seq<Op>, mid: Store, end: Store)
    requires |ops| == 2 && Possible(st, ops[0]) && Step(st, ops[0]) == mid
    requires Possible(mid, ops[1]) && Step(mid, ops[1]) == end
    ensures PossibleRun(st, ops) && Run(st, ops) == end
  {
    hide Possible, Step;
    var rest := ops[1..];
    assert rest[0] == ops[1] && rest[1..] == [];
    assert PossibleRun(end, rest[1..]) && Run(end, rest[1..]) == end;
    assert PossibleRun(mid, rest) && Run(mid, rest) == Run(end, rest[1..]);
  }
}
