/** internal/handlers/cronjobs.go: the lines of /etc/cron.d/openpanel, shown as jobs and
    edited in place. */
module Cron {
  import opened Text

  datatype Job = Job(line: nat, schedule: string, command: string, log: bool)

  const OPENCLI := "opencli"
  const OPENCLI_PATH := "/usr/local/bin/" + OPENCLI
  const SENTINEL := OPENCLI + " " + "sentinel"
  const LEGACY_SENTINEL := "/bin/bash /usr/local/admin/service/notifications.sh"
  const LOG_WORDS := ["echo", "cron", "executed", ">>", "/var/log/openpanel-cron.log"]

  // Reading one line

  predicate IsValid(line: string) {
    var stripped := TrimSpace(line);
    stripped != "" && stripped[0] != '#' && stripped[0] != '@'
  }

  predicate AmpAt(s: string, i: int) {
    0 <= i < |s| - 1 && s[i] == '&' && s[i + 1] == '&'
  }

  /** The position of the first "&&", or |s|. */
  function IndexOfAmp(s: string): (i: nat)
    ensures i <= |s| && (i < |s| ==> AmpAt(s, i))
    ensures forall j | 0 <= j < i :: !AmpAt(s, j)
  {
    if |s| < 2 then |s| else if s[0] == '&' && s[1] == '&' then 0 else
      assert forall j | 1 <= j < |s| :: AmpAt(s, j) == AmpAt(s[1..], j - 1);
      1 + IndexOfAmp(s[1..])
  }

  predicate NoAmp(s: string) {
    forall i | 0 <= i < |s| :: !AmpAt(s, i)
  }

  predicate HasSkippedAmp(s: string) {
    exists i | 0 < i < |s| :: AmpAt(s, i) && s[i - 1] == '#'
  }

  /** What stands before the first "&&" or "#&&". */
  function CutCommand(part: string): string {
    var i := IndexOfAmp(part);
    TrimSpace(if 0 < i < |part| && part[i - 1] == '#' then part[..i - 1] else part[..i])
  }

  /** Replacing a prefix. */
  function Replaced(s: string, prefix: string, shown: string): string {
    if prefix <= s then shown + s[|prefix|..] else s
  }

  function Shown(command: string): string {
    Replaced(Replaced(command, OPENCLI_PATH, OPENCLI), LEGACY_SENTINEL, SENTINEL)
  }

  function Restored(command: string): string {
    Replaced(command, OPENCLI, OPENCLI_PATH)
  }

  function JobOf(fields: seq<string>): Option<Job> {
    if |fields| < 6 then None
    else
      var part := JoinWords(fields[6..]);
      Some(Job(0, JoinWords(fields[..5]), Shown(CutCommand(part)), IndexOfAmp(part) < |part| && !HasSkippedAmp(part)))
  }

  function SplitCronLine(line: string): Option<Job> {
    JobOf(Fields(TrimSpace(line)))
  }

  /** The line that is written for a job. */
  function Written(schedule: string, command: string, log: bool): string {
    schedule + " root " + Restored(command) + (if log then " && " else " #&& ") + JoinWords(LOG_WORDS)
  }

  // Reading the file

  /** The job listed for line i, counted from 0. */
  function JobAt(lines: seq<string>, i: nat): Option<Job>
    requires i < |lines|
  {
    if !IsValid(lines[i]) then None
    else match SplitCronLine(lines[i])
      case None => None
      case Some(job) => Some(job.(line := i + 1))
  }

  function JobsBefore(lines: seq<string>, n: nat): seq<Job>
    requires n <= |lines|
  {
    if n == 0 then [] else
      match JobAt(lines, n - 1)
      case None => JobsBefore(lines, n - 1)
      case Some(job) => JobsBefore(lines, n - 1) + [job]
  }

  function Jobs(content: string): seq<Job> {
    JobsBefore(SplitLines(content), |SplitLines(content)|)
  }

  /** The file after one edit: at most one line is another. */
  function Edited(content: string, n: int, schedule: string, log: bool): string {
    var lines := SplitLines(content);
    if 1 <= n <= |lines| && SplitCronLine(lines[n - 1]).Some? then
      JoinLines(lines[n - 1 := Written(schedule, SplitCronLine(lines[n - 1]).value.command, log)])
    else content
  }

  class CronTab {
    var file: Option<string>

    constructor (content: Option<string>)
      ensures file == content
    {
      file := content;
    }

    method ReadCronJobs() returns (jobs: seq<Job>, fileMissing: bool)
      ensures fileMissing <==> file.None?
      ensures jobs == if file.None? then [] else Jobs(file.value)
    {
      hide IsValid, SplitCronLine, SplitLines;
      jobs := [];
      if file.None? {
        return [], true;
      }
      var lines := SplitLines(file.value);
      for i := 0 to |lines|
        invariant jobs == JobsBefore(lines, i)
      {
        if !IsValid(lines[i]) {
          continue;
        }
        var parsed := SplitCronLine(lines[i]);
        if parsed.Some? {
          jobs := jobs + [parsed.value.(line := i + 1)];
        }
      }
      fileMissing := false;
    }

    /** The first line that runs a command, 0 when there is none. */
    method CronLineForCommand(command: string) returns (n: nat)
      ensures n == 0 ==> file.None? || forall i | 0 <= i < |SplitLines(file.value)| && JobAt(SplitLines(file.value), i).Some? ::
                  JobAt(SplitLines(file.value), i).value.command != command
      ensures n > 0 ==>
                && file.Some? && n <= |SplitLines(file.value)|
                && JobAt(SplitLines(file.value), n - 1).Some? && JobAt(SplitLines(file.value), n - 1).value.command == command
                && forall i | 0 <= i < n - 1 && JobAt(SplitLines(file.value), i).Some? :: JobAt(SplitLines(file.value), i).value.command != command
    {
      hide IsValid, SplitCronLine, SplitLines;
      if file.None? {
        return 0;
      }
      var lines := SplitLines(file.value);
      for i := 0 to |lines|
        invariant forall j | 0 <= j < i && JobAt(lines, j).Some? :: JobAt(lines, j).value.command != command
      {
        if !IsValid(lines[i]) {
          continue;
        }
        var parsed := SplitCronLine(lines[i]);
        if parsed.Some? && parsed.value.command == command {
          return i + 1;
        }
      }
      n := 0;
    }

    method AddOrUpdateCron(lineNumber: int, schedule: string, loggingEnabled: bool)
      modifies this
      ensures file == if old(file).None? then None else Some(Edited(old(file).value, lineNumber, schedule, loggingEnabled))
    {
      hide SplitCronLine, SplitLines, JoinLines, Written;
      if file.None? {
        return;
      }
      ghost var all := SplitLines(file.value);
      var lines := SplitLines(file.value);
      var trailingNewline := |lines| > 0 && lines[|lines| - 1] == "";
      if trailingNewline {
        lines := lines[..|lines| - 1];
        NothingToParse();
      }
      ghost var before := lines;
      var found := false;
      for idx := 0 to |lines|
        invariant file == old(file)
        invariant |lines| == |before| && lines[idx..] == before[idx..]
        invariant found <==> 1 <= lineNumber <= idx && SplitCronLine(before[lineNumber - 1]).Some?
        invariant lines == if found then before[lineNumber - 1 := NewLine(before[lineNumber - 1], schedule, loggingEnabled)] else before
      {
        if idx + 1 != lineNumber {
          continue;
        }
        var parsed := SplitCronLine(lines[idx]);
        if parsed.None? {
          continue;
        }
        var command := parsed.value.command;
        if OPENCLI <= command {
          command := OPENCLI_PATH + command[|OPENCLI|..];
        }
        if loggingEnabled {
          command := command + " && " + JoinWords(LOG_WORDS);
        } else {
          command := command + " #&& " + JoinWords(LOG_WORDS);
        }
        var line := schedule + " root " + command;
        WrittenIs(line, schedule, parsed.value.command, loggingEnabled);
        lines := lines[idx := line];
        found := true;
      }
      assert trailingNewline ==> all == before + [""];
      assert found <==> 1 <= lineNumber <= |all| && SplitCronLine(all[lineNumber - 1]).Some?;
      if !found {
        return;
      }
      var out := JoinLines(lines);
      if trailingNewline {
        out := out + "\n";
        JoinTrailing(lines);
        assert lines + [""] == all[lineNumber - 1 := lines[lineNumber - 1]];
      }
      file := Some(out);
    }
  }

  function NewLine(line: string, schedule: string, log: bool): string {
    match SplitCronLine(line)
    case None => line
    case Some(job) => Written(schedule, job.command, log)
  }

  lemma NothingToParse()
    ensures SplitCronLine("").None?
  {
    FieldsOfNothing();
  }

  lemma WrittenIs(line: string, schedule: string, command: string, log: bool)
    requires line == schedule + " root " + (Restored(command) + (if log then " && " else " #&& ") + JoinWords(LOG_WORDS))
    ensures line == Written(schedule, command, log)
  {
    hide JoinWords, Restored;
  }

  lemma {:induction false} JoinTrailing(lines: seq<string>)
    requires lines != []
    ensures JoinLines(lines + [""]) == JoinLines(lines) + "\n"
  {
    if |lines| == 1 {
      assert lines + [""] == [lines[0]] + [""];
      JoinCons(lines[0], [""]);
      assert lines[0] + "\n" + "" == lines[0] + "\n";
    } else {
      JoinTrailing(lines[1..]);
      assert (lines + [""])[1..] == lines[1..] + [""];
    }
  }

  // Words and characters of a parsed line

  /** Single spaces between words, none at the ends. */
  predicate Single(s: string) {
    forall i | 0 <= i < |s| && IsSpace(s[i]) :: s[i] == ' ' && 0 < i < |s| - 1 && !IsSpace(s[i + 1])
  }

  lemma {:induction false} WordsAreSingle(ws: seq<string>)
    requires AllWords(ws)
    ensures Single(JoinWords(ws))
    ensures ws != [] ==> JoinWords(ws) != "" && JoinWords(ws)[0] == ws[0][0]
  {
    if |ws| == 1 {
      assert IsWord(ws[0]);
    } else if |ws| > 1 {
      hide Single;
      WordsAreSingle(ws[1..]);
      assert IsWord(ws[0]) && IsWord(ws[1]);
      SingleCons(ws[0], JoinWords(ws[1..]));
    }
  }

  lemma SingleCons(w: string, rest: string)
    requires IsWord(w) && Single(rest) && rest != "" && !IsSpace(rest[0])
    ensures Single(w + " " + rest) && (w + " " + rest)[0] == w[0]
  {
    var s := w + " " + rest;
    forall i | 0 <= i < |s| && IsSpace(s[i])
      ensures s[i] == ' ' && 0 < i < |s| - 1 && !IsSpace(s[i + 1])
    {
      assert i >= |w|;
      if i > |w| {
        assert s[i] == rest[i - |w| - 1];
      } else {
        assert s[i + 1] == rest[0];
      }
    }
  }

  lemma {:induction false} SingleIsWords(s: string)
    requires Single(s)
    ensures JoinWords(Fields(s)) == s
    ensures s != "" ==> Fields(s) != []
    decreases |s|
  {
    hide Fields, IsSpace;
    if s == "" {
      FieldsOfNothing();
    } else {
      var w, rest := FirstWord(s);
      FieldsOfWord(w, rest);
      if rest == "" {
        FieldsOfNothing();
        assert w + rest == w;
      } else {
        assert s[|w|] == rest[0] == ' ';
        var more := rest[1..];
        FieldsSkip(rest);
        assert rest == " " + more;
        assert forall i | 0 <= i < |more| :: more[i] == s[|w| + 1 + i];
        SingleIsWords(more);
        assert ([w] + Fields(more))[1..] == Fields(more);
      }
    }
  }

  lemma TrimOffset(cut: string) returns (o: nat)
    ensures o + |TrimSpace(cut)| <= |cut| && TrimSpace(cut) == cut[o..o + |TrimSpace(cut)|]
  {
    hide TrimLeft, TrimRight, IsSpace, Trimmed, OneLine;
    var left := TrimLeft(cut);
    o := |cut| - |left|;
    var t := TrimRight(left);
    assert TrimSpace(cut) == t;
    assert left == cut[o..];
    assert t == left[..|t|] == cut[o..o + |t|];
  }

  lemma PartIsSingle(s: string, o: nat, n: nat)
    requires o + n <= |s| && Single(s) && Trimmed(s[o..o + n])
    ensures Single(s[o..o + n])
  {
    hide IsSpace;
    var t := s[o..o + n];
    forall i | 0 <= i < |t| && IsSpace(t[i])
      ensures t[i] == ' ' && 0 < i < |t| - 1 && !IsSpace(t[i + 1])
    {
      assert t[i] == s[o + i];
      assert i != 0 && i != |t| - 1;
      assert t[i + 1] == s[o + i + 1];
    }
  }

  lemma PartHasNoAmp(s: string, o: nat, n: nat)
    requires o + n <= |s| && NoAmp(s)
    ensures NoAmp(s[o..o + n])
  {
    var t := s[o..o + n];
    assert forall i | 0 <= i < |t| :: AmpAt(t, i) ==> AmpAt(s, o + i);
  }

  /** A part of a single-spaced text, trimmed. */
  lemma TrimmedPart(s: string, i: nat)
    requires Single(s) && i <= |s|
    ensures Single(TrimSpace(s[..i]))
    ensures NoAmp(s[..i]) ==> NoAmp(TrimSpace(s[..i]))
  {
    hide Single, NoAmp, Trimmed, TrimSpace;
    var cut := s[..i];
    var o := TrimOffset(cut);
    var n := |TrimSpace(cut)|;
    assert s[o..o + n] == cut[o..o + n];
    PartIsSingle(s, o, n);
    if NoAmp(cut) {
      PartHasNoAmp(cut, o, n);
    }
  }

  lemma CutIsCommand(part: string)
    requires Single(part)
    ensures Single(CutCommand(part)) && NoAmp(CutCommand(part))
  {
    hide Single;
    var i := IndexOfAmp(part);
    var n := if 0 < i < |part| && part[i - 1] == '#' then i - 1 else i;
    assert forall j | 0 <= j < n :: AmpAt(part[..n], j) ==> AmpAt(part, j);
    TrimmedPart(part, n);
  }

  lemma ReplacedKeeps(s: string, prefix: string, shown: string)
    requires Single(s) && NoAmp(s)
    requires Single(shown) && '&' !in shown && shown != ""
    ensures Single(Replaced(s, prefix, shown)) && NoAmp(Replaced(s, prefix, shown))
  {
    if prefix <= s {
      var r, d := shown + s[|prefix|..], |shown| - |prefix|;
      assert forall i | |shown| <= i < |r| :: r[i] == s[i - d];
      assert forall i | 0 <= i < |shown| :: r[i] == shown[i] && shown[i] != '&';
      forall i | 0 <= i < |r| && IsSpace(r[i])
        ensures r[i] == ' ' && 0 < i < |r| - 1 && !IsSpace(r[i + 1])
      {
        if i >= |shown| {
          assert s[i - d] == r[i];
        } else {
          assert shown[i] == r[i];
        }
      }
      forall i | 0 <= i < |r|
        ensures !AmpAt(r, i)
      {
        if i >= |shown| {
          assert !AmpAt(s, i - d);
        }
      }
    }
  }

  predicate IsPlain(w: string) {
    w != "" && forall i | 0 <= i < |w| :: !IsSpace(w[i]) && w[i] != '&'
  }

  lemma PlainJoined(a: string, b: string)
    requires IsPlain(a) && IsPlain(b)
    ensures IsPlain(a + b)
  {
  }

  lemma PlainIsSingle(w: string)
    requires IsPlain(w)
    ensures Single(w) && '&' !in w && IsWord(w)
  {
  }

  lemma PathIsSingle()
    ensures Single(OPENCLI_PATH) && '&' !in OPENCLI_PATH
  {
    assert IsPlain("/usr/local/bin/");
    assert IsPlain(OPENCLI);
    PlainJoined("/usr/local/bin/", OPENCLI);
    PlainIsSingle(OPENCLI_PATH);
  }

  lemma NamesAreSingle()
    ensures Single(OPENCLI) && '&' !in OPENCLI
    ensures Single(SENTINEL) && '&' !in SENTINEL
  {
    hide Single;
    assert IsPlain(OPENCLI);
    assert IsPlain("sentinel");
    PlainIsSingle(OPENCLI);
    PlainIsSingle("sentinel");
    SingleCons(OPENCLI, "sentinel");
  }

  lemma ShownKeeps(x: string)
    requires Single(x) && NoAmp(x)
    ensures Single(Shown(x)) && NoAmp(Shown(x))
  {
    hide Single, NoAmp, Replaced;
    NamesAreSingle();
    ReplacedKeeps(x, OPENCLI_PATH, OPENCLI);
    ReplacedKeeps(Replaced(x, OPENCLI_PATH, OPENCLI), LEGACY_SENTINEL, SENTINEL);
  }

  lemma RestoredKeeps(x: string)
    requires Single(x) && NoAmp(x)
    ensures Single(Restored(x)) && NoAmp(Restored(x))
  {
    hide Single, NoAmp, Replaced;
    PathIsSingle();
    ReplacedKeeps(x, OPENCLI, OPENCLI_PATH);
  }

  lemma Starts()
    ensures OPENCLI[0] == 'o' && OPENCLI_PATH[0] == '/' && LEGACY_SENTINEL[0] == '/' && SENTINEL[0] == 'o'
    ensures OPENCLI <= SENTINEL
  {
    assert SENTINEL[0] == OPENCLI[0];
    assert LEGACY_SENTINEL[0] == "/bin/bash"[0];
  }

  lemma NotPrefix(a: string, s: string)
    requires a != "" && s != "" && a[0] != s[0]
    ensures !(a <= s)
  {
  }

  lemma PrefixStays(a: string, b: string, rest: string)
    requires a <= b
    ensures a <= b + rest
  {
    assert (b + rest)[..|a|] == b[..|a|];
  }

  /** What is shown starts with opencli, or neither rewrite applied to it. */
  lemma ShownForms(x: string)
    ensures OPENCLI <= Shown(x) || (Shown(x) == x && !(OPENCLI_PATH <= x) && !(LEGACY_SENTINEL <= x))
  {
    Starts();
    if OPENCLI_PATH <= x {
      var y := OPENCLI + x[|OPENCLI_PATH|..];
      assert y[0] == 'o';
      NotPrefix(LEGACY_SENTINEL, y);
      PrefixStays(OPENCLI, OPENCLI, x[|OPENCLI_PATH|..]);
    } else if LEGACY_SENTINEL <= x {
      PrefixStays(OPENCLI, SENTINEL, x[|LEGACY_SENTINEL|..]);
    }
  }

  lemma ShownOfRestored(x: string)
    ensures Shown(Restored(Shown(x))) == Shown(x)
  {
    hide Shown;
    ShownForms(x);
    if OPENCLI <= Shown(x) {
      RestoreAndShow(Shown(x));
    } else {
      assert Restored(Shown(x)) == x;
    }
  }

  lemma RestoreAndShow(c: string)
    requires OPENCLI <= c
    ensures Shown(Restored(c)) == c
  {
    Starts();
    var rest := c[|OPENCLI|..];
    var r := OPENCLI_PATH + rest;
    PrefixStays(OPENCLI_PATH, OPENCLI_PATH, rest);
    assert r[|OPENCLI_PATH|..] == rest;
    assert OPENCLI + rest == c;
    assert c[0] == 'o';
    NotPrefix(LEGACY_SENTINEL, c);
  }

  // Reading a written line back

  lemma {:induction false} PlainWords(ws: seq<string>)
    requires forall i | 0 <= i < |ws| :: IsPlain(ws[i])
    ensures '&' !in JoinWords(ws)
  {
    if |ws| > 1 {
      PlainWords(ws[1..]);
    }
  }

  lemma LogWords()
    ensures AllWords(LOG_WORDS) && '&' !in JoinWords(LOG_WORDS)
    ensures Fields(JoinWords(LOG_WORDS)) == LOG_WORDS
  {
    hide Fields, JoinWords;
    var path := "/var/log/openpanel-cron.log";
    assert IsPlain("/var/log/openp") && IsPlain("anel-cron.log");
    PlainJoined("/var/log/openp", "anel-cron.log");
    assert "/var/log/openp" + "anel-cron.log" == path;
    assert IsPlain("echo") && IsPlain("cron") && IsPlain("executed") && IsPlain(">>");
    PlainWords(LOG_WORDS);
    forall i | 0 <= i < |LOG_WORDS|
      ensures IsWord(LOG_WORDS[i])
    {
      PlainIsSingle(LOG_WORDS[i]);
    }
    FieldsOfJoin(LOG_WORDS);
  }

  function Amp(log: bool): string {
    if log then "&&" else "#&&"
  }

  lemma AmpIsWord(log: bool)
    ensures Fields(Amp(log)) == [Amp(log)]
  {
    hide Fields;
    FieldsOfWord(Amp(log), "");
    FieldsOfNothing();
    assert Amp(log) + "" == Amp(log);
  }

  lemma RootIsWord()
    ensures Fields("root") == ["root"]
  {
    hide Fields;
    FieldsOfWord("root", "");
    FieldsOfNothing();
    assert "root" + "" == "root";
  }

  lemma Nested(a: string, b: string, c: string, d: string, e: string, sp: string)
    ensures a + (sp + b + sp) + c + (sp + d + sp) + e == a + sp + (b + sp + (c + sp + (d + sp + e)))
  {
    Regroup(a + (sp + b + sp) + c, sp + d + sp, e);
    Regroup(a + (sp + b + sp), c, sp + d + sp + e);
    Regroup(a, sp + b + sp, c + (sp + d + sp + e));
    assert sp + b + sp + (c + (sp + d + sp + e)) == sp + (b + sp + (c + sp + (d + sp + e)));
  }

  lemma Separators(log: bool)
    ensures " root " == " " + "root" + " "
    ensures (if log then " && " else " #&& ") == " " + Amp(log) + " "
  {
  }

  lemma WrittenParts(schedule: string, command: string, log: bool)
    ensures Written(schedule, command, log) ==
            schedule + " " + ("root" + " " + (Restored(command) + " " + (Amp(log) + " " + JoinWords(LOG_WORDS))))
  {
    hide Restored, JoinWords, Amp;
    Separators(log);
    Nested(schedule, "root", Restored(command), Amp(log), JoinWords(LOG_WORDS), " ");
  }

  lemma WrittenFields(schedule: string, command: string, log: bool)
    ensures Fields(Written(schedule, command, log)) ==
            Fields(schedule) + (["root"] + (Fields(Restored(command)) + ([Amp(log)] + LOG_WORDS)))
  {
    hide Fields, Restored, Written, JoinWords, Amp;
    var tail := Amp(log) + " " + JoinWords(LOG_WORDS);
    WrittenParts(schedule, command, log);
    FieldsConcat(schedule, "root" + " " + (Restored(command) + " " + tail));
    FieldsConcat("root", Restored(command) + " " + tail);
    FieldsConcat(Restored(command), tail);
    FieldsConcat(Amp(log), JoinWords(LOG_WORDS));
    AmpIsWord(log);
    RootIsWord();
    LogWords();
  }

  function Lead(r: string): string {
    if r == "" then "" else r + " "
  }

  lemma OneWord(w: string)
    ensures JoinWords([w]) == w
  {
  }

  lemma PartIs(r: string, log: bool)
    requires Single(r)
    ensures JoinWords(Fields(r) + ([Amp(log)] + LOG_WORDS)) == Lead(r) + Amp(log) + " " + JoinWords(LOG_WORDS)
  {
    hide Fields, Single, Amp, JoinWords;
    var tail := [Amp(log)] + LOG_WORDS;
    SingleIsWords(r);
    OneWord(Amp(log));
    JoinWordsConcat([Amp(log)], LOG_WORDS);
    if r == "" {
      FieldsOfNothing();
      assert [] + tail == tail;
      assert "" + Amp(log) == Amp(log);
    } else {
      JoinWordsConcat(Fields(r), tail);
      Regroup(Lead(r), Amp(log) + " ", JoinWords(LOG_WORDS));
      Regroup(Lead(r), Amp(log), " ");
    }
  }

  lemma AmpOfPart(lead: string, log: bool, rest: string)
    requires NoAmp(lead) && (lead == "" || lead[|lead| - 1] == ' ')
    requires '&' !in rest
    ensures var part := lead + Amp(log) + " " + rest;
            && IndexOfAmp(part) == |lead| + (if log then 0 else 1)
            && HasSkippedAmp(part) == !log
            && part[..|lead|] == lead
            && (!log ==> part[|lead|] == '#')
  {
    var part, at := lead + Amp(log) + " " + rest, |lead| + (if log then 0 else 1);
    assert AmpAt(part, at);
    assert forall i | 0 <= i < |lead| :: part[i] == lead[i];
    assert forall i | at + 2 < i < |part| :: part[i] == rest[i - at - 3];
    assert part[at + 2] == ' ';
    forall i | 0 <= i < |part| && i != at
      ensures !AmpAt(part, i)
    {
      if i < |lead| {
        assert !AmpAt(lead, i);
      }
    }
    if !log {
      assert part[at - 1] == '#';
    }
  }

  lemma LeftStays(t: string)
    requires t != "" && !IsSpace(t[0])
    ensures TrimLeft(t) == t
  {
  }

  lemma RightDrops(r: string, c: char)
    requires r != "" && !IsSpace(r[|r| - 1]) && IsSpace(c)
    ensures TrimRight(r + [c]) == r
  {
    var t := r + [c];
    assert t[..|t| - 1] == r;
    assert TrimRight(r) == r;
  }

  lemma TrimLead(r: string)
    requires Single(r)
    ensures TrimSpace(Lead(r)) == r
  {
    hide TrimLeft, TrimRight;
    if r != "" {
      assert !IsSpace(r[0]) && !IsSpace(r[|r| - 1]);
      LeftStays(r + " ");
      RightDrops(r, ' ');
    }
  }

  lemma LeadNoAmp(r: string)
    requires NoAmp(r)
    ensures NoAmp(Lead(r)) && (Lead(r) == "" || Lead(r)[|Lead(r)| - 1] == ' ')
  {
    forall i | 0 <= i < |Lead(r)|
      ensures !AmpAt(Lead(r), i)
    {
      assert !AmpAt(r, i);
    }
  }

  lemma CutOfPart(r: string, log: bool)
    requires Single(r) && NoAmp(r)
    ensures var part := Lead(r) + Amp(log) + " " + JoinWords(LOG_WORDS);
            && CutCommand(part) == r
            && (IndexOfAmp(part) < |part| && !HasSkippedAmp(part) <==> log)
  {
    hide Single, NoAmp, AmpAt, IndexOfAmp, HasSkippedAmp, TrimSpace, JoinWords;
    LogWords();
    LeadNoAmp(r);
    AmpOfPart(Lead(r), log, JoinWords(LOG_WORDS));
    TrimLead(r);
    var part := Lead(r) + Amp(log) + " " + JoinWords(LOG_WORDS);
    if log && |Lead(r)| > 0 {
      assert part[|Lead(r)| - 1] == ' ';
    }
  }

  /** The commands splitCronLine can show. */
  predicate IsCommand(c: string) {
    Single(c) && NoAmp(c) && Shown(Restored(c)) == c
  }

  lemma ParsedIsCommand(line: string)
    requires SplitCronLine(line).Some?
    ensures IsCommand(SplitCronLine(line).value.command)
  {
    hide Single, NoAmp, Fields, TrimSpace, CutCommand, Shown, Restored, JoinWords, IndexOfAmp, HasSkippedAmp;
    var fields := Fields(TrimSpace(line));
    FieldsAreWords(TrimSpace(line));
    var part := JoinWords(fields[6..]);
    assert AllWords(fields[6..]);
    WordsAreSingle(fields[6..]);
    CutIsCommand(part);
    ShownKeeps(CutCommand(part));
    ShownOfRestored(CutCommand(part));
  }

  // Trimming a line does not change its words

  lemma {:induction false} FieldsTrimLeft(s: string)
    ensures Fields(TrimLeft(s)) == Fields(s)
    decreases |s|
  {
    if s != "" && IsSpace(s[0]) {
      FieldsTrimLeft(s[1..]);
    }
  }

  lemma {:induction false} FieldsDropLast(s: string, c: char)
    requires IsSpace(c)
    ensures Fields(s + [c]) == Fields(s)
    decreases |s|
  {
    hide Fields, IsSpace;
    var t := s + [c];
    FieldsOfNothing();
    if s == "" {
      FieldsSkip(t);
      assert t[1..] == "";
    } else if IsSpace(s[0]) {
      FieldsSkip(t);
      FieldsSkip(s);
      assert t[1..] == s[1..] + [c];
      FieldsDropLast(s[1..], c);
    } else {
      var w, rest := FirstWord(s);
      FieldsOfWord(w, rest);
      FieldsDropLast(rest, c);
      assert (rest + [c])[0] == if rest == "" then c else rest[0];
      FieldsOfWord(w, rest + [c]);
      assert t == w + (rest + [c]);
    }
  }

  lemma {:induction false} FieldsTrimRight(s: string)
    ensures Fields(TrimRight(s)) == Fields(s)
    decreases |s|
  {
    hide Fields, IsSpace;
    if s != "" && IsSpace(s[|s| - 1]) {
      FieldsTrimRight(s[..|s| - 1]);
      FieldsDropLast(s[..|s| - 1], s[|s| - 1]);
      assert s[..|s| - 1] + [s[|s| - 1]] == s;
    }
  }

  lemma FieldsTrim(s: string)
    ensures Fields(TrimSpace(s)) == Fields(s)
  {
    hide Fields, TrimLeft, TrimRight;
    FieldsTrimLeft(s);
    FieldsTrimRight(TrimLeft(s));
  }

  lemma {:induction false} TrimRightKeepsHead(s: string)
    requires s != "" && !IsSpace(s[0])
    ensures TrimRight(s) != "" && TrimRight(s)[0] == s[0]
    decreases |s|
  {
    if IsSpace(s[|s| - 1]) {
      TrimRightKeepsHead(s[..|s| - 1]);
    }
  }

  lemma HeadDecides(s: string)
    requires s != "" && !IsSpace(s[0])
    ensures IsValid(s) <==> s[0] != '#' && s[0] != '@'
  {
    hide TrimLeft, TrimRight;
    LeftStays(s);
    TrimRightKeepsHead(s);
  }

  /** A schedule the page can show as it was posted. */
  predicate IsSchedule(s: string) {
    |Fields(s)| == 5 && JoinWords(Fields(s)) == s
  }

  lemma Slices(a: seq<string>, root: string, b: seq<string>)
    requires |a| == 5
    ensures (a + ([root] + b))[..5] == a && (a + ([root] + b))[6..] == b
  {
  }

  lemma {:induction false} PrefixOfFields(s: string, rest: seq<string>, fields: seq<string>)
    requires fields == Fields(s) + rest && |fields| >= 6 && AllWords(fields)
    ensures JoinWords(fields[..5]) == s ==> |Fields(s)| == 5
  {
    hide Fields, JoinWords;
    assert AllWords(fields[..5]);
    FieldsOfJoin(fields[..5]);
  }

  /** Writing a command that was shown and parsing the line again: the command comes
      back as it was, the log flag as it was set, and the schedule exactly when it is
      five words with single spaces. */
  lemma ReadsBack(schedule: string, command: string, log: bool)
    requires IsCommand(command)
    ensures var job := SplitCronLine(Written(schedule, command, log));
            && (IsSchedule(schedule) ==> job == Some(Job(0, schedule, command, log)))
            && (job.Some? && job.value.schedule == schedule ==> IsSchedule(schedule))
  {
    hide Fields, Restored, Shown, Written, JoinWords, CutCommand, IndexOfAmp, HasSkippedAmp, Single, NoAmp, TrimSpace, Amp;
    var line, r := Written(schedule, command, log), Restored(command);
    FieldsTrim(line);
    WrittenFields(schedule, command, log);
    FieldsAreWords(line);
    var tail := Fields(r) + ([Amp(log)] + LOG_WORDS);
    var fields := Fields(line);
    if |fields| >= 6 {
      PrefixOfFields(schedule, ["root"] + tail, fields);
    }
    if IsSchedule(schedule) {
      Slices(Fields(schedule), "root", tail);
      RestoredKeeps(command);
      PartIs(r, log);
      CutOfPart(r, log);
    }
  }

  // Editing the file

  /** The schedules an edit may post and still find in the list. */
  predicate WellFormed(s: string) {
    IsSchedule(s) && s != "" && s[0] != '#' && s[0] != '@'
  }

  predicate Editable(content: string, n: int) {
    1 <= n <= |SplitLines(content)| && SplitCronLine(SplitLines(content)[n - 1]).Some?
  }

  predicate IsListed(content: string, n: int) {
    1 <= n <= |SplitLines(content)| && JobAt(SplitLines(content), n - 1).Some?
  }

  function CommandAt(content: string, n: int): string
    requires Editable(content, n)
  {
    SplitCronLine(SplitLines(content)[n - 1]).value.command
  }

  lemma SingleIsOneLine(s: string)
    requires Single(s)
    ensures OneLine(s)
  {
    assert forall i | 0 <= i < |s| && s[i] == '\n' :: IsSpace(s[i]);
  }

  lemma LogIsOneLine()
    ensures OneLine(JoinWords(LOG_WORDS))
  {
    hide JoinWords, OneLine, AllWords;
    LogWords();
    JoinWordsTrimmed(LOG_WORDS);
  }

  lemma WrittenIsOneLine(schedule: string, command: string, log: bool)
    requires OneLine(schedule) && IsCommand(command)
    ensures OneLine(Written(schedule, command, log))
  {
    hide JoinWords, Restored, Single, NoAmp;
    RestoredKeeps(command);
    SingleIsOneLine(Restored(command));
    LogIsOneLine();
  }

  lemma ScheduleIsOneLine(s: string)
    requires IsSchedule(s)
    ensures OneLine(s) && s != "" && !IsSpace(s[0])
  {
    hide Fields, JoinWords;
    FieldsAreWords(s);
    JoinWordsTrimmed(Fields(s));
  }

  lemma ParsedScheduleIsOneLine(line: string)
    requires SplitCronLine(line).Some?
    ensures OneLine(SplitCronLine(line).value.schedule)
  {
    hide Fields, JoinWords, CutCommand, Shown, HasSkippedAmp, IndexOfAmp, TrimSpace;
    var fields := Fields(TrimSpace(line));
    FieldsAreWords(TrimSpace(line));
    assert AllWords(fields[..5]);
    JoinWordsTrimmed(fields[..5]);
  }

  lemma WrittenHead(schedule: string, command: string, log: bool)
    requires schedule != ""
    ensures Written(schedule, command, log) != "" && Written(schedule, command, log)[0] == schedule[0]
  {
    hide Restored, JoinWords;
  }

  /** An edit changes one line and keeps every other line byte for byte. */
  lemma EditKeepsOthers(content: string, n: int, schedule: string, log: bool)
    requires OneLine(schedule)
    ensures !Editable(content, n) ==> Edited(content, n, schedule, log) == content
    ensures Editable(content, n) ==>
              SplitLines(Edited(content, n, schedule, log)) ==
              SplitLines(content)[n - 1 := Written(schedule, CommandAt(content, n), log)]
  {
    hide SplitLines, JoinLines, SplitCronLine, Written, OneLine, IsCommand;
    if Editable(content, n) {
      var lines := SplitLines(content);
      ParsedIsCommand(lines[n - 1]);
      WrittenIsOneLine(schedule, CommandAt(content, n), log);
      SplitIsOneLine(content);
      SplitOfJoin(lines[n - 1 := Written(schedule, CommandAt(content, n), log)]);
    }
  }

  /** After the edit of a line that parses, the list shows that line with the posted
      schedule and flag and the same command exactly when the schedule is well formed. */
  lemma EditReadsBack(content: string, n: int, schedule: string, log: bool)
    requires Editable(content, n)
    ensures var after := SplitLines(Edited(content, n, schedule, log));
            n <= |after| && JobAt(after, n - 1) == Some(Job(n, schedule, CommandAt(content, n), log)) <==> WellFormed(schedule)
  {
    hide SplitLines, JoinLines, SplitCronLine, Written, OneLine, IsCommand, IsSchedule, IsValid, IsSpace;
    var after, command := SplitLines(Edited(content, n, schedule, log)), CommandAt(content, n);
    var line := Written(schedule, command, log);
    ParsedIsCommand(SplitLines(content)[n - 1]);
    ReadsBack(schedule, command, log);
    if n <= |after| && JobAt(after, n - 1).Some? && JobAt(after, n - 1).value.schedule == schedule {
      ParsedScheduleIsOneLine(after[n - 1]);
      EditKeepsOthers(content, n, schedule, log);
      assert IsSchedule(schedule);
    }
    if IsSchedule(schedule) {
      ScheduleIsOneLine(schedule);
      EditKeepsOthers(content, n, schedule, log);
      assert after[n - 1] == line;
      WrittenHead(schedule, command, log);
      HeadDecides(line);
    }
  }

  /** The jobs with line n set to a schedule and a flag. */
  function SetJob(jobs: seq<Job>, n: int, schedule: string, log: bool): seq<Job> {
    seq(|jobs|, i requires 0 <= i < |jobs| =>
      if jobs[i].line == n then jobs[i].(schedule := schedule, log := log) else jobs[i])
  }

  lemma {:induction false} JobsChange(a: seq<string>, b: seq<string>, k: nat, n: int, schedule: string, log: bool)
    requires k <= |a| == |b|
    requires forall i | 0 <= i < k && i != n - 1 :: JobAt(b, i) == JobAt(a, i)
    requires 1 <= n <= k ==> JobAt(a, n - 1).Some? && JobAt(b, n - 1) == Some(JobAt(a, n - 1).value.(schedule := schedule, log := log))
    ensures JobsBefore(b, k) == SetJob(JobsBefore(a, k), n, schedule, log)
  {
    hide JobAt;
    if k > 0 {
      JobsChange(a, b, k - 1, n, schedule, log);
      JobLine(a, k - 1);
    }
  }

  lemma JobLine(lines: seq<string>, i: nat)
    requires i < |lines|
    ensures JobAt(lines, i).Some? ==> JobAt(lines, i).value.line == i + 1
  {
    hide IsValid, SplitCronLine;
  }

  lemma SameLineSameJob(a: seq<string>, b: seq<string>, i: nat)
    requires i < |a| && i < |b| && a[i] == b[i]
    ensures JobAt(b, i) == JobAt(a, i)
  {
    hide IsValid, SplitCronLine;
  }

  lemma ListedIsEditable(content: string, n: int)
    requires IsListed(content, n)
    ensures Editable(content, n) && JobAt(SplitLines(content), n - 1).value.command == CommandAt(content, n)
  {
    hide IsValid, SplitCronLine, SplitLines;
  }

  /** Editing a listed job with a well-formed schedule: the same list, with only that
      job's schedule and flag changed, and every command still found on its line. */
  lemma EditedJobs(content: string, n: int, schedule: string, log: bool)
    requires WellFormed(schedule)
    requires IsListed(content, n)
    ensures Jobs(Edited(content, n, schedule, log)) == SetJob(Jobs(content), n, schedule, log)
    ensures |SplitLines(Edited(content, n, schedule, log))| == |SplitLines(content)|
    ensures var a, b := SplitLines(content), SplitLines(Edited(content, n, schedule, log));
            forall i | 0 <= i < |a| ::
              && (JobAt(b, i).Some? <==> JobAt(a, i).Some?)
              && (JobAt(a, i).Some? ==> JobAt(b, i).value.command == JobAt(a, i).value.command)
  {
    hide SplitLines, SplitCronLine, Written, IsValid, IsSchedule, SetJob, JobAt, Edited, OneLine, IsSpace, CommandAt, Editable;
    var a, b := SplitLines(content), SplitLines(Edited(content, n, schedule, log));
    ListedIsEditable(content, n);
    ScheduleIsOneLine(schedule);
    EditKeepsOthers(content, n, schedule, log);
    EditReadsBack(content, n, schedule, log);
    JobLine(a, n - 1);
    forall i | 0 <= i < |a| && i != n - 1
      ensures JobAt(b, i) == JobAt(a, i)
    {
      SameLineSameJob(a, b, i);
    }
    JobsChange(a, b, |a|, n, schedule, log);
  }

  /** A commented line of six words or more is not listed, but an edit of its number
      turns it into a running job. */
  lemma EditActivatesComments(content: string, n: int, schedule: string, log: bool)
    requires Editable(content, n) && !IsListed(content, n) && WellFormed(schedule)
    ensures IsListed(Edited(content, n, schedule, log), n)
  {
    hide SplitLines, SplitCronLine, Written, IsValid, IsSchedule, Edited;
    EditReadsBack(content, n, schedule, log);
  }

  lemma CommentExample()
    ensures Editable("# 0 1 * * x", 1) && !IsListed("# 0 1 * * x", 1)
  {
    hide Fields, SplitLines, CutCommand, Shown, HasSkippedAmp, IndexOfAmp, JoinWords;
    var line := "# 0 1 * * x";
    SplitOfJoin([line]);
    assert JoinLines([line]) == line;
    FieldsTrim(line);
    var words := ["#", "0", "1", "*", "*", "x"];
    ExampleWords();
    FieldsOfJoin(words);
    HeadDecides(line);
  }

  lemma ExampleWords()
    ensures var words := ["#", "0", "1", "*", "*", "x"]; AllWords(words) && JoinWords(words) == "# 0 1 * * x"
  {
    var words := ["#", "0", "1", "*", "*", "x"];
    assert words[4..] == ["*", "x"] && words[2..] == ["1", "*", "*", "x"];
    assert JoinWords(words[4..]) == "* x";
    assert JoinWords(words[3..]) == "* * x";
    assert JoinWords(words[2..]) == "1 * * x";
    assert JoinWords(words[1..]) == "0 1 * * x";
  }

  // What is written and what is listed, said directly

  function JobsAt(lines: seq<string>, n: nat): seq<Option<Job>>
    requires n <= |lines|
  {
    seq(n, i requires 0 <= i < n => JobAt(lines, i))
  }

  function Found(jobs: seq<Job>): seq<Option<Job>> {
    seq(|jobs|, i requires 0 <= i < |jobs| => Some(jobs[i]))
  }

  lemma {:induction false} JobsArePicked(lines: seq<string>, n: nat)
    requires n <= |lines|
    ensures Picks(Found(JobsBefore(lines, n)), JobsAt(lines, n), (job: Option<Job>) => job.Some?)
    decreases n
  {
    hide Picks, JobAt;
    var p := (job: Option<Job>) => job.Some?;
    if n == 0 {
      PicksNothing(p);
      assert Found(JobsBefore(lines, n)) == [] && JobsAt(lines, n) == [];
    } else {
      JobsArePicked(lines, n - 1);
      PicksSnoc(Found(JobsBefore(lines, n - 1)), JobsAt(lines, n - 1), JobAt(lines, n - 1), p);
      assert JobsAt(lines, n - 1) + [JobAt(lines, n - 1)] == JobsAt(lines, n);
      assert Found(JobsBefore(lines, n)) ==
             if JobAt(lines, n - 1).Some? then Found(JobsBefore(lines, n - 1)) + [JobAt(lines, n - 1)] else Found(JobsBefore(lines, n - 1));
    }
  }

  /** The list has the job of every line that has one, in the order of the lines. */
  lemma EveryJobIsListed(content: string)
    ensures Picks(Found(Jobs(content)), JobsAt(SplitLines(content), |SplitLines(content)|), (job: Option<Job>) => job.Some?)
  {
    hide Picks, JobAt, SplitLines, JobsBefore;
    JobsArePicked(SplitLines(content), |SplitLines(content)|);
  }

  lemma LogHead()
    ensures JoinWords(["echo", "cron", "executed"]) == "echo cron executed"
  {
    var words := ["echo", "cron", "executed"];
    assert words[1..] == ["cron", "executed"] && words[1..][1..] == ["executed"];
    assert JoinWords(words[1..]) == "cron executed";
  }

  lemma LogTail()
    ensures JoinWords([">>", "/var/log/openpanel-cron.log"]) == ">> /var/log/openpanel-cron.log"
  {
    var words := [">>", "/var/log/openpanel-cron.log"];
    assert words[1..] == ["/var/log/openpanel-cron.log"];
  }

  lemma LogText()
    ensures JoinWords(LOG_WORDS) == "echo cron executed >> /var/log/openpanel-cron.log"
  {
    hide JoinWords;
    LogHead();
    LogTail();
    JoinWordsConcat(["echo", "cron", "executed"], [">>", "/var/log/openpanel-cron.log"]);
    assert LOG_WORDS == ["echo", "cron", "executed"] + [">>", "/var/log/openpanel-cron.log"];
    LogTwoParts();
  }

  lemma LogTwoParts()
    ensures "echo cron executed" + " " + ">> /var/log/openpanel-cron.log" == "echo cron executed >> /var/log/openpanel-cron.log"
  {
  }

  lemma OpencliPath()
    ensures OPENCLI_PATH == "/usr/local/bin/opencli" && |OPENCLI_PATH| == 22
  {
  }

  lemma LegacyScript()
    ensures LEGACY_SENTINEL == "/bin/bash /usr/local/admin/service/notifications.sh"
  {
  }

  lemma LegacyLength()
    ensures |LEGACY_SENTINEL| == 51
  {
  }

  lemma RestoredIs(command: string)
    ensures Restored(command) == if "opencli" <= command then "/usr/local/bin/opencli" + command[7..] else command
  {
    hide OPENCLI_PATH;
    OpencliPath();
  }

  /** The edited line: the posted schedule, root, the command with the full path of
      opencli, and the log redirection behind "&&", or behind "#&&" to switch it off. */
  lemma EditWrites(content: string, n: int, schedule: string, log: bool)
    requires Editable(content, n) && OneLine(schedule)
    ensures var after, command := SplitLines(Edited(content, n, schedule, log)), CommandAt(content, n);
            && n <= |after|
            && after[n - 1] == schedule + " root " + (if "opencli" <= command then "/usr/local/bin/opencli" + command[7..] else command)
                               + (if log then " && " else " #&& ") + "echo cron executed >> /var/log/openpanel-cron.log"
  {
    hide SplitLines, SplitCronLine, JoinWords, Restored, OneLine, Edited;
    EditKeepsOthers(content, n, schedule, log);
    LogText();
    RestoredIs(CommandAt(content, n));
  }

  /** A line is listed exactly if it has at least six words, the first of which begins
      neither a comment nor a nickname like @daily. */
  lemma ListedExactly(lines: seq<string>, i: nat)
    requires i < |lines|
    ensures JobAt(lines, i).Some? <==> |Fields(lines[i])| >= 6 && Fields(lines[i])[0] != "" && Fields(lines[i])[0][0] !in {'#', '@'}
  {
    hide Fields, TrimLeft, TrimRight, CutCommand, Shown, HasSkippedAmp, IndexOfAmp, JoinWords;
    var line := TrimSpace(lines[i]);
    FieldsTrim(lines[i]);
    if line == "" {
      FieldsOfNothing();
    } else {
      var w, rest := FirstWord(line);
      FieldsOfWord(w, rest);
      assert line[0] == w[0];
    }
  }

  /** What is read from a line: the schedule is its first five words; the command is the
      text from the seventh word on, up to the first "&&" and a "#" before it; logging is
      on if there is an "&&" and none of them has a "#" before it. The full path of
      opencli and the old notification script are shown as opencli commands. */
  lemma LineReads(line: string)
    requires |Fields(line)| >= 6
    ensures SplitCronLine(line).Some?
    ensures var job, rest := SplitCronLine(line).value, JoinWords(Fields(line)[6..]);
            && job.schedule == JoinWords(Fields(line)[..5])
            && (job.log <==> (exists i :: AmpAt(rest, i)) && !(exists i :: i > 0 && AmpAt(rest, i) && rest[i - 1] == '#'))
            && (NoAmp(rest) ==> job.command == ShownAs(TrimSpace(rest)))
            && (forall i: nat | IsFirstAmp(rest, i) ::
                  job.command == ShownAs(TrimSpace(if i > 0 && rest[i - 1] == '#' then rest[..i - 1] else rest[..i])))
  {
    hide Fields, TrimSpace, JoinWords, CutCommand, Shown, ShownAs, IndexOfAmp, HasSkippedAmp, NoAmp, IsFirstAmp;
    FieldsTrim(line);
    var rest := JoinWords(Fields(line)[6..]);
    LogIs(rest);
    CommandIs(rest);
    ShownIs(CutCommand(rest));
  }

  predicate IsFirstAmp(s: string, i: nat) {
    AmpAt(s, i) && forall k | 0 <= k < i :: !AmpAt(s, k)
  }

  lemma LogIs(rest: string)
    ensures IndexOfAmp(rest) < |rest| && !HasSkippedAmp(rest) <==>
            (exists i :: AmpAt(rest, i)) && !(exists i :: i > 0 && AmpAt(rest, i) && rest[i - 1] == '#')
  {
  }

  lemma CommandIs(rest: string)
    ensures NoAmp(rest) ==> CutCommand(rest) == TrimSpace(rest)
    ensures forall i: nat | IsFirstAmp(rest, i) :: CutCommand(rest) == TrimSpace(if i > 0 && rest[i - 1] == '#' then rest[..i - 1] else rest[..i])
  {
    hide TrimSpace;
    assert rest[..|rest|] == rest;
  }

  function ShownAs(command: string): string {
    if "/usr/local/bin/opencli" <= command then "opencli" + command[22..]
    else if "/bin/bash /usr/local/admin/service/notifications.sh" <= command then "opencli sentinel" + command[51..]
    else command
  }

  lemma ShownIs(command: string)
    ensures Shown(command) == ShownAs(command)
  {
    hide OPENCLI_PATH, LEGACY_SENTINEL;
    OpencliPath();
    LegacyScript();
    LegacyLength();
    OpencliIsNotLegacy(command);
    assert SENTINEL == "opencli sentinel";
  }

  lemma OpencliIsNotLegacy(command: string)
    ensures OPENCLI_PATH <= command ==> !(LEGACY_SENTINEL <= OPENCLI + command[|OPENCLI_PATH|..])
  {
    if OPENCLI_PATH <= command {
      var shown := OPENCLI + command[|OPENCLI_PATH|..];
      Starts();
      assert shown[0] == OPENCLI[0];
      NotPrefix(LEGACY_SENTINEL, shown);
    }
  }
}
