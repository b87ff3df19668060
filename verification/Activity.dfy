/** internal/activity/activity.go: the log of the changes an administrator made. Sizes are
    in bytes, so the text is taken to be ASCII. */
module Activity {
  import opened Text

  const DIR := "/var/log/openpanel/admin/activity"
  const MAX_SIZE := 2_000_000
  const KEEP_SIZE := 1_000_000
  const LAST_CHUNK := 8192

  datatype Entry = Entry(time: string, ip: string, action: string)

  // Files

  predicate IsNameChar(c: char) {
    'A' <= c <= 'Z' || 'a' <= c <= 'z' || '0' <= c <= '9' || c == '.' || c == '_' || c == '-'
  }

  /** The log file of a user; None for names that are not safe as a file name. */
  function Path(username: string): Option<string> {
    if username == "" || (exists i | 0 <= i < |username| :: !IsNameChar(username[i])) || username == "." || username == ".." then None
    else Some(DIR + "/" + username + ".log")
  }

  /** Every user writes a file of their own, directly inside the directory. */
  lemma PathIsOwn(a: string, b: string)
    requires Path(a).Some?
    ensures Path(a) == Path(b) ==> a == b
    ensures forall i | |DIR| < i < |Path(a).value| :: Path(a).value[i] != '/'
  {
    var p := DIR + "/" + a + ".log";
    assert p[|DIR| + 1..|p| - 4] == a;
    assert forall i | |DIR| < i < |p| - 4 :: p[i] == a[i - |DIR| - 1] && IsNameChar(p[i]);
    if Path(a) == Path(b) {
      var q := DIR + "/" + b + ".log";
      assert q[|DIR| + 1..|q| - 4] == b;
    }
  }

  predicate IsSafeName(username: string) {
    username != "" && username != "." && username != ".." && forall c | c in username :: IsSafe(c)
  }

  predicate IsSafe(c: char) {
    c in "ABCDEFGHIJKLMNOPQRSTUVWXYZ" || c in "abcdefghijklmnopqrstuvwxyz" || c in "0123456789" || c in "._-"
  }

  lemma NameChars(c: char)
    ensures IsNameChar(c) <==> IsSafe(c)
  {
    UpperCase(c);
    LowerCase(c);
    Digit(c);
  }

  /** Exactly the names of letters, digits, ".", "_" and "-" have a file, except for the
      two that name directories. */
  lemma PathExactly(username: string)
    ensures Path(username) == if IsSafeName(username) then Some("/var/log/openpanel/admin/activity/" + username + ".log") else None
  {
    hide IsNameChar, IsSafe;
    forall c: char
      ensures IsNameChar(c) <==> IsSafe(c)
    {
      NameChars(c);
    }
    assert forall i | 0 <= i < |username| :: username[i] in username;
    assert DIR + "/" == "/var/log/openpanel/admin/activity/";
  }

  // Writing

  function Normal(action: string): string {
    JoinWords(Fields(action))
  }

  function LogLine(e: Entry): string {
    e.time + "  " + e.ip + "  " + e.action
  }

  function Trim(content: string): string {
    if |content| <= MAX_SIZE then content
    else
      var tail := content[|content| - KEEP_SIZE..];
      var i := IndexOf(tail, '\n');
      if i < |tail| then tail[i + 1..] else tail
  }

  function Appended(content: string, line: string): string {
    Trim(content + line + "\n")
  }

  // Reading

  /** The position of the first two spaces, or |s|. */
  function IndexOfGap(s: string): (i: nat)
    ensures i <= |s| && (i < |s| ==> IsGap(s, i))
    ensures forall j | 0 <= j < i :: !IsGap(s, j)
  {
    if |s| < 2 then |s| else if s[0] == ' ' && s[1] == ' ' then 0 else
      assert forall j | 1 <= j < |s| :: IsGap(s, j) == IsGap(s[1..], j - 1);
      1 + IndexOfGap(s[1..])
  }

  predicate IsGap(s: string, i: int) {
    0 <= i < |s| - 1 && s[i] == ' ' && s[i + 1] == ' '
  }

  /** strings.SplitN(line, "  ", 3) has three parts. */
  function Parse(line: string): Option<Entry> {
    var i := IndexOfGap(line);
    if i == |line| then None
    else
      var rest := line[i + 2..];
      var j := IndexOfGap(rest);
      if j == |rest| then None else Some(Entry(line[..i], rest[..j], rest[j + 2..]))
  }

  function DropReturn(line: string): string {
    if line != "" && line[|line| - 1] == '\r' then line[..|line| - 1] else line
  }

  /** The lines a bufio.Scanner sees. */
  function Scanned(content: string): seq<string> {
    var lines := SplitLines(content);
    if lines[|lines| - 1] == "" then lines[..|lines| - 1] else lines
  }

  function ParsedAll(lines: seq<string>): seq<Entry>
    decreases |lines|
  {
    if lines == [] then []
    else
      var init := ParsedAll(lines[..|lines| - 1]);
      match Parse(DropReturn(lines[|lines| - 1]))
      case None => init
      case Some(e) => init + [e]
  }

  function Newest(entries: seq<Entry>): seq<Entry> {
    seq(|entries|, i requires 0 <= i < |entries| => entries[|entries| - 1 - i])
  }

  /** What Read returns, newest first. */
  function ReadOf(content: string): seq<Entry> {
    Newest(ParsedAll(Scanned(content)))
  }

  /** The last n bytes. */
  function Ending(s: string, n: nat): string {
    if |s| <= n then s else s[|s| - n..]
  }

  /** What Last returns. */
  function LastOf(content: string): Option<Entry> {
    if content == "" then None
    else
      var lines := SplitLines(TrimNewlines(Ending(content, LAST_CHUNK)));
      Parse(lines[|lines| - 1])
  }

  class Activity {
    var files: map<string, string>

    constructor ()
      ensures files == map[]
    {
      files := map[];
    }

    method Record(username: string, ip: string, action: string, now: string)
      modifies this
      ensures Path(username).None? || action == "" ==> files == old(files)
      ensures Path(username).Some? && action != "" ==>
                var e := Entry(now, if ip == "" then "0.0.0.0" else ip, Normal(action));
                var path := Path(username).value;
                && files == old(files)[path := Appended(if path in old(files) then old(files)[path] else "", LogLine(e))]
                && (forall es | LogOf(es) == (if path in old(files) then old(files)[path] else "") :: files[path] == LogOf(es + [e]))
                && Fields(e.action) == Fields(action)
                && (IsStamp(now) && OneLine(ip) && IsClean(ip) ==> IsRecorded(e))
    {
      hide Fields, JoinWords, IndexOf, LogOf, IsRecorded, IsStamp, IsClean, Path, Trim;
      var path := Path(username);
      if path.None? || action == "" {
        return;
      }
      var address := if ip == "" then "0.0.0.0" else ip;
      var line := now + "  " + address + "  " + JoinWords(Fields(action)) + "\n";
      var before := if path.value in files then files[path.value] else "";
      assert before + line == before + LogLine(Entry(now, address, Normal(action))) + "\n";
      files := files[path.value := before + line];
      TrimFile(path.value);
      ghost var e := Entry(now, address, Normal(action));
      NormalKeepsWords(action);
      forall es | LogOf(es) == before
        ensures files[path.value] == LogOf(es + [e])
      {
        RecordExtends(es, e);
      }
      if IsStamp(now) && OneLine(ip) && IsClean(ip) {
        EntryIsRecorded(now, ip, action);
      }
    }

    method TrimFile(path: string)
      modifies this
      ensures files == if path in old(files) then old(files)[path := Trim(old(files)[path])] else old(files)
    {
      if path !in files || |files[path]| <= MAX_SIZE {
        return;
      }
      var tail := files[path][|files[path]| - KEEP_SIZE..];
      var i := IndexOf(tail, '\n');
      if i < |tail| {
        tail := tail[i + 1..];
      }
      files := files[path := tail];
    }

    method Read(username: string) returns (entries: array<Entry>)
      ensures entries[..] ==
              if Path(username).None? || Path(username).value !in files then [] else ReadOf(files[Path(username).value])
      ensures fresh(entries)
    {
      hide Parse, Scanned, DropReturn;
      var path := Path(username);
      if path.None? || path.value !in files {
        entries := new Entry[0];
        return;
      }
      var lines := Scanned(files[path.value]);
      var found: seq<Entry> := [];
      for n := 0 to |lines|
        invariant found == ParsedAll(lines[..n])
      {
        assert lines[..n + 1][..n] == lines[..n];
        var e := Parse(DropReturn(lines[n]));
        if e.Some? {
          found := found + [e.value];
        }
      }
      assert lines[..|lines|] == lines;
      entries := new Entry[|found|](i requires 0 <= i < |found| => found[i]);
      assert entries[..] == found;
      TurnAround(entries);
    }

    method Last(username: string) returns (entry: Option<Entry>)
      ensures entry == if Path(username).None? || Path(username).value !in files then None else LastOf(files[Path(username).value])
    {
      hide Parse, TrimNewlines, SplitLines;
      var path := Path(username);
      if path.None? || path.value !in files {
        return None;
      }
      var content := files[path.value];
      var size := |content|;
      if size == 0 {
        return None;
      }
      var chunk := LAST_CHUNK;
      if chunk > size {
        chunk := size;
      }
      assert content[size - chunk..] == Ending(content, LAST_CHUNK);
      var lines := SplitLines(TrimNewlines(content[size - chunk..]));
      entry := Parse(lines[|lines| - 1]);
    }
  }

  /** The loop at the end of Read. */
  method TurnAround(a: array<Entry>)
    modifies a
    ensures a[..] == Newest(old(a[..]))
  {
    var i, j := 0, a.Length - 1;
    while i < j
      invariant 0 <= i && j == a.Length - 1 - i && i <= j + 2
      invariant forall k | 0 <= k < a.Length :: a[k] == if i <= k <= j then old(a[k]) else old(a[a.Length - 1 - k])
    {
      a[i], a[j] := a[j], a[i];
      i, j := i + 1, j - 1;
    }
  }

  // The log is a tail of what was recorded

  lemma {:induction false} SuffixAfterNewline(ls: seq<string>, p: nat) returns (k: nat)
    requires AllOneLine(ls) && 0 < p <= |Unlines(ls)| && Unlines(ls)[p - 1] == '\n'
    ensures k <= |ls| && Unlines(ls)[p..] == Unlines(ls[k..])
    decreases |ls|
  {
    var n := |ls[0]| + 1;
    var rest := Unlines(ls[1..]);
    assert Unlines(ls) == ls[0] + "\n" + rest;
    assert forall q | 0 <= q < |ls[0]| :: Unlines(ls)[q] == ls[0][q];
    assert p >= n;
    if p == n {
      k := 1;
    } else {
      var m := SuffixAfterNewline(ls[1..], p - n);
      k := m + 1;
      assert ls[1..][m..] == ls[k..];
      assert Unlines(ls)[p..] == rest[p - n..];
    }
  }

  lemma {:induction false} IndexOfAtMost(s: string, c: char, at: nat)
    requires at < |s| && s[at] == c
    ensures IndexOf(s, c) <= at
    decreases |s|
  {
    if s[0] != c {
      IndexOfAtMost(s[1..], c, at - 1);
    }
  }

  lemma UnlinesSnoc(ls: seq<string>)
    requires ls != []
    ensures Unlines(ls) == Unlines(ls[..|ls| - 1]) + ls[|ls| - 1] + "\n"
  {
    hide Unlines;
    var init, last := ls[..|ls| - 1], ls[|ls| - 1];
    assert ls == init + [last];
    UnlinesConcat(init, [last]);
    UnlinesOne(last);
    Regroup(Unlines(init), last, "\n");
  }

  lemma UnlinesEmpty(ls: seq<string>)
    ensures Unlines(ls) == "" <==> ls == []
    ensures ls != [] ==> Unlines(ls)[|Unlines(ls)| - 1] == '\n'
  {
    if ls != [] {
      UnlinesSnoc(ls);
    }
  }

  /** Trimming keeps the newest whole lines, at most two million bytes. The newest
      line itself survives exactly when it fits into a million bytes with the newline before it. */
  lemma TrimKeepsLines(ls: seq<string>) returns (k: nat)
    requires AllOneLine(ls)
    ensures k <= |ls| && Trim(Unlines(ls)) == Unlines(ls[k..])
    ensures |Trim(Unlines(ls))| <= 2_000_000 && (|Unlines(ls)| <= 2_000_000 ==> k == 0)
    ensures ls != [] ==> (k < |ls| <==> |Unlines(ls)| <= 2_000_000 || |ls[|ls| - 1]| + 2 <= 1_000_000)
  {
    hide Unlines, IndexOf;
    var content := Unlines(ls);
    UnlinesEmpty(ls);
    if |content| <= MAX_SIZE {
      k := 0;
      assert ls[0..] == ls;
    } else {
      var from := |content| - KEEP_SIZE;
      var tail := content[from..];
      var i := IndexOf(tail, '\n');
      assert tail[KEEP_SIZE - 1] == '\n';
      IndexOfAtMost(tail, '\n', KEEP_SIZE - 1);
      var p := from + i + 1;
      assert content[p - 1] == tail[i];
      k := SuffixAfterNewline(ls, p);
      assert tail[i + 1..] == content[p..];
      UnlinesEmpty(ls[k..]);
      assert k < |ls| <==> i < KEEP_SIZE - 1;
      FirstNewline(ls, i);
    }
  }

  lemma FirstNewline(ls: seq<string>, i: nat)
    requires AllOneLine(ls) && |Unlines(ls)| > MAX_SIZE && ls != []
    requires i == IndexOf(Unlines(ls)[|Unlines(ls)| - KEEP_SIZE..], '\n')
    ensures i < KEEP_SIZE - 1 <==> |ls[|ls| - 1]| + 2 <= KEEP_SIZE
  {
    hide Unlines, IndexOf;
    var content, init, last := Unlines(ls), Unlines(ls[..|ls| - 1]), ls[|ls| - 1];
    UnlinesSnoc(ls);
    UnlinesEmpty(ls[..|ls| - 1]);
    var tail := content[|content| - KEEP_SIZE..];
    var at := KEEP_SIZE - |last| - 2;
    if at >= 0 {
      assert |init| > 0;
      assert tail[at] == content[|init| - 1] == '\n';
      IndexOfAtMost(tail, '\n', at);
    } else {
      forall m | 0 <= m < KEEP_SIZE - 1
        ensures tail[m] != '\n'
      {
        assert tail[m] == last[m - at - 1];
      }
    }
  }

  /** The file after recording entries, oldest first, starting from no file. */
  function LogOf(entries: seq<Entry>): string
    decreases |entries|
  {
    if entries == [] then ""
    else Appended(LogOf(entries[..|entries| - 1]), LogLine(entries[|entries| - 1]))
  }

  /** Record appends one entry to what the runs before it left. */
  lemma RecordExtends(entries: seq<Entry>, e: Entry)
    ensures LogOf(entries + [e]) == Appended(LogOf(entries), LogLine(e))
  {
    hide Appended, LogLine;
    assert (entries + [e])[..|entries|] == entries;
  }

  function LogLines(entries: seq<Entry>): seq<string> {
    seq(|entries|, i requires 0 <= i < |entries| => LogLine(entries[i]))
  }

  predicate Fits(content: string, line: string) {
    |content| + |line| + 1 <= 2_000_000 || |line| + 2 <= 1_000_000
  }

  /** Over any run of Record the log holds the newest whole entries, within two
      million bytes; the last entry is among them exactly when it fits. */
  lemma {:induction false} LogIsTail(entries: seq<Entry>) returns (k: nat)
    requires AllOneLine(LogLines(entries))
    ensures k <= |entries| && LogOf(entries) == Unlines(LogLines(entries[k..]))
    ensures |LogOf(entries)| <= 2_000_000
    ensures entries != [] ==>
              (k < |entries| <==> Fits(LogOf(entries[..|entries| - 1]), LogLine(entries[|entries| - 1])))
    decreases |entries|
  {
    hide Unlines, Trim, LogLine;
    k := 0;
    if entries == [] {
      UnlinesEmpty(LogLines(entries[k..]));
    } else {
      var init, last := entries[..|entries| - 1], entries[|entries| - 1];
      assert forall i | 0 <= i < |init| :: LogLines(init)[i] == LogLines(entries)[i];
      var j := LogIsTail(init);
      var kept := LogLines(entries[j..]);
      assert kept == LogLines(init[j..]) + [LogLine(last)];
      UnlinesSnoc(kept);
      assert kept[..|kept| - 1] == LogLines(init[j..]);
      assert forall i | 0 <= i < |kept| :: kept[i] == LogLines(entries)[i + j];
      var m := TrimKeepsLines(kept);
      k := j + m;
      assert kept[m..] == LogLines(entries[k..]);
    }
  }

  /** Two actions of a million bytes each: the second one empties the log, itself
      included. */
  lemma LongActionEmptiesTheLog()
    ensures var e := Entry("2026-01-01 00:00:00", "0.0.0.0", seq(1_000_000, _ => 'x'));
            LogOf([e]) != "" && LogOf([e, e]) == ""
  {
    hide LogLine, LogOf, Unlines;
    var e := Entry("2026-01-01 00:00:00", "0.0.0.0", seq(KEEP_SIZE, _ => 'x'));
    LongLine(e);
    assert LogLines([e]) == [LogLine(e)] && LogLines([e, e]) == [LogLine(e), LogLine(e)];
    LogOfOne(e);
    var k := LogIsTail([e, e]);
    assert [e, e][..1] == [e];
    UnlinesEmpty(LogLines([e, e][k..]));
  }

  lemma LongLine(e: Entry)
    requires |e.time| == 19 && |e.ip| == 7 && OneLine(e.time) && OneLine(e.ip) && e.action == seq(KEEP_SIZE, _ => 'x')
    ensures OneLine(LogLine(e)) && |LogLine(e)| == KEEP_SIZE + 30
  {
    assert OneLine(e.action) && OneLine("  ");
  }

  lemma LogOfOne(e: Entry)
    requires |LogLine(e)| < MAX_SIZE
    ensures LogOf([e]) == LogLine(e) + "\n"
  {
    hide LogLine;
    assert [e][..0] == [];
    assert "" + LogLine(e) + "\n" == LogLine(e) + "\n";
  }

  // Each line parses back

  /** time.Now().Format("2006-01-02 15:04:05") */
  predicate IsStamp(now: string) {
    |now| == 19 && now[10] == ' ' && forall i | 0 <= i < 19 && i != 10 :: !IsSpace(now[i])
  }

  predicate HasGap(s: string) {
    exists i | 0 <= i < |s| :: IsGap(s, i)
  }

  predicate IsClean(s: string) {
    !HasGap(s) && (s == "" || s[|s| - 1] != ' ')
  }

  lemma GapAfter(s: string, rest: string)
    requires IsClean(s)
    ensures IndexOfGap(s + "  " + rest) == |s|
    ensures (s + "  " + rest)[..|s|] == s && (s + "  " + rest)[|s| + 2..] == rest
  {
    var t := s + "  " + rest;
    assert IsGap(t, |s|);
    forall i | 0 <= i < |s|
      ensures !IsGap(t, i)
    {
      assert !IsGap(s, i);
    }
  }

  lemma GapWithin(s: string, rest: string)
    requires IndexOfGap(s + "  " + rest) == |s|
    ensures IsClean(s)
  {
    var t := s + "  " + rest;
    forall i | 0 <= i < |s|
      ensures !IsGap(s, i)
    {
      assert !IsGap(t, i);
    }
    if s != "" {
      assert !IsGap(t, |s| - 1);
    }
  }

  lemma StampIsClean(now: string)
    requires IsStamp(now)
    ensures IsClean(now)
  {
  }

  lemma ParseParts(e: Entry)
    requires IsClean(e.time)
    ensures LogLine(e) == e.time + "  " + (e.ip + "  " + e.action)
    ensures Parse(LogLine(e)) == Some(e) <==> IndexOfGap(e.ip + "  " + e.action) == |e.ip|
  {
    hide IndexOfGap, IsClean;
    var rest := e.ip + "  " + e.action;
    Reassociate(e.time + "  ", e.ip, "  ", e.action);
    GapAfter(e.time, rest);
    assert rest[..|e.ip|] == e.ip && rest[|e.ip| + 2..] == e.action;
  }

  lemma Reassociate(a: string, b: string, c: string, d: string)
    ensures a + b + c + d == a + (b + c + d)
  {
  }

  /** A recorded line parses back to its time, address and action exactly when the
      address holds no double space and does not end in a space. */
  lemma ParsesBack(e: Entry)
    requires IsStamp(e.time)
    ensures Parse(LogLine(e)) == Some(e) <==> IsClean(e.ip)
  {
    hide IndexOfGap, IsClean, Parse, LogLine;
    StampIsClean(e.time);
    ParseParts(e);
    if IsClean(e.ip) {
      GapAfter(e.ip, e.action);
    }
    if IndexOfGap(e.ip + "  " + e.action) == |e.ip| {
      GapWithin(e.ip, e.action);
    }
  }

  /** Only the white space between the words changes. */
  lemma NormalKeepsWords(action: string)
    ensures Fields(Normal(action)) == Fields(action)
  {
    hide Fields, JoinWords;
    FieldsAreWords(action);
    FieldsOfJoin(Fields(action));
  }

  lemma NormalIsNormal(action: string)
    ensures Normal(Normal(action)) == Normal(action)
  {
    hide Fields, JoinWords;
    NormalKeepsWords(action);
  }

  /** An entry as Record writes it, for an address that parses back. */
  predicate IsRecorded(e: Entry) {
    IsStamp(e.time) && OneLine(e.ip) && IsClean(e.ip) && e.action == Normal(e.action)
  }

  /** Record writes entries that parse back, for an address that does. */
  lemma EntryIsRecorded(now: string, ip: string, action: string)
    requires IsStamp(now) && OneLine(ip) && IsClean(ip)
    ensures IsRecorded(Entry(now, if ip == "" then "0.0.0.0" else ip, Normal(action)))
  {
    hide Normal, IsStamp;
    NormalIsNormal(action);
    assert OneLine("0.0.0.0") && IsClean("0.0.0.0");
  }

  lemma RecordedLine(e: Entry)
    requires IsRecorded(e)
    ensures OneLine(LogLine(e)) && LogLine(e) != "" && DropReturn(LogLine(e)) == LogLine(e)
    ensures Parse(LogLine(e)) == Some(e)
  {
    hide Fields, JoinWords, IsClean, Parse;
    ParsesBack(e);
    FieldsAreWords(e.action);
    JoinWordsTrimmed(Fields(e.action));
    var line := LogLine(e);
    assert line[|line| - 1] == if e.action == "" then ' ' else e.action[|e.action| - 1];
    assert OneLine(e.time) by { StampOneLine(e.time); }
  }

  lemma StampOneLine(now: string)
    requires IsStamp(now)
    ensures OneLine(now)
  {
    assert forall i | 0 <= i < 19 && now[i] == '\n' :: IsSpace(now[i]);
  }

  // Reading the log

  lemma {:induction false} AllParse(entries: seq<Entry>)
    requires forall i | 0 <= i < |entries| :: IsRecorded(entries[i])
    ensures ParsedAll(LogLines(entries)) == entries
    decreases |entries|
  {
    hide Parse, DropReturn, LogLine, IsRecorded;
    if entries != [] {
      var init, last := entries[..|entries| - 1], entries[|entries| - 1];
      AllParse(init);
      RecordedLine(last);
      assert LogLines(entries)[..|entries| - 1] == LogLines(init);
      assert entries == init + [last];
    }
  }

  /** The lines of the file, with or without a newline behind the last one. */
  lemma ScannedLines(lines: seq<string>, last: string)
    requires AllOneLine(lines) && OneLine(last)
    ensures Scanned(Unlines(lines) + last) == if last == "" then lines else lines + [last]
  {
    hide SplitLines, Unlines;
    SplitOfUnlines(lines, last);
    SplitWhole(last);
  }

  /** A carriage return in front of the newline does not belong to the line. */
  lemma ReturnIsDropped(line: string)
    ensures DropReturn(line + "\r") == line
    ensures line == "" || line[|line| - 1] != '\r' ==> DropReturn(line) == line
  {
    assert (line + "\r")[..|line|] == line;
  }

  lemma SplitFirst(s: string, i: nat)
    requires i == IndexOf(s, '\n') < |s|
    ensures SplitLines(s) == [s[..i]] + SplitLines(s[i + 1..])
  {
  }

  lemma {:induction false} LastLine(before: string, line: string)
    requires OneLine(line) && (before == "" || before[|before| - 1] == '\n')
    ensures var lines := SplitLines(before + line); lines[|lines| - 1] == line
    decreases |before|
  {
    hide SplitLines, IndexOf, OneLine;
    var s := before + line;
    if before == "" {
      assert s == line;
      SplitWhole(line);
    } else {
      var i := IndexOf(s, '\n');
      IndexOfAtMost(s, '\n', |before| - 1);
      var rest := before[i + 1..];
      assert s[i + 1..] == rest + line;
      SplitFirst(s, i);
      LastLine(rest, line);
    }
  }

  lemma TrimOneNewline(s: string)
    requires s != "" && s[|s| - 1] != '\n'
    ensures TrimNewlines(s + "\n") == s
  {
    var t := s + "\n";
    assert t[..|t| - 1] == s;
    assert TrimNewlines(s) == s;
  }

  /** The bytes Last looks at, before the final newline: some text up to a newline, and
      the newest line or the end of it. */
  lemma ChunkParts(init: string, line: string, content: string, n: nat) returns (before: string)
    requires content == init + line + "\n" && n > 0
    requires init == "" || init[|init| - 1] == '\n'
    ensures Ending(content, n + 1) == before + Ending(line, n) + "\n"
    ensures before == "" || before[|before| - 1] == '\n'
  {
    var from := |content| - n - 1;
    if from <= 0 {
      before := init;
    } else if from <= |init| {
      before := init[from..];
      assert content[from..] == before + line + "\n";
    } else {
      before := "";
      assert content[from..] == line[from - |init|..] + "\n";
    }
  }

  lemma SplitEnd(before: string, seen: string)
    requires OneLine(seen) && seen != "" && (before == "" || before[|before| - 1] == '\n')
    ensures var lines := SplitLines(TrimNewlines(before + seen + "\n")); lines[|lines| - 1] == seen
  {
    hide SplitLines, TrimNewlines;
    assert (before + seen)[|before + seen| - 1] == seen[|seen| - 1];
    TrimOneNewline(before + seen);
    LastLine(before, seen);
  }

  lemma LastOfChunk(content: string, before: string, seen: string)
    requires content != "" && Ending(content, LAST_CHUNK) == before + seen + "\n"
    requires OneLine(seen) && seen != "" && (before == "" || before[|before| - 1] == '\n')
    ensures LastOf(content) == Parse(seen)
  {
    hide SplitLines, TrimNewlines, Parse, Ending, OneLine;
    SplitEnd(before, seen);
  }

  /** What Last parses: the newest line, or its last 8191 bytes when it is longer. */
  lemma LastReads(lines: seq<string>)
    requires AllOneLine(lines) && lines != [] && lines[|lines| - 1] != ""
    ensures LastOf(Unlines(lines)) == Parse(Ending(lines[|lines| - 1], 8191))
  {
    hide Unlines, Parse, Ending, LastOf, OneLine;
    var line, init := lines[|lines| - 1], Unlines(lines[..|lines| - 1]);
    UnlinesSnoc(lines);
    UnlinesEmpty(lines[..|lines| - 1]);
    var before := ChunkParts(init, line, Unlines(lines), LAST_CHUNK - 1);
    EndingSays(line, LAST_CHUNK - 1);
    LastOfChunk(Unlines(lines), before, Ending(line, LAST_CHUNK - 1));
  }

  lemma EndingSays(s: string, n: nat)
    requires n > 0
    ensures OneLine(s) ==> OneLine(Ending(s, n))
    ensures s != "" ==> Ending(s, n) != ""
    ensures |s| <= n ==> Ending(s, n) == s
  {
  }

  /** Reading after any run: Read returns the kept entries newest first, and Last the
      entry Read has in front, as long as the newest line has at most 8191 bytes. */
  lemma ReadsWhatWasRecorded(entries: seq<Entry>) returns (k: nat)
    requires forall i | 0 <= i < |entries| :: IsRecorded(entries[i])
    ensures k <= |entries| && |ReadOf(LogOf(entries))| == |entries| - k
    ensures forall i | 0 <= i < |entries| - k :: ReadOf(LogOf(entries))[i] == entries[|entries| - 1 - i]
    ensures entries != [] && |LogLine(entries[|entries| - 1])| <= 8191 ==>
              && k < |entries|
              && LastOf(LogOf(entries)) == Some(entries[|entries| - 1]) == Some(ReadOf(LogOf(entries))[0])
  {
    hide LogLine, IsRecorded, Unlines, LogOf, Parse, Scanned, ParsedAll, LastOf, Ending;
    forall i | 0 <= i < |entries|
      ensures OneLine(LogLines(entries)[i])
    {
      RecordedLine(entries[i]);
    }
    k := LogIsTail(entries);
    var kept := entries[k..];
    assert forall i | 0 <= i < |kept| :: LogLines(kept)[i] == LogLines(entries)[i + k];
    ScannedLines(LogLines(kept), "");
    assert Unlines(LogLines(kept)) + "" == Unlines(LogLines(kept));
    AllParse(kept);
    if entries != [] && |LogLine(entries[|entries| - 1])| < LAST_CHUNK {
      var lines := LogLines(kept);
      RecordedLine(entries[|entries| - 1]);
      LastReads(lines);
      EndingSays(lines[|lines| - 1], LAST_CHUNK - 1);
    }
  }
}
