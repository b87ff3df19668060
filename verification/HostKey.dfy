/** internal/handlers/backups_ssh_hostkey.go: keeping the SSH host key of backup.env in
    step with the SSH destination. */
module HostKey {
  import opened Text
  import opened EnvFile
  import opened EnvForm
  import opened EnvRoundTrip

  const HOST := "SSH_HOST_NAME"
  const PORT := "SSH_PORT"
  const USER := "SSH_USER"
  const PUBLIC_KEY := "SSH_HOST_PUBLIC_KEY"

  // Active values

  predicate IsActive(line: string, k: string) {
    MatchLine(line).Setting? && !MatchLine(line).commented && MatchLine(line).key == k
  }

  predicate IsExample(line: string, k: string) {
    MatchLine(line).Setting? && MatchLine(line).commented && MatchLine(line).key == k
  }

  function ActiveStep(line: string, k: string, v: Option<string>): Option<string> {
    if IsActive(line, k) then Some(Unquote(MatchLine(line).raw)) else v
  }

  /** The value of the last uncommented line of a key. */
  function ActiveOf(lines: seq<string>, k: string, v: Option<string>): Option<string>
    decreases |lines|
  {
    if lines == [] then v
    else ActiveOf(lines[1..], k, ActiveStep(lines[0], k, v))
  }

  function ActiveValue(content: string, k: string): Option<string> {
    ActiveOf(SplitLines(content), k, None)
  }

  /** Reading a missing key of the map of values. */
  function Value(content: string, k: string): string {
    ActiveValue(content, k).GetOr("")
  }

  method BackupEnvValues(content: string) returns (values: map<string, string>)
    ensures forall k :: (if k in values then Some(values[k]) else None) == ActiveValue(content, k)
  {
    values := map[];
    var lines := SplitLines(content);
    for n := 0 to |lines|
      invariant forall k :: ActiveOf(lines[n..], k, if k in values then Some(values[k]) else None) == ActiveValue(content, k)
    {
      hide MatchLine, Unquote, SplitLines;
      assert lines[n..][1..] == lines[n + 1..];
      var m := MatchLine(lines[n]);
      if m.Setting? && !m.commented {
        values := values[m.key := Unquote(m.raw)];
      }
    }
    assert lines[|lines|..] == [];
  }

  lemma {:induction false} ActiveConcat(a: seq<string>, b: seq<string>, k: string, v: Option<string>)
    ensures ActiveOf(a + b, k, v) == ActiveOf(b, k, ActiveOf(a, k, v))
    decreases |a|
  {
    hide ActiveStep;
    if a == [] {
      assert a + b == b;
    } else {
      assert (a + b)[1..] == a[1..] + b;
      ActiveConcat(a[1..], b, k, ActiveStep(a[0], k, v));
    }
  }

  lemma ActiveOne(line: string, k: string, v: Option<string>)
    ensures ActiveOf([line], k, v) == ActiveStep(line, k, v)
  {
    hide ActiveStep;
    assert [line][1..] == [];
  }

  function ActiveCount(lines: seq<string>, k: string): nat
    decreases |lines|
  {
    if lines == [] then 0 else (if IsActive(lines[0], k) then 1 else 0) + ActiveCount(lines[1..], k)
  }

  lemma {:induction false} CountConcat(a: seq<string>, b: seq<string>, k: string)
    ensures ActiveCount(a + b, k) == ActiveCount(a, k) + ActiveCount(b, k)
    decreases |a|
  {
    hide IsActive;
    if a == [] {
      assert a + b == b;
    } else {
      assert (a + b)[1..] == a[1..] + b;
      CountConcat(a[1..], b, k);
    }
  }

  lemma {:induction false} NoneActive(lines: seq<string>, k: string, v: Option<string>)
    requires ActiveCount(lines, k) == 0
    ensures ActiveOf(lines, k, v) == v
    ensures forall i | 0 <= i < |lines| :: !IsActive(lines[i], k)
    decreases |lines|
  {
    hide IsActive, MatchLine;
    if lines != [] {
      NoneActive(lines[1..], k, v);
    }
  }

  lemma {:induction false} CountZero(lines: seq<string>, k: string)
    requires forall i | 0 <= i < |lines| :: !IsActive(lines[i], k)
    ensures ActiveCount(lines, k) == 0
    decreases |lines|
  {
    hide IsActive;
    if lines != [] {
      CountZero(lines[1..], k);
    }
  }

  // Setting one value

  /** What the scan of setBackupEnvValue ends with. */
  datatype Place = Active(i: nat) | Example(i: nat) | After(i: nat) | AtEnd

  function PrefixOfKey(key: string): string {
    if IndexOf(key, '_') == |key| then "" else key[..IndexOf(key, '_') + 1]
  }

  ghost predicate PlaceIs(lines: seq<string>, key: string, p: Place) {
    match p
    case Active(i) => i < |lines| && IsActive(lines[i], key) && forall j | 0 <= j < i :: !IsActive(lines[j], key)
    case Example(i) =>
      && i < |lines| && IsExample(lines[i], key) && (forall j | 0 <= j < |lines| :: !IsActive(lines[j], key))
      && forall j | 0 <= j < i :: !IsExample(lines[j], key)
    case After(i) =>
      && i < |lines| && HasPrefix(lines[i], PrefixOfKey(key)) && (forall j | i < j < |lines| :: !HasPrefix(lines[j], PrefixOfKey(key)))
      && forall j | 0 <= j < |lines| :: !IsActive(lines[j], key) && !IsExample(lines[j], key)
    case AtEnd => forall j | 0 <= j < |lines| :: !HasPrefix(lines[j], PrefixOfKey(key)) && !IsActive(lines[j], key) && !IsExample(lines[j], key)
  }

  predicate HasPrefix(line: string, prefix: string) {
    MatchLine(line).Setting? && prefix <= MatchLine(line).key
  }

  function SetAt(lines: seq<string>, p: Place, line: string): seq<string> {
    match p
    case Active(i) => if i < |lines| then lines[i := line] else lines
    case Example(i) => if i < |lines| then lines[i := line] else lines
    case After(i) => if i < |lines| then lines[..i + 1] + [line] + lines[i + 1..] else lines
    case AtEnd => lines + [line]
  }

  method FindPlace(lines: seq<string>, key: string) returns (p: Place)
    ensures PlaceIs(lines, key, p)
  {
    hide MatchLine, PrefixOfKey;
    var commented, after := -1, -1;
    var prefix := PrefixOfKey(key);
    for i := 0 to |lines|
      invariant -1 <= commented < i && -1 <= after < i
      invariant forall j | 0 <= j < i :: !IsActive(lines[j], key)
      invariant if commented < 0 then forall j | 0 <= j < i :: !IsExample(lines[j], key)
                else IsExample(lines[commented], key) && forall j | 0 <= j < commented :: !IsExample(lines[j], key)
      invariant forall j | after < j < i :: !HasPrefix(lines[j], prefix)
      invariant after >= 0 ==> HasPrefix(lines[after], prefix)
    {
      var m := MatchLine(lines[i]);
      if m.Other? {
        continue;
      }
      if m.key == key {
        if !m.commented {
          return Active(i);
        }
        if commented < 0 {
          commented := i;
        }
      }
      if prefix <= m.key {
        after := i;
      }
    }
    if commented >= 0 {
      return Example(commented);
    } else if after >= 0 {
      return After(after);
    }
    p := AtEnd;
  }

  /** Up to and with the first underscore. */
  lemma PrefixIs(name: string, rest: string)
    requires '_' !in name
    ensures PrefixOfKey(name + "_" + rest) == name + "_"
    ensures PrefixOfKey(name) == ""
  {
    hide IndexOf;
    var key := name + "_" + rest;
    assert key[..|name|] == name && key[..|name| + 1] == name + "_";
    IndexOfIs(key, '_', |name|);
  }

  /** The place of a key in terms of the lines: an active line of the key before any
      other, else the first comment of it, else behind the last setting that begins with
      the prefix, else the end of the file. */
  lemma PlaceExactly(lines: seq<string>, key: string, prefix: string, p: Place)
    requires PlaceIs(lines, key, p) && prefix == PrefixOfKey(key)
    ensures p.Active? <==> exists j, raw :: 0 <= j < |lines| && MatchLine(lines[j]) == Setting(false, key, raw)
    ensures p.Active? ==> p.i < |lines| && exists raw :: MatchLine(lines[p.i]) == Setting(false, key, raw)
    ensures p.Active? ==> forall j, raw | 0 <= j < p.i :: MatchLine(lines[j]) != Setting(false, key, raw)
    ensures !p.Active? ==> (p.Example? <==> exists j, raw :: 0 <= j < |lines| && MatchLine(lines[j]) == Setting(true, key, raw))
    ensures p.Example? ==> p.i < |lines| && exists raw :: MatchLine(lines[p.i]) == Setting(true, key, raw)
    ensures p.Example? ==> forall j, raw | 0 <= j < p.i :: MatchLine(lines[j]) != Setting(true, key, raw)
    ensures p.After? ==> p.i < |lines| && MatchLine(lines[p.i]).Setting? && prefix <= MatchLine(lines[p.i]).key
    ensures p.After? ==> forall j | p.i < j < |lines| && MatchLine(lines[j]).Setting? :: !(prefix <= MatchLine(lines[j]).key)
    ensures p.AtEnd? ==> forall j | 0 <= j < |lines| && MatchLine(lines[j]).Setting? :: !(prefix <= MatchLine(lines[j]).key)
  {
    hide MatchLine, PrefixOfKey;
    forall j, raw | 0 <= j < |lines| && MatchLine(lines[j]) == Setting(false, key, raw)
      ensures IsActive(lines[j], key)
    {
    }
    forall j, raw | 0 <= j < |lines| && MatchLine(lines[j]) == Setting(true, key, raw)
      ensures IsExample(lines[j], key)
    {
    }
    if p.Active? {
      assert MatchLine(lines[p.i]) == Setting(false, key, MatchLine(lines[p.i]).raw);
    }
    if p.Example? {
      assert MatchLine(lines[p.i]) == Setting(true, key, MatchLine(lines[p.i]).raw);
    }
  }

  /** The file with a key set at its place. */
  ghost predicate IsSetTo(content: string, key: string, value: string, text: string) {
    exists p :: PlaceIs(SplitLines(TrimNewlines(content)), key, p) && text == TextWith(content, key, value, p)
  }

  function TextWith(content: string, key: string, value: string, p: Place): string {
    JoinLines(SetAt(SplitLines(TrimNewlines(content)), p, ActiveLine(key, value))) + "\n"
  }

  method SetBackupEnvValue(content: string, key: string, value: string) returns (text: string)
    ensures IsSetTo(content, key, value, text)
  {
    hide MatchLine, PlaceIs, SplitLines, TrimNewlines;
    var lines := SplitLines(TrimNewlines(content));
    var place := FindPlace(lines, key);
    var line := key + "=" + value;
    match place {
      case Active(i) =>
        if i < |lines| {
          lines := lines[i := line];
        }
      case Example(i) =>
        if i < |lines| {
          lines := lines[i := line];
        }
      case After(i) =>
        if i < |lines| {
          lines := lines[..i + 1] + [line] + lines[i + 1..];
        }
      case AtEnd =>
        lines := lines + [line];
    }
    text := JoinLines(lines) + "\n";
    assert text == TextWith(content, key, value, place);
  }

  lemma SplitAround(lines: seq<string>, i: nat, line: string)
    requires i < |lines|
    ensures lines == lines[..i] + [lines[i]] + lines[i + 1..]
    ensures lines[i := line] == lines[..i] + [line] + lines[i + 1..]
    ensures lines[..i + 1] == lines[..i] + [lines[i]]
  {
  }

  /** Replacing a line that sets no other active key. */
  lemma ReplaceEffect(lines: seq<string>, i: nat, key: string, value: string, k: string)
    requires i < |lines| && IsKey(key)
    requires IsActive(lines[i], key) || IsExample(lines[i], key)
    ensures var out := ActiveOf(lines[i := ActiveLine(key, value)], k, None);
            out == if k == key then ActiveOf(lines[i + 1..], key, Some(Unquote(value))) else ActiveOf(lines, k, None)
  {
    hide MatchLine, Unquote, ActiveLine, IsKey;
    var line := ActiveLine(key, value);
    MatchActive(key, value);
    SplitAround(lines, i, line);
    ActiveConcat(lines[..i] + [line], lines[i + 1..], k, None);
    ActiveConcat(lines[..i], [line], k, None);
    ActiveConcat(lines[..i] + [lines[i]], lines[i + 1..], k, None);
    ActiveConcat(lines[..i], [lines[i]], k, None);
    ActiveOne(line, k, ActiveOf(lines[..i], k, None));
    ActiveOne(lines[i], k, ActiveOf(lines[..i], k, None));
  }

  lemma InsertEffect(a: seq<string>, b: seq<string>, key: string, value: string, k: string)
    requires IsKey(key)
    ensures ActiveOf(a + [ActiveLine(key, value)] + b, k, None) ==
            if k == key then ActiveOf(b, key, Some(Unquote(value))) else ActiveOf(a + b, k, None)
  {
    hide MatchLine, Unquote, ActiveLine, IsKey;
    var line := ActiveLine(key, value);
    MatchActive(key, value);
    ActiveConcat(a + [line], b, k, None);
    ActiveConcat(a, [line], k, None);
    ActiveConcat(a, b, k, None);
    ActiveOne(line, k, ActiveOf(a, k, None));
  }

  /** Setting a key changes no other active value. The key itself gets the value, unless
      a second active line of it comes later. */
  lemma SetEffect(lines: seq<string>, key: string, value: string, p: Place, k: string)
    requires IsKey(key) && PlaceIs(lines, key, p)
    ensures k != key ==> ActiveOf(SetAt(lines, p, ActiveLine(key, value)), k, None) == ActiveOf(lines, k, None)
    ensures ActiveCount(lines, key) <= 1 ==> ActiveOf(SetAt(lines, p, ActiveLine(key, value)), key, None) == Some(Unquote(value))
  {
    hide MatchLine, Unquote, ActiveLine, IsKey, IsActive, IsExample, HasPrefix;
    match p
    case Active(i) =>
      ReplaceEffect(lines, i, key, value, k);
      ReplaceEffect(lines, i, key, value, key);
      SplitAround(lines, i, "");
      CountConcat(lines[..i] + [lines[i]], lines[i + 1..], key);
      CountConcat(lines[..i], [lines[i]], key);
      CountOne(lines[i], key);
      if ActiveCount(lines, key) <= 1 {
        NoneActive(lines[i + 1..], key, Some(Unquote(value)));
      }
    case Example(i) =>
      ReplaceEffect(lines, i, key, value, k);
      ReplaceEffect(lines, i, key, value, key);
      CountZero(lines[i + 1..], key);
      NoneActive(lines[i + 1..], key, Some(Unquote(value)));
    case After(i) =>
      InsertEffect(lines[..i + 1], lines[i + 1..], key, value, k);
      InsertEffect(lines[..i + 1], lines[i + 1..], key, value, key);
      assert lines[..i + 1] + lines[i + 1..] == lines;
      CountZero(lines[i + 1..], key);
      NoneActive(lines[i + 1..], key, Some(Unquote(value)));
    case AtEnd =>
      InsertEffect(lines, [], key, value, k);
      InsertEffect(lines, [], key, value, key);
      assert lines + [ActiveLine(key, value)] + [] == lines + [ActiveLine(key, value)] && lines + [] == lines;
  }

  lemma CountOne(line: string, k: string)
    ensures ActiveCount([line], k) == if IsActive(line, k) then 1 else 0
  {
    hide IsActive;
    assert [line][1..] == [];
  }

  // From lines to the text of the file

  lemma BlankNotActive(k: string)
    ensures !IsActive("", k)
  {
    BlankLine();
    hide MatchLine;
  }

  lemma {:induction false} TrimmedActive(content: string, k: string)
    ensures ActiveOf(SplitLines(TrimNewlines(content)), k, None) == ActiveValue(content, k)
    ensures ActiveCount(SplitLines(TrimNewlines(content)), k) == ActiveCount(SplitLines(content), k)
    decreases |content|
  {
    hide SplitLines, IsActive, MatchLine, Unquote;
    if content != "" && content[|content| - 1] == '\n' {
      var init := content[..|content| - 1];
      assert content == init + "\n";
      SplitSnoc(init);
      ActiveConcat(SplitLines(init), [""], k, None);
      CountConcat(SplitLines(init), [""], k);
      ActiveOne("", k, ActiveOf(SplitLines(init), k, None));
      CountOne("", k);
      BlankNotActive(k);
      TrimmedActive(init, k);
    }
  }

  lemma JoinedActive(lines: seq<string>, k: string)
    requires lines != [] && AllOneLine(lines)
    ensures ActiveValue(JoinLines(lines) + "\n", k) == ActiveOf(lines, k, None)
    ensures ActiveCount(SplitLines(JoinLines(lines) + "\n"), k) == ActiveCount(lines, k)
  {
    hide SplitLines, JoinLines, IsActive, MatchLine, Unquote, OneLine;
    UnlinesOfJoin(lines);
    SplitOfUnlines(lines, "");
    assert Unlines(lines) + "" == Unlines(lines);
    SplitNothing();
    ActiveConcat(lines, [""], k, None);
    CountConcat(lines, [""], k);
    ActiveOne("", k, ActiveOf(lines, k, None));
    CountOne("", k);
    BlankNotActive(k);
  }

  /** setBackupEnvValue on a whole file. */
  lemma SetInFile(content: string, key: string, value: string, p: Place, k: string)
    requires IsKey(key) && OneLine(value) && PlaceIs(SplitLines(TrimNewlines(content)), key, p)
    ensures var text := TextWith(content, key, value, p);
            && (k != key ==> ActiveValue(text, k) == ActiveValue(content, k))
            && (ActiveCount(SplitLines(content), key) <= 1 ==> ActiveValue(text, key) == Some(Unquote(value)))
  {
    hide SplitLines, JoinLines, IsActive, MatchLine, Unquote, OneLine, PlaceIs, IsKey, ActiveLine, TrimNewlines;
    var lines := SplitLines(TrimNewlines(content));
    var out := SetAt(lines, p, ActiveLine(key, value));
    SplitIsOneLine(TrimNewlines(content));
    KeyOneLine(key, value);
    SetEffect(lines, key, value, p, k);
    JoinedActive(out, k);
    JoinedActive(out, key);
    TrimmedActive(content, k);
    TrimmedActive(content, key);
  }

  // Pinning

  /** What is asked before a host key is fetched. */
  predicate NeedsKey(before: string, after: string) {
    && Value(after, HOST) != ""
    && (Value(after, PUBLIC_KEY) == "" || (Moved(before, after) && Value(after, PUBLIC_KEY) == Value(before, PUBLIC_KEY)))
  }

  predicate Moved(before: string, after: string) {
    Value(before, HOST) != Value(after, HOST) || Value(before, PORT) != Value(after, PORT)
  }

  /** The file as pinning leaves it, key being what fetching the host key gave. */
  ghost predicate Pinned(before: string, after: string, key: Option<string>, text: string) {
    if !NeedsKey(before, after) || key.None? then text == after
    else IsSetTo(after, PUBLIC_KEY, "\"" + key.value + "\"", text)
  }

  /** fetch reads a server's host key; it returns None when the server cannot be reached. */
  method PinBackupSSHHostKey(before: string, after: string, fetch: (string, string, string) -> Option<string>) returns (text: string, ok: bool)
    ensures var key := fetch(Value(after, "SSH_HOST_NAME"), if Value(after, "SSH_PORT") == "" then "22" else Value(after, "SSH_PORT"), Value(after, "SSH_USER"));
            Pinned(before, after, key, text) && (ok <==> !NeedsKey(before, after) || key.Some?)
    ensures Value(after, "SSH_HOST_NAME") == "" ==> text == after && ok
    ensures Value(after, "SSH_HOST_PUBLIC_KEY") != ""
              && ((Value(before, "SSH_HOST_NAME") == Value(after, "SSH_HOST_NAME") && Value(before, "SSH_PORT") == Value(after, "SSH_PORT"))
                  || Value(before, "SSH_HOST_PUBLIC_KEY") != Value(after, "SSH_HOST_PUBLIC_KEY")) ==>
                text == after && ok
  {
    hide ActiveValue, IsSetTo;
    var prev := BackupEnvValues(before);
    var next := BackupEnvValues(after);
    var host := Get(next, HOST);
    assert forall k :: Get(next, k) == Value(after, k) && Get(prev, k) == Value(before, k);
    if host == "" {
      return after, true;
    }
    var port := Get(next, PORT);
    if port == "" {
      port := "22";
    }
    var key := Get(next, PUBLIC_KEY);
    var moved := Get(prev, HOST) != host || Get(prev, PORT) != Get(next, PORT);
    if key != "" && (!moved || key != Get(prev, PUBLIC_KEY)) {
      return after, true;
    }
    var fetched := fetch(host, port, Get(next, USER));
    if fetched.None? {
      return after, false;
    }
    text := SetBackupEnvValue(after, PUBLIC_KEY, "\"" + fetched.value + "\"");
    ok := true;
  }

  lemma PublicKeyIsKey()
    ensures IsKey(PUBLIC_KEY) && SectionOf(PUBLIC_KEY) == SSH && IsKey(HOST) && SectionOf(HOST) == SSH
    ensures PUBLIC_KEY in SectionKeys(SSH)
  {
    hide SectionOf, IsKey;
    assert SSH_KEYS_2[2] == PUBLIC_KEY && SSH_KEYS_1[0] == HOST;
    assert PUBLIC_KEY in SectionKeys(SSH) && HOST in SectionKeys(SSH);
    SectionIs(PUBLIC_KEY, SSH);
    SectionIs(HOST, SSH);
  }

  /** A key kept for the same host, or one the administrator just typed, is left alone,
      whatever fetching gave; the file changes only for an active host whose key is
      missing or is still the old one after host or port moved. */
  lemma PinKeeps(before: string, after: string, key: Option<string>, text: string)
    requires Pinned(before, after, key, text)
    ensures Value(after, "SSH_HOST_PUBLIC_KEY") != ""
              && ((Value(before, "SSH_HOST_NAME") == Value(after, "SSH_HOST_NAME") && Value(before, "SSH_PORT") == Value(after, "SSH_PORT"))
                  || Value(before, "SSH_HOST_PUBLIC_KEY") != Value(after, "SSH_HOST_PUBLIC_KEY")) ==>
                text == after
    ensures text != after ==>
              && key.Some? && Value(after, "SSH_HOST_NAME") != ""
              && (Value(after, "SSH_HOST_PUBLIC_KEY") == ""
                  || (Value(before, "SSH_HOST_PUBLIC_KEY") == Value(after, "SSH_HOST_PUBLIC_KEY")
                      && (Value(before, "SSH_HOST_NAME") != Value(after, "SSH_HOST_NAME") || Value(before, "SSH_PORT") != Value(after, "SSH_PORT"))))
  {
    hide ActiveValue, IsSetTo;
  }

  /** Pinning changes no other active key, and none at all while no SSH host is active.
      With an SSH host active and at most one active host key line, an answer becomes the
      host key if there was none, or the old server's after host or port moved. */
  lemma PinEffect(before: string, after: string, key: Option<string>, text: string)
    requires Pinned(before, after, key, text)
    requires key.Some? ==> key.value != "" && OneLine(key.value)
    requires ActiveCount(SplitLines(after), PUBLIC_KEY) <= 1
    ensures forall k | k != "SSH_HOST_PUBLIC_KEY" :: ActiveValue(text, k) == ActiveValue(after, k)
    ensures Value(after, "SSH_HOST_NAME") == "" ==> text == after
    ensures Value(after, "SSH_HOST_NAME") != "" && key.Some?
              && (Value(after, "SSH_HOST_PUBLIC_KEY") == ""
                  || (Value(before, "SSH_HOST_PUBLIC_KEY") == Value(after, "SSH_HOST_PUBLIC_KEY")
                      && (Value(before, "SSH_HOST_NAME") != Value(after, "SSH_HOST_NAME") || Value(before, "SSH_PORT") != Value(after, "SSH_PORT")))) ==>
                Value(text, "SSH_HOST_PUBLIC_KEY") == key.value
    ensures Value(after, HOST) != "" && (NeedsKey(before, after) ==> key.Some?) ==>
              && Value(text, PUBLIC_KEY) != ""
              && (Moved(before, after) && Value(text, PUBLIC_KEY) == Value(before, PUBLIC_KEY) ==> key == Some(Value(text, PUBLIC_KEY)))
  {
    hide ActiveValue, SplitLines, PlaceIs, TrimNewlines, ActiveLine, JoinLines, SetAt, SectionKeys, SectionOf, IsKey, OneLine, Unquote;
    if NeedsKey(before, after) && key.Some? {
      var p :| PlaceIs(SplitLines(TrimNewlines(after)), PUBLIC_KEY, p) && text == TextWith(after, PUBLIC_KEY, "\"" + key.value + "\"", p);
      var quoted := "\"" + key.value + "\"";
      PublicKeyIsKey();
      assert OneLine(quoted) by { QuotedOneLine(key.value); }
      UnquoteQuoted(key.value);
      forall k | k != PUBLIC_KEY
        ensures ActiveValue(text, k) == ActiveValue(after, k)
      {
        SetInFile(after, PUBLIC_KEY, quoted, p, k);
      }
      SetInFile(after, PUBLIC_KEY, quoted, p, PUBLIC_KEY);
    }
  }

  lemma QuotedOneLine(v: string)
    requires OneLine(v)
    ensures OneLine("\"" + v + "\"")
  {
  }

  // Pinning after a form was saved

  lemma CountRewrites(lines: seq<string>, post: Post, written: set<string>, k: string)
    requires SectionOf(k) == post.destination && post.destination != ""
    ensures ActiveCount(RewriteAll(lines, post, written), k) <=
            if k in written || k !in AllWritten(lines, post, written) then 0 else 1
    ensures k in written ==> k in AllWritten(lines, post, written)
    decreases |lines|
  {
    hide MatchLine, SectionOf, Unquote, Rewrite;
    if lines != [] {
      var first := Rewrite(lines[0], post, written);
      var after := WrittenAfter(lines[0], post, written);
      RewriteSays(lines[0], post, written);
      var rest := RewriteAll(lines[1..], post, after);
      assert ([first] + rest)[1..] == rest;
      CountRewrites(lines[1..], post, after, k);
    }
  }

  lemma {:induction false} CountMissing(keys: seq<string>, post: Post, written: set<string>, k: string)
    requires forall x | x in keys :: IsKey(x)
    requires forall i, j | 0 <= i < j < |keys| :: keys[i] != k || keys[j] != k
    ensures ActiveCount(Missing(keys, post, written), k) <= if k in keys && k !in written then 1 else 0
    decreases |keys|
  {
    hide MatchLine, Unquote, IsKey, ActiveLine;
    if keys != [] {
      var x, init := keys[|keys| - 1], keys[..|keys| - 1];
      assert x in keys;
      assert forall y :: y in keys <==> y in init || y == x;
      CountMissing(init, post, written, k);
      if x !in written && Get(post.values, x) != "" {
        MatchActive(x, post.values[x]);
        CountConcat(Missing(init, post, written), [ActiveLine(x, post.values[x])], k);
        CountOne(ActiveLine(x, post.values[x]), k);
      }
    }
  }

  lemma PublicKeyOnce()
    ensures forall i, j | 0 <= i < j < |SectionKeys(SSH)| :: SectionKeys(SSH)[i] != PUBLIC_KEY || SectionKeys(SSH)[j] != PUBLIC_KEY
  {
    var keys := SSH_KEYS_1 + SSH_KEYS_2;
    assert forall i | 0 <= i < 5 :: keys[i] == SSH_KEYS_1[i] && |SSH_KEYS_1[i]| < 16;
    assert |keys[5]| == 17 && |keys[6]| == 23 && |PUBLIC_KEY| == 19;
  }

  /** A saved form has at most one active host key line, and no active SSH host unless
      SSH was chosen. */
  lemma SavedHostKeyLines(content: string, post: Post)
    requires PostOk(post)
    ensures ActiveCount(SplitLines(Rendered(content, post)), PUBLIC_KEY) <= 1
    ensures post.destination != SSH ==> ActiveValue(Rendered(content, post), HOST) == None
  {
    hide SplitLines, SectionKeys, SectionOf, IsSection, Missing, RewriteAll, IsKey, MatchLine, OneLineValues, Unquote, ActiveOf, Covers, AllWritten;
    RenderedSplits(content, post);
    DestKeysOk(post);
    PublicKeyIsKey();
    var lines, keys := SplitLines(TrimNewlines(content)), SectionKeys(post.destination);
    var a, written := RewriteAll(lines, post, {}), AllWritten(lines, post, {});
    var b := Missing(keys, post, written);
    CountConcat(a + b, [""], PUBLIC_KEY);
    CountConcat(a, b, PUBLIC_KEY);
    CountOne("", PUBLIC_KEY);
    BlankNotActive(PUBLIC_KEY);
    if post.destination == SSH {
      PublicKeyOnce();
      CountRewrites(lines, post, {}, PUBLIC_KEY);
      CountMissing(keys, post, written, PUBLIC_KEY);
    } else {
      OtherDestination(content, post, HOST);
      OtherDestination(content, post, PUBLIC_KEY);
    }
  }

  /** No key of a destination that was not chosen is active after saving. */
  lemma OtherDestination(content: string, post: Post, k: string)
    requires PostOk(post) && SectionOf(k) != "" && SectionOf(k) != post.destination
    ensures ActiveCount(SplitLines(Rendered(content, post)), k) == 0
    ensures ActiveValue(Rendered(content, post), k) == None
  {
    hide SplitLines, SectionKeys, SectionOf, IsSection, Missing, RewriteAll, IsKey, MatchLine, OneLineValues, Unquote, Covers, Rendered, ParseLines, SomeValuePosted;
    var out := SplitLines(Rendered(content, post));
    SavedActive(content, post, SectionOf(k));
    ParsedActive(NOTHING, out, SectionOf(k));
    forall i | 0 <= i < |out|
      ensures !IsActive(out[i], k)
    {
      assert !Activates(MatchLine(out[i]), SectionOf(k));
    }
    CountZero(out, k);
    NoneActive(out, k, None);
  }

  /** Saving a form and then pinning: with another destination chosen the file stays as
      it was rendered; with an SSH host active, success leaves a host key, and if host or
      port moved it is not the old server's unless the new one answers with the same. */
  lemma SaveThenPin(current: string, post: Post, key: Option<string>, text: string)
    requires PostOk(post) && Pinned(current, Rendered(current, post), key, text)
    requires key.Some? ==> key.value != "" && OneLine(key.value)
    ensures post.destination != SSH ==> text == Rendered(current, post)
    ensures forall k | k != PUBLIC_KEY :: ActiveValue(text, k) == ActiveValue(Rendered(current, post), k)
    ensures var saved := Rendered(current, post);
            Value(saved, HOST) != "" && (NeedsKey(current, saved) ==> key.Some?) ==>
              && Value(text, PUBLIC_KEY) != ""
              && (Moved(current, saved) && Value(text, PUBLIC_KEY) == Value(current, PUBLIC_KEY) ==> key == Some(Value(text, PUBLIC_KEY)))
    ensures var saved := Rendered(current, post);
            Value(saved, "SSH_HOST_PUBLIC_KEY") != ""
              && ((Value(current, "SSH_HOST_NAME") == Value(saved, "SSH_HOST_NAME") && Value(current, "SSH_PORT") == Value(saved, "SSH_PORT"))
                  || Value(current, "SSH_HOST_PUBLIC_KEY") != Value(saved, "SSH_HOST_PUBLIC_KEY")) ==>
                text == saved
  {
    hide Pinned, Rendered, PostOk, ActiveValue, SplitLines, NeedsKey, Moved;
    SavedHostKeyLines(current, post);
    PinEffect(current, Rendered(current, post), key, text);
    PinKeeps(current, Rendered(current, post), key, text);
  }
}
