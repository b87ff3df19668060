/** What the form shows after a posted form was written into backup.env. */
module EnvRoundTrip {
  import opened Text
  import opened EnvFile
  import opened EnvForm

  // The parser, seen one key, one section and one list at a time

  function ValueStep(m: Line, k: string, v: Option<string>): Option<string> {
    match m
    case Other => v
    case Setting(commented, key, raw) => if key == k && (v.None? || !commented) then Some(Unquote(raw)) else v
  }

  function ValueOf(lines: seq<string>, k: string, v: Option<string>): Option<string>
    decreases |lines|
  {
    if lines == [] then v else ValueOf(lines[1..], k, ValueStep(MatchLine(lines[0]), k, v))
  }

  function ValueIn(p: Parsed, k: string): Option<string> {
    if k in p.values then Some(p.values[k]) else None
  }

  lemma {:induction false} ParsedValue(p: Parsed, lines: seq<string>, k: string)
    requires SectionOf(k) != ""
    ensures ValueIn(ParseLines(p, lines), k) == ValueOf(lines, k, ValueIn(p, k))
    decreases |lines|
  {
    hide MatchLine, SectionOf, Unquote;
    if lines != [] {
      ParsedValue(ParseLine(p, lines[0]), lines[1..], k);
    }
  }

  predicate Activates(m: Line, section: string) {
    m.Setting? && !m.commented && SectionOf(m.key) == section && section != ""
  }

  ghost predicate SomeActivates(lines: seq<string>, section: string) {
    exists i | 0 <= i < |lines| :: Activates(MatchLine(lines[i]), section)
  }

  lemma SomeActivatesConcat(a: seq<string>, b: seq<string>, section: string)
    ensures SomeActivates(a + b, section) <==> SomeActivates(a, section) || SomeActivates(b, section)
  {
    hide MatchLine, Activates;
    var c := a + b;
    if SomeActivates(a, section) {
      var i :| 0 <= i < |a| && Activates(MatchLine(a[i]), section);
      assert c[i] == a[i];
    }
    if SomeActivates(b, section) {
      var i :| 0 <= i < |b| && Activates(MatchLine(b[i]), section);
      assert c[|a| + i] == b[i];
    }
    if SomeActivates(c, section) {
      var i :| 0 <= i < |c| && Activates(MatchLine(c[i]), section);
      assert i < |a| ==> c[i] == a[i];
      assert i >= |a| ==> c[i] == b[i - |a|];
    }
  }

  lemma {:induction false} ParsedActive(p: Parsed, lines: seq<string>, section: string)
    ensures section in ParseLines(p, lines).active <==> section in p.active || SomeActivates(lines, section)
    decreases |lines|
  {
    hide MatchLine, SectionOf, Unquote;
    if lines != [] {
      ParsedActive(ParseLine(p, lines[0]), lines[1..], section);
      SomeActivatesConcat([lines[0]], lines[1..], section);
      assert [lines[0]] + lines[1..] == lines;
      OneActivates(lines[0], section);
    }
  }

  lemma OneActivates(line: string, section: string)
    ensures SomeActivates([line], section) <==> Activates(MatchLine(line), section)
  {
    hide MatchLine, Activates;
    assert [line][0] == line;
  }

  function SettingOf(m: Line): seq<Field> {
    if m.Setting? && !m.commented && SectionOf(m.key) == "" then [Field(m.key, Unquote(m.raw))] else []
  }

  function SettingsOf(lines: seq<string>): seq<Field>
    decreases |lines|
  {
    if lines == [] then [] else SettingOf(MatchLine(lines[0])) + SettingsOf(lines[1..])
  }

  lemma {:induction false} ParsedSettings(p: Parsed, lines: seq<string>)
    ensures ParseLines(p, lines).settings == p.settings + SettingsOf(lines)
    decreases |lines|
  {
    hide MatchLine, SectionOf, Unquote;
    if lines != [] {
      ParsedSettings(ParseLine(p, lines[0]), lines[1..]);
      Regroup(p.settings, SettingOf(MatchLine(lines[0])), SettingsOf(lines[1..]));
    }
  }

  lemma {:induction false} SettingsConcat(a: seq<string>, b: seq<string>)
    ensures SettingsOf(a + b) == SettingsOf(a) + SettingsOf(b)
    decreases |a|
  {
    hide SettingOf, MatchLine;
    if a == [] {
      assert a + b == b;
    } else {
      assert (a + b)[1..] == a[1..] + b;
      SettingsConcat(a[1..], b);
    }
  }

  lemma {:induction false} ValueConcat(a: seq<string>, b: seq<string>, k: string, v: Option<string>)
    ensures ValueOf(a + b, k, v) == ValueOf(b, k, ValueOf(a, k, v))
    decreases |a|
  {
    hide ValueStep, MatchLine;
    if a == [] {
      assert a + b == b;
    } else {
      assert (a + b)[1..] == a[1..] + b;
      ValueConcat(a[1..], b, k, ValueStep(MatchLine(a[0]), k, v));
    }
  }

  // What a rewritten line says

  function Rewritten(m: Line, post: Post, written: set<string>): Line {
    match m
    case Other => Other
    case Setting(commented, key, raw) =>
      if IsDest(post, key) then
        if key in written then Setting(true, key, Unquote(raw))
        else
          var value := if key in post.values then post.values[key] else Unquote(raw);
          Setting(value == "", key, value)
      else if SectionOf(key) != "" then Setting(true, key, if commented then raw else Unquote(raw))
      else Setting(commented, key, if !commented && key in post.settings then post.settings[key] else raw)
  }

  lemma RewriteSays(line: string, post: Post, written: set<string>)
    ensures MatchLine(Rewrite(line, post, written)) == Rewritten(MatchLine(line), post, written)
  {
    hide MatchLine, SectionOf, Unquote, ActiveLine, CommentedLine, IsKey, IsDest, DestLine;
    match MatchLine(line)
    case Other =>
    case Setting(commented, key, raw) =>
      MatchCommented(key, Unquote(raw));
      if key in post.values {
        DestLineSays(key, post.values[key]);
      }
      DestLineSays(key, Unquote(raw));
      if key in post.settings {
        MatchActive(key, post.settings[key]);
      }
  }

  lemma DestLineSays(key: string, value: string)
    requires IsKey(key)
    ensures MatchLine(DestLine(key, value)) == Setting(value == "", key, value)
  {
    hide MatchLine, ActiveLine, CommentedLine, IsKey;
    MatchCommented(key, "");
    MatchActive(key, value);
  }

  // Destinations

  lemma {:induction false} OnlyDestActive(lines: seq<string>, post: Post, written: set<string>, section: string)
    requires SomeActivates(RewriteAll(lines, post, written), section)
    ensures section == post.destination
    decreases |lines|
  {
    hide MatchLine, SectionOf, Unquote, Rewrite, WrittenAfter, SomeActivates;
    if lines == [] {
      NoLinesActivate(section);
      assert false;
    } else {
      var first := Rewrite(lines[0], post, written);
      var rest := RewriteAll(lines[1..], post, WrittenAfter(lines[0], post, written));
      SomeActivatesConcat([first], rest, section);
      OneActivates(first, section);
      RewriteSays(lines[0], post, written);
      if SomeActivates(rest, section) {
        OnlyDestActive(lines[1..], post, WrittenAfter(lines[0], post, written), section);
      }
    }
  }

  lemma NoLinesActivate(section: string)
    ensures !SomeActivates([], section)
  {
  }

  lemma {:induction false} MissingActivates(keys: seq<string>, post: Post, written: set<string>, section: string)
    requires forall k | k in keys :: SectionOf(k) == post.destination && IsKey(k)
    requires post.destination != ""
    ensures SomeActivates(Missing(keys, post, written), section) <==>
            section == post.destination && exists k :: k in keys && k !in written && Get(post.values, k) != ""
    decreases |keys|
  {
    hide MatchLine, SectionOf, SomeActivates, IsKey, ActiveLine;
    if keys == [] {
      NoLinesActivate(section);
    } else {
      var k, init := keys[|keys| - 1], keys[..|keys| - 1];
      assert k in keys;
      assert forall x :: x in keys <==> x in init || x == k;
      MissingActivates(init, post, written, section);
      if k !in written && Get(post.values, k) != "" {
        MatchActive(k, post.values[k]);
        SomeActivatesConcat(Missing(init, post, written), [ActiveLine(k, post.values[k])], section);
        OneActivates(ActiveLine(k, post.values[k]), section);
      }
    }
  }

  predicate Covers(post: Post) {
    forall k | k in SectionKeys(post.destination) :: k in post.values
  }

  predicate OneLineValues(m: map<string, string>) {
    forall k | k in m :: OneLine(m[k])
  }

  /** A post as the handler builds it: a real destination, single-line values for all of
      its keys. */
  predicate PostOk(post: Post) {
    IsSection(post.destination) && Covers(post) && OneLineValues(post.values) && OneLineValues(post.settings)
  }

  ghost predicate SomeValuePosted(post: Post) {
    exists k :: k in SectionKeys(post.destination) && Get(post.values, k) != ""
  }

  lemma DestKey(post: Post, key: string)
    requires IsDest(post, key)
    ensures key in SectionKeys(post.destination)
  {
    hide SectionKeys;
  }

  /** A destination line that becomes active carries a posted value that is not empty. */
  lemma {:induction false} ActiveMeansPosted(lines: seq<string>, post: Post, written: set<string>)
    requires Covers(post) && SomeActivates(RewriteAll(lines, post, written), post.destination)
    ensures SomeValuePosted(post)
    decreases |lines|
  {
    hide MatchLine, SectionOf, Unquote, Rewrite, WrittenAfter, SomeActivates, SectionKeys;
    if lines == [] {
      NoLinesActivate(post.destination);
      assert false;
    } else {
      var first := Rewrite(lines[0], post, written);
      var after := WrittenAfter(lines[0], post, written);
      SomeActivatesConcat([first], RewriteAll(lines[1..], post, after), post.destination);
      OneActivates(first, post.destination);
      RewriteSays(lines[0], post, written);
      if SomeActivates(RewriteAll(lines[1..], post, after), post.destination) {
        ActiveMeansPosted(lines[1..], post, after);
      } else {
        DestKey(post, MatchLine(lines[0]).key);
      }
    }
  }

  /** The first line of a destination key takes the posted value. */
  lemma {:induction false} WrittenMeansActive(lines: seq<string>, post: Post, written: set<string>, k: string)
    requires k in AllWritten(lines, post, written) && k !in written
    requires Get(post.values, k) != "" && SectionOf(k) == post.destination && post.destination != ""
    ensures SomeActivates(RewriteAll(lines, post, written), post.destination)
    decreases |lines|
  {
    hide MatchLine, SectionOf, Unquote, Rewrite, SomeActivates;
    var first := Rewrite(lines[0], post, written);
    var after := WrittenAfter(lines[0], post, written);
    SomeActivatesConcat([first], RewriteAll(lines[1..], post, after), post.destination);
    OneActivates(first, post.destination);
    RewriteSays(lines[0], post, written);
    if k !in after {
      WrittenMeansActive(lines[1..], post, after, k);
    }
  }

  // Values

  /** Every key of the destination ends up with its posted value. */
  lemma {:induction false} DestValue(lines: seq<string>, post: Post, written: set<string>, k: string, v: Option<string>)
    requires k in post.values && SectionOf(k) == post.destination && post.destination != ""
    requires k in written <==> v.Some?
    ensures ValueOf(RewriteAll(lines, post, written), k, v) ==
            if k in AllWritten(lines, post, written) && k !in written then Some(Unquote(post.values[k])) else v
    ensures k in written ==> k in AllWritten(lines, post, written)
    decreases |lines|
  {
    hide MatchLine, SectionOf, Unquote, Rewrite;
    if lines != [] {
      var first := Rewrite(lines[0], post, written);
      var after := WrittenAfter(lines[0], post, written);
      RewriteSays(lines[0], post, written);
      UnquoteEmpty();
      var rest := RewriteAll(lines[1..], post, after);
      assert ([first] + rest)[1..] == rest;
      DestValue(lines[1..], post, after, k, ValueStep(MatchLine(first), k, v));
    }
  }

  lemma {:induction false} MissingValue(keys: seq<string>, post: Post, written: set<string>, k: string, v: Option<string>)
    requires forall x | x in keys :: IsKey(x)
    ensures ValueOf(Missing(keys, post, written), k, v) ==
            if k in keys && k !in written && Get(post.values, k) != "" then Some(Unquote(post.values[k])) else v
    decreases |keys|
  {
    hide MatchLine, Unquote, IsKey, ActiveLine;
    if keys != [] {
      var x, init := keys[|keys| - 1], keys[..|keys| - 1];
      assert x in keys;
      assert forall y :: y in keys <==> y in init || y == x;
      MissingValue(init, post, written, k, v);
      if x !in written && Get(post.values, x) != "" {
        var line := ActiveLine(x, post.values[x]);
        MatchActive(x, post.values[x]);
        ValueConcat(Missing(init, post, written), [line], k, v);
        OneValue(line, k, ValueOf(Missing(init, post, written), k, v));
      }
    }
  }

  lemma OneValue(line: string, k: string, v: Option<string>)
    ensures ValueOf([line], k, v) == ValueStep(MatchLine(line), k, v)
  {
    hide MatchLine, ValueStep;
    assert [line][1..] == [];
  }

  // General settings

  function UpdatedField(f: Field, settings: map<string, string>): Field {
    if f.key in settings then Field(f.key, Unquote(settings[f.key])) else f
  }

  function Updated(fields: seq<Field>, settings: map<string, string>): seq<Field> {
    seq(|fields|, i requires 0 <= i < |fields| => UpdatedField(fields[i], settings))
  }

  lemma UpdatedConcat(a: seq<Field>, b: seq<Field>, settings: map<string, string>)
    ensures Updated(a + b, settings) == Updated(a, settings) + Updated(b, settings)
  {
    hide Unquote;
  }

  lemma {:induction false} SettingsAfter(lines: seq<string>, post: Post, written: set<string>)
    ensures SettingsOf(RewriteAll(lines, post, written)) == Updated(SettingsOf(lines), post.settings)
    decreases |lines|
  {
    hide MatchLine, SectionOf, Unquote, Rewrite, WrittenAfter;
    if lines != [] {
      var first := Rewrite(lines[0], post, written);
      var after := WrittenAfter(lines[0], post, written);
      var rest := RewriteAll(lines[1..], post, after);
      RewriteSays(lines[0], post, written);
      assert ([first] + rest)[1..] == rest;
      SettingsAfter(lines[1..], post, after);
      UpdatedConcat(SettingOf(MatchLine(lines[0])), SettingsOf(lines[1..]), post.settings);
      assert SettingOf(MatchLine(first)) == Updated(SettingOf(MatchLine(lines[0])), post.settings);
    }
  }

  lemma {:induction false} MissingSettings(keys: seq<string>, post: Post, written: set<string>)
    requires forall k | k in keys :: SectionOf(k) != "" && IsKey(k)
    ensures SettingsOf(Missing(keys, post, written)) == []
    decreases |keys|
  {
    hide MatchLine, SectionOf, Unquote, IsKey, ActiveLine;
    if keys != [] {
      var k, init := keys[|keys| - 1], keys[..|keys| - 1];
      assert k in keys;
      MissingSettings(init, post, written);
      if k !in written && Get(post.values, k) != "" {
        MatchActive(k, post.values[k]);
        SettingsConcat(Missing(init, post, written), [ActiveLine(k, post.values[k])]);
        assert [ActiveLine(k, post.values[k])][1..] == [];
      }
    }
  }

  // Lines and the text

  lemma {:induction false} SkipKeepsOneLine(s: string)
    ensures OneLine(s) ==> OneLine(SkipReSpaces(s))
  {
    if s != "" {
      SkipKeepsOneLine(s[1..]);
    }
  }

  lemma MatchedOneLine(line: string)
    requires OneLine(line) && MatchLine(line).Setting?
    ensures OneLine(MatchLine(line).raw) && OneLine(Unquote(MatchLine(line).raw)) && OneLine(MatchLine(line).key)
  {
    hide TrimSpace;
    SkipKeepsOneLine(line);
    var s := SkipReSpaces(line);
    if s != "" {
      SkipKeepsOneLine(s[1..]);
    }
  }

  lemma RewriteOneLine(line: string, post: Post, written: set<string>)
    requires OneLine(line) && OneLineValues(post.values) && OneLineValues(post.settings)
    ensures OneLine(Rewrite(line, post, written))
  {
    hide SectionOf, Unquote, MatchLine;
    if MatchLine(line).Setting? {
      MatchedOneLine(line);
      assert OneLine("# ") && OneLine("=");
    }
  }

  lemma {:induction false} RewriteAllOneLine(lines: seq<string>, post: Post, written: set<string>)
    requires AllOneLine(lines) && OneLineValues(post.values) && OneLineValues(post.settings)
    ensures AllOneLine(RewriteAll(lines, post, written))
    decreases |lines|
  {
    hide Rewrite, WrittenAfter, OneLine;
    if lines != [] {
      RewriteOneLine(lines[0], post, written);
      RewriteAllOneLine(lines[1..], post, WrittenAfter(lines[0], post, written));
    }
  }

  lemma {:induction false} MissingOneLine(keys: seq<string>, post: Post, written: set<string>)
    requires OneLineValues(post.values) && forall k | k in keys :: IsKey(k)
    ensures AllOneLine(Missing(keys, post, written))
    decreases |keys|
  {
    hide IsKey;
    if keys != [] {
      var k := keys[|keys| - 1];
      assert k in keys;
      MissingOneLine(keys[..|keys| - 1], post, written);
      if Get(post.values, k) != "" {
        KeyOneLine(k, post.values[k]);
      }
    }
  }

  lemma KeyOneLine(k: string, value: string)
    requires IsKey(k) && OneLine(value)
    ensures OneLine(ActiveLine(k, value))
  {
    assert OneLine(k);
    assert OneLine("=");
  }

  lemma {:induction false} SplitSnoc(s: string)
    ensures SplitLines(s + "\n") == SplitLines(s) + [""]
    decreases |s|
  {
    hide OneLine;
    var i := IndexOf(s, '\n');
    if i == |s| {
      SplitAtNewline(s, "");
      assert s + "\n" == s + "\n" + "";
    } else {
      var a, rest := s[..i], s[i + 1..];
      CutAround(s, i);
      assert s + "\n" == a + "\n" + (rest + "\n");
      SplitAtNewline(a, rest + "\n");
      SplitSnoc(rest);
      Regroup([a], SplitLines(rest), [""]);
    }
  }

  lemma {:induction false} TrimmedSettings(content: string)
    ensures SettingsOf(SplitLines(TrimNewlines(content))) == SettingsOf(SplitLines(content))
    decreases |content|
  {
    hide SplitLines, SettingOf;
    if content != "" && content[|content| - 1] == '\n' {
      var init := content[..|content| - 1];
      assert content == init + "\n";
      SplitSnoc(init);
      SettingsConcat(SplitLines(init), [""]);
      BlankLine();
      assert SettingsOf([""]) == [] by { BlankSetting(); }
      TrimmedSettings(init);
    }
  }

  lemma BlankSetting()
    ensures SettingsOf([""]) == []
  {
    BlankLine();
    hide MatchLine;
    assert [""][1..] == [];
  }

  lemma RenderedSplits(content: string, post: Post)
    requires PostOk(post)
    ensures SplitLines(Rendered(content, post)) == RenderedLines(content, post) + [""]
  {
    hide SplitLines, SectionKeys, IsSection, Missing, RewriteAll, IsKey;
    var t := TrimNewlines(content);
    var lines := SplitLines(t);
    SplitIsOneLine(t);
    RewriteAllOneLine(lines, post, {});
    DestKeysOk(post);
    MissingOneLine(SectionKeys(post.destination), post, AllWritten(lines, post, {}));
    var out := RenderedLines(content, post);
    assert AllOneLine(out);
    UnlinesOfJoin(out);
    SplitOfUnlines(out, "");
    assert Unlines(out) + "" == Unlines(out);
    SplitNothing();
  }

  lemma DestKeysOk(post: Post)
    requires IsSection(post.destination)
    ensures forall k | k in SectionKeys(post.destination) :: SectionOf(k) == post.destination && IsKey(k)
    ensures post.destination != ""
  {
    assert post.destination != "";
    hide SectionKeys, SectionOf, IsSection, IsKey;
    forall k | k in SectionKeys(post.destination)
      ensures SectionOf(k) == post.destination && IsKey(k)
    {
      SectionIs(k, post.destination);
    }
  }

  // The form after saving

  lemma SavedActive(content: string, post: Post, section: string)
    requires PostOk(post)
    ensures section in ParseContent(Rendered(content, post)).active <==> section == post.destination && SomeValuePosted(post)
  {
    hide SplitLines, SectionKeys, SectionOf, IsSection, Missing, RewriteAll, IsKey, SomeActivates, MatchLine, Covers, OneLineValues, ParseLines;
    RenderedSplits(content, post);
    DestKeysOk(post);
    var lines, keys := SplitLines(TrimNewlines(content)), SectionKeys(post.destination);
    var a, written := RewriteAll(lines, post, {}), AllWritten(lines, post, {});
    var b := Missing(keys, post, written);
    ParsedActive(NOTHING, a + b + [""], section);
    SomeActivatesConcat(a + b, [""], section);
    SomeActivatesConcat(a, b, section);
    OneActivates("", section);
    BlankLine();
    MissingActivates(keys, post, written, section);
    if SomeActivates(a, section) {
      OnlyDestActive(lines, post, {}, section);
      ActiveMeansPosted(lines, post, {});
    }
    if section == post.destination && SomeValuePosted(post) {
      var k :| k in keys && Get(post.values, k) != "";
      if k in written {
        WrittenMeansActive(lines, post, {}, k);
      }
    }
  }

  lemma ActiveInOrder(active: set<string>, section: string)
    requires forall s :: s in active ==> s == section
    requires section in active ==> IsSection(section)
    ensures ActiveIn(active, SECTION_ORDER) == if section in active then [section] else []
  {
    hide ActiveIn;
    assert [] + [S3] == [S3] && [S3] + [WEBDAV] == [S3, WEBDAV] && [S3, WEBDAV] + [SSH] == [S3, WEBDAV, SSH];
    assert [S3, WEBDAV, SSH] + [AZURE] == [S3, WEBDAV, SSH, AZURE] && [S3, WEBDAV, SSH, AZURE] + [DROPBOX] == SECTION_ORDER;
    NoSections(active);
    ActiveInSnoc(active, [], S3);
    ActiveInSnoc(active, [S3], WEBDAV);
    ActiveInSnoc(active, [S3, WEBDAV], SSH);
    ActiveInSnoc(active, [S3, WEBDAV, SSH], AZURE);
    ActiveInSnoc(active, [S3, WEBDAV, SSH, AZURE], DROPBOX);
    SectionsDiffer();
  }

  lemma SectionsDiffer()
    ensures forall i, j | 0 <= i < j < 5 :: SECTION_ORDER[i] != SECTION_ORDER[j]
    ensures SECTION_ORDER[0] == S3 && SECTION_ORDER[1] == WEBDAV && SECTION_ORDER[2] == SSH && SECTION_ORDER[3] == AZURE && SECTION_ORDER[4] == DROPBOX
  {
  }

  lemma NoSections(active: set<string>)
    ensures ActiveIn(active, []) == []
  {
  }

  lemma ActiveInSnoc(active: set<string>, order: seq<string>, s: string)
    ensures ActiveIn(active, order + [s]) == if s in active then ActiveIn(active, order) + [s] else ActiveIn(active, order)
  {
    assert (order + [s])[..|order|] == order;
  }

  /** The saved file never shows two destinations, and shows the chosen one exactly when
      one of its posted values is not empty. */
  lemma SavedDestination(content: string, post: Post)
    requires PostOk(post)
    ensures var form := FormOf(ParseContent(Rendered(content, post)));
            !form.multipleActive && form.destination == if SomeValuePosted(post) then post.destination else ""
  {
    hide ParseContent, Rendered, SomeValuePosted, Covers, OneLineValues, ActiveIn, SectionsOf, IsSection;
    var active := ParseContent(Rendered(content, post)).active;
    forall s
      ensures s in active <==> s == post.destination && SomeValuePosted(post)
    {
      SavedActive(content, post, s);
    }
    ActiveInOrder(active, post.destination);
  }

  /** Every posted value of the destination is read back, less one pair of quotes. */
  lemma SavedValue(content: string, post: Post, k: string)
    requires PostOk(post) && k in SectionKeys(post.destination)
    ensures Get(ParseContent(Rendered(content, post)).values, k) == Unquote(post.values[k])
  {
    hide SplitLines, SectionKeys, SectionOf, IsSection, Missing, RewriteAll, IsKey, MatchLine, OneLineValues, ParseLines, Unquote, ValueOf;
    RenderedSplits(content, post);
    DestKeysOk(post);
    var lines, keys := SplitLines(TrimNewlines(content)), SectionKeys(post.destination);
    var a, written := RewriteAll(lines, post, {}), AllWritten(lines, post, {});
    var b := Missing(keys, post, written);
    ParsedValue(NOTHING, a + b + [""], k);
    ValueConcat(a + b, [""], k, None);
    ValueConcat(a, b, k, None);
    DestValue(lines, post, {}, k, None);
    MissingValue(keys, post, written, k, ValueOf(a, k, None));
    OneValue("", k, ValueOf(b, k, ValueOf(a, k, None)));
    BlankLine();
    UnquoteEmpty();
  }

  /** The general settings are the old ones in order, with exactly the posted ones
      replaced. */
  lemma SavedSettings(content: string, post: Post)
    requires PostOk(post)
    ensures FormOf(ParseContent(Rendered(content, post))).settings == Updated(FormOf(ParseContent(content)).settings, post.settings)
  {
    hide SplitLines, SectionKeys, SectionOf, IsSection, Missing, RewriteAll, IsKey, MatchLine, OneLineValues, ParseLines, Unquote, SettingsOf, ActiveIn, SectionsOf, Updated;
    RenderedSplits(content, post);
    DestKeysOk(post);
    var lines, keys := SplitLines(TrimNewlines(content)), SectionKeys(post.destination);
    var a, written := RewriteAll(lines, post, {}), AllWritten(lines, post, {});
    var b := Missing(keys, post, written);
    ParsedSettings(NOTHING, a + b + [""]);
    SettingsConcat(a + b, [""]);
    SettingsConcat(a, b);
    SettingsAfter(lines, post, {});
    MissingSettings(keys, post, written);
    BlankSetting();
    ParsedSettings(NOTHING, SplitLines(content));
    TrimmedSettings(content);
    NothingAdded(SettingsOf(SplitLines(content)));
    NothingAdded(SettingsOf(a));
  }

  lemma NothingAdded(fields: seq<Field>)
    ensures NOTHING.settings + fields == fields && fields + [] == fields
  {
  }

  /** A line changes only if it sets a destination key, activates another destination or
      is an active general setting that was posted; all lines keep their place. */
  lemma OtherLinesStay(content: string, post: Post, i: nat)
    requires i < |SplitLines(TrimNewlines(content))|
    ensures i < |RenderedLines(content, post)|
    ensures var line := SplitLines(TrimNewlines(content))[i]; var m := MatchLine(line);
            m.Other? || (!IsDest(post, m.key) && (m.commented || (SectionOf(m.key) == "" && m.key !in post.settings)))
            ==> RenderedLines(content, post)[i] == line
  {
    hide MatchLine, SectionOf, SplitLines, Missing;
    var lines := SplitLines(TrimNewlines(content));
    var written := RewrittenAt(lines, post, {}, i);
  }

  lemma {:induction false} RewrittenAt(lines: seq<string>, post: Post, written: set<string>, i: nat) returns (then': set<string>)
    requires i < |lines|
    ensures RewriteAll(lines, post, written)[i] == Rewrite(lines[i], post, then')
    decreases |lines|
  {
    hide Rewrite, WrittenAfter;
    if i == 0 {
      then' := written;
    } else {
      then' := RewrittenAt(lines[1..], post, WrittenAfter(lines[0], post, written), i - 1);
    }
  }

  // The destinations that were not chosen

  /** The value on the first line of a key, as it reads after that line was commented. */
  function FirstShown(lines: seq<string>, k: string): Option<string>
    decreases |lines|
  {
    if lines == [] then None
    else
      match MatchLine(lines[0])
      case Other => FirstShown(lines[1..], k)
      case Setting(commented, key, raw) =>
        if key != k then FirstShown(lines[1..], k)
        else Some(if commented then Unquote(raw) else Unquote(Unquote(raw)))
  }

  lemma {:induction false} OtherSectionValue(lines: seq<string>, post: Post, written: set<string>, k: string, v: Option<string>)
    requires SectionOf(k) != "" && SectionOf(k) != post.destination
    ensures ValueOf(RewriteAll(lines, post, written), k, v) == if v.Some? then v else FirstShown(lines, k)
    decreases |lines|
  {
    hide MatchLine, SectionOf, Unquote, Rewrite, WrittenAfter;
    if lines != [] {
      var first := Rewrite(lines[0], post, written);
      var after := WrittenAfter(lines[0], post, written);
      RewriteSays(lines[0], post, written);
      var rest := RewriteAll(lines[1..], post, after);
      assert ([first] + rest)[1..] == rest;
      OtherSectionValue(lines[1..], post, after, k, ValueStep(MatchLine(first), k, v));
    }
  }

  /** A value of a destination that was not chosen is afterwards shown from the first line
      of its key, even if that is a commented example above the value in use. */
  lemma SavedOtherValue(content: string, post: Post, k: string)
    requires PostOk(post) && SectionOf(k) != "" && SectionOf(k) != post.destination
    ensures ValueIn(ParseContent(Rendered(content, post)), k) == FirstShown(SplitLines(TrimNewlines(content)), k)
  {
    hide SplitLines, SectionKeys, SectionOf, IsSection, Missing, RewriteAll, IsKey, MatchLine, OneLineValues, ParseLines, Unquote, ValueOf, FirstShown;
    RenderedSplits(content, post);
    DestKeysOk(post);
    var lines, keys := SplitLines(TrimNewlines(content)), SectionKeys(post.destination);
    var a, written := RewriteAll(lines, post, {}), AllWritten(lines, post, {});
    var b := Missing(keys, post, written);
    ParsedValue(NOTHING, a + b + [""], k);
    ValueConcat(a + b, [""], k, None);
    ValueConcat(a, b, k, None);
    OtherSectionValue(lines, post, {}, k, None);
    MissingValue(keys, post, written, k, ValueOf(a, k, None));
    OneValue("", k, ValueOf(b, k, ValueOf(a, k, None)));
    BlankLine();
  }

  predicate IsLineOf(line: string, k: string) {
    MatchLine(line).Setting? && MatchLine(line).key == k
  }

  predicate IsActiveLineOf(line: string, k: string) {
    IsLineOf(line, k) && !MatchLine(line).commented
  }

  /** The value of a line after it was commented out for another destination. */
  function ValueOnceCommented(line: string, k: string): string
    requires IsLineOf(line, k)
  {
    var m := MatchLine(line);
    if m.commented then Unquote(m.raw) else Unquote(Unquote(m.raw))
  }

  function ValueInUse(line: string, k: string): string
    requires IsLineOf(line, k)
  {
    Unquote(MatchLine(line).raw)
  }

  predicate IsFirstLine(lines: seq<string>, k: string, i: nat) {
    i < |lines| && IsLineOf(lines[i], k) && forall h | 0 <= h < i :: !IsLineOf(lines[h], k)
  }

  predicate IsLastActive(lines: seq<string>, k: string, j: nat) {
    j < |lines| && IsActiveLineOf(lines[j], k) && forall h | j < h < |lines| :: !IsActiveLineOf(lines[h], k)
  }

  predicate NoActiveLine(lines: seq<string>, k: string) {
    forall h | 0 <= h < |lines| :: !IsActiveLineOf(lines[h], k)
  }

  lemma {:induction false} FirstShownIs(lines: seq<string>, k: string, i: nat)
    requires IsFirstLine(lines, k, i)
    ensures FirstShown(lines, k) == Some(ValueOnceCommented(lines[i], k))
    decreases |lines|
  {
    hide MatchLine, Unquote;
    if i > 0 {
      assert !IsLineOf(lines[0], k);
      assert lines[1..][i - 1] == lines[i];
      assert forall h | 0 <= h < i - 1 :: lines[1..][h] == lines[h + 1];
      FirstShownIs(lines[1..], k, i - 1);
    }
  }

  lemma {:induction false} SomeFirstLine(lines: seq<string>, k: string, j: nat) returns (i: nat)
    requires j < |lines| && IsLineOf(lines[j], k)
    ensures IsFirstLine(lines, k, i)
    decreases j
  {
    hide IsLineOf;
    if h: nat :| h < j && IsLineOf(lines[h], k) {
      i := SomeFirstLine(lines, k, h);
    } else {
      i := j;
    }
  }

  lemma {:induction false} SomeLastActive(lines: seq<string>, k: string, i: nat) returns (j: nat)
    requires i < |lines| && IsActiveLineOf(lines[i], k)
    ensures IsLastActive(lines, k, j)
    decreases |lines| - i
  {
    hide IsActiveLineOf;
    if h: nat :| i < h < |lines| && IsActiveLineOf(lines[h], k) {
      j := SomeLastActive(lines, k, h);
    } else {
      j := i;
    }
  }

  /** Only a line that is commented or no line of the key can follow, which changes
      nothing once a value is known. */
  lemma {:induction false} KnownStays(lines: seq<string>, k: string, v: Option<string>)
    requires NoActiveLine(lines, k)
    ensures ValueOf(lines, k, v) == if v.Some? then v else FirstShown(lines, k)
    decreases |lines|
  {
    hide MatchLine, Unquote;
    if lines != [] {
      assert !IsActiveLineOf(lines[0], k);
      assert forall h | 0 <= h < |lines| - 1 :: lines[1..][h] == lines[h + 1];
      KnownStays(lines[1..], k, ValueStep(MatchLine(lines[0]), k, v));
    }
  }

  lemma {:induction false} LastActiveDecides(lines: seq<string>, k: string, v: Option<string>, j: nat)
    requires IsLastActive(lines, k, j)
    ensures ValueOf(lines, k, v) == Some(ValueInUse(lines[j], k))
    decreases |lines|
  {
    hide MatchLine, Unquote;
    assert forall h | 0 <= h < |lines| - 1 :: lines[1..][h] == lines[h + 1];
    if j > 0 {
      LastActiveDecides(lines[1..], k, ValueStep(MatchLine(lines[0]), k, v), j - 1);
    } else {
      KnownStays(lines[1..], k, ValueStep(MatchLine(lines[0]), k, v));
    }
  }

  lemma {:induction false} FirstShownSnoc(lines: seq<string>, k: string)
    ensures FirstShown(lines + [""], k) == FirstShown(lines, k)
    decreases |lines|
  {
    hide MatchLine, Unquote;
    BlankLine();
    if lines == [] {
      assert (lines + [""])[0] == "" && (lines + [""])[1..] == [];
    } else {
      assert (lines + [""])[1..] == lines[1..] + [""];
      FirstShownSnoc(lines[1..], k);
    }
  }

  lemma {:induction false} TrimmedFirstShown(content: string, k: string)
    ensures FirstShown(SplitLines(TrimNewlines(content)), k) == FirstShown(SplitLines(content), k)
    decreases |content|
  {
    hide SplitLines, FirstShown;
    if content != "" && content[|content| - 1] == '\n' {
      var init := content[..|content| - 1];
      assert content == init + "\n";
      SplitSnoc(init);
      FirstShownSnoc(SplitLines(init), k);
      TrimmedFirstShown(init, k);
    }
  }

  predicate PairAgrees(lines: seq<string>, k: string, i: nat, j: nat)
    requires IsFirstLine(lines, k, i) && IsLastActive(lines, k, j)
  {
    ValueOnceCommented(lines[i], k) == ValueInUse(lines[j], k)
  }

  /** The first line of the key, once commented, reads as the active line in use. */
  ghost predicate FirstShowsLast(lines: seq<string>, k: string) {
    forall i: nat, j: nat | IsFirstLine(lines, k, i) && IsLastActive(lines, k, j) :: PairAgrees(lines, k, i, j)
  }

  lemma PairDecides(lines: seq<string>, k: string, i: nat, j: nat)
    requires IsFirstLine(lines, k, i) && IsLastActive(lines, k, j)
    ensures FirstShown(lines, k) == ValueOf(lines, k, None) <==> PairAgrees(lines, k, i, j)
  {
    hide FirstShown, ValueOf, ValueOnceCommented, ValueInUse;
    FirstShownIs(lines, k, i);
    LastActiveDecides(lines, k, None, j);
  }

  lemma FirstAgainstLast(lines: seq<string>, k: string)
    ensures FirstShown(lines, k) == ValueOf(lines, k, None) <==> FirstShowsLast(lines, k)
  {
    hide FirstShown, ValueOf, PairAgrees, IsFirstLine, IsLastActive, IsActiveLineOf;
    if NoActiveLine(lines, k) {
      KnownStays(lines, k, None);
      NoneIsLast(lines, k);
    } else {
      var h: nat :| h < |lines| && IsActiveLineOf(lines[h], k);
      var i, j := FirstAndLast(lines, k, h);
      PairDecides(lines, k, i, j);
      if FirstShown(lines, k) == ValueOf(lines, k, None) {
        forall i: nat, j: nat | IsFirstLine(lines, k, i) && IsLastActive(lines, k, j)
          ensures PairAgrees(lines, k, i, j)
        {
          PairDecides(lines, k, i, j);
        }
      }
    }
  }

  lemma FirstAndLast(lines: seq<string>, k: string, h: nat) returns (i: nat, j: nat)
    requires h < |lines| && IsActiveLineOf(lines[h], k)
    ensures IsFirstLine(lines, k, i) && IsLastActive(lines, k, j)
  {
    hide IsLineOf, IsFirstLine, IsLastActive;
    j := SomeLastActive(lines, k, h);
    i := SomeFirstLine(lines, k, h);
  }

  lemma NoneIsLast(lines: seq<string>, k: string)
    requires NoActiveLine(lines, k)
    ensures forall j: nat :: !IsLastActive(lines, k, j)
  {
    hide IsActiveLineOf;
  }

  /** A key of a destination that was not chosen keeps its shown value exactly when its
      first line, active or commented, reads as its last active line once commented. A key
      without an active line always keeps it. */
  lemma SwitchKeepsValueExactly(content: string, post: Post, k: string)
    requires PostOk(post) && SectionOf(k) != "" && SectionOf(k) != post.destination
    ensures ValueIn(ParseContent(Rendered(content, post)), k) == ValueIn(ParseContent(content), k)
            <==> FirstShowsLast(SplitLines(content), k)
  {
    hide SplitLines, SectionOf, PostOk, ParseLines, ValueOf, FirstShown, FirstShowsLast, Rendered, TrimNewlines;
    SavedOtherValue(content, post, k);
    TrimmedFirstShown(content, k);
    ParsedValue(NOTHING, SplitLines(content), k);
    FirstAgainstLast(SplitLines(content), k);
  }

  /** Choosing another destination hides a WebDAV address in use behind the example line
      above it. */
  lemma SwitchingShowsTheExample(post: Post)
    requires PostOk(post) && post.destination != WEBDAV
    ensures var content := "# WEBDAV_URL=a\nWEBDAV_URL=b";
            && ValueIn(ParseContent(content), "WEBDAV_URL") == Some("b")
            && ValueIn(ParseContent(Rendered(content, post)), "WEBDAV_URL") == Some("a")
  {
    hide MatchLine, SectionOf, ParseContent, Rendered, TrimNewlines, SplitLines, FirstShown, Unquote;
    var k, content := "WEBDAV_URL", "# WEBDAV_URL=a\nWEBDAV_URL=b";
    assert SectionOf(k) == WEBDAV && IsKey(k) by { WebdavUrl(); }
    var lines := [CommentedLine(k, "a"), ActiveLine(k, "b")];
    ExampleLines(content);
    MatchCommented(k, "a");
    MatchActive(k, "b");
    ExampleShown(lines, k);
    ExampleParsed(content, lines, k);
    SavedOtherValue(content, post, k);
  }

  lemma WebdavUrl()
    ensures SectionOf("WEBDAV_URL") == WEBDAV && IsKey("WEBDAV_URL")
  {
    hide SectionOf, IsKey;
    assert WEBDAV_KEYS[0] == "WEBDAV_URL";
    SectionIs("WEBDAV_URL", WEBDAV);
  }

  lemma ExampleLines(content: string)
    requires content == "# WEBDAV_URL=a\nWEBDAV_URL=b"
    ensures SplitLines(content) == [CommentedLine("WEBDAV_URL", "a"), ActiveLine("WEBDAV_URL", "b")]
    ensures TrimNewlines(content) == content
  {
    hide SplitLines, IndexOf;
    var a, b := "# WEBDAV_URL=a", "WEBDAV_URL=b";
    assert content == a + "\n" + b;
    assert a == CommentedLine("WEBDAV_URL", "a") && b == ActiveLine("WEBDAV_URL", "b");
    assert OneLine(a) && OneLine(b);
    SplitAtNewline(a, b);
    SplitWhole(b);
  }

  lemma ShortUnquote(v: string)
    requires v == "a" || v == "b"
    ensures Unquote(v) == v
  {
  }

  lemma ExampleShown(lines: seq<string>, k: string)
    requires |lines| == 2 && MatchLine(lines[0]) == Setting(true, k, "a")
    ensures FirstShown(lines, k) == Some("a")
  {
    hide MatchLine, Unquote;
    ShortUnquote("a");
  }

  lemma ExampleParsed(content: string, lines: seq<string>, k: string)
    requires SplitLines(content) == lines && |lines| == 2 && SectionOf(k) != ""
    requires MatchLine(lines[0]) == Setting(true, k, "a") && MatchLine(lines[1]) == Setting(false, k, "b")
    ensures ValueIn(ParseContent(content), k) == Some("b")
  {
    hide MatchLine, Unquote, SectionOf, SplitLines, ParseLines;
    ShortUnquote("a");
    ShortUnquote("b");
    ParsedValue(NOTHING, lines, k);
    assert lines == [lines[0]] + [lines[1]];
    ValueConcat([lines[0]], [lines[1]], k, None);
    OneValue(lines[0], k, None);
    OneValue(lines[1], k, Some("a"));
  }
}
