/** internal/handlers/backups_env_form.go: reading backup.env into a form and writing a
    posted form back into it. */
module EnvForm {
  import opened Text
  import opened EnvFile

  datatype Field = Field(key: string, value: string)

  // Reading

  datatype Parsed = Parsed(values: map<string, string>, active: set<string>, settings: seq<Field>)

  const NOTHING := Parsed(map[], {}, [])

  /** An uncommented value wins over a commented example. */
  function ParseLine(p: Parsed, line: string): Parsed {
    match MatchLine(line)
    case Other => p
    case Setting(commented, key, raw) =>
      var section, value := SectionOf(key), Unquote(raw);
      if section != "" then
        Parsed(if key !in p.values || !commented then p.values[key := value] else p.values,
               if commented then p.active else p.active + {section},
               p.settings)
      else if commented then p
      else p.(settings := p.settings + [Field(key, value)])
  }

  function ParseLines(p: Parsed, lines: seq<string>): Parsed
    decreases |lines|
  {
    if lines == [] then p else ParseLines(ParseLine(p, lines[0]), lines[1..])
  }

  function ParseContent(content: string): Parsed {
    ParseLines(NOTHING, SplitLines(content))
  }

  datatype Section = Section(name: string, fields: seq<Field>)

  datatype Form = Form(destination: string, multipleActive: bool, sections: seq<Section>, settings: seq<Field>)

  function FieldsOf(values: map<string, string>, keys: seq<string>): seq<Field> {
    seq(|keys|, i requires 0 <= i < |keys| => Field(keys[i], Get(values, keys[i])))
  }

  function SectionsOf(values: map<string, string>): seq<Section> {
    seq(|SECTION_ORDER|, i requires 0 <= i < |SECTION_ORDER| =>
      Section(SECTION_ORDER[i], FieldsOf(values, SectionKeys(SECTION_ORDER[i]))))
  }

  /** The active sections in the order of the dropdown. */
  function ActiveIn(active: set<string>, order: seq<string>): seq<string>
    decreases |order|
  {
    if order == [] then []
    else
      var rest := ActiveIn(active, order[..|order| - 1]);
      if order[|order| - 1] in active then rest + [order[|order| - 1]] else rest
  }

  function FirstOf(s: seq<string>): string {
    if s == [] then "" else s[0]
  }

  function FormOf(p: Parsed): Form {
    var active := ActiveIn(p.active, SECTION_ORDER);
    Form(FirstOf(active), |active| > 1, SectionsOf(p.values), p.settings)
  }

  method ParseBackupEnvForm(content: string) returns (form: Form)
    ensures form == FormOf(ParseContent(content))
  {
    var values: map<string, string>, active: set<string>, settings: seq<Field> := map[], {}, [];
    var lines := SplitLines(content);
    for n := 0 to |lines|
      invariant ParseLines(Parsed(values, active, settings), lines[n..]) == ParseContent(content)
    {
      hide MatchLine, SectionOf, Unquote;
      assert lines[n..][1..] == lines[n + 1..];
      match MatchLine(lines[n])
      case Other =>
      case Setting(commented, key, raw) =>
        var value, section := Unquote(raw), SectionOf(key);
        if section != "" {
          if key !in values || !commented {
            values := values[key := value];
          }
          if !commented {
            active := active + {section};
          }
        } else if !commented {
          settings := settings + [Field(key, value)];
        }
    }
    form := AssembleForm(Parsed(values, active, settings));
  }

  method AssembleForm(p: Parsed) returns (form: Form)
    ensures form == FormOf(p)
  {
    hide SectionKeys;
    var sections := [];
    for n := 0 to |SECTION_ORDER|
      invariant |sections| == n && forall i | 0 <= i < n :: sections[i] == SectionsOf(p.values)[i]
    {
      var fields := CollectFields(p.values, SectionKeys(SECTION_ORDER[n]));
      sections := sections + [Section(SECTION_ORDER[n], fields)];
    }
    assert sections == SectionsOf(p.values);
    var destination, activeCount := ChooseDestination(p.active, SECTION_ORDER);
    form := Form(destination, activeCount > 1, sections, p.settings);
  }

  method CollectFields(values: map<string, string>, keys: seq<string>) returns (fields: seq<Field>)
    ensures fields == FieldsOf(values, keys)
  {
    fields := [];
    for m := 0 to |keys|
      invariant |fields| == m && forall i | 0 <= i < m :: fields[i] == Field(keys[i], Get(values, keys[i]))
    {
      fields := fields + [Field(keys[m], Get(values, keys[m]))];
    }
  }

  method ChooseDestination(active: set<string>, order: seq<string>) returns (destination: string, activeCount: nat)
    requires "" !in order
    ensures destination == FirstOf(ActiveIn(active, order)) && activeCount == |ActiveIn(active, order)|
  {
    destination, activeCount := "", 0;
    for n := 0 to |order|
      invariant activeCount == |ActiveIn(active, order[..n])|
      invariant destination == FirstOf(ActiveIn(active, order[..n]))
      invariant destination == "" <==> ActiveIn(active, order[..n]) == []
    {
      assert order[..n + 1][..n] == order[..n];
      if order[n] in active {
        activeCount := activeCount + 1;
        if destination == "" {
          destination := order[n];
        }
      }
    }
    assert order[..|order|] == order;
  }

  // Writing

  /** Empty destination values stay commented. */
  function DestLine(key: string, value: string): string {
    if value == "" then CommentedLine(key, "") else ActiveLine(key, value)
  }

  datatype Post = Post(destination: string, values: map<string, string>, settings: map<string, string>)

  predicate IsDest(post: Post, key: string) {
    SectionOf(key) == post.destination && SectionOf(key) != ""
  }

  /** One line of the file after saving; written are the destination keys seen before. */
  function Rewrite(line: string, post: Post, written: set<string>): string {
    match MatchLine(line)
    case Other => line
    case Setting(commented, key, raw) =>
      if IsDest(post, key) then
        if key in written then CommentedLine(key, Unquote(raw))
        else DestLine(key, if key in post.values then post.values[key] else Unquote(raw))
      else if SectionOf(key) != "" then
        if commented then line else CommentedLine(key, Unquote(raw))
      else if !commented && key in post.settings then ActiveLine(key, post.settings[key])
      else line
  }

  function WrittenAfter(line: string, post: Post, written: set<string>): set<string> {
    match MatchLine(line)
    case Other => written
    case Setting(_, key, _) => if IsDest(post, key) then written + {key} else written
  }

  function RewriteAll(lines: seq<string>, post: Post, written: set<string>): (r: seq<string>)
    ensures |r| == |lines|
    decreases |lines|
  {
    if lines == [] then []
    else [Rewrite(lines[0], post, written)] + RewriteAll(lines[1..], post, WrittenAfter(lines[0], post, written))
  }

  function AllWritten(lines: seq<string>, post: Post, written: set<string>): set<string>
    decreases |lines|
  {
    if lines == [] then written else AllWritten(lines[1..], post, WrittenAfter(lines[0], post, written))
  }

  /** The destination keys the file did not have yet. */
  function Missing(keys: seq<string>, post: Post, written: set<string>): seq<string>
    decreases |keys|
  {
    if keys == [] then []
    else
      var k, before := keys[|keys| - 1], Missing(keys[..|keys| - 1], post, written);
      if k !in written && Get(post.values, k) != "" then before + [ActiveLine(k, post.values[k])] else before
  }

  function RenderedLines(content: string, post: Post): seq<string> {
    var lines := SplitLines(TrimNewlines(content));
    RewriteAll(lines, post, {}) + Missing(SectionKeys(post.destination), post, AllWritten(lines, post, {}))
  }

  function Rendered(content: string, post: Post): string {
    JoinLines(RenderedLines(content, post)) + "\n"
  }

  method RenderBackupEnvForm(content: string, post: Post) returns (text: string)
    ensures text == Rendered(content, post)
  {
    hide MatchLine, SectionKeys, SectionOf, Unquote, TrimNewlines, SplitLines;
    ghost var before := SplitLines(TrimNewlines(content));
    var lines := SplitLines(TrimNewlines(content));
    var written: set<string> := {};
    for i := 0 to |lines|
      invariant |lines| == |before| && lines[i..] == before[i..]
      invariant lines[..i] + RewriteAll(before[i..], post, written) == RewriteAll(before, post, {})
      invariant AllWritten(before[i..], post, written) == AllWritten(before, post, {})
    {
      var line, done := lines[i], lines[..i];
      RewriteFrom(before, post, written, i);
      ghost var rest := RewriteAll(before[i + 1..], post, WrittenAfter(line, post, written));
      var next, nextWritten := RewriteLine(line, post, written);
      lines := lines[i := next];
      written := nextWritten;
      Regroup(done, [next], rest);
      assert lines[..i + 1] == done + [next];
    }
    assert lines[..|lines|] == lines && before[|lines|..] == [];
    assert RewriteAll([], post, written) == [] && AllWritten([], post, written) == written;
    assert lines == RewriteAll(before, post, {});
    var keys := SectionKeys(post.destination);
    var appended := [];
    for n := 0 to |keys|
      invariant appended == Missing(keys[..n], post, written)
    {
      assert keys[..n + 1][..n] == keys[..n];
      if keys[n] !in written && Get(post.values, keys[n]) != "" {
        appended := appended + [keys[n] + "=" + post.values[keys[n]]];
      }
    }
    assert keys[..|keys|] == keys;
    text := JoinLines(lines + appended) + "\n";
  }

  /** The body of the loop over the lines. */
  method RewriteLine(line: string, post: Post, written: set<string>) returns (next: string, nowWritten: set<string>)
    ensures next == Rewrite(line, post, written) && nowWritten == WrittenAfter(line, post, written)
  {
    hide SectionOf, Unquote;
    next, nowWritten := line, written;
    match MatchLine(line)
    case Other =>
    case Setting(commented, key, raw) =>
      var value, section := Unquote(raw), SectionOf(key);
      if section == post.destination && section != "" {
        if key in written {
          next := "# " + key + "=" + value;
          return;
        }
        if key in post.values {
          value := post.values[key];
        }
        next := if value == "" then "# " + key + "=" else key + "=" + value;
        assert value == "" ==> next == CommentedLine(key, "");
        nowWritten := written + {key};
      } else if section != "" {
        if !commented {
          next := "# " + key + "=" + value;
        }
      } else if !commented {
        if key in post.settings {
          next := key + "=" + post.settings[key];
        }
      }
  }

  lemma RewriteFrom(lines: seq<string>, post: Post, written: set<string>, i: nat)
    requires i < |lines|
    ensures RewriteAll(lines[i..], post, written) ==
            [Rewrite(lines[i], post, written)] + RewriteAll(lines[i + 1..], post, WrittenAfter(lines[i], post, written))
    ensures AllWritten(lines[i..], post, written) == AllWritten(lines[i + 1..], post, WrittenAfter(lines[i], post, written))
  {
    hide Rewrite, WrittenAfter;
    assert lines[i..][1..] == lines[i + 1..];
  }
}
