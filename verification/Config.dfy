/** internal/config: the INI files of a panel, read by Load, changed by Set and
    printed by Save. */
module Config {
  import opened Text
  import opened Ordering

  type Section = map<string, string>
  type Sections = map<string, Section>

  /** The parsed form of a file: section -> key -> value. */
  class Data {
    var sections: Sections

    constructor (s: Sections)
      ensures sections == s
    {
      sections := s;
    }

    method Get(section: string, key: string, fallback: string) returns (v: string)
      ensures v == Lookup(sections, section, key).GetOr(fallback)
    {
      if section !in sections {
        return fallback;
      }
      if key !in sections[section] {
        return fallback;
      }
      v := sections[section][key];
    }

    method Set(section: string, key: string, value: string)
      modifies this
      ensures sections == With(old(sections), section, key, value)
    {
      if section !in sections {
        sections := sections[section := map[]];
      }
      sections := sections[section := sections[section][key := value]];
    }
  }

  function Lookup(d: Sections, section: string, key: string): Option<string> {
    if section in d && key in d[section] then Some(d[section][key]) else None
  }

  function SectionOf(d: Sections, section: string): Section {
    if section in d then d[section] else map[]
  }

  function With(d: Sections, section: string, key: string, value: string): Sections {
    d[section := SectionOf(d, section)[key := value]]
  }

  // Load

  predicate IsBracket(c: char) {
    c == '[' || c == ']'
  }

  /** strings.Trim(s, "[]") */
  function TrimBrackets(s: string): (r: string)
    ensures r == "" || (!IsBracket(r[0]) && !IsBracket(r[|r| - 1]))
    ensures s == "" || (!IsBracket(s[0]) && !IsBracket(s[|s| - 1])) ==> r == s
    ensures OneLine(s) ==> OneLine(r)
  {
    if s == "" then ""
    else if IsBracket(s[0]) then TrimBrackets(s[1..])
    else if IsBracket(s[|s| - 1]) then TrimBrackets(s[..|s| - 1])
    else s
  }

  predicate IsHeader(line: string) {
    line != "" && line[0] == '[' && line[|line| - 1] == ']'
  }

  datatype Parser = Parser(section: string, data: Sections)

  /** One round of the scanner loop. */
  function Step(p: Parser, text: string): Parser {
    var line := TrimSpace(text);
    if line == "" || line[0] == '#' then p
    else if IsHeader(line) then p.(section := TrimBrackets(line))
    else if p.section == "" then p
    else
      match CutAt(line, '=')
      case Whole => p
      case Parts(key, value) => p.(data := With(p.data, p.section, TrimSpace(key), TrimSpace(value)))
  }

  function Fold(p: Parser, lines: seq<string>): Parser
    decreases |lines|
  {
    if lines == [] then p else Fold(Step(p, lines[0]), lines[1..])
  }

  lemma FoldFrom(p: Parser, lines: seq<string>, n: nat)
    requires n < |lines|
    ensures Fold(p, lines[n..]) == Fold(Step(p, lines[n]), lines[n + 1..])
  {
    assert lines[n..][1..] == lines[n + 1..];
  }

  /** What Load makes of a file. The scanner drops a final empty line and a
      carriage return before the newline; the loop would skip or trim both anyway. */
  function Parse(text: string): Sections {
    Fold(Parser("", map[]), SplitLines(text)).data
  }

  function ParseFile(file: Option<string>): Sections {
    if file.None? then map[] else Parse(file.value)
  }

  method Load(file: Option<string>) returns (d: Data)
    ensures fresh(d) && d.sections == ParseFile(file)
  {
    d := new Data(map[]);
    if file.None? {
      return;
    }
    var section := "";
    var lines := SplitLines(file.value);
    for n := 0 to |lines|
      invariant fresh(d)
      invariant Fold(Parser(section, d.sections), lines[n..]) == Fold(Parser("", map[]), lines)
    {
      hide Fold, TrimBrackets, IndexOf, TrimSpace;
      FoldFrom(Parser(section, d.sections), lines, n);
      var line := TrimSpace(lines[n]);
      if line == "" || line[0] == '#' {
        continue;
      }
      if line[0] == '[' && line[|line| - 1] == ']' {
        section := TrimBrackets(line);
        continue;
      }
      if section == "" {
        continue;
      }
      match CutAt(line, '=')
      case Whole =>
      case Parts(key, value) =>
        d.Set(section, TrimSpace(key), TrimSpace(value));
    }
  }

  // Save

  ghost function KeyLines(kv: Section, ks: seq<string>): seq<string>
    requires forall k | k in ks :: k in kv
  {
    if ks == [] then [] else [ks[0] + "=" + kv[ks[0]]] + KeyLines(kv, ks[1..])
  }

  ghost function SectionLines(name: string, kv: Section): seq<string> {
    ["[" + name + "]"] + KeyLines(kv, Sorted(kv.Keys)) + [""]
  }

  ghost function DataLines(d: Sections, names: seq<string>): seq<string>
    requires forall s | s in names :: s in d
  {
    if names == [] then [] else SectionLines(names[0], d[names[0]]) + DataLines(d, names[1..])
  }

  /** The file Save writes. */
  ghost function Print(d: Sections): string {
    Unlines(DataLines(d, Sorted(d.Keys)))
  }

  method Save(d: Data) returns (text: string)
    ensures text == Print(d.sections)
  {
    var data := d.sections;
    text := "";
    var names := SortedKeys(data);
    for n := 0 to |names|
      invariant text + Unlines(DataLines(data, names[n..])) == Print(data)
    {
      var section := SaveSection(names[n], data[names[n]]);
      ghost var rest := Unlines(DataLines(data, names[n + 1..]));
      DataLinesFrom(data, names, n);
      Regroup(text, section, rest);
      text := text + section;
    }
  }

  /** The part of Save's loop that writes one section. */
  method SaveSection(name: string, kv: Section) returns (text: string)
    ensures text == Unlines(SectionLines(name, kv))
  {
    text := "[" + name + "]\n";
    var keys := SortedKeys(kv);
    ghost var all := text + Unlines(KeyLines(kv, keys));
    for m := 0 to |keys|
      invariant text + Unlines(KeyLines(kv, keys[m..])) == all
    {
      var line := keys[m] + "=" + kv[keys[m]] + "\n";
      KeyLinesFrom(kv, keys, m);
      Regroup(text, line, Unlines(KeyLines(kv, keys[m + 1..])));
      text := text + line;
    }
    assert text + "" == text;
    text := text + "\n";
    PrintedSection(name, kv);
  }

  lemma KeyLinesFrom(kv: Section, ks: seq<string>, m: nat)
    requires m < |ks| && forall k | k in ks :: k in kv
    ensures Unlines(KeyLines(kv, ks[m..])) == ks[m] + "=" + kv[ks[m]] + "\n" + Unlines(KeyLines(kv, ks[m + 1..]))
  {
    assert ks[m..][1..] == ks[m + 1..];
    var rest := KeyLines(kv, ks[m + 1..]);
    var line := ks[m] + "=" + kv[ks[m]];
    assert KeyLines(kv, ks[m..]) == [line] + rest;
    assert ([line] + rest)[1..] == rest;
  }

  lemma DataLinesFrom(d: Sections, names: seq<string>, n: nat)
    requires n < |names| && forall s | s in names :: s in d
    ensures Unlines(DataLines(d, names[n..])) ==
            Unlines(SectionLines(names[n], d[names[n]])) + Unlines(DataLines(d, names[n + 1..]))
  {
    assert names[n..][1..] == names[n + 1..];
    UnlinesConcat(SectionLines(names[n], d[names[n]]), DataLines(d, names[n + 1..]));
  }

  lemma PrintedSection(name: string, kv: Section)
    ensures Unlines(SectionLines(name, kv)) == "[" + name + "]\n" + Unlines(KeyLines(kv, Sorted(kv.Keys))) + "\n"
  {
    var header, ks := "[" + name + "]", KeyLines(kv, Sorted(kv.Keys));
    UnlinesConcat([header], ks);
    UnlinesConcat([header] + ks, [""]);
    UnlinesOne(header);
    UnlinesOne("");
    assert header + "\n" == "[" + name + "]\n";
  }

  // The data Load can produce

  predicate SectionOk(s: string) {
    s != "" && OneLine(s) && !IsBracket(s[0]) && !IsBracket(s[|s| - 1])
  }

  predicate EntryOk(k: string, v: string) {
    && Trimmed(k) && OneLine(k) && '=' !in k
    && Trimmed(v) && OneLine(v)
    && !(k != "" && k[0] == '#')
    && !(k != "" && k[0] == '[' && v != "" && v[|v| - 1] == ']')
  }

  /** Every section is named and non-empty, names carry no outer bracket, keys and
      values are trimmed single lines, and no key would read as a comment, as a
      section header or as part of a value. */
  predicate Loadable(d: Sections) {
    forall s | s in d :: SectionOk(s) && EntriesOk(d[s])
  }

  predicate EntriesOk(kv: Section) {
    kv != map[] && forall k | k in kv :: EntryOk(k, kv[k])
  }

  lemma LoadableWith(d: Sections, section: string, key: string, value: string)
    requires Loadable(d) && SectionOk(section) && EntryOk(key, value)
    ensures Loadable(With(d, section, key, value))
  {
    var kv := SectionOf(d, section)[key := value];
    assert key in kv;
    assert section in d ==> EntriesOk(d[section]);
    assert EntriesOk(kv);
  }

  lemma LoadableAfterStep(p: Parser, text: string)
    requires OneLine(text)
    requires Loadable(p.data) && (p.section == "" || SectionOk(p.section))
    ensures Loadable(Step(p, text).data)
    ensures Step(p, text).section == "" || SectionOk(Step(p, text).section)
  {
    hide TrimSpace, IndexOf, CutAt, Loadable, EntryOk, TrimBrackets, With, IsHeader;
    var line := TrimSpace(text);
    match CutAt(line, '=')
    case Whole =>
    case Parts(a, b) =>
      if line != "" && line[0] != '#' && !IsHeader(line) && p.section != "" {
        ParsedEntryOk(line, a, b);
        LoadableWith(p.data, p.section, TrimSpace(a), TrimSpace(b));
      }
  }

  lemma ParsedEntryOk(line: string, a: string, b: string)
    requires Trimmed(line) && OneLine(line) && line != "" && line[0] != '#' && !IsHeader(line)
    requires CutAt(line, '=') == Parts(a, b)
    ensures EntryOk(TrimSpace(a), TrimSpace(b))
  {
    hide TrimSpace, IsSpace;
    EdgesSurviveTrim(line, IndexOf(line, '='));
    assert OneLine(a) && OneLine(b);
  }

  lemma {:induction false} TrimKeepsOut(s: string, c: char)
    requires c !in s
    ensures c !in TrimSpace(s)
  {
    var l := TrimLeft(s);
    assert forall x | x in l :: x in s;
    assert forall x | x in TrimRight(l) :: x in l;
  }

  /** Cutting and trimming a trimmed line keeps its first and its last character. */
  lemma EdgesSurviveTrim(line: string, i: nat)
    requires line != "" && Trimmed(line) && i < |line| && '=' !in line[..i]
    ensures var key := TrimSpace(line[..i]); key != "" ==> key[0] == line[0]
    ensures var value := TrimSpace(line[i + 1..]); value != "" ==> value[|value| - 1] == line[|line| - 1]
    ensures '=' !in TrimSpace(line[..i])
  {
    TrimKeepsOut(line[..i], '=');
    if i > 0 {
      TrimKeepsFirst(line[..i]);
    }
    if i + 1 < |line| {
      TrimKeepsLast(line[i + 1..]);
    }
  }

  lemma TrimKeepsFirst(s: string)
    requires s != "" && !IsSpace(s[0])
    ensures TrimSpace(s) != "" ==> TrimSpace(s)[0] == s[0]
  {
    assert TrimLeft(s) == s;
  }

  lemma TrimKeepsLast(s: string)
    requires s != "" && !IsSpace(s[|s| - 1])
    ensures TrimSpace(s) != "" ==> TrimSpace(s)[|TrimSpace(s)| - 1] == s[|s| - 1]
  {
    var l := TrimLeft(s);
    if l != "" {
      assert l[|l| - 1] == s[|s| - 1];
      assert TrimRight(l) == l;
    }
  }

  lemma {:induction false} LoadableAfterFold(p: Parser, lines: seq<string>)
    requires AllOneLine(lines)
    requires Loadable(p.data) && (p.section == "" || SectionOk(p.section))
    ensures Loadable(Fold(p, lines).data)
    decreases |lines|
  {
    if lines != [] {
      LoadableAfterStep(p, lines[0]);
      LoadableAfterFold(Step(p, lines[0]), lines[1..]);
    }
  }

  lemma ParseIsLoadable(text: string)
    ensures Loadable(Parse(text))
  {
    SplitIsOneLine(text);
    LoadableAfterFold(Parser("", map[]), SplitLines(text));
  }

  // Reading back what was printed

  lemma {:induction false} FoldConcat(p: Parser, a: seq<string>, b: seq<string>)
    ensures Fold(p, a + b) == Fold(Fold(p, a), b)
    decreases |a|
  {
    if a == [] {
      assert a + b == b;
    } else {
      assert (a + b)[1..] == a[1..] + b;
      FoldConcat(Step(p, a[0]), a[1..], b);
    }
  }

  lemma StepKeyLine(p: Parser, k: string, v: string)
    requires p.section != "" && EntryOk(k, v)
    ensures Step(p, k + "=" + v) == p.(data := With(p.data, p.section, k, v))
  {
    hide TrimSpace, IndexOf, CutAt, TrimBrackets, With;
    var line := k + "=" + v;
    KeyLineEdges(k, v);
    CutOf(k, '=', v);
  }

  lemma KeyLineEdges(k: string, v: string)
    requires EntryOk(k, v)
    ensures var line := k + "=" + v; line != "" && Trimmed(line) && line[0] != '#' && !IsHeader(line)
  {
    var line := k + "=" + v;
    assert line[|line| - 1] == (if v == "" then '=' else v[|v| - 1]);
    assert line[0] == (if k == "" then '=' else k[0]);
  }

  lemma StepHeader(p: Parser, s: string)
    requires SectionOk(s)
    ensures Step(p, "[" + s + "]") == p.(section := s)
  {
    var line := "[" + s + "]";
    assert Trimmed(line);
    assert line[1..] == s + "]";
    assert (s + "]")[..|s|] == s;
    assert TrimBrackets(line) == TrimBrackets(s + "]") == TrimBrackets(s);
  }

  /** Set called for each of the given keys. */
  ghost function WithAll(d: Sections, section: string, kv: Section, ks: seq<string>): Sections
    requires forall k | k in ks :: k in kv
    decreases |ks|
  {
    if ks == [] then d else WithAll(With(d, section, ks[0], kv[ks[0]]), section, kv, ks[1..])
  }

  lemma {:induction false} FoldKeyLines(p: Parser, kv: Section, ks: seq<string>)
    requires p.section != ""
    requires forall k | k in ks :: k in kv && EntryOk(k, kv[k])
    ensures Fold(p, KeyLines(kv, ks)) == p.(data := WithAll(p.data, p.section, kv, ks))
    decreases |ks|
  {
    if ks != [] {
      var k := ks[0];
      StepKeyLine(p, k, kv[k]);
      assert KeyLines(kv, ks)[1..] == KeyLines(kv, ks[1..]);
      FoldKeyLines(p.(data := With(p.data, p.section, k, kv[k])), kv, ks[1..]);
    }
  }

  ghost function Restrict<V>(m: map<string, V>, ks: seq<string>): map<string, V> {
    map k | k in ks && k in m :: m[k]
  }

  lemma RestrictCons<V>(now: map<string, V>, m: map<string, V>, ks: seq<string>)
    requires ks != [] && ks[0] in m
    ensures now[ks[0] := m[ks[0]]] + Restrict(m, ks[1..]) == now + Restrict(m, ks)
  {
    assert forall x :: x in ks <==> x == ks[0] || x in ks[1..];
  }

  lemma {:induction false} WithAllIs(d: Sections, section: string, kv: Section, ks: seq<string>)
    requires forall k | k in ks :: k in kv
    requires ks != []
    ensures WithAll(d, section, kv, ks) == d[section := SectionOf(d, section) + Restrict(kv, ks)]
    decreases |ks|
  {
    RestrictCons(SectionOf(d, section), kv, ks);
    if |ks| > 1 {
      WithAllIs(With(d, section, ks[0], kv[ks[0]]), section, kv, ks[1..]);
    } else {
      var now := SectionOf(d, section)[ks[0] := kv[ks[0]]];
      assert now + Restrict(kv, ks[1..]) == now;
    }
  }

  lemma FoldBlank(p: Parser)
    ensures Fold(p, [""]) == p
  {
  }

  lemma FoldHeader(p: Parser, s: string)
    requires SectionOk(s)
    ensures Fold(p, ["[" + s + "]"]) == p.(section := s)
  {
    StepHeader(p, s);
    assert ["[" + s + "]"][1..] == [];
  }

  lemma FoldSection(p: Parser, s: string, kv: Section)
    requires SectionOk(s) && s !in p.data && EntriesOk(kv)
    ensures Fold(p, SectionLines(s, kv)) == Parser(s, p.data[s := kv])
  {
    hide Step, IsHeader, EntryOk;
    var ks := Sorted(kv.Keys);
    var header, keys := ["[" + s + "]"], KeyLines(kv, ks);
    FoldHeader(p, s);
    FoldConcat(p, header, keys);
    FoldKeyLines(p.(section := s), kv, ks);
    SortedCovers(kv);
    WithAllIs(p.data, s, kv, ks);
    FoldConcat(p, header + keys, [""]);
    FoldBlank(Fold(p, header + keys));
  }

  lemma SortedCovers<V>(m: map<string, V>)
    ensures Restrict(m, Sorted(m.Keys)) == m
    ensures map[] + Restrict(m, Sorted(m.Keys)) == m
    ensures m != map[] ==> Sorted(m.Keys) != []
  {
    assert m != map[] ==> exists k :: k in m.Keys;
  }

  lemma {:induction false} FoldDataLines(p: Parser, d: Sections, names: seq<string>)
    requires Loadable(d)
    requires forall s | s in names :: s in d && s !in p.data
    requires StrictlySorted(names)
    ensures Fold(p, DataLines(d, names)).data == p.data + Restrict(d, names)
    decreases |names|
  {
    hide Step, IsHeader, SectionOk, EntryOk;
    if names == [] {
      assert Restrict(d, names) == map[];
    } else {
      var s := names[0];
      FoldSection(p, s, d[s]);
      FoldConcat(p, SectionLines(s, d[s]), DataLines(d, names[1..]));
      RestrictCons(p.data, d, names);
      forall x | x in names[1..]
        ensures x in names && x != s
      {
        TailMembers(names, x);
      }
      FoldDataLines(Parser(s, p.data[s := d[s]]), d, names[1..]);
    }
  }

  lemma {:induction false} KeyLinesOneLine(kv: Section, ks: seq<string>)
    requires forall k | k in ks :: k in kv && EntryOk(k, kv[k])
    ensures AllOneLine(KeyLines(kv, ks))
  {
    if ks != [] {
      assert ks[0] in ks;
      assert forall k | k in ks[1..] :: k in ks;
      KeyLinesOneLine(kv, ks[1..]);
    }
  }

  lemma SectionLinesOneLine(s: string, kv: Section)
    requires SectionOk(s) && EntriesOk(kv)
    ensures AllOneLine(SectionLines(s, kv))
  {
    KeyLinesOneLine(kv, Sorted(kv.Keys));
  }

  lemma {:induction false} DataLinesOneLine(d: Sections, names: seq<string>)
    requires Loadable(d)
    requires forall s | s in names :: s in d
    ensures AllOneLine(DataLines(d, names))
  {
    if names != [] {
      var s := names[0];
      SectionLinesOneLine(s, d[s]);
      DataLinesOneLine(d, names[1..]);
      assert AllOneLine(SectionLines(s, d[s]) + DataLines(d, names[1..]));
    }
  }

  lemma ParseOfPrint(d: Sections)
    requires Loadable(d)
    ensures Parse(Print(d)) == d
  {
    hide Step, IsHeader, SectionOk, EntryOk;
    var names := Sorted(d.Keys);
    var lines := DataLines(d, names);
    var p := Parser("", map[]);
    PrintedLines(d);
    FoldConcat(p, lines, [""]);
    FoldBlank(Fold(p, lines));
    FoldDataLines(p, d, names);
    SortedCovers(d);
  }

  lemma PrintedLines(d: Sections)
    requires Loadable(d)
    ensures SplitLines(Print(d)) == DataLines(d, Sorted(d.Keys)) + [""]
  {
    hide Step, IsHeader, SectionOk, EntryOk;
    var lines := DataLines(d, Sorted(d.Keys));
    DataLinesOneLine(d, Sorted(d.Keys));
    SplitOfUnlines(lines, "");
    assert Unlines(lines) + "" == Unlines(lines);
  }

  /** The printer and the parser undo each other on exactly the data that some file
      parses to. */
  lemma RoundTrip(d: Sections)
    ensures Parse(Print(d)) == d <==> Loadable(d)
    ensures Loadable(d) <==> exists text :: Parse(text) == d
  {
    if Loadable(d) {
      ParseOfPrint(d);
    }
    forall text | Parse(text) == d
      ensures Loadable(d)
    {
      ParseIsLoadable(text);
    }
  }

  /** Loading a file and saving it back keeps its data, and a second save writes the
      same text. */
  lemma SaveIsStable(text: string)
    ensures Parse(Print(Parse(text))) == Parse(text)
    ensures Print(Parse(Print(Parse(text)))) == Print(Parse(text))
  {
    ParseIsLoadable(text);
    ParseOfPrint(Parse(text));
  }

}
