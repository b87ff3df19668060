/** internal/cluster/sync.go: which settings may travel between servers, and the
    flat key under which each of them travels. */
module Settings {
  import opened Text
  import opened Config

  /** The regular files of one server by absolute path. */
  type Files = map<string, string>

  const GROUP_CORE := "core"
  const GROUP_SECRETS := "secrets"
  const GROUP_NAMESERVERS := "nameservers"
  const FILE_PREFIX := "file:"
  const MAX_FILE := 0x20_0000

  const OPENPANEL := "openpanel"
  const ADMIN := "admin"

  function IniPath(file: string): string {
    if file == ADMIN then "/etc/openpanel/openadmin/config/admin.ini"
    else "/etc/openpanel/openpanel/conf/openpanel.config"
  }

  predicate IsIniFile(file: string) {
    file == OPENPANEL || file == ADMIN
  }

  predicate IsIniPath(path: string) {
    path == IniPath(OPENPANEL) || path == IniPath(ADMIN)
  }

  predicate CoreSection(file: string, section: string) {
    if file == ADMIN then section in {"USERS", "RESELLERS", "PANEL"}
    else section in {"USERS", "LOGS", "STATS", "APPS", "DOCKER", "SECURITY", "FILES", "DATABASES"}
  }

  /** The single keys of the group, by section and name. */
  predicate CoreKey(s: Setting) {
    && s.file == OPENPANEL
    && if s.section == "DEFAULT" then s.key in {"dir", "brand_name", "logo", "favicon", "logout_url", "enabled_modules"}
       else s.section == "PANEL" && s.key in {
         "autoupdate", "autopatch", "template", "admin_template", "screenshots", "favicons", "temporary_links",
         "favorites_items", "terminal_timeout", "menu_style", "applications_dashboard_items"
       }
  }

  predicate SecretSection(file: string, section: string) {
    if file == ADMIN then section == "CLOUDFLARE" else section in {"SMTP", "CAPTCHA", "AI"}
  }

  predicate NeverSynced(s: Setting) {
    s == Setting(OPENPANEL, "SMTP", "mail_security_token")
  }

  predicate NameserverKey(s: Setting) {
    s.file == OPENPANEL && s.section == "DEFAULT" && s.key in {"ns1", "ns2", "ns3", "ns4"}
  }

  const FEATURES_DIR := "/etc/openpanel/openpanel/features/"
  const CUSTOM_CODE_DIR := "/etc/openpanel/openpanel/custom_code/"

  /** The file globs without a wildcard. */
  predicate FixedFile(path: string) {
    path in {
      "/etc/openpanel/openpanel/conf/blacklist_useragents.txt",
      "/etc/openpanel/openpanel/conf/domain_restriction.txt",
      "/etc/openpanel/openadmin/config/forbidden_usernames.txt",
      "/etc/openpanel/openadmin/config/notifications.ini",
      "/etc/openpanel/bind9/zone_template.txt",
      "/etc/openpanel/bind9/zone_template_ipv6.txt"
    }
  }

  /** filepath.Match, for patterns whose only special character is "*". */
  predicate Match(pattern: string, name: string)
    decreases |pattern| + |name|
  {
    if pattern == "" then name == ""
    else if pattern[0] == '*' then
      Match(pattern[1..], name) || (name != "" && name[0] != '/' && Match(pattern, name[1..]))
    else name != "" && name[0] == pattern[0] && Match(pattern[1..], name[1..])
  }

  predicate MatchesGlob(path: string) {
    FixedFile(path) || Match(FEATURES_DIR + "*.txt", path) || Match(CUSTOM_CODE_DIR + "*", path)
  }

  /** filepath.Clean(path) == path, for a rooted path: every component is a name.
      No relative path matches a glob, so its cleanness does not matter. */
  predicate IsClean(path: string) {
    path != "" && path[0] == '/' && (path == "/" || CleanComponents(path[1..]))
  }

  predicate CleanComponents(s: string)
    decreases |s|
  {
    var i := IndexOf(s, '/');
    IsName(s[..i]) && (i == |s| || CleanComponents(s[i + 1..]))
  }

  predicate IsName(s: string) {
    s != "" && s != "." && s != ".."
  }

  /** The group of a key, "" when it never leaves its server. */
  function Classify(key: string): string {
    if FILE_PREFIX <= key then ClassifyFile(key[|FILE_PREFIX|..]) else ClassifyIni(key)
  }

  function ClassifyFile(path: string): string {
    if IsClean(path) && MatchesGlob(path) then GROUP_CORE else ""
  }

  /** A setting of an INI file, as the key of a change spells it. */
  datatype Setting = Setting(file: string, section: string, key: string)

  /** The three parts of "file:section.key", cut at the first ':' and the first '.'. */
  function SplitKey(key: string): Option<Setting> {
    match CutAt(key, ':')
    case Whole => None
    case Parts(file, rest) =>
      match CutAt(rest, '.')
      case Whole => None
      case Parts(section, name) => Some(Setting(file, section, name))
  }

  function ClassifyIni(key: string): string {
    match SplitKey(key)
    case None => ""
    case Some(s) =>
      if !IsIniFile(s.file) || NeverSynced(s) then ""
      else if NameserverKey(s) then GROUP_NAMESERVERS
      else if CoreKey(s) || CoreSection(s.file, s.section) then GROUP_CORE
      else if SecretSection(s.file, s.section) then GROUP_SECRETS
      else ""
  }

  predicate IsUpperName(section: string) {
    section != "" && forall i | 0 <= i < |section| :: 'A' <= section[i] <= 'Z'
  }

  lemma UpperNameIsOk(section: string)
    requires IsUpperName(section)
    ensures SectionOk(section)
  {
  }

  lemma UpperNames1(section: string)
    requires section in {"USERS", "LOGS", "STATS", "APPS", "DOCKER", "FILES", "PANEL", "SMTP", "AI"}
    ensures IsUpperName(section)
  {
  }

  lemma UpperNames2(section: string)
    requires section in {"SECURITY", "DATABASES", "RESELLERS", "DEFAULT", "CLOUDFLARE", "CAPTCHA"}
    ensures IsUpperName(section)
  {
  }

  /** The sections a key can be shared from are plain names. */
  lemma SharedSection(key: string)
    requires ClassifyIni(key) != ""
    ensures SplitKey(key).Some? && IsIniFile(SplitKey(key).value.file) && SectionOk(SplitKey(key).value.section)
  {
    hide SplitKey, SectionOk, IsUpperName;
    var section := SplitKey(key).value.section;
    if section in {"USERS", "LOGS", "STATS", "APPS", "DOCKER", "FILES", "PANEL", "SMTP", "AI"} {
      UpperNames1(section);
    } else {
      UpperNames2(section);
    }
    UpperNameIsOk(section);
  }

  function IniKey(s: Setting): string {
    s.file + ":" + s.section + "." + s.key
  }

  function FileKey(path: string): string {
    FILE_PREFIX + path
  }

  // Keys of INI settings

  predicate Undotted(s: Setting) {
    IsIniFile(s.file) && '.' !in s.section
  }

  lemma SplitOfIniKey(s: Setting)
    requires Undotted(s)
    ensures SplitKey(IniKey(s)) == Some(s)
  {
    hide IndexOf, IsIniFile;
    var rest := s.section + "." + s.key;
    assert ':' !in s.file by { NoColonIn(s.file); }
    CutOf(s.file, ':', rest);
    assert s.file + [':'] + rest == IniKey(s);
    CutOf(s.section, '.', s.key);
  }

  lemma NoColonIn(file: string)
    requires IsIniFile(file)
    ensures ':' !in file
  {
  }

  lemma IniKeyOfSplit(key: string)
    requires SplitKey(key).Some?
    ensures IniKey(SplitKey(key).value) == key
    ensures '.' !in SplitKey(key).value.section
  {
    hide CutAt;
    CutJoins(key, ':');
    var rest := CutAt(key, ':').after;
    CutJoins(rest, '.');
    var s := SplitKey(key).value;
    Regroup(s.file + ":", s.section + ".", s.key);
    Regroup(s.file + ":", s.section, ".");
  }

  lemma IniKeyIsNoFileKey(s: Setting)
    requires IsIniFile(s.file)
    ensures !(FILE_PREFIX <= IniKey(s))
  {
    assert IniKey(s)[0] == s.file[0];
  }

  lemma FileKeyParts(path: string)
    ensures FILE_PREFIX <= FileKey(path) && FileKey(path)[|FILE_PREFIX|..] == path
  {
  }

  /** Two settings of INI files whose section names have no dot never share a key. */
  lemma IniKeyInjective(a: Setting, b: Setting)
    requires Undotted(a) && Undotted(b) && IniKey(a) == IniKey(b)
    ensures a == b
  {
    hide IndexOf;
    SplitOfIniKey(a);
    SplitOfIniKey(b);
  }

  // Which files may travel

  lemma {:induction false} MatchLiteral(literal: string, pattern: string, name: string)
    requires '*' !in literal
    ensures Match(literal + pattern, name) <==> literal <= name && Match(pattern, name[|literal|..])
    decreases |literal|
  {
    var whole := literal + pattern;
    if literal == "" {
      assert whole == pattern;
    } else {
      assert whole[1..] == literal[1..] + pattern;
      if name != "" {
        MatchLiteral(literal[1..], pattern, name[1..]);
        assert literal <= name <==> literal[0] == name[0] && literal[1..] <= name[1..];
        if literal <= name {
          assert name[1..][|literal| - 1..] == name[|literal|..];
        }
      }
    }
  }

  lemma {:induction false} MatchStar(name: string)
    ensures Match("*", name) <==> '/' !in name
  {
    assert "*"[1..] == "";
    if name != "" {
      MatchStar(name[1..]);
      assert '/' in name <==> name[0] == '/' || '/' in name[1..];
    }
  }

  lemma {:induction false} MatchStarSuffix(name: string)
    ensures Match("*.txt", name) ==> HasSuffix(name, ".txt") && '/' !in name
  {
    assert "*.txt"[1..] == ".txt";
    if name != "" {
      MatchStarSuffix(name[1..]);
      assert '/' in name <==> name[0] == '/' || '/' in name[1..];
      if HasSuffix(name[1..], ".txt") {
        assert name[1..][|name| - 5..] == name[|name| - 4..];
      }
    }
    if Match(".txt", name) {
      MatchExact(".txt", name);
    }
  }

  lemma MatchExact(literal: string, name: string)
    requires '*' !in literal && Match(literal, name)
    ensures name == literal
  {
    hide Match;
    assert literal + "" == literal;
    MatchLiteral(literal, "", name);
    assert Match("", name[|literal|..]) ==> name[|literal|..] == "" by { MatchEmpty(name[|literal|..]); }
    assert name == name[..|literal|] + name[|literal|..];
  }

  lemma MatchEmpty(name: string)
    ensures Match("", name) <==> name == ""
  {
  }

  lemma {:induction false} CleanLastName(dir: string, name: string)
    requires CleanComponents(dir + "/" + name) && '/' !in name
    ensures IsName(name)
    decreases |dir|
  {
    var s := dir + "/" + name;
    var i := IndexOf(s, '/');
    if '/' in dir {
      var j := IndexOf(dir, '/');
      assert s[..j] == dir[..j];
      IndexOfIs(s, '/', j);
      assert s[i + 1..] == dir[j + 1..] + "/" + name;
      CleanLastName(dir[j + 1..], name);
    } else {
      assert s[..|dir|] == dir;
      IndexOfIs(s, '/', |dir|);
      assert s[|dir| + 1..] == name;
      assert IndexOf(name, '/') == |name|;
      assert name[..|name|] == name;
    }
  }

  predicate DirectChild(dir: string, path: string) {
    dir <= path && IsName(path[|dir|..]) && '/' !in path[|dir|..]
  }

  lemma ChildName(dir: string, path: string)
    requires dir != "" && dir[0] == '/' && |dir| > 1 && dir[|dir| - 1] == '/'
    requires dir <= path && IsClean(path) && '/' !in path[|dir|..]
    ensures DirectChild(dir, path)
  {
    var name := path[|dir|..];
    var inner := dir[1..|dir| - 1];
    assert path[1..] == inner + "/" + name;
    assert path != "/";
    CleanLastName(inner, name);
  }

  /** Whatever key a master sends, a file it can have written is one of six fixed
      files or lies directly inside one of two directories. */
  lemma ClassifiedFile(path: string)
    ensures Classify(FileKey(path)) == ClassifyFile(path)
    ensures ClassifyFile(path) != "" ==>
              || FixedFile(path)
              || DirectChild(CUSTOM_CODE_DIR, path)
              || (DirectChild(FEATURES_DIR, path) && HasSuffix(path, ".txt"))
  {
    hide IsClean, FixedFile, Match, DirectChild, HasSuffix;
    FileKeyParts(path);
    if IsClean(path) && Match(CUSTOM_CODE_DIR + "*", path) {
      CustomCodeFile(path);
    }
    if IsClean(path) && Match(FEATURES_DIR + "*.txt", path) {
      FeatureFile(path);
    }
  }

  lemma CustomCodeFile(path: string)
    requires IsClean(path) && Match(CUSTOM_CODE_DIR + "*", path)
    ensures DirectChild(CUSTOM_CODE_DIR, path)
  {
    hide IsClean, Match, DirectChild;
    InDirectory(CUSTOM_CODE_DIR, "*", path);
    MatchStar(path[|CUSTOM_CODE_DIR|..]);
    ChildName(CUSTOM_CODE_DIR, path);
  }

  lemma FeatureFile(path: string)
    requires IsClean(path) && Match(FEATURES_DIR + "*.txt", path)
    ensures DirectChild(FEATURES_DIR, path) && HasSuffix(path, ".txt")
  {
    hide IsClean, Match, DirectChild;
    InDirectory(FEATURES_DIR, "*.txt", path);
    MatchStarSuffix(path[|FEATURES_DIR|..]);
    ChildName(FEATURES_DIR, path);
    assert path[|path| - 4..] == path[|FEATURES_DIR|..][|path| - |FEATURES_DIR| - 4..];
  }

  lemma InDirectory(dir: string, pattern: string, path: string)
    requires '*' !in dir && Match(dir + pattern, path)
    ensures dir <= path && Match(pattern, path[|dir|..])
  {
    MatchLiteral(dir, pattern, path);
  }

  lemma IniPathIsNotShared(path: string)
    requires IsIniPath(path)
    ensures ClassifyFile(path) == ""
  {
    ClassifiedFile(path);
    hide ClassifyFile, IsName, HasSuffix;
    assert path[26] == 'o' && CUSTOM_CODE_DIR[26] == 'u' && FEATURES_DIR[26] == 'e';
    assert !FixedFile(path);
  }

  // Every file of the custom code directory is shared

  lemma CleanCons(name: string, rest: string)
    requires IsName(name) && '/' !in name && CleanComponents(rest)
    ensures CleanComponents(name + "/" + rest)
  {
    hide IsName;
    var s := name + "/" + rest;
    assert s[..|name|] == name && s[|name| + 1..] == rest;
    IndexOfIs(s, '/', |name|);
  }

  lemma CleanOne(name: string)
    requires IsName(name) && '/' !in name
    ensures CleanComponents(name)
  {
    assert IndexOf(name, '/') == |name|;
    assert name[..|name|] == name;
  }

  lemma CustomCodeIsClean(name: string)
    requires IsName(name) && '/' !in name
    ensures IsClean(CUSTOM_CODE_DIR + name)
  {
    hide CleanComponents;
    var rest := "custom_code" + "/" + name;
    CleanOne(name);
    CleanCons("custom_code", name);
    CleanCons("openpanel", rest);
    CleanCons("openpanel", "openpanel" + "/" + rest);
    CleanCons("etc", "openpanel" + "/" + ("openpanel" + "/" + rest));
    DirectoryParts();
    Rooted("etc", "openpanel", "openpanel", "custom_code", name);
  }

  lemma Rooted(a: string, b: string, c: string, d: string, name: string)
    requires a != ""
    ensures var path := "/" + a + "/" + b + "/" + c + "/" + d + "/" + name;
            path[0] == '/' && path != "/" && path[1..] == a + "/" + (b + "/" + (c + "/" + (d + "/" + name)))
  {
    Regroup("/" + a + "/" + b + "/" + c + "/", d + "/", name);
    Regroup("/" + a + "/" + b + "/", c + "/", d + "/" + name);
    Regroup("/" + a + "/", b + "/", c + "/" + (d + "/" + name));
    Regroup("/", a + "/", b + "/" + (c + "/" + (d + "/" + name)));
  }

  lemma DirectoryParts()
    ensures CUSTOM_CODE_DIR == "/" + "etc" + "/" + "openpanel" + "/" + "openpanel" + "/" + "custom_code" + "/"
  {
  }

  lemma NoStar()
    ensures '*' !in CUSTOM_CODE_DIR
  {
  }

  lemma CustomCodeIsShared(name: string)
    requires IsName(name) && '/' !in name
    ensures Classify(FileKey(CUSTOM_CODE_DIR + name)) == GROUP_CORE
  {
    hide IsClean, Match, FixedFile, IsName;
    var path := CUSTOM_CODE_DIR + name;
    CustomCodeIsClean(name);
    NoStar();
    MatchLiteral(CUSTOM_CODE_DIR, "*", path);
    assert path[|CUSTOM_CODE_DIR|..] == name;
    MatchStar(name);
    FileKeyParts(path);
  }
}
