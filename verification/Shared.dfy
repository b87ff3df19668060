/** internal/cluster/sync.go: exactly which settings and files are shared, key by key, and
    what a sync can therefore never touch. */
module Shared {
  import opened Text
  import opened Config
  import opened Settings
  import opened Pull
  import opened Convergence

  // Settings

  /** The groups of the settings. Every other setting stays on its server. */
  lemma SettingGroups(s: Setting)
    requires Undotted(s)
    ensures Classify(IniKey(s)) == "nameservers" <==> s.file == "openpanel" && s.section == "DEFAULT" && s.key in {"ns1", "ns2", "ns3", "ns4"}
    ensures Classify(IniKey(s)) == "secrets" <==>
              || (s.file == "openpanel" && s.section in {"SMTP", "CAPTCHA", "AI"} && !(s.section == "SMTP" && s.key == "mail_security_token"))
              || (s.file == "admin" && s.section == "CLOUDFLARE")
    ensures Classify(IniKey(s)) == "core" <==>
              || (s.file == "openpanel" && s.section in {"USERS", "LOGS", "STATS", "APPS", "DOCKER", "SECURITY", "FILES", "DATABASES"})
              || (s.file == "admin" && s.section in {"USERS", "RESELLERS", "PANEL"})
              || (s.file == "openpanel" && s.section == "DEFAULT" && s.key in {"dir", "brand_name", "logo", "favicon", "logout_url", "enabled_modules"})
              || (s.file == "openpanel" && s.section == "PANEL" && IsPanelKey(s.key))
    ensures Classify(IniKey(s)) in {"", "core", "secrets", "nameservers"}
  {
    hide SplitKey, IniKey;
    SplitOfIniKey(s);
    IniKeyIsNoFileKey(s);
  }

  predicate IsPanelKey(k: string) {
    k in {"autoupdate", "autopatch", "template", "admin_template", "screenshots", "favicons", "temporary_links", "favorites_items",
          "terminal_timeout", "menu_style", "applications_dashboard_items"}
  }

  /** What a sync does not write, it leaves alone. */
  lemma UnwrittenStays(fs: Files, local: map<string, string>, remote: map<string, string>, groups: seq<string>, pinned: seq<string>, s: Setting)
    requires Undotted(s) && Classify(IniKey(s)) !in groups
    ensures IniKey(s) !in PulledNews(local, remote, groups, pinned)
    ensures NewsStorable(PulledNews(local, remote, groups, pinned)) ==> Cell(Pulled(fs, local, remote, groups, pinned), s) == Cell(fs, s)
  {
    hide Classify, Pulled, Cell, IniKey, FilesAgree, NewsStorable;
    PullEffect(fs, local, remote, groups, pinned);
  }

  /** A server that did not choose the secrets keeps its own mail, captcha, AI and
      Cloudflare settings, whatever the master has. */
  lemma SecretsStay(fs: Files, local: map<string, string>, remote: map<string, string>, groups: seq<string>, pinned: seq<string>, s: Setting)
    requires (s.file == "openpanel" && s.section in {"SMTP", "CAPTCHA", "AI"}) || (s.file == "admin" && s.section == "CLOUDFLARE")
    requires "secrets" !in groups
    ensures IniKey(s) !in PulledNews(local, remote, groups, pinned)
    ensures NewsStorable(PulledNews(local, remote, groups, pinned)) ==> Cell(Pulled(fs, local, remote, groups, pinned), s) == Cell(fs, s)
  {
    hide Classify, Pulled, Cell, IniKey, NewsStorable;
    NoDotInSecrets(s.section);
    SettingGroups(s);
    if Classify(IniKey(s)) == "" {
      UnsharedStays(fs, local, remote, groups, pinned, s);
    } else {
      UnwrittenStays(fs, local, remote, groups, pinned, s);
    }
  }

  lemma NoDotInSecrets(section: string)
    requires section in {"SMTP", "CAPTCHA", "AI", "CLOUDFLARE"}
    ensures '.' !in section
  {
  }

  /** What is in no group is never written, whatever groups are chosen. */
  lemma UnsharedStays(fs: Files, local: map<string, string>, remote: map<string, string>, groups: seq<string>, pinned: seq<string>, s: Setting)
    requires Undotted(s) && Classify(IniKey(s)) == ""
    ensures IniKey(s) !in PulledNews(local, remote, groups, pinned)
    ensures NewsStorable(PulledNews(local, remote, groups, pinned)) ==> Cell(Pulled(fs, local, remote, groups, pinned), s) == Cell(fs, s)
  {
    hide Classify, Pulled, Cell, IniKey, FilesAgree, NewsStorable;
    PullEffect(fs, local, remote, groups, pinned);
  }

  lemma TokenKey(s: Setting)
    requires s == Setting("openpanel", "SMTP", "mail_security_token")
    ensures IniKey(s) == "openpanel:SMTP.mail_security_token"
  {
  }

  /** The mail token is never written, even where the secrets were chosen. */
  lemma MailTokenStays(fs: Files, local: map<string, string>, remote: map<string, string>, groups: seq<string>, pinned: seq<string>)
    ensures "openpanel:SMTP.mail_security_token" !in PulledNews(local, remote, groups, pinned)
    ensures var s := Setting("openpanel", "SMTP", "mail_security_token");
            NewsStorable(PulledNews(local, remote, groups, pinned)) ==> Cell(Pulled(fs, local, remote, groups, pinned), s) == Cell(fs, s)
  {
    hide Classify, Pulled, Cell, NewsStorable, PulledNews, IniKey;
    var s := Setting("openpanel", "SMTP", "mail_security_token");
    TokenKey(s);
    NoDotInSecrets(s.section);
    SettingGroups(s);
    UnsharedStays(fs, local, remote, groups, pinned, s);
  }

  // Files

  predicate NameOk(n: string) {
    IsName(n) && '/' !in n
  }

  lemma CleanUnder(a: string, b: string, c: string, name: string)
    requires NameOk(a) && NameOk(b) && NameOk(c) && NameOk(name)
    ensures IsClean("/" + a + "/" + b + "/" + c + "/" + name)
  {
    hide IsName, CleanComponents;
    CleanOne(name);
    CleanCons(c, name);
    CleanCons(b, c + "/" + name);
    CleanCons(a, b + "/" + (c + "/" + name));
    var path := "/" + a + "/" + b + "/" + c + "/" + name;
    assert path[1..] == a + "/" + (b + "/" + (c + "/" + name));
  }

  lemma CleanIn(a: string, b: string, c: string, d: string, name: string)
    requires NameOk(a) && NameOk(b) && NameOk(c) && NameOk(d) && NameOk(name)
    ensures IsClean("/" + a + "/" + b + "/" + c + "/" + d + "/" + name)
  {
    hide IsName, CleanComponents;
    CleanOne(name);
    CleanCons(d, name);
    CleanCons(c, d + "/" + name);
    CleanCons(b, c + "/" + (d + "/" + name));
    CleanCons(a, b + "/" + (c + "/" + (d + "/" + name)));
    var path := "/" + a + "/" + b + "/" + c + "/" + d + "/" + name;
    assert path[1..] == a + "/" + (b + "/" + (c + "/" + (d + "/" + name)));
  }

  lemma DirectoryNames()
    ensures NameOk("etc") && NameOk("openpanel") && NameOk("features") && NameOk("conf") && NameOk("config") && NameOk("openadmin") && NameOk("bind9")
  {
  }

  lemma ConfNames()
    ensures NameOk("blacklist_useragents.txt") && NameOk("domain_restriction.txt")
  {
  }

  lemma ConfigNames()
    ensures NameOk("forbidden_usernames.txt") && NameOk("notifications.ini")
  {
  }

  lemma BindNames()
    ensures NameOk("zone_template.txt") && NameOk("zone_template_ipv6.txt")
  {
  }

  lemma ConfDirectory()
    ensures "/" + "etc" + "/" + "openpanel" + "/" + "openpanel" + "/" + "conf" + "/" == "/etc/openpanel/openpanel/conf/"
  {
  }

  lemma ConfigDirectory()
    ensures "/" + "etc" + "/" + "openpanel" + "/" + "openadmin" + "/" + "config" + "/" == "/etc/openpanel/openadmin/config/"
  {
  }

  lemma BindDirectory()
    ensures "/" + "etc" + "/" + "openpanel" + "/" + "bind9" + "/" == "/etc/openpanel/bind9/"
  {
  }

  lemma FeaturesDirectory()
    ensures "/" + "etc" + "/" + "openpanel" + "/" + "openpanel" + "/" + "features" + "/" == "/etc/openpanel/openpanel/features/"
  {
  }

  lemma ConfFiles()
    ensures "/etc/openpanel/openpanel/conf/" + "blacklist_useragents.txt" == "/etc/openpanel/openpanel/conf/blacklist_useragents.txt"
    ensures "/etc/openpanel/openpanel/conf/" + "domain_restriction.txt" == "/etc/openpanel/openpanel/conf/domain_restriction.txt"
  {
  }

  lemma ConfigFiles()
    ensures "/etc/openpanel/openadmin/config/" + "forbidden_usernames.txt" == "/etc/openpanel/openadmin/config/forbidden_usernames.txt"
    ensures "/etc/openpanel/openadmin/config/" + "notifications.ini" == "/etc/openpanel/openadmin/config/notifications.ini"
  {
  }

  lemma BindFiles()
    ensures "/etc/openpanel/bind9/" + "zone_template.txt" == "/etc/openpanel/bind9/zone_template.txt"
    ensures "/etc/openpanel/bind9/" + "zone_template_ipv6.txt" == "/etc/openpanel/bind9/zone_template_ipv6.txt"
  {
  }

  lemma ConfFilesAreClean()
    ensures IsClean("/etc/openpanel/openpanel/conf/blacklist_useragents.txt")
    ensures IsClean("/etc/openpanel/openpanel/conf/domain_restriction.txt")
  {
    hide IsClean, NameOk;
    DirectoryNames();
    ConfNames();
    ConfDirectory();
    ConfFiles();
    CleanIn("etc", "openpanel", "openpanel", "conf", "blacklist_useragents.txt");
    CleanIn("etc", "openpanel", "openpanel", "conf", "domain_restriction.txt");
  }

  lemma ConfigFilesAreClean()
    ensures IsClean("/etc/openpanel/openadmin/config/forbidden_usernames.txt")
    ensures IsClean("/etc/openpanel/openadmin/config/notifications.ini")
  {
    hide IsClean, NameOk;
    DirectoryNames();
    ConfigNames();
    ConfigDirectory();
    ConfigFiles();
    CleanIn("etc", "openpanel", "openadmin", "config", "forbidden_usernames.txt");
    CleanIn("etc", "openpanel", "openadmin", "config", "notifications.ini");
  }

  lemma BindFilesAreClean()
    ensures IsClean("/etc/openpanel/bind9/zone_template.txt")
    ensures IsClean("/etc/openpanel/bind9/zone_template_ipv6.txt")
  {
    hide IsClean, NameOk;
    DirectoryNames();
    BindNames();
    BindDirectory();
    BindFiles();
    CleanUnder("etc", "openpanel", "bind9", "zone_template.txt");
    CleanUnder("etc", "openpanel", "bind9", "zone_template_ipv6.txt");
  }

  predicate IsListed(path: string) {
    || path == "/etc/openpanel/openpanel/conf/blacklist_useragents.txt"
    || path == "/etc/openpanel/openpanel/conf/domain_restriction.txt"
    || path == "/etc/openpanel/openadmin/config/forbidden_usernames.txt"
    || path == "/etc/openpanel/openadmin/config/notifications.ini"
    || path == "/etc/openpanel/bind9/zone_template.txt"
    || path == "/etc/openpanel/bind9/zone_template_ipv6.txt"
  }

  lemma ListedIsShared(path: string)
    requires IsListed(path)
    ensures ClassifyFile(path) == GROUP_CORE
  {
    hide IsClean, Match;
    ConfFilesAreClean();
    ConfigFilesAreClean();
    BindFilesAreClean();
  }

  lemma StarSkips(pattern: string, name: string)
    requires name != "" && name[0] != '/' && pattern != "" && pattern[0] == '*' && Match(pattern, name[1..])
    ensures Match(pattern, name)
  {
  }

  lemma StarEnds(pattern: string, name: string)
    requires pattern != "" && pattern[0] == '*' && Match(pattern[1..], name)
    ensures Match(pattern, name)
  {
  }

  lemma {:induction false} MatchTxt(name: string)
    requires '/' !in name && HasSuffix(name, ".txt")
    ensures Match("*.txt", name)
    decreases |name|
  {
    hide Match;
    if |name| == 4 {
      assert "*.txt"[1..] == ".txt";
      MatchSame(".txt");
      StarEnds("*.txt", name);
    } else {
      assert name[1..][|name| - 5..] == name[|name| - 4..];
      MatchTxt(name[1..]);
      StarSkips("*.txt", name);
    }
  }

  lemma {:induction false} MatchSame(literal: string)
    requires '*' !in literal
    ensures Match(literal, literal)
    decreases |literal|
  {
    if literal != "" {
      MatchSame(literal[1..]);
    }
  }

  lemma FeatureIsShared(name: string)
    requires IsName(name) && '/' !in name && HasSuffix(name, ".txt")
    ensures ClassifyFile("/etc/openpanel/openpanel/features/" + name) == GROUP_CORE
  {
    hide IsClean, Match, FixedFile, IsName, HasSuffix;
    var path := "/etc/openpanel/openpanel/features/" + name;
    FeaturesAreClean(name);
    MatchLiteral(FEATURES_DIR, "*.txt", path);
    assert path[|FEATURES_DIR|..] == name;
    MatchTxt(name);
  }

  lemma FeaturesAreClean(name: string)
    requires IsName(name) && '/' !in name
    ensures IsClean("/etc/openpanel/openpanel/features/" + name)
  {
    hide IsClean, IsName;
    assert NameOk(name);
    hide NameOk;
    DirectoryNames();
    CleanIn("etc", "openpanel", "openpanel", "features", name);
    FeaturesDirectory();
  }

  /** A file directly in a directory. */
  predicate IsIn(dir: string, path: string) {
    && |path| > |dir| && path[..|dir|] == dir && '/' !in path[|dir|..]
    && path[|dir|..] != "." && path[|dir|..] != ".."
  }

  lemma ChildIsIn(dir: string, path: string)
    ensures DirectChild(dir, path) <==> IsIn(dir, path)
  {
  }

  /** A file is shared exactly if it is one of six listed files, lies directly in the
      custom code directory, or is a text file directly in the features directory. */
  lemma SharedFiles(path: string)
    ensures Classify("file:" + path) == "core" <==>
              || IsListed(path)
              || IsIn("/etc/openpanel/openpanel/custom_code/", path)
              || (IsIn("/etc/openpanel/openpanel/features/", path) && HasSuffix(path, ".txt"))
    ensures Classify("file:" + path) in {"", "core"}
  {
    hide IsClean, Match, HasSuffix, ClassifyIni, IsName, IsIn;
    ChildIsIn("/etc/openpanel/openpanel/custom_code/", path);
    ChildIsIn("/etc/openpanel/openpanel/features/", path);
    FileKeyParts(path);
    ClassifiedFile(path);
    if IsListed(path) {
      ListedIsShared(path);
    } else if DirectChild("/etc/openpanel/openpanel/custom_code/", path) {
      CustomCodeIsShared(path[|CUSTOM_CODE_DIR|..]);
      assert CUSTOM_CODE_DIR + path[|CUSTOM_CODE_DIR|..] == path;
    } else if DirectChild("/etc/openpanel/openpanel/features/", path) && HasSuffix(path, ".txt") {
      FeatureName(path);
      FeatureIsShared(path[|FEATURES_DIR|..]);
      assert FEATURES_DIR + path[|FEATURES_DIR|..] == path;
    }
  }

  lemma FeatureName(path: string)
    requires DirectChild(FEATURES_DIR, path) && HasSuffix(path, ".txt")
    ensures HasSuffix(path[|FEATURES_DIR|..], ".txt")
  {
    var n := |path| - 4;
    if n < |FEATURES_DIR| {
      assert path[|FEATURES_DIR| - 1] == FEATURES_DIR[|FEATURES_DIR| - 1] == '/';
      NoSlashInTxt(path, n, |FEATURES_DIR| - 1);
      assert false;
    }
    assert path[|FEATURES_DIR|..][n - |FEATURES_DIR|..] == path[n..];
  }

  lemma NoSlashInTxt(path: string, n: nat, k: nat)
    requires n <= k < |path| && path[n..] == ".txt"
    ensures path[k] != '/'
  {
    assert path[k] == path[n..][k - n];
  }

  /** A shared file is reported, with its content, up to two megabytes. */
  lemma FileIsReported(fs: Files, values: map<string, string>, path: string)
    requires IsSnapshot(fs, values)
    ensures "file:" + path in values <==> path in fs && Classify("file:" + path) != "" && |fs[path]| <= 2_097_152
    ensures "file:" + path in values ==> path in fs && values["file:" + path] == fs[path]
  {
    hide Classify, Cell, IniKey, IsSnapshot;
    assert "file:" + path == FileKey(path);
    FileKeyParts(path);
    if Classify(FileKey(path)) != "" {
      FileEntry(fs, path, FileKey(path), values);
    } else if FileKey(path) in values {
      ReportedIsShared(fs, values, FileKey(path));
      assert false;
    }
  }

  lemma ReportedIsShared(fs: Files, values: map<string, string>, key: string)
    requires IsSnapshot(fs, values) && key in values
    ensures Classify(key) != ""
  {
    hide Classify, Cell, IniKey, FileKey;
    assert Entry(fs, key, values[key]);
  }

  /** The two files whose settings are shared. */
  lemma IniFiles()
    ensures IniPath("openpanel") == "/etc/openpanel/openpanel/conf/openpanel.config"
    ensures IniPath("admin") == "/etc/openpanel/openadmin/config/admin.ini"
  {
  }
}
