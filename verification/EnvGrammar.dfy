/** internal/handlers/backups_env_form.go: the lines of backup.env, said directly. */
module EnvGrammar {
  import opened Text
  import opened EnvFile

  // The line format

  predicate IsBlank(s: string) {
    forall i | 0 <= i < |s| :: s[i] in " \t\n\r\U{000c}"
  }

  predicate IsName(k: string) {
    && k != "" && k[0] in "ABCDEFGHIJKLMNOPQRSTUVWXYZ"
    && forall i | 0 <= i < |k| :: k[i] in "ABCDEFGHIJKLMNOPQRSTUVWXYZ" || k[i] in "0123456789" || k[i] == '_'
  }

  lemma NameIsKey(k: string)
    ensures IsName(k) <==> IsKey(k)
  {
    forall c: char
      ensures IsUpper(c) <==> c in "ABCDEFGHIJKLMNOPQRSTUVWXYZ"
      ensures '0' <= c <= '9' <==> c in "0123456789"
    {
      UpperCase(c);
      Digit(c);
    }
  }

  lemma BlankChar(c: char)
    ensures c in " \t\n\r\U{000c}" <==> IsReSpace(c)
  {
  }

  lemma {:induction false} SkipBlank(pre: string, rest: string)
    requires IsBlank(pre) && (rest == "" || !IsReSpace(rest[0]))
    ensures SkipReSpaces(pre + rest) == rest
    decreases |pre|
  {
    hide IsReSpace;
    if pre == "" {
      assert pre + rest == rest;
    } else {
      BlankChar(pre[0]);
      assert (pre + rest)[1..] == pre[1..] + rest;
      SkipBlank(pre[1..], rest);
    }
  }

  lemma {:induction false} BlankCut(s: string) returns (pre: string)
    ensures IsBlank(pre) && s == pre + SkipReSpaces(s)
    ensures SkipReSpaces(s) == "" || !IsReSpace(SkipReSpaces(s)[0])
    decreases |s|
  {
    hide IsReSpace;
    if s != "" && IsReSpace(s[0]) {
      BlankChar(s[0]);
      var more := BlankCut(s[1..]);
      pre := [s[0]] + more;
      assert s == [s[0]] + s[1..];
    } else {
      pre := "";
    }
  }

  /** A line is the setting of a key if it is blanks, the key, "=" and the value, or the
      same behind blanks and a "#". */
  ghost predicate Spells(line: string, m: Line)
    requires m.Setting?
  {
    exists pre, mid :: IsBlank(pre) && IsBlank(mid) && line == pre + (if m.commented then "#" + mid else mid) + m.key + "=" + m.raw
  }

  lemma SettingSpells(commented: bool, s: string)
    requires MatchSetting(commented, s).Setting?
    ensures var m := MatchSetting(commented, s); m.commented == commented && s == m.key + "=" + m.raw && IsName(m.key)
  {
    hide KeyLength, IsName, IsKey;
    NameIsKey(MatchSetting(commented, s).key);
    var n := KeyLength(s);
    assert s == s[..n] + [s[n]] + s[n + 1..];
  }

  lemma MatchedSpells(line: string)
    requires MatchLine(line).Setting?
    ensures Spells(line, MatchLine(line)) && IsName(MatchLine(line).key)
  {
    hide IsName, MatchSetting, SkipReSpaces;
    var pre := BlankCut(line);
    var s := SkipReSpaces(line);
    var m := MatchLine(line);
    var none: string := "";
    assert IsBlank(none);
    if s != "" && s[0] == '#' {
      var mid := BlankCut(s[1..]);
      var t := SkipReSpaces(s[1..]);
      SettingSpells(true, t);
      assert s == "#" + (mid + t);
      assert line == pre + ("#" + mid) + m.key + "=" + m.raw;
    } else {
      SettingSpells(false, s);
      assert line == pre + none + m.key + "=" + m.raw;
    }
  }

  lemma Plain(pre: string, key: string, raw: string)
    requires IsBlank(pre) && IsName(key)
    ensures MatchLine(pre + (key + "=" + raw)) == Setting(false, key, raw)
  {
    hide IsBlank, IsKey, IsName, MatchSetting, SkipReSpaces, IsReSpace;
    var setting := key + "=" + raw;
    NameIsKey(key);
    KeyStart(key);
    assert setting[0] == key[0];
    MatchSettingOf(false, key, raw);
    SkipBlank(pre, setting);
  }

  lemma BehindHash(pre: string, mid: string, key: string, raw: string)
    requires IsBlank(pre) && IsBlank(mid) && IsName(key)
    ensures MatchLine(pre + ("#" + (mid + (key + "=" + raw)))) == Setting(true, key, raw)
  {
    hide IsBlank, IsKey, IsName, MatchSetting, SkipReSpaces, IsReSpace;
    var setting := key + "=" + raw;
    NameIsKey(key);
    KeyStart(key);
    assert setting[0] == key[0];
    MatchSettingOf(true, key, raw);
    SkipBlank(mid, setting);
    var rest := "#" + (mid + setting);
    assert rest[0] == '#' && rest[1..] == mid + setting;
    HashIsNoSpace();
    SkipBlank(pre, rest);
  }

  lemma BehindBlanks(pre: string, mid: string, commented: bool, key: string, raw: string)
    requires IsBlank(pre) && IsBlank(mid) && IsName(key)
    ensures MatchLine(pre + (if commented then "#" + mid else mid) + key + "=" + raw) == Setting(commented, key, raw)
  {
    hide MatchLine, IsBlank, IsName;
    if commented {
      BehindHash(pre, mid, key, raw);
      assert pre + ("#" + mid) + key + "=" + raw == pre + ("#" + (mid + (key + "=" + raw)));
    } else {
      BlankConcat(pre, mid);
      Plain(pre + mid, key, raw);
      assert pre + mid + key + "=" + raw == (pre + mid) + (key + "=" + raw);
    }
  }

  lemma KeyStart(key: string)
    requires IsName(key)
    ensures key != "" && !IsReSpace(key[0]) && key[0] != '#'
  {
    UpperCase(key[0]);
  }

  lemma HashIsNoSpace()
    ensures !IsReSpace('#')
  {
  }

  lemma BlankConcat(a: string, b: string)
    requires IsBlank(a) && IsBlank(b)
    ensures IsBlank(a + b)
  {
  }

  /** Which lines set a key, exactly. */
  lemma LineExactly(line: string, m: Line)
    requires m.Setting?
    ensures MatchLine(line) == m <==> Spells(line, m) && IsName(m.key)
  {
    hide MatchLine, IsBlank, IsName;
    if MatchLine(line) == m {
      MatchedSpells(line);
    }
    if Spells(line, m) && IsName(m.key) {
      var pre, mid :| IsBlank(pre) && IsBlank(mid) && line == pre + (if m.commented then "#" + mid else mid) + m.key + "=" + m.raw;
      BehindBlanks(pre, mid, m.commented, m.key, m.raw);
    }
  }

  // Values

  /** One pair of equal quotes around the trimmed value is stripped, and nothing else. */
  lemma UnquoteExactly(v: string)
    ensures forall x | TrimSpace(v) == "'" + x + "'" || TrimSpace(v) == "\"" + x + "\"" :: Unquote(v) == x
    ensures (forall x :: TrimSpace(v) != "'" + x + "'" && TrimSpace(v) != "\"" + x + "\"") ==> Unquote(v) == TrimSpace(v)
  {
    hide TrimSpace;
    var t := TrimSpace(v);
    forall x | t == "'" + x + "'" || t == "\"" + x + "\""
      ensures Unquote(v) == x
    {
      assert t[1..|t| - 1] == x;
    }
    if |t| >= 2 && (t[0] == '\'' || t[0] == '"') && t[|t| - 1] == t[0] {
      var x := t[1..|t| - 1];
      assert t == [t[0]] + x + [t[0]];
    }
  }

  // The keys of the destinations

  lemma S3KeysAre()
    ensures SectionKeys("s3") == [
              "AWS_S3_BUCKET_NAME", "AWS_S3_PATH", "AWS_ACCESS_KEY_ID", "AWS_SECRET_ACCESS_KEY", "AWS_IAM_ROLE_ENDPOINT", "AWS_ENDPOINT",
              "AWS_ENDPOINT_PROTO", "AWS_ENDPOINT_INSECURE", "AWS_ENDPOINT_CA_CERT", "AWS_STORAGE_CLASS", "AWS_PART_SIZE"]
  {
  }

  lemma WebdavKeysAre()
    ensures SectionKeys("webdav") == ["WEBDAV_URL", "WEBDAV_USERNAME", "WEBDAV_PATH", "WEBDAV_PASSWORD", "WEBDAV_URL_INSECURE"]
  {
  }

  lemma SshKeysAre()
    ensures SectionKeys("ssh") == [
              "SSH_HOST_NAME", "SSH_PORT", "SSH_REMOTE_PATH", "SSH_USER", "SSH_PASSWORD",
              "SSH_IDENTITY_FILE", "SSH_IDENTITY_PASSPHRASE", "SSH_HOST_PUBLIC_KEY"]
  {
  }

  lemma AzureKeysAre()
    ensures SectionKeys("azure") == [
              "AZURE_STORAGE_ACCOUNT_NAME", "AZURE_STORAGE_PRIMARY_ACCOUNT_KEY", "AZURE_STORAGE_CONNECTION_STRING",
              "AZURE_STORAGE_CONTAINER_NAME", "AZURE_STORAGE_ENDPOINT", "AZURE_STORAGE_ACCESS_TIER"]
  {
  }

  lemma DropboxKeysAre()
    ensures SectionKeys("dropbox") == [
              "DROPBOX_REMOTE_PATH", "DROPBOX_APP_KEY", "DROPBOX_APP_SECRET", "DROPBOX_CONCURRENCY_LEVEL", "DROPBOX_REFRESH_TOKEN"]
  {
  }
}
