/** internal/handlers/backups_env_form.go: the lines of backup.env, its destination
    sections and its values. */
module EnvFile {
  import opened Text

  // Lines

  /** White space as \s of a regular expression sees it. */
  predicate IsReSpace(c: char) {
    c == ' ' || c == '\t' || c == '\n' || c == '\U{000c}' || c == '\r'
  }

  function SkipReSpaces(s: string): (r: string)
    ensures |r| <= |s|
  {
    if s != "" && IsReSpace(s[0]) then SkipReSpaces(s[1..]) else s
  }

  predicate IsUpper(c: char) {
    'A' <= c <= 'Z'
  }

  predicate IsKeyChar(c: char) {
    IsUpper(c) || '0' <= c <= '9' || c == '_'
  }

  predicate AllKeyChars(s: string) {
    forall i | 0 <= i < |s| :: IsKeyChar(s[i])
  }

  predicate IsKey(k: string) {
    k != "" && IsUpper(k[0]) && AllKeyChars(k)
  }

  function KeyLength(s: string): (n: nat)
    ensures n <= |s| && AllKeyChars(s[..n])
    ensures n < |s| ==> !IsKeyChar(s[n])
  {
    if s == "" || !IsKeyChar(s[0]) then 0 else 1 + KeyLength(s[1..])
  }

  datatype Line = Other | Setting(commented: bool, key: string, raw: string)

  /** backupEnvLineRe: "KEY=value" and "# KEY=value". */
  function MatchLine(line: string): (m: Line)
    ensures m.Setting? ==> IsKey(m.key)
  {
    var s := SkipReSpaces(line);
    if s != "" && s[0] == '#' then MatchSetting(true, SkipReSpaces(s[1..])) else MatchSetting(false, s)
  }

  function MatchSetting(commented: bool, s: string): (m: Line)
    ensures m.Setting? ==> IsKey(m.key)
  {
    var n := KeyLength(s);
    if n == 0 || !IsUpper(s[0]) || n == |s| || s[n] != '=' then Other
    else Setting(commented, s[..n], s[n + 1..])
  }

  function ActiveLine(key: string, value: string): string {
    key + "=" + value
  }

  function CommentedLine(key: string, value: string): string {
    "# " + key + "=" + value
  }

  lemma {:induction false} KeyLengthOf(k: string, rest: string)
    requires AllKeyChars(k) && (rest == "" || !IsKeyChar(rest[0]))
    ensures KeyLength(k + rest) == |k|
  {
    if k == "" {
      assert k + rest == rest;
    } else {
      assert (k + rest)[1..] == k[1..] + rest;
      KeyLengthOf(k[1..], rest);
    }
  }

  lemma MatchSettingOf(commented: bool, k: string, value: string)
    requires IsKey(k)
    ensures MatchSetting(commented, k + "=" + value) == Setting(commented, k, value)
  {
    hide KeyLength;
    var s := k + "=" + value;
    assert s == k + ("=" + value);
    KeyLengthOf(k, "=" + value);
    assert s[..|k|] == k && s[|k| + 1..] == value;
  }

  lemma MatchActive(k: string, value: string)
    requires IsKey(k)
    ensures MatchLine(ActiveLine(k, value)) == Setting(false, k, value)
  {
    hide MatchSetting;
    MatchSettingOf(false, k, value);
    assert ActiveLine(k, value)[0] == k[0];
  }

  lemma MatchCommented(k: string, value: string)
    requires IsKey(k)
    ensures MatchLine(CommentedLine(k, value)) == Setting(true, k, value)
  {
    hide MatchSetting;
    var line := CommentedLine(k, value);
    var rest := k + "=" + value;
    assert line[0] == '#' && line[1..] == " " + rest;
    assert (" " + rest)[1..] == rest;
    assert SkipReSpaces(line) == line;
    assert rest[0] == k[0];
    assert SkipReSpaces(rest) == rest;
    assert SkipReSpaces(" " + rest) == rest;
    MatchSettingOf(true, k, value);
  }

  lemma BlankLine()
    ensures MatchLine("") == Other
  {
  }

  /** Strips one pair of wrapping quotes. */
  function Unquote(v: string): string {
    var t := TrimSpace(v);
    if |t| >= 2 && (t[0] == '\'' || t[0] == '"') && t[|t| - 1] == t[0] then t[1..|t| - 1] else t
  }

  lemma UnquoteEmpty()
    ensures Unquote("") == ""
  {
  }

  lemma UnquoteQuoted(v: string)
    ensures Unquote("\"" + v + "\"") == v
  {
    var q := "\"" + v + "\"";
    assert Trimmed(q);
    hide TrimSpace;
    assert q[1..|q| - 1] == v;
  }

  // Sections

  const S3 := "s3"
  const WEBDAV := "webdav"
  const SSH := "ssh"
  const AZURE := "azure"
  const DROPBOX := "dropbox"

  const SECTION_ORDER := [S3, WEBDAV, SSH, AZURE, DROPBOX]

  const S3_KEYS_1 := ["AWS_S3_BUCKET_NAME", "AWS_S3_PATH", "AWS_ACCESS_KEY_ID"]
  const S3_KEYS_2 := ["AWS_SECRET_ACCESS_KEY", "AWS_IAM_ROLE_ENDPOINT", "AWS_ENDPOINT"]
  const S3_KEYS_3 := ["AWS_ENDPOINT_PROTO", "AWS_ENDPOINT_INSECURE", "AWS_ENDPOINT_CA_CERT"]
  const S3_KEYS_4 := ["AWS_STORAGE_CLASS", "AWS_PART_SIZE"]
  const WEBDAV_KEYS := ["WEBDAV_URL", "WEBDAV_USERNAME", "WEBDAV_PATH", "WEBDAV_PASSWORD", "WEBDAV_URL_INSECURE"]
  const SSH_KEYS_1 := ["SSH_HOST_NAME", "SSH_PORT", "SSH_REMOTE_PATH", "SSH_USER", "SSH_PASSWORD"]
  const SSH_KEYS_2 := ["SSH_IDENTITY_FILE", "SSH_IDENTITY_PASSPHRASE", "SSH_HOST_PUBLIC_KEY"]
  const AZURE_KEYS_1 := ["AZURE_STORAGE_ACCOUNT_NAME", "AZURE_STORAGE_PRIMARY_ACCOUNT_KEY", "AZURE_STORAGE_CONNECTION_STRING"]
  const AZURE_KEYS_2 := ["AZURE_STORAGE_CONTAINER_NAME", "AZURE_STORAGE_ENDPOINT", "AZURE_STORAGE_ACCESS_TIER"]
  const DROPBOX_KEYS := ["DROPBOX_REMOTE_PATH", "DROPBOX_APP_KEY", "DROPBOX_APP_SECRET", "DROPBOX_CONCURRENCY_LEVEL", "DROPBOX_REFRESH_TOKEN"]

  function SectionKeys(section: string): seq<string> {
    if section == S3 then S3_KEYS_1 + S3_KEYS_2 + S3_KEYS_3 + S3_KEYS_4
    else if section == WEBDAV then WEBDAV_KEYS
    else if section == SSH then SSH_KEYS_1 + SSH_KEYS_2
    else if section == AZURE then AZURE_KEYS_1 + AZURE_KEYS_2
    else if section == DROPBOX then DROPBOX_KEYS
    else []
  }

  /** The first section that has the key, "" when none has. */
  function SectionOf(key: string): string {
    if key in SectionKeys(S3) then S3
    else if key in SectionKeys(WEBDAV) then WEBDAV
    else if key in SectionKeys(SSH) then SSH
    else if key in SectionKeys(AZURE) then AZURE
    else if key in SectionKeys(DROPBOX) then DROPBOX
    else ""
  }

  predicate IsSection(section: string) {
    section in SECTION_ORDER
  }

  // Every key of a section is a well-formed key, and its first letters tell the section

  predicate KeyOf(k: string, prefix: string) {
    prefix <= k && IsKey(k)
  }

  lemma S3Keys1(k: string)
    requires k in S3_KEYS_1
    ensures KeyOf(k, "AWS_")
  {
  }

  lemma S3Keys2(k: string)
    requires k in S3_KEYS_2
    ensures KeyOf(k, "AWS_")
  {
  }

  lemma S3Keys3(k: string)
    requires k in S3_KEYS_3
    ensures KeyOf(k, "AWS_")
  {
  }

  lemma S3Keys4(k: string)
    requires k in S3_KEYS_4
    ensures KeyOf(k, "AWS_")
  {
  }

  lemma WebdavKeys(k: string)
    requires k in WEBDAV_KEYS
    ensures KeyOf(k, "WEBD")
  {
  }

  lemma SshKeys1(k: string)
    requires k in SSH_KEYS_1
    ensures KeyOf(k, "SSH_")
  {
  }

  lemma SshKeys2(k: string)
    requires k in SSH_KEYS_2
    ensures KeyOf(k, "SSH_")
  {
  }

  lemma AzureKeys1(k: string)
    requires k in AZURE_KEYS_1
    ensures KeyOf(k, "AZUR")
  {
  }

  lemma AzureKeys2(k: string)
    requires k in AZURE_KEYS_2
    ensures KeyOf(k, "AZUR")
  {
  }

  lemma DropboxKeys(k: string)
    requires k in DROPBOX_KEYS
    ensures KeyOf(k, "DROP")
  {
  }

  function Prefix(section: string): string {
    if section == S3 then "AWS_" else if section == WEBDAV then "WEBD" else if section == SSH then "SSH_"
    else if section == AZURE then "AZUR" else "DROP"
  }

  lemma SectionKeyOk(k: string, section: string)
    requires IsSection(section) && k in SectionKeys(section)
    ensures KeyOf(k, Prefix(section))
  {
    hide KeyOf, S3_KEYS_1, S3_KEYS_2, S3_KEYS_3, S3_KEYS_4, WEBDAV_KEYS, SSH_KEYS_1, SSH_KEYS_2, AZURE_KEYS_1, AZURE_KEYS_2, DROPBOX_KEYS;
    if k in S3_KEYS_1 { S3Keys1(k); }
    if k in S3_KEYS_2 { S3Keys2(k); }
    if k in S3_KEYS_3 { S3Keys3(k); }
    if k in S3_KEYS_4 { S3Keys4(k); }
    if k in WEBDAV_KEYS { WebdavKeys(k); }
    if k in SSH_KEYS_1 { SshKeys1(k); }
    if k in SSH_KEYS_2 { SshKeys2(k); }
    if k in AZURE_KEYS_1 { AzureKeys1(k); }
    if k in AZURE_KEYS_2 { AzureKeys2(k); }
    if k in DROPBOX_KEYS { DropboxKeys(k); }
  }

  lemma PrefixesDiffer(a: string, b: string)
    requires IsSection(a) && IsSection(b) && a != b
    ensures |Prefix(a)| == |Prefix(b)| == 4 && Prefix(a) != Prefix(b)
  {
    assert "AWS_"[1] == 'W' && "WEBD"[0] == 'W' && "SSH_"[0] == 'S' && "AZUR"[1] == 'Z' && "DROP"[0] == 'D';
    assert "AWS_"[0] == 'A' && "AZUR"[0] == 'A';
  }

  lemma NotInBoth(k: string, a: string, b: string)
    requires IsSection(a) && IsSection(b) && a != b && k in SectionKeys(a)
    ensures k !in SectionKeys(b)
  {
    hide SectionKeys, IsKey, Prefix, IsSection;
    SectionKeyOk(k, a);
    PrefixesDiffer(a, b);
    if k in SectionKeys(b) {
      SectionKeyOk(k, b);
      assert false;
    }
  }

  /** No key belongs to two sections. */
  lemma SectionIs(k: string, section: string)
    requires IsSection(section) && k in SectionKeys(section)
    ensures SectionOf(k) == section && IsKey(k)
  {
    SectionKeyOk(k, section);
    hide SectionKeys, IsKey, Prefix;
    if section != S3 { NotInBoth(k, section, S3); }
    if section != WEBDAV { NotInBoth(k, section, WEBDAV); }
    if section != SSH { NotInBoth(k, section, SSH); }
    if section != AZURE { NotInBoth(k, section, AZURE); }
  }
}
