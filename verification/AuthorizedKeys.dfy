/** internal/cluster/health.go: temporary SSH access for a transfer, as lines of root's
    authorized_keys file that end in a tag. */
module AuthorizedKeys {
  import opened Text

  const COMMENT := "openadmin-cluster-"

  predicate IsHex(c: char) {
    '0' <= c <= '9' || 'a' <= c <= 'f'
  }

  predicate IsTag(tag: string) {
    8 <= |tag| <= 32 && forall i | 0 <= i < |tag| :: IsHex(tag[i])
  }

  predicate IsAddress(ip: string) {
    2 <= |ip| <= 45 && forall i | 0 <= i < |ip| :: '0' <= ip[i] <= '9' || 'a' <= ip[i] <= 'f' || 'A' <= ip[i] <= 'F' || ip[i] == ':' || ip[i] == '.'
  }

  predicate IsKeyChar(c: char) {
    'A' <= c <= 'Z' || 'a' <= c <= 'z' || '0' <= c <= '9' || c == '+' || c == '/' || c == '='
  }

  const KEY_TYPE := "ssh-ed25519 "

  predicate IsPublicKey(pub: string) {
    |KEY_TYPE| < |pub| && pub[..|KEY_TYPE|] == KEY_TYPE && forall i | |KEY_TYPE| <= i < |pub| :: IsKeyChar(pub[i])
  }

  datatype Grant = Grant(pub: string, from: string, tag: string)

  predicate ValidGrant(g: Grant) {
    IsPublicKey(g.pub) && IsAddress(g.from) && IsTag(g.tag)
  }

  function Options(from: string): string {
    "from=\"" + from + "\"," + "no-agent-forwarding," + "no-X11-forwarding," + "no-port-forwarding "
  }

  function GrantLine(g: Grant): string {
    Options(g.from) + g.pub + " " + (COMMENT + g.tag)
  }

  function Authorized(content: string, g: Grant): string {
    content + "\n" + GrantLine(g) + "\n"
  }

  predicate Carries(line: string, tag: string) {
    HasSuffix(TrimSpace(line), COMMENT + tag)
  }

  function Without(lines: seq<string>, tag: string): seq<string>
    decreases |lines|
  {
    if lines == [] then []
    else
      var rest := Without(lines[..|lines| - 1], tag);
      if Carries(lines[|lines| - 1], tag) then rest else rest + [lines[|lines| - 1]]
  }

  function Revoked(content: string, tag: string): string {
    JoinLines(Without(SplitLines(content), tag))
  }

  /** The granted line: from one address only, without forwarding of any kind, and the
      tag as the end of the comment. */
  lemma GrantSays(g: Grant)
    ensures GrantLine(g) == "from=\"" + g.from + "\",no-agent-forwarding,no-X11-forwarding,no-port-forwarding " + g.pub + " openadmin-cluster-" + g.tag
  {
    OptionsSay(g.from);
    CommentSays(g.tag);
    hide Options;
    assert Options(g.from) + g.pub + " " + (COMMENT + g.tag) == Options(g.from) + g.pub + (" " + (COMMENT + g.tag));
    assert Options(g.from) + g.pub + (" openadmin-cluster-" + g.tag) == Options(g.from) + g.pub + " openadmin-cluster-" + g.tag;
  }

  lemma OptionsSay(from: string)
    ensures Options(from) == "from=\"" + from + "\",no-agent-forwarding,no-X11-forwarding,no-port-forwarding "
  {
    var head, tail := "from=\"" + from, "\",no-agent-forwarding,no-X11-forwarding,no-port-forwarding ";
    RestrictionsSay();
    Regroup(head, "\",", "no-agent-forwarding,");
    Regroup(head, "\"," + "no-agent-forwarding,", "no-X11-forwarding,");
    Regroup(head, "\"," + "no-agent-forwarding," + "no-X11-forwarding,", "no-port-forwarding ");
  }

  lemma RestrictionsSay()
    ensures "\"," + "no-agent-forwarding," + "no-X11-forwarding," + "no-port-forwarding " == "\",no-agent-forwarding,no-X11-forwarding,no-port-forwarding "
  {
    assert "\"," + "no-agent-forwarding," == "\",no-agent-forwarding,";
    assert "\",no-agent-forwarding," + "no-X11-forwarding," == "\",no-agent-forwarding,no-X11-forwarding,";
    LastRestriction();
  }

  lemma LastRestriction()
    ensures "\",no-agent-forwarding,no-X11-forwarding," + "no-port-forwarding " == "\",no-agent-forwarding,no-X11-forwarding,no-port-forwarding "
  {
  }

  lemma CommentSays(tag: string)
    ensures " " + (COMMENT + tag) == " openadmin-cluster-" + tag
  {
    assert " " + COMMENT == " openadmin-cluster-";
  }

  /** Keys are Ed25519, addresses and tags have the characters they may have. */
  lemma ValidExactly(g: Grant)
    ensures ValidGrant(g) <==>
              && |g.pub| > 12 && g.pub[..12] == "ssh-ed25519 " && (forall c | c in g.pub[12..] :: IsBase64(c))
              && 2 <= |g.from| <= 45 && (forall c | c in g.from :: c in "0123456789abcdefABCDEF:.")
              && 8 <= |g.tag| <= 32 && (forall c | c in g.tag :: c in "0123456789abcdef")
  {
    assert KEY_TYPE == "ssh-ed25519 " && |KEY_TYPE| == 12;
    AddressChars();
    HexChars();
    hide IsHex, IsKeyChar, IsBase64;
    forall c: char
      ensures IsKeyChar(c) <==> IsBase64(c)
    {
      KeyChars(c);
    }
    assert |g.pub| > 12 ==> forall i | 12 <= i < |g.pub| :: g.pub[i] == g.pub[12..][i - 12];
    assert forall i | 0 <= i < |g.from| :: g.from[i] in g.from;
    assert forall i | 0 <= i < |g.tag| :: g.tag[i] in g.tag;
  }

  predicate IsBase64(c: char) {
    c in "ABCDEFGHIJKLMNOPQRSTUVWXYZ" || c in "abcdefghijklmnopqrstuvwxyz" || c in "0123456789" || c in "+/="
  }

  lemma KeyChars(c: char)
    ensures IsKeyChar(c) <==> IsBase64(c)
  {
    assert 'A' <= c <= 'Z' <==> c in "ABCDEFGHIJKLMNOPQRSTUVWXYZ" by { UpperCase(c); }
    assert 'a' <= c <= 'z' <==> c in "abcdefghijklmnopqrstuvwxyz" by { LowerCase(c); }
    assert '0' <= c <= '9' <==> c in "0123456789" by { Digit(c); }
  }

  lemma AddressChars()
    ensures forall c: char :: ('0' <= c <= '9' || 'a' <= c <= 'f' || 'A' <= c <= 'F' || c == ':' || c == '.') <==> c in "0123456789abcdefABCDEF:."
  {
  }

  lemma HexChars()
    ensures forall c: char :: IsHex(c) <==> c in "0123456789abcdef"
  {
  }

  /** The authorized_keys file of one server; None while it does not exist. */
  class KeyFile {
    var content: Option<string>

    method Authorize(g: Grant) returns (ok: bool)
      modifies this
      ensures ok == ValidGrant(g)
      ensures content == if ok then Some(Authorized(old(content).GetOr(""), g)) else old(content)
    {
      ok := ValidGrant(g);
      if ok {
        content := Some(content.GetOr("") + "\n" + (Options(g.from) + g.pub + " " + (COMMENT + g.tag)) + "\n");
      }
    }

    method Revoke(tag: string) returns (ok: bool)
      modifies this
      ensures ok == (IsTag(tag) && old(content).Some?)
      ensures content == if ok then Some(Revoked(old(content).value, tag)) else old(content)
    {
      ok := IsTag(tag) && content.Some?;
      if !ok {
        return;
      }
      var kept := [];
      var lines := SplitLines(content.value);
      for n := 0 to |lines|
        invariant content == old(content)
        invariant kept == Without(lines[..n], tag)
      {
        assert lines[..n + 1][..n] == lines[..n];
        if !HasSuffix(TrimSpace(lines[n]), COMMENT + tag) {
          kept := kept + [lines[n]];
        }
      }
      assert lines[..|lines|] == lines;
      content := Some(JoinLines(kept));
    }
  }

  // The keys in a file

  function NonBlank(lines: seq<string>): seq<string>
    decreases |lines|
  {
    if lines == [] then []
    else
      var rest := NonBlank(lines[..|lines| - 1]);
      if TrimSpace(lines[|lines| - 1]) == "" then rest else rest + [lines[|lines| - 1]]
  }

  /** The lines sshd looks at. */
  function Keys(content: string): seq<string> {
    NonBlank(SplitLines(content))
  }

  lemma {:induction false} NonBlankConcat(a: seq<string>, b: seq<string>)
    ensures NonBlank(a + b) == NonBlank(a) + NonBlank(b)
    decreases |b|
  {
    hide TrimSpace;
    if b == [] {
      assert a + b == a;
    } else {
      var n := |b| - 1;
      assert (a + b)[..|a| + n] == a + b[..n];
      NonBlankConcat(a, b[..n]);
    }
  }

  lemma {:induction false} WithoutNonBlank(lines: seq<string>, tag: string)
    ensures NonBlank(Without(lines, tag)) == Without(NonBlank(lines), tag)
    decreases |lines|
  {
    hide TrimSpace, Carries;
    if lines != [] {
      var n, last := |lines| - 1, lines[|lines| - 1];
      WithoutNonBlank(lines[..n], tag);
      var kept, found := Without(lines[..n], tag), NonBlank(lines[..n]);
      assert (kept + [last])[..|kept|] == kept;
      assert (found + [last])[..|found|] == found;
      if TrimSpace(last) == "" {
        BlankCarriesNothing(last, tag);
      }
    }
  }

  lemma BlankCarriesNothing(line: string, tag: string)
    requires TrimSpace(line) == ""
    ensures !Carries(line, tag)
  {
    hide TrimSpace;
  }

  lemma {:induction false} WithoutOneLine(lines: seq<string>, tag: string)
    requires AllOneLine(lines)
    ensures AllOneLine(Without(lines, tag))
    decreases |lines|
  {
    hide Carries;
    if lines != [] {
      WithoutOneLine(lines[..|lines| - 1], tag);
    }
  }

  /** Revoking keeps every key line without the tag, in order. */
  lemma KeysAfterRevoke(content: string, tag: string)
    ensures Keys(Revoked(content, tag)) == Without(Keys(content), tag)
  {
    hide Carries, TrimSpace, IndexOf;
    var lines := SplitLines(content);
    var kept := Without(lines, tag);
    SplitIsOneLine(content);
    WithoutOneLine(lines, tag);
    WithoutNonBlank(lines, tag);
    if kept == [] {
      BlankFile();
    } else {
      SplitOfJoin(kept);
    }
  }

  lemma BlankFile()
    ensures Keys("") == [] && NonBlank([]) == [] && NonBlank([""]) == []
  {
    assert SplitLines("") == [""];
    assert TrimSpace("") == "";
    assert [""][..0] == [];
  }

  lemma {:induction false} SplitConcat(a: string, b: string)
    ensures Keys(a + "\n" + b) == Keys(a) + Keys(b)
    decreases |a|
  {
    hide TrimSpace, NonBlank;
    var i := IndexOf(a, '\n');
    if i == |a| {
      SplitAtNewline(a, b);
      NonBlankConcat([a], SplitLines(b));
    } else {
      var first, rest := a[..i], a[i + 1..];
      CutAround(a, i);
      assert a + "\n" + b == first + "\n" + (rest + "\n" + b);
      SplitAtNewline(first, rest + "\n" + b);
      SplitConcat(rest, b);
      NonBlankConcat([first], SplitLines(rest + "\n" + b));
      NonBlankConcat([first], SplitLines(rest));
      Regroup(NonBlank([first]), Keys(rest), Keys(b));
    }
  }

  lemma LastOfConcat(a: string, b: string)
    requires b != ""
    ensures (a + b)[|a + b| - 1] == b[|b| - 1]
  {
  }

  lemma GrantIsOneLine(g: Grant)
    requires ValidGrant(g)
    ensures OneLine(GrantLine(g)) && Trimmed(GrantLine(g)) && GrantLine(g) != ""
  {
    var o := Options(g.from);
    OptionsOneLine(g.from);
    assert OneLine(g.pub) by {
      assert g.pub == KEY_TYPE + g.pub[|KEY_TYPE|..];
      assert OneLine(KEY_TYPE);
    }
    assert OneLine(COMMENT);
    assert OneLine(g.tag);
    assert o[0] == 'f';
    LastOfConcat(o + g.pub + " ", COMMENT + g.tag);
    LastOfConcat(COMMENT, g.tag);
    assert IsHex(g.tag[|g.tag| - 1]);
  }

  lemma OneLineConcat(a: string, b: string)
    requires OneLine(a) && OneLine(b)
    ensures OneLine(a + b)
  {
  }

  lemma OptionsOneLine(from: string)
    requires IsAddress(from)
    ensures OneLine(Options(from)) && Options(from)[0] == 'f'
  {
    assert OneLine(from);
    assert OneLine("from=\"") && OneLine("\",");
    NoNewlineInOptions();
    hide OneLine;
    OneLineConcat("from=\"", from);
    OneLineConcat("from=\"" + from, "\",");
    OneLineConcat("from=\"" + from + "\",", "no-agent-forwarding,");
    OneLineConcat("from=\"" + from + "\"," + "no-agent-forwarding,", "no-X11-forwarding,");
    OneLineConcat("from=\"" + from + "\"," + "no-agent-forwarding," + "no-X11-forwarding,", "no-port-forwarding ");
  }

  lemma NoNewlineInOptions()
    ensures OneLine("no-agent-forwarding,") && OneLine("no-X11-forwarding,") && OneLine("no-port-forwarding ")
  {
  }

  lemma KeysOfLine(line: string)
    requires OneLine(line) && Trimmed(line) && line != ""
    ensures Keys(line + "\n") == [line]
  {
    hide SplitLines, NonBlank, OneLine, Trimmed;
    assert line + "\n" == line + "\n" + "";
    SplitAtNewline(line, "");
    SplitNothing();
    NonBlankConcat([line], [""]);
    BlankFile();
    NonBlankOne(line);
    assert [line] + [] == [line];
  }

  lemma NonBlankOne(line: string)
    requires Trimmed(line) && line != ""
    ensures NonBlank([line]) == [line]
  {
    assert [line][..0] == [];
  }

  /** Authorizing adds one key line at the end, even to a file without a final newline. */
  lemma KeysAfterAuthorize(content: string, g: Grant)
    requires ValidGrant(g)
    ensures Keys(Authorized(content, g)) == Keys(content) + [GrantLine(g)]
  {
    hide GrantLine, ValidGrant, Keys;
    var line := GrantLine(g);
    GrantIsOneLine(g);
    SplitConcat(content, line + "\n");
    assert Authorized(content, g) == content + "\n" + (line + "\n");
    KeysOfLine(line);
  }

  // Tags

  lemma AllHex(tag: string, i: nat)
    requires IsTag(tag) && i < |tag|
    ensures IsHex(tag[i]) && tag[i] != '-'
  {
  }

  lemma CharOfConcat(a: string, b: string, i: nat)
    requires i < |b|
    ensures (a + b)[|a| + i] == b[i]
  {
  }

  lemma SuffixChar(s: string, suffix: string, i: nat)
    requires HasSuffix(s, suffix) && i < |suffix|
    ensures s[|s| - |suffix| + i] == suffix[i]
  {
    assert s[|s| - |suffix|..][i] == suffix[i];
  }

  /** A line ending in a longer tag: the place of the dash holds a hex digit. */
  lemma LongerTag(x: string, tag: string, other: string)
    requires IsTag(tag) && IsTag(other) && |tag| < |other|
    ensures !HasSuffix(x + COMMENT + other, COMMENT + tag)
  {
    hide IsTag, IsHex, HasSuffix;
    var s, suffix := x + COMMENT + other, COMMENT + tag;
    var i := |other| - |tag| - 1;
    CharOfConcat(x + COMMENT, other, i);
    AllHex(other, i);
    if HasSuffix(s, suffix) {
      assert |suffix| <= |s|;
      SuffixChar(s, suffix, |COMMENT| - 1);
      assert false;
    }
  }

  /** A line ending in a shorter tag: the place of a hex digit holds the dash. */
  lemma ShorterTag(x: string, tag: string, other: string)
    requires IsTag(tag) && IsTag(other) && |other| < |tag|
    ensures !HasSuffix(x + COMMENT + other, COMMENT + tag)
  {
    hide IsTag, IsHex, HasSuffix;
    var s, suffix := x + COMMENT + other, COMMENT + tag;
    var i := |tag| - |other| - 1;
    AllHex(tag, i);
    CharOfConcat(COMMENT, tag, i);
    assert (x + COMMENT)[|x + COMMENT| - 1] == '-' by { CharOfConcat(x, COMMENT, |COMMENT| - 1); }
    if HasSuffix(s, suffix) {
      SuffixChar(s, suffix, |COMMENT| + i);
      assert false;
    }
  }

  lemma SameLengthTag(x: string, tag: string, other: string)
    requires |tag| == |other|
    ensures HasSuffix(x + COMMENT + other, COMMENT + tag) <==> tag == other
  {
    var s := x + COMMENT + other;
    assert s[|s| - |COMMENT + tag|..] == COMMENT + other;
    assert (COMMENT + other)[|COMMENT|..] == other && (COMMENT + tag)[|COMMENT|..] == tag;
  }

  /** Comments of different tags never end alike, because no tag has a dash. */
  lemma TagDecides(x: string, tag: string, other: string)
    requires IsTag(tag) && IsTag(other)
    ensures HasSuffix(x + (COMMENT + other), COMMENT + tag) <==> tag == other
  {
    hide IsTag, HasSuffix;
    Regroup(x, COMMENT, other);
    if |tag| == |other| {
      SameLengthTag(x, tag, other);
    } else if |tag| < |other| {
      LongerTag(x, tag, other);
    } else {
      ShorterTag(x, tag, other);
    }
  }

  /** A grant's line carries its own tag and no other. */
  lemma GrantCarries(g: Grant, tag: string)
    requires ValidGrant(g) && IsTag(tag)
    ensures Carries(GrantLine(g), tag) <==> tag == g.tag
  {
    hide IsPublicKey, IsAddress, TrimSpace, HasSuffix, IsTag;
    GrantIsOneLine(g);
    TagDecides(Options(g.from) + g.pub + " ", tag, g.tag);
  }

  predicate NoneCarries(lines: seq<string>, tag: string) {
    forall line | line in lines :: !Carries(line, tag)
  }

  lemma {:induction false} WithoutIs(lines: seq<string>, tag: string)
    ensures NoneCarries(Without(lines, tag), tag)
    ensures NoneCarries(lines, tag) ==> Without(lines, tag) == lines
    ensures forall line :: line in Without(lines, tag) <==> line in lines && !Carries(line, tag)
    decreases |lines|
  {
    hide Carries;
    if lines != [] {
      var n := |lines| - 1;
      WithoutIs(lines[..n], tag);
      assert forall line :: line in lines <==> line in lines[..n] || line == lines[n];
      assert lines == lines[..n] + [lines[n]];
    }
  }

  lemma WithoutSnoc(lines: seq<string>, line: string, tag: string)
    ensures Without(lines + [line], tag) == if Carries(line, tag) then Without(lines, tag) else Without(lines, tag) + [line]
  {
    hide Carries;
    assert (lines + [line])[..|lines|] == lines;
  }

  // Overlapping transfers

  datatype KeyOp = Allow(g: Grant) | Revoke(tag: string)

  predicate ValidOp(op: KeyOp) {
    match op
    case Allow(g) => ValidGrant(g)
    case Revoke(tag) => IsTag(tag)
  }

  function ApplyOps(content: string, ops: seq<KeyOp>): string
    decreases |ops|
  {
    if ops == [] then content
    else
      var before := ApplyOps(content, ops[..|ops| - 1]);
      match ops[|ops| - 1]
      case Allow(g) => Authorized(before, g)
      case Revoke(tag) => Revoked(before, tag)
  }

  /** The grants that are still in force: allowed, and their tag not revoked since. */
  function InForce(ops: seq<KeyOp>): seq<Grant>
    decreases |ops|
  {
    if ops == [] then []
    else
      var before := InForce(ops[..|ops| - 1]);
      match ops[|ops| - 1]
      case Allow(g) => before + [g]
      case Revoke(tag) => DropTag(before, tag)
  }

  function DropTag(gs: seq<Grant>, tag: string): seq<Grant>
    decreases |gs|
  {
    if gs == [] then []
    else
      var rest := DropTag(gs[..|gs| - 1], tag);
      if gs[|gs| - 1].tag == tag then rest else rest + [gs[|gs| - 1]]
  }

  function Lines(gs: seq<Grant>): seq<string> {
    seq(|gs|, i requires 0 <= i < |gs| => GrantLine(gs[i]))
  }

  predicate AllValid(gs: seq<Grant>) {
    forall i | 0 <= i < |gs| :: ValidGrant(gs[i])
  }

  lemma {:induction false} WithoutLines(base: seq<string>, gs: seq<Grant>, tag: string)
    requires NoneCarries(base, tag) && AllValid(gs) && IsTag(tag)
    ensures Without(base + Lines(gs), tag) == base + Lines(DropTag(gs, tag))
    ensures AllValid(DropTag(gs, tag))
    decreases |gs|
  {
    hide Carries, GrantLine, ValidGrant, IsTag;
    if gs == [] {
      WithoutIs(base, tag);
      assert base + Lines(gs) == base;
    } else {
      var n, g := |gs| - 1, gs[|gs| - 1];
      WithoutLines(base, gs[..n], tag);
      LinesSnoc(gs[..n], g);
      assert gs == gs[..n] + [g];
      assert base + Lines(gs) == (base + Lines(gs[..n])) + [GrantLine(g)];
      WithoutSnoc(base + Lines(gs[..n]), GrantLine(g), tag);
      GrantCarries(g, tag);
      LinesSnoc(DropTag(gs[..n], tag), g);
      Regroup(base, Lines(DropTag(gs[..n], tag)), [GrantLine(g)]);
    }
  }

  lemma LinesSnoc(gs: seq<Grant>, g: Grant)
    ensures Lines(gs + [g]) == Lines(gs) + [GrantLine(g)]
  {
    hide GrantLine;
  }

  /** However authorizations and revocations of several transfers interleave, the file's
      keys are the ones it had before, untouched and in order, followed by exactly the
      grants still in force. */
  lemma {:induction false} TransfersDoNotInterfere(content: string, ops: seq<KeyOp>)
    requires forall i | 0 <= i < |ops| :: ValidOp(ops[i])
    requires forall tag | IsTag(tag) :: NoneCarries(Keys(content), tag)
    ensures Keys(ApplyOps(content, ops)) == Keys(content) + Lines(InForce(ops))
    ensures AllValid(InForce(ops))
    decreases |ops|
  {
    hide ValidGrant, IsTag, NoneCarries, Keys, GrantLine, Authorized, Revoked;
    if ops == [] {
      assert Keys(content) + Lines([]) == Keys(content);
    } else {
      var n := |ops| - 1;
      var before := ApplyOps(content, ops[..n]);
      TransfersDoNotInterfere(content, ops[..n]);
      assert ValidOp(ops[n]);
      match ops[n]
      case Allow(g) =>
        KeysAfterAuthorize(before, g);
        LinesSnoc(InForce(ops[..n]), g);
        Regroup(Keys(content), Lines(InForce(ops[..n])), [GrantLine(g)]);
      case Revoke(tag) =>
        KeysAfterRevoke(before, tag);
        WithoutLines(Keys(content), InForce(ops[..n]), tag);
    }
  }
}
