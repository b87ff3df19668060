/** internal/handlers/backups_env_form.go: what the form shows for the lines of backup.env. */
module EnvReading {
  import opened Text
  import opened EnvFile
  import opened EnvForm
  import opened EnvRoundTrip

  // Destinations

  lemma {:induction false} ActiveArePicked(active: set<string>, order: seq<string>)
    ensures Picks(ActiveIn(active, order), order, (s: string) => s in active)
    decreases |order|
  {
    hide Picks;
    if order == [] {
      PicksNothing((s: string) => s in active);
    } else {
      var init, last := order[..|order| - 1], order[|order| - 1];
      ActiveArePicked(active, init);
      PicksSnoc(ActiveIn(active, init), init, last, (s: string) => s in active);
      assert init + [last] == order;
    }
  }

  lemma ActiveIsSection(lines: seq<string>, section: string)
    requires SomeActivates(lines, section)
    ensures section in ["s3", "webdav", "ssh", "azure", "dropbox"]
  {
    hide MatchLine, SectionKeys;
    var i :| 0 <= i < |lines| && Activates(MatchLine(lines[i]), section);
    SectionIsListed(MatchLine(lines[i]).key);
  }

  lemma SectionIsListed(key: string)
    ensures SectionOf(key) in ["", "s3", "webdav", "ssh", "azure", "dropbox"]
  {
    hide SectionKeys;
  }

  lemma OrderIs()
    ensures SECTION_ORDER == ["s3", "webdav", "ssh", "azure", "dropbox"]
    ensures forall i, j | 0 <= i < j < 5 :: SECTION_ORDER[i] != SECTION_ORDER[j]
  {
    SectionsDiffer();
  }

  lemma ActivesExactly(active: set<string>)
    ensures var r := ActiveIn(active, SECTION_ORDER);
            && (|r| > 1 <==> exists i, j :: 0 <= i < j < |SECTION_ORDER| && SECTION_ORDER[i] in active && SECTION_ORDER[j] in active)
            && (r == [] <==> forall i | 0 <= i < |SECTION_ORDER| :: SECTION_ORDER[i] !in active)
            && (r != [] ==> exists i :: 0 <= i < |SECTION_ORDER| && SECTION_ORDER[i] in active && r[0] == SECTION_ORDER[i]
                                        && forall k | 0 <= k < i :: SECTION_ORDER[k] !in active)
  {
    hide Picks, ActiveIn, SECTION_ORDER;
    var p, r := (s: string) => s in active, ActiveIn(active, SECTION_ORDER);
    assert forall s :: p(s) <==> s in active;
    ActiveArePicked(active, SECTION_ORDER);
    PicksTwo(r, SECTION_ORDER, p);
    PicksNone(r, SECTION_ORDER, p);
    if r != [] {
      var i := PicksHead(r, SECTION_ORDER, p);
    }
  }

  lemma ActiveOfForm(content: string, s: string)
    ensures s in ParseContent(content).active <==> SomeActivates(SplitLines(content), s)
  {
    hide SomeActivates, ParseLines, SplitLines;
    ParsedActive(NOTHING, SplitLines(content), s);
  }

  lemma PairsExactly(active: set<string>)
    requires forall s | s in active :: s in SECTION_ORDER
    ensures |ActiveIn(active, SECTION_ORDER)| > 1 <==> exists a, b :: a != b && a in active && b in active
  {
    hide ActiveIn, SECTION_ORDER;
    ActivesExactly(active);
    if |ActiveIn(active, SECTION_ORDER)| > 1 {
      var i, j :| 0 <= i < j < |SECTION_ORDER| && SECTION_ORDER[i] in active && SECTION_ORDER[j] in active;
      OrderIs();
      assert SECTION_ORDER[i] != SECTION_ORDER[j];
    }
    if a, b :| a != b && a in active && b in active {
      TwoPlaces(a, b, active);
    }
  }

  /** The form warns of several destinations exactly if two of them have an active line. */
  lemma SeveralExactly(content: string)
    ensures FormOf(ParseContent(content)).multipleActive <==>
            exists a, b :: a != b && SomeActivates(SplitLines(content), a) && SomeActivates(SplitLines(content), b)
  {
    hide SomeActivates, ParseContent, SplitLines, ActiveIn, SectionsOf, SECTION_ORDER;
    var active := ParseContent(content).active;
    OrderIs();
    forall s
      ensures s in active <==> SomeActivates(SplitLines(content), s)
      ensures s in active ==> s in SECTION_ORDER
    {
      ActiveOfForm(content, s);
      if s in active {
        ActiveIsSection(SplitLines(content), s);
      }
    }
    PairsExactly(active);
    if FormOf(ParseContent(content)).multipleActive {
      var a, b :| a != b && a in active && b in active;
      assert SomeActivates(SplitLines(content), a) && SomeActivates(SplitLines(content), b);
    }
    if a, b :| a != b && SomeActivates(SplitLines(content), a) && SomeActivates(SplitLines(content), b) {
      assert a in active && b in active;
    }
  }

  lemma TwoPlaces(a: string, b: string, active: set<string>)
    requires a != b && a in SECTION_ORDER && b in SECTION_ORDER && a in active && b in active
    ensures exists i, j :: 0 <= i < j < |SECTION_ORDER| && SECTION_ORDER[i] in active && SECTION_ORDER[j] in active
  {
    hide SECTION_ORDER;
    var i :| 0 <= i < |SECTION_ORDER| && SECTION_ORDER[i] == a;
    var j :| 0 <= j < |SECTION_ORDER| && SECTION_ORDER[j] == b;
    assert i < j || j < i;
  }

  /** The destination it shows is the first in the order of the menu that has an active
      line, none if there is none. */
  lemma DestinationExactly(content: string)
    ensures var d, lines, menu := FormOf(ParseContent(content)).destination, SplitLines(content), ["s3", "webdav", "ssh", "azure", "dropbox"];
            && (d == "" <==> forall i | 0 <= i < |menu| :: !SomeActivates(lines, menu[i]))
            && (d != "" ==> exists i :: 0 <= i < |menu| && menu[i] == d && SomeActivates(lines, d) && forall k | 0 <= k < i :: !SomeActivates(lines, menu[k]))
  {
    hide SomeActivates, ParseContent, SplitLines, ActiveIn, SectionsOf, SECTION_ORDER;
    var active := ParseContent(content).active;
    ActivesExactly(active);
    OrderIs();
    MenuNames();
    forall s
      ensures s in active <==> SomeActivates(SplitLines(content), s)
    {
      ActiveOfForm(content, s);
    }
  }

  lemma MenuNames()
    ensures forall i | 0 <= i < |SECTION_ORDER| :: SECTION_ORDER[i] != ""
  {
  }

  // Fields

  predicate IsShown(value: string, lines: seq<string>, k: string, n: nat) {
    n < |lines| && IsLineOf(lines[n], k) && value == ValueInUse(lines[n], k)
  }

  lemma LineShown(lines: seq<string>, k: string, value: string, n: nat)
    requires value == ValueOf(lines, k, None).GetOr("")
    ensures IsLastActive(lines, k, n) ==> IsShown(value, lines, k, n)
    ensures NoActiveLine(lines, k) && IsFirstLine(lines, k, n) ==> IsShown(value, lines, k, n)
  {
    hide ValueOf, IsLastActive, IsFirstLine, NoActiveLine, IsLineOf, ValueInUse, FirstShown, ValueOnceCommented, MatchLine;
    if IsLastActive(lines, k, n) {
      LastActiveDecides(lines, k, None, n);
      LastIsLine(lines, k, n);
    } else if NoActiveLine(lines, k) && IsFirstLine(lines, k, n) {
      KnownStays(lines, k, None);
      FirstShownIs(lines, k, n);
      FirstIsLine(lines, k, n);
      NotActive(lines, k, n);
    }
  }

  lemma LastIsLine(lines: seq<string>, k: string, n: nat)
    requires IsLastActive(lines, k, n)
    ensures n < |lines| && IsLineOf(lines[n], k)
  {
  }

  lemma FirstIsLine(lines: seq<string>, k: string, n: nat)
    requires IsFirstLine(lines, k, n)
    ensures n < |lines| && IsLineOf(lines[n], k)
  {
  }

  /** Every destination shows all of its keys. The value of a key is that of its last
      active line; without one, that of its first commented line; without any, nothing. */
  lemma FieldShows(content: string, i: nat, j: nat)
    requires i < |SECTION_ORDER| && j < |SectionKeys(SECTION_ORDER[i])|
    ensures var form, k := FormOf(ParseContent(content)), SectionKeys(SECTION_ORDER[i])[j];
            |form.sections| == |SECTION_ORDER| && form.sections[i].name == SECTION_ORDER[i]
            && |form.sections[i].fields| == |SectionKeys(SECTION_ORDER[i])| && form.sections[i].fields[j].key == k
    ensures var lines, k := SplitLines(content), SectionKeys(SECTION_ORDER[i])[j];
            var value := FormOf(ParseContent(content)).sections[i].fields[j].value;
            && (forall n: nat | IsLastActive(lines, k, n) :: IsShown(value, lines, k, n))
            && (NoActiveLine(lines, k) ==> forall n: nat | IsFirstLine(lines, k, n) :: IsShown(value, lines, k, n))
            && ((forall n | 0 <= n < |lines| :: !IsLineOf(lines[n], k)) ==> value == "")
  {
    hide SplitLines, ParseLines, SectionKeys, SectionOf, ValueOf, IsLastActive, IsFirstLine, NoActiveLine, IsLineOf, ActiveIn, IsShown;
    var lines, k := SplitLines(content), SectionKeys(SECTION_ORDER[i])[j];
    assert k in SectionKeys(SECTION_ORDER[i]);
    KeyHasSection(k, SECTION_ORDER[i]);
    ParsedValue(NOTHING, lines, k);
    var value := ValueIn(ParseContent(content), k).GetOr("");
    assert FormOf(ParseContent(content)).sections[i].fields[j].value == value;
    forall n: nat
      ensures IsLastActive(lines, k, n) ==> IsShown(value, lines, k, n)
      ensures NoActiveLine(lines, k) && IsFirstLine(lines, k, n) ==> IsShown(value, lines, k, n)
    {
      LineShown(lines, k, value, n);
    }
    if forall n | 0 <= n < |lines| :: !IsLineOf(lines[n], k) {
      NoLineShown(lines, k);
    }
  }

  lemma KeyHasSection(k: string, section: string)
    requires section in SECTION_ORDER && k in SectionKeys(section)
    ensures SectionOf(k) != ""
  {
    hide SectionKeys, SectionOf;
    SectionIs(k, section);
    MenuNames();
  }

  lemma NotActive(lines: seq<string>, k: string, n: nat)
    requires IsFirstLine(lines, k, n) && NoActiveLine(lines, k)
    ensures ValueOnceCommented(lines[n], k) == ValueInUse(lines[n], k)
  {
    hide MatchLine, Unquote;
    assert !IsActiveLineOf(lines[n], k);
  }

  lemma {:induction false} NoLineShown(lines: seq<string>, k: string)
    requires forall n | 0 <= n < |lines| :: !IsLineOf(lines[n], k)
    ensures ValueOf(lines, k, None) == None
    decreases |lines|
  {
    hide MatchLine, Unquote;
    if lines != [] {
      assert !IsLineOf(lines[0], k);
      assert forall n | 0 <= n < |lines| - 1 :: lines[1..][n] == lines[n + 1];
      NoLineShown(lines[1..], k);
    }
  }

  /** After saving, the form shows the posted value of every key of the chosen
      destination, less one pair of quotes. */
  lemma SavedField(content: string, post: Post, i: nat, j: nat)
    requires PostOk(post) && i < |SECTION_ORDER| && SECTION_ORDER[i] == post.destination && j < |SectionKeys(post.destination)|
    ensures var form, k := FormOf(ParseContent(Rendered(content, post))), SectionKeys(post.destination)[j];
            && |form.sections| == |SECTION_ORDER| && form.sections[i].name == post.destination
            && |form.sections[i].fields| == |SectionKeys(post.destination)| && k in post.values
            && form.sections[i].fields[j] == Field(k, Unquote(post.values[k]))
  {
    hide ParseContent, Rendered, SectionKeys, Unquote, OneLineValues, ActiveIn;
    var k := SectionKeys(post.destination)[j];
    assert k in SectionKeys(post.destination);
    SavedValue(content, post, k);
  }
}
