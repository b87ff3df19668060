/** The string operations of the Go standard library that the line formats of
    OpenAdmin rely on, restricted to ASCII text. */
module Text {

  datatype Option<+T> = None | Some(value: T) {
    function GetOr(default: T): T {
      if None? then default else value
    }
  }

  /** Reading a missing key of a Go map. */
  function Get(m: map<string, string>, k: string): string {
    if k in m then m[k] else ""
  }

  /** White space as strings.TrimSpace and strings.Fields see it. */
  predicate IsSpace(c: char) {
    c == ' ' || '\t' <= c <= '\r'
  }

  predicate NoSpaces(s: string) {
    forall i | 0 <= i < |s| :: !IsSpace(s[i])
  }

  predicate OneLine(s: string) {
    '\n' !in s
  }

  predicate AllOneLine(ls: seq<string>) {
    forall i | 0 <= i < |ls| :: OneLine(ls[i])
  }

  predicate HasSuffix(s: string, suffix: string) {
    |suffix| <= |s| && s[|s| - |suffix|..] == suffix
  }

  // Characters

  lemma UpperCase(c: char)
    ensures 'A' <= c <= 'Z' <==> c in "ABCDEFGHIJKLMNOPQRSTUVWXYZ"
  {
  }

  lemma LowerCase(c: char)
    ensures 'a' <= c <= 'z' <==> c in "abcdefghijklmnopqrstuvwxyz"
  {
  }

  lemma Digit(c: char)
    ensures '0' <= c <= '9' <==> c in "0123456789"
  {
  }

  lemma Space(c: char)
    ensures IsSpace(c) <==> c in " \t\n\U{000B}\U{000C}\r"
  {
  }

  // Trimming

  function TrimLeft(s: string): (r: string)
    ensures |r| <= |s| && r == s[|s| - |r|..]
    ensures r == "" || !IsSpace(r[0])
  {
    if s != "" && IsSpace(s[0]) then TrimLeft(s[1..]) else s
  }

  function TrimRight(s: string): (r: string)
    ensures |r| <= |s| && r == s[..|r|]
    ensures r == "" || !IsSpace(r[|r| - 1])
  {
    if s != "" && IsSpace(s[|s| - 1]) then TrimRight(s[..|s| - 1]) else s
  }

  function TrimSpace(s: string): (r: string)
    ensures Trimmed(r)
    ensures Trimmed(s) ==> r == s
    ensures OneLine(s) ==> OneLine(r)
  {
    TrimRight(TrimLeft(s))
  }

  predicate Trimmed(s: string) {
    s == "" || (!IsSpace(s[0]) && !IsSpace(s[|s| - 1]))
  }

  lemma {:induction false} TrimLeftOf(pre: string, rest: string)
    requires (forall i | 0 <= i < |pre| :: IsSpace(pre[i])) && (rest == "" || !IsSpace(rest[0]))
    ensures TrimLeft(pre + rest) == rest
  {
    hide IsSpace;
    if pre == "" {
      assert pre + rest == rest;
    } else {
      assert (pre + rest)[1..] == pre[1..] + rest;
      TrimLeftOf(pre[1..], rest);
    }
  }

  lemma {:induction false} TrimRightOf(rest: string, post: string)
    requires (forall i | 0 <= i < |post| :: IsSpace(post[i])) && (rest == "" || !IsSpace(rest[|rest| - 1]))
    ensures TrimRight(rest + post) == rest
    decreases |post|
  {
    hide IsSpace;
    if post == "" {
      assert rest + post == rest;
    } else {
      assert (rest + post)[..|rest + post| - 1] == rest + post[..|post| - 1];
      TrimRightOf(rest, post[..|post| - 1]);
    }
  }

  /** Trimming takes the white space at both ends and no more. */
  lemma TrimSpaceExactly(pre: string, mid: string, post: string)
    requires (forall i | 0 <= i < |pre| :: IsSpace(pre[i])) && forall i | 0 <= i < |post| :: IsSpace(post[i])
    requires mid != "" ==> !IsSpace(mid[0]) && !IsSpace(mid[|mid| - 1])
    ensures TrimSpace(pre + mid + post) == mid
  {
    hide IsSpace, TrimLeft, TrimRight, Trimmed;
    TrimLeftBefore(pre, mid, post);
    if mid == "" {
      TrimRightOf("", "");
    } else {
      TrimRightOf(mid, post);
    }
  }

  lemma TrimLeftBefore(pre: string, mid: string, post: string)
    requires (forall i | 0 <= i < |pre| :: IsSpace(pre[i])) && forall i | 0 <= i < |post| :: IsSpace(post[i])
    requires mid != "" ==> !IsSpace(mid[0])
    ensures TrimLeft(pre + mid + post) == if mid == "" then "" else mid + post
  {
    hide IsSpace, TrimLeft;
    if mid == "" {
      assert pre + mid + post == pre + post + "";
      TrimLeftOf(pre + post, "");
    } else {
      assert pre + mid + post == pre + (mid + post);
      TrimLeftOf(pre, mid + post);
    }
  }

  // Cutting and splitting

  /** The position of the first c, or |s| when there is none. */
  function IndexOf(s: string, c: char): (i: nat)
    ensures i <= |s|
    ensures c !in s[..i]
    ensures i < |s| ==> s[i] == c
    ensures i == |s| <==> c !in s
  {
    if s == "" || s[0] == c then 0 else
      assert s == [s[0]] + s[1..];
      1 + IndexOf(s[1..], c)
  }

  lemma {:induction false} IndexOfIs(s: string, c: char, i: nat)
    requires i < |s| && s[i] == c && c !in s[..i]
    ensures IndexOf(s, c) == i
  {
    if i > 0 {
      assert s[..i][0] == s[0];
      assert s[1..][..i - 1] == s[..i][1..];
      IndexOfIs(s[1..], c, i - 1);
    }
  }

  /** strings.Cut(s, c), for a separator of one character. */
  datatype Cut = Whole | Parts(before: string, after: string)

  function CutAt(s: string, c: char): Cut
  {
    var i := IndexOf(s, c);
    if i == |s| then Whole else Parts(s[..i], s[i + 1..])
  }

  lemma CutOf(a: string, c: char, b: string)
    requires c !in a
    ensures CutAt(a + [c] + b, c) == Parts(a, b)
  {
    var s := a + [c] + b;
    assert s[..|a|] == a && s[|a| + 1..] == b;
    IndexOfIs(s, c, |a|);
  }

  lemma CutJoins(s: string, c: char)
    requires CutAt(s, c).Parts?
    ensures var p := CutAt(s, c); p.before + [c] + p.after == s && c !in p.before
  {
    CutAround(s, IndexOf(s, c));
  }

  /** strings.Split(s, "\n") */
  function SplitLines(s: string): (ls: seq<string>)
    ensures |ls| >= 1
  {
    var i := IndexOf(s, '\n');
    if i == |s| then [s] else [s[..i]] + SplitLines(s[i + 1..])
  }

  /** strings.Join(ls, "\n") */
  function JoinLines(ls: seq<string>): string
  {
    if ls == [] then ""
    else if |ls| == 1 then ls[0]
    else ls[0] + "\n" + JoinLines(ls[1..])
  }

  /** Every line followed by a newline, the form in which files are printed. */
  function Unlines(ls: seq<string>): string
  {
    if ls == [] then "" else ls[0] + "\n" + Unlines(ls[1..])
  }

  lemma {:induction false} SplitIsOneLine(s: string)
    ensures AllOneLine(SplitLines(s))
  {
    var i := IndexOf(s, '\n');
    if i < |s| {
      SplitIsOneLine(s[i + 1..]);
    }
  }

  lemma CutAround(s: string, i: nat)
    requires i < |s|
    ensures s[..i] + [s[i]] + s[i + 1..] == s
  {
  }

  lemma JoinCons(line: string, ls: seq<string>)
    requires ls != []
    ensures JoinLines([line] + ls) == line + "\n" + JoinLines(ls)
  {
    assert ([line] + ls)[1..] == ls;
  }

  lemma Regroup<T>(a: seq<T>, b: seq<T>, c: seq<T>)
    ensures a + (b + c) == (a + b) + c
  {
  }

  lemma Prepend<T>(a: seq<T>, b: seq<T>)
    requires a != []
    ensures [a[0]] + (a[1..] + b) == a + b
  {
  }

  lemma SplitNothing()
    ensures SplitLines("") == [""]
  {
  }

  lemma SplitWhole(line: string)
    requires OneLine(line)
    ensures SplitLines(line) == [line]
  {
  }

  lemma SplitAtNewline(line: string, rest: string)
    requires OneLine(line)
    ensures SplitLines(line + "\n" + rest) == [line] + SplitLines(rest)
  {
    var s := line + "\n" + rest;
    assert s[..|line|] == line;
    IndexOfIs(s, '\n', |line|);
    assert s[|line| + 1..] == rest;
  }

  lemma {:induction false} SplitOfJoin(ls: seq<string>)
    requires ls != [] && AllOneLine(ls)
    ensures SplitLines(JoinLines(ls)) == ls
  {
    if |ls| == 1 {
      assert IndexOf(ls[0], '\n') == |ls[0]|;
    } else {
      SplitOfJoin(ls[1..]);
      SplitAtNewline(ls[0], JoinLines(ls[1..]));
    }
  }

  lemma {:induction false} SplitOfUnlines(ls: seq<string>, tail: string)
    requires AllOneLine(ls)
    ensures SplitLines(Unlines(ls) + tail) == ls + SplitLines(tail)
  {
    if ls == [] {
      assert Unlines(ls) + tail == tail;
      assert ls + SplitLines(tail) == SplitLines(tail);
    } else {
      var rest := Unlines(ls[1..]);
      calc {
        SplitLines(Unlines(ls) + tail);
        { assert Unlines(ls) + tail == ls[0] + "\n" + (rest + tail); }
        SplitLines(ls[0] + "\n" + (rest + tail));
        { SplitAtNewline(ls[0], rest + tail); }
        [ls[0]] + SplitLines(rest + tail);
        { SplitOfUnlines(ls[1..], tail); }
        [ls[0]] + (ls[1..] + SplitLines(tail));
        { Prepend(ls, SplitLines(tail)); }
        ls + SplitLines(tail);
      }
    }
  }

  lemma UnlinesOne(line: string)
    ensures Unlines([line]) == line + "\n"
  {
    assert [line][1..] == [];
    assert Unlines([]) == "";
  }

  lemma {:induction false} UnlinesConcat(a: seq<string>, b: seq<string>)
    ensures Unlines(a + b) == Unlines(a) + Unlines(b)
  {
    if a == [] {
      assert a + b == b;
    } else {
      UnlinesConcat(a[1..], b);
      assert (a + b)[1..] == a[1..] + b;
      Regroup(a[0] + "\n", Unlines(a[1..]), Unlines(b));
    }
  }

  lemma {:induction false} UnlinesOfJoin(ls: seq<string>)
    requires ls != []
    ensures JoinLines(ls) + "\n" == Unlines(ls)
  {
    if |ls| == 1 {
      assert Unlines(ls[1..]) == "";
      assert ls[0] + "\n" == ls[0] + "\n" + "";
    } else {
      UnlinesOfJoin(ls[1..]);
    }
  }

  /** strings.TrimRight(s, "\n") */
  function TrimNewlines(s: string): (r: string)
    ensures |r| <= |s| && r == s[..|r|]
    ensures r == "" || r[|r| - 1] != '\n'
    ensures forall i | |r| <= i < |s| :: s[i] == '\n'
  {
    if s != "" && s[|s| - 1] == '\n' then TrimNewlines(s[..|s| - 1]) else s
  }

  // Words

  function WordLength(s: string): (n: nat)
    ensures n <= |s| && NoSpaces(s[..n])
    ensures n < |s| ==> IsSpace(s[n])
    ensures s != "" && !IsSpace(s[0]) ==> n > 0
  {
    if s == "" || IsSpace(s[0]) then 0 else 1 + WordLength(s[1..])
  }

  predicate IsWord(w: string) {
    w != "" && NoSpaces(w)
  }

  predicate AllWords(ws: seq<string>) {
    forall i | 0 <= i < |ws| :: IsWord(ws[i])
  }

  /** strings.Fields */
  function Fields(s: string): (ws: seq<string>)
    decreases |s|
  {
    if s == "" then []
    else if IsSpace(s[0]) then Fields(s[1..])
    else
      var n := WordLength(s);
      [s[..n]] + Fields(s[n..])
  }

  /** strings.Join(ws, " ") */
  function JoinWords(ws: seq<string>): (s: string)
  {
    if ws == [] then ""
    else if |ws| == 1 then ws[0]
    else ws[0] + " " + JoinWords(ws[1..])
  }

  lemma {:induction false} FieldsAreWords(s: string)
    ensures AllWords(Fields(s))
    decreases |s|
  {
    if s == "" {
    } else if IsSpace(s[0]) {
      FieldsAreWords(s[1..]);
    } else {
      FieldsAreWords(s[WordLength(s)..]);
    }
  }

  lemma {:induction false} WordLengthOf(w: string, rest: string)
    requires NoSpaces(w)
    requires rest == "" || IsSpace(rest[0])
    ensures WordLength(w + rest) == |w|
  {
    if w == "" {
      assert w + rest == rest;
    } else {
      WordLengthOf(w[1..], rest);
      assert (w + rest)[1..] == w[1..] + rest;
      assert !IsSpace(w[0]);
    }
  }

  lemma FieldsOfWord(w: string, rest: string)
    requires IsWord(w)
    requires rest == "" || IsSpace(rest[0])
    ensures Fields(w + rest) == [w] + Fields(rest)
  {
    WordLengthOf(w, rest);
    var s := w + rest;
    assert s[0] == w[0];
    assert s[..|w|] == w && s[|w|..] == rest;
  }

  lemma {:induction false} FieldsOfJoin(ws: seq<string>)
    requires AllWords(ws)
    ensures Fields(JoinWords(ws)) == ws
  {
    if ws == [] {
    } else if |ws| == 1 {
      FieldsOfWord(ws[0], "");
      assert ws[0] + "" == ws[0];
    } else {
      FieldsOfJoin(ws[1..]);
      var rest := " " + JoinWords(ws[1..]);
      FieldsOfWord(ws[0], rest);
      assert rest[1..] == JoinWords(ws[1..]);
      assert ws[0] + rest == JoinWords(ws);
    }
  }

  lemma FieldsSkip(s: string)
    requires s != "" && IsSpace(s[0])
    ensures Fields(s) == Fields(s[1..])
  {
  }

  lemma FieldsOfNothing()
    ensures Fields("") == []
  {
  }

  lemma {:induction false} FieldsConcat(a: string, b: string)
    ensures Fields(a + " " + b) == Fields(a) + Fields(b)
    decreases |a|
  {
    hide Fields, IsWord, WordLength;
    var s := a + " " + b;
    FieldsOfNothing();
    if a == "" {
      FieldsSkip(s);
      assert s[1..] == b;
    } else if IsSpace(a[0]) {
      FieldsSkip(s);
      FieldsSkip(a);
      FieldsConcat(a[1..], b);
      assert s[1..] == a[1..] + " " + b;
    } else {
      var w, rest := FirstWord(a);
      FieldsConcat(rest, b);
      FieldsOfWord(w, rest);
      NextWord(w, rest, b);
    }
  }

  lemma FirstWord(a: string) returns (w: string, rest: string)
    requires a != "" && !IsSpace(a[0])
    ensures IsWord(w) && a == w + rest && (rest == "" || IsSpace(rest[0])) && |rest| < |a|
  {
    var n := WordLength(a);
    w, rest := a[..n], a[n..];
  }

  lemma NextWord(w: string, rest: string, b: string)
    requires IsWord(w)
    requires rest == "" || IsSpace(rest[0])
    requires Fields(rest + " " + b) == Fields(rest) + Fields(b)
    ensures Fields(w + rest + " " + b) == ([w] + Fields(rest)) + Fields(b)
  {
    hide Fields, IsWord, IsSpace;
    var more := rest + " " + b;
    assert more[0] == if rest == "" then ' ' else rest[0];
    assert IsSpace(' ') by { NextSpace(); }
    FieldsOfWord(w, more);
    assert w + rest + " " + b == w + more;
    Regroup([w], Fields(rest), Fields(b));
  }

  lemma NextSpace()
    ensures IsSpace(' ')
  {
  }

  lemma {:induction false} JoinWordsConcat(a: seq<string>, b: seq<string>)
    requires a != [] && b != []
    ensures JoinWords(a + b) == JoinWords(a) + " " + JoinWords(b)
  {
    if |a| == 1 {
      assert a + b == [a[0]] + b;
      assert (a + b)[1..] == b;
    } else {
      JoinWordsConcat(a[1..], b);
      assert (a + b)[1..] == a[1..] + b;
    }
  }

  lemma {:induction false} JoinWordsTrimmed(ws: seq<string>)
    requires AllWords(ws)
    ensures Trimmed(JoinWords(ws))
    ensures OneLine(JoinWords(ws))
    ensures ws != [] ==> JoinWords(ws) != "" && JoinWords(ws)[0] == ws[0][0]
  {
    if ws != [] {
      assert IsWord(ws[0]);
      assert forall c | c in ws[0] :: !IsSpace(c);
      if |ws| > 1 {
        JoinWordsTrimmed(ws[1..]);
      }
    }
  }

  // Picking elements

  /** r consists of exactly the elements of s with the property, each in its place. */
  ghost predicate Picks<T>(r: seq<T>, s: seq<T>, p: T -> bool) {
    exists at: seq<nat> :: PicksAt(at, r, s, p)
  }

  ghost predicate PicksAt<T>(at: seq<nat>, r: seq<T>, s: seq<T>, p: T -> bool) {
    && |at| == |r|
    && (forall j, k | 0 <= j < k < |at| :: at[j] < at[k])
    && (forall j | 0 <= j < |at| :: at[j] < |s| && p(s[at[j]]) && r[j] == s[at[j]])
    && forall i | 0 <= i < |s| && p(s[i]) :: i in at
  }

  lemma PicksNothing<T>(p: T -> bool)
    ensures Picks([], [], p)
  {
    assert PicksAt([], [], [], p);
  }

  lemma PicksMore<T>(at: seq<nat>, r: seq<T>, s: seq<T>, x: T, p: T -> bool)
    requires PicksAt(at, r, s, p) && p(x)
    ensures PicksAt(at + [|s|], r + [x], s + [x], p)
  {
    var more, t := at + [|s|], s + [x];
    forall i | 0 <= i < |t| && p(t[i])
      ensures i in more
    {
      if i < |s| {
        assert p(s[i]);
      } else {
        assert more[|at|] == i;
      }
    }
  }

  lemma PicksSame<T>(at: seq<nat>, r: seq<T>, s: seq<T>, x: T, p: T -> bool)
    requires PicksAt(at, r, s, p) && !p(x)
    ensures PicksAt(at, r, s + [x], p)
  {
    var t := s + [x];
    forall i | 0 <= i < |t| && p(t[i])
      ensures i in at
    {
      assert i < |s| && p(s[i]);
    }
  }

  /** One more element. */
  lemma PicksSnoc<T>(r: seq<T>, s: seq<T>, x: T, p: T -> bool)
    requires Picks(r, s, p)
    ensures Picks(if p(x) then r + [x] else r, s + [x], p)
  {
    hide PicksAt;
    var at: seq<nat> :| PicksAt(at, r, s, p);
    if p(x) {
      PicksMore(at, r, s, x, p);
    } else {
      PicksSame(at, r, s, x, p);
    }
  }

  lemma PicksNone<T>(r: seq<T>, s: seq<T>, p: T -> bool)
    requires Picks(r, s, p)
    ensures r == [] <==> forall i | 0 <= i < |s| :: !p(s[i])
  {
    var at: seq<nat> :| PicksAt(at, r, s, p);
    if r == [] {
      forall i | 0 <= i < |s|
        ensures !p(s[i])
      {
        assert p(s[i]) ==> i in at;
      }
    } else {
      assert p(s[at[0]]);
    }
  }

  /** The first picked element is the first one with the property. */
  lemma PicksHead<T>(r: seq<T>, s: seq<T>, p: T -> bool) returns (first: nat)
    requires Picks(r, s, p) && r != []
    ensures first < |s| && p(s[first]) && r[0] == s[first] && forall k | 0 <= k < first :: !p(s[k])
  {
    var at: seq<nat> :| PicksAt(at, r, s, p);
    first := at[0];
    assert forall j | 0 <= j < |at| :: first <= at[j];
    forall k | 0 <= k < first
      ensures !p(s[k])
    {
      assert k !in at;
    }
  }

  lemma PicksTwo<T>(r: seq<T>, s: seq<T>, p: T -> bool)
    requires Picks(r, s, p)
    ensures |r| > 1 <==> exists i, j :: 0 <= i < j < |s| && p(s[i]) && p(s[j])
  {
    var at: seq<nat> :| PicksAt(at, r, s, p);
    if |r| > 1 {
      assert at[0] < at[1] && p(s[at[0]]) && p(s[at[1]]);
    }
    if i, j :| 0 <= i < j < |s| && p(s[i]) && p(s[j]) {
      assert i in at && j in at;
    }
  }
}
