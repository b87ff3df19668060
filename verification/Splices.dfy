/** internal/cluster/merge.go: writing a page with some pieces cut out and others put in. */
module Splices {
  import opened Text

  /** At offset at, cut bytes are replaced by text. */
  datatype Splice = Splice(at: nat, cut: nat, text: string)

  /** The splices lie behind each other, between lo and hi. */
  predicate InOrder(splices: seq<Splice>, lo: nat, hi: nat)
    decreases |splices|
  {
    if splices == [] then lo <= hi
    else lo <= splices[0].at && InOrder(splices[1..], splices[0].at + splices[0].cut, hi)
  }

  /** The text that stays, piece by piece: one piece more than there are splices. */
  function Kept(page: string, splices: seq<Splice>, pos: nat): (pieces: seq<string>)
    requires InOrder(splices, pos, |page|)
    ensures |pieces| == |splices| + 1
    decreases |splices|
  {
    if splices == [] then [page[pos..]]
    else
      InOrderEnds(splices, pos, |page|);
      [page[pos..splices[0].at]] + Kept(page, splices[1..], splices[0].at + splices[0].cut)
  }

  lemma {:induction false} InOrderEnds(splices: seq<Splice>, lo: nat, hi: nat)
    requires InOrder(splices, lo, hi)
    ensures lo <= hi
    ensures forall i | 0 <= i < |splices| :: lo <= splices[i].at && splices[i].at + splices[i].cut <= hi
    decreases |splices|
  {
    if splices != [] {
      InOrderEnds(splices[1..], splices[0].at + splices[0].cut, hi);
    }
  }

  function Texts(splices: seq<Splice>): (r: seq<string>)
    ensures |r| == |splices|
  {
    seq(|splices|, i requires 0 <= i < |splices| => splices[i].text)
  }

  function Cuts(page: string, splices: seq<Splice>): (r: seq<string>)
    requires forall i | 0 <= i < |splices| :: splices[i].at + splices[i].cut <= |page|
    ensures |r| == |splices|
  {
    seq(|splices|, i requires 0 <= i < |splices| => page[splices[i].at..splices[i].at + splices[i].cut])
  }

  /** Kept pieces with others in between. */
  function Weave(kept: seq<string>, between: seq<string>): string
    requires |kept| == |between| + 1
    decreases |kept|
  {
    if between == [] then kept[0] else kept[0] + between[0] + Weave(kept[1..], between[1..])
  }

  function Spliced(page: string, splices: seq<Splice>, pos: nat): string
    requires InOrder(splices, pos, |page|)
    decreases |splices|
  {
    if splices == [] then page[pos..]
    else
      InOrderEnds(splices, pos, |page|);
      page[pos..splices[0].at] + splices[0].text + Spliced(page, splices[1..], splices[0].at + splices[0].cut)
  }

  lemma SpliceNext(page: string, splices: seq<Splice>, n: nat, pos: nat)
    requires n < |splices| && InOrder(splices[n..], pos, |page|)
    ensures var s := splices[n];
            && pos <= s.at && s.at + s.cut <= |page| && InOrder(splices[n + 1..], s.at + s.cut, |page|)
            && Spliced(page, splices[n..], pos) == page[pos..s.at] + s.text + Spliced(page, splices[n + 1..], s.at + s.cut)
  {
    assert splices[n..][1..] == splices[n + 1..];
    InOrderEnds(splices[n + 1..], splices[n].at + splices[n].cut, |page|);
  }

  lemma SpliceStep(page: string, splices: seq<Splice>, n: nat, pos: nat, out: string)
    requires n < |splices| && pos <= |page| && InOrder(splices[n..], pos, |page|)
    ensures var s := splices[n];
            && pos <= s.at && s.at + s.cut <= |page| && InOrder(splices[n + 1..], s.at + s.cut, |page|)
            && out + page[pos..s.at] + s.text + Spliced(page, splices[n + 1..], s.at + s.cut) == out + Spliced(page, splices[n..], pos)
  {
    hide Spliced, InOrder;
    SpliceNext(page, splices, n, pos);
    var s := splices[n];
    JoinFour(out, page[pos..s.at], s.text, Spliced(page, splices[n + 1..], s.at + s.cut));
  }

  lemma JoinFour(a: string, b: string, c: string, d: string)
    ensures a + b + c + d == a + (b + c + d)
  {
  }

  method WriteSplices(page: string, splices: seq<Splice>) returns (out: string)
    requires InOrder(splices, 0, |page|)
    ensures out == Spliced(page, splices, 0)
  {
    out := "";
    var pos: nat := 0;
    for n := 0 to |splices|
      invariant pos <= |page| && InOrder(splices[n..], pos, |page|)
      invariant out + Spliced(page, splices[n..], pos) == Spliced(page, splices, 0)
    {
      hide Spliced, InOrder;
      var s := splices[n];
      SpliceStep(page, splices, n, pos, out);
      out := out + page[pos..s.at];
      out := out + s.text;
      pos := s.at + s.cut;
    }
    assert splices[|splices|..] == [];
    out := out + page[pos..];
  }

  lemma WeaveCons(k: string, ks: seq<string>, b: string, bs: seq<string>)
    requires |ks| == |bs| + 1
    ensures Weave([k] + ks, [b] + bs) == k + b + Weave(ks, bs)
  {
    assert ([k] + ks)[1..] == ks && ([b] + bs)[1..] == bs;
  }

  lemma ThreePieces(page: string, pos: nat, at: nat, end: nat)
    requires pos <= at <= end <= |page|
    ensures page[pos..] == page[pos..at] + page[at..end] + page[end..]
  {
  }

  lemma InsideCons(page: string, splices: seq<Splice>)
    requires splices != [] && forall i | 0 <= i < |splices| :: splices[i].at + splices[i].cut <= |page|
    ensures forall i | 0 <= i < |splices[1..]| :: splices[1..][i].at + splices[1..][i].cut <= |page|
    ensures Texts(splices) == [splices[0].text] + Texts(splices[1..])
    ensures Cuts(page, splices) == [page[splices[0].at..splices[0].at + splices[0].cut]] + Cuts(page, splices[1..])
  {
    assert forall i | 0 <= i < |splices[1..]| :: splices[1..][i] == splices[i + 1];
  }

  /** The page and the result are made of the same kept pieces; between them the page has
      what was cut and the result what was put in. */
  lemma {:induction false} OnlySplicesDiffer(page: string, splices: seq<Splice>, pos: nat)
    requires InOrder(splices, pos, |page|)
    requires forall i | 0 <= i < |splices| :: splices[i].at + splices[i].cut <= |page|
    ensures Spliced(page, splices, pos) == Weave(Kept(page, splices, pos), Texts(splices))
    ensures pos <= |page| && page[pos..] == Weave(Kept(page, splices, pos), Cuts(page, splices))
    decreases |splices|
  {
    hide Weave, Texts, Cuts;
    InOrderEnds(splices, pos, |page|);
    if splices == [] {
      NoSplices(page, pos);
    } else {
      var s, rest := splices[0], splices[1..];
      var end := s.at + s.cut;
      InsideCons(page, splices);
      OnlySplicesDiffer(page, rest, end);
      WeaveCons(page[pos..s.at], Kept(page, rest, end), s.text, Texts(rest));
      WeaveCons(page[pos..s.at], Kept(page, rest, end), page[s.at..end], Cuts(page, rest));
      ThreePieces(page, pos, s.at, end);
    }
  }

  lemma NoSplices(page: string, pos: nat)
    requires pos <= |page|
    ensures Weave([page[pos..]], Texts([])) == page[pos..] == Weave([page[pos..]], Cuts(page, []))
  {
  }

  /** Joining two runs of splices. */
  lemma {:induction false} InOrderConcat(a: seq<Splice>, b: seq<Splice>, lo: nat, mid: nat, hi: nat)
    requires InOrder(a, lo, mid) && InOrder(b, mid, hi)
    ensures InOrder(a + b, lo, hi)
    decreases |a|
  {
    if a == [] {
      assert a + b == b;
      InOrderWider(b, lo, mid, hi, hi);
    } else {
      assert (a + b)[1..] == a[1..] + b;
      InOrderConcat(a[1..], b, a[0].at + a[0].cut, mid, hi);
    }
  }

  lemma {:induction false} InOrderWider(splices: seq<Splice>, lo: nat, mid: nat, end: nat, hi: nat)
    requires InOrder(splices, mid, end) && lo <= mid && end <= hi
    ensures InOrder(splices, lo, hi)
    decreases |splices|
  {
    if splices != [] {
      InOrderWider(splices[1..], splices[0].at + splices[0].cut, splices[0].at + splices[0].cut, end, hi);
    }
  }

  // The filter next to the search box is one more splice

  /** The offset is not inside or at the start of anything that is cut. */
  predicate IsClear(splices: seq<Splice>, at: nat) {
    forall i | 0 <= i < |splices| :: splices[i].cut == 0 || at < splices[i].at || splices[i].at + splices[i].cut <= at
  }

  /** Where sorting by offset puts it. */
  function PutInPlace(splices: seq<Splice>, s: Splice): seq<Splice>
    decreases |splices|
  {
    if splices == [] || s.at < splices[0].at then [s] + splices else [splices[0]] + PutInPlace(splices[1..], s)
  }

  /** The others stay as they are, those in front of it starting no later. */
  lemma {:induction false} PlaceIs(splices: seq<Splice>, s: Splice) returns (i: nat)
    ensures i <= |splices| && PutInPlace(splices, s) == splices[..i] + [s] + splices[i..]
    ensures (forall k | 0 <= k < i :: splices[k].at <= s.at) && (i < |splices| ==> s.at < splices[i].at)
    decreases |splices|
  {
    if splices == [] || s.at < splices[0].at {
      i := 0;
    } else {
      var k := PlaceIs(splices[1..], s);
      i := k + 1;
      assert splices[..i] == [splices[0]] + splices[1..][..k];
      assert splices[i..] == splices[1..][k..];
    }
  }

  lemma {:induction false} PlaceKeepsOrder(splices: seq<Splice>, s: Splice, lo: nat, hi: nat)
    requires InOrder(splices, lo, hi) && s.cut == 0 && lo <= s.at <= hi && IsClear(splices, s.at)
    ensures InOrder(PutInPlace(splices, s), lo, hi)
    decreases |splices|
  {
    if splices == [] || s.at < splices[0].at {
      assert ([s] + splices)[1..] == splices;
    } else {
      var first, rest := splices[0], splices[1..];
      assert first.cut == 0 || first.at + first.cut <= s.at;
      assert forall i | 0 <= i < |rest| :: rest[i] == splices[i + 1];
      PlaceKeepsOrder(rest, s, first.at + first.cut, hi);
      assert ([first] + PutInPlace(rest, s))[1..] == PutInPlace(rest, s);
    }
  }
}
