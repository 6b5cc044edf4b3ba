/**
 Splitting mixed text into Hebrew runs and the rest. A run starts and ends on a
 Hebrew character and may hold connecting characters in between; it is taken as
 long as they allow.
 */
module BidiSegments {
  datatype Segment = Segment(text: string, he: bool)

  /** A character of the Hebrew blocks. */
  predicate He(c: char) {
    '\U{0590}' <= c <= '\U{05FF}' || '\U{FB1D}' <= c <= '\U{FB4F}'
  }

  /** A character a run may hold between its ends. */
  predicate Connects(c: char) {
    He(c) || c in {'\'', '"', '\U{2018}', '\U{2019}', '\U{201C}', '\U{201D}', ' ', '-'}
  }

  /** The first Hebrew character from `i` on. */
  function NextHe(text: string, i: nat): (s: nat)
    requires i <= |text|
    ensures i <= s <= |text| && (s < |text| ==> He(text[s]))
    ensures forall p :: i <= p < s ==> !He(text[p])
    decreases |text| - i
  {
    if i == |text| || He(text[i]) then i else NextHe(text, i + 1)
  }

  /** Where the characters that may stand in a run stop. */
  function ConnectedEnd(text: string, i: nat): (m: nat)
    requires i <= |text|
    ensures i <= m <= |text| && (m < |text| ==> !Connects(text[m]))
    ensures forall p :: i <= p < m ==> Connects(text[p])
    decreases |text| - i
  {
    if i == |text| || !Connects(text[i]) then i else ConnectedEnd(text, i + 1)
  }

  /** Behind the last Hebrew character before `m`. */
  function LastHeEnd(text: string, s: nat, m: nat): (e: nat)
    requires s < m <= |text| && He(text[s])
    ensures s < e <= m && He(text[e - 1]) && forall p :: e <= p < m ==> !He(text[p])
  {
    if He(text[m - 1]) then m else LastHeEnd(text, s, m - 1)
  }

  /** The end of the run that starts at `s`: as far as it can be stretched and still end on a Hebrew character. */
  function RunEnd(text: string, s: nat): (e: nat)
    requires s < |text| && He(text[s])
    ensures s < e <= |text|
  {
    LastHeEnd(text, s, ConnectedEnd(text, s))
  }

  /** What splitting at the runs gives: the text before a run, the run, and so on, some of it possibly empty. */
  function Parts(text: string, i: nat): seq<string>
    requires i <= |text|
    decreases |text| - i
  {
    var s := NextHe(text, i);
    if s == |text| then [text[i..]]
    else
      var e := RunEnd(text, s);
      [text[i..s], text[s..e]] + Parts(text, e)
  }

  function NonEmpty(parts: seq<string>): seq<string> {
    if parts == [] then []
    else (if parts[0] == "" then [] else [parts[0]]) + NonEmpty(parts[1..])
  }

  predicate HasHe(part: string) {
    exists i :: 0 <= i < |part| && He(part[i])
  }

  function Flagged(parts: seq<string>): seq<Segment> {
    if parts == [] then [] else [Segment(parts[0], HasHe(parts[0]))] + Flagged(parts[1..])
  }

  function Bidi(text: string): seq<Segment> {
    Flagged(NonEmpty(Parts(text, 0)))
  }

  // ---------------------------------------------------------------------
  // What a segmentation has to be
  // ---------------------------------------------------------------------

  /** A run allowed from `s` to `e`: Hebrew at both ends, connected in between. */
  ghost predicate Allowed(text: string, s: nat, e: nat) {
    && s < e <= |text| && He(text[s]) && He(text[e - 1])
    && forall p :: s <= p < e ==> Connects(text[p])
  }

  ghost predicate LongestRun(text: string, s: nat, e: nat) {
    Allowed(text, s, e) && forall f :: e < f <= |text| ==> !Allowed(text, s, f)
  }

  /** From `s` to `e` nothing is Hebrew, up to the next Hebrew character or the end. */
  ghost predicate PlainRun(text: string, s: nat, e: nat) {
    && s < e <= |text| && (forall p :: s <= p < e ==> !He(text[p]))
    && (e == |text| || He(text[e]))
  }

  /** The segments cut the text from `i` on, one behind the other, alternating, each as it has to be. */
  ghost predicate Cuts(text: string, i: nat, segments: seq<Segment>)
    decreases |segments|
  {
    if segments == [] then i == |text|
    else
      var first, e := segments[0], i + |segments[0].text|;
      && e <= |text| && text[i..e] == first.text
      && (if first.he then LongestRun(text, i, e) else PlainRun(text, i, e))
      && (|segments| > 1 ==> segments[1].he != first.he)
      && Cuts(text, e, segments[1..])
  }

  lemma RunEndIsLongest(text: string, s: nat)
    requires s < |text| && He(text[s])
    ensures LongestRun(text, s, RunEnd(text, s))
    ensures RunEnd(text, s) < |text| ==> !He(text[RunEnd(text, s)])
  {
    var m, e := ConnectedEnd(text, s), RunEnd(text, s);
    forall f | e < f <= |text|
      ensures !Allowed(text, s, f)
    {
      assert f <= m ==> !He(text[f - 1]);
    }
  }

  lemma HasHeIn(text: string, s: nat, e: nat)
    requires s <= e <= |text|
    ensures HasHe(text[s..e]) <==> exists p :: s <= p < e && He(text[p])
  {
    if p :| s <= p < e && He(text[p]) {
      assert He(text[s..e][p - s]);
    }
  }

  function Rest(text: string, i: nat): seq<Segment>
    requires i <= |text|
  {
    Flagged(NonEmpty(Parts(text, i)))
  }

  lemma {:induction false} FlaggedOne(part: string, parts: seq<string>)
    ensures Flagged(NonEmpty([part] + parts))
         == (if part == "" then [] else [Segment(part, HasHe(part))]) + Flagged(NonEmpty(parts))
  {
    assert ([part] + parts)[1..] == parts;
    if part == "" {
      assert NonEmpty([part] + parts) == NonEmpty(parts);
    } else {
      assert ([part] + NonEmpty(parts))[1..] == NonEmpty(parts);
    }
  }

  /** The segments from a Hebrew character on are its run and what follows. */
  lemma RestAtHe(text: string, s: nat)
    requires s < |text| && He(text[s])
    ensures Rest(text, s) == [Segment(text[s..RunEnd(text, s)], true)] + Rest(text, RunEnd(text, s))
  {
    var e := RunEnd(text, s);
    assert text[s..s] == "";
    assert Parts(text, s) == [""] + ([text[s..e]] + Parts(text, e));
    FlaggedOne("", [text[s..e]] + Parts(text, e));
    FlaggedOne(text[s..e], Parts(text, e));
    HasHeIn(text, s, e);
  }

  /** The segments from another character on are all up to the next Hebrew one, and what follows. */
  lemma {:induction false} RestAtPlain(text: string, i: nat)
    requires i < |text| && !He(text[i])
    ensures Rest(text, i) == [Segment(text[i..NextHe(text, i)], false)] + Rest(text, NextHe(text, i))
  {
    var s := NextHe(text, i);
    HasHeIn(text, i, s);
    if s == |text| {
      assert text[i..s] == text[i..];
      assert text[s..] == "";
      assert Parts(text, i) == [text[i..s]] + [];
      FlaggedOne(text[i..s], []);
      assert Parts(text, s) == [""] + [];
      FlaggedOne("", []);
    } else {
      var e := RunEnd(text, s);
      assert text[s..s] == "";
      assert NextHe(text, s) == s;
      assert Parts(text, i) == [text[i..s]] + ([text[s..e]] + Parts(text, e));
      assert Parts(text, s) == [""] + ([text[s..e]] + Parts(text, e));
      FlaggedOne(text[i..s], [text[s..e]] + Parts(text, e));
      FlaggedOne("", [text[s..e]] + Parts(text, e));
    }
  }

  lemma RestAtEnd(text: string)
    ensures Rest(text, |text|) == []
  {
    assert text[|text|..] == "";
    assert Parts(text, |text|) == [""] + [];
    FlaggedOne("", []);
  }

  lemma {:induction false} CutsFromHe(text: string, s: nat)
    requires s < |text| && He(text[s])
    requires var rest := Rest(text, RunEnd(text, s)); Cuts(text, RunEnd(text, s), rest) && (rest != [] ==> !rest[0].he)
    ensures Rest(text, s) != [] && Rest(text, s)[0].he && Cuts(text, s, Rest(text, s))
  {
    RestAtHe(text, s);
    RunEndIsLongest(text, s);
    assert Rest(text, s)[1..] == Rest(text, RunEnd(text, s));
  }

  lemma {:induction false} CutsFromPlain(text: string, i: nat)
    requires i < |text| && !He(text[i])
    requires var rest := Rest(text, NextHe(text, i)); Cuts(text, NextHe(text, i), rest) && (rest != [] ==> rest[0].he)
    ensures Rest(text, i) != [] && !Rest(text, i)[0].he && Cuts(text, i, Rest(text, i))
  {
    RestAtPlain(text, i);
    assert Rest(text, i)[1..] == Rest(text, NextHe(text, i));
  }

  lemma {:induction false} RestCuts(text: string, i: nat)
    requires i <= |text|
    ensures Cuts(text, i, Rest(text, i))
    ensures if i == |text| then Rest(text, i) == [] else Rest(text, i) != [] && Rest(text, i)[0].he == He(text[i])
    decreases |text| - i
  {
    if i == |text| {
      RestAtEnd(text);
    } else if He(text[i]) {
      RunEndIsLongest(text, i);
      RestCuts(text, RunEnd(text, i));
      CutsFromHe(text, i);
    } else {
      RestCuts(text, NextHe(text, i));
      CutsFromPlain(text, i);
    }
  }

  /** The splitter cuts every text as it has to be cut. */
  lemma {:induction false} BidiCuts(text: string)
    ensures Cuts(text, 0, Bidi(text))
  {
    RestCuts(text, 0);
  }

  lemma RunsAgree(text: string, s: nat, e: nat, f: nat)
    requires LongestRun(text, s, e) && LongestRun(text, s, f)
    ensures e == f
  {
  }

  /** There is only one way to cut a text so. */
  lemma {:induction false} CutsAgree(text: string, i: nat, a: seq<Segment>, b: seq<Segment>)
    requires i <= |text| && Cuts(text, i, a) && Cuts(text, i, b)
    ensures a == b
    decreases |a|
  {
    if a != [] && b != [] {
      var e, f := i + |a[0].text|, i + |b[0].text|;
      if a[0].he && b[0].he {
        RunsAgree(text, i, e, f);
      }
      assert a[0] == b[0];
      CutsAgree(text, e, a[1..], b[1..]);
      assert a == [a[0]] + a[1..] && b == [b[0]] + b[1..];
    }
  }

  function Joined(segments: seq<Segment>): string {
    if segments == [] then "" else segments[0].text + Joined(segments[1..])
  }

  /** Nothing is lost: the segments joined are the text. */
  lemma {:induction false} CutsJoin(text: string, i: nat, segments: seq<Segment>)
    requires i <= |text| && Cuts(text, i, segments)
    ensures Joined(segments) == text[i..]
    decreases |segments|
  {
    if segments != [] {
      CutsJoin(text, i + |segments[0].text|, segments[1..]);
    }
  }

  /**
   The segment is not empty and differs from the next; a Hebrew one starts and ends on a
   Hebrew character, another holds none.
   */
  ghost predicate WellCut(segments: seq<Segment>, k: nat)
    requires k < |segments|
  {
    var t := segments[k].text;
    && t != ""
    && (k + 1 < |segments| ==> segments[k].he != segments[k + 1].he)
    && (if segments[k].he then He(t[0]) && He(t[|t| - 1]) else !HasHe(t))
  }

  lemma {:induction false} CutsAreWellCut(text: string, i: nat, segments: seq<Segment>, k: nat)
    requires i <= |text| && Cuts(text, i, segments) && k < |segments|
    ensures WellCut(segments, k)
    decreases |segments|
  {
    var e := i + |segments[0].text|;
    if k > 0 {
      CutsAreWellCut(text, e, segments[1..], k - 1);
    } else if !segments[0].he {
      HasHeIn(text, i, e);
    }
  }

  ghost predicate InHebrewBlock(c: char) {
    '\U{0590}' <= c <= '\U{05FF}' || '\U{FB1D}' <= c <= '\U{FB4F}'
  }

  /** The quotation marks, the space and the hyphen that Hebrew phrases are written with. */
  ghost predicate Joiner(c: char) {
    c in ['\'', '"', '\U{2018}', '\U{2019}', '\U{201C}', '\U{201D}', ' ', '-']
  }

  lemma {:induction false} CutCharacters(text: string, i: nat, segments: seq<Segment>, k: nat, p: nat)
    requires i <= |text| && Cuts(text, i, segments) && k < |segments| && p < |segments[k].text|
    ensures InHebrewBlock(segments[k].text[p]) ==> segments[k].he
    ensures segments[k].he ==> InHebrewBlock(segments[k].text[p]) || Joiner(segments[k].text[p])
    decreases |segments|
  {
    var e := i + |segments[0].text|;
    if k > 0 {
      CutCharacters(text, e, segments[1..], k - 1, p);
    } else {
      assert segments[0].text[p] == text[i + p];
    }
  }

  /** Every character of the Hebrew blocks is in a Hebrew segment, which holds nothing else but joiners. */
  lemma HebrewIsIsolated(text: string, k: nat, p: nat)
    requires k < |Bidi(text)| && p < |Bidi(text)[k].text|
    ensures InHebrewBlock(Bidi(text)[k].text[p]) ==> Bidi(text)[k].he
    ensures Bidi(text)[k].he ==> InHebrewBlock(Bidi(text)[k].text[p]) || Joiner(Bidi(text)[k].text[p])
  {
    BidiCuts(text);
    CutCharacters(text, 0, Bidi(text), k, p);
  }

  lemma {:induction false} CutsAreApart(text: string, i: nat, segments: seq<Segment>, k: nat) returns (p: nat)
    requires i <= |text| && Cuts(text, i, segments) && k + 2 < |segments| && segments[k].he
    ensures p < |segments[k + 1].text| && !Joiner(segments[k + 1].text[p])
    decreases |segments|
  {
    var e := i + |segments[0].text|;
    if k > 0 {
      p := CutsAreApart(text, e, segments[1..], k - 1);
    } else {
      p := BrokenBetween(text, i, e, segments[1..]);
    }
  }

  lemma {:induction false} BrokenBetween(text: string, i: nat, e: nat, rest: seq<Segment>) returns (p: nat)
    requires LongestRun(text, i, e) && Cuts(text, e, rest) && |rest| > 1 && !rest[0].he
    ensures p < |rest[0].text| && !Joiner(rest[0].text[p])
  {
    var f := e + |rest[0].text|;
    assert Cuts(text, f, rest[1..]) && rest[1..][0].he;
    assert PlainRun(text, e, f) && He(text[f]);
    assert !Allowed(text, i, f + 1);
    var q :| i <= q < f + 1 && !Connects(text[q]);
    assert e <= q < f;
    p := q - e;
    assert rest[0].text[p] == text[q];
  }

  /** Two Hebrew segments are apart for a reason: what is between them holds more than joiners. */
  lemma HebrewRunsAreApart(text: string, k: nat) returns (p: nat)
    requires k + 2 < |Bidi(text)| && Bidi(text)[k].he
    ensures p < |Bidi(text)[k + 1].text| && !Joiner(Bidi(text)[k + 1].text[p])
  {
    BidiCuts(text);
    p := CutsAreApart(text, 0, Bidi(text), k);
  }

  /** What the splitter promises: nothing lost, and every segment well cut. */
  lemma BidiIsFaithful(text: string)
    ensures Joined(Bidi(text)) == text
    ensures forall k :: 0 <= k < |Bidi(text)| ==> WellCut(Bidi(text), k)
  {
    var segments := Bidi(text);
    BidiCuts(text);
    CutsJoin(text, 0, segments);
    forall k | 0 <= k < |segments|
      ensures WellCut(segments, k)
    {
      CutsAreWellCut(text, 0, segments, k);
    }
  }
}
