/**
 Splitting a source text into numbered units: words, marks and spaces. The
 reference for a word is a property of one position and what stands before it;
 the splitter's scanning loops are proved to find exactly the runs it describes.
 */
module SourceUnits {
  import opened Wrappers

  /** What the Unicode database says of a character. */
  datatype Alphabet = Alphabet(
    space: char -> bool, letter: char -> bool, mark: char -> bool, combining: char -> bool, hebrewName: char -> bool)

  predicate Quote(c: char) {
    c == '"' || c == '\'' || c == '\U{05F3}' || c == '\U{05F4}'
  }

  predicate HebrewLetter(c: char) {
    '\U{05D0}' <= c <= '\U{05EA}'
  }

  /**
   Letters, marks, spaces and quote marks are different characters; combining ones are
   marks; alef to tav are letters.
   */
  ghost predicate Valid(ab: Alphabet) {
    forall c ::
      && (ab.letter(c) ==> !ab.space(c) && !ab.mark(c) && !Quote(c))
      && (ab.mark(c) ==> !ab.space(c) && !Quote(c))
      && (Quote(c) ==> !ab.space(c))
      && (ab.combining(c) ==> ab.mark(c))
      && (HebrewLetter(c) ==> ab.letter(c))
  }

  /**
   A character belongs to a word when it is a letter, a mark right behind a letter
   or mark of a word, or a quote mark right behind anything of a word.
   */
  predicate InWord(ab: Alphabet, text: string, p: nat)
    requires p < |text|
  {
    || ab.letter(text[p])
    || (ab.mark(text[p]) && p > 0 && (ab.letter(text[p - 1]) || ab.mark(text[p - 1])) && InWord(ab, text, p - 1))
    || (Quote(text[p]) && p > 0 && InWord(ab, text, p - 1))
  }

  /** All marks right behind a letter belong to its word. */
  lemma {:induction false} MarksBelong(ab: Alphabet, text: string, p: nat, q: nat)
    requires p <= q < |text| && ab.letter(text[p]) && forall i :: p < i <= q ==> ab.mark(text[i])
    ensures InWord(ab, text, q)
  {
    if p < q {
      MarksBelong(ab, text, p, q - 1);
    }
  }

  /** All quote marks right behind a character of a word belong to it, as inside or behind an abbreviation. */
  lemma {:induction false} QuotesBelong(ab: Alphabet, text: string, p: nat, q: nat)
    requires p <= q < |text| && InWord(ab, text, p) && forall i :: p < i <= q ==> Quote(text[i])
    ensures InWord(ab, text, q)
  {
    if p < q {
      QuotesBelong(ab, text, p, q - 1);
    }
  }

  datatype Kind = Word | Mark | Space

  predicate IsKind(ab: Alphabet, text: string, p: nat, kind: Kind)
    requires p < |text|
  {
    match kind
    case Word => InWord(ab, text, p)
    case Mark => !InWord(ab, text, p) && !ab.space(text[p])
    case Space => ab.space(text[p])
  }

  datatype Piece = Piece(kind: Kind, start: nat, end: nat)

  /** The pieces follow one another from `start` to `end`, none of them empty. */
  ghost predicate Tiles(pieces: seq<Piece>, start: nat, end: nat) {
    && (forall i :: 0 <= i < |pieces| ==> pieces[i].start < pieces[i].end)
    && (forall i :: 0 < i < |pieces| ==> pieces[i - 1].end == pieces[i].start)
    && (if pieces == [] then start == end else pieces[0].start == start && pieces[|pieces| - 1].end == end)
  }

  ghost predicate Within(text: string, pieces: seq<Piece>) {
    forall i :: 0 <= i < |pieces| ==> pieces[i].end <= |text|
  }

  /** Every character of a piece is of the piece's kind, and neighbouring pieces differ in kind. */
  ghost predicate Sorted(ab: Alphabet, text: string, pieces: seq<Piece>)
    requires Within(text, pieces)
  {
    && (forall i, p :: 0 <= i < |pieces| && pieces[i].start <= p < pieces[i].end ==> IsKind(ab, text, p, pieces[i].kind))
    && (forall i :: 0 < i < |pieces| ==> pieces[i - 1].kind != pieces[i].kind)
  }

  /** The one way to cut the text into the longest runs of one kind. */
  ghost predicate UnitTable(ab: Alphabet, text: string, pieces: seq<Piece>) {
    Tiles(pieces, 0, |text|) && Within(text, pieces) && Sorted(ab, text, pieces)
  }

  // ---------------------------------------------------------------------
  // The splitter
  // ---------------------------------------------------------------------

  /** Where the word that starts at `i` ends, scanning no further than `end`. */
  method WordEnd(ab: Alphabet, text: string, i: nat, end: nat) returns (j: nat)
    requires Valid(ab) && i < end <= |text| && ab.letter(text[i])
    ensures i < j <= end
    ensures forall p :: i <= p < j ==> InWord(ab, text, p)
    ensures j < end ==> !InWord(ab, text, j)
  {
    j := i + 1;
    while j < end
      invariant i < j <= end
      invariant forall p :: i <= p < j ==> InWord(ab, text, p)
      invariant j < end ==> ab.letter(text[j - 1]) || ab.mark(text[j - 1]) || ab.letter(text[j])
    {
      var c := text[j];
      assert InWord(ab, text, j - 1);
      if ab.letter(c) || ab.mark(c) {
        j := j + 1;
      } else if Quote(c) {
        var k := j;
        while k < end && Quote(text[k])
          invariant j <= k <= end
          invariant forall p :: i <= p < k ==> InWord(ab, text, p)
          invariant k > j ==> Quote(text[k - 1])
        {
          assert InWord(ab, text, k - 1);
          k := k + 1;
        }
        j := k;
        if k == end || !ab.letter(text[k]) {
          break;
        }
      } else {
        break;
      }
    }
  }

  /** Where the next letter stands; nothing before it belongs to a word. */
  method MarkEnd(ab: Alphabet, text: string, i: nat, end: nat) returns (j: nat)
    requires i < end <= |text| && !InWord(ab, text, i)
    ensures i < j <= end && (j < end ==> ab.letter(text[j]))
    ensures forall p :: i <= p < j ==> !InWord(ab, text, p)
  {
    j := i + 1;
    while j < end && !ab.letter(text[j])
      invariant i < j <= end
      invariant forall p :: i <= p < j ==> !InWord(ab, text, p)
    {
      assert !InWord(ab, text, j - 1);
      j := j + 1;
    }
  }

  /** The pieces of a token up to `i`, where a word begins exactly if a letter stands there. */
  ghost predicate SplitTo(ab: Alphabet, text: string, out: seq<Piece>, start: nat, i: nat, end: nat)
    requires start <= i <= end <= |text|
  {
    && Tiles(out, start, i) && Within(text, out) && Sorted(ab, text, out)
    && (forall n :: 0 <= n < |out| ==> out[n].kind != Space)
    && (i < end ==> (InWord(ab, text, i) <==> ab.letter(text[i])))
    && (i < end && out != [] ==> (out[|out| - 1].kind == Word <==> !ab.letter(text[i])))
  }

  lemma {:induction false} SplitGrows(ab: Alphabet, text: string, out: seq<Piece>, kind: Kind, start: nat, i: nat,
                                      j: nat, end: nat)
    requires start <= i < j <= end <= |text| && SplitTo(ab, text, out, start, i, end)
    requires kind == if ab.letter(text[i]) then Word else Mark
    requires forall p :: i <= p < j ==> IsKind(ab, text, p, kind)
    requires j < end ==> (InWord(ab, text, j) <==> kind == Mark) && (ab.letter(text[j]) <==> kind == Mark)
    ensures SplitTo(ab, text, out + [Piece(kind, i, j)], start, j, end)
  {
    TilesJoin(ab, text, out, [Piece(kind, i, j)], start, i, j);
  }

  /** Splits one whitespace-free token into word and mark pieces. */
  method Pieces(ab: Alphabet, text: string, start: nat, end: nat) returns (out: seq<Piece>)
    requires Valid(ab) && start <= end <= |text|
    requires forall p :: start <= p < end ==> !ab.space(text[p])
    requires start > 0 ==> ab.space(text[start - 1])
    ensures Tiles(out, start, end) && Within(text, out) && Sorted(ab, text, out)
    ensures forall i :: 0 <= i < |out| ==> out[i].kind != Space
  {
    out := [];
    var i := start;
    while i < end
      invariant start <= i <= end
      invariant SplitTo(ab, text, out, start, i, end)
    {
      if ab.letter(text[i]) {
        var j := WordEnd(ab, text, i, end);
        SplitGrows(ab, text, out, Word, start, i, j, end);
        out := out + [Piece(Word, i, j)];
        i := j;
      } else {
        var j := MarkEnd(ab, text, i, end);
        SplitGrows(ab, text, out, Mark, start, i, j, end);
        out := out + [Piece(Mark, i, j)];
        i := j;
      }
    }
  }

  lemma TilesJoin(ab: Alphabet, text: string, a: seq<Piece>, b: seq<Piece>, start: nat, mid: nat, end: nat)
    requires Tiles(a, start, mid) && Within(text, a) && Sorted(ab, text, a)
    requires Tiles(b, mid, end) && Within(text, b) && Sorted(ab, text, b)
    requires a != [] && b != [] ==> a[|a| - 1].kind != b[0].kind
    ensures Tiles(a + b, start, end) && Within(text, a + b) && Sorted(ab, text, a + b)
  {
  }

  /** Every character falls in exactly one unit; unit numbers are positions in the list, from 1. */
  method Units(ab: Alphabet, text: string) returns (out: seq<Piece>)
    requires Valid(ab)
    ensures UnitTable(ab, text, out)
  {
    out := [];
    var i, n := 0, |text|;
    while i < n
      invariant 0 <= i <= n
      invariant Tiles(out, 0, i) && Within(text, out) && Sorted(ab, text, out)
      invariant i < n && out != [] ==> (out[|out| - 1].kind == Space <==> !ab.space(text[i]))
    {
      var j := i;
      var pieces;
      if ab.space(text[i]) {
        while j < n && ab.space(text[j])
          invariant i <= j <= n
          invariant forall p :: i <= p < j ==> ab.space(text[p])
        {
          j := j + 1;
        }
        pieces := [Piece(Space, i, j)];
      } else {
        while j < n && !ab.space(text[j])
          invariant i <= j <= n
          invariant forall p :: i <= p < j ==> !ab.space(text[p])
        {
          j := j + 1;
        }
        StartsToken(ab, text, out, i);
        pieces := Pieces(ab, text, i, j);
      }
      TilesJoin(ab, text, out, pieces, 0, i, j);
      out := out + pieces;
      i := j;
    }
  }

  lemma StartsToken(ab: Alphabet, text: string, out: seq<Piece>, i: nat)
    requires i < |text| && Tiles(out, 0, i) && Within(text, out) && Sorted(ab, text, out)
    requires out != [] ==> out[|out| - 1].kind == Space
    ensures i > 0 ==> ab.space(text[i - 1])
  {
    if i > 0 {
      assert IsKind(ab, text, i - 1, Space);
    }
  }

  // ---------------------------------------------------------------------
  // The table is the only one
  // ---------------------------------------------------------------------

  lemma {:induction false} PieceOf(pieces: seq<Piece>, start: nat, end: nat, p: nat) returns (i: nat)
    requires Tiles(pieces, start, end) && start <= p < end
    ensures i < |pieces| && pieces[i].start <= p < pieces[i].end
  {
    i := 0;
    while p >= pieces[i].end
      invariant i < |pieces| && pieces[i].start <= p
      decreases |pieces| - i
    {
      i := i + 1;
    }
  }

  lemma {:induction false} TilesOrdered(pieces: seq<Piece>, start: nat, end: nat, i: nat, j: nat)
    requires Tiles(pieces, start, end) && i < j < |pieces|
    ensures pieces[i].end <= pieces[j].start
    decreases j - i
  {
    if i + 1 < j {
      TilesOrdered(pieces, start, end, i, j - 1);
    }
  }

  lemma EndsWhenWhole(pieces: seq<Piece>, end: nat, n: nat)
    requires Tiles(pieces, 0, end) && n <= |pieces|
    ensures (if n == 0 then 0 else pieces[n - 1].end) == end <==> n == |pieces|
  {
    if n + 1 < |pieces| {
      TilesOrdered(pieces, 0, end, n, |pieces| - 1);
    }
  }

  lemma KindsExclude(ab: Alphabet, text: string, p: nat, k: Kind, m: Kind)
    requires Valid(ab) && p < |text| && IsKind(ab, text, p, k) && IsKind(ab, text, p, m)
    ensures k == m
  {
  }

  /** A piece ends where the next character is of another kind, or at the end of the text. */
  lemma PieceIsLongest(ab: Alphabet, text: string, pieces: seq<Piece>, i: nat)
    requires Valid(ab) && UnitTable(ab, text, pieces) && i < |pieces|
    ensures pieces[i].end == |text| || !IsKind(ab, text, pieces[i].end, pieces[i].kind)
  {
    if i + 1 < |pieces| {
      assert IsKind(ab, text, pieces[i + 1].start, pieces[i + 1].kind);
      if IsKind(ab, text, pieces[i].end, pieces[i].kind) {
        KindsExclude(ab, text, pieces[i].end, pieces[i].kind, pieces[i + 1].kind);
      }
    }
  }

  lemma SamePiece(ab: Alphabet, text: string, a: seq<Piece>, b: seq<Piece>, i: nat)
    requires Valid(ab) && UnitTable(ab, text, a) && UnitTable(ab, text, b)
    requires i < |a| && i < |b| && a[i].start == b[i].start
    ensures a[i] == b[i]
  {
    KindsExclude(ab, text, a[i].start, a[i].kind, b[i].kind);
    PieceIsLongest(ab, text, a, i);
    PieceIsLongest(ab, text, b, i);
  }

  /** Two tables of one text are the same table. */
  lemma {:induction false} TableIsUnique(ab: Alphabet, text: string, a: seq<Piece>, b: seq<Piece>)
    requires Valid(ab) && UnitTable(ab, text, a) && UnitTable(ab, text, b)
    ensures a == b
  {
    var n: nat := 0;
    while n < |a| && n < |b|
      invariant n <= |a| && n <= |b| && forall i :: 0 <= i < n ==> a[i] == b[i]
    {
      assert n > 0 ==> a[n - 1] == b[n - 1];
      SamePiece(ab, text, a, b, n);
      n := n + 1;
    }
    assert n > 0 ==> a[n - 1] == b[n - 1];
    EndsWhenWhole(a, |text|, n);
    EndsWhenWhole(b, |text|, n);
  }

  // ---------------------------------------------------------------------
  // Words
  // ---------------------------------------------------------------------

  datatype Span = Span(start: nat, end: nat)

  predicate Inside(p: int, w: Span) {
    w.start <= p < w.end
  }

  ghost predicate InOrder(text: string, ws: seq<Span>) {
    && (forall i :: 0 <= i < |ws| ==> ws[i].start < ws[i].end <= |text|)
    && (forall i, j :: 0 <= i < j < |ws| ==> ws[i].end < ws[j].start)
  }

  /** The runs of word characters, in order, with something else between any two. */
  ghost predicate WordTable(ab: Alphabet, text: string, ws: seq<Span>) {
    && InOrder(text, ws)
    && (forall p :: 0 <= p < |text| ==> (InWord(ab, text, p) <==> exists i :: 0 <= i < |ws| && Inside(p, ws[i])))
  }

  /** The word pieces among the first `u` units. */
  ghost predicate Collected(text: string, us: seq<Piece>, ws: seq<Span>, u: nat)
    requires u <= |us|
  {
    && InOrder(text, ws)
    && (forall i :: 0 <= i < |ws| ==> Piece(Word, ws[i].start, ws[i].end) in us[..u])
    && (forall v :: 0 <= v < u && us[v].kind == Word ==> Span(us[v].start, us[v].end) in ws)
  }

  /** Something stands between a word and any later one. */
  lemma WordsApart(ab: Alphabet, text: string, us: seq<Piece>, w: Piece, u: nat)
    requires UnitTable(ab, text, us) && u < |us| && us[u].kind == Word && w.kind == Word && w in us[..u]
    ensures w.start < w.end < us[u].start
  {
    var v :| 0 <= v < u && us[..u][v] == w;
    assert us[v] == w && us[v].kind != us[v + 1].kind;
    TilesOrdered(us, 0, |text|, v + 1, u);
  }

  lemma AllWordsApart(ab: Alphabet, text: string, us: seq<Piece>, ws: seq<Span>, u: nat)
    requires UnitTable(ab, text, us) && u < |us| && us[u].kind == Word && Collected(text, us, ws, u)
    ensures forall i :: 0 <= i < |ws| ==> ws[i].end < us[u].start
  {
    forall i | 0 <= i < |ws|
      ensures ws[i].end < us[u].start
    {
      WordsApart(ab, text, us, Piece(Word, ws[i].start, ws[i].end), u);
    }
  }

  lemma CollectsWord(text: string, us: seq<Piece>, ws: seq<Span>, u: nat)
    requires u < |us| && us[u].kind == Word && us[u].start < us[u].end <= |text| && Collected(text, us, ws, u)
    requires forall i :: 0 <= i < |ws| ==> ws[i].end < us[u].start
    ensures Collected(text, us, ws + [Span(us[u].start, us[u].end)], u + 1)
  {
    var w := Span(us[u].start, us[u].end);
    assert w in ws + [w];
    assert us[..u + 1] == us[..u] + [us[u]];
  }

  /** The word pieces; word number `n` is `ws[n - 1]`. */
  method Words(ab: Alphabet, text: string) returns (ws: seq<Span>)
    requires Valid(ab)
    ensures WordTable(ab, text, ws)
  {
    var us := Units(ab, text);
    ws := [];
    for u := 0 to |us|
      invariant Collected(text, us, ws, u)
    {
      assert us[..u + 1] == us[..u] + [us[u]];
      if us[u].kind == Word {
        AllWordsApart(ab, text, us, ws, u);
        CollectsWord(text, us, ws, u);
        ws := ws + [Span(us[u].start, us[u].end)];
      }
    }
    WordsCover(ab, text, us, ws);
  }

  lemma {:induction false} WordsCover(ab: Alphabet, text: string, us: seq<Piece>, ws: seq<Span>)
    requires Valid(ab) && UnitTable(ab, text, us)
    requires Collected(text, us, ws, |us|)
    ensures forall p :: 0 <= p < |text| ==> (InWord(ab, text, p) <==> exists i :: 0 <= i < |ws| && Inside(p, ws[i]))
  {
    forall p | 0 <= p < |text|
      ensures InWord(ab, text, p) <==> exists i :: 0 <= i < |ws| && Inside(p, ws[i])
    {
      if InWord(ab, text, p) {
        var u := PieceOf(us, 0, |text|, p);
        KindsExclude(ab, text, p, Word, us[u].kind);
        assert Span(us[u].start, us[u].end) in ws;
      }
      if i :| 0 <= i < |ws| && Inside(p, ws[i]) {
        assert us[..|us|] == us;
        var u :| 0 <= u < |us| && us[u] == Piece(Word, ws[i].start, ws[i].end);
        assert IsKind(ab, text, p, us[u].kind);
      }
    }
  }

  /** Every letter lies in exactly one word. */
  lemma LetterInOneWord(ab: Alphabet, text: string, ws: seq<Span>, p: nat) returns (n: nat)
    requires WordTable(ab, text, ws) && p < |text| && ab.letter(text[p])
    ensures n < |ws| && Inside(p, ws[n]) && forall i :: 0 <= i < |ws| && Inside(p, ws[i]) ==> i == n
  {
    assert InWord(ab, text, p);
    n :| 0 <= n < |ws| && Inside(p, ws[n]);
  }

  /** What stands right before and right behind a word is not of a word. */
  lemma {:induction false} WordIsBounded(ab: Alphabet, text: string, ws: seq<Span>, n: nat)
    requires WordTable(ab, text, ws) && n < |ws|
    ensures ws[n].start > 0 ==> !InWord(ab, text, ws[n].start - 1)
    ensures ws[n].end < |text| ==> !InWord(ab, text, ws[n].end)
    ensures forall p :: ws[n].start <= p < ws[n].end ==> InWord(ab, text, p)
  {
    forall i | 0 <= i < |ws|
      ensures !Inside(ws[n].start - 1, ws[i]) && !Inside(ws[n].end, ws[i])
    {
      assert i < n || i == n || n < i;
    }
    forall p | ws[n].start <= p < ws[n].end
      ensures InWord(ab, text, p)
    {
      assert Inside(p, ws[n]);
    }
  }

  /** Word `n` of a table whose first `n` words are known starts no later than any word character not in them. */
  lemma NextWordStart(ab: Alphabet, text: string, a: seq<Span>, b: seq<Span>, n: nat)
    requires WordTable(ab, text, a) && WordTable(ab, text, b)
    requires n < |a| && n <= |b| && forall i :: 0 <= i < n ==> a[i] == b[i]
    ensures n < |b| && b[n].start <= a[n].start
  {
    assert Inside(a[n].start, a[n]) && InWord(ab, text, a[n].start);
    assert forall k :: 0 <= k < n ==> !Inside(a[n].start, b[k]);
    var i :| 0 <= i < |b| && Inside(a[n].start, b[i]);
    assert n < i ==> b[n].end < b[i].start;
  }

  lemma SameWordEnd(ab: Alphabet, text: string, a: seq<Span>, b: seq<Span>, n: nat)
    requires WordTable(ab, text, a) && WordTable(ab, text, b)
    requires n < |a| && n < |b| && a[n].start == b[n].start
    ensures a[n].end <= b[n].end
  {
    WordIsBounded(ab, text, a, n);
    WordIsBounded(ab, text, b, n);
  }

  /** Two word tables of one text are the same table. */
  lemma WordTableIsUnique(ab: Alphabet, text: string, a: seq<Span>, b: seq<Span>)
    requires WordTable(ab, text, a) && WordTable(ab, text, b)
    ensures a == b
  {
    var n := 0;
    while n < |a|
      invariant n <= |a| && n <= |b| && forall i :: 0 <= i < n ==> a[i] == b[i]
    {
      NextWordStart(ab, text, a, b, n);
      NextWordStart(ab, text, b, a, n);
      SameWordEnd(ab, text, a, b, n);
      SameWordEnd(ab, text, b, a, n);
      n := n + 1;
    }
    if n < |b| {
      NextWordStart(ab, text, b, a, n);
    }
  }

  /** A word starts with a letter and no letter touches it from outside. */
  lemma NoLetterTouches(ab: Alphabet, text: string, ws: seq<Span>, n: nat)
    requires Valid(ab) && WordTable(ab, text, ws) && n < |ws|
    ensures ab.letter(text[ws[n].start])
    ensures ws[n].start > 0 ==> !ab.letter(text[ws[n].start - 1])
    ensures ws[n].end < |text| ==> !ab.letter(text[ws[n].end])
  {
    WordIsBounded(ab, text, ws, n);
    assert InWord(ab, text, ws[n].start);
  }

  // ---------------------------------------------------------------------
  // Shown units
  // ---------------------------------------------------------------------

  datatype Shown = Shown(n: nat, start: nat, end: nat, word: Option<Span>, text: string)

  /** Where the shown unit of word `k` starts; the last one runs to the end of the text. */
  function ShownStart(text: string, ws: seq<Span>, k: nat): nat
    requires k <= |ws|
  {
    if k < |ws| then ws[k].start else |text|
  }

  function ShownUnit(text: string, ws: seq<Span>, k: nat): Shown
    requires k < |ws| && ShownStart(text, ws, k) <= ShownStart(text, ws, k + 1) <= |text|
  {
    var end := ShownStart(text, ws, k + 1);
    Shown(k + 1, ws[k].start, end, Some(ws[k]), text[ws[k].start..end])
  }

  function LeadUnits(text: string, ws: seq<Span>): seq<Shown>
    requires ShownStart(text, ws, 0) <= |text|
  {
    var end := ShownStart(text, ws, 0);
    if end > 0 then [Shown(0, 0, end, None, text[..end])] else []
  }

  function Join(shown: seq<Shown>): string {
    if shown == [] then "" else Join(shown[..|shown| - 1]) + shown[|shown| - 1].text
  }

  /** The first `k` words' units behind the unnumbered lead, if there is one. */
  ghost predicate Shows(text: string, ws: seq<Span>, out: seq<Shown>, k: nat)
    requires InOrder(text, ws) && k <= |ws|
  {
    var lead := LeadUnits(text, ws);
    && |out| == |lead| + k && out[..|lead|] == lead
    && forall m :: 0 <= m < k ==> out[|lead| + m] == ShownUnit(text, ws, m)
  }

  /** One unit per word with everything up to the next word; joined in order they give back the text. */
  method ShownUnits(ab: Alphabet, text: string) returns (out: seq<Shown>, ghost ws: seq<Span>)
    requires Valid(ab)
    ensures WordTable(ab, text, ws)
    ensures var lead := if ws == [] then |text| else ws[0].start;
            if lead == 0 then |out| == |ws| else |out| == |ws| + 1 && out[0] == Shown(0, 0, lead, None, text[..lead])
    ensures forall k :: 0 <= k < |ws| ==>
              var end := if k + 1 < |ws| then ws[k + 1].start else |text|;
              out[|out| - |ws| + k] == Shown(k + 1, ws[k].start, end, Some(ws[k]), text[ws[k].start..end])
    ensures Join(out) == text
  {
    var table := Words(ab, text);
    ws := table;
    out := LeadUnits(text, table);
    LeadJoins(text, table);
    for k := 0 to |table|
      invariant Shows(text, table, out, k)
      invariant Join(out) == text[..ShownStart(text, table, k)]
    {
      UnitJoins(text, table, out, k);
      out := out + [ShownUnit(text, table, k)];
    }
    assert text[..|text|] == text;
    ShownPlainly(text, table, out);
  }

  lemma ShownPlainly(text: string, ws: seq<Span>, out: seq<Shown>)
    requires InOrder(text, ws) && Shows(text, ws, out, |ws|)
    ensures var lead := if ws == [] then |text| else ws[0].start;
            if lead == 0 then |out| == |ws| else |out| == |ws| + 1 && out[0] == Shown(0, 0, lead, None, text[..lead])
    ensures forall k :: 0 <= k < |ws| ==>
              var end := if k + 1 < |ws| then ws[k + 1].start else |text|;
              out[|out| - |ws| + k] == Shown(k + 1, ws[k].start, end, Some(ws[k]), text[ws[k].start..end])
  {
    var lead := LeadUnits(text, ws);
    assert lead != [] ==> out[..|lead|][0] == out[0];
    forall k | 0 <= k < |ws|
      ensures var end := if k + 1 < |ws| then ws[k + 1].start else |text|;
              out[|out| - |ws| + k] == Shown(k + 1, ws[k].start, end, Some(ws[k]), text[ws[k].start..end])
    {
      assert out[|lead| + k] == ShownUnit(text, ws, k);
    }
  }

  lemma LeadJoins(text: string, ws: seq<Span>)
    requires ShownStart(text, ws, 0) <= |text|
    ensures Join(LeadUnits(text, ws)) == text[..ShownStart(text, ws, 0)]
  {
    var lead := LeadUnits(text, ws);
    if lead != [] {
      assert lead[..0] == [];
    }
  }

  lemma {:induction false} UnitJoins(text: string, ws: seq<Span>, out: seq<Shown>, k: nat)
    requires InOrder(text, ws) && k < |ws|
    requires Join(out) == text[..ShownStart(text, ws, k)]
    ensures Join(out + [ShownUnit(text, ws, k)]) == text[..ShownStart(text, ws, k + 1)]
  {
    var u := ShownUnit(text, ws, k);
    assert (out + [u])[..|out|] == out;
    assert text[..u.start] + text[u.start..u.end] == text[..u.end];
  }

  /** Shown unit `k + 1` holds word `k + 1` whole and touches no other. */
  lemma ShownHoldsItsWord(ab: Alphabet, text: string, ws: seq<Span>, k: nat, i: nat)
    requires WordTable(ab, text, ws) && k < |ws| && i < |ws|
    ensures var u := ShownUnit(text, ws, k);
            && u.start == ws[k].start && ws[k].end <= u.end
            && (ws[i].start < u.end && u.start < ws[i].end <==> i == k)
  {
    assert k + 1 < |ws| ==> ws[k].end < ws[k + 1].start;
  }
}
