/**
 Two independent readings of one anchor. The compiler turns a range of word
 numbers into a quote and its occurrence; the resolver finds a quote and an
 occurrence in the text again. Each is proved to undo the other.
 */
module Anchors {
  import opened Wrappers
  import opened SourceUnits

  // ---------------------------------------------------------------------
  // Literal matches
  // ---------------------------------------------------------------------

  predicate MatchAt(text: string, quote: string, p: nat) {
    p + |quote| <= |text| && text[p..p + |quote|] == quote
  }

  /** The text is something, then the quote, then something. */
  lemma MatchIsLiteral(text: string, quote: string, p: nat)
    ensures MatchAt(text, quote, p) <==> exists before, after :: |before| == p && text == before + (quote + after)
  {
    if MatchAt(text, quote, p) {
      assert text == text[..p] + (quote + text[p + |quote|..]);
    }
  }

  /** Matches that start before `n`. */
  function Matches(text: string, quote: string, n: nat): nat {
    if n == 0 then 0 else Matches(text, quote, n - 1) + (if MatchAt(text, quote, n - 1) then 1 else 0)
  }

  /** `p` is the start of match number `occurrence`, counted from 1. */
  predicate IsOccurrence(text: string, quote: string, occurrence: int, p: nat) {
    MatchAt(text, quote, p) && Matches(text, quote, p) + 1 == occurrence
  }

  lemma {:induction false} MatchesGrow(text: string, quote: string, m: nat, n: nat)
    requires m <= n
    ensures Matches(text, quote, m) <= Matches(text, quote, n)
    decreases n - m
  {
    if m < n {
      MatchesGrow(text, quote, m, n - 1);
    }
  }

  /** An occurrence number names at most one place. */
  lemma OccurrenceIsOne(text: string, quote: string, occurrence: int, p: nat, q: nat)
    requires IsOccurrence(text, quote, occurrence, p) && IsOccurrence(text, quote, occurrence, q)
    ensures p == q
  {
    if p < q {
      MatchesGrow(text, quote, p + 1, q);
    } else if q < p {
      MatchesGrow(text, quote, q + 1, p);
    }
  }

  /** All starts of literal matches, overlapping ones included, in order. */
  ghost predicate AllStarts(text: string, quote: string, starts: seq<nat>, upTo: nat) {
    && |starts| == Matches(text, quote, upTo)
    && forall i :: 0 <= i < |starts| ==> starts[i] < upTo && IsOccurrence(text, quote, i + 1, starts[i])
  }

  /** The first match at or after `from`. */
  method Find(text: string, quote: string, from: nat) returns (found: Option<nat>)
    ensures found.Some? ==> from <= found.value && MatchAt(text, quote, found.value)
    ensures found.Some? ==> Matches(text, quote, found.value) == Matches(text, quote, from)
    ensures found.None? ==> forall n :: from <= n ==> Matches(text, quote, n) == Matches(text, quote, from)
  {
    var p := from;
    while p + |quote| <= |text|
      invariant from <= p
      invariant Matches(text, quote, p) == Matches(text, quote, from)
    {
      if text[p..p + |quote|] == quote {
        return Some(p);
      }
      p := p + 1;
    }
    forall n | from <= n
      ensures Matches(text, quote, n) == Matches(text, quote, from)
    {
      MatchesGrow(text, quote, from, n);
      MatchesGrow(text, quote, n, if n < p then p else n);
      MatchesStop(text, quote, p, if n < p then p else n);
    }
    return None;
  }

  lemma {:induction false} MatchesStop(text: string, quote: string, from: nat, n: nat)
    requires from + |quote| > |text| && from <= n
    ensures Matches(text, quote, n) == Matches(text, quote, from)
    decreases n
  {
    if from < n {
      MatchesStop(text, quote, from, n - 1);
    }
  }

  /** The loop shared by the compiler, the resolver and the measuring tool. */
  method Starts(text: string, quote: string) returns (starts: seq<nat>)
    ensures AllStarts(text, quote, starts, |text| + 1)
  {
    starts := [];
    var pos: nat := 0;
    while true
      invariant pos <= |text| + 1
      invariant AllStarts(text, quote, starts, pos)
      decreases |text| + 1 - pos
    {
      var found := Find(text, quote, pos);
      if found.None? {
        break;
      }
      starts := starts + [found.value];
      pos := found.value + 1;
    }
  }

  /** The rank of this start among all literal matches. */
  method OccurrenceOf(text: string, quote: string, start: nat) returns (occurrence: nat)
    requires MatchAt(text, quote, start)
    ensures IsOccurrence(text, quote, occurrence, start)
  {
    var starts := Starts(text, quote);
    StartIsListed(text, quote, starts, start);
    var i := 0;
    while starts[i] != start
      invariant i < |starts| && start in starts[i..]
      decreases |starts| - i
    {
      i := i + 1;
    }
    return i + 1;
  }

  lemma StartIsListed(text: string, quote: string, starts: seq<nat>, p: nat)
    requires AllStarts(text, quote, starts, |text| + 1) && MatchAt(text, quote, p)
    ensures p in starts
  {
    var n := Matches(text, quote, p);
    MatchesGrow(text, quote, p + 1, |text| + 1);
    assert IsOccurrence(text, quote, n + 1, starts[n]);
    OccurrenceIsOne(text, quote, n + 1, p, starts[n]);
  }

  // ---------------------------------------------------------------------
  // From word numbers to a quote
  // ---------------------------------------------------------------------

  datatype Source = Source(id: string, text: string)

  /** An anchor as it arrives; a field that is not an integer is absent. */
  datatype RawAnchor = RawAnchor(sourceId: string, first: Option<int>, last: Option<int>)

  datatype Compiled = Compiled(quote: string, occurrence: nat, start: nat, end: nat, first: nat, last: nat)

  datatype UnitError = WrongSource | BadRange

  predicate InRange(ws: seq<Span>, first: int, last: int) {
    1 <= first <= last <= |ws|
  }

  /** The quote from the first word's start to the last word's end, with its true occurrence. */
  ghost predicate Compiles(text: string, ws: seq<Span>, first: int, last: int, c: Compiled) {
    && InRange(ws, first, last) && c.first == first && c.last == last
    && c.start == ws[first - 1].start && c.end == ws[last - 1].end && c.start <= c.end <= |text|
    && c.quote == text[c.start..c.end] && IsOccurrence(text, c.quote, c.occurrence, c.start)
  }

  lemma RangeSpans(text: string, ws: seq<Span>, first: int, last: int)
    requires InOrder(text, ws) && InRange(ws, first, last)
    ensures ws[first - 1].start < ws[last - 1].end <= |text|
  {
    assert first < last ==> ws[first - 1].end < ws[last - 1].start;
  }

  method CompileAnchor(ab: Alphabet, source: Source, anchor: RawAnchor, table: Option<seq<Span>>)
    returns (r: Result<Compiled, UnitError>, ghost ws: seq<Span>)
    requires Valid(ab)
    requires table.Some? ==> WordTable(ab, source.text, table.value)
    ensures WordTable(ab, source.text, ws)
    ensures r == Failure(WrongSource) <==> anchor.sourceId != source.id
    ensures r.Success? <==> && anchor.sourceId == source.id && anchor.first.Some? && anchor.last.Some?
                            && 1 <= anchor.first.value && anchor.first.value <= anchor.last.value
                            && anchor.last.value <= |ws|
    ensures r.Success? ==> Compiles(source.text, ws, anchor.first.value, anchor.last.value, r.value)
  {
    var known;
    if table.Some? {
      known := table.value;
    } else {
      known := Words(ab, source.text);
    }
    ws := known;
    if anchor.sourceId != source.id {
      return Failure(WrongSource), ws;
    }
    if anchor.first.None? || anchor.last.None? {
      return Failure(BadRange), ws;
    }
    var first, last := anchor.first.value, anchor.last.value;
    if !(1 <= first <= last <= |known|) {
      return Failure(BadRange), ws;
    }
    RangeSpans(source.text, ws, first, last);
    var start, end := known[first - 1].start, known[last - 1].end;
    var quote := source.text[start..end];
    var occurrence := OccurrenceOf(source.text, quote, start);
    return Success(Compiled(quote, occurrence, start, end, first, last)), ws;
  }

  // ---------------------------------------------------------------------
  // From a quote to its place
  // ---------------------------------------------------------------------

  datatype QuoteAnchor = QuoteAnchor(sourceId: string, quote: string, occurrence: nat)

  datatype AnchorError = UnknownSource | BlankText | NoSuchOccurrence | BoundaryInsideWord

  /** A Hebrew letter, a Hebrew combining character, or a quote mark between two Hebrew letters. */
  predicate HebrewWordCharacter(ab: Alphabet, text: string, index: int) {
    && 0 <= index < |text|
    && var c := text[index];
       || HebrewLetter(c) || (ab.combining(c) && ab.hebrewName(c))
       || (Quote(c) && 0 < index < |text| - 1 && HebrewLetter(text[index - 1]) && HebrewLetter(text[index + 1]))
  }

  /** The rule for mentions of people: the quote may not begin or end inside a Hebrew word. */
  predicate WholeWords(ab: Alphabet, text: string, start: nat, end: nat)
    requires start < end <= |text|
  {
    && !HebrewWordCharacter(ab, text, start - 1)
    && !HebrewWordCharacter(ab, text, end)
    && !ab.combining(text[start])
  }

  ghost predicate NotBlank(ab: Alphabet, quote: string) {
    exists i :: 0 <= i < |quote| && !ab.space(quote[i])
  }

  method IsNotBlank(ab: Alphabet, quote: string) returns (b: bool)
    ensures b <==> NotBlank(ab, quote)
  {
    for i := 0 to |quote|
      invariant forall k :: 0 <= k < i ==> ab.space(quote[k])
    {
      if !ab.space(quote[i]) {
        return true;
      }
    }
    return false;
  }

  /** The resolver accepts an anchor at `span`. */
  ghost predicate Resolves(ab: Alphabet, text: string, quote: string, occurrence: nat, mention: bool, span: Span) {
    && NotBlank(ab, quote) && IsOccurrence(text, quote, occurrence, span.start) && span.end == span.start + |quote|
    && (mention ==> span.start < span.end && WholeWords(ab, text, span.start, span.end))
  }

  ghost predicate AlefToTavAt(text: string, p: int) {
    0 <= p < |text| && '\U{05D0}' <= text[p] <= '\U{05EA}'
  }

  /** A quote mark with alef to tav on both sides, as inside an abbreviation. */
  ghost predicate JoiningMarkAt(text: string, p: int) {
    && AlefToTavAt(text, p - 1) && AlefToTavAt(text, p + 1)
    && (text[p] == '"' || text[p] == '\'' || text[p] == '\U{05F3}' || text[p] == '\U{05F4}')
  }

  ghost predicate HebrewCombining(ab: Alphabet, text: string, p: int) {
    0 <= p < |text| && ab.combining(text[p]) && ab.hebrewName(text[p])
  }

  /** What makes up a Hebrew word: letters, the points on them, and the marks inside abbreviations. */
  ghost predicate HebrewAt(ab: Alphabet, text: string, p: int) {
    AlefToTavAt(text, p) || HebrewCombining(ab, text, p) || JoiningMarkAt(text, p)
  }

  /** The span stops short of something Hebrew right outside it, or begins on a combining character. */
  ghost predicate StopsShort(ab: Alphabet, text: string, start: nat, end: nat) {
    HebrewAt(ab, text, start - 1) || HebrewAt(ab, text, end) || (start < |text| && ab.combining(text[start]))
  }

  lemma StopsShortIsRefused(ab: Alphabet, text: string, start: nat, end: nat)
    requires start < end <= |text|
    ensures StopsShort(ab, text, start, end) <==> !WholeWords(ab, text, start, end)
  {
  }

  method Resolve(ab: Alphabet, sources: map<string, string>, a: QuoteAnchor, mention: bool)
    returns (r: Result<Span, AnchorError>)
    requires a.occurrence >= 1
    ensures r == Failure(UnknownSource) <==> a.sourceId !in sources
    ensures r == Failure(BlankText) <==> a.sourceId in sources && !NotBlank(ab, a.quote)
    ensures r == Failure(NoSuchOccurrence) <==>
      a.sourceId in sources && NotBlank(ab, a.quote) && forall p: nat :: !IsOccurrence(sources[a.sourceId], a.quote, a.occurrence, p)
    ensures r == Failure(BoundaryInsideWord) <==>
      a.sourceId in sources && NotBlank(ab, a.quote) && mention && exists p: nat ::
        IsOccurrence(sources[a.sourceId], a.quote, a.occurrence, p) && StopsShort(ab, sources[a.sourceId], p, p + |a.quote|)
    ensures r.Success? ==> Resolves(ab, sources[a.sourceId], a.quote, a.occurrence, mention, r.value)
    ensures a.sourceId in sources && r.Failure? ==>
              forall span :: !Resolves(ab, sources[a.sourceId], a.quote, a.occurrence, mention, span)
  {
    if a.sourceId !in sources {
      return Failure(UnknownSource);
    }
    var text := sources[a.sourceId];
    var notBlank := IsNotBlank(ab, a.quote);
    if !notBlank {
      return Failure(BlankText);
    }
    var starts := Starts(text, a.quote);
    if !(a.occurrence <= |starts|) {
      forall p: nat | IsOccurrence(text, a.quote, a.occurrence, p)
        ensures false
      {
        MatchesGrow(text, a.quote, p + 1, |text| + 1);
      }
      return Failure(NoSuchOccurrence);
    }
    var start := starts[a.occurrence - 1];
    var end := start + |a.quote|;
    assert IsOccurrence(text, a.quote, a.occurrence, start);
    forall p: nat | IsOccurrence(text, a.quote, a.occurrence, p)
      ensures p == start
    {
      OccurrenceIsOne(text, a.quote, a.occurrence, p, start);
    }
    StopsShortIsRefused(ab, text, start, end);
    if mention {
      if !WholeWords(ab, text, start, end) {
        return Failure(BoundaryInsideWord);
      }
    }
    return Success(Span(start, end));
  }

  /** An accepted mention holds every stretch of Hebrew letters, points and joining marks whole, or touches none of it. */
  lemma MentionsHoldWholeWords(ab: Alphabet, text: string, quote: string, occurrence: nat, span: Span, from: nat, to: nat)
    requires Resolves(ab, text, quote, occurrence, true, span)
    requires from < to <= |text| && forall p :: from <= p < to ==> HebrewAt(ab, text, p)
    ensures (span.start <= from && to <= span.end) || to <= span.start || span.end <= from
  {
    StopsShortIsRefused(ab, text, span.start, span.end);
    assert !HebrewAt(ab, text, span.start - 1) && !HebrewAt(ab, text, span.end);
  }

  // ---------------------------------------------------------------------
  // From a quote to word numbers
  // ---------------------------------------------------------------------

  datatype Answer =
    | Exact(first: nat, last: nat)
    | Widened(first: nat, last: nat)
    | NotThere
    | MarksOnly

  ghost predicate IsExact(ws: seq<Span>, a: nat, b: nat, first: int, last: int) {
    InRange(ws, first, last) && ws[first - 1].start == a && ws[last - 1].end == b
  }

  /** Words `first` to `last` are all the words that share a character with `a` to `b`, and together they cover it. */
  ghost predicate IsCover(ws: seq<Span>, a: nat, b: nat, first: int, last: int) {
    && InRange(ws, first, last) && ws[first - 1].start <= a && b <= ws[last - 1].end
    && forall i :: 0 <= i < |ws| ==> (ws[i].start < b && a < ws[i].end <==> first - 1 <= i < last)
  }

  /** What the measuring tool may answer for a quote found at `a` to `b`. */
  ghost predicate Measures(ws: seq<Span>, a: nat, b: nat, answer: Answer) {
    match answer
    case Exact(first, last) => IsExact(ws, a, b, first, last)
    case Widened(first, last) =>
      && (forall f, l :: !IsExact(ws, a, b, f, l)) && IsCover(ws, a, b, first, last)
    case MarksOnly =>
      forall f, l :: !IsExact(ws, a, b, f, l) && !IsCover(ws, a, b, f, l)
    case NotThere => false
  }

  ghost predicate UnitsOf(text: string, ws: seq<Span>, quote: string, occurrence: int, answer: Answer) {
    if answer == NotThere then forall p: nat :: !IsOccurrence(text, quote, occurrence, p)
    else exists a: nat :: MeasuresAt(text, ws, quote, occurrence, answer, a)
  }

  ghost predicate MeasuresAt(text: string, ws: seq<Span>, quote: string, occurrence: int, answer: Answer, a: nat) {
    IsOccurrence(text, quote, occurrence, a) && Measures(ws, a, a + |quote|, answer)
  }

  /** The word that starts at `a`, as an index. */
  method StartingAt(ws: seq<Span>, a: nat) returns (i: nat)
    ensures i <= |ws| && (i < |ws| ==> ws[i].start == a)
    ensures forall k :: 0 <= k < i ==> ws[k].start != a
  {
    i := 0;
    while i < |ws| && ws[i].start != a
      invariant i <= |ws| && forall k :: 0 <= k < i ==> ws[k].start != a
    {
      i := i + 1;
    }
  }

  method EndingAt(ws: seq<Span>, b: nat) returns (i: nat)
    ensures i <= |ws| && (i < |ws| ==> ws[i].end == b)
    ensures forall k :: 0 <= k < i ==> ws[k].end != b
  {
    i := 0;
    while i < |ws| && ws[i].end != b
      invariant i <= |ws| && forall k :: 0 <= k < i ==> ws[k].end != b
    {
      i := i + 1;
    }
  }

  predicate Meets(w: Span, a: nat, b: nat) {
    w.start < b && a < w.end
  }

  /** The word numbers that share a character with `a` to `b`. */
  method MeetingWords(ws: seq<Span>, a: nat, b: nat) returns (inside: seq<nat>)
    requires forall i, j :: 0 <= i < j < |ws| ==> ws[i].end < ws[j].start
    requires forall i :: 0 <= i < |ws| ==> ws[i].start < ws[i].end
    ensures forall i :: 0 <= i < |ws| ==>
              (Meets(ws[i], a, b) <==> inside != [] && inside[0] <= i + 1 <= inside[|inside| - 1])
    ensures inside != [] ==> 1 <= inside[0] <= inside[|inside| - 1] <= |ws|
  {
    inside := [];
    for i := 0 to |ws|
      invariant inside != [] ==> 1 <= inside[0] <= inside[|inside| - 1] <= i
      invariant forall k :: 0 <= k < i ==>
                  (Meets(ws[k], a, b) <==> inside != [] && inside[0] <= k + 1 <= inside[|inside| - 1])
    {
      if Meets(ws[i], a, b) {
        if inside != [] {
          MeetingIsConvex(ws, a, b, inside[0] - 1, i);
        }
        inside := inside + [i + 1];
      }
    }
  }

  lemma MeetingIsConvex(ws: seq<Span>, a: nat, b: nat, i: nat, j: nat)
    requires forall i, j :: 0 <= i < j < |ws| ==> ws[i].end < ws[j].start
    requires forall i :: 0 <= i < |ws| ==> ws[i].start < ws[i].end
    requires i <= j < |ws| && Meets(ws[i], a, b) && Meets(ws[j], a, b)
    ensures forall k :: i <= k <= j ==> Meets(ws[k], a, b)
  {
    forall k | i <= k <= j
      ensures Meets(ws[k], a, b)
    {
      assert i < k ==> ws[i].end < ws[k].start;
      assert k < j ==> ws[k].end < ws[j].start;
    }
  }

  method ToUnits(ab: Alphabet, text: string, quote: string, occurrence: int)
    returns (answer: Answer)
    requires Valid(ab)
    ensures forall ws :: WordTable(ab, text, ws) ==> UnitsOf(text, ws, quote, occurrence, answer)
  {
    var table := Words(ab, text);
    forall ws | WordTable(ab, text, ws)
      ensures ws == table
    {
      WordTableIsUnique(ab, text, ws, table);
    }
    var starts := Starts(text, quote);
    if !(1 <= occurrence <= |starts|) {
      forall p: nat | IsOccurrence(text, quote, occurrence, p)
        ensures false
      {
        MatchesGrow(text, quote, p + 1, |text| + 1);
      }
      return NotThere;
    }
    var a := starts[occurrence - 1];
    var b := a + |quote|;
    var first := StartingAt(table, a);
    var last := EndingAt(table, b);
    if first < |table| && last < |table| && first <= last {
      assert MeasuresAt(text, table, quote, occurrence, Exact(first + 1, last + 1), a);
      return Exact(first + 1, last + 1);
    }
    NoExact(text, table, a, b, first, last);
    var inside := MeetingWords(table, a, b);
    if inside != [] && table[inside[0] - 1].start <= a && b <= table[inside[|inside| - 1] - 1].end {
      assert MeasuresAt(text, table, quote, occurrence, Widened(inside[0], inside[|inside| - 1]), a);
      return Widened(inside[0], inside[|inside| - 1]);
    }
    NoCover(table, a, b, inside);
    assert MeasuresAt(text, table, quote, occurrence, MarksOnly, a);
    return MarksOnly;
  }

  lemma SameStart(text: string, ws: seq<Span>, i: nat, j: nat)
    requires InOrder(text, ws) && i < |ws| && j < |ws| && ws[i].start == ws[j].start
    ensures i == j
  {
  }

  lemma SameEnd(text: string, ws: seq<Span>, i: nat, j: nat)
    requires InOrder(text, ws) && i < |ws| && j < |ws| && ws[i].end == ws[j].end
    ensures i == j
  {
  }

  lemma ExactIsFound(text: string, ws: seq<Span>, a: nat, b: nat, first: nat, last: nat, f: int, l: int)
    requires InOrder(text, ws) && first <= |ws| && last <= |ws|
    requires first < |ws| ==> ws[first].start == a
    requires last < |ws| ==> ws[last].end == b
    requires forall k :: 0 <= k < first ==> ws[k].start != a
    requires forall k :: 0 <= k < last ==> ws[k].end != b
    requires IsExact(ws, a, b, f, l)
    ensures first == f - 1 && last == l - 1
  {
    SameStart(text, ws, first, f - 1);
    SameEnd(text, ws, last, l - 1);
  }

  lemma NoExact(text: string, ws: seq<Span>, a: nat, b: nat, first: nat, last: nat)
    requires InOrder(text, ws) && first <= |ws| && last <= |ws|
    requires first < |ws| ==> ws[first].start == a
    requires last < |ws| ==> ws[last].end == b
    requires forall k :: 0 <= k < first ==> ws[k].start != a
    requires forall k :: 0 <= k < last ==> ws[k].end != b
    requires !(first < |ws| && last < |ws| && first <= last)
    ensures forall f, l :: !IsExact(ws, a, b, f, l)
  {
    forall f, l | IsExact(ws, a, b, f, l)
      ensures false
    {
      ExactIsFound(text, ws, a, b, first, last, f, l);
    }
  }

  lemma CoverIsInside(ws: seq<Span>, a: nat, b: nat, inside: seq<nat>, f: int, l: int)
    requires forall i :: 0 <= i < |ws| ==>
               (Meets(ws[i], a, b) <==> inside != [] && inside[0] <= i + 1 <= inside[|inside| - 1])
    requires inside != [] ==> 1 <= inside[0] <= inside[|inside| - 1] <= |ws|
    requires IsCover(ws, a, b, f, l)
    ensures inside != [] && inside[0] == f && inside[|inside| - 1] == l
  {
    assert Meets(ws[f - 1], a, b) && Meets(ws[l - 1], a, b);
    assert Meets(ws[inside[0] - 1], a, b) && Meets(ws[inside[|inside| - 1] - 1], a, b);
  }

  lemma NoCover(ws: seq<Span>, a: nat, b: nat, inside: seq<nat>)
    requires forall i :: 0 <= i < |ws| ==>
               (Meets(ws[i], a, b) <==> inside != [] && inside[0] <= i + 1 <= inside[|inside| - 1])
    requires inside != [] ==> 1 <= inside[0] <= inside[|inside| - 1] <= |ws|
    requires inside != [] ==> !(ws[inside[0] - 1].start <= a && b <= ws[inside[|inside| - 1] - 1].end)
    ensures forall f, l :: !IsCover(ws, a, b, f, l)
  {
    forall f, l | IsCover(ws, a, b, f, l)
      ensures false
    {
      CoverIsInside(ws, a, b, inside, f, l);
    }
  }

  // ---------------------------------------------------------------------
  // The two readings agree
  // ---------------------------------------------------------------------

  lemma CompiledIsFound(ab: Alphabet, text: string, ws: seq<Span>, first: int, last: int, c: Compiled)
    requires Valid(ab) && WordTable(ab, text, ws) && Compiles(text, ws, first, last, c)
    ensures c.start < c.end && c.start + |c.quote| == c.end && NotBlank(ab, c.quote)
  {
    RangeSpans(text, ws, first, last);
    NoLetterTouches(ab, text, ws, first - 1);
    assert !ab.space(c.quote[0]);
  }

  /** The resolver finds a compiled quote again at exactly the compiled place. */
  lemma ResolverUndoesCompiler(ab: Alphabet, text: string, ws: seq<Span>, first: int, last: int, c: Compiled)
    requires Valid(ab) && WordTable(ab, text, ws) && Compiles(text, ws, first, last, c)
    ensures c.occurrence >= 1 && Resolves(ab, text, c.quote, c.occurrence, false, Span(c.start, c.end))
    ensures forall span :: Resolves(ab, text, c.quote, c.occurrence, false, span) ==> span == Span(c.start, c.end)
  {
    CompiledIsFound(ab, text, ws, first, last, c);
    forall span | Resolves(ab, text, c.quote, c.occurrence, false, span)
      ensures span == Span(c.start, c.end)
    {
      OccurrenceIsOne(text, c.quote, c.occurrence, span.start, c.start);
    }
  }

  lemma ExactIsOne(text: string, ws: seq<Span>, a: nat, b: nat, f: int, l: int, g: int, m: int)
    requires InOrder(text, ws) && IsExact(ws, a, b, f, l) && IsExact(ws, a, b, g, m)
    ensures f == g && l == m
  {
    SameStart(text, ws, f - 1, g - 1);
    SameEnd(text, ws, l - 1, m - 1);
  }

  lemma CompiledIsExact(text: string, ws: seq<Span>, first: int, last: int, c: Compiled, answer: Answer)
    requires InOrder(text, ws) && Compiles(text, ws, first, last, c)
    ensures c.start + |c.quote| == c.end
    ensures Measures(ws, c.start, c.end, answer) <==> answer == Exact(first, last)
  {
    assert IsExact(ws, c.start, c.end, first, last);
    if answer.Exact? && IsExact(ws, c.start, c.end, answer.first, answer.last) {
      ExactIsOne(text, ws, c.start, c.end, first, last, answer.first, answer.last);
    }
  }

  lemma UnitsFindCompiled(text: string, ws: seq<Span>, first: int, last: int, c: Compiled)
    requires InOrder(text, ws) && Compiles(text, ws, first, last, c)
    ensures UnitsOf(text, ws, c.quote, c.occurrence, Exact(first, last))
  {
    CompiledIsExact(text, ws, first, last, c, Exact(first, last));
    assert MeasuresAt(text, ws, c.quote, c.occurrence, Exact(first, last), c.start);
  }

  lemma MeasuredIsExact(text: string, ws: seq<Span>, first: int, last: int, c: Compiled, answer: Answer, a: nat)
    requires InOrder(text, ws) && Compiles(text, ws, first, last, c)
    requires MeasuresAt(text, ws, c.quote, c.occurrence, answer, a)
    ensures answer == Exact(first, last)
  {
    OccurrenceIsOne(text, c.quote, c.occurrence, a, c.start);
    CompiledIsExact(text, ws, first, last, c, answer);
  }

  lemma UnitsFindOnlyCompiled(text: string, ws: seq<Span>, first: int, last: int, c: Compiled, answer: Answer)
    requires InOrder(text, ws) && Compiles(text, ws, first, last, c)
    requires UnitsOf(text, ws, c.quote, c.occurrence, answer)
    ensures answer == Exact(first, last)
  {
    assert IsOccurrence(text, c.quote, c.occurrence, c.start);
    if answer != NotThere {
      var a: nat :| MeasuresAt(text, ws, c.quote, c.occurrence, answer, a);
      MeasuredIsExact(text, ws, first, last, c, answer, a);
    }
  }

  /** Measuring a compiled quote gives back the same range, unwidened, and nothing else. */
  lemma UnitsUndoCompiler(text: string, ws: seq<Span>, first: int, last: int, c: Compiled, answer: Answer)
    requires InOrder(text, ws) && Compiles(text, ws, first, last, c)
    ensures UnitsOf(text, ws, c.quote, c.occurrence, answer) <==> answer == Exact(first, last)
  {
    if UnitsOf(text, ws, c.quote, c.occurrence, answer) {
      UnitsFindOnlyCompiled(text, ws, first, last, c, answer);
    }
    UnitsFindCompiled(text, ws, first, last, c);
  }

  /** An unwidened answer compiles back to the very quote and occurrence that were measured. */
  lemma CompilerUndoesUnits(text: string, ws: seq<Span>, quote: string, occurrence: int, first: nat, last: nat)
    returns (c: Compiled)
    requires InOrder(text, ws) && UnitsOf(text, ws, quote, occurrence, Exact(first, last))
    ensures c.quote == quote && c.occurrence == occurrence && Compiles(text, ws, first, last, c)
    ensures forall d :: Compiles(text, ws, first, last, d) ==> d == c
  {
    var a: nat :| MeasuresAt(text, ws, quote, occurrence, Exact(first, last), a);
    c := Compiled(quote, occurrence, a, a + |quote|, first, last);
  }

  /**
   Two ranges compile to the same quote and occurrence exactly when they are the same
   range, so duplicates stay duplicates and nothing else becomes one.
   */
  lemma CompilationIsInjective(text: string, ws: seq<Span>,
                               first: int, last: int, c: Compiled, first': int, last': int, d: Compiled)
    requires InOrder(text, ws) && Compiles(text, ws, first, last, c) && Compiles(text, ws, first', last', d)
    ensures c.quote == d.quote && c.occurrence == d.occurrence <==> first == first' && last == last'
  {
    if c.quote == d.quote && c.occurrence == d.occurrence {
      OccurrenceIsOne(text, c.quote, c.occurrence, c.start, d.start);
      ExactIsOne(text, ws, c.start, c.end, first, last, first', last');
    }
  }

  // ---------------------------------------------------------------------
  // The whole-word rule
  // ---------------------------------------------------------------------

  /** Next to a word the resolver's rule can only object to a Hebrew combining character. */
  lemma OnlyCombiningObjects(ab: Alphabet, text: string, ws: seq<Span>, n: nat)
    requires Valid(ab) && WordTable(ab, text, ws) && n < |ws|
    ensures HebrewWordCharacter(ab, text, ws[n].start - 1) <==> HebrewCombining(ab, text, ws[n].start - 1)
    ensures HebrewWordCharacter(ab, text, ws[n].end) <==> HebrewCombining(ab, text, ws[n].end)
  {
    NoLetterTouches(ab, text, ws, n);
    WordIsBounded(ab, text, ws, n);
    var before, after := ws[n].start - 1, ws[n].end;
    assert InWord(ab, text, after - 1);
    if before > 0 && Quote(text[before]) {
      assert !InWord(ab, text, before - 1);
    }
  }

  lemma StartsWithoutCombining(ab: Alphabet, text: string, ws: seq<Span>, n: nat)
    requires Valid(ab) && WordTable(ab, text, ws) && n < |ws|
    ensures !ab.combining(text[ws[n].start])
  {
    NoLetterTouches(ab, text, ws, n);
  }

  lemma SpanRule(ab: Alphabet, text: string, ws: seq<Span>, i: nat, j: nat)
    requires Valid(ab) && WordTable(ab, text, ws) && i < |ws| && j < |ws| && ws[i].start < ws[j].end
    ensures WholeWords(ab, text, ws[i].start, ws[j].end)
       <==> !HebrewCombining(ab, text, ws[i].start - 1) && !HebrewCombining(ab, text, ws[j].end)
  {
    StartsWithoutCombining(ab, text, ws, i);
    OnlyCombiningObjects(ab, text, ws, i);
    OnlyCombiningObjects(ab, text, ws, j);
  }

  /**
   A compiled range passes the whole-word rule exactly when no Hebrew combining character
   stands right before it or right behind it.
   */
  lemma WholeWordRule(ab: Alphabet, text: string, ws: seq<Span>, first: int, last: int, c: Compiled)
    requires Valid(ab) && WordTable(ab, text, ws) && Compiles(text, ws, first, last, c)
    ensures c.start < c.end
    ensures WholeWords(ab, text, c.start, c.end)
       <==> !HebrewCombining(ab, text, c.start - 1) && !HebrewCombining(ab, text, c.end)
  {
    CompiledIsFound(ab, text, ws, first, last, c);
    SpanRule(ab, text, ws, first - 1, last - 1);
  }

  /** Every mark directly follows a letter or a mark. */
  ghost predicate MarksFollow(ab: Alphabet, text: string) {
    forall p :: 0 <= p < |text| && ab.mark(text[p]) ==> p > 0 && (ab.letter(text[p - 1]) || ab.mark(text[p - 1]))
  }

  lemma {:induction false} FollowingMarkIsInWord(ab: Alphabet, text: string, p: nat)
    requires MarksFollow(ab, text) && p < |text| && (ab.letter(text[p]) || ab.mark(text[p]))
    ensures InWord(ab, text, p)
  {
    if !ab.letter(text[p]) {
      FollowingMarkIsInWord(ab, text, p - 1);
    }
  }

  lemma NoMarkTouches(ab: Alphabet, text: string, ws: seq<Span>, n: nat)
    requires Valid(ab) && WordTable(ab, text, ws) && n < |ws| && MarksFollow(ab, text)
    ensures !HebrewCombining(ab, text, ws[n].start - 1) && !HebrewCombining(ab, text, ws[n].end)
  {
    WordIsBounded(ab, text, ws, n);
    if HebrewCombining(ab, text, ws[n].start - 1) {
      FollowingMarkIsInWord(ab, text, ws[n].start - 1);
    }
    if HebrewCombining(ab, text, ws[n].end) {
      FollowingMarkIsInWord(ab, text, ws[n].end);
    }
  }

  lemma WholeWordsWhenMarksFollow(ab: Alphabet, text: string, ws: seq<Span>, first: int, last: int, c: Compiled)
    requires Valid(ab) && WordTable(ab, text, ws) && Compiles(text, ws, first, last, c) && MarksFollow(ab, text)
    ensures c.start < c.end && WholeWords(ab, text, c.start, c.end)
  {
    WholeWordRule(ab, text, ws, first, last, c);
    NoMarkTouches(ab, text, ws, first - 1);
    NoMarkTouches(ab, text, ws, last - 1);
  }

  /** In a text whose marks all follow letters or marks, every compiled range resolves as a mention too. */
  lemma MentionsResolveWhenMarksFollow(ab: Alphabet, text: string, ws: seq<Span>, first: int, last: int, c: Compiled)
    requires Valid(ab) && WordTable(ab, text, ws) && Compiles(text, ws, first, last, c) && MarksFollow(ab, text)
    ensures Resolves(ab, text, c.quote, c.occurrence, true, Span(c.start, c.end))
  {
    CompiledIsFound(ab, text, ws, first, last, c);
    WholeWordsWhenMarksFollow(ab, text, ws, first, last, c);
  }
}
