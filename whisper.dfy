/** `src/whisper/whisper.rs`: OpenAI Whisper output (segments with the
    model's reference values, optional word level times), its offsetting,
    joining and no-speech filtering, and its conversion to an EAF document
    with the tiers `segments`, `words` and one tier per reference value.
    Times and reference values are carried as reals; reading and writing
    the JSON files are left out. */
module Whisper {
  import opened Wrappers
  import opened Strings
  import opened Decimal
  import opened Paths
  import opened Clips
  import opened EafEmit
  import opened JsonPaths

  /** `WhisperWord`. */
  datatype Word = Word(end: real, probability: real, start: real, word: string)

  /** `WhisperSegment`. */
  datatype Segment = Segment(avgLogprob: real, compressionRatio: real, end: real, id: nat, noSpeechProb: real,
                             seek: nat, start: real, temperature: real, text: string, tokens: seq<nat>,
                             words: seq<Word>)

  /** `WhisperJson`: language and full text are optional. */
  datatype Json = Json(language: Option<string>, segments: seq<Segment>, text: Option<string>)

  /** `WhisperWord::offset`. */
  function WordOffset(w: Word, offset: real): Word {
    w.(start := w.start + offset, end := w.end + offset)
  }

  /** `WhisperSegment::offset`. */
  function SegmentOffset(s: Segment, offset: real): Segment {
    s.(start := s.start + offset, end := s.end + offset,
       words := seq(|s.words|, i requires 0 <= i < |s.words| => WordOffset(s.words[i], offset)))
  }

  /** `WhisperJson::offset`. */
  function Offset(j: Json, offset: real): (r: Json)
    ensures |r.segments| == |j.segments|
    ensures forall i :: 0 <= i < |j.segments| ==>
              r.segments[i].start == j.segments[i].start + offset && r.segments[i].end == j.segments[i].end + offset
  {
    j.(segments := seq(|j.segments|, i requires 0 <= i < |j.segments| => SegmentOffset(j.segments[i], offset)))
  }

  /** Offsetting keeps the language, the text and the number of segments
      and words; every segment and word keeps its values and only its
      times move, all by the same amount. */
  lemma {:induction false} OffsetKeepsStructure(j: Json, offset: real)
    ensures var r := Offset(j, offset);
      r.language == j.language && r.text == j.text && |r.segments| == |j.segments|
      && forall i :: 0 <= i < |j.segments| ==>
           var s, t := j.segments[i], r.segments[i];
           t == s.(start := t.start, end := t.end, words := t.words)
           && t.start == s.start + offset && t.end == s.end + offset
           && |t.words| == |s.words|
           && forall k :: 0 <= k < |s.words| ==>
                t.words[k] == s.words[k].(start := t.words[k].start, end := t.words[k].end)
                && t.words[k].start == s.words[k].start + offset && t.words[k].end == s.words[k].end + offset
  {
  }

  /** Offsetting back by the same amount restores the original. */
  lemma {:induction false} OffsetInverse(j: Json, offset: real)
    ensures Offset(Offset(j, offset), -offset) == j
  {
    var r := Offset(Offset(j, offset), -offset);
    forall i | 0 <= i < |j.segments| ensures r.segments[i] == j.segments[i] {
      var s := j.segments[i];
      var t := r.segments[i];
      assert |t.words| == |s.words|;
      forall k | 0 <= k < |s.words| ensures t.words[k] == s.words[k] {
      }
      assert t.words == s.words;
    }
    assert r.segments == j.segments;
  }

  /** The texts the others contribute to a join: each one's text when it
      has one, in order. */
  function Texts(js: seq<Json>): string {
    if |js| == 0 then "" else Texts(js[..|js| - 1]) + js[|js| - 1].text.GetOr("")
  }

  /** The segments of several outputs, concatenated in order. */
  function AllSegments(js: seq<Json>): seq<Segment> {
    if |js| == 0 then [] else AllSegments(js[..|js| - 1]) + js[|js| - 1].segments
  }

  /** What `join` returns: with a text on `first`, its text and segments
      followed by those of the others; without one, `first`'s segments
      alone and the empty text. */
  function Joined(first: Json, others: seq<Json>): (r: Json)
    ensures r.language == first.language && r.text.Some?
    ensures first.text.Some? ==> |r.text.value| >= |first.text.value| && r.text.value[..|first.text.value|] == first.text.value
    ensures |r.segments| >= |first.segments| && r.segments[..|first.segments|] == first.segments
  {
    match first.text
    case Some(t) => first.(segments := first.segments + AllSegments(others), text := Some(t + Texts(others)))
    case None => first.(text := Some(""))
  }

  /** `WhisperJson::join`: the others are only visited, and their segments
      moved out, when `first` has a text. */
  method Join(first: Json, others: array<Json>) returns (r: Json)
    modifies others
    ensures r == Joined(first, old(others[..]))
    ensures first.text.Some? ==> forall i :: 0 <= i < others.Length ==> others[i] == old(others[i]).(segments := [])
    ensures first.text.None? ==> others[..] == old(others[..])
  {
    var text := "";
    var segments := first.segments;
    ghost var before := others[..];
    if first.text.Some? {
      text := first.text.value;
      for i := 0 to others.Length
        invariant text == first.text.value + Texts(before[..i])
        invariant segments == first.segments + AllSegments(before[..i])
        invariant forall k :: 0 <= k < i ==> others[k] == before[k].(segments := [])
        invariant forall k :: i <= k < others.Length ==> others[k] == before[k]
      {
        assert before[..i + 1][..i] == before[..i];
        if others[i].text.Some? {
          text := text + others[i].text.value;
        }
        segments := segments + others[i].segments;
        others[i] := others[i].(segments := []);
      }
      assert before[..others.Length] == before;
    }
    r := first.(segments := segments, text := Some(text));
  }

  /** With a text on `first`, joining one more output at the end is
      joining all of them at once. */
  lemma {:induction false} JoinedAppend(first: Json, others: seq<Json>, last: Json)
    requires first.text.Some?
    ensures Joined(Joined(first, others), [last]) == Joined(first, others + [last])
  {
    var t := first.text.value;
    assert (others + [last])[..|others|] == others;
    assert [last][..0] == [];
    assert Texts([last]) == last.text.GetOr("");
    assert AllSegments([last]) == last.segments;
    assert Texts(others + [last]) == Texts(others) + last.text.GetOr("");
    assert AllSegments(others + [last]) == AllSegments(others) + last.segments;
    assert (t + Texts(others)) + last.text.GetOr("") == t + (Texts(others) + last.text.GetOr(""));
    assert (first.segments + AllSegments(others)) + last.segments
        == first.segments + (AllSegments(others) + last.segments);
  }

  /** Without a text on `first`, the others are dropped whatever they
      hold. */
  lemma {:induction false} JoinedWithoutText(first: Json, others: seq<Json>)
    requires first.text.None?
    ensures Joined(first, others).segments == first.segments
    ensures Joined(first, others).text == Some("")
    ensures Joined(first, others) == Joined(first, [])
  {
  }

  /** The clip timestamps a ledger gives each path. */
  function StampsFrom(ledger: seq<ClipRecord>): Path -> Option<(int, int)> {
    p => LedgerTimestamps(ledger, p)
  }

  /** `WhisperJson::from_paths`: an error without paths or when a path has
      no ledger entry or cannot be read; a single file is returned as read
      and shifted, several are joined in path order. */
  method FromPaths(paths: seq<Path>, clips: Clips, read: Path -> Result<Json, string>) returns (r: Result<Json, string>)
    ensures paths == [] ==> r == Failure(NO_PATHS)
    ensures var c := Collect(paths, StampsFrom(clips.clips), read, Offset);
      r.Success? <==> paths != [] && c.Success?
    ensures var c := Collect(paths, StampsFrom(clips.clips), read, Offset);
      paths != [] && c.Failure? ==> r == Failure(c.error)
    ensures var c := Collect(paths, StampsFrom(clips.clips), read, Offset);
      r.Success? && |paths| == 1 ==> r.value == c.value[0]
    ensures var c := Collect(paths, StampsFrom(clips.clips), read, Offset);
      r.Success? && |paths| > 1 ==> r.value == Joined(c.value[0], c.value[1..])
  {
    if paths == [] {
      return Failure(NO_PATHS);
    }
    var ledger := clips.clips;
    var c := Collect(paths, StampsFrom(ledger), read, Offset);
    if c.Failure? {
      return Failure(c.error);
    }
    var json := c.value;
    if |paths| > 1 {
      var rest := new Json[|json| - 1](i requires 0 <= i < |json| - 1 => json[i + 1]);
      assert rest[..] == json[1..];
      var joined := Join(json[0], rest);
      r := Success(joined);
    } else {
      r := Success(json[0]);
    }
  }

  /** The segments kept by `filter_no_speech`: those whose no-speech
      probability is below the threshold, in their order. */
  function Kept(segs: seq<Segment>, threshold: real): (r: seq<Segment>)
    ensures |r| <= |segs|
    ensures forall s :: s in r <==> s in segs && s.noSpeechProb < threshold
  {
    if |segs| == 0 then []
    else
      var last := segs[|segs| - 1];
      assert segs == segs[..|segs| - 1] + [last];
      Kept(segs[..|segs| - 1], threshold) + (if last.noSpeechProb < threshold then [last] else [])
  }

  /** Filtering a concatenation filters each part: the kept segments keep
      their relative order. */
  lemma {:induction false} KeptAppend(a: seq<Segment>, b: seq<Segment>, threshold: real)
    ensures Kept(a + b, threshold) == Kept(a, threshold) + Kept(b, threshold)
    decreases |b|
  {
    if |b| == 0 {
      assert a + b == a;
    } else {
      var init := b[..|b| - 1];
      assert (a + b)[..|a + b| - 1] == a + init;
      KeptAppend(a, init, threshold);
    }
  }

  /** A list whose segments are all below the threshold is kept whole. */
  lemma {:induction false} KeptAll(segs: seq<Segment>, threshold: real)
    requires forall i :: 0 <= i < |segs| ==> segs[i].noSpeechProb < threshold
    ensures Kept(segs, threshold) == segs
    decreases |segs|
  {
    if |segs| > 0 {
      KeptAll(segs[..|segs| - 1], threshold);
      assert segs == segs[..|segs| - 1] + [segs[|segs| - 1]];
    }
  }

  /** Filtering again with a threshold no higher is filtering once with it;
      with the same threshold, filtering twice is filtering once. */
  lemma {:induction false} KeptNested(segs: seq<Segment>, low: real, high: real)
    requires low <= high
    ensures Kept(Kept(segs, high), low) == Kept(segs, low)
    decreases |segs|
  {
    if |segs| > 0 {
      var init := segs[..|segs| - 1];
      var last := segs[|segs| - 1];
      var tail := if last.noSpeechProb < high then [last] else [];
      KeptNested(init, low, high);
      KeptAppend(Kept(init, high), tail, low);
      assert tail[..0] == [];
    }
  }

  /** The segments' texts, concatenated. */
  function SegmentTexts(segs: seq<Segment>): string {
    if |segs| == 0 then "" else SegmentTexts(segs[..|segs| - 1]) + segs[|segs| - 1].text
  }

  lemma {:induction false} SegmentTextsAppend(a: seq<Segment>, b: seq<Segment>)
    ensures SegmentTexts(a + b) == SegmentTexts(a) + SegmentTexts(b)
    decreases |b|
  {
    if |b| == 0 {
      assert a + b == a;
    } else {
      var init := b[..|b| - 1];
      assert (a + b)[..|a + b| - 1] == a + init;
      SegmentTextsAppend(a, init);
    }
  }

  /** `WhisperJson::filter_no_speech`. */
  function FilterNoSpeech(j: Json, threshold: real): (r: Json)
    ensures r.language == j.language && r.text.Some? && |r.segments| <= |j.segments|
    ensures forall s :: s in r.segments <==> s in j.segments && s.noSpeechProb < threshold
  {
    var kept := Kept(j.segments, threshold);
    j.(segments := kept, text := Some(SegmentTexts(kept)))
  }

  /** Filtering twice with the same threshold is filtering once. */
  lemma {:induction false} FilterNoSpeechIdempotent(j: Json, threshold: real)
    ensures FilterNoSpeech(FilterNoSpeech(j, threshold), threshold) == FilterNoSpeech(j, threshold)
  {
    KeptNested(j.segments, threshold, threshold);
  }

  /** Filtering a joined output filters each input's segments and rebuilds
      the text from what is kept of each, in order. */
  lemma {:induction false} FilterNoSpeechJoined(first: Json, others: seq<Json>, threshold: real)
    requires first.text.Some?
    ensures var r := FilterNoSpeech(Joined(first, others), threshold);
      var head, tail := Kept(first.segments, threshold), Kept(AllSegments(others), threshold);
      r.language == first.language && r.segments == head + tail
      && r.text == Some(SegmentTexts(head) + SegmentTexts(tail))
  {
    KeptAppend(first.segments, AllSegments(others), threshold);
    SegmentTextsAppend(Kept(first.segments, threshold), Kept(AllSegments(others), threshold));
  }

  /** `WhisperFieldType`. */
  datatype FieldType = AvgLogProb | CompressionRatio | End | Id | NoSpeechProb | Seek | Start | Temperature | Text | Tokens

  /** Itertools' `join(", ")` of the token numbers. */
  function TokensString(ts: seq<nat>): string
    decreases |ts|
  {
    if |ts| == 0 then ""
    else if |ts| == 1 then NatToString(ts[0])
    else NatToString(ts[0]) + ", " + TokensString(ts[1..])
  }

  /** `WhisperFieldType::to_string`: floating-point fields as `render`
      prints them (`f64::to_string`), integers in decimal, the text as is,
      and the tokens separated by `", "`. */
  function FieldString(f: FieldType, s: Segment, render: real -> string): string {
    match f
    case AvgLogProb => render(s.avgLogprob)
    case CompressionRatio => render(s.compressionRatio)
    case End => render(s.end)
    case Id => NatToString(s.id)
    case NoSpeechProb => render(s.noSpeechProb)
    case Seek => NatToString(s.seek)
    case Start => render(s.start)
    case Temperature => render(s.temperature)
    case Text => s.text
    case Tokens => TokensString(s.tokens)
  }

  /** The number of leading ASCII digits. */
  function DigitRun(s: string): (n: nat)
    ensures n <= |s| && AllDigits(s[..n])
    ensures n < |s| ==> !IsAsciiDigit(s[n])
    decreases |s|
  {
    if |s| == 0 || !IsAsciiDigit(s[0]) then 0
    else
      var n := DigitRun(s[1..]);
      assert s[..1 + n] == [s[0]] + s[1..][..n];
      1 + n
  }

  /** Reads a token list back: a run of digits, then `", "` and the rest. */
  function ParseTokens(s: string): seq<nat>
    decreases |s|
  {
    if |s| == 0 then []
    else
      var n := DigitRun(s);
      [Value(s[..n])] + (if n + 2 <= |s| then ParseTokens(s[n + 2..]) else [])
  }

  /** The digit run of a number followed by anything but a digit is the
      number's own rendering. */
  lemma {:induction false} DigitRunOfNat(n: nat, rest: string)
    requires |rest| == 0 || rest[0] == ','
    ensures DigitRun(NatToString(n) + rest) == |NatToString(n)|
  {
    var d := NatToString(n);
    DigitRunPrefix(d, rest);
  }

  lemma {:induction false} DigitRunPrefix(d: string, rest: string)
    requires AllDigits(d)
    requires |rest| == 0 || rest[0] == ','
    ensures DigitRun(d + rest) == |d|
    decreases |d|
  {
    if |d| > 0 {
      assert (d + rest)[1..] == d[1..] + rest;
      DigitRunPrefix(d[1..], rest);
    }
  }

  /** `Tokens` renders the token numbers so that they read back exactly. */
  lemma {:induction false} TokensRoundTrip(ts: seq<nat>)
    ensures ParseTokens(TokensString(ts)) == ts
    decreases |ts|
  {
    if |ts| == 1 {
      ParseLast(ts[0]);
      assert ts == [ts[0]];
    } else if |ts| > 1 {
      var rest := ts[1..];
      assert TokensString(ts) == NatToString(ts[0]) + ", " + TokensString(rest);
      ParseFirst(ts[0], TokensString(rest));
      TokensRoundTrip(rest);
      assert ts == [ts[0]] + rest;
    }
  }

  /** The last number of a list reads back on its own. */
  lemma {:induction false} ParseLast(n: nat)
    ensures ParseTokens(NatToString(n)) == [n]
  {
    var d := NatToString(n);
    NatToStringRoundTrip(n);
    DigitRunOfNat(n, "");
    assert d + "" == d;
    assert d[..|d|] == d;
  }

  /** A number followed by `", "` reads back, then the rest is read. */
  lemma {:induction false} ParseFirst(n: nat, rest: string)
    ensures ParseTokens(NatToString(n) + ", " + rest) == [n] + ParseTokens(rest)
  {
    var d := NatToString(n);
    var s := d + ", " + rest;
    NatToStringRoundTrip(n);
    assert s == d + (", " + rest);
    DigitRunOfNat(n, ", " + rest);
    assert s[..|d|] == d;
    assert s[|d| + 2..] == rest;
  }

  /** `Text` is the segment text unchanged, and the integer fields read
      back as the segment's id and seek. */
  lemma {:induction false} FieldStringReadsBack(s: Segment, render: real -> string)
    ensures FieldString(Text, s, render) == s.text
    ensures var r := FieldString(Id, s, render); AllDigits(r) && Value(r) == s.id
    ensures var r := FieldString(Seek, s, render); AllDigits(r) && Value(r) == s.seek
    ensures ParseTokens(FieldString(Tokens, s, render)) == s.tokens
  {
    NatToStringRoundTrip(s.id);
    NatToStringRoundTrip(s.seek);
    TokensRoundTrip(s.tokens);
  }

  /** The reference values `to_eaf` writes, one tier each, in tier order. */
  const REF_FIELDS: seq<FieldType> := [AvgLogProb, CompressionRatio, Id, NoSpeechProb, Seek, Temperature]

  /** The reference tiers' ids, in the same order. */
  const REF_TIERS: seq<string> := ["avg_logprob", "compression_ratio", "id", "no_speech_prob", "seek", "temperature"]

  /** The linguistic type of the reference tiers. */
  const REF_TYPE: string := "whisper_ref_values"

  /** The value `to_referred` gives a field's annotation: the field's
      rendering, trimmed. */
  function RefValue(f: FieldType, s: Segment, render: real -> string): string {
    Trim(FieldString(f, s, render))
  }

  /** A decimal rendering has nothing to trim. */
  lemma {:induction false} RefValueOfInteger(s: Segment, render: real -> string)
    ensures RefValue(Id, s, render) == NatToString(s.id)
    ensures RefValue(Seek, s, render) == NatToString(s.seek)
  {
    var i, k := NatToString(s.id), NatToString(s.seek);
    assert !IsWhitespace(i[0]) && !IsWhitespace(i[|i| - 1]);
    assert !IsWhitespace(k[0]) && !IsWhitespace(k[|k| - 1]);
  }

  /** A segment's time span and trimmed text. */
  function SegmentSpan(s: Segment): Span {
    Span(s.start, s.end, Trim(s.text))
  }

  /** A word's time span and trimmed value. */
  function WordSpan(w: Word): Span {
    Span(w.start, w.end, Trim(w.word))
  }

  function WordSpans(ws: seq<Word>): seq<Span> {
    seq(|ws|, i requires 0 <= i < |ws| => WordSpan(ws[i]))
  }

  /** What one segment contributes to the document: its text on
      `segments`, its words on `words`, and its six reference values. */
  function SegmentBlock(s: Segment, render: real -> string): Block {
    Block(SegmentSpan(s), WordSpans(s.words), seq(6, j requires 0 <= j < 6 => RefValue(REF_FIELDS[j], s, render)))
  }

  function Blocks(segs: seq<Segment>, render: real -> string): (bs: seq<Block>)
    ensures |bs| == |segs|
    ensures forall i :: 0 <= i < |segs| ==> bs[i] == SegmentBlock(segs[i], render) && |bs[i].refs| == 6
  {
    seq(|segs|, i requires 0 <= i < |segs| => SegmentBlock(segs[i], render))
  }

  /** The document `to_eaf` builds from the blocks of the segments. */
  function Document(bs: seq<Block>): Eaf {
    Eaf(AllSlots(bs),
        [OutTier("segments", MainTier(bs), None, None),
         OutTier("words", WordTier(bs), Some("words"), Some("segments"))]
        + seq(6, k requires 0 <= k < 6 => OutTier(REF_TIERS[k], RefTier(bs, k), Some(REF_TYPE), Some("segments"))),
        [LingType("words", IncludedIn), LingType(REF_TYPE, SymbolicAssociation)])
  }

  /** `WhisperSegment::words_to_alignable`: word `k` gets annotation id
      `a + k` and the time slots `t + 2k` and `t + 2k + 1`. */
  method WordsToAlignable(s: Segment, a: nat, t: nat) returns (annots: seq<Annot>, slots: seq<Slot>)
    ensures annots == WordAnnots(WordSpans(s.words), a, t)
    ensures slots == WordSlots(WordSpans(s.words), t)
  {
    ghost var spans := WordSpans(s.words);
    annots, slots := [], [];
    for i := 0 to |s.words|
      invariant annots == WordAnnots(spans[..i], a, t)
      invariant slots == WordSlots(spans[..i], t)
    {
      var span := WordSpan(s.words[i]);
      assert span == spans[i];
      WordsStep(spans, i, a, t, annots, slots);
      annots := annots + [AlignedAnnot(span, a + |annots|, t + |slots|)];
      slots := slots + SpanSlots(span, t + |slots|);
    }
    assert spans[..|s.words|] == spans;
  }

  /** `WhisperJson::to_eaf`. The six reference vectors are held in tier
      order, `refs[k]` for the `k`-th of `avg_logprob`, `compression_ratio`,
      `id`, `no_speech_prob`, `seek` and `temperature`. */
  method ToEaf(j: Json, render: real -> string) returns (eaf: Eaf)
    ensures eaf == Document(Blocks(j.segments, render))
  {
    ghost var bs := Blocks(j.segments, render);
    var main, words, slots := [], [], [];
    var refs: seq<seq<Annot>> := [[], [], [], [], [], []];
    for i := 0 to |j.segments|
      invariant |refs| == 6
      invariant Built(bs, i, main, words, refs, slots)
    {
      var main', words', slots', refs' := EmitSegment(j.segments[i], render, main, words, slots, refs);
      BuiltStep(bs, i, main, words, refs, slots, main', words', refs', slots');
      main, words, slots, refs := main', words', slots', refs';
    }
    assert bs[..|j.segments|] == bs;
    var refTiers := seq(6, k requires 0 <= k < 6 => OutTier(REF_TIERS[k], refs[k], Some(REF_TYPE), Some("segments")));
    assert refTiers == Document(bs).tiers[2..];
    eaf := Eaf(slots,
               [OutTier("segments", main, None, None),
                OutTier("words", words, Some("words"), Some("segments"))]
               + refTiers,
               [LingType("words", IncludedIn), LingType(REF_TYPE, SymbolicAssociation)]);
  }

  /** The body of the `to_eaf` loop: the segment's annotation numbered on
      from the eight vectors' total length, its slots from the number of
      slots, then its words, then its six reference values after the
      words, each referring to the segment's annotation. */
  method EmitSegment(seg: Segment, render: real -> string, main: seq<Annot>, words: seq<Annot>, slots: seq<Slot>, refs: seq<seq<Annot>>)
    returns (main': seq<Annot>, words': seq<Annot>, slots': seq<Slot>, refs': seq<seq<Annot>>)
    requires |refs| == 6
    ensures Stepped(SegmentBlock(seg, render), main, words, refs, slots, main', words', refs', slots')
  {
    var base := 1 + |main| + |words| + Total(refs);
    var baseTs := 1 + |slots|;
    main' := main + [AlignedAnnot(SegmentSpan(seg), base, baseTs)];
    slots' := slots + SpanSlots(SegmentSpan(seg), baseTs);
    var ws, wts := WordsToAlignable(seg, base + 1, baseTs + 2);
    var refBase := base + |ws|;
    words' := words + ws;
    slots' := slots' + wts;
    refs' := seq(6, k requires 0 <= k < 6 => refs[k] + [Referred(seg, refBase + 1 + k, base, REF_FIELDS[k], render)]);
    SegmentStepped(seg, render, main, words, refs, slots, main', words', refs', slots', base, baseTs, refBase);
  }

  /** What one pass appends is the step of the segment's block. */
  lemma {:induction false} SegmentStepped(seg: Segment, render: real -> string,
                                          main: seq<Annot>, words: seq<Annot>, refs: seq<seq<Annot>>, slots: seq<Slot>,
                                          main': seq<Annot>, words': seq<Annot>, refs': seq<seq<Annot>>, slots': seq<Slot>,
                                          base: nat, baseTs: nat, refBase: nat)
    requires |refs| == 6 && base == 1 + |main| + |words| + Total(refs) && baseTs == 1 + |slots|
    requires main' == main + [AlignedAnnot(SegmentSpan(seg), base, baseTs)]
    requires words' == words + WordAnnots(WordSpans(seg.words), base + 1, baseTs + 2)
    requires slots' == slots + SpanSlots(SegmentSpan(seg), baseTs) + WordSlots(WordSpans(seg.words), baseTs + 2)
    requires refBase == base + |seg.words|
    requires refs' == seq(6, k requires 0 <= k < 6 => refs[k] + [Referred(seg, refBase + 1 + k, base, REF_FIELDS[k], render)])
    ensures Stepped(SegmentBlock(seg, render), main, words, refs, slots, main', words', refs', slots')
  {
    SegmentAligned(seg, render, main, words, slots, main', words', slots', base, baseTs);
    SegmentRefs(seg, render, base, refBase, refs, refs');
  }

  /** The segment's own annotation, its words and their slots. */
  lemma {:induction false} SegmentAligned(seg: Segment, render: real -> string,
                                          main: seq<Annot>, words: seq<Annot>, slots: seq<Slot>,
                                          main': seq<Annot>, words': seq<Annot>, slots': seq<Slot>, base: nat, baseTs: nat)
    requires main' == main + [AlignedAnnot(SegmentSpan(seg), base, baseTs)]
    requires words' == words + WordAnnots(WordSpans(seg.words), base + 1, baseTs + 2)
    requires slots' == slots + SpanSlots(SegmentSpan(seg), baseTs) + WordSlots(WordSpans(seg.words), baseTs + 2)
    ensures AlignedPushed(SegmentBlock(seg, render), main, words, slots, main', words', slots', base, baseTs)
  {
    var b := SegmentBlock(seg, render);
    assert b.main == SegmentSpan(seg) && b.words == WordSpans(seg.words);
    assert slots' == slots + BlockSlots(b, baseTs);
  }

  /** The six pushes of one pass, in tier order, are the referring
      annotations of the segment's block. */
  lemma {:induction false} SegmentRefs(seg: Segment, render: real -> string, a: nat, refBase: nat, refs: seq<seq<Annot>>, refs': seq<seq<Annot>>)
    requires |refs| == 6 && refBase == a + |seg.words|
    requires refs' == seq(6, k requires 0 <= k < 6 => refs[k] + [Referred(seg, refBase + 1 + k, a, REF_FIELDS[k], render)])
    ensures RefsPushed(SegmentBlock(seg, render), refs, refs', a)
  {
    var b := SegmentBlock(seg, render);
    assert |refs'| == |refs| == |b.refs|;
    forall j | 0 <= j < 6
      ensures refs'[j] == refs[j] + [Annot(a + |b.words| + 1 + j, RefersTo(a), b.refs[j], b.main.start, b.main.end)]
    {
      ReferredAt(seg, render, a, refBase, refs, refs', j);
    }
    assert forall j :: 0 <= j < |refs| ==>
         refs'[j] == refs[j] + [Annot(a + |b.words| + 1 + j, RefersTo(a), b.refs[j], b.main.start, b.main.end)];
    assert |refs'| == |refs| <= |b.refs|;
    assert RefsPushed(b, refs, refs', a);
  }

  /** The `j`-th vector after a pass. */
  lemma {:induction false} ReferredAt(seg: Segment, render: real -> string, a: nat, refBase: nat, refs: seq<seq<Annot>>, refs': seq<seq<Annot>>, j: nat)
    requires |refs| == 6 && refBase == a + |seg.words| && j < 6
    requires refs' == seq(6, k requires 0 <= k < 6 => refs[k] + [Referred(seg, refBase + 1 + k, a, REF_FIELDS[k], render)])
    ensures var b := SegmentBlock(seg, render);
      refs'[j] == refs[j] + [Annot(a + |b.words| + 1 + j, RefersTo(a), b.refs[j], b.main.start, b.main.end)]
  {
    ReferredInBlock(seg, render, a, refBase, j);
  }

  /** The `j`-th push of a pass is the block's `j`-th referring annotation. */
  lemma {:induction false} ReferredInBlock(seg: Segment, render: real -> string, a: nat, refBase: nat, j: nat)
    requires j < 6 && refBase == a + |seg.words|
    ensures var b := SegmentBlock(seg, render);
      Referred(seg, refBase + 1 + j, a, REF_FIELDS[j], render)
      == Annot(a + |b.words| + 1 + j, RefersTo(a), b.refs[j], b.main.start, b.main.end)
  {
    var b := SegmentBlock(seg, render);
    assert |b.words| == |seg.words|;
    assert b.refs[j] == RefValue(REF_FIELDS[j], seg, render);
  }

  /** `WhisperSegment::to_referred`: annotation `a{id}` referring to
      `a{parent}`, valued with the trimmed field. */
  function Referred(s: Segment, id: nat, parent: nat, f: FieldType, render: real -> string): Annot {
    Annot(id, RefersTo(parent), RefValue(f, s, render), s.start, s.end)
  }

  /** The converted document has the eight tiers with their parents, one
      annotation per segment on `segments` and on each reference tier and
      one `words` annotation per word, unique ids, slots numbered in
      order, and every anchor present. */
  lemma {:induction false} DocumentWellFormed(segs: seq<Segment>, render: real -> string)
    ensures var d := Document(Blocks(segs, render));
      |d.tiers| == 8
      && d.tiers[0].tierId == "segments" && d.tiers[0].parent.None?
      && d.tiers[1].tierId == "words" && d.tiers[1].parent == Some("segments")
      && (forall k :: 1 <= k < 8 ==> d.tiers[k].parent == Some("segments"))
      && (forall k :: 2 <= k < 8 ==> d.tiers[k].lingType == Some(REF_TYPE) && |d.tiers[k].annotations| == |segs|)
      && |d.tiers[0].annotations| == |segs|
      && |d.tiers[1].annotations| == WordCount(Blocks(segs, render))
      && DistinctIds(d.tiers) && SlotsPresent(d) && ParentsPresent(d)
      && forall i :: 0 <= i < |d.slots| ==> d.slots[i].id == 1 + i
  {
    var bs := Blocks(segs, render);
    var d := Document(bs);
    MainTierLength(bs);
    WordTierLength(bs);
    RefTiersPlaced(bs, d);
    EmittedDocument(bs, 6, d);
  }

  /** Tier `k` from 2 on is the `(k - 2)`-th reference tier, in the fixed
      order of `REF_TIERS`, under `segments`, with one annotation per block. */
  lemma {:induction false} RefTiersPlaced(bs: seq<Block>, d: Eaf)
    requires d == Document(bs)
    requires forall i :: 0 <= i < |bs| ==> |bs[i].refs| == 6
    ensures |d.tiers| == 8
    ensures forall k :: 2 <= k < 8 ==> d.tiers[k].annotations == RefTier(bs, k - 2) && |d.tiers[k].annotations| == |bs|
    ensures forall k :: 2 <= k < 8 ==> d.tiers[k].tierId == REF_TIERS[k - 2] && d.tiers[k].parent == Some("segments")
  {
    forall k | 2 <= k < 8 ensures d.tiers[k].annotations == RefTier(bs, k - 2) && |d.tiers[k].annotations| == |bs| {
      RefTierLength(bs, k - 2);
    }
  }
}
