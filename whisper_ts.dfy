/** `src/whisper/whisper_timestamped.rs`: whisper-timestamped output (word
    level times and confidences), its offsetting and joining, and its
    conversion to an EAF document with the tiers `segments`, `words` and
    `confidence`. Times and confidences are carried as reals; reading and
    writing the JSON files are left out. */
module WhisperTs {
  import opened Wrappers
  import opened Paths
  import opened Clips
  import opened EafEmit
  import opened JsonPaths

  datatype Word = Word(text: string, start: real, end: real, confidence: real)

  datatype Segment = Segment(start: real, end: real, text: string, confidence: real, words: seq<Word>)

  /** `WhisperTsJson`. */
  datatype Json = Json(text: string, segments: seq<Segment>)

  /** `WhisperTsWord::offset`. */
  function WordOffset(w: Word, offset: real): Word {
    w.(start := w.start + offset, end := w.end + offset)
  }

  /** `WhisperTsSegment::offset`. */
  function SegmentOffset(s: Segment, offset: real): Segment {
    s.(start := s.start + offset, end := s.end + offset,
       words := seq(|s.words|, i requires 0 <= i < |s.words| => WordOffset(s.words[i], offset)))
  }

  /** `WhisperTsJson::offset`. */
  function Offset(j: Json, offset: real): (r: Json)
    ensures |r.segments| == |j.segments|
    ensures forall i :: 0 <= i < |j.segments| ==>
              r.segments[i].start == j.segments[i].start + offset && r.segments[i].end == j.segments[i].end + offset
  {
    j.(segments := seq(|j.segments|, i requires 0 <= i < |j.segments| => SegmentOffset(j.segments[i], offset)))
  }

  /** Offsetting keeps every text, confidence and count; only the times
      move, all by the same amount. */
  lemma {:induction false} OffsetKeepsStructure(j: Json, offset: real)
    ensures var r := Offset(j, offset);
      r.text == j.text && |r.segments| == |j.segments|
      && forall i :: 0 <= i < |j.segments| ==>
           var s, t := j.segments[i], r.segments[i];
           t.text == s.text && t.confidence == s.confidence
           && t.start == s.start + offset && t.end == s.end + offset
           && |t.words| == |s.words|
           && forall k :: 0 <= k < |s.words| ==>
                t.words[k].text == s.words[k].text && t.words[k].confidence == s.words[k].confidence
                && t.words[k].start == s.words[k].start + offset && t.words[k].end == s.words[k].end + offset
  {
  }

  /** Offsetting back by the same amount restores the original. */
  lemma {:induction false} OffsetInverse(j: Json, offset: real)
    ensures Offset(Offset(j, offset), -offset) == j
  {
    var r := Offset(Offset(j, offset), -offset);
    forall i | 0 <= i < |j.segments| ensures r.segments[i] == j.segments[i] {
      var s := j.segments[i];
      var t := r.segments[i];
      assert |t.words| == |s.words|;
      forall k | 0 <= k < |s.words| ensures t.words[k] == s.words[k] {
      }
      assert t.words == s.words;
    }
    assert r.segments == j.segments;
  }

  /** The texts of several outputs, concatenated in order. */
  function Texts(js: seq<Json>): string {
    if |js| == 0 then "" else Texts(js[..|js| - 1]) + js[|js| - 1].text
  }

  /** The segments of several outputs, concatenated in order. */
  function AllSegments(js: seq<Json>): seq<Segment> {
    if |js| == 0 then [] else AllSegments(js[..|js| - 1]) + js[|js| - 1].segments
  }

  /** What `join` returns. */
  function Joined(first: Json, others: seq<Json>): (r: Json)
    ensures |r.text| >= |first.text| && r.text[..|first.text|] == first.text
    ensures |r.segments| >= |first.segments| && r.segments[..|first.segments|] == first.segments
  {
    Json(first.text + Texts(others), first.segments + AllSegments(others))
  }

  /** `WhisperTsJson::join`: the texts and the segments of `self` followed
      by those of each of `others`, in order; the others' segments are
      moved out, leaving their segment lists empty. */
  method Join(first: Json, others: array<Json>) returns (r: Json)
    modifies others
    ensures r == Joined(first, old(others[..]))
    ensures forall i :: 0 <= i < others.Length ==> others[i] == old(others[i]).(segments := [])
  {
    var text := first.text;
    var segments := first.segments;
    ghost var before := others[..];
    for i := 0 to others.Length
      invariant text == first.text + Texts(before[..i])
      invariant segments == first.segments + AllSegments(before[..i])
      invariant forall k :: 0 <= k < i ==> others[k] == before[k].(segments := [])
      invariant forall k :: i <= k < others.Length ==> others[k] == before[k]
    {
      assert before[..i + 1][..i] == before[..i];
      text := text + others[i].text;
      segments := segments + others[i].segments;
      others[i] := others[i].(segments := []);
    }
    assert before[..others.Length] == before;
    r := Json(text, segments);
  }

  /** Joining one more output at the end is joining all of them at once. */
  lemma {:induction false} JoinedAppend(first: Json, others: seq<Json>, last: Json)
    ensures Joined(Joined(first, others), [last]) == Joined(first, others + [last])
  {
    assert (others + [last])[..|others|] == others;
    assert [last][..0] == [];
    assert Texts([last]) == last.text;
    assert AllSegments([last]) == last.segments;
    assert Texts(others + [last]) == Texts(others) + last.text;
    assert AllSegments(others + [last]) == AllSegments(others) + last.segments;
    assert (first.text + Texts(others)) + last.text == first.text + (Texts(others) + last.text);
    assert (first.segments + AllSegments(others)) + last.segments
        == first.segments + (AllSegments(others) + last.segments);
  }

  /** Joining with nothing changes nothing. */
  lemma {:induction false} JoinedNone(first: Json)
    ensures Joined(first, []) == first
  {
    assert first.text + "" == first.text;
    assert first.segments + [] == first.segments;
  }

  /** `first_start`: `None` exactly when there are no segments. */
  function FirstStart(j: Json): (r: Option<real>)
    ensures r.None? <==> j.segments == []
    ensures r.Some? ==> r.value == j.segments[0].start
  {
    if j.segments == [] then None else Some(j.segments[0].start)
  }

  /** `last_start`. */
  function LastStart(j: Json): (r: Option<real>)
    ensures r.None? <==> j.segments == []
    ensures r.Some? ==> r.value == j.segments[|j.segments| - 1].start
  {
    if j.segments == [] then None else Some(j.segments[|j.segments| - 1].start)
  }

  /** `first_end`. */
  function FirstEnd(j: Json): (r: Option<real>)
    ensures r.None? <==> j.segments == []
    ensures r.Some? ==> r.value == j.segments[0].end
  {
    if j.segments == [] then None else Some(j.segments[0].end)
  }

  /** `last_end`. */
  function LastEnd(j: Json): (r: Option<real>)
    ensures r.None? <==> j.segments == []
    ensures r.Some? ==> r.value == j.segments[|j.segments| - 1].end
  {
    if j.segments == [] then None else Some(j.segments[|j.segments| - 1].end)
  }

  /** After a join, the first start is the first output's own when it has
      segments, and the last end is that of the last output with segments. */
  lemma {:induction false} JoinedEnds(first: Json, last: Json)
    requires last.segments != []
    ensures LastEnd(Joined(first, [last])) == LastEnd(last)
    ensures first.segments != [] ==> FirstStart(Joined(first, [last])) == FirstStart(first)
  {
    assert [last][..0] == [];
    assert AllSegments([last]) == last.segments;
  }

  /** The clip timestamps a ledger gives each path. */
  function StampsFrom(ledger: seq<ClipRecord>): Path -> Option<(int, int)> {
    p => LedgerTimestamps(ledger, p)
  }

  /** `WhisperTsJson::from_paths`: an error without paths or when a path
      has no ledger entry or cannot be read; otherwise the shifted files
      joined in path order. */
  method FromPaths(paths: seq<Path>, clips: Clips, read: Path -> Result<Json, string>) returns (r: Result<Json, string>)
    ensures paths == [] ==> r == Failure(NO_PATHS)
    ensures var c := Collect(paths, StampsFrom(clips.clips), read, Offset);
      r.Success? <==> paths != [] && c.Success?
    ensures var c := Collect(paths, StampsFrom(clips.clips), read, Offset);
      paths != [] && c.Failure? ==> r == Failure(c.error)
    ensures var c := Collect(paths, StampsFrom(clips.clips), read, Offset);
      r.Success? ==> r.value == Joined(c.value[0], c.value[1..])
  {
    if paths == [] {
      return Failure(NO_PATHS);
    }
    var ledger := clips.clips;
    var c := Collect(paths, StampsFrom(ledger), read, Offset);
    if c.Failure? {
      return Failure(c.error);
    }
    var json := c.value;
    if |paths| > 1 {
      var rest := new Json[|json| - 1](i requires 0 <= i < |json| - 1 => json[i + 1]);
      assert rest[..] == json[1..];
      var joined := Join(json[0], rest);
      r := Success(joined);
    } else {
      JoinedNone(json[0]);
      assert json[1..] == [];
      r := Success(json[0]);
    }
  }

  /** A segment's time span and text. */
  function SegmentSpan(s: Segment): Span {
    Span(s.start, s.end, s.text)
  }

  function WordSpans(ws: seq<Word>): seq<Span> {
    seq(|ws|, i requires 0 <= i < |ws| => Span(ws[i].start, ws[i].end, ws[i].text))
  }

  /** What one segment contributes to the document: its text on
      `segments`, its words on `words`, and its confidence, as `render`
      prints it (`f64::to_string`), on `confidence`. */
  function SegmentBlock(s: Segment, render: real -> string): Block {
    Block(SegmentSpan(s), WordSpans(s.words), [render(s.confidence)])
  }

  function Blocks(segs: seq<Segment>, render: real -> string): (bs: seq<Block>)
    ensures |bs| == |segs|
    ensures forall i :: 0 <= i < |segs| ==> bs[i] == SegmentBlock(segs[i], render) && |bs[i].refs| == 1
  {
    seq(|segs|, i requires 0 <= i < |segs| => SegmentBlock(segs[i], render))
  }

  /** The document `to_eaf` builds from the blocks of the segments. */
  function Document(bs: seq<Block>): Eaf {
    Eaf(AllSlots(bs),
        [OutTier("segments", MainTier(bs), None, None),
         OutTier("words", WordTier(bs), Some("words"), Some("segments")),
         OutTier("confidence", RefTier(bs, 0), Some("confidence"), Some("segments"))],
        [LingType("words", IncludedIn), LingType("confidence", SymbolicAssociation)])
  }

  /** `WhisperTsSegment::words_to_alignable`: word `k` gets annotation id
      `a + k` and the time slots `t + 2k` and `t + 2k + 1`. */
  method WordsToAlignable(s: Segment, a: nat, t: nat) returns (annots: seq<Annot>, slots: seq<Slot>)
    ensures annots == WordAnnots(WordSpans(s.words), a, t)
    ensures slots == WordSlots(WordSpans(s.words), t)
  {
    ghost var spans := WordSpans(s.words);
    annots, slots := [], [];
    for i := 0 to |s.words|
      invariant annots == WordAnnots(spans[..i], a, t)
      invariant slots == WordSlots(spans[..i], t)
    {
      var span := Span(s.words[i].start, s.words[i].end, s.words[i].text);
      assert span == spans[i];
      WordsStep(spans, i, a, t, annots, slots);
      annots := annots + [AlignedAnnot(span, a + |annots|, t + |slots|)];
      slots := slots + SpanSlots(span, t + |slots|);
    }
    assert spans[..|s.words|] == spans;
  }

  /** `WhisperTsJson::to_eaf`. */
  method ToEaf(j: Json, render: real -> string) returns (eaf: Eaf)
    ensures eaf == Document(Blocks(j.segments, render))
  {
    ghost var bs := Blocks(j.segments, render);
    var main, words, conf, slots := [], [], [], [];
    for i := 0 to |j.segments|
      invariant Built(bs, i, main, words, [conf], slots)
    {
      var seg := j.segments[i];
      var main', words', conf', slots' := EmitSegment(seg, render, main, words, conf, slots);
      BuiltStep(bs, i, main, words, [conf], slots, main', words', [conf'], slots');
      main, words, conf, slots := main', words', conf', slots';
    }
    assert bs[..|j.segments|] == bs;
    eaf := Eaf(slots,
               [OutTier("segments", main, None, None),
                OutTier("words", words, Some("words"), Some("segments")),
                OutTier("confidence", conf, Some("confidence"), Some("segments"))],
               [LingType("words", IncludedIn), LingType("confidence", SymbolicAssociation)]);
  }

  /** The body of the `to_eaf` loop: the segment's annotation numbered on
      from the vectors' total length, its slots from the number of slots,
      then its words and its confidence. */
  method EmitSegment(seg: Segment, render: real -> string, main: seq<Annot>, words: seq<Annot>, conf: seq<Annot>, slots: seq<Slot>)
    returns (main': seq<Annot>, words': seq<Annot>, conf': seq<Annot>, slots': seq<Slot>)
    ensures Stepped(SegmentBlock(seg, render), main, words, [conf], slots, main', words', [conf'], slots')
  {
    var base := 1 + |main| + |words| + |conf|;
    var baseTs := 1 + |slots|;
    main' := main + [AlignedAnnot(SegmentSpan(seg), base, baseTs)];
    slots' := slots + SpanSlots(SegmentSpan(seg), baseTs);
    var ws, wts := WordsToAlignable(seg, base + 1, baseTs + 2);
    var confId := base + |ws| + 1;
    words' := words + ws;
    slots' := slots' + wts;
    conf' := conf + [Annot(confId, RefersTo(base), render(seg.confidence), seg.start, seg.end)];
    assert Total([conf]) == |conf| by {
      assert [conf][..0] == [];
    }
  }

  /** The converted document has the three tiers with their parents,
      one `segments` and one `confidence` annotation per segment and one
      `words` annotation per word, unique ids, slots numbered in order,
      and every anchor present. */
  lemma {:induction false} DocumentWellFormed(segs: seq<Segment>, render: real -> string)
    ensures var d := Document(Blocks(segs, render));
      |d.tiers| == 3
      && d.tiers[0].tierId == "segments" && d.tiers[0].parent.None?
      && d.tiers[1].tierId == "words" && d.tiers[1].parent == Some("segments")
      && d.tiers[2].tierId == "confidence" && d.tiers[2].parent == Some("segments")
      && |d.tiers[0].annotations| == |segs| && |d.tiers[2].annotations| == |segs|
      && |d.tiers[1].annotations| == WordCount(Blocks(segs, render))
      && DistinctIds(d.tiers) && SlotsPresent(d) && ParentsPresent(d)
      && forall i :: 0 <= i < |d.slots| ==> d.slots[i].id == 1 + i
  {
    var bs := Blocks(segs, render);
    MainTierLength(bs);
    WordTierLength(bs);
    RefTierLength(bs, 0);
    EmittedDocument(bs, 1, Document(bs));
  }
}
