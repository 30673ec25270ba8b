/** The clip ledger of `src/clips.rs`: for every clip file cut from the
    linked media, the clip paths and the start and end (milliseconds) in the
    original media. A ledger is written as JSON next to the clips; reading
    and writing it are left out. */
module Clips {
  import opened Wrappers
  import opened Paths

  /** One ledger entry as stored: the clip files cut for one annotation and
      its time span in the original media. */
  datatype ClipRecord = ClipRecord(media: seq<Path>, start: int, end: int)

  /** `Clip`: a ledger entry under construction. */
  class Clip {
    var media: seq<Path>
    var start: int
    var end: int

    /** `Clip::new`. */
    constructor New(media: seq<Path>, start: int, end: int)
      ensures this.media == media && this.start == start && this.end == end
    {
      this.media := media;
      this.start := start;
      this.end := end;
    }

    /** `Clip::default()`: no media, both times zero. */
    constructor Default()
      ensures media == [] && start == 0 && end == 0
    {
      media := [];
      start := 0;
      end := 0;
    }

    /** `Clip::add`: append a clip path. */
    method Add(path: Path)
      modifies this
      ensures media == old(media) + [path]
      ensures start == old(start) && end == old(end)
    {
      media := media + [path];
    }

    /** `Clip::ts`: set both times. */
    method Ts(start: int, end: int)
      modifies this
      ensures this.start == start && this.end == end
      ensures media == old(media)
    {
      this.start := start;
      this.end := end;
    }

    /** The entry as the ledger stores it (`to_owned`). */
    function Value(): (r: ClipRecord)
      reads this
      ensures r.media == media && r.start == start && r.end == end
    {
      ClipRecord(media, start, end)
    }
  }

  /** The stem left once every extension-like suffix is stripped:
      `talk.words.wav` becomes `talk`. */
  function BareStem(stem: string): (r: string)
    ensures SplitAtDot(r).1.None?
    ensures |r| <= |stem|
    decreases |stem|
  {
    match SplitAtDot(stem).1
    case None => stem
    case Some(_) => BareStem(SplitAtDot(stem).0)
  }

  /** Stripping is idempotent. */
  lemma {:induction false} BareStemIdempotent(stem: string)
    ensures BareStem(BareStem(stem)) == BareStem(stem)
  {
  }

  /** `Path::new(stem)` for a file stem sees the stem as its file name, so
      its extension and stem are the split of the stem at its last dot. The
      stem `.` is no file name at all, and has no extension either. */
  lemma {:induction false} StemAsPath(stem: string)
    requires stem != "" && '/' !in stem
    ensures Extension(Parse(stem)) == SplitAtDot(stem).1
    ensures SplitAtDot(stem).1.Some? ==> FileStem(Parse(stem)) == Some(SplitAtDot(stem).0)
  {
    if stem == "." {
      assert Split(stem, '/') == ["."];
      LastIndexOfUnique(stem, '.', 0);
    } else {
      ParsePlainName(stem);
    }
  }

  /** The ledger entry has a clip path with the given file stem. */
  predicate HasMediaStem(c: ClipRecord, stem: string) {
    exists m :: m in c.media && FileStem(m) == Some(stem)
  }

  /** The position of the first entry, in ledger order, with a clip path of
      the given stem. */
  function FirstWithStem(clips: seq<ClipRecord>, stem: string): (r: Option<nat>)
    ensures r.None? <==> forall i :: 0 <= i < |clips| ==> !HasMediaStem(clips[i], stem)
    ensures r.Some? ==> r.value < |clips| && HasMediaStem(clips[r.value], stem)
    ensures r.Some? ==> forall i :: 0 <= i < r.value ==> !HasMediaStem(clips[i], stem)
  {
    if clips == [] then None
    else if HasMediaStem(clips[0], stem) then Some(0)
    else
      match FirstWithStem(clips[1..], stem)
      case None => None
      case Some(k) => Some(k + 1)
  }

  /** What `get_timestamps` answers for a ledger: the times of the first
      entry with a clip path of the queried file's bare stem. */
  function LedgerTimestamps(ledger: seq<ClipRecord>, path: Path): Option<(int, int)> {
    if FileStem(path).None? then None
    else
      match FirstWithStem(ledger, BareStem(FileStem(path).value))
      case None => None
      case Some(i) => Some((ledger[i].start, ledger[i].end))
  }

  /** `Clips`: the media the clips were cut from and the ledger entries. */
  class Clips {
    var originalMedia: seq<Path>
    var clips: seq<ClipRecord>

    /** `Clips::with_media`: the given media and no entries. */
    constructor WithMedia(media: seq<Path>)
      ensures originalMedia == media && clips == []
    {
      originalMedia := media;
      clips := [];
    }

    /** `Clips::len`. */
    function Len(): (n: nat)
      reads this
      ensures n == |clips|
    {
      |clips|
    }

    /** `Clips::iter`: the entries in ledger order. */
    function Iter(): (r: seq<ClipRecord>)
      reads this
      ensures |r| == Len() && forall i :: 0 <= i < |r| ==> r[i] == clips[i]
    {
      clips
    }

    /** `Clips::add`: append a copy of the clip; earlier entries and the
        media list stay as they were. */
    method Add(clip: Clip)
      modifies this
      ensures clips == old(clips) + [old(clip.Value())]
      ensures originalMedia == old(originalMedia)
      ensures Len() == old(Len()) + 1
    {
      clips := clips + [clip.Value()];
    }

    /** `clone`: an independent ledger with the same contents. */
    method Copy() returns (c: Clips)
      ensures fresh(c) && c.originalMedia == originalMedia && c.clips == clips
    {
      c := new Clips.WithMedia(originalMedia);
      c.clips := clips;
    }

    /** `Clips::get_timestamps`: strip the queried file's stem down to its
        bare stem, then return the times of the first entry with a clip path
        of that stem. A path without a file stem gives `None`. */
    method GetTimestamps(path: Path) returns (r: Option<(int, int)>)
      requires Valid(path)
      ensures FileStem(path).None? ==> r.None?
      ensures FileStem(path).Some? ==>
                match FirstWithStem(clips, BareStem(FileStem(path).value))
                case None => r.None?
                case Some(i) => r == Some((clips[i].start, clips[i].end))
      ensures r == LedgerTimestamps(clips, path)
    {
      if FileStem(path).None? {
        return None;
      }
      var stem := FileStem(path).value;
      assert stem != "" && '/' !in stem by {
        assert IsComponent(path.comps[|path.comps| - 1]);
      }
      ghost var bare := BareStem(stem);
      while Extension(Parse(stem)).Some?
        invariant stem != "" && '/' !in stem
        invariant BareStem(stem) == bare
        decreases |stem|
      {
        StemAsPath(stem);
        stem := FileStem(Parse(stem)).value;
      }
      StemAsPath(stem);
      match FirstWithStem(clips, stem)
      case None => r := None;
      case Some(i) => r := Some((clips[i].start, clips[i].end));
    }
  }

  /** Clip paths are only stripped once: a clip path whose stem still has an
      extension (`audio.wav.wav`, stem `audio.wav`) matches no query. */
  lemma {:induction false} DottedMediaStemNeverMatches(c: ClipRecord, m: Path, query: string)
    requires m in c.media && FileStem(m).Some? && SplitAtDot(FileStem(m).value).1.Some?
    ensures FileStem(m) != Some(BareStem(query))
  {
  }

  /** `talk.words.wav.json` finds the entry holding `talk.wav`. */
  lemma {:induction false} TalkExample(query: string, clip: ClipRecord)
    requires query == "talk.words.wav" && clip.media == [Path(false, ["out", "talk.wav"])]
    ensures FirstWithStem([clip], BareStem(query)) == Some(0)
  {
    assert BareStem(query) == "talk" by {
      TalkBareStem();
    }
    assert HasMediaStem(clip, "talk") by {
      TalkMediaStem();
      assert clip.media[0] == Path(false, ["out", "talk.wav"]);
    }
    FirstOfOne(clip, "talk");
  }

  /** A one-entry ledger whose entry has the stem finds it first. */
  lemma {:induction false} FirstOfOne(c: ClipRecord, stem: string)
    requires HasMediaStem(c, stem)
    ensures FirstWithStem([c], stem) == Some(0)
  {
    assert [c][0] == c;
  }

  lemma TalkBareStem()
    ensures BareStem("talk.words.wav") == "talk"
  {
    TalkSplits();
    assert '.' !in "talk";
    assert BareStem("talk") == "talk";
    assert BareStem("talk.words") == "talk";
  }

  lemma TalkSplits()
    ensures SplitAtDot("talk.words.wav") == ("talk.words", Some("wav"))
    ensures SplitAtDot("talk.words") == ("talk", Some("words"))
  {
    assert "talk.words.wav" == "talk.words" + "." + "wav";
    SplitAtDotJoin("talk.words", "wav");
    assert "talk.words" == "talk" + "." + "words";
    SplitAtDotJoin("talk", "words");
  }

  lemma TalkMediaStem()
    ensures FileStem(Path(false, ["out", "talk.wav"])) == Some("talk")
  {
    assert "talk.wav" == "talk" + "." + "wav";
    SplitAtDotJoin("talk", "wav");
  }
}
