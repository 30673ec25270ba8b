/** The planning inside `run` of `src/clips.rs`: where the clips go, which
    media they are cut from, which annotations become clips, how each clip
    file is named and what each tier's ledger records. Cutting (FFmpeg),
    creating directories, the overwrite prompt and writing the ledgers are
    effects and stay outside; file existence and canonicalisation are
    oracles. */
module ClipRun {
  import opened Wrappers
  import opened Decimal
  import opened Paths
  import opened Text
  import opened Document
  import opened Clips
  import Files

  /** The command-line flags `run` reads. */
  datatype Config = Config(
    dryrun: bool,
    single: bool,
    useAnnotationId: bool,
    useTierId: bool,
    useValue: bool,
    useTime: bool,
    maxLen: nat,
    minDuration: Option<int>,
    asciiPath: bool)

  /** The ways `run` stops early. */
  datatype RunError =
    | NoFileStem
    | NoLinkedMedia
    | CanonicalizeFailed(path: Path)
    | MediaNotFound
    | UserAborted
    | SelectionFailed
    | NoTimeValues(annotation: Annotation)
    | NoFileType(media: Path)

  /** `<stem>_CLIPS`, in the chosen directory or next to the EAF file. */
  function OutDir(eafPath: Path, outdir: Option<Path>): (r: Result<Path, RunError>)
    ensures r.Failure? <==> FileStem(eafPath).None?
    ensures r.Success? && Valid(eafPath) ==> FileName(r.value) == Some(FileStem(eafPath).value + "_CLIPS")
    ensures r.Success? && Valid(eafPath) && outdir.None? ==> DropLast(r.value) == DropLast(eafPath)
    ensures r.Success? && Valid(eafPath) && outdir.Some? ==> DropLast(r.value) == outdir.value
  {
    match FileStem(eafPath)
    case None => Failure(NoFileStem)
    case Some(stem) =>
      var name := stem + "_CLIPS";
      var dir := if outdir.Some? then outdir.value else DropLast(eafPath);
      assert Valid(eafPath) ==> IsPlainName(name) by {
        if Valid(eafPath) {
          assert IsComponent(eafPath.comps[|eafPath.comps| - 1]);
          assert '/' !in stem;
          assert name[|stem|] == '_';
          ParsePlainName(name);
        }
      }
      Success(Join(dir, Parse(name)))
  }

  /** Which file a media link is cut from: the absolute path if it exists,
      else the relative path made absolute if it exists, else (dry run only)
      the absolute path anyway. */
  function Resolve(link: MediaLink, dryrun: bool, fileExists: Path -> bool, canonicalize: Path -> Option<Path>): (r: Result<Path, RunError>)
    ensures fileExists(link.absolute) ==> r == Success(link.absolute)
    ensures !fileExists(link.absolute) && link.relative.Some? && fileExists(link.relative.value) ==>
              r == match canonicalize(link.relative.value)
                   case Some(p) => Success(p)
                   case None => Failure(CanonicalizeFailed(link.relative.value))
    ensures !fileExists(link.absolute) && !(link.relative.Some? && fileExists(link.relative.value)) ==>
              r == if dryrun then Success(link.absolute) else Failure(MediaNotFound)
  {
    if fileExists(link.absolute) then Success(link.absolute)
    else if link.relative.Some? && fileExists(link.relative.value) then
      match canonicalize(link.relative.value)
      case Some(p) => Success(p)
      case None => Failure(CanonicalizeFailed(link.relative.value))
    else if dryrun then Success(link.absolute)
    else Failure(MediaNotFound)
  }

  /** The media check of `run`: no linked media is an error outside a dry
      run; otherwise every link is resolved in order and the first failure
      stops the run. */
  method ResolveMedia(media: seq<MediaLink>, dryrun: bool, fileExists: Path -> bool, canonicalize: Path -> Option<Path>)
    returns (r: Result<seq<Path>, RunError>)
    ensures media == [] && !dryrun ==> r == Failure(NoLinkedMedia)
    ensures r.Success? ==> |r.value| == |media|
    ensures r.Success? ==> forall i :: 0 <= i < |media| ==> Resolve(media[i], dryrun, fileExists, canonicalize) == Success(r.value[i])
    ensures r.Failure? && (media != [] || dryrun) ==>
              exists i :: 0 <= i < |media| && Resolve(media[i], dryrun, fileExists, canonicalize) == Failure(r.error)
                && forall j :: 0 <= j < i ==> Resolve(media[j], dryrun, fileExists, canonicalize).Success?
  {
    if media == [] && !dryrun {
      return Failure(NoLinkedMedia);
    }
    var paths: seq<Path> := [];
    for i := 0 to |media|
      invariant |paths| == i
      invariant forall j :: 0 <= j < i ==> Resolve(media[j], dryrun, fileExists, canonicalize) == Success(paths[j])
    {
      var link := media[i];
      if fileExists(link.absolute) {
        paths := paths + [link.absolute];
      } else if link.relative.Some? && fileExists(link.relative.value) {
        var c := canonicalize(link.relative.value);
        if c.None? {
          return Failure(CanonicalizeFailed(link.relative.value));
        }
        paths := paths + [c.value];
      } else if dryrun {
        paths := paths + [link.absolute];
      } else {
        return Failure(MediaNotFound);
      }
    }
    return Success(paths);
  }

  /** The `media_url`s, which every tier's ledger records as the original
      media (not the resolved paths). */
  function AbsolutePaths(media: seq<MediaLink>): (r: seq<Path>)
    ensures |r| == |media| && forall i :: 0 <= i < |media| ==> r[i] == media[i].absolute
  {
    seq(|media|, i requires 0 <= i < |media| => media[i].absolute)
  }

  /** One clip to cut: start, end, annotation id and value. */
  datatype Boundary = Boundary(start: int, end: int, id: string, value: string)

  /** Batch mode keeps an annotation when it has both time values and, if a
      minimum duration is set, lasts at least that long. */
  predicate Kept(a: Annotation, minDuration: Option<int>) {
    a.Timed() && (minDuration.None? || minDuration.value <= a.end.value - a.start.value)
  }

  function BoundaryOf(a: Annotation): (b: Boundary)
    requires a.Timed()
    ensures b.start == a.start.value && b.end == a.end.value && b.id == a.id && b.value == a.value
  {
    Boundary(a.start.value, a.end.value, a.id, a.value)
  }

  /** The boundaries batch mode keeps, in tier order. */
  function KeptBoundaries(annotations: seq<Annotation>, minDuration: Option<int>): (r: seq<Boundary>)
    ensures |r| <= |annotations|
    ensures minDuration.Some? ==> forall i :: 0 <= i < |r| ==> minDuration.value <= r[i].end - r[i].start
  {
    if annotations == [] then []
    else
      var last := annotations[|annotations| - 1];
      KeptBoundaries(annotations[..|annotations| - 1], minDuration)
        + (if Kept(last, minDuration) then [BoundaryOf(last)] else [])
  }

  /** A boundary is kept exactly when it comes from an annotation that
      passes the filter. */
  lemma {:induction false} KeptBoundariesExactly(annotations: seq<Annotation>, minDuration: Option<int>, b: Boundary)
    ensures b in KeptBoundaries(annotations, minDuration) <==>
              exists a :: a in annotations && Kept(a, minDuration) && b == BoundaryOf(a)
    decreases |annotations|
  {
    if annotations != [] {
      var front := annotations[..|annotations| - 1];
      var last := annotations[|annotations| - 1];
      KeptBoundariesExactly(front, minDuration, b);
      assert annotations == front + [last];
      if b in KeptBoundaries(annotations, minDuration) && b !in KeptBoundaries(front, minDuration) {
        assert last in annotations && Kept(last, minDuration) && b == BoundaryOf(last);
      }
      if exists a :: a in annotations && Kept(a, minDuration) && b == BoundaryOf(a) {
        var a :| a in annotations && Kept(a, minDuration) && b == BoundaryOf(a);
        if a != last {
          assert a in front;
        }
      }
    }
  }

  /** The durations `end - start` of the given boundaries. */
  function Durations(bs: seq<Boundary>): (r: seq<int>)
    ensures |r| == |bs| && forall i :: 0 <= i < |bs| ==> r[i] == bs[i].end - bs[i].start
  {
    seq(|bs|, i requires 0 <= i < |bs| => bs[i].end - bs[i].start)
  }

  /** The batch-mode filter of `run`, recording each kept duration. */
  method BatchBoundaries(annotations: seq<Annotation>, minDuration: Option<int>)
    returns (bs: seq<Boundary>, durations: seq<int>)
    ensures bs == KeptBoundaries(annotations, minDuration)
    ensures durations == Durations(bs)
  {
    bs := [];
    durations := [];
    for i := 0 to |annotations|
      invariant bs == KeptBoundaries(annotations[..i], minDuration)
      invariant durations == Durations(bs)
    {
      assert annotations[..i + 1][..i] == annotations[..i];
      var a := annotations[i];
      if a.start.Some? && a.end.Some? {
        var len := a.end.value - a.start.value;
        if minDuration.Some? {
          if minDuration.value > len {
          } else {
            durations := durations + [len];
            bs := bs + [Boundary(a.start.value, a.end.value, a.id, a.value)];
          }
        } else {
          durations := durations + [len];
          bs := bs + [Boundary(a.start.value, a.end.value, a.id, a.value)];
        }
      }
    }
    assert annotations[..|annotations|] == annotations;
  }

  /** The boundaries of one tier. Single mode asks before listing more than
      40 annotations (`listAll` is the answer) and takes the annotation the
      user selects (`choose`, `None` when no selection is made); it needs
      both time values and records no duration. */
  function TierBoundaries(cfg: Config, tier: Tier, choose: Tier -> Option<Annotation>, listAll: bool)
    : (r: Result<(seq<Boundary>, seq<int>), RunError>)
    ensures cfg.single && r.Success? ==> |r.value.0| == 1 && r.value.1 == []
    ensures cfg.single && |tier.annotations| > 40 && !listAll ==> r == Failure(UserAborted)
    ensures cfg.single && (|tier.annotations| <= 40 || listAll) && choose(tier).None? ==> r == Failure(SelectionFailed)
    ensures cfg.single && (|tier.annotations| <= 40 || listAll) && choose(tier).Some? && !choose(tier).value.Timed() ==>
              r == Failure(NoTimeValues(choose(tier).value))
    ensures cfg.single && (|tier.annotations| <= 40 || listAll) && choose(tier).Some? && choose(tier).value.Timed() ==>
              r == Success(([BoundaryOf(choose(tier).value)], []))
    ensures !cfg.single ==> r == Success((KeptBoundaries(tier.annotations, cfg.minDuration),
                                          Durations(KeptBoundaries(tier.annotations, cfg.minDuration))))
  {
    if cfg.single then
      if |tier.annotations| > 40 && !listAll then Failure(UserAborted)
      else match choose(tier)
        case None => Failure(SelectionFailed)
        case Some(a) =>
          if a.Timed() then Success(([BoundaryOf(a)], []))
          else Failure(NoTimeValues(a))
    else
      var bs := KeptBoundaries(tier.annotations, cfg.minDuration);
      Success((bs, Durations(bs)))
  }

  /** `_part` when the flag is set, nothing otherwise. */
  function Opt(flag: bool, part: string): (r: string)
    ensures flag ==> r == "_" + part
    ensures !flag ==> r == ""
  {
    if flag then "_" + part else ""
  }

  /** `annotation_` and the 1-based position `idx + 1` padded to four digits. */
  function IndexPart(idx: nat): string {
    "annotation_" + PaddedNat(idx + 1, 4)
  }

  /** Each only when its flag is set: `_tier`, `_annotationId`, the sanitised
      value and `_start-end`. */
  function OptionalParts(cfg: Config, tierId: string, b: Boundary): string {
    Opt(cfg.useTierId, tierId)
      + Opt(cfg.useAnnotationId, b.id)
      + Opt(cfg.useValue, SanitiseClipValue(b.value, cfg.asciiPath, cfg.maxLen))
      + Opt(cfg.useTime, IntToString(b.start) + "-" + IntToString(b.end))
  }

  /** The file stem of the clips for the boundary at 0-based position `idx`. */
  function StemOf(cfg: Config, idx: nat, tierId: string, b: Boundary): string {
    IndexPart(idx) + OptionalParts(cfg, tierId, b)
  }

  /** The stem: the index part, then the optional parts. */
  method AnnotationStem(cfg: Config, idx: nat, tierId: string, b: Boundary) returns (stem: string)
    ensures stem == StemOf(cfg, idx, tierId, b)
  {
    var parts := AppendOptionalParts(cfg, tierId, b);
    stem := "annotation_" + PaddedNat(idx + 1, 4) + parts;
  }

  /** The optional parts, appended one after the other. */
  method AppendOptionalParts(cfg: Config, tierId: string, b: Boundary) returns (parts: string)
    ensures parts == OptionalParts(cfg, tierId, b)
  {
    parts := "";
    if cfg.useTierId {
      parts := parts + ("_" + tierId);
    }
    Pushed("", parts, cfg.useTierId, tierId);
    assert "" + Opt(cfg.useTierId, tierId) == Opt(cfg.useTierId, tierId);
    ghost var first := parts;
    if cfg.useAnnotationId {
      parts := parts + ("_" + b.id);
    }
    Pushed(first, parts, cfg.useAnnotationId, b.id);
    ghost var second := parts;
    var processed := SanitiseClipValue(b.value, cfg.asciiPath, cfg.maxLen);
    if cfg.useValue {
      parts := parts + ("_" + processed);
    }
    Pushed(second, parts, cfg.useValue, processed);
    ghost var third := parts;
    var times := IntToString(b.start) + "-" + IntToString(b.end);
    if cfg.useTime {
      parts := parts + ("_" + times);
    }
    Pushed(third, parts, cfg.useTime, times);
  }

  /** One optional `push_str`: the text grows by the part exactly when its
      flag is set. */
  lemma {:induction false} Pushed(before: string, after: string, flag: bool, part: string)
    requires flag ==> after == before + ("_" + part)
    requires !flag ==> after == before
    ensures after == before + Opt(flag, part)
  {
    if !flag {
      assert before + "" == before;
    }
  }

  /** Up to 9999 clips, the four digits after `annotation_` read back the
      clip's 1-based position; without optional parts that is the whole
      stem. */
  lemma {:induction false} StemIndexReadsBack(cfg: Config, idx: nat, tierId: string, b: Boundary)
    requires idx + 1 < 10000
    ensures var s := StemOf(cfg, idx, tierId, b);
            && |s| >= 15 && s[..11] == "annotation_"
            && AllDigits(s[11..15]) && Value(s[11..15]) == idx + 1
    ensures !cfg.useTierId && !cfg.useAnnotationId && !cfg.useValue && !cfg.useTime ==>
              |StemOf(cfg, idx, tierId, b)| == 15
  {
    assert Pow10(4) == 10000;
    PaddedNatWidth(idx + 1, 4);
    var digits := PaddedNat(idx + 1, 4);
    var head := IndexPart(idx);
    assert head[..11] == "annotation_" && head[11..] == digits;
    var s := StemOf(cfg, idx, tierId, b);
    assert s[..15] == head;
  }

  /** With the value as the only optional part, the stem is
      `annotation_NNNN_` and a value of at most `maxLen` characters free of
      whitespace and of the deleted characters. */
  lemma {:induction false} StemWithValueOnly(cfg: Config, idx: nat, tierId: string, b: Boundary)
    requires !cfg.useTierId && !cfg.useAnnotationId && cfg.useValue && !cfg.useTime
    ensures var v := SanitiseClipValue(b.value, cfg.asciiPath, cfg.maxLen);
            && StemOf(cfg, idx, tierId, b) == IndexPart(idx) + ("_" + v)
            && |v| <= cfg.maxLen
            && forall i :: 0 <= i < |v| ==> v[i] !in CLIP_UNSAFE && !Strings.IsWhitespace(v[i])
  {
    var v := SanitiseClipValue(b.value, cfg.asciiPath, cfg.maxLen);
    ThirdPartOnly(tierId, b.id, v, IntToString(b.start) + "-" + IntToString(b.end));
    SanitisedValueIsSafe(b.value, cfg.asciiPath, cfg.maxLen);
  }

  /** Of four optional parts, only the third is present. */
  lemma {:induction false} ThirdPartOnly(w: string, x: string, y: string, z: string)
    ensures Opt(false, w) + Opt(false, x) + Opt(true, y) + Opt(false, z) == "_" + y
  {
    assert Opt(false, w) + Opt(false, x) == [];
  }

  /** `tier_outdir/{mediastem}_{annotstem}.{ext}`; a media file without an
      extension is an error. */
  function OutputPath(tierOutdir: Path, mediaIn: Path, stem: string): (r: Result<Path, RunError>)
    ensures r.Failure? <==> Extension(mediaIn).None?
    ensures r.Failure? ==> r.error == NoFileType(mediaIn)
  {
    match Extension(mediaIn)
    case None => Failure(NoFileType(mediaIn))
    case Some(ext) => Success(Join(tierOutdir, Parse(FileStem(mediaIn).value + "_" + stem + "." + ext)))
  }

  /** The clip name is `append_file_name` done right: the stem of the media
      file, `_`, the annotation stem and the media file's extension, in the
      tier's directory. */
  lemma {:induction false} OutputPathIsCorrectedAppend(tierOutdir: Path, mediaIn: Path, stem: string)
    requires Valid(mediaIn) && Extension(mediaIn).Some? && '/' !in stem
    ensures var name := FileName(mediaIn).value;
            OutputPath(tierOutdir, mediaIn, stem)
            == Success(Join(tierOutdir, Files.AppendFileNameKeepingSuffix(Path(false, [name]), stem)))
  {
    var name := FileName(mediaIn).value;
    var single := Path(false, [name]);
    var stemM := FileStem(mediaIn).value;
    var ext := Extension(mediaIn).value;
    assert FileStem(single) == Some(stemM) && Extension(single) == Some(ext);
    assert Files.DotExtension(single) == "." + ext;
    var newName := stemM + "_" + stem + "." + ext;
    assert newName == stemM + "_" + stem + Files.DotExtension(single);
    Files.StemIsPlain(mediaIn);
    assert newName == stemM + "_" + (stem + "." + ext);
    Files.UnderscoreNameIsPlain(stemM, stem + "." + ext);
    Files.Rename(single, newName);
    assert Files.AppendFileNameKeepingSuffix(single, stem) == Path(false, [newName]);
    ParsePlainName(newName);
  }

  /** The position of the first media path without an extension. */
  function FirstWithoutExtension(media: seq<Path>): (r: Option<nat>)
    ensures r.None? <==> forall i :: 0 <= i < |media| ==> Extension(media[i]).Some?
    ensures r.Some? ==> r.value < |media| && Extension(media[r.value]).None?
    ensures r.Some? ==> forall i :: 0 <= i < r.value ==> Extension(media[i]).Some?
  {
    if media == [] then None
    else if Extension(media[0]).None? then Some(0)
    else
      match FirstWithoutExtension(media[1..])
      case None => None
      case Some(k) => Some(k + 1)
  }

  lemma {:induction false} FirstWithoutExtensionIs(media: seq<Path>, i: nat)
    requires i < |media| && Extension(media[i]).None?
    requires forall j :: 0 <= j < i ==> Extension(media[j]).Some?
    ensures FirstWithoutExtension(media) == Some(i)
  {
  }

  /** `f` over every element, in order, stopping at the first error: the
      shape of every loop of `run` that returns early with `?`. */
  function Traverse<T, U, E>(f: T -> Result<U, E>, xs: seq<T>): (r: Result<seq<U>, E>)
    ensures r.Success? ==> |r.value| == |xs|
  {
    if xs == [] then Success([])
    else
      var n := |xs| - 1;
      match Traverse(f, xs[..n])
      case Failure(e) => Failure(e)
      case Success(ys) =>
        match f(xs[n])
        case Failure(e) => Failure(e)
        case Success(y) => Success(ys + [y])
  }

  /** One more element: its error stops the traversal, its value is appended. */
  lemma {:induction false} TraverseStep<T, U, E>(f: T -> Result<U, E>, xs: seq<T>, k: nat)
    requires k < |xs| && Traverse(f, xs[..k]).Success?
    ensures Traverse(f, xs[..k + 1])
            == match f(xs[k])
               case Failure(e) => Failure(e)
               case Success(y) => Success(Traverse(f, xs[..k]).value + [y])
  {
    assert xs[..k + 1][..k] == xs[..k];
  }

  /** Once a prefix fails, the whole traversal fails with its error. */
  lemma {:induction false} TraverseFailurePersists<T, U, E>(f: T -> Result<U, E>, xs: seq<T>, k: nat)
    requires k <= |xs| && Traverse(f, xs[..k]).Failure?
    ensures Traverse(f, xs) == Traverse(f, xs[..k])
    decreases |xs| - k
  {
    if k < |xs| {
      assert xs[..k + 1][..k] == xs[..k];
      TraverseFailurePersists(f, xs, k + 1);
    } else {
      assert xs[..k] == xs;
    }
  }

  /** A successful traversal holds `f`'s value for every element. */
  lemma {:induction false} TraverseEntry<T, U, E>(f: T -> Result<U, E>, xs: seq<T>, i: nat)
    requires i < |xs| && Traverse(f, xs).Success?
    ensures f(xs[i]) == Success(Traverse(f, xs).value[i])
    decreases |xs|
  {
    var n := |xs| - 1;
    if i < n {
      TraverseEntry(f, xs[..n], i);
      assert xs[..n][i] == xs[i];
    }
  }

  /** A traversal fails exactly when some element fails, and then with the
      error of the first failing element. */
  lemma {:induction false} TraverseFails<T, U, E>(f: T -> Result<U, E>, xs: seq<T>)
    ensures Traverse(f, xs).Success? <==> forall i :: 0 <= i < |xs| ==> f(xs[i]).Success?
    ensures Traverse(f, xs).Failure? ==>
              exists i :: 0 <= i < |xs| && f(xs[i]) == Failure(Traverse(f, xs).error)
                          && forall j :: 0 <= j < i ==> f(xs[j]).Success?
    decreases |xs|
  {
    if xs != [] {
      var n := |xs| - 1;
      var prefix := xs[..n];
      TraverseFails(f, prefix);
      forall j | 0 <= j < n
        ensures prefix[j] == xs[j]
      {
      }
      if Traverse(f, prefix).Failure? {
        var i :| 0 <= i < n && f(prefix[i]) == Failure(Traverse(f, prefix).error)
                 && forall j :: 0 <= j < i ==> f(prefix[j]).Success?;
        assert f(xs[i]) == Failure(Traverse(f, xs).error);
      } else if f(xs[n]).Failure? {
        assert f(xs[n]) == Failure(Traverse(f, xs).error);
      }
    }
  }

  /** The output path of one media file, with the tier directory and the
      stem fixed. */
  function OutputPathFor(tierOutdir: Path, stem: string): Path -> Result<Path, RunError> {
    (m: Path) => OutputPath(tierOutdir, m, stem)
  }

  /** The clip paths of one boundary: one per media file, in media order;
      the first media file without an extension stops the boundary. */
  function ClipPaths(tierOutdir: Path, media: seq<Path>, stem: string): (r: Result<seq<Path>, RunError>)
    ensures r.Success? ==> |r.value| == |media|
  {
    Traverse(OutputPathFor(tierOutdir, stem), media)
  }

  /** A boundary fails exactly when some media file has no extension, and
      then names the first such file. */
  lemma {:induction false} ClipPathsFails(tierOutdir: Path, media: seq<Path>, stem: string)
    ensures var r := ClipPaths(tierOutdir, media, stem);
            && (r.Success? <==> forall i :: 0 <= i < |media| ==> Extension(media[i]).Some?)
            && (r.Failure? ==> r.error == NoFileType(media[FirstWithoutExtension(media).value]))
  {
    var f := OutputPathFor(tierOutdir, stem);
    TraverseFails(f, media);
    if Traverse(f, media).Failure? {
      var i :| 0 <= i < |media| && f(media[i]) == Failure(Traverse(f, media).error)
               && forall j :: 0 <= j < i ==> f(media[j]).Success?;
      FirstWithoutExtensionIs(media, i);
    }
  }

  /** Clip path `i` is the output path of media file `i`. */
  lemma {:induction false} ClipPathsEntry(tierOutdir: Path, media: seq<Path>, stem: string, i: nat)
    requires i < |media| && ClipPaths(tierOutdir, media, stem).Success?
    ensures OutputPath(tierOutdir, media[i], stem) == Success(ClipPaths(tierOutdir, media, stem).value[i])
  {
    TraverseEntry(OutputPathFor(tierOutdir, stem), media, i);
  }

  /** The ledger entry of one boundary: its clip paths and its times. */
  function ClipEntry(tierOutdir: Path, media: seq<Path>, stem: string, b: Boundary): (r: Result<ClipRecord, RunError>)
    ensures r.Success? <==> ClipPaths(tierOutdir, media, stem).Success?
    ensures r.Failure? ==> r.error == ClipPaths(tierOutdir, media, stem).error
    ensures r.Success? ==> r.value == ClipRecord(ClipPaths(tierOutdir, media, stem).value, b.start, b.end)
  {
    match ClipPaths(tierOutdir, media, stem)
    case Failure(e) => Failure(e)
    case Success(ps) => Success(ClipRecord(ps, b.start, b.end))
  }

  /** The clip of one boundary: its times, then one path per media file. */
  method ClipForBoundary(tierOutdir: Path, media: seq<Path>, stem: string, b: Boundary)
    returns (r: Result<Clip, RunError>)
    ensures r.Success? <==> ClipEntry(tierOutdir, media, stem, b).Success?
    ensures r.Failure? ==> r == Failure(ClipEntry(tierOutdir, media, stem, b).error)
    ensures r.Success? ==> fresh(r.value) && r.value.Value() == ClipEntry(tierOutdir, media, stem, b).value
  {
    var clip := new Clip.Default();
    clip.Ts(b.start, b.end);
    for i := 0 to |media|
      invariant fresh(clip)
      invariant clip.start == b.start && clip.end == b.end
      invariant ClipPaths(tierOutdir, media[..i], stem) == Success(clip.media)
    {
      var out := OutputPath(tierOutdir, media[i], stem);
      TraverseStep(OutputPathFor(tierOutdir, stem), media, i);
      if out.Failure? {
        TraverseFailurePersists(OutputPathFor(tierOutdir, stem), media, i + 1);
        assert media[..|media|] == media;
        return Failure(out.error);
      }
      clip.Add(out.value);
    }
    assert media[..|media|] == media;
    return Success(clip);
  }

  /** The stems of a tier's clips, one per boundary, in boundary order. */
  function Stems(cfg: Config, tierId: string, bs: seq<Boundary>): (r: seq<string>)
    ensures |r| == |bs|
  {
    MapIndexed((i: nat, b: Boundary) => StemOf(cfg, i, tierId, b), bs)
  }

  /** `f` applied to every element together with its 0-based position. */
  function MapIndexed<T, U>(f: (nat, T) -> U, xs: seq<T>): (r: seq<U>)
    ensures |r| == |xs|
  {
    if xs == [] then []
    else
      var n := |xs| - 1;
      MapIndexed(f, xs[..n]) + [f(n, xs[n])]
  }

  /** Element `i` of the result is `f` at position `i`. */
  lemma {:induction false} MapIndexedEntry<T, U>(f: (nat, T) -> U, xs: seq<T>, i: nat)
    requires i < |xs|
    ensures MapIndexed(f, xs)[i] == f(i, xs[i])
    decreases |xs|
  {
    var n := |xs| - 1;
    if i < n {
      MapIndexedEntry(f, xs[..n], i);
      assert xs[..n][i] == xs[i];
    }
  }

  /** Stem `i` of a tier is the stem of boundary `i` at position `i`. */
  lemma {:induction false} StemsEntry(cfg: Config, tierId: string, bs: seq<Boundary>, i: nat)
    requires i < |bs|
    ensures Stems(cfg, tierId, bs)[i] == StemOf(cfg, i, tierId, bs[i])
  {
    MapIndexedEntry((i: nat, b: Boundary) => StemOf(cfg, i, tierId, b), bs, i);
  }

  /** The entry of one boundary, given its stem. */
  function ClipEntryFor(tierOutdir: Path, media: seq<Path>): ((string, Boundary)) -> Result<ClipRecord, RunError> {
    (sb: (string, Boundary)) => ClipEntry(tierOutdir, media, sb.0, sb.1)
  }

  /** Pairs each stem with its boundary. */
  function Zip<A, B>(xs: seq<A>, ys: seq<B>): (r: seq<(A, B)>)
    requires |xs| == |ys|
    ensures |r| == |xs| && forall i :: 0 <= i < |r| ==> r[i] == (xs[i], ys[i])
  {
    seq(|xs|, i requires 0 <= i < |xs| => (xs[i], ys[i]))
  }

  /** The ledger entries of one tier, given the stem of each boundary: one
      entry per boundary, in boundary order; the first failing boundary stops
      the tier. */
  function TierClips(tierOutdir: Path, media: seq<Path>, stems: seq<string>, bs: seq<Boundary>)
    : (r: Result<seq<ClipRecord>, RunError>)
    requires |stems| == |bs|
    ensures r.Success? ==> |r.value| == |bs|
  {
    Traverse(ClipEntryFor(tierOutdir, media), Zip(stems, bs))
  }

  /** Entry `i` of a tier holds the times of boundary `i` and the clip
      paths named after its stem. */
  lemma {:induction false} TierClipsEntry(tierOutdir: Path, media: seq<Path>, stems: seq<string>,
                                          bs: seq<Boundary>, i: nat)
    requires |stems| == |bs|
    requires i < |bs| && TierClips(tierOutdir, media, stems, bs).Success?
    ensures var e := TierClips(tierOutdir, media, stems, bs).value[i];
            && e.start == bs[i].start && e.end == bs[i].end
            && ClipPaths(tierOutdir, media, stems[i]) == Success(e.media)
  {
    TraverseEntry(ClipEntryFor(tierOutdir, media), Zip(stems, bs), i);
  }

  /** A tier fails exactly when some boundary's clip paths fail, and then
      with the error of the first such boundary. */
  lemma {:induction false} TierClipsFails(tierOutdir: Path, media: seq<Path>, stems: seq<string>,
                                          bs: seq<Boundary>)
    requires |stems| == |bs|
    ensures TierClips(tierOutdir, media, stems, bs).Failure? <==>
              exists i :: 0 <= i < |bs| && ClipPaths(tierOutdir, media, stems[i]).Failure?
    ensures TierClips(tierOutdir, media, stems, bs).Failure? ==>
              exists i :: 0 <= i < |bs| && ClipPaths(tierOutdir, media, stems[i]).Failure?
                          && ClipPaths(tierOutdir, media, stems[i]).error == TierClips(tierOutdir, media, stems, bs).error
                          && forall j :: 0 <= j < i ==> ClipPaths(tierOutdir, media, stems[j]).Success?
  {
    TraverseFails(ClipEntryFor(tierOutdir, media), Zip(stems, bs));
  }

  /** The state of the ledger kept for a tier. */
  datatype Ledger = Ledger(originalMedia: seq<Path>, clips: seq<ClipRecord>)

  /** The plan for one tier: its directory, its ledger file and the ledger
      written there. */
  datatype TierPlan = TierPlan(outdir: Path, ledgerPath: Path, ledger: Ledger)

  /** `outdir/<tier id>`. */
  function TierOutdir(outdir: Path, tierId: string): (r: Path)
    ensures IsPlainName(tierId) ==> r == Path(outdir.absolute, outdir.comps + [tierId])
  {
    assert IsPlainName(tierId) ==> Parse(tierId) == Path(false, [tierId]) by {
      if IsPlainName(tierId) { ParsePlainName(tierId); }
    }
    Join(outdir, Parse(tierId))
  }

  /** `tier_outdir/<tier id with extension json>`. */
  function LedgerPath(tierOutdir: Path, tierId: string): (r: Path)
    ensures Valid(tierOutdir) ==> Valid(r)
  {
    Join(tierOutdir, WithExtension(Parse(tierId), "json"))
  }

  /** A tier id without a dot names its ledger `<tier id>.json`; a dotted
      one loses everything after its last dot. */
  lemma {:induction false} LedgerPathName(tierOutdir: Path, tierId: string)
    requires IsPlainName(tierId)
    ensures '.' !in tierId ==>
              LedgerPath(tierOutdir, tierId) == Join(tierOutdir, Path(false, [tierId + ".json"]))
    ensures SplitAtDot(tierId).1.Some? ==>
              LedgerPath(tierOutdir, tierId) == Join(tierOutdir, Path(false, [SplitAtDot(tierId).0 + ".json"]))
  {
    ParsePlainName(tierId);
    if '.' !in tierId {
      SplitAtDotAppend2(tierId);
      assert tierId + "." + "json" == tierId + ".json";
      DotNameIsPlain(tierId, "json");
      ParsePlainName(tierId + ".json");
    } else if SplitAtDot(tierId).1.Some? {
      var short := SplitAtDot(tierId).0;
      assert '/' !in short by {
        assert tierId == short + "." + SplitAtDot(tierId).1.value;
      }
      assert short + "." + "json" == short + ".json";
      DotNameIsPlain(short, "json");
      ParsePlainName(short + ".json");
    }
  }

  lemma {:induction false} SplitAtDotAppend2(name: string)
    requires '.' !in name
    ensures SplitAtDot(name) == (name, None)
  {
  }

  /** The plan of one tier, starting from a copy of the base ledger. */
  function TierPlanOf(cfg: Config, outdir: Path, base: Ledger, media: seq<Path>, tier: Tier,
                      choose: Tier -> Option<Annotation>, listAll: bool)
    : (r: Result<(TierPlan, seq<int>), RunError>)
    ensures r.Success? ==> r.value.0.ledger.originalMedia == base.originalMedia
    ensures r.Success? ==> r.value.0.outdir == TierOutdir(outdir, tier.tierId)
  {
    var dir := TierOutdir(outdir, tier.tierId);
    match TierBoundaries(cfg, tier, choose, listAll)
    case Failure(e) => Failure(e)
    case Success((bs, ds)) =>
      match TierClips(dir, media, Stems(cfg, tier.tierId, bs), bs)
      case Failure(e) => Failure(e)
      case Success(cs) =>
        Success((TierPlan(dir, LedgerPath(dir, tier.tierId), Ledger(base.originalMedia, base.clips + cs)), ds))
  }

  /** The boundaries of one tier, computed as `run` does it. */
  method ComputeBoundaries(cfg: Config, tier: Tier, choose: Tier -> Option<Annotation>, listAll: bool)
    returns (r: Result<(seq<Boundary>, seq<int>), RunError>)
    ensures r == TierBoundaries(cfg, tier, choose, listAll)
  {
    if cfg.single {
      if |tier.annotations| > 40 && !listAll {
        return Failure(UserAborted);
      }
      var chosen := choose(tier);
      if chosen.None? {
        return Failure(SelectionFailed);
      }
      var a := chosen.value;
      if a.start.Some? && a.end.Some? {
        return Success(([Boundary(a.start.value, a.end.value, a.id, a.value)], []));
      } else {
        return Failure(NoTimeValues(a));
      }
    } else {
      var bs, durations := BatchBoundaries(tier.annotations, cfg.minDuration);
      return Success((bs, durations));
    }
  }

  /** The plan of one tier, computed as `run` does it. */
  method PlanTier(cfg: Config, outdir: Path, base: Clips, media: seq<Path>, tier: Tier,
                  choose: Tier -> Option<Annotation>, listAll: bool)
    returns (r: Result<(TierPlan, seq<int>), RunError>)
    ensures r == TierPlanOf(cfg, outdir, Ledger(base.originalMedia, base.clips), media, tier, choose, listAll)
  {
    var dir := TierOutdir(outdir, tier.tierId);
    var found := ComputeBoundaries(cfg, tier, choose, listAll);
    if found.Failure? {
      return Failure(found.error);
    }
    var bs := found.value.0;
    var durations := found.value.1;
    var stems := TierStems(cfg, tier.tierId, bs);
    var tierClips := CutTier(dir, base, media, stems, bs);
    if tierClips.Failure? {
      return Failure(tierClips.error);
    }
    var ledger := Ledger(tierClips.value.originalMedia, tierClips.value.clips);
    return Success((TierPlan(dir, LedgerPath(dir, tier.tierId), ledger), durations));
  }

  /** The stem of every boundary of a tier, in boundary order. */
  method TierStems(cfg: Config, tierId: string, bs: seq<Boundary>) returns (stems: seq<string>)
    ensures stems == Stems(cfg, tierId, bs)
  {
    stems := [];
    for idx := 0 to |bs|
      invariant stems == Stems(cfg, tierId, bs[..idx])
    {
      assert bs[..idx + 1][..idx] == bs[..idx];
      var stem := AnnotationStem(cfg, idx, tierId, bs[idx]);
      stems := stems + [stem];
    }
    assert bs[..|bs|] == bs;
  }

  /** The clips loop of one tier, given the stem of each boundary: a copy of
      the base ledger gets one entry per boundary. */
  method CutTier(dir: Path, base: Clips, media: seq<Path>, stems: seq<string>, bs: seq<Boundary>)
    returns (r: Result<Clips, RunError>)
    requires |stems| == |bs|
    ensures var cs := TierClips(dir, media, stems, bs);
            && r.Success? == cs.Success?
            && (r.Failure? ==> r.error == cs.error)
            && (r.Success? ==> fresh(r.value) && r.value.originalMedia == base.originalMedia
                               && r.value.clips == base.clips + cs.value)
  {
    ghost var f := ClipEntryFor(dir, media);
    ghost var pairs := Zip(stems, bs);
    var tierClips := base.Copy();
    for idx := 0 to |bs|
      invariant fresh(tierClips)
      invariant tierClips.originalMedia == base.originalMedia
      invariant Traverse(f, pairs[..idx]).Success?
      invariant tierClips.clips == base.clips + Traverse(f, pairs[..idx]).value
    {
      var clip := ClipForBoundary(dir, media, stems[idx], bs[idx]);
      TraverseStep(f, pairs, idx);
      if clip.Failure? {
        TraverseFailurePersists(f, pairs, idx + 1);
        return Failure(clip.error);
      }
      tierClips.Add(clip.value);
    }
    assert pairs[..|bs|] == pairs;
    return Success(tierClips);
  }

  /** The outcome of the whole run: one plan per tier, in tier order, and
      the durations recorded over all tiers. */
  datatype RunPlan = RunPlan(tiers: seq<TierPlan>, durations: seq<int>)

  /** The per-tier plan, with everything but the tier fixed. */
  function Planner(cfg: Config, outdir: Path, base: Ledger, media: seq<Path>,
                   choose: Tier -> Option<Annotation>, listAll: bool)
    : Tier -> Result<(TierPlan, seq<int>), RunError>
  {
    (t: Tier) => TierPlanOf(cfg, outdir, base, media, t, choose, listAll)
  }

  /** The plans of all tiers, in tier order, and their durations one after
      the other; the first failing tier stops the run. */
  function Collect(plan: Tier -> Result<(TierPlan, seq<int>), RunError>, tiers: seq<Tier>)
    : (r: Result<RunPlan, RunError>)
    ensures r.Success? ==> |r.value.tiers| == |tiers|
  {
    if tiers == [] then Success(RunPlan([], []))
    else
      var n := |tiers| - 1;
      match Collect(plan, tiers[..n])
      case Failure(e) => Failure(e)
      case Success(p) =>
        match plan(tiers[n])
        case Failure(e) => Failure(e)
        case Success((tp, ds)) => Success(RunPlan(p.tiers + [tp], p.durations + ds))
  }

  /** The plans of all tiers, every one starting from the same base ledger. */
  function PlanOf(cfg: Config, outdir: Path, base: Ledger, media: seq<Path>, tiers: seq<Tier>,
                  choose: Tier -> Option<Annotation>, listAll: bool)
    : (r: Result<RunPlan, RunError>)
    ensures r.Success? ==> |r.value.tiers| == |tiers|
  {
    Collect(Planner(cfg, outdir, base, media, choose, listAll), tiers)
  }

  /** A successful run holds each tier's own plan at that tier's position. */
  lemma {:induction false} CollectEntries(plan: Tier -> Result<(TierPlan, seq<int>), RunError>, tiers: seq<Tier>)
    requires Collect(plan, tiers).Success?
    ensures forall t :: 0 <= t < |tiers| ==>
              && plan(tiers[t]).Success?
              && Collect(plan, tiers).value.tiers[t] == plan(tiers[t]).value.0
    decreases |tiers|
  {
    if tiers != [] {
      var n := |tiers| - 1;
      CollectEntries(plan, tiers[..n]);
      forall t | 0 <= t < n
        ensures tiers[..n][t] == tiers[t]
      {
      }
    }
  }

  /** Each tier's plan is the plan of that tier alone. */
  lemma {:induction false} PlanOfTiers(cfg: Config, outdir: Path, base: Ledger, media: seq<Path>, tiers: seq<Tier>,
                                       choose: Tier -> Option<Annotation>, listAll: bool)
    requires PlanOf(cfg, outdir, base, media, tiers, choose, listAll).Success?
    ensures forall t :: 0 <= t < |tiers| ==>
              && TierPlanOf(cfg, outdir, base, media, tiers[t], choose, listAll).Success?
              && PlanOf(cfg, outdir, base, media, tiers, choose, listAll).value.tiers[t]
                 == TierPlanOf(cfg, outdir, base, media, tiers[t], choose, listAll).value.0
  {
    CollectEntries(Planner(cfg, outdir, base, media, choose, listAll), tiers);
  }

  /** The per-tier loop of `run`: the base ledger holds the `media_url`s and
      no entries; every tier works on a copy of it. */
  method PlanRun(cfg: Config, outdir: Path, links: seq<MediaLink>, media: seq<Path>, tiers: seq<Tier>,
                 choose: Tier -> Option<Annotation>, listAll: bool)
    returns (r: Result<RunPlan, RunError>)
    ensures r == PlanOf(cfg, outdir, Ledger(AbsolutePaths(links), []), media, tiers, choose, listAll)
  {
    var base := new Clips.WithMedia(AbsolutePaths(links));
    ghost var plan := Planner(cfg, outdir, Ledger(AbsolutePaths(links), []), media, choose, listAll);
    var plans: seq<TierPlan> := [];
    var durations: seq<int> := [];
    for t := 0 to |tiers|
      invariant base.originalMedia == AbsolutePaths(links) && base.clips == []
      invariant Collect(plan, tiers[..t]) == Success(RunPlan(plans, durations))
    {
      var tp := PlanTier(cfg, outdir, base, media, tiers[t], choose, listAll);
      assert tp == plan(tiers[t]);
      CollectSnoc(plan, tiers, t, RunPlan(plans, durations));
      if tp.Failure? {
        CollectFailurePersists(plan, tiers, t + 1);
        assert tiers[..|tiers|] == tiers;
        return Failure(tp.error);
      }
      plans := plans + [tp.value.0];
      durations := durations + tp.value.1;
    }
    assert tiers[..|tiers|] == tiers;
    return Success(RunPlan(plans, durations));
  }

  /** One more tier: its plan is appended, or its error ends the run. */
  lemma {:induction false} CollectSnoc(plan: Tier -> Result<(TierPlan, seq<int>), RunError>,
                                       tiers: seq<Tier>, t: nat, acc: RunPlan)
    requires t < |tiers| && Collect(plan, tiers[..t]) == Success(acc)
    ensures Collect(plan, tiers[..t + 1]) == match plan(tiers[t])
              case Failure(e) => Failure(e)
              case Success((tp, ds)) => Success(RunPlan(acc.tiers + [tp], acc.durations + ds))
  {
    assert tiers[..t + 1][..t] == tiers[..t];
  }

  /** Once a tier fails, the whole run fails with its error. */
  lemma {:induction false} CollectFailurePersists(plan: Tier -> Result<(TierPlan, seq<int>), RunError>,
                                                  tiers: seq<Tier>, k: nat)
    requires k <= |tiers| && Collect(plan, tiers[..k]).Failure?
    ensures Collect(plan, tiers) == Collect(plan, tiers[..k])
    decreases |tiers| - k
  {
    if k < |tiers| {
      assert tiers[..k + 1][..k] == tiers[..k];
      CollectFailurePersists(plan, tiers, k + 1);
    } else {
      assert tiers[..k] == tiers;
    }
  }

  /** Every tier's ledger starts as the same base ledger: the `media_url`s
      and, before its own entries, nothing; it holds one entry per boundary
      of its tier. */
  lemma {:induction false} PlanLedgers(cfg: Config, outdir: Path, links: seq<MediaLink>, media: seq<Path>, tiers: seq<Tier>,
                    choose: Tier -> Option<Annotation>, listAll: bool)
    requires PlanOf(cfg, outdir, Ledger(AbsolutePaths(links), []), media, tiers, choose, listAll).Success?
    ensures var p := PlanOf(cfg, outdir, Ledger(AbsolutePaths(links), []), media, tiers, choose, listAll).value;
            forall t :: 0 <= t < |tiers| ==>
              && p.tiers[t].ledger.originalMedia == AbsolutePaths(links)
              && TierBoundaries(cfg, tiers[t], choose, listAll).Success?
              && |p.tiers[t].ledger.clips| == |TierBoundaries(cfg, tiers[t], choose, listAll).value.0|
  {
    var base := Ledger(AbsolutePaths(links), []);
    PlanOfTiers(cfg, outdir, base, media, tiers, choose, listAll);
    forall t | 0 <= t < |tiers|
      ensures TierBoundaries(cfg, tiers[t], choose, listAll).Success?
      ensures |TierPlanOf(cfg, outdir, base, media, tiers[t], choose, listAll).value.0.ledger.clips|
              == |TierBoundaries(cfg, tiers[t], choose, listAll).value.0|
    {
      assert TierPlanOf(cfg, outdir, base, media, tiers[t], choose, listAll).Success?;
    }
  }

  /** The durations of a run are those of its tiers, one after the other;
      so a run whose every tier records none records none. */
  lemma {:induction false} CollectNoDurations(plan: Tier -> Result<(TierPlan, seq<int>), RunError>, tiers: seq<Tier>)
    requires Collect(plan, tiers).Success?
    requires forall t :: 0 <= t < |tiers| && plan(tiers[t]).Success? ==> plan(tiers[t]).value.1 == []
    ensures Collect(plan, tiers).value.durations == []
    decreases |tiers|
  {
    if tiers != [] {
      var n := |tiers| - 1;
      forall t | 0 <= t < n && plan(tiers[..n][t]).Success?
        ensures plan(tiers[..n][t]).value.1 == []
      {
        assert tiers[..n][t] == tiers[t];
      }
      CollectNoDurations(plan, tiers[..n]);
    }
  }

  /** Single mode records no durations. */
  lemma {:induction false} SingleModeNoDurations(cfg: Config, outdir: Path, base: Ledger, media: seq<Path>, tiers: seq<Tier>,
                                                 choose: Tier -> Option<Annotation>, listAll: bool)
    requires cfg.single
    requires PlanOf(cfg, outdir, base, media, tiers, choose, listAll).Success?
    ensures PlanOf(cfg, outdir, base, media, tiers, choose, listAll).value.durations == []
  {
    var plan := Planner(cfg, outdir, base, media, choose, listAll);
    forall t | 0 <= t < |tiers| && plan(tiers[t]).Success?
      ensures plan(tiers[t]).value.1 == []
    {
      assert TierPlanOf(cfg, outdir, base, media, tiers[t], choose, listAll).Success?;
    }
    CollectNoDurations(plan, tiers);
  }

  /** The longest recorded duration, 0 when none was recorded. */
  function Longest(durations: seq<int>): (r: int)
    ensures durations == [] ==> r == 0
    ensures durations != [] ==> r in durations
    ensures forall i :: 0 <= i < |durations| ==> durations[i] <= r
  {
    if durations == [] then 0
    else if |durations| == 1 then durations[0]
    else
      var m := Longest(durations[1..]);
      if durations[0] >= m then durations[0] else m
  }

  /** The shortest recorded duration, 0 when none was recorded. */
  function Shortest(durations: seq<int>): (r: int)
    ensures durations == [] ==> r == 0
    ensures durations != [] ==> r in durations
    ensures forall i :: 0 <= i < |durations| ==> r <= durations[i]
  {
    if durations == [] then 0
    else if |durations| == 1 then durations[0]
    else
      var m := Shortest(durations[1..]);
      if durations[0] <= m then durations[0] else m
  }
}
