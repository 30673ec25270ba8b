/** `src/files.rs`: the path-name helpers and the yes/no confirmation loop.
    File-system effects (`writefile`, `exists`) and the `inquire` multi-select
    are not part of this module. */
module Files {
  import opened Wrappers
  import opened Strings
  import opened Paths

  /** How `confirm` reads one line of input. */
  datatype Answer = Yes | No | Unrecognised

  /** The answer after lower-casing and trimming: `y`/`yes` or `n`/`no`. */
  function Classify(line: string): Answer {
    var t := Trim(Lower(line));
    if t == "y" || t == "yes" then Yes
    else if t == "n" || t == "no" then No
    else Unrecognised
  }

  /** Lower-casing is idempotent, so `Classify` ignores case. */
  lemma {:induction false} ClassifyIgnoresCase(line: string)
    ensures Classify(Lower(line)) == Classify(line)
  {
    LowerIdempotent(line);
  }

  /** Why reading stopped without an answer: the input ran out (the program
      itself would keep prompting, or fail on an I/O error). */
  datatype InputError = Exhausted

  /** `confirm`: reads lines until one is recognised; `y`/`yes` gives true,
      `n`/`no` false. */
  method Confirm(lines: seq<string>) returns (r: Result<bool, InputError>, ghost used: nat)
    ensures r.Success? ==>
              && used < |lines| && Classify(lines[used]) != Unrecognised
              && r.value == (Classify(lines[used]) == Yes)
              && forall j :: 0 <= j < used ==> Classify(lines[j]) == Unrecognised
    ensures r.Failure? ==> forall j :: 0 <= j < |lines| ==> Classify(lines[j]) == Unrecognised
  {
    var k := 0;
    while k < |lines|
      invariant k <= |lines|
      invariant forall j :: 0 <= j < k ==> Classify(lines[j]) == Unrecognised
    {
      match Classify(lines[k])
      case Yes => return Success(true), k;
      case No => return Success(false), k;
      case Unrecognised =>
      k := k + 1;
    }
    return Failure(Exhausted), k;
  }

  /** `has_extension`: the path's extension, lower-cased, equals `ext`
      lower-cased. */
  function HasExtension(p: Path, ext: string): (r: bool)
    ensures r <==> Extension(p).Some? && Lower(Extension(p).value) == Lower(ext)
    ensures Extension(p).Some? && Extension(p).value == ext ==> r
  {
    match Extension(p)
    case None => false
    case Some(e) => Lower(e) == Lower(ext)
  }

  /** The comparison ignores the case of the argument. */
  lemma {:induction false} HasExtensionIgnoresCase(p: Path, ext: string)
    ensures HasExtension(p, ext) == HasExtension(p, Lower(ext))
  {
    LowerIdempotent(ext);
  }

  /** `is_hidden`: the path has a file name and it starts with `.`. */
  function IsHidden(p: Path): (r: bool)
    ensures r <==> FileName(p).Some? && |FileName(p).value| > 0 && FileName(p).value[0] == '.'
  {
    match FileName(p)
    case None => false
    case Some(n) => |n| > 0 && n[0] == '.'
  }

  /** A hidden file whose only dot is the leading one has no extension, so
      hidden media without a second dot have no file type. */
  lemma {:induction false} HiddenWithoutExtension(p: Path)
    requires IsHidden(p) && '.' !in FileName(p).value[1..]
    ensures Extension(p).None?
  {
    LastIndexOfUnique(FileName(p).value, '.', 0);
  }

  /** `file_stem_as_string`. */
  function FileStemAsString(p: Path): (r: Option<string>)
    ensures r.None? <==> FileName(p).None?
    ensures r.Some? && Extension(p).None? ==> r == FileName(p)
    ensures r.Some? && Extension(p).Some? ==> FileName(p).value == r.value + "." + Extension(p).value
  {
    FileStem(p)
  }

  /** `append_file_name` as written: rename the file to `stem_suffix`, then
      re-apply the original extension with `with_extension`, which cuts the
      new name at ITS last dot. */
  function AppendFileName(p: Path, suffix: string): (r: Path)
    ensures FileStem(p).None? ==> r == p
  {
    var newPath := match FileStem(p)
      case Some(stem) => WithFileName(p, stem + "_" + suffix)
      case None => p;
    match Extension(p)
    case Some(ext) => WithExtension(newPath, ext)
    case None => newPath
  }

  /** `affix_file_name` as written: `prefix + delim + stem + delim + suffix`,
      a delimiter only beside an affix that is present, then the original
      extension re-applied with `with_extension`. */
  function AffixFileName(p: Path, prefix: Option<string>, suffix: Option<string>, delimiter: Option<string>): (r: Path)
    ensures FileStem(p).None? ==> r == p
  {
    var newPath := match FileStem(p)
      case Some(stem) => WithFileName(p, AffixedName(stem, prefix, suffix, delimiter))
      case None => p;
    match Extension(p)
    case Some(ext) => WithExtension(newPath, ext)
    case None => newPath
  }

  /** The new file stem `affix_file_name` builds. */
  function AffixedName(stem: string, prefix: Option<string>, suffix: Option<string>, delimiter: Option<string>): (r: string)
    ensures prefix.None? && suffix.None? ==> r == stem
    ensures prefix.Some? && suffix.None? ==> r == prefix.value + delimiter.GetOr("") + stem
    ensures prefix.None? && suffix.Some? ==> r == stem + delimiter.GetOr("") + suffix.value
    ensures prefix.Some? && suffix.Some? ==> r == prefix.value + delimiter.GetOr("") + stem + delimiter.GetOr("") + suffix.value
  {
    var delimPrefix := if prefix.None? then "" else delimiter.GetOr("");
    var delimSuffix := if suffix.None? then "" else delimiter.GetOr("");
    prefix.GetOr("") + delimPrefix + stem + delimSuffix + suffix.GetOr("")
  }

  /** A file stem and an extension are non-empty pieces of a component. */
  lemma {:induction false} StemIsPlain(p: Path)
    requires Valid(p) && FileStem(p).Some?
    ensures FileStem(p).value != "" && '/' !in FileStem(p).value
    ensures Extension(p).Some? ==> '/' !in Extension(p).value
  {
    assert IsComponent(p.comps[|p.comps| - 1]);
  }

  /** Renaming the file of a path keeps its directory. */
  lemma {:induction false} Rename(p: Path, n: string)
    requires FileName(p).Some? && IsPlainName(n)
    ensures WithFileName(p, n) == Path(p.absolute, DropLast(p).comps + [n])
  {
    ParsePlainName(n);
  }

  /** After a rename to a plain name, the directory is unchanged and the file
      name, stem and extension are those of the new name. */
  lemma {:induction false} RenamedParts(p: Path, name: string)
    requires FileName(p).Some? && IsPlainName(name)
    ensures var r := WithFileName(p, name);
            && DropLast(r) == DropLast(p)
            && FileName(r) == Some(name)
            && FileStem(r) == Some(SplitAtDot(name).0)
            && Extension(r) == SplitAtDot(name).1
  {
    Rename(p, name);
    var r := WithFileName(p, name);
    assert r.comps[..|r.comps| - 1] == DropLast(p).comps;
  }

  /** A name `stem + "_" + rest` is a plain name. */
  lemma {:induction false} UnderscoreNameIsPlain(stem: string, rest: string)
    requires stem != "" && '/' !in stem && '/' !in rest
    ensures IsPlainName(stem + "_" + rest)
  {
    assert (stem + "_" + rest)[|stem|] == '_';
  }

  /** What `append_file_name` and `affix_file_name` do after renaming: the
      renamed file's stem (cut at its own last dot) gets the old extension. */
  lemma {:induction false} ReapplyExtension(p: Path, name: string, ext: string)
    requires FileName(p).Some? && IsPlainName(name) && ext != "" && '/' !in ext
    ensures var short := SplitAtDot(name).0;
            WithExtension(WithFileName(p, name), ext) == Path(p.absolute, DropLast(p).comps + [short + "." + ext])
  {
    Rename(p, name);
    var short := SplitAtDot(name).0;
    DotNameIsPlain(short, ext);
    ParsePlainName(short + "." + ext);
  }

  /** As written, the suffix is lost whenever the stem itself contains a dot
      that is not leading: the renamed file is split at that dot by
      `with_extension`, and everything after it is replaced by the old
      extension. */
  lemma {:induction false} AppendFileNameLosesSuffix(p: Path, suffix: string)
    requires Valid(p) && Extension(p).Some? && Extension(p).value != ""
    requires SplitAtDot(FileStem(p).value).1.Some?
    requires '.' !in suffix && '/' !in suffix
    ensures AppendFileName(p, suffix)
            == Path(p.absolute, DropLast(p).comps + [SplitAtDot(FileStem(p).value).0 + "." + Extension(p).value])
  {
    var stem := FileStem(p).value;
    SuffixedStem(p, suffix);
    ReapplyExtension(p, stem + "_" + suffix, Extension(p).value);
  }

  /** The suffixed stem is a plain name that splits at the stem's own last
      dot. */
  lemma {:induction false} SuffixedStem(p: Path, suffix: string)
    requires Valid(p) && Extension(p).Some?
    requires SplitAtDot(FileStem(p).value).1.Some?
    requires '.' !in suffix && '/' !in suffix
    ensures var name := FileStem(p).value + "_" + suffix;
            && IsPlainName(name) && '/' !in Extension(p).value
            && SplitAtDot(name).0 == SplitAtDot(FileStem(p).value).0
  {
    var stem := FileStem(p).value;
    StemIsPlain(p);
    UnderscoreNameIsPlain(stem, suffix);
    SplitAtDotAppendUnderscore(stem, suffix);
  }

  /** The facts about `audio.wav.wav` that the examples below use. */
  lemma {:induction false} AudioWavWav(p: Path)
    requires p == Path(false, ["audio.wav.wav"])
    ensures && Valid(p) && DropLast(p).comps == []
            && FileStem(p) == Some("audio.wav") && Extension(p) == Some("wav")
            && SplitAtDot("audio.wav") == ("audio", Some("wav"))
  {
    AudioSplits();
    DotNameIsPlain("audio", "wav");
    DotNameIsPlain("audio.wav", "wav");
    assert FileName(p) == Some("audio.wav.wav");
    assert p.comps[..0] == [];
  }

  lemma AudioSplits()
    ensures SplitAtDot("audio.wav.wav") == ("audio.wav", Some("wav"))
    ensures SplitAtDot("audio.wav") == ("audio", Some("wav"))
  {
    assert "audio.wav.wav" == "audio.wav" + "." + "wav";
    SplitAtDotJoin("audio.wav", "wav");
    assert "audio.wav" == "audio" + "." + "wav";
    SplitAtDotJoin("audio", "wav");
  }

  /** The input that shows it: `audio.wav.wav` with suffix `S` becomes
      `audio.wav`, not `audio.wav_S.wav`. */
  lemma AppendFileNameExample()
    ensures AppendFileName(Path(false, ["audio.wav.wav"]), "S") == Path(false, ["audio.wav"])
  {
    var p := Path(false, ["audio.wav.wav"]);
    AudioWavWav(p);
    AppendFileNameLosesSuffix(p, "S");
  }

  /** `append_file_name` as documented: the new file name is
      `stem_suffix.ext`, built in one piece so that no dot inside the stem
      is mistaken for the extension's. */
  function AppendFileNameKeepingSuffix(p: Path, suffix: string): (r: Path)
    ensures FileStem(p).None? ==> r == p
  {
    match FileStem(p)
    case None => p
    case Some(stem) => WithFileName(p, stem + "_" + suffix + DotExtension(p))
  }

  /** `.ext` for a path with an extension, nothing otherwise. */
  function DotExtension(p: Path): (r: string)
    ensures Extension(p).None? <==> r == ""
  {
    match Extension(p)
    case None => ""
    case Some(ext) => "." + ext
  }

  /** The corrected renaming keeps the directory, puts the suffix after the
      whole stem and keeps the extension. */
  lemma {:induction false} AppendFileNameKeepingSuffixCorrect(p: Path, suffix: string)
    requires Valid(p) && FileStem(p).Some?
    requires '/' !in suffix && '.' !in suffix
    ensures var r := AppendFileNameKeepingSuffix(p, suffix);
            && DropLast(r) == DropLast(p)
            && FileName(r) == Some(FileStem(p).value + "_" + suffix + DotExtension(p))
            && FileStem(r) == Some(FileStem(p).value + "_" + suffix)
            && Extension(r) == Extension(p)
  {
    var stem := FileStem(p).value;
    var base := stem + "_" + suffix;
    var name := base + DotExtension(p);
    SuffixedNameIsPlain(p, suffix);
    RenamedParts(p, name);
    SuffixedName(p, suffix);
  }

  /** The name `stem_suffix.ext` is a plain file name. */
  lemma {:induction false} SuffixedNameIsPlain(p: Path, suffix: string)
    requires Valid(p) && FileStem(p).Some?
    requires '/' !in suffix
    ensures IsPlainName(FileStem(p).value + "_" + suffix + DotExtension(p))
  {
    var stem := FileStem(p).value;
    StemIsPlain(p);
    var rest := suffix + DotExtension(p);
    assert stem + "_" + suffix + DotExtension(p) == stem + "_" + rest;
    UnderscoreNameIsPlain(stem, rest);
  }

  /** The name `stem_suffix.ext` splits back into `stem_suffix` and `ext`. */
  lemma {:induction false} SuffixedName(p: Path, suffix: string)
    requires Valid(p) && FileStem(p).Some?
    requires '/' !in suffix && '.' !in suffix
    ensures var base := FileStem(p).value + "_" + suffix;
            SplitAtDot(base + DotExtension(p)) == (base, Extension(p))
  {
    var stem := FileStem(p).value;
    var base := stem + "_" + suffix;
    var name := base + DotExtension(p);
    StemIsPlain(p);
    if Extension(p).Some? {
      var ext := Extension(p).value;
      assert name == base + "." + ext;
      SplitAtDotJoin(base, ext);
    } else {
      assert FileName(p).value == stem;
      assert base == stem + ("_" + suffix);
      SplitAtDotAppendNoExt(stem, "_" + suffix);
      assert name == base;
    }
  }

  /** As written, `affix_file_name` without prefix or suffix should give the
      path back, but for a stem with an inner dot it drops the part of the
      name between the stem's last dot and the extension. */
  lemma {:induction false} AffixFileNameDropsInnerPart(p: Path, delimiter: Option<string>)
    requires Valid(p) && Extension(p).Some? && Extension(p).value != ""
    requires SplitAtDot(FileStem(p).value).1.Some?
    ensures AffixFileName(p, None, None, delimiter)
            == Path(p.absolute, DropLast(p).comps + [SplitAtDot(FileStem(p).value).0 + "." + Extension(p).value])
    ensures AffixFileName(p, None, None, delimiter) != p
  {
    var stem := FileStem(p).value;
    StemIsPlain(p);
    assert LastIndexOf(stem, '.').value >= 1;
    assert IsPlainName(stem);
    ReapplyExtension(p, stem, Extension(p).value);
    var r := AffixFileName(p, None, None, delimiter);
    assert |r.comps[|r.comps| - 1]| < |p.comps[|p.comps| - 1]|;
  }

  /** The input that shows it: `audio.wav.wav` with no affixes becomes
      `audio.wav`. */
  lemma AffixFileNameExample()
    ensures AffixFileName(Path(false, ["audio.wav.wav"]), None, None, Some("_")) == Path(false, ["audio.wav"])
  {
    var p := Path(false, ["audio.wav.wav"]);
    AudioWavWav(p);
    AffixFileNameDropsInnerPart(p, Some("_"));
  }

  /** `affix_file_name` as documented: the affixed stem and the original
      extension, built as one name. */
  function AffixFileNameKeepingStem(p: Path, prefix: Option<string>, suffix: Option<string>, delimiter: Option<string>): (r: Path)
    ensures FileStem(p).None? ==> r == p
  {
    match FileStem(p)
    case None => p
    case Some(stem) => WithFileName(p, AffixedName(stem, prefix, suffix, delimiter) + DotExtension(p))
  }

  /** Without prefix or suffix, the corrected renaming gives the path back. */
  lemma {:induction false} AffixFileNameKeepingStemIdentity(p: Path, delimiter: Option<string>)
    requires Valid(p)
    ensures AffixFileNameKeepingStem(p, None, None, delimiter) == p
  {
    if FileStem(p).Some? {
      var name := FileName(p).value;
      var stem := FileStem(p).value;
      assert stem + DotExtension(p) == name by {
        if Extension(p).Some? {
          assert name == stem + "." + Extension(p).value;
        } else {
          assert SplitAtDot(name).1.None?;
        }
      }
      assert IsPlainName(name) by { assert IsComponent(p.comps[|p.comps| - 1]); }
      Rename(p, name);
      var k := |p.comps| - 1;
      assert name == p.comps[k];
      LastSplit(p.comps);
    }
  }

  /** A non-empty sequence is its front followed by its last element. */
  lemma {:induction false} LastSplit<T>(xs: seq<T>)
    requires xs != []
    ensures xs[..|xs| - 1] + [xs[|xs| - 1]] == xs
  {
  }

  /** The corrected renaming keeps the directory and the extension and
      names the file after the affixed stem. */
  lemma {:induction false} AffixFileNameKeepingStemCorrect(p: Path, prefix: Option<string>, suffix: Option<string>, delimiter: Option<string>)
    requires Valid(p) && FileStem(p).Some?
    requires IsPlainName(AffixedName(FileStem(p).value, prefix, suffix, delimiter) + DotExtension(p))
    ensures var r := AffixFileNameKeepingStem(p, prefix, suffix, delimiter);
            && DropLast(r) == DropLast(p)
            && FileName(r) == Some(AffixedName(FileStem(p).value, prefix, suffix, delimiter) + DotExtension(p))
  {
    Rename(p, AffixedName(FileStem(p).value, prefix, suffix, delimiter) + DotExtension(p));
  }

  /** For a stem with no dot of its own (other than a leading one) and an
      extension that is absent or non-empty, `append_file_name` as written
      agrees with the corrected renaming. */
  lemma {:induction false} AppendFileNameAgrees(p: Path, suffix: string)
    requires Valid(p) && FileStem(p).Some?
    requires FileStem(p).value != ".." && SplitAtDot(FileStem(p).value).1.None?
    requires Extension(p).None? || Extension(p).value != ""
    requires '/' !in suffix && '.' !in suffix
    ensures AppendFileName(p, suffix) == AppendFileNameKeepingSuffix(p, suffix)
  {
    var stem := FileStem(p).value;
    var name := stem + "_" + suffix;
    StemIsPlain(p);
    UnderscoreNameIsPlain(stem, suffix);
    assert name == stem + ("_" + suffix);
    SplitAtDotAppendNoExt(stem, "_" + suffix);
    ReapplyOwnExtension(p, name);
  }

  /** For a dotless stem, dotless affixes and an extension that is absent or
      non-empty, `affix_file_name` as written agrees with the corrected
      renaming. */
  lemma {:induction false} AffixFileNameAgrees(p: Path, prefix: Option<string>, suffix: Option<string>, delimiter: Option<string>)
    requires Valid(p) && FileStem(p).Some? && '.' !in FileStem(p).value
    requires Extension(p).None? || Extension(p).value != ""
    requires '.' !in prefix.GetOr("") && '/' !in prefix.GetOr("")
    requires '.' !in suffix.GetOr("") && '/' !in suffix.GetOr("")
    requires '.' !in delimiter.GetOr("") && '/' !in delimiter.GetOr("")
    ensures AffixFileName(p, prefix, suffix, delimiter) == AffixFileNameKeepingStem(p, prefix, suffix, delimiter)
  {
    var name := AffixedName(FileStem(p).value, prefix, suffix, delimiter);
    AffixedNameIsPlain(p, prefix, suffix, delimiter);
    ReapplyOwnExtension(p, name);
  }

  /** Renaming to a name without an extension of its own and re-applying
      the old extension is renaming to the name plus the old extension. */
  lemma {:induction false} ReapplyOwnExtension(p: Path, name: string)
    requires Valid(p) && FileName(p).Some? && IsPlainName(name) && SplitAtDot(name).1.None?
    requires Extension(p).None? || Extension(p).value != ""
    ensures (match Extension(p)
             case Some(ext) => WithExtension(WithFileName(p, name), ext)
             case None => WithFileName(p, name))
            == WithFileName(p, name + DotExtension(p))
  {
    if Extension(p).Some? {
      var ext := Extension(p).value;
      StemIsPlain(p);
      ReapplyExtension(p, name, ext);
      assert name + DotExtension(p) == name + "." + ext;
      DotNameIsPlain(name, ext);
      Rename(p, name + "." + ext);
    } else {
      assert name + DotExtension(p) == name;
    }
  }

  /** A dotless stem with dotless affixes is a plain name without a dot. */
  lemma {:induction false} AffixedNameIsPlain(p: Path, prefix: Option<string>, suffix: Option<string>, delimiter: Option<string>)
    requires Valid(p) && FileStem(p).Some? && '.' !in FileStem(p).value
    requires '.' !in prefix.GetOr("") && '/' !in prefix.GetOr("")
    requires '.' !in suffix.GetOr("") && '/' !in suffix.GetOr("")
    requires '.' !in delimiter.GetOr("") && '/' !in delimiter.GetOr("")
    ensures var name := AffixedName(FileStem(p).value, prefix, suffix, delimiter);
            IsPlainName(name) && '.' !in name
  {
    var stem := FileStem(p).value;
    var name := AffixedName(stem, prefix, suffix, delimiter);
    StemIsPlain(p);
    assert '.' !in name && '/' !in name && |name| >= |stem| > 0;
    assert name != "." && name != ".." by { assert '.' in "." && '.' in ".."; }
  }

  /** The stem `..` has no extension of its own, yet `..` with the suffix
      appended does: `...wav` with suffix `S` becomes `..wav`. */
  lemma AppendFileNameDotDotStem()
    ensures AppendFileName(Path(false, ["...wav"]), "S") == Path(false, ["..wav"])
  {
    var p := Path(false, ["...wav"]);
    DotDotSplits();
    assert FileStem(p) == Some("..") && Extension(p) == Some("wav");
    Rename(p, ".._S");
    var q := WithFileName(p, ".._S");
    assert FileStem(q) == Some(".");
    ParsePlainName("..wav");
  }

  lemma DotDotSplits()
    ensures SplitAtDot("...wav") == ("..", Some("wav"))
    ensures SplitAtDot(".._S") == (".", Some("_S"))
    ensures ".." + "_" + "S" == ".._S" && "." + "." + "wav" == "..wav"
  {
    assert "...wav" == ".." + "." + "wav";
    SplitAtDotJoin("..", "wav");
    assert ".._S" == "." + "." + "_S";
    SplitAtDotJoin(".", "_S");
  }
}
