/** A string model of Rust's `std::path::Path` on a Unix target.

    A path is its list of components after Rust's normalisation: repeated
    and trailing `/` separators and `.` components are dropped, `..` is kept.
    The model is what `Path`'s methods observe (`components`, `file_name`,
    `file_stem`, `extension`, `join`, `with_file_name`, `with_extension`),
    not the raw string. */
module Paths {
  import opened Wrappers

  datatype Path = Path(absolute: bool, comps: seq<string>)

  /** A component Rust can hold after normalisation. */
  predicate IsComponent(c: string) {
    c != "" && c != "." && '/' !in c
  }

  predicate Valid(p: Path) {
    forall i :: 0 <= i < |p.comps| ==> IsComponent(p.comps[i])
  }

  /** A name `Path::new` reads as one relative normal component. */
  predicate IsPlainName(n: string) {
    IsComponent(n) && n != ".."
  }

  /** The pieces of `s` between separators (`str::split`). */
  function Split(s: string, sep: char): (r: seq<string>)
    ensures |r| >= 1
    ensures forall i :: 0 <= i < |r| ==> sep !in r[i]
    ensures sep !in s ==> r == [s]
  {
    if s == [] then [""]
    else
      var rest := Split(s[1..], sep);
      if s[0] == sep then [""] + rest
      else
        assert s == [s[0]] + s[1..];
        [[s[0]] + rest[0]] + rest[1..]
  }

  /** Drops the empty and `.` pieces, as `Path::components` does. */
  function Normalise(pieces: seq<string>): (r: seq<string>)
    requires forall i :: 0 <= i < |pieces| ==> '/' !in pieces[i]
    ensures forall i :: 0 <= i < |r| ==> IsComponent(r[i])
    ensures |r| <= |pieces|
  {
    if pieces == [] then []
    else if pieces[0] == "" || pieces[0] == "." then Normalise(pieces[1..])
    else [pieces[0]] + Normalise(pieces[1..])
  }

  /** `Path::new(s)`. */
  function Parse(s: string): (p: Path)
    ensures Valid(p)
    ensures p.absolute <==> |s| > 0 && s[0] == '/'
  {
    Path(|s| > 0 && s[0] == '/', Normalise(Split(s, '/')))
  }

  lemma {:induction false} ParsePlainName(n: string)
    requires IsComponent(n)
    ensures Parse(n) == Path(false, [n])
  {
  }

  /** `Path::join` / `PathBuf::push`: an absolute right-hand side replaces. */
  function Join(p: Path, q: Path): (r: Path)
    ensures Valid(p) && Valid(q) ==> Valid(r)
    ensures !q.absolute ==> r.absolute == p.absolute && r.comps == p.comps + q.comps
    ensures q.absolute ==> r == q
  {
    if q.absolute then q else Path(p.absolute, p.comps + q.comps)
  }

  /** `Path::file_name`: the last component, unless it is `..` or missing. */
  function FileName(p: Path): (r: Option<string>)
    ensures r.Some? <==> p.comps != [] && p.comps[|p.comps| - 1] != ".."
    ensures r.Some? ==> r.value == p.comps[|p.comps| - 1]
  {
    if p.comps == [] || p.comps[|p.comps| - 1] == ".." then None
    else Some(p.comps[|p.comps| - 1])
  }

  /** Index of the last occurrence of `c` in `s`. */
  function LastIndexOf(s: string, c: char): (r: Option<nat>)
    ensures r.None? <==> c !in s
    ensures r.Some? ==> r.value < |s| && s[r.value] == c && c !in s[r.value + 1..]
  {
    if s == [] then None
    else if s[|s| - 1] == c then Some(|s| - 1)
    else
      var r := LastIndexOf(s[..|s| - 1], c);
      assert s == s[..|s| - 1] + [s[|s| - 1]];
      if r.Some? then
        assert s[r.value + 1..] == s[..|s| - 1][r.value + 1..] + [s[|s| - 1]];
        r
      else r
  }

  /** The last occurrence is determined by its two defining facts. */
  lemma {:induction false} LastIndexOfUnique(s: string, c: char, i: nat)
    requires i < |s| && s[i] == c && c !in s[i + 1..]
    ensures LastIndexOf(s, c) == Some(i)
  {
  }

  /** Appending text without `c` does not move the last `c`. */
  lemma {:induction false} LastIndexOfAppend(s: string, t: string, c: char)
    requires c !in t
    ensures LastIndexOf(s + t, c) == LastIndexOf(s, c)
  {
    if LastIndexOf(s, c).Some? {
      var i := LastIndexOf(s, c).value;
      assert (s + t)[i + 1..] == s[i + 1..] + t;
      LastIndexOfUnique(s + t, c, i);
    }
  }

  /** `rsplit_file_at_dot`: a file name split into stem and extension at its
      last dot. A name whose only dot is the leading one, a name without a
      dot, and `..` have no extension; the stem is then the whole name. */
  function SplitAtDot(name: string): (r: (string, Option<string>))
    ensures r.1.None? ==> r.0 == name
    ensures r.1.Some? ==> r.0 != [] && name == r.0 + "." + r.1.value && '.' !in r.1.value
    ensures r.1.None? <==> name == ".." || '.' !in name || (LastIndexOf(name, '.') == Some(0))
  {
    if name == ".." then (name, None)
    else
      match LastIndexOf(name, '.')
      case None => (name, None)
      case Some(i) =>
        if i == 0 then (name, None)
        else
          assert name == name[..i] + "." + name[i + 1..];
          (name[..i], Some(name[i + 1..]))
  }

  /** Text without dots appended to a name with an extension extends the
      extension. */
  lemma {:induction false} SplitAtDotAppendExt(s: string, t: string)
    requires '.' !in t && SplitAtDot(s).1.Some?
    ensures SplitAtDot(s + t) == (SplitAtDot(s).0, Some(SplitAtDot(s).1.value + t))
  {
    var j := LastIndexOf(s, '.').value;
    var u := s + t;
    assert LastIndexOf(u, '.') == Some(j) by {
      LastIndexOfAppend(s, t, '.');
    }
    assert u != ".." by {
      assert j != 0 && u[j] == '.';
    }
    assert SplitAtDot(s) == (s[..j], Some(s[j + 1..]));
    assert u[..j] == s[..j];
    assert u[j + 1..] == s[j + 1..] + t;
  }

  /** The same, for `_` and a dotless suffix. */
  lemma {:induction false} SplitAtDotAppendUnderscore(s: string, suffix: string)
    requires '.' !in suffix && SplitAtDot(s).1.Some?
    ensures SplitAtDot(s + "_" + suffix).0 == SplitAtDot(s).0
  {
    assert s + "_" + suffix == s + ("_" + suffix);
    SplitAtDotAppendExt(s, "_" + suffix);
  }

  /** Text without dots appended to a name without an extension gives a name
      without one. */
  lemma {:induction false} SplitAtDotAppendNoExt(s: string, t: string)
    requires s != ".." && '.' !in t && SplitAtDot(s).1.None?
    ensures SplitAtDot(s + t) == (s + t, None)
  {
    LastIndexOfAppend(s, t, '.');
    var u := s + t;
    if t != [] {
      assert u[|u| - 1] == t[|t| - 1];
      assert t[|t| - 1] in t;
    }
  }

  /** A name built as `a.b` with `b` free of dots splits back into `a` and
      `b`. */
  lemma {:induction false} SplitAtDotJoin(a: string, b: string)
    requires a != "" && '.' !in b && a + "." + b != ".."
    ensures SplitAtDot(a + "." + b) == (a, Some(b))
  {
    var n := a + "." + b;
    assert n[|a| + 1..] == b;
    LastIndexOfUnique(n, '.', |a|);
    assert n[..|a|] == a;
  }

  /** `a.b` is a plain name when `a` is non-empty and neither part holds a
      separator. */
  lemma {:induction false} DotNameIsPlain(a: string, b: string)
    requires a != "" && b != "" && '/' !in a && '/' !in b
    ensures IsPlainName(a + "." + b)
  {
    assert |a + "." + b| >= 3;
  }

  /** `Path::file_stem`. */
  function FileStem(p: Path): (r: Option<string>)
    ensures r.Some? <==> FileName(p).Some?
  {
    match FileName(p)
    case None => None
    case Some(n) => Some(SplitAtDot(n).0)
  }

  /** `Path::extension`. */
  function Extension(p: Path): (r: Option<string>)
    ensures r.Some? ==> FileName(p).Some? && FileStem(p).Some?
    ensures r.Some? ==> FileName(p).value == FileStem(p).value + "." + r.value
    ensures r.Some? ==> '.' !in r.value
  {
    match FileName(p)
    case None => None
    case Some(n) => SplitAtDot(n).1
  }

  /** `Path::parent` with the file name removed (`PathBuf::pop` when the path
      ends in a file name). */
  function DropLast(p: Path): (r: Path)
    requires p.comps != []
    ensures Valid(p) ==> Valid(r)
  {
    Path(p.absolute, p.comps[..|p.comps| - 1])
  }

  /** `Path::with_file_name`: pop the file name if there is one, then push
      `name` (which may itself contain separators). */
  function WithFileName(p: Path, name: string): (r: Path)
    ensures Valid(p) ==> Valid(r)
    ensures IsPlainName(name) ==> FileName(r) == Some(name)
  {
    var base := if FileName(p).Some? then DropLast(p) else p;
    assert IsComponent(name) ==> Parse(name) == Path(false, [name]) by {
      if IsComponent(name) { ParsePlainName(name); }
    }
    Join(base, Parse(name))
  }

  /** `Path::with_extension`: when the path has a file stem, everything after
      it is replaced by `.ext`, or dropped when `ext` is empty; a path without
      a file stem is returned unchanged. */
  function WithExtension(p: Path, ext: string): (r: Path)
    ensures Valid(p) ==> Valid(r)
    ensures FileStem(p).None? ==> r == p
  {
    match FileStem(p)
    case None => p
    case Some(stem) =>
      var name := if ext == "" then stem else stem + "." + ext;
      Join(DropLast(p), Parse(name))
  }
}
