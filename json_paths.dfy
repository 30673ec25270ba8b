/** `from_paths` of both Whisper readers: each JSON file is looked up in the
    clip ledger for the clip's start time (`stamps`, which the readers fill
    with `get_timestamps`), read, and shifted by that start (milliseconds to
    seconds). The first failure, in path order, is the answer. Reading the
    file is a parameter. */
module JsonPaths {
  import opened Wrappers
  import opened Paths

  const NO_PATHS: string := "No JSON-paths provived"
  const NO_TIMESTAMPS: string := "Failed to extract timestamps"

  /** One path: its ledger times, then the file, shifted by the clip start. */
  function ReadShifted<J>(stamps: Path -> Option<(int, int)>, p: Path, read: Path -> Result<J, string>, shift: (J, real) -> J): (r: Result<J, string>)
    ensures stamps(p).None? ==> r == Failure(NO_TIMESTAMPS)
    ensures stamps(p).Some? && read(p).Failure? ==> r == Failure(read(p).error)
    ensures stamps(p).Some? && read(p).Success? ==>
              r == Success(shift(read(p).value, stamps(p).value.0 as real / 1000.0))
  {
    match stamps(p)
    case None => Failure(NO_TIMESTAMPS)
    case Some(ts) =>
      match read(p)
      case Failure(e) => Failure(e)
      case Success(j) => Success(shift(j, ts.0 as real / 1000.0))
  }

  /** `collect::<Result<Vec<_>>>()` over the paths: every file, in order,
      or the first error. */
  function Collect<J>(paths: seq<Path>, stamps: Path -> Option<(int, int)>, read: Path -> Result<J, string>, shift: (J, real) -> J): (r: Result<seq<J>, string>)
    ensures r.Success? <==> forall i :: 0 <= i < |paths| ==> ReadShifted(stamps, paths[i], read, shift).Success?
    ensures r.Success? ==> |r.value| == |paths|
                           && forall i :: 0 <= i < |paths| ==> r.value[i] == ReadShifted(stamps, paths[i], read, shift).value
    ensures r.Failure? ==> exists i :: 0 <= i < |paths|
                             && ReadShifted(stamps, paths[i], read, shift).Failure?
                             && r.error == ReadShifted(stamps, paths[i], read, shift).error
                             && forall k :: 0 <= k < i ==> ReadShifted(stamps, paths[k], read, shift).Success?
  {
    if paths == [] then Success([])
    else
      match ReadShifted(stamps, paths[0], read, shift)
      case Failure(e) => Failure(e)
      case Success(j) =>
        match Collect(paths[1..], stamps, read, shift)
        case Failure(e) =>
          var i :| 0 <= i < |paths[1..]| && ReadShifted(stamps, paths[1..][i], read, shift).Failure?
                   && e == ReadShifted(stamps, paths[1..][i], read, shift).error
                   && forall k :: 0 <= k < i ==> ReadShifted(stamps, paths[1..][k], read, shift).Success?;
          assert paths[1..][i] == paths[i + 1];
          Failure(e)
        case Success(js) => Success([j] + js)
  }
}
