/** `src/eaf.rs`: picking a tier and an annotation by typing its 1-based
    number. The prompts and the table printed before them are output only;
    each typed line is judged by a pure decision and the loops run over the
    lines the user types. */
module Selection {
  import opened Wrappers
  import opened Strings
  import opened Decimal
  import opened Document
  import Files

  /** The largest `usize` on a 64-bit target. */
  const USIZE_MAX: nat := 0xFFFF_FFFF_FFFF_FFFF

  /** `str::parse::<usize>`: an optional `+` and at least one ASCII digit,
      with a value that fits in `usize`. */
  function ParseUsize(s: string): (r: Option<nat>)
    ensures r.Some? ==> r.value <= USIZE_MAX
    ensures s == "" ==> r.None?
    ensures r.Some? ==> forall i :: 0 <= i < |s| ==> '0' <= s[i] <= '9' || (i == 0 && s[i] == '+')
    ensures r.Some? && s[0] != '+' ==> AllDigits(s) && r.value == Value(s)
    ensures r.Some? && s[0] == '+' ==> |s| >= 2 && AllDigits(s[1..]) && r.value == Value(s[1..])
    ensures s != "" && AllDigits(s) && Value(s) <= USIZE_MAX ==> r == Some(Value(s))
    ensures s != "" && AllDigits(s) && Value(s) > USIZE_MAX ==> r.None?
  {
    var digits := if |s| > 0 && s[0] == '+' then s[1..] else s;
    if digits != [] && AllDigits(digits) && Value(digits) <= USIZE_MAX then Some(Value(digits))
    else None
  }

  /** A number printed in decimal parses back to itself. */
  lemma {:induction false} ParseUsizeRoundTrip(n: nat)
    requires n <= USIZE_MAX
    ensures ParseUsize(NatToString(n)) == Some(n)
  {
    NatToStringRoundTrip(n);
  }

  /** `get(i - 1)` on a `usize`: for `i == 0` the subtraction wraps to
      `usize::MAX` in a release build, where nothing is stored. */
  function Position(i: nat, count: nat): (r: Option<nat>)
    ensures r.Some? <==> 1 <= i <= count
    ensures r.Some? ==> r.value + 1 == i
  {
    if i == 0 || i > count then None else Some(i - 1)
  }

  /** How one typed line is judged. */
  datatype Verdict<T> = NotANumber | NoSuchItem | Rejected | Accepted(item: T)

  /** `select_tier`, one line: the end-trimmed line must be a number `i`,
      there must be a tier at position `i - 1`, and when `noTokenized` is set
      that tier must not be tokenized, itself or through an ancestor (the
      `tokenized` oracle answers that for a tier id). */
  function TierVerdict(line: string, tiers: seq<Tier>, noTokenized: bool, tokenized: string -> bool): (r: Verdict<Tier>)
    ensures r.NotANumber? <==> ParseUsize(TrimEnd(line)).None?
    ensures r.NoSuchItem? <==> ParseUsize(TrimEnd(line)).Some? && Position(ParseUsize(TrimEnd(line)).value, |tiers|).None?
    ensures r.Accepted? ==> r.item in tiers && !(noTokenized && tokenized(r.item.tierId))
  {
    match ParseUsize(TrimEnd(line))
    case None => NotANumber
    case Some(i) =>
      match Position(i, |tiers|)
      case None => NoSuchItem
      case Some(k) =>
        if tokenized(tiers[k].tierId) && noTokenized then Rejected else Accepted(tiers[k])
  }

  /** Typing a tier's 1-based number (with the line break `read_line`
      keeps) selects exactly that tier unless it is refused as tokenized. */
  lemma {:induction false} TierVerdictSelects(k: nat, tiers: seq<Tier>, noTokenized: bool, tokenized: string -> bool)
    requires k < |tiers| && k < USIZE_MAX
    ensures TierVerdict(NatToString(k + 1) + "\n", tiers, noTokenized, tokenized)
            == if noTokenized && tokenized(tiers[k].tierId) then Rejected else Accepted(tiers[k])
  {
    TrimEndNumberLine(k + 1);
    ParseUsizeRoundTrip(k + 1);
  }

  /** Trimming the line break off a typed number leaves the number. */
  lemma {:induction false} TrimEndNumberLine(n: nat)
    ensures TrimEnd(NatToString(n) + "\n") == NatToString(n)
  {
    var s := NatToString(n);
    assert IsWhitespace('\n');
    assert !IsWhitespace(s[|s| - 1]);
    assert (s + "\n")[..|s|] == s;
    assert TrimEnd(s) == s;
  }

  /** `select_tier`: judge typed lines until one is accepted. Running out of
      lines stands for the end of input, where the program itself would
      keep reading empty lines and rejecting them as not a number. */
  method SelectTier(lines: seq<string>, tiers: seq<Tier>, noTokenized: bool, tokenized: string -> bool)
    returns (r: Result<Tier, Files.InputError>, ghost used: nat)
    ensures r.Success? ==>
              && used < |lines|
              && TierVerdict(lines[used], tiers, noTokenized, tokenized) == Accepted(r.value)
              && forall j :: 0 <= j < used ==> !TierVerdict(lines[j], tiers, noTokenized, tokenized).Accepted?
    ensures r.Failure? ==> forall j :: 0 <= j < |lines| ==> !TierVerdict(lines[j], tiers, noTokenized, tokenized).Accepted?
  {
    var k := 0;
    while k < |lines|
      invariant k <= |lines|
      invariant forall j :: 0 <= j < k ==> !TierVerdict(lines[j], tiers, noTokenized, tokenized).Accepted?
    {
      var v := TierVerdict(lines[k], tiers, noTokenized, tokenized);
      if v.Accepted? {
        return Success(v.item), k;
      }
      k := k + 1;
    }
    return Failure(Files.Exhausted), k;
  }

  /** `noTs` holds exactly the positions of the untimed annotations. */
  predicate ListsUntimed(noTs: seq<nat>, annotations: seq<Annotation>) {
    && (forall k :: k in noTs ==> k < |annotations| && !annotations[k].Timed())
    && (forall k :: 0 <= k < |annotations| && !annotations[k].Timed() ==> k in noTs)
  }

  /** The `no_ts` list of `select_annotation`: the 0-based positions of the
      annotations without both time values, in increasing order. */
  method UntimedPositions(annotations: seq<Annotation>) returns (noTs: seq<nat>)
    ensures ListsUntimed(noTs, annotations)
    ensures forall a, b :: 0 <= a < b < |noTs| ==> noTs[a] < noTs[b]
  {
    noTs := [];
    for i := 0 to |annotations|
      invariant ListsUntimed(noTs, annotations[..i])
      invariant forall a, b :: 0 <= a < b < |noTs| ==> noTs[a] < noTs[b]
      invariant forall a :: 0 <= a < |noTs| ==> noTs[a] < i
    {
      if !annotations[i].Timed() {
        noTs := noTs + [i];
      }
    }
  }

  /** `select_annotation`, one line, as written: the typed number `i` itself
      is looked up in the 0-based `no_ts` list, but the annotation returned
      is the one at `i - 1`. */
  function AnnotationVerdict(line: string, annotations: seq<Annotation>, noTs: seq<nat>): (r: Verdict<Annotation>)
    ensures r.NotANumber? <==> ParseUsize(TrimEnd(line)).None?
    ensures r.Rejected? <==> ParseUsize(TrimEnd(line)).Some? && ParseUsize(TrimEnd(line)).value in noTs
    ensures r.Accepted? ==> r.item in annotations
  {
    match ParseUsize(TrimEnd(line))
    case None => NotANumber
    case Some(i) =>
      if i in noTs then Rejected
      else match Position(i, |annotations|)
        case None => NoSuchItem
        case Some(k) => Accepted(annotations[k])
  }

  /** The input that shows the mismatch: annotation 1 has no time values and
      annotation 2 has; typing `1` accepts the untimed annotation. With the
      order swapped, typing `1` is refused although annotation 1 is timed. */
  lemma {:induction false} AnnotationVerdictMismatch(untimed: Annotation, timed: Annotation)
    requires !untimed.Timed() && timed.Timed()
    ensures AnnotationVerdict("1\n", [untimed, timed], [0]) == Accepted(untimed)
    ensures AnnotationVerdict("1\n", [timed, untimed], [1]) == Rejected
  {
    TrimEndNumberLine(1);
    ParseUsizeRoundTrip(1);
  }

  /** In general, as written: whenever annotation `k + 1` (1-based) is
      untimed and the next one is timed or absent, typing `k + 1` returns
      the untimed annotation. */
  lemma {:induction false} AnnotationVerdictAcceptsUntimed(annotations: seq<Annotation>, noTs: seq<nat>, k: nat)
    requires ListsUntimed(noTs, annotations)
    requires k < |annotations| && !annotations[k].Timed() && k < USIZE_MAX
    requires k + 1 < |annotations| ==> annotations[k + 1].Timed()
    ensures AnnotationVerdict(NatToString(k + 1) + "\n", annotations, noTs) == Accepted(annotations[k])
  {
    TrimEndNumberLine(k + 1);
    ParseUsizeRoundTrip(k + 1);
  }

  /** `select_annotation`, one line, as evidently intended: the typed
      1-based number is turned into its 0-based position before it is
      looked up in `no_ts`. */
  function AnnotationVerdictCorrected(line: string, annotations: seq<Annotation>, noTs: seq<nat>): (r: Verdict<Annotation>)
    ensures r.NotANumber? <==> ParseUsize(TrimEnd(line)).None?
  {
    match ParseUsize(TrimEnd(line))
    case None => NotANumber
    case Some(i) =>
      match Position(i, |annotations|)
      case None => NoSuchItem
      case Some(k) => if k in noTs then Rejected else Accepted(annotations[k])
  }

  /** With `no_ts` as `UntimedPositions` computes it, the corrected decision
      accepts only timed annotations, and typing the number of a timed
      annotation selects exactly it. */
  lemma {:induction false} AnnotationVerdictCorrectedSound(line: string, annotations: seq<Annotation>, noTs: seq<nat>)
    requires ListsUntimed(noTs, annotations)
    ensures AnnotationVerdictCorrected(line, annotations, noTs).Accepted? ==>
              AnnotationVerdictCorrected(line, annotations, noTs).item.Timed()
    ensures AnnotationVerdictCorrected(line, annotations, noTs).Rejected? ==>
              exists k :: k in noTs && ParseUsize(TrimEnd(line)) == Some(k + 1)
  {
  }

  lemma {:induction false} AnnotationVerdictCorrectedSelects(annotations: seq<Annotation>, noTs: seq<nat>, k: nat)
    requires ListsUntimed(noTs, annotations)
    requires k < |annotations| && k < USIZE_MAX
    ensures AnnotationVerdictCorrected(NatToString(k + 1) + "\n", annotations, noTs)
            == if annotations[k].Timed() then Accepted(annotations[k]) else Rejected
  {
    TrimEndNumberLine(k + 1);
    ParseUsizeRoundTrip(k + 1);
  }

  /** `select_annotation`, as written: compute `no_ts`, then judge typed
      lines until one is accepted. */
  method SelectAnnotation(lines: seq<string>, tier: Tier)
    returns (r: Result<Annotation, Files.InputError>, ghost noTs: seq<nat>, ghost used: nat)
    ensures ListsUntimed(noTs, tier.annotations)
    ensures r.Success? ==>
              && used < |lines|
              && AnnotationVerdict(lines[used], tier.annotations, noTs) == Accepted(r.value)
              && forall j :: 0 <= j < used ==> !AnnotationVerdict(lines[j], tier.annotations, noTs).Accepted?
    ensures r.Failure? ==> forall j :: 0 <= j < |lines| ==> !AnnotationVerdict(lines[j], tier.annotations, noTs).Accepted?
  {
    var positions := UntimedPositions(tier.annotations);
    noTs := positions;
    var k := 0;
    while k < |lines|
      invariant k <= |lines|
      invariant forall j :: 0 <= j < k ==> !AnnotationVerdict(lines[j], tier.annotations, positions).Accepted?
    {
      var v := AnnotationVerdict(lines[k], tier.annotations, positions);
      if v.Accepted? {
        return Success(v.item), positions, k;
      }
      k := k + 1;
    }
    return Failure(Files.Exhausted), positions, k;
  }
}
