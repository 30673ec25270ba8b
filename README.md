# eafutil core, modelled in Dafny

`eafutil` is a command-line tool for ELAN annotation files (EAF). Most of
the tool wires command-line flags to the external `eaf_rs` library and to
FFmpeg. This project models the logic the tool carries itself and proves
properties of that model. Every foreign call is a parameter or an oracle.

- **Clip ledger and clip planning** (`src/clips.rs`). The modules are
  `Clips` and `ClipRun`. `Clips` holds the `Clip`/`Clips` classes: an
  append-only ledger that maps clip files to start and end milliseconds,
  and the stem-stripping lookup `get_timestamps`. `ClipRun` holds the pure
  planning inside `run`:
  - output directory and media resolution;
  - the batch boundary filter with its minimum duration, and the single
    annotation mode;
  - the `annotation_NNNN[_tier][_id][_value][_start-end]` stem;
  - the per-media output paths;
  - the per-tier ledger, which starts from a copy of one base ledger.
- **File-name sanitiser** (`src/text.rs`, module `Text`). `process_string`
  truncates, deletes a character class, trims and substitutes, in that
  order. `ipa2ascii` is also here. The one regex the tool passes in, the
  character class of `src/clips.rs:292`, is a set of characters.
- **Path helpers** (`src/files.rs`, modules `Files` and `Paths`):
  - `append_file_name`, `affix_file_name`, `is_hidden`, `has_extension`
    and `file_stem_as_string`;
  - the yes/no loop of `confirm`.

  `Paths` is a small model of Rust's `Path`. A path is a list of
  components. The stem and the extension split at the last dot.
  `with_file_name` and `with_extension` rebuild the last component.
- **Interactive selection** (`src/eaf.rs`, module `Selection`). One typed
  line gets one verdict: not a number, no such item, rejected or accepted.
  `select_tier` and `select_annotation` repeat that verdict over the lines
  typed, and both loops are modelled.
- **Tier tree** (`src/tree.rs`, module `TierTrees`). `TierTree` is a class
  over a map from a tier id to the ids of the tiers referring to it. `new`
  and `prune` update that map in place. `print` becomes the sequence of
  lines it writes.
- **Token distribution** (`src/tokens.rs`, module `Tokens`):
  - the prefix and suffix sets of `--strip-common`;
  - the `unique` override;
  - the count map;
  - the in-place sort by word or by count, and the in-place reversal.
- **Clock text** (`src/eaf2csv.rs`, module `Clock`). `hms_milli`,
  `hms_milli_to_string` and `ms2string` turn milliseconds into
  `HH:MM:SS.fff`.
- **Whisper output to EAF** (`src/whisper/whisper.rs` and
  `src/whisper/whisper_timestamped.rs`, modules `Whisper`, `WhisperTs`,
  `JsonPaths` and `EafEmit`):
  - `join`, `offset`, `filter_no_speech` and the `first_*`/`last_*`
    accessors;
  - `from_paths` over the clip ledger;
  - the annotation-id and time-slot numbering of `to_eaf` and
    `words_to_alignable`.

  `EafEmit` holds the numbering that both converters share. A segment
  becomes a block: its main annotation, its words and its referring
  values. `EafEmit` proves ids consecutive from 1, slots consecutive from 1,
  every slot present and every parent present.

The support modules are `Wrappers` (Option, Result), `Strings` (Unicode
white space, trimming, ASCII lower case, `String` order, sorting),
`Decimal` (decimal rendering, zero padding, reading digits back) and
`Document`. `Document` is the view of an EAF document that the core reads
from `eaf_rs`.

Where the source updates state step by step, the model does the same:
- `Clip`, `Clips` and `TierTree` are classes;
- the loops of `get_timestamps`, `confirm`, `select_*`, the token count,
  the boundary filter, the stem builder, `join`, `to_eaf` and
  `words_to_alignable` are methods with loop invariants;
- the token sort and reversal work in place on an array.

Each such method is proved against a function, and the properties are
lemmas about that function.

## Model

| member | source | states |
|---|---|---|
| Clips.Clip.New | src/clips.rs:93-99 | The new clip holds exactly the given media paths, start and end. |
| Clips.Clip.Default | src/clips.rs:329 | The default clip has no media and times 0 and 0. |
| Clips.Clip.Add | src/clips.rs:102-104 | Appends one path at the end of the clip's media and keeps the times. |
| Clips.Clip.Ts | src/clips.rs:107-110 | Overwrites start and end and keeps the media. |
| Clips.Clip.Value | src/clips.rs:60 | The copy a ledger stores has the clip's media, start and end. |
| Clips.Clips.WithMedia | src/clips.rs:48-53 | A new ledger has the given original media and no clips. |
| Clips.Clips.Len | src/clips.rs:55-57 | The length is the number of clips recorded. |
| Clips.Clips.Iter | src/clips.rs:44-46 | Yields every clip in ledger order. |
| Clips.Clips.Add | src/clips.rs:59-61 | Appends one copy of the clip, so the length grows by one, earlier clips are unchanged and the original media is kept. |
| Clips.Clips.Copy | src/clips.rs:295 | The copy is a fresh ledger with the same media and clips. |
| Clips.Clips.GetTimestamps | src/clips.rs:66-80 | The extension-stripping loop ends with the bare stem. The answer is the times of the first clip, in ledger order, with a media path whose stem is that bare stem, or none. A path without a stem gives none. |
| Clips.BareStem | src/clips.rs:67-76 | The stripped stem has no extension left and is no longer than the input. |
| Clips.BareStemIdempotent | src/clips.rs:70-76 | Stripping a bare stem again changes nothing. |
| Clips.StemAsPath | src/clips.rs:71-75 | A stem read back as a path has the extension and stem that splitting at the last dot gives. |
| Clips.FirstWithStem | src/clips.rs:78 | Finds the first clip with a matching media stem, or reports that no clip has one. |
| Clips.DottedMediaStemNeverMatches | src/clips.rs:78 | A media path whose stem still holds a dot (`audio.wav.wav`) never matches a bare stem. |
| Clips.TalkExample | src/clips.rs:66-79 | `talk.words.wav` finds the clip whose media is `out/talk.wav`. |
| ClipRun.OutDir | src/clips.rs:115-133 | Fails exactly when the EAF path has no stem. Otherwise the directory is `<stem>_CLIPS`, inside the given outdir or beside the EAF file. |
| ClipRun.Resolve | src/clips.rs:179-200 | An existing absolute path is used. Otherwise an existing relative path is canonicalised, and a failed canonicalisation is an error. Otherwise a dry run keeps the absolute path, and anything else is "media not found". |
| ClipRun.ResolveMedia | src/clips.rs:171-201 | No linked media outside a dry run is an error. On success every link is resolved in order. On failure the error is the first link's that fails. |
| ClipRun.AbsolutePaths | src/clips.rs:219 | The base ledger's original media are the links' absolute paths, in order. |
| ClipRun.KeptBoundaries | src/clips.rs:263-285 | Keeps no more boundaries than there are annotations. With a minimum set, every kept boundary lasts at least that long. |
| ClipRun.KeptBoundariesExactly | src/clips.rs:263-285 | A boundary is kept exactly when it comes from a timed annotation whose duration meets the minimum, if one is set. |
| ClipRun.Durations | src/clips.rs:268-279 | Records one duration per kept boundary: end minus start. |
| ClipRun.BatchBoundaries | src/clips.rs:263-285 | The filter loop keeps exactly the boundaries above, in tier order, and records their durations. |
| ClipRun.TierBoundaries | src/clips.rs:237-288 | Single mode: more than 40 annotations without confirmation aborts, a failed selection is an error, an untimed choice is an error naming it, and a timed choice gives exactly its boundary and no durations. Batch mode is the filter above with its durations. |
| ClipRun.Opt | src/clips.rs:305-325 | An optional stem part is `_` plus the part when its flag is set, and nothing otherwise. |
| ClipRun.AnnotationStem | src/clips.rs:303-325 | The stem builder's pushes produce the stem function's text. |
| ClipRun.AppendOptionalParts | src/clips.rs:305-325 | The optional parts are appended in the order tier, id, value, time. |
| ClipRun.StemIndexReadsBack | src/clips.rs:303 | A stem starts with `annotation_` and four digits that read back as the 1-based index. Without options it is 15 characters long. |
| ClipRun.StemWithValueOnly | src/clips.rs:292-320 | With only the value flag, the stem is the index part, `_` and the sanitised value. That value is at most the maximum length and has no unsafe character and no white space. |
| ClipRun.OutputPath | src/clips.rs:333-388 | Fails, naming the media file, exactly when that file has no extension. |
| ClipRun.OutputPathIsCorrectedAppend | src/clips.rs:345-350 | The output path is `tier_outdir/{mediastem}_{annotstem}.{ext}`. This is the name `append_file_name` is meant to produce. |
| ClipRun.FirstWithoutExtension | src/clips.rs:332-389 | Finds the first media file without an extension, or none when every file has one. |
| ClipRun.ClipPaths | src/clips.rs:332-389 | On success there is one output path per media file. |
| ClipRun.ClipPathsFails | src/clips.rs:332-389 | Succeeds exactly when every media file has an extension. Otherwise the error names the first media file without one. |
| ClipRun.ClipPathsEntry | src/clips.rs:332-389 | Output path `i` is the output path of media file `i`. |
| ClipRun.ClipEntry | src/clips.rs:329-391 | A boundary's record holds the output paths in media order and the boundary's start and end. It fails exactly as the paths do. |
| ClipRun.ClipForBoundary | src/clips.rs:329-389 | Builds a fresh `Clip` whose value is that record, or returns the same error. |
| ClipRun.Stems | src/clips.rs:298-325 | One stem per boundary. |
| ClipRun.StemsEntry | src/clips.rs:298-325 | Stem `i` is the stem of boundary `i` with index `i`. |
| ClipRun.TierClips | src/clips.rs:298-392 | On success there is one record per boundary. |
| ClipRun.TierClipsEntry | src/clips.rs:298-392 | Record `i` is boundary `i`'s record under stem `i`. |
| ClipRun.TierClipsFails | src/clips.rs:298-392 | Fails exactly when some boundary's record fails, and then with the first such error. |
| ClipRun.TierOutdir | src/clips.rs:223 | A tier's directory is the output directory, absolute or relative, with the tier id as one more component. |
| ClipRun.LedgerPath | src/clips.rs:394 | The ledger path is a well-formed path. |
| ClipRun.LedgerPathName | src/clips.rs:394 | The ledger file is named after the tier id with the extension `json`. A tier id with a dot has its last dot part replaced. |
| ClipRun.TierPlanOf | src/clips.rs:221-397 | A tier's plan keeps the base ledger's original media and is written to the tier's directory. |
| ClipRun.ComputeBoundaries | src/clips.rs:237-288 | The boundary step yields the boundaries and durations described above. |
| ClipRun.PlanTier | src/clips.rs:221-396 | Planning one tier from the base ledger yields that tier's plan. |
| ClipRun.TierStems | src/clips.rs:298-325 | The stem loop yields the stems `Stems` defines, one per boundary. |
| ClipRun.CutTier | src/clips.rs:295-392 | A tier's ledger is a copy of the base ledger followed by the tier's records, and keeps the original media. |
| ClipRun.Collect | src/clips.rs:221-397 | On success there is one plan per tier. |
| ClipRun.PlanOf | src/clips.rs:221-397 | On success there is one plan per tier. |
| ClipRun.CollectEntries | src/clips.rs:221-397 | Plan `t` is tier `t`'s plan, and the durations are concatenated in tier order. |
| ClipRun.PlanOfTiers | src/clips.rs:221-397 | Every tier's plan comes from its own tier. |
| ClipRun.PlanRun | src/clips.rs:216-397 | The per-tier loop over a base ledger of the links' absolute paths gives the plan above, or the first tier's error. |
| ClipRun.CollectSnoc | src/clips.rs:221-397 | Adding a tier extends the plan with that tier's plan and durations, or fails with its error. |
| ClipRun.CollectFailurePersists | src/clips.rs:221-397 | After a tier fails, the run's answer stays that failure. |
| ClipRun.PlanLedgers | src/clips.rs:219-391 | Every tier's ledger starts from the same original media and holds one record per kept boundary. |
| ClipRun.CollectNoDurations | src/clips.rs:237-262 | Tiers that record no durations give a run with no durations. |
| ClipRun.SingleModeNoDurations | src/clips.rs:237-262 | Single mode records no durations. |
| ClipRun.Longest | src/clips.rs:399 | The longest duration recorded, or 0 when none was. |
| ClipRun.Shortest | src/clips.rs:400 | The shortest duration recorded, or 0 when none was. |
| Text.Truncate | src/text.rs:16-25 | Keeps the first `min(l, length)` characters. |
| Text.RemoveChars | src/text.rs:28-30 | No character of the set is left, every other character keeps its count, and a string with nothing to remove comes back unchanged. |
| Text.RemoveCharsAppend | src/text.rs:28-30 | Removal works piece by piece, so the kept characters stay in their order. |
| Text.ReplaceWhitespace | src/text.rs:38-50 | Each white-space character becomes the substitute, and nothing else changes. |
| Text.ReplaceNonAscii | src/text.rs:39-45 | Each non-ASCII character becomes the substitute, and nothing else changes. |
| Text.ProcessString | src/text.rs:13-54 | With no option set, the value comes back unchanged. The output is never longer than the input, nor than `len` when set. |
| Text.Removed | src/text.rs:16-30 | After truncation and removal, no removed character is left and the length bounds hold. |
| Text.ProcessLenOnly | src/text.rs:16-52 | With only `len` set, the result is the truncated prefix, untrimmed. |
| Text.ProcessRemovesPattern | src/text.rs:28-53 | The only removed characters left are those a substitute put back. |
| Text.ProcessAsciiOnly | src/text.rs:35-46 | With an ASCII substitute for non-ASCII, the output is all ASCII. |
| Text.ProcessNoWhitespace | src/text.rs:35-51 | With non-space substitutes, the output has no white space. |
| Text.ProcessSingleSubstitute | src/text.rs:42-51 | With one substitute, the output is the trimmed string with only that substitution. |
| Text.SanitiseClipValue | src/clips.rs:292-319 | The sanitised value is at most the maximum length. |
| Text.SanitisedValueIsSafe | src/clips.rs:292-319 | The sanitised value has no unsafe character and no white space. |
| Text.SanitisedValueIsAscii | src/clips.rs:314-319 | With the ASCII flag, the sanitised value is all ASCII. |
| Text.IpaToAscii | src/text.rs:65-71 | `a` maps to `b`. Anything else maps to the substitute, or `_` when there is none. |
| Files.ClassifyIgnoresCase | src/files.rs:16 | Classifying an answer ignores ASCII case. |
| Files.Confirm | src/files.rs:9-25 | The answer is the first recognised line: yes or y gives true, no or n gives false. Every earlier line was unrecognised. With no recognised line, the input is exhausted. |
| Files.HasExtension | src/files.rs:28-30 | True exactly when the path has an extension equal to the wanted one after lower-casing both. A path without an extension never matches. |
| Files.HasExtensionIgnoresCase | src/files.rs:29 | The match ignores the case of the wanted extension. |
| Files.IsHidden | src/files.rs:53-55 | True exactly when the path has a file name starting with `.`. |
| Files.HiddenWithoutExtension | src/files.rs:53-55 | A hidden file whose only dot is the leading one has no extension. |
| Files.FileStemAsString | src/files.rs:95-97 | None exactly when there is no file name. Otherwise it is the name without its extension. |
| Files.AppendFileName | src/files.rs:67-76 | A path without a stem comes back unchanged. |
| Files.AffixFileName | src/files.rs:80-93 | A path without a stem comes back unchanged. |
| Files.AffixedName | src/files.rs:81-86 | The name is `prefix delim stem delim suffix`, with a delimiter only on a side whose affix is present. |
| Files.Rename | src/files.rs:69-86 | `with_file_name` replaces the last component. |
| Files.RenamedParts | src/files.rs:69-86 | The renamed path keeps its directory and has the new name's stem and extension. |
| Files.ReapplyExtension | src/files.rs:72-92 | Re-applying the extension replaces the new name's last dot part. |
| Files.AppendFileNameLosesSuffix | src/files.rs:67-76 | As written: when the stem holds a dot, the suffix is lost. |
| Files.AppendFileNameExample | src/files.rs:67-76 | As written: `audio.wav.wav` with suffix `S` becomes `audio.wav`. |
| Files.AppendFileNameKeepingSuffix | src/files.rs:65-76 | Corrected: a path without a stem comes back unchanged. |
| Files.AppendFileNameKeepingSuffixCorrect | src/files.rs:65-76 | Corrected: `dir/name.ext` becomes `dir/name_S.ext` for any stem. The extension is kept, and none is added when there was none. |
| Files.AffixFileNameDropsInnerPart | src/files.rs:80-93 | As written: with no affixes and a dotted stem, the name changes. |
| Files.AffixFileNameExample | src/files.rs:80-93 | As written: `audio.wav.wav` with no affixes becomes `audio.wav`. |
| Files.AffixFileNameKeepingStem | src/files.rs:80-93 | Corrected: a path without a stem comes back unchanged. |
| Files.AffixFileNameKeepingStemIdentity | src/files.rs:80-93 | Corrected: with neither affix, the path is unchanged. |
| Files.AffixFileNameKeepingStemCorrect | src/files.rs:80-93 | Corrected: the directory is kept and the name is the affixed stem plus the original extension. |
| Files.AppendFileNameAgrees | src/files.rs:67-76 | As written and corrected agree for a stem without a dot of its own and an absent or non-empty extension. |
| Files.AffixFileNameAgrees | src/files.rs:80-93 | As written and corrected agree for a dotless stem, dotless affixes and an absent or non-empty extension. |
| Files.AppendFileNameDotDotStem | src/files.rs:67-76 | As written: `...wav` with suffix `S` becomes `..wav`. |
| Selection.ParseUsize | src/eaf.rs:40 | A parsed number fits in `usize`. Any character other than a digit or one leading `+` makes the line not a number, and so does the empty line. A parsed number is the decimal value of its digits. A digit string whose value fits always parses, and one whose value does not fit never does. |
| Selection.ParseUsizeRoundTrip | src/eaf.rs:40 | A number printed in decimal parses back to itself. |
| Selection.Position | src/eaf.rs:42-87 | `get(i - 1)` finds an item exactly when `1 <= i <= count`, at index `i - 1`. |
| Selection.TierVerdict | src/eaf.rs:40-52 | "Not a number" exactly when the trimmed line does not parse. "No such tier" exactly when there is no tier at that number. An accepted tier is one of the tiers, and not a refused tokenized one. |
| Selection.TierVerdictSelects | src/eaf.rs:42-48 | Typing tier `k + 1` selects tier `k` unless it is refused as tokenized. |
| Selection.TrimEndNumberLine | src/eaf.rs:40 | Trimming the line break off a typed number leaves the number. |
| Selection.SelectTier | src/eaf.rs:34-54 | Returns the tier of the first accepted line, and no earlier line was accepted. When no line is accepted, the input is exhausted. |
| Selection.UntimedPositions | src/eaf.rs:60-74 | Lists, in increasing order, exactly the 0-based positions of the untimed annotations. |
| Selection.AnnotationVerdict | src/eaf.rs:81-93 | As written: rejected exactly when the typed number itself is in the 0-based untimed list. |
| Selection.AnnotationVerdictMismatch | src/eaf.rs:84-90 | As written: with annotation 1 untimed, typing 1 returns it. With only annotation 2 untimed, typing 1 is refused. |
| Selection.AnnotationVerdictAcceptsUntimed | src/eaf.rs:84-90 | As written: any untimed annotation followed by a timed one can be selected. |
| Selection.AnnotationVerdictCorrected | src/eaf.rs:84-90 | Corrected: "not a number" exactly when the trimmed line does not parse. |
| Selection.AnnotationVerdictCorrectedSound | src/eaf.rs:84-90 | Corrected: an accepted annotation is timed, and a rejection names an untimed position. |
| Selection.AnnotationVerdictCorrectedSelects | src/eaf.rs:84-90 | Corrected: typing `k + 1` selects annotation `k` exactly when it is timed. |
| Selection.SelectAnnotation | src/eaf.rs:76-95 | Builds the untimed list, then returns the first accepted line's annotation, or exhausts the input. |
| TierTrees.InitialHoldsTierIds | src/tree.rs:53-55 | The first loop makes every tier id a key with an empty list, and adds no other key. |
| TierTrees.AddChildrenLists | src/tree.rs:58-61 | Grouping appends each referring tier, in order, to its parent's list, and adds only parents as new keys. |
| TierTrees.GroupedChildren | src/tree.rs:53-61 | Before pruning, a key's list is the ids of the tiers referring to it, in document order. The keys are the tier ids and the parents. |
| TierTrees.PruneIdempotent | src/tree.rs:82-104 | Pruning twice is pruning once. |
| TierTrees.PruneKeepsEveryTier | src/tree.rs:82-104 | Every key dropped by pruning is still listed under a kept key. |
| TierTrees.BuiltLookup | src/tree.rs:51-67 | After `new`, `get` of any id is exactly the ids of the tiers referring to it, in document order. |
| TierTrees.Marker | src/tree.rs:114-122 | The last child gets `╰─ `, and every other child gets `├─ `. |
| TierTrees.ChildLines | src/tree.rs:110-125 | Each child's line is the indent, its marker and its id, and comes before its subtree. There is at least one line per child, and exactly one without fuel. |
| TierTrees.SubtreeLines | src/tree.rs:106-126 | A subtree has at least one line per child, and none for an id without children. |
| TierTrees.KeyLines | src/tree.rs:130-133 | Every key gets a line of its own. |
| TierTrees.TreeLines | src/tree.rs:127-134 | Every key of the map appears as a line, and there is at least one line per key. |
| TierTrees.Grouped | src/tree.rs:51-61 | Every tier id is a key before pruning. |
| TierTrees.Pruned | src/tree.rs:82-104 | Pruning keeps a subset of the keys with their lists untouched. It keeps every key with children and every key that is no one's child. |
| TierTrees.Spaces | src/tree.rs:107-120 | `n` spaces. |
| TierTrees.SubtreeIndented | src/tree.rs:106-126 | Every line of a subtree printed at depth `d` is indented by at least `3 * d`. |
| TierTrees.SortedUnique | src/tree.rs:128-129 | Two sorted orders of the same ids are the same list. |
| TierTrees.TreeLinesIgnoreKeyOrder | src/tree.rs:127-134 | The printout does not depend on the order in which the map hands out its keys. |
| TierTrees.TierTree.constructor | src/tree.rs:51-67 | The map is the grouped map, pruned. |
| TierTrees.TierTree.Remove | src/tree.rs:77-79 | Drops the key and hands back its list if it was present. |
| TierTrees.TierTree.Prune | src/tree.rs:82-104 | Removes exactly the keys that are someone's child and have no children. Lists are untouched and nothing is added. |
| TierTrees.TierTree.Get | src/tree.rs:156-157 | The id's list, or empty for an unknown id. |
| TierTrees.TierTree.Len | src/tree.rs:169-171 | The length of the id's list. |
| Tokens.WithCommon | src/tokens.rs:21-30 | With strip-common on, the result is the user's set followed by the common set, or the common set alone. Otherwise the user's set is unchanged. |
| Tokens.Unique | src/tokens.rs:36-39 | A distribution forces `unique` off. Otherwise the flag is kept. |
| Tokens.CountTokens | src/tokens.rs:80-86 | Every token, and only a token, is a key, and its count is its number of occurrences. |
| Tokens.Entries | src/tokens.rs:88-90 | Lists each key exactly once with its count. |
| Tokens.KeyLeTotal | src/tokens.rs:92-96 | Any two entries are comparable by the sort key. |
| Tokens.KeyLeTransitive | src/tokens.rs:92-96 | The sort key order is transitive. |
| Tokens.SortEntries | src/tokens.rs:92-96 | Sorts the array in place by word or by count, and the result is a permutation. |
| Tokens.InsertAt | src/tokens.rs:92-96 | Sinks one entry into the sorted prefix, keeping a permutation. |
| Tokens.ReverseEntries | src/tokens.rs:98-100 | Reverses the array in place. |
| Tokens.CountsSum | src/tokens.rs:80-111 | The counts of one entry per distinct token add up to the number of tokens. |
| Tokens.Distribution | src/tokens.rs:80-111 | One entry per distinct token with its number of occurrences, and no duplicates. Sorted, or sorted downward when reversed. The counts sum to the token count. |
| Clock.HmsMilli | src/eaf2csv.rs:231-234 | The fields are a valid time of day and stand for `ms` modulo a day. |
| Clock.HmsMilliOfMillis | src/eaf2csv.rs:231-234 | Valid fields come back from their own millisecond count. |
| Clock.FieldsUnique | src/eaf2csv.rs:231-234 | Two valid clock readings with the same milliseconds are equal. |
| Clock.HmsMilliPeriodic | src/eaf2csv.rs:231-234 | Adding whole days does not change the clock reading. |
| Clock.HmsMilliToStringLayout | src/eaf2csv.rs:236-238 | Valid fields print as 12 characters `HH:MM:SS.fff`, and each field reads back from its digits. |
| Clock.Ms2StringReadsBack | src/eaf2csv.rs:227-229 | The printed fields, weighted by their units, add up to `ms` modulo a day. |
| Clock.WholeDaysAreMidnight | src/eaf2csv.rs:231-234 | A whole number of days reads as midnight. |
| Clock.MidnightAt | src/eaf2csv.rs:227-229 | Zero milliseconds prints as `00:00:00.000`. |
| Clock.HmsMilliToString | src/eaf2csv.rs:236-238 | The text is at least 12 characters, all digits, `:` or `.`. |
| Clock.Ms2String | src/eaf2csv.rs:227-229 | Any millisecond count prints as 12 characters with `:` at 2 and 5 and `.` at 8. |
| Clock.TimeColumns | src/eaf2csv.rs:188-207 | The clock column is 12 characters. The raw column reads back as the milliseconds, a missing value as 0, with a leading `-` when negative. |
| Clock.MissingTimeIsMidnight | src/eaf2csv.rs:188-207 | A missing time value prints as `00:00:00.000` and `0`. |
| JsonPaths.ReadShifted | src/whisper/whisper.rs:49-53 | A path with no ledger entry is the timestamps error. A read error is passed on. Otherwise the file is shifted by the clip start in seconds. |
| JsonPaths.Collect | src/whisper/whisper.rs:48-54 | Every file, in path order, or the first path's error. |
| Whisper.Offset | src/whisper/whisper.rs:64-69 | Every segment is kept, and its start and end move by the offset. |
| Whisper.OffsetKeepsStructure | src/whisper/whisper.rs:64-69 | Offsetting keeps every value, segment and word, and moves every time by the same amount. |
| Whisper.OffsetInverse | src/whisper/whisper.rs:64-69 | Offsetting back undoes an offset. |
| Whisper.Join | src/whisper/whisper.rs:74-93 | With a text on the first file, the others' texts and segments follow it, and the others' segment lists are emptied. Without one, the result is the first file's segments with text `""`, and the others are untouched. |
| Whisper.Joined | src/whisper/whisper.rs:74-93 | The join keeps the first file's language, always has a text, and starts with the first file's segments and, when it has one, its text. |
| Whisper.JoinedAppend | src/whisper/whisper.rs:74-93 | Joining one more file after a join is the join of all of them. |
| Whisper.JoinedWithoutText | src/whisper/whisper.rs:77-92 | Without a text on the first file, the others are ignored. |
| Whisper.FromPaths | src/whisper/whisper.rs:43-61 | No paths is an error, and the first failing path's error is the answer. One file is returned shifted. Several are joined in path order. |
| Whisper.Kept | src/whisper/whisper.rs:99-101 | Keeps exactly the segments with no-speech probability below the threshold. |
| Whisper.KeptAppend | src/whisper/whisper.rs:99-101 | Filtering distributes over concatenation, so order is kept. |
| Whisper.KeptAll | src/whisper/whisper.rs:99-101 | When every segment is below the threshold, all are kept. |
| Whisper.KeptNested | src/whisper/whisper.rs:99-101 | Filtering with a higher threshold, then a lower one, is filtering with the lower one. |
| Whisper.SegmentTextsAppend | src/whisper/whisper.rs:102 | The text of concatenated segments is the concatenation of their texts. |
| Whisper.FilterNoSpeech | src/whisper/whisper.rs:98-108 | A segment is kept exactly when it was there and its no-speech probability is below the threshold. The language is kept and a text is always set. |
| Whisper.FilterNoSpeechIdempotent | src/whisper/whisper.rs:98-108 | Filtering twice with one threshold is filtering once. |
| Whisper.FilterNoSpeechJoined | src/whisper/whisper.rs:74-108 | Filtering a join keeps the first file's language. Its segments are the kept segments of each part, in order, and its text is their texts. |
| Whisper.TokensRoundTrip | src/whisper/whisper.rs:303 | The `", "`-joined token list parses back to the tokens. |
| Whisper.FieldStringReadsBack | src/whisper/whisper.rs:292-305 | `Text` is the segment text unchanged. `Id` and `Seek` are digits reading back as the values. `Tokens` parse back. |
| Whisper.RefValueOfInteger | src/whisper/whisper.rs:297-299 | Trimming the id and seek values changes nothing. |
| Whisper.Blocks | src/whisper/whisper.rs:140-174 | One block per segment, with six referring values. |
| Whisper.WordsToAlignable | src/whisper/whisper.rs:325-343 | Word `k` gets annotation id `a + k` and time slots `t + 2k` and `t + 2k + 1`. |
| Whisper.ToEaf | src/whisper/whisper.rs:114-242 | The conversion loop builds the document of the segments' blocks. |
| Whisper.EmitSegment | src/whisper/whisper.rs:140-174 | One segment's pushes: its main annotation, its words and six references, numbered from the lengths so far. |
| Whisper.SegmentStepped | src/whisper/whisper.rs:140-174 | Those pushes are one step of the numbering of the segment's block. |
| Whisper.SegmentAligned | src/whisper/whisper.rs:154-165 | The main and word pushes are the block's aligned annotations and slots. |
| Whisper.SegmentRefs | src/whisper/whisper.rs:168-173 | The six reference pushes are the block's references to its main annotation. |
| Whisper.ReferredAt | src/whisper/whisper.rs:168-173 | Reference tier `j` gains one annotation with the next id after the words. It refers to the main id and has the segment's times. |
| Whisper.ReferredInBlock | src/whisper/whisper.rs:168-173 | A referred annotation carries the block's trimmed field value. |
| Whisper.DocumentWellFormed | src/whisper/whisper.rs:114-242 | Eight tiers: `segments` with no parent, the rest under `segments`. One annotation per segment on the main tier and each reference tier, and one per word on `words`. Ids are distinct, slots are numbered 1, 2, … in order, and every slot and parent is present. |
| Whisper.RefTiersPlaced | src/whisper/whisper.rs:180-237 | Tiers 2 to 7 are `avg_logprob` … `temperature` in order, under `segments`, each with one annotation per segment. |
| WhisperTs.Offset | src/whisper/whisper_timestamped.rs:79-84 | Every segment is kept, and its start and end move by the offset. |
| WhisperTs.OffsetKeepsStructure | src/whisper/whisper_timestamped.rs:79-84 | Offsetting keeps every value, segment, word and confidence, and moves every time by the same amount. |
| WhisperTs.OffsetInverse | src/whisper/whisper_timestamped.rs:79-84 | Offsetting back undoes an offset. |
| WhisperTs.Join | src/whisper/whisper_timestamped.rs:89-103 | The texts and the segments are concatenated in order, and each other file's segments are moved out. |
| WhisperTs.Joined | src/whisper/whisper_timestamped.rs:89-103 | The join starts with the first file's text and segments. |
| WhisperTs.JoinedAppend | src/whisper/whisper_timestamped.rs:89-103 | Joining one more file after a join is the join of all of them. |
| WhisperTs.JoinedNone | src/whisper/whisper_timestamped.rs:125-128 | Joining nothing returns the file unchanged. |
| WhisperTs.FirstStart | src/whisper/whisper_timestamped.rs:149-151 | None exactly when there are no segments. Otherwise the first segment's start. |
| WhisperTs.LastStart | src/whisper/whisper_timestamped.rs:156-158 | None exactly when there are no segments. Otherwise the last segment's start. |
| WhisperTs.FirstEnd | src/whisper/whisper_timestamped.rs:163-165 | None exactly when there are no segments. Otherwise the first segment's end. |
| WhisperTs.LastEnd | src/whisper/whisper_timestamped.rs:170-172 | None exactly when there are no segments. Otherwise the last segment's end. |
| WhisperTs.JoinedEnds | src/whisper/whisper_timestamped.rs:89-172 | A join ends where its last file ends, and starts where its first file starts. |
| WhisperTs.FromPaths | src/whisper/whisper_timestamped.rs:112-130 | No paths is an error, and the first failing path's error is the answer. One file is returned shifted. Several are joined in path order. |
| WhisperTs.Blocks | src/whisper/whisper_timestamped.rs:194-218 | One block per segment, with one confidence value. |
| WhisperTs.WordsToAlignable | src/whisper/whisper_timestamped.rs:300-318 | Word `k` gets annotation id `a + k` and time slots `t + 2k` and `t + 2k + 1`. |
| WhisperTs.ToEaf | src/whisper/whisper_timestamped.rs:182-250 | The conversion loop builds the document of the segments' blocks. |
| WhisperTs.EmitSegment | src/whisper/whisper_timestamped.rs:194-218 | One segment's pushes are one step of the numbering of its block. |
| WhisperTs.DocumentWellFormed | src/whisper/whisper_timestamped.rs:182-250 | Three tiers: `segments`, then words and confidence under it. Counts per segment and per word. Ids are distinct, slots are numbered 1, 2, … in order, and every slot and parent is present. |
| EafEmit.WordSlotsNumbered | src/whisper/whisper_timestamped.rs:305-317 | Two slots per word, numbered consecutively, holding the word's start and end. |
| EafEmit.BlockIds | src/whisper/whisper_timestamped.rs:195-217 | A block emits 1 + words + references annotations with consecutive ids from its base. |
| EafEmit.EmitAllIds | src/whisper/whisper_timestamped.rs:194-218 | All annotations of a document have ids 1, 2, … in emission order. |
| EafEmit.AllSlotsIds | src/whisper/whisper_timestamped.rs:199-214 | All time slots have ids 1, 2, … in order. |
| EafEmit.TierIdsDistinct | src/whisper/whisper.rs:140-174 | No two annotations on any tiers share an id. |
| EafEmit.SlotsResolve | src/whisper/whisper.rs:150-165 | Every aligned annotation's two slots exist and hold its start and end. |
| EafEmit.RefsResolve | src/whisper/whisper.rs:168-173 | Every referring annotation refers to an annotation on the main tier. |
| EafEmit.MainTierEmitted | src/whisper/whisper.rs:140-174 | The main tier is the main annotations in emission order. |
| EafEmit.WordTierEmitted | src/whisper/whisper.rs:140-174 | The words tier is the word annotations in emission order. |
| EafEmit.RefTierEmitted | src/whisper/whisper.rs:140-174 | Reference tier `j` is the `j`-th references in emission order. |
| EafEmit.MainTierLength | src/whisper/whisper.rs:140-174 | One main annotation per segment. |
| EafEmit.WordTierLength | src/whisper/whisper.rs:140-174 | One word annotation per word. |
| EafEmit.RefTierLength | src/whisper/whisper.rs:140-174 | One annotation per segment on each reference tier. |
| EafEmit.AnnotCountFormula | src/whisper/whisper.rs:141-149 | The annotation count is segments × (1 + references) + words. |
| EafEmit.TierCounts | src/whisper/whisper.rs:141-150 | The tiers' lengths add up to the annotation count. |
| EafEmit.BuiltStep | src/whisper/whisper.rs:140-174 | One segment's pushes extend every tier and the slots by that segment's part. |
| EafEmit.WordsStep | src/whisper/whisper.rs:332-340 | One word's pushes extend the word annotations and slots by that word's part. |
| EafEmit.EmittedDocument | src/whisper/whisper.rs:229-237 | A document built this way has distinct ids, consecutively numbered slots, and every slot and parent present. |
| Decimal.NatToStringRoundTrip | src/whisper/whisper.rs:297 | A number's decimal digits read back as the number. |
| Decimal.PaddedNatWidth | src/clips.rs:303 | A number below `10^w` zero-pads to exactly `w` digits. |
| Strings.TrimIsSlice | src/text.rs:37 | Trimming yields a contiguous slice of the string. |
| Strings.LowerIdempotent | src/files.rs:16 | Lower-casing twice is lower-casing once. |
| Strings.LexLeTotal | src/tokens.rs:93 | String order is total. |
| Strings.LexLeTransitive | src/tokens.rs:93 | String order is transitive. |
| Strings.SortStrings | src/tree.rs:111-129 | The sorted ids are in order and are a permutation of the input. |
| Paths.SplitAtDot | src/files.rs:68 | A name splits at its last dot into a non-empty stem and an extension without a dot. There is no extension for `..`, a name without a dot, or a name whose only dot is leading. |
| Paths.SplitAtDotJoin | src/files.rs:69 | `a.b` splits back into `a` and `b` when `b` has no dot. |
| Paths.Extension | src/files.rs:72 | The file name is the stem, a dot and the extension. |
| Paths.FileName | src/files.rs:54 | The file name is the last component, unless that component is `..`. |

## Left out

- Command-line parsing (`src/main.rs`, clap) is not part of this model. Flags are plain parameters. `clips.rs` reads `tier-id`, `all` and `min-duration`, which `main.rs` never declares, and the model treats them as given values.
- The `eaf_rs` library is not part of this model: reading and writing EAF, `tokens`, `is_tokenized`, `is_ref` and `AnnotationBuilder`. A document is an input value. `is_tokenized` is an oracle. `AnnotationBuilder::build` never fails, because every field it needs is set.
- FFmpeg, ffprobe and the clip extraction itself are left out. The model plans the clips and their ledger, but does not cut them.
- The file system is left out. `exists` and `canonicalize` are oracle parameters of `ClipRun.Resolve`. Creating directories, writing the ledger JSON and the overwrite prompt are not modelled.
- JSON (de)serialisation of Whisper files and ledgers is left out. Reading a file is the `read` parameter of `FromPaths`.
- Floating-point arithmetic is left out. Whisper times and probabilities are reals. `(x * 1000).round() as i64` and `f64::to_string` are not modelled; the rendering of a float is the `render` parameter.
- Standard input is a finite list of lines. Flush and read errors are not modelled. Running out of lines is the `Exhausted` error; the source would keep reading empty lines at end of input.
- Files.Confirm, Selection.SelectTier, Selection.SelectAnnotation: return the first accepted line, or `Exhausted`. They do not model the endless re-prompting at end of input.
- Printing is left out: tables, colours, progress messages, and the summary line except its durations.
- Lower-casing in `confirm` and `has_extension` is ASCII only. Unicode case mapping beyond ASCII is not modelled.
- `HashMap` iteration order is arbitrary in the model. `TierTree.Prune` and `Tokens.Entries` pick keys in any order.
- Tokens.SortEntries: the sort is proved sorted and a permutation. Stability of `sort_by_key` among equal counts is not claimed.
- TierTrees.SubtreeLines: `print` is bounded by a fuel parameter. The source recurses without a bound, and a cycle of parent references would never end.
- `overlaps`, `time_span`, `to_referred` and per-word confidence values in `whisper_timestamped.rs` are left out. `overlaps` always returns true and the rest only reads values through.
- The regex is a fixed set of characters: the one class `src/clips.rs:292` passes to `process_string`. General regular expressions are not modelled.
- `select_tiers` (an `inquire` multi-select) and `writefile` are left out: both are terminal and file I/O.
- Selection.Position: `i - 1` on a `usize` with `i = 0` wraps around, as in a release build, so the lookup finds nothing. A debug build would panic instead.

## Findings

| source | as written | input that shows it | evidently intended | confidence | as-written member | corrected member |
|---|---|---|---|---|---|---|
| src/files.rs:67-76 | `append_file_name` renames to `{stem}_{suffix}`, then calls `with_extension(ext)`. That replaces everything after the last dot of the new name, so for a dotted stem it replaces the suffix. The stem `..` loses it too: `...wav` with `S` gives `..wav` (Files.AppendFileNameDotDotStem). For a stem without a dot of its own the two agree (Files.AppendFileNameAgrees). | `audio.wav.wav` with suffix `S` gives `audio.wav` | `audio.wav_S.wav`: the suffix is kept and the original extension re-attached | not executed | Files.AppendFileNameExample | Files.AppendFileNameKeepingSuffixCorrect |
| src/files.rs:80-93 | `affix_file_name` has the same `with_extension` step, so with a dotted stem it drops the part after the stem's last dot, even with no affixes. For a dotless stem and dotless affixes the two agree (Files.AffixFileNameAgrees). | `audio.wav.wav` with no prefix or suffix gives `audio.wav` | the path unchanged when there are no affixes; in general the affixed stem plus the original extension | not executed | Files.AffixFileNameExample | Files.AffixFileNameKeepingStemCorrect |
| src/eaf.rs:84-90 | `select_annotation` checks whether the typed 1-based number itself is in the list of 0-based positions of untimed annotations. | annotations [untimed, timed]: typing `1` returns the untimed annotation; annotations [timed, untimed]: typing `1` is refused | reject exactly when annotation `i - 1` is untimed | not executed | Selection.AnnotationVerdictMismatch | Selection.AnnotationVerdictCorrectedSelects |
