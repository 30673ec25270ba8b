/** `src/text.rs`: the file-name sanitiser `process_string` and `ipa2ascii`.
    The regular expression argument is modelled as the set of characters it
    deletes; the only one the program passes is a character class. */
module Text {
  import opened Wrappers
  import opened Strings

  /** The characters of the class `["'#*<>{}()\[\].,:;!/?=\\-]` that clip
      extraction deletes from annotation values. */
  const CLIP_UNSAFE: set<char> :=
    {'"', '\'', '#', '*', '<', '>', '{', '}', '(', ')', '[', ']',
     '.', ',', ':', ';', '!', '/', '?', '=', '\\', '-'}

  /** Keeps the first `l` characters (Unicode scalar values, not bytes). */
  function Truncate(s: string, l: nat): (r: string)
    ensures |r| == if l < |s| then l else |s|
    ensures r == s[..|r|]
  {
    if l < |s| then s[..l] else s
  }

  /** `Regex::replace_all(_, "")` for a character class: deletes every
      character of `remove` and keeps the others in order. */
  function RemoveChars(s: string, remove: set<char>): (r: string)
    ensures |r| <= |s|
    ensures forall i :: 0 <= i < |r| ==> r[i] !in remove
    ensures forall c :: c !in remove ==> multiset(r)[c] == multiset(s)[c]
    ensures (forall i :: 0 <= i < |s| ==> s[i] !in remove) ==> r == s
  {
    if s == [] then []
    else
      assert s == [s[0]] + s[1..];
      if s[0] in remove then RemoveChars(s[1..], remove)
      else [s[0]] + RemoveChars(s[1..], remove)
  }

  /** Deleting characters works piece by piece, so the characters kept stay
      in their order: with the single-character cases of `RemoveChars`'s
      contract this determines the result for every input. */
  lemma {:induction false} RemoveCharsAppend(s: string, t: string, remove: set<char>)
    ensures RemoveChars(s + t, remove) == RemoveChars(s, remove) + RemoveChars(t, remove)
  {
    if s == [] {
      assert s + t == t;
    } else {
      assert (s + t)[0] == s[0];
      assert (s + t)[1..] == s[1..] + t;
      RemoveCharsAppend(s[1..], t, remove);
    }
  }

  /** `str::replace(|c| c.is_whitespace(), w)`. */
  function ReplaceWhitespace(s: string, w: char): (r: string)
    ensures |r| == |s|
    ensures forall i :: 0 <= i < |s| ==> r[i] == if IsWhitespace(s[i]) then w else s[i]
  {
    seq(|s|, i requires 0 <= i < |s| => if IsWhitespace(s[i]) then w else s[i])
  }

  /** `str::replace(|c| !c.is_ascii(), a)`. */
  function ReplaceNonAscii(s: string, a: char): (r: string)
    ensures |r| == |s|
    ensures forall i :: 0 <= i < |s| ==> r[i] == if IsAscii(s[i]) then s[i] else a
  {
    seq(|s|, i requires 0 <= i < |s| => if IsAscii(s[i]) then s[i] else a)
  }

  /** `process_string(value, ascii, whitespace, regex, len)`: truncate, delete
      the pattern, then trim and substitute. With neither substitute the
      string is returned as it stands after the first two steps, untrimmed. */
  function ProcessString(value: string, ascii: Option<char>, whitespace: Option<char>,
                         remove: Option<set<char>>, len: Option<nat>): (r: string)
    ensures ascii.None? && whitespace.None? && remove.None? && len.None? ==> r == value
    ensures len.Some? ==> |r| <= len.value
    ensures |r| <= |value|
  {
    var removed := Removed(value, remove, len);
    match (ascii, whitespace)
    case (Some(a), Some(w)) => ReplaceNonAscii(ReplaceWhitespace(Trim(removed), w), a)
    case (Some(a), None) => ReplaceNonAscii(Trim(removed), a)
    case (None, Some(w)) => ReplaceWhitespace(Trim(removed), w)
    case (None, None) => removed
  }

  /** The first two stages of `process_string`: truncation, then deletion. */
  function Removed(value: string, remove: Option<set<char>>, len: Option<nat>): (r: string)
    ensures len.Some? ==> |r| <= len.value
    ensures |r| <= |value|
    ensures remove.Some? ==> forall i :: 0 <= i < |r| ==> r[i] !in remove.value
  {
    var truncated := if len.Some? then Truncate(value, len.value) else value;
    if remove.Some? then RemoveChars(truncated, remove.value) else truncated
  }

  /** With only `len` set, the result is the truncated prefix, not trimmed. */
  lemma {:induction false} ProcessLenOnly(value: string, l: nat)
    ensures ProcessString(value, None, None, None, Some(l)) == value[..if l < |value| then l else |value|]
  {
  }

  /** A removed character can reappear only as one of the substitutes. */
  lemma {:induction false} ProcessRemovesPattern(value: string, ascii: Option<char>, whitespace: Option<char>,
                              remove: set<char>, len: Option<nat>)
    ensures var r := ProcessString(value, ascii, whitespace, Some(remove), len);
      forall i :: 0 <= i < |r| ==> r[i] !in remove || Some(r[i]) == ascii || Some(r[i]) == whitespace
  {
    var removed := Removed(value, Some(remove), len);
    var t := Trim(removed);
    TrimIsSlice(removed);
    forall i | 0 <= i < |t|
      ensures t[i] !in remove
    {
      assert t[i] == removed[i + TrimmedLeading(removed)];
    }
  }

  /** With an ASCII substitute that is itself ASCII, the result is all ASCII. */
  lemma {:induction false} ProcessAsciiOnly(value: string, a: char, whitespace: Option<char>,
                         remove: Option<set<char>>, len: Option<nat>)
    requires IsAscii(a)
    ensures var r := ProcessString(value, Some(a), whitespace, remove, len);
      forall i :: 0 <= i < |r| ==> IsAscii(r[i])
  {
  }

  /** With a whitespace substitute, and an ASCII substitute (if any), that are
      not whitespace, the result holds no whitespace. */
  lemma {:induction false} ProcessNoWhitespace(value: string, ascii: Option<char>, w: char,
                            remove: Option<set<char>>, len: Option<nat>)
    requires !IsWhitespace(w)
    requires ascii.Some? ==> !IsWhitespace(ascii.value)
    ensures var r := ProcessString(value, ascii, Some(w), remove, len);
      forall i :: 0 <= i < |r| ==> !IsWhitespace(r[i])
  {
    var t := Trim(Removed(value, remove, len));
    var u := ReplaceWhitespace(t, w);
    assert forall i :: 0 <= i < |u| ==> !IsWhitespace(u[i]);
  }

  /** With only `ascii`, interior whitespace survives the trim untouched;
      with only `whitespace`, non-ASCII characters survive. */
  lemma {:induction false} ProcessSingleSubstitute(value: string, c: char, remove: Option<set<char>>, len: Option<nat>)
    ensures var t := Trim(Removed(value, remove, len));
      && ProcessString(value, Some(c), None, remove, len) == ReplaceNonAscii(t, c)
      && ProcessString(value, None, Some(c), remove, len) == ReplaceWhitespace(t, c)
  {
  }

  /** The value sanitiser clip extraction applies: the unsafe class deleted,
      whitespace always replaced by `_`, non-ASCII replaced by `_` only when
      `asciiOnly` is set, at most `maxLen` characters. */
  function SanitiseClipValue(value: string, asciiOnly: bool, maxLen: nat): (r: string)
    ensures |r| <= maxLen
  {
    ProcessString(value, if asciiOnly then Some('_') else None, Some('_'), Some(CLIP_UNSAFE), Some(maxLen))
  }

  /** A sanitised value holds no unsafe character and no whitespace. */
  lemma {:induction false} SanitisedValueIsSafe(value: string, asciiOnly: bool, maxLen: nat)
    ensures var r := SanitiseClipValue(value, asciiOnly, maxLen);
      forall i :: 0 <= i < |r| ==> r[i] !in CLIP_UNSAFE && !IsWhitespace(r[i])
  {
    var ascii: Option<char> := if asciiOnly then Some('_') else None;
    var r := ProcessString(value, ascii, Some('_'), Some(CLIP_UNSAFE), Some(maxLen));
    ProcessRemovesPattern(value, ascii, Some('_'), CLIP_UNSAFE, Some(maxLen));
    ProcessNoWhitespace(value, ascii, '_', Some(CLIP_UNSAFE), Some(maxLen));
    UnderscoreIsSafe();
  }

  lemma UnderscoreIsSafe()
    ensures '_' !in CLIP_UNSAFE
  {
  }

  /** With `asciiOnly`, a sanitised value is all ASCII. */
  lemma {:induction false} SanitisedValueIsAscii(value: string, maxLen: nat)
    ensures var r := SanitiseClipValue(value, true, maxLen);
      forall i :: 0 <= i < |r| ==> IsAscii(r[i])
  {
    ProcessAsciiOnly(value, '_', Some('_'), Some(CLIP_UNSAFE), Some(maxLen));
  }

  /** The table `ipa2ascii` consults. */
  const IPA_TO_ASCII: map<char, char> := map['a' := 'b']

  /** `ipa2ascii`: the table's entry, else the substitute, else `_`. */
  function IpaToAscii(token: char, substitute: Option<char>): (r: char)
    ensures token == 'a' ==> r == 'b'
    ensures token != 'a' ==> r == substitute.GetOr('_')
  {
    if token in IPA_TO_ASCII then IPA_TO_ASCII[token] else substitute.GetOr('_')
  }
}
