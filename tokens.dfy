/** `src/tokens.rs`: the options of the `tokens` command and the word
    distribution: occurrences counted into a map, listed, sorted by word or
    by count, optionally reversed. The tokens themselves come from the
    external `eaf_rs` library and are an input here. */
module Tokens {
  import opened Wrappers
  import opened Strings

  /** The characters `--strip-common` strips from the front of a token. */
  const COMMON_PREFIX: string := "#*_<{([-\"'="
  /** The characters `--strip-common` strips from the end of a token. */
  const COMMON_SUFFIX: string := "#*_>})]-\"'=.,:;!?"

  /** The prefix (or suffix) set after `--strip-common`: the user's own
      characters followed by the common set, or the common set alone;
      without the flag the user's set is kept as given. */
  function WithCommon(user: Option<string>, common: string, stripCommon: bool): (r: Option<string>)
    ensures !stripCommon ==> r == user
    ensures stripCommon ==> r.Some? && |common| <= |r.value| && r.value[|r.value| - |common|..] == common
    ensures stripCommon && user.Some? ==> |r.value| == |user.value| + |common| && r.value[..|user.value|] == user.value
    ensures stripCommon && user.None? ==> r == Some(common)
  {
    if stripCommon then
      match user
      case Some(s) => Some(s + common)
      case None => Some(common)
    else user
  }

  /** `unique` is forced off when a distribution is asked for. */
  function Unique(distribution: bool, unique: bool): (r: bool)
    ensures distribution ==> !r
    ensures !distribution ==> r == unique
  {
    match distribution
    case true => false
    case false => unique
  }

  /** A distribution entry: a word and its count. */
  type Entry = (string, nat)

  /** The distribution counts every occurrence: `count[w]` is how many times
      `w` occurs in the tokens, and only tokens are counted. */
  method CountTokens(tokens: seq<string>) returns (count: map<string, nat>)
    ensures forall w :: w in count <==> w in tokens
    ensures forall w :: w in count ==> count[w] == multiset(tokens)[w]
  {
    count := map[];
    for i := 0 to |tokens|
      invariant forall w :: w in count <==> w in tokens[..i]
      invariant forall w :: w in count ==> count[w] == multiset(tokens[..i])[w]
    {
      assert tokens[..i + 1] == tokens[..i] + [tokens[i]];
      var w := tokens[i];
      var c := if w in count then count[w] else 0;
      count := count[w := c + 1];
    }
    assert tokens[..|tokens|] == tokens;
  }

  /** The map's entries, in whatever order the map hands them out: each key
      once, with its count. */
  method Entries(count: map<string, nat>) returns (es: seq<Entry>)
    ensures forall e :: e in es ==> e.0 in count && e.1 == count[e.0]
    ensures forall w :: w in count ==> (w, count[w]) in es
    ensures forall e :: multiset(es)[e] <= 1
  {
    es := [];
    var rest := count.Keys;
    while rest != {}
      invariant rest <= count.Keys
      invariant forall e :: e in es ==> e.0 in count && e.0 !in rest && e.1 == count[e.0]
      invariant forall w :: w in count && w !in rest ==> (w, count[w]) in es
      invariant forall e :: multiset(es)[e] <= 1
      decreases |rest|
    {
      var w :| w in rest;
      assert (w, count[w]) !in es;
      es := es + [(w, count[w])];
      rest := rest - {w};
    }
  }

  /** The sort key order: by word in `String` order, or by count. */
  predicate KeyLe(x: Entry, y: Entry, alpha: bool) {
    if alpha then LexLe(x.0, y.0) else x.1 <= y.1
  }

  lemma {:induction false} KeyLeTotal(x: Entry, y: Entry, alpha: bool)
    ensures KeyLe(x, y, alpha) || KeyLe(y, x, alpha)
  {
    if alpha {
      LexLeTotal(x.0, y.0);
    }
  }

  lemma {:induction false} KeyLeTransitive(x: Entry, y: Entry, z: Entry, alpha: bool)
    requires KeyLe(x, y, alpha) && KeyLe(y, z, alpha)
    ensures KeyLe(x, z, alpha)
  {
    if alpha {
      LexLeTransitive(x.0, y.0, z.0);
    }
  }

  /** Non-decreasing by the key. */
  predicate SortedBy(s: seq<Entry>, alpha: bool) {
    forall i, j :: 0 <= i < j < |s| ==> KeyLe(s[i], s[j], alpha)
  }

  /** Non-increasing by the key. */
  predicate SortedDownBy(s: seq<Entry>, alpha: bool) {
    forall i, j :: 0 <= i < j < |s| ==> KeyLe(s[j], s[i], alpha)
  }

  /** `sort_by_key`, in place: by word with `alpha`, by count otherwise. */
  method SortEntries(a: array<Entry>, alpha: bool)
    modifies a
    ensures SortedBy(a[..], alpha)
    ensures multiset(a[..]) == multiset(old(a[..]))
  {
    var i := 1;
    while i < a.Length
      invariant 1 <= i || a.Length == 0
      invariant i <= a.Length || a.Length == 0
      invariant forall k, l :: 0 <= k < l < i && l < a.Length ==> KeyLe(a[k], a[l], alpha)
      invariant multiset(a[..]) == multiset(old(a[..]))
    {
      InsertAt(a, i, alpha);
      i := i + 1;
    }
  }

  /** Sinks `a[i]` into the sorted prefix `a[..i]`. */
  method InsertAt(a: array<Entry>, i: nat, alpha: bool)
    requires i < a.Length
    requires forall k, l :: 0 <= k < l < i ==> KeyLe(a[k], a[l], alpha)
    modifies a
    ensures forall k, l :: 0 <= k < l <= i ==> KeyLe(a[k], a[l], alpha)
    ensures multiset(a[..]) == multiset(old(a[..]))
  {
    var j := i;
    while j > 0 && !KeyLe(a[j - 1], a[j], alpha)
      invariant 0 <= j <= i
      invariant forall k, l :: 0 <= k < l <= i && k != j && l != j ==> KeyLe(a[k], a[l], alpha)
      invariant forall l :: j < l <= i ==> KeyLe(a[j], a[l], alpha)
      invariant multiset(a[..]) == multiset(old(a[..]))
    {
      KeyLeTotal(a[j - 1], a[j], alpha);
      a[j - 1], a[j] := a[j], a[j - 1];
      j := j - 1;
    }
    forall k, l | 0 <= k < l <= i
      ensures KeyLe(a[k], a[l], alpha)
    {
      if l == j && k < j - 1 {
        KeyLeTransitive(a[k], a[j - 1], a[j], alpha);
      }
    }
  }

  /** `reverse`, in place. */
  method ReverseEntries(a: array<Entry>)
    modifies a
    ensures forall i :: 0 <= i < a.Length ==> a[i] == old(a[a.Length - 1 - i])
    ensures multiset(a[..]) == multiset(old(a[..]))
  {
    var lo, hi := 0, a.Length;
    while lo + 1 < hi
      invariant 0 <= lo <= hi <= a.Length && lo + hi == a.Length
      invariant forall i :: 0 <= i < lo || hi <= i < a.Length ==> a[i] == old(a[a.Length - 1 - i])
      invariant forall i :: lo <= i < hi ==> a[i] == old(a[i])
      invariant multiset(a[..]) == multiset(old(a[..]))
      decreases hi - lo
    {
      a[lo], a[hi - 1] := a[hi - 1], a[lo];
      lo, hi := lo + 1, hi - 1;
    }
  }

  /** The sum of the counts of a list of entries. */
  function SumCounts(es: seq<Entry>): nat {
    if es == [] then 0 else es[0].1 + SumCounts(es[1..])
  }

  /** Entries that hold every word of `ms` once with its multiplicity, and
      nothing else, sum to the size of `ms`. */
  lemma {:induction false} CountsSum(es: seq<Entry>, ms: multiset<string>)
    requires forall e :: e in es ==> e.1 == ms[e.0]
    requires forall w :: w in ms ==> (w, ms[w]) in es
    requires forall e :: multiset(es)[e] <= 1
    ensures SumCounts(es) == |ms|
  {
    if es == [] {
      assert forall w :: w !in ms;
    } else {
      var e := es[0];
      var rest := es[1..];
      var smaller := ms[e.0 := 0];
      assert es == [e] + rest;
      assert multiset(es) == multiset{e} + multiset(rest);
      assert e !in rest by {
        assert multiset(es)[e] == 1 + multiset(rest)[e];
      }
      forall f | f in rest ensures f.1 == smaller[f.0] {
        assert f in es && f != e;
      }
      forall w | w in smaller ensures (w, smaller[w]) in rest {
        assert w != e.0 && smaller[w] == ms[w];
        assert (w, ms[w]) in es;
      }
      forall f ensures multiset(rest)[f] <= 1 {
        assert multiset(rest)[f] <= multiset(es)[f];
      }
      CountsSum(rest, smaller);
    }
  }

  /** The `--distribution` listing: one entry per distinct token with its
      number of occurrences, ordered by word (`alpha`) or by count, and
      reversed on request; the counts add up to the token count the summary
      prints. */
  method Distribution(tokens: seq<string>, alpha: bool, reverse: bool) returns (es: seq<Entry>)
    ensures forall e :: e in es ==> e.0 in tokens && e.1 == multiset(tokens)[e.0]
    ensures forall w :: w in tokens ==> (w, multiset(tokens)[w]) in es
    ensures forall e :: multiset(es)[e] <= 1
    ensures !reverse ==> SortedBy(es, alpha)
    ensures reverse ==> SortedDownBy(es, alpha)
    ensures SumCounts(es) == |tokens|
  {
    var count := CountTokens(tokens);
    var listed := Entries(count);
    var a := new Entry[|listed|](i requires 0 <= i < |listed| => listed[i]);
    assert a[..] == listed;
    SortEntries(a, alpha);
    ghost var sorted := a[..];
    if reverse {
      ReverseEntries(a);
      assert SortedDownBy(a[..], alpha) by {
        forall i, j | 0 <= i < j < a.Length ensures KeyLe(a[j], a[i], alpha) {
          assert a[i] == sorted[a.Length - 1 - i] && a[j] == sorted[a.Length - 1 - j];
        }
      }
    }
    es := a[..];
    assert multiset(es) == multiset(listed);
    forall e | e in es ensures e.0 in tokens && e.1 == multiset(tokens)[e.0] {
      assert e in multiset(listed);
    }
    forall w | w in tokens ensures (w, multiset(tokens)[w]) in es {
      assert (w, count[w]) in multiset(listed);
    }
    CountsSum(es, multiset(tokens));
    assert |multiset(tokens)| == |tokens|;
  }
}
