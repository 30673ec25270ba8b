/** `src/tree.rs`: the tier tree. Every tier id is a key; each referring
    tier is listed under its parent in document order; keys that are
    childless children are pruned; the tree is printed as indented lines. */
module TierTrees {
  import opened Wrappers
  import opened Strings
  import opened Document

  /** Rust's `Tier::is_ref`: the tier has a parent tier. */
  predicate IsRef(t: Tier) {
    t.parentRef.Some?
  }

  /** The tier ids of a document, as a set. */
  function TierIds(tiers: seq<Tier>): set<string> {
    set i | 0 <= i < |tiers| :: tiers[i].tierId
  }

  /** The ids of the tiers that refer to `parent`, in document order. */
  function ChildIds(tiers: seq<Tier>, parent: string): seq<string> {
    if tiers == [] then []
    else
      var n := |tiers| - 1;
      ChildIds(tiers[..n], parent) + (if tiers[n].parentRef == Some(parent) then [tiers[n].tierId] else [])
  }

  /** `get`: a key's child list, or nothing for an unknown key. */
  function Lookup(m: map<string, seq<string>>, id: string): seq<string> {
    if id in m then m[id] else []
  }

  /** The map `new` collects first: every tier id with no children. */
  function Initial(tiers: seq<Tier>): map<string, seq<string>> {
    if tiers == [] then map[]
    else
      var n := |tiers| - 1;
      Initial(tiers[..n])[tiers[n].tierId := []]
  }

  /** One step of `new`'s second loop: a referring tier is appended to its
      parent's list, which is created when missing. */
  function AddChild(m: map<string, seq<string>>, t: Tier): map<string, seq<string>> {
    if IsRef(t) then m[t.parentRef.value := Lookup(m, t.parentRef.value) + [t.tierId]] else m
  }

  function AddChildren(m: map<string, seq<string>>, tiers: seq<Tier>): (r: map<string, seq<string>>)
    ensures m.Keys <= r.Keys
  {
    if tiers == [] then m
    else
      var n := |tiers| - 1;
      AddChild(AddChildren(m, tiers[..n]), tiers[n])
  }

  /** The map before pruning. */
  function Grouped(tiers: seq<Tier>): (r: map<string, seq<string>>)
    ensures TierIds(tiers) <= r.Keys
  {
    InitialHoldsTierIds(tiers);
    AddChildren(Initial(tiers), tiers)
  }

  /** The first map holds exactly the tier ids, each with an empty list. */
  lemma {:induction false} InitialHoldsTierIds(tiers: seq<Tier>)
    ensures Initial(tiers).Keys == TierIds(tiers)
    ensures forall k :: k in Initial(tiers) ==> Initial(tiers)[k] == []
  {
    if tiers != [] {
      var n := |tiers| - 1;
      InitialHoldsTierIds(tiers[..n]);
      assert TierIds(tiers) == TierIds(tiers[..n]) + {tiers[n].tierId} by {
        forall k | k in TierIds(tiers) ensures k in TierIds(tiers[..n]) + {tiers[n].tierId} {
          var i :| 0 <= i < |tiers| && tiers[i].tierId == k;
          if i < n {
            assert tiers[..n][i] == tiers[i];
          }
        }
        forall k | k in TierIds(tiers[..n]) ensures k in TierIds(tiers) {
          var i :| 0 <= i < n && tiers[..n][i].tierId == k;
          assert tiers[i] == tiers[..n][i];
        }
      }
    }
  }

  /** Grouping appends every referring tier, in order, to its parent's
      list, and adds each parent as a key. */
  lemma {:induction false} AddChildrenLists(m: map<string, seq<string>>, tiers: seq<Tier>, k: string)
    ensures Lookup(AddChildren(m, tiers), k) == Lookup(m, k) + ChildIds(tiers, k)
    ensures k in AddChildren(m, tiers) <==> k in m || ChildIds(tiers, k) != []
  {
    if tiers != [] {
      var n := |tiers| - 1;
      AddChildrenLists(m, tiers[..n], k);
      var before := AddChildren(m, tiers[..n]);
      if tiers[n].parentRef == Some(k) {
        assert Lookup(AddChildren(m, tiers), k) == Lookup(before, k) + [tiers[n].tierId];
      } else {
        assert Lookup(AddChildren(m, tiers), k) == Lookup(before, k);
      }
    }
  }

  /** Before pruning, every tier id and every parent is a key, and a key's
      list is the ids of the tiers referring to it, in document order. */
  lemma {:induction false} GroupedChildren(tiers: seq<Tier>, k: string)
    ensures Lookup(Grouped(tiers), k) == ChildIds(tiers, k)
    ensures k in Grouped(tiers) <==> k in TierIds(tiers) || ChildIds(tiers, k) != []
  {
    InitialHoldsTierIds(tiers);
    AddChildrenLists(Initial(tiers), tiers, k);
  }

  /** `c` appears in some key's child list. */
  ghost predicate IsChild(m: map<string, seq<string>>, c: string) {
    exists k :: k in m && c in m[k]
  }

  /** What `prune` keeps: every key except those that are someone's child
      and have no children themselves; lists are untouched. */
  ghost function Pruned(m: map<string, seq<string>>): (r: map<string, seq<string>>)
    ensures r.Keys <= m.Keys && forall k :: k in r ==> r[k] == m[k]
    ensures forall k :: k in m && m[k] != [] ==> k in r
    ensures forall k :: k in m && !IsChild(m, k) ==> k in r
  {
    map k | k in m && !(IsChild(m, k) && m[k] == []) :: m[k]
  }

  /** Pruning removes no child, so pruning again changes nothing. */
  lemma {:induction false} PruneIdempotent(m: map<string, seq<string>>)
    ensures Pruned(Pruned(m)) == Pruned(m)
  {
    var p := Pruned(m);
    forall c | IsChild(m, c) ensures IsChild(p, c) {
      var k :| k in m && c in m[k];
      assert m[k] != [];
      assert k in p && p[k] == m[k];
    }
    forall c | IsChild(p, c) ensures IsChild(m, c) {
      var k :| k in p && c in p[k];
      assert k in m && m[k] == p[k];
    }
    assert Pruned(p) == p;
  }

  /** No tier is lost: a pruned key is still listed under a kept key. */
  lemma {:induction false} PruneKeepsEveryTier(m: map<string, seq<string>>, k: string)
    requires k in m
    ensures k in Pruned(m) || exists j :: j in Pruned(m) && k in Pruned(m)[j]
  {
    if k !in Pruned(m) {
      var j :| j in m && k in m[j];
      assert m[j] != [];
      assert j in Pruned(m);
    }
  }

  /** After `new`, `get` of any id lists exactly the tiers referring to it,
      in document order: pruning only drops keys whose list is empty. */
  lemma {:induction false} BuiltLookup(tiers: seq<Tier>, k: string)
    ensures Lookup(Pruned(Grouped(tiers)), k) == ChildIds(tiers, k)
  {
    GroupedChildren(tiers, k);
  }

  /** The marker before a child id: `╰─ ` for the last child, `├─ ` for the
      others (a single child is the last one). */
  function Marker(i: nat, len: nat): (r: string)
    ensures i < len ==> (r == "\U{2570}\U{2500} " <==> i == len - 1)
    ensures i + 1 < len ==> r == "\U{251C}\U{2500} "
  {
    match len
    case 1 => "\U{2570}\U{2500} "
    case _ => if i == len - 1 then "\U{2570}\U{2500} " else "\U{251C}\U{2500} "
  }

  /** `" ".repeat(n)`. */
  function Spaces(n: nat): (r: string)
    ensures |r| == n && forall i :: 0 <= i < n ==> r[i] == ' '
  {
    seq(n, _ => ' ')
  }

  /** The line starts with at least `n` spaces. */
  predicate Indented(line: string, n: nat) {
    n <= |line| && forall i :: 0 <= i < n ==> line[i] == ' '
  }

  /** `print(Some(id), depth)`: the lines of `id`'s subtree. Each child, in
      sorted order, gets a line indented by `3 * depth` and followed by its
      own subtree at `depth + 1`. The source recurses without a bound (a
      cycle of parent references would not end); `fuel` bounds the depth. */
  function SubtreeLines(m: map<string, seq<string>>, id: string, depth: nat, fuel: nat): (r: seq<string>)
    ensures |r| >= |Lookup(m, id)|
    ensures Lookup(m, id) == [] ==> r == []
    decreases fuel, 1, 0
  {
    ChildLines(m, SortStrings(Lookup(m, id)), 0, depth, fuel)
  }

  /** The lines of children `i..` of `kids`: each child's own line comes
      first, and without fuel there is exactly one line per child. */
  function ChildLines(m: map<string, seq<string>>, kids: seq<string>, i: nat, depth: nat, fuel: nat): (r: seq<string>)
    ensures i <= |kids| ==> |r| >= |kids| - i
    ensures i < |kids| ==> r[0] == Spaces(3 * depth) + Marker(i, |kids|) + kids[i]
    ensures fuel == 0 && i <= |kids| ==>
              |r| == |kids| - i && forall k :: 0 <= k < |r| ==> r[k] == Spaces(3 * depth) + Marker(i + k, |kids|) + kids[i + k]
    decreases fuel, 0, |kids| - i
  {
    if i >= |kids| then []
    else
      var line := Spaces(3 * depth) + Marker(i, |kids|) + kids[i];
      var below := if fuel == 0 then [] else SubtreeLines(m, kids[i], depth + 1, fuel - 1);
      [line] + below + ChildLines(m, kids, i + 1, depth, fuel)
  }

  lemma {:induction false} IndentedWeaker(line: string, n: nat, k: nat)
    requires Indented(line, n) && k <= n
    ensures Indented(line, k)
  {
  }

  /** Every line of a subtree printed at `depth` is indented by at least
      `3 * depth` spaces. */
  lemma {:induction false} SubtreeIndented(m: map<string, seq<string>>, id: string, depth: nat, fuel: nat)
    ensures forall j :: 0 <= j < |SubtreeLines(m, id, depth, fuel)| ==> Indented(SubtreeLines(m, id, depth, fuel)[j], 3 * depth)
    decreases fuel, 1, 0
  {
    ChildLinesIndented(m, SortStrings(Lookup(m, id)), 0, depth, fuel);
  }

  lemma {:induction false} ChildLinesIndented(m: map<string, seq<string>>, kids: seq<string>, i: nat, depth: nat, fuel: nat)
    ensures forall j :: 0 <= j < |ChildLines(m, kids, i, depth, fuel)| ==> Indented(ChildLines(m, kids, i, depth, fuel)[j], 3 * depth)
    decreases fuel, 0, |kids| - i
  {
    if i < |kids| {
      var line := Spaces(3 * depth) + Marker(i, |kids|) + kids[i];
      var below := if fuel == 0 then [] else SubtreeLines(m, kids[i], depth + 1, fuel - 1);
      var rest := ChildLines(m, kids, i + 1, depth, fuel);
      assert Indented(line, 3 * depth);
      if fuel > 0 {
        SubtreeIndented(m, kids[i], depth + 1, fuel - 1);
      }
      forall j | 0 <= j < |below| ensures Indented(below[j], 3 * depth) {
        IndentedWeaker(below[j], 3 * (depth + 1), 3 * depth);
      }
      ChildLinesIndented(m, kids, i + 1, depth, fuel);
      AllIndented(line, below, rest, 3 * depth);
    }
  }

  lemma {:induction false} AllIndented(line: string, below: seq<string>, rest: seq<string>, n: nat)
    requires Indented(line, n)
    requires forall j :: 0 <= j < |below| ==> Indented(below[j], n)
    requires forall j :: 0 <= j < |rest| ==> Indented(rest[j], n)
    ensures forall j :: 0 <= j < |[line] + below + rest| ==> Indented(([line] + below + rest)[j], n)
  {
    var all := [line] + below + rest;
    forall j | 0 <= j < |all| ensures Indented(all[j], n) {
      if j == 0 {
      } else if j < 1 + |below| {
        assert all[j] == below[j - 1];
      } else {
        assert all[j] == rest[j - 1 - |below|];
      }
    }
  }

  /** `print(None, 0)`: every key in sorted order, each followed by its
      subtree at depth 0. `keys` is the map's keys in the map's own
      iteration order. */
  function TreeLines(m: map<string, seq<string>>, keys: seq<string>, fuel: nat): (r: seq<string>)
    requires forall k :: k in keys <==> k in m
    ensures |r| >= |keys|
    ensures forall k :: k in m ==> k in r
  {
    assert forall k :: k in keys ==> k in multiset(SortStrings(keys));
    KeyLines(m, SortStrings(keys), fuel)
  }

  /** Each key's own line followed by its subtree, key after key. */
  function KeyLines(m: map<string, seq<string>>, sorted: seq<string>, fuel: nat): (r: seq<string>)
    ensures |r| >= |sorted|
    ensures forall k :: k in sorted ==> k in r
  {
    if sorted == [] then []
    else [sorted[0]] + SubtreeLines(m, sorted[0], 0, fuel) + KeyLines(m, sorted[1..], fuel)
  }

  /** Two sorted orderings of the same strings are the same sequence. */
  lemma {:induction false} SortedUnique(a: seq<string>, b: seq<string>)
    requires Sorted(a) && Sorted(b) && multiset(a) == multiset(b)
    ensures a == b
    decreases |a|
  {
    assert |a| == |multiset(a)| == |multiset(b)| == |b|;
    if a != [] {
      assert a[0] == b[0] by {
        assert a[0] in multiset(b) && b[0] in multiset(a);
        SortedHeadLe(b, a[0]);
        SortedHeadLe(a, b[0]);
        LexLeAntisymmetric(a[0], b[0]);
      }
      assert multiset(a[1..]) == multiset(b[1..]) by {
        assert a == [a[0]] + a[1..] && b == [b[0]] + b[1..];
        assert multiset(a[1..]) == multiset(a) - multiset{a[0]};
        assert multiset(b[1..]) == multiset(b) - multiset{b[0]};
      }
      SortedTail(a);
      SortedTail(b);
      SortedUnique(a[1..], b[1..]);
      assert a == [a[0]] + a[1..] && b == [b[0]] + b[1..];
    }
  }

  lemma {:induction false} SortedHeadLe(a: seq<string>, x: string)
    requires Sorted(a) && x in a
    ensures LexLe(a[0], x)
  {
    var i :| 0 <= i < |a| && a[i] == x;
    if i == 0 {
      LexLeReflexive(x);
    }
  }

  lemma {:induction false} SortedTail(a: seq<string>)
    requires Sorted(a) && a != []
    ensures Sorted(a[1..])
  {
    forall i, j | 0 <= i < j < |a| - 1
      ensures LexLe(a[1..][i], a[1..][j])
    {
      assert a[1..][i] == a[i + 1] && a[1..][j] == a[j + 1];
    }
  }

  lemma {:induction false} LexLeReflexive(a: string)
    ensures LexLe(a, a)
    decreases |a|
  {
    if a != [] {
      LexLeReflexive(a[1..]);
    }
  }

  /** The printout does not depend on the order the map hands out its keys. */
  lemma {:induction false} TreeLinesIgnoreKeyOrder(m: map<string, seq<string>>, keys1: seq<string>, keys2: seq<string>, fuel: nat)
    requires forall k :: k in keys1 <==> k in m
    requires forall k :: k in keys2 <==> k in m
    requires multiset(keys1) == multiset(keys2)
    ensures TreeLines(m, keys1, fuel) == TreeLines(m, keys2, fuel)
  {
    SortedUnique(SortStrings(keys1), SortStrings(keys2));
  }

  /** `TierTree`: a map from tier id to the ids of the tiers referring to it. */
  class TierTree {
    var children: map<string, seq<string>>

    /** `TierTree::new`: collect every tier id, list each referring tier
        under its parent, then prune. */
    constructor (tiers: seq<Tier>)
      ensures children == Pruned(Grouped(tiers))
    {
      var m: map<string, seq<string>> := map[];
      for i := 0 to |tiers|
        invariant m == Initial(tiers[..i])
      {
        assert tiers[..i + 1][..i] == tiers[..i];
        m := m[tiers[i].tierId := []];
      }
      assert tiers[..|tiers|] == tiers;
      ghost var start := m;
      for i := 0 to |tiers|
        invariant m == AddChildren(start, tiers[..i])
      {
        assert tiers[..i + 1][..i] == tiers[..i];
        if IsRef(tiers[i]) {
          var parent := tiers[i].parentRef.value;
          var list := if parent in m then m[parent] else [];
          m := m[parent := list + [tiers[i].tierId]];
        }
      }
      assert tiers[..|tiers|] == tiers;
      children := m;
      new;
      Prune();
    }

    /** `remove`: drop a key, handing back its list if it was there. */
    method Remove(key: string) returns (r: Option<seq<string>>)
      modifies this
      ensures r == if key in old(children) then Some(old(children)[key]) else None
      ensures children == old(children) - {key}
    {
      r := if key in children then Some(children[key]) else None;
      children := children - {key};
    }

    /** `prune`: collect the keys and every listed child first, then drop
        each key that is a child and has an empty list. */
    method Prune()
      modifies this
      ensures children == Pruned(old(children))
    {
      ghost var m0 := children;
      var keys := children.Keys;
      var values: set<string> := {};
      var rest := keys;
      while rest != {}
        invariant rest <= keys
        invariant forall c :: c in values <==> exists k :: k in keys - rest && c in m0[k]
        decreases |rest|
      {
        var k :| k in rest;
        values := values + (set c | c in children[k]);
        rest := rest - {k};
      }
      assert forall c :: c in values <==> IsChild(m0, c);
      var todo := keys;
      while todo != {}
        invariant todo <= keys
        invariant children == map k | k in m0 && (k in todo || !(k in values && m0[k] == [])) :: m0[k]
        decreases |todo|
      {
        var key :| key in todo;
        if key in values && key in children && |children[key]| == 0 {
          var _ := Remove(key);
        }
        todo := todo - {key};
      }
    }

    /** `get`: the id's child list, or nothing for an unknown id. */
    function Get(id: string): (r: seq<string>)
      reads this
      ensures id !in children ==> r == []
      ensures id in children ==> r == children[id]
    {
      Lookup(children, id)
    }

    /** `len`: how many tiers are listed under the id. */
    function Len(id: string): (r: nat)
      reads this
      ensures r == |Get(id)|
    {
      |Get(id)|
    }
  }
}
