/** The EAF documents the two Whisper converters build, and the numbering
    they share: segment by segment, one time-aligned main annotation, then
    one time-aligned annotation per word, then one referring annotation per
    referring tier. Annotation ids (`a1`, `a2`, ...) and time-slot ids
    (`ts1`, `ts2`, ...) are drawn from running counters that start at 1.

    Times are the Whisper seconds carried through unchanged; the
    conversion to whole milliseconds is not part of this model. */
module EafEmit {
  import opened Wrappers

  /** A time slot `ts{id}` and its time. */
  datatype Slot = Slot(id: nat, time: real)

  /** How an annotation is anchored: to two time slots, or to the
      annotation `a{parent}` it refers to. */
  datatype Link = Aligned(slot1: nat, slot2: nat) | RefersTo(parent: nat)

  /** An annotation `a{id}` with its value and the times it was built from. */
  datatype Annot = Annot(id: nat, link: Link, value: string, start: real, end: real)

  datatype Stereotype = IncludedIn | SymbolicAssociation

  datatype LingType = LingType(id: string, stereotype: Stereotype)

  /** `Tier::new(id, annotations, linguistic type, parent)`. */
  datatype OutTier = OutTier(tierId: string, annotations: seq<Annot>, lingType: Option<string>, parent: Option<string>)

  /** The parts of the document the converters fill in. */
  datatype Eaf = Eaf(slots: seq<Slot>, tiers: seq<OutTier>, lingTypes: seq<LingType>)

  /** A time-aligned unit, segment or word: its times and its value. */
  datatype Span = Span(start: real, end: real, text: string)

  /** What one segment contributes: its own span, its words' spans, and the
      value of each of its referring annotations, one per referring tier. */
  datatype Block = Block(main: Span, words: seq<Span>, refs: seq<string>)

  /** An emitted annotation and the tier it goes to: 0 the main tier, 1 the
      word tier, `2 + j` the `j`-th referring tier. */
  datatype Placed = Placed(tier: nat, annot: Annot)

  /** `to_alignable(annotation_index, timeslot_index)`. */
  function AlignedAnnot(s: Span, id: nat, slot: nat): Annot {
    Annot(id, Aligned(slot, slot + 1), s.text, s.start, s.end)
  }

  /** `to_timeslots(start_index)`. */
  function SpanSlots(s: Span, slot: nat): seq<Slot> {
    [Slot(slot, s.start), Slot(slot + 1, s.end)]
  }

  /** The word annotations `words_to_alignable` returns: word `k` gets id
      `a + k` and the slots `t + 2k`, `t + 2k + 1`. */
  function WordAnnots(ws: seq<Span>, a: nat, t: nat): seq<Annot> {
    seq(|ws|, k requires 0 <= k < |ws| => AlignedAnnot(ws[k], a + k, t + 2 * k))
  }

  /** The time slots `words_to_alignable` returns, two per word. */
  function WordSlots(ws: seq<Span>, t: nat): seq<Slot>
  {
    if |ws| == 0 then []
    else WordSlots(ws[..|ws| - 1], t) + SpanSlots(ws[|ws| - 1], t + 2 * (|ws| - 1))
  }

  /** Word time slots are numbered consecutively from `t`, and each word's
      annotation points at its own two slots. */
  lemma {:induction false} WordSlotsNumbered(ws: seq<Span>, t: nat)
    ensures |WordSlots(ws, t)| == 2 * |ws|
    ensures forall i :: 0 <= i < 2 * |ws| ==> WordSlots(ws, t)[i].id == t + i
    ensures forall k :: 0 <= k < |ws| ==>
              WordSlots(ws, t)[2 * k] == Slot(t + 2 * k, ws[k].start)
              && WordSlots(ws, t)[2 * k + 1] == Slot(t + 2 * k + 1, ws[k].end)
    decreases |ws|
  {
    if |ws| > 0 {
      WordSlotsNumbered(ws[..|ws| - 1], t);
    }
  }

  /** The referring annotations of one block: the `j`-th gets id `a + j`,
      refers to `parent` and carries the segment's times. */
  function RefAnnots(b: Block, a: nat, parent: nat): seq<Placed> {
    seq(|b.refs|, j requires 0 <= j < |b.refs| =>
      Placed(2 + j, Annot(a + j, RefersTo(parent), b.refs[j], b.main.start, b.main.end)))
  }

  function Tag(k: nat, xs: seq<Annot>): seq<Placed> {
    seq(|xs|, i requires 0 <= i < |xs| => Placed(k, xs[i]))
  }

  /** Everything one segment emits, main annotation at id `a` and slots
      from `t`. */
  function EmitBlock(b: Block, a: nat, t: nat): seq<Placed> {
    [Placed(0, AlignedAnnot(b.main, a, t))]
    + Tag(1, WordAnnots(b.words, a + 1, t + 2))
    + RefAnnots(b, a + 1 + |b.words|, a)
  }

  function BlockSlots(b: Block, t: nat): seq<Slot> {
    SpanSlots(b.main, t) + WordSlots(b.words, t + 2)
  }

  function AnnotCount(bs: seq<Block>): nat {
    if |bs| == 0 then 0
    else AnnotCount(bs[..|bs| - 1]) + 1 + |bs[|bs| - 1].words| + |bs[|bs| - 1].refs|
  }

  function SlotCount(bs: seq<Block>): nat {
    if |bs| == 0 then 0 else SlotCount(bs[..|bs| - 1]) + 2 + 2 * |bs[|bs| - 1].words|
  }

  function WordCount(bs: seq<Block>): nat {
    if |bs| == 0 then 0 else WordCount(bs[..|bs| - 1]) + |bs[|bs| - 1].words|
  }

  /** Every annotation of the document, in the order the loop emits them. */
  function EmitAll(bs: seq<Block>): seq<Placed> {
    if |bs| == 0 then []
    else
      var init := bs[..|bs| - 1];
      EmitAll(init) + EmitBlock(bs[|bs| - 1], 1 + AnnotCount(init), 1 + SlotCount(init))
  }

  /** Every time slot of the document, in order. */
  function AllSlots(bs: seq<Block>): seq<Slot> {
    if |bs| == 0 then []
    else
      var init := bs[..|bs| - 1];
      AllSlots(init) + BlockSlots(bs[|bs| - 1], 1 + SlotCount(init))
  }

  /** The annotations that go to tier `k`, in emission order. */
  function TierOf(ps: seq<Placed>, k: nat): seq<Annot> {
    if |ps| == 0 then []
    else TierOf(ps[..|ps| - 1], k) + (if ps[|ps| - 1].tier == k then [ps[|ps| - 1].annot] else [])
  }

  lemma {:induction false} TierOfAppend(xs: seq<Placed>, ys: seq<Placed>, k: nat)
    ensures TierOf(xs + ys, k) == TierOf(xs, k) + TierOf(ys, k)
    decreases |ys|
  {
    if |ys| > 0 {
      var zs := xs + ys;
      assert zs[..|zs| - 1] == xs + ys[..|ys| - 1];
      assert zs[|zs| - 1] == ys[|ys| - 1];
      TierOfAppend(xs, ys[..|ys| - 1], k);
    } else {
      assert xs + ys == xs;
    }
  }

  /** An annotation of tier `k` was emitted for tier `k`. */
  lemma {:induction false} TierOfMember(ps: seq<Placed>, k: nat, x: Annot)
    requires x in TierOf(ps, k)
    ensures exists i :: 0 <= i < |ps| && ps[i] == Placed(k, x)
    decreases |ps|
  {
    var last := ps[|ps| - 1];
    if x in TierOf(ps[..|ps| - 1], k) {
      TierOfMember(ps[..|ps| - 1], k, x);
      var i :| 0 <= i < |ps| - 1 && ps[..|ps| - 1][i] == Placed(k, x);
      assert ps[i] == Placed(k, x);
    } else {
      assert ps[|ps| - 1] == Placed(k, x);
    }
  }

  /** Within one block, ids run consecutively from `a`. */
  lemma {:induction false} BlockIds(b: Block, a: nat, t: nat)
    ensures |EmitBlock(b, a, t)| == 1 + |b.words| + |b.refs|
    ensures forall i :: 0 <= i < |EmitBlock(b, a, t)| ==> EmitBlock(b, a, t)[i].annot.id == a + i
  {
    var e := EmitBlock(b, a, t);
    var w := Tag(1, WordAnnots(b.words, a + 1, t + 2));
    var r := RefAnnots(b, a + 1 + |b.words|, a);
    forall i | 0 <= i < |e| ensures e[i].annot.id == a + i {
      if 1 <= i < 1 + |w| {
        assert e[i] == w[i - 1];
      } else if 1 + |w| <= i {
        assert e[i] == r[i - 1 - |w|];
      }
    }
  }

  /** Annotation ids are `a1`, `a2`, ... in emission order, one per
      emitted annotation, so no two annotations share an id. */
  lemma {:induction false} EmitAllIds(bs: seq<Block>)
    ensures |EmitAll(bs)| == AnnotCount(bs)
    ensures forall i :: 0 <= i < |EmitAll(bs)| ==> EmitAll(bs)[i].annot.id == 1 + i
    decreases |bs|
  {
    if |bs| > 0 {
      var init := bs[..|bs| - 1];
      EmitAllIds(init);
      BlockIds(bs[|bs| - 1], 1 + AnnotCount(init), 1 + SlotCount(init));
    }
  }

  /** Within one block, slots run consecutively from `t`. */
  lemma {:induction false} BlockSlotIds(b: Block, t: nat)
    ensures |BlockSlots(b, t)| == 2 + 2 * |b.words|
    ensures forall i :: 0 <= i < |BlockSlots(b, t)| ==> BlockSlots(b, t)[i].id == t + i
  {
    WordSlotsNumbered(b.words, t + 2);
  }

  /** Time-slot ids are `ts1`, `ts2`, ... in order, two per segment and two
      per word. */
  lemma {:induction false} AllSlotsIds(bs: seq<Block>)
    ensures |AllSlots(bs)| == SlotCount(bs)
    ensures forall i :: 0 <= i < |AllSlots(bs)| ==> AllSlots(bs)[i].id == 1 + i
    decreases |bs|
  {
    if |bs| > 0 {
      var init := bs[..|bs| - 1];
      AllSlotsIds(init);
      BlockSlotIds(bs[|bs| - 1], 1 + SlotCount(init));
    }
  }

  /** No id is shared between two tiers, and within a tier the ids
      increase. */
  lemma {:induction false} TierIdsDistinct(bs: seq<Block>, k1: nat, k2: nat, x: Annot, y: Annot)
    requires x in TierOf(EmitAll(bs), k1) && y in TierOf(EmitAll(bs), k2)
    requires k1 != k2 || x != y
    ensures x.id != y.id
  {
    var ps := EmitAll(bs);
    EmitAllIds(bs);
    TierOfMember(ps, k1, x);
    TierOfMember(ps, k2, y);
    var i :| 0 <= i < |ps| && ps[i] == Placed(k1, x);
    var j :| 0 <= j < |ps| && ps[j] == Placed(k2, y);
    assert i != j;
  }

  /** Each annotation of a block that lies on time slots finds its times
      in the block's slots. */
  lemma {:induction false} BlockSlotsResolve(b: Block, a: nat, t: nat, p: Placed)
    requires p in EmitBlock(b, a, t) && p.annot.link.Aligned?
    ensures Slot(p.annot.link.slot1, p.annot.start) in BlockSlots(b, t)
    ensures Slot(p.annot.link.slot2, p.annot.end) in BlockSlots(b, t)
  {
    var head := [Placed(0, AlignedAnnot(b.main, a, t))];
    var ws := Tag(1, WordAnnots(b.words, a + 1, t + 2));
    var r := RefAnnots(b, a + 1 + |b.words|, a);
    assert EmitBlock(b, a, t) == head + ws + r;
    assert p !in r by {
      assert forall q :: q in r ==> q.annot.link.RefersTo?;
    }
    if p in ws {
      var i :| 0 <= i < |ws| && ws[i] == p;
      WordSlotResolve(b, t, i);
      assert p.annot == AlignedAnnot(b.words[i], a + 1 + i, t + 2 + 2 * i);
    } else {
      assert p == head[0];
    }
  }

  /** Word `i` of a block finds its two slots among the block's slots. */
  lemma {:induction false} WordSlotResolve(b: Block, t: nat, i: nat)
    requires i < |b.words|
    ensures Slot(t + 2 + 2 * i, b.words[i].start) in BlockSlots(b, t)
    ensures Slot(t + 3 + 2 * i, b.words[i].end) in BlockSlots(b, t)
  {
    var slots := BlockSlots(b, t);
    var w := WordSlots(b.words, t + 2);
    WordSlotsNumbered(b.words, t + 2);
    assert slots == SpanSlots(b.main, t) + w;
    assert slots[2 + 2 * i] == w[2 * i] && slots[3 + 2 * i] == w[2 * i + 1];
  }

  /** Every time-aligned annotation names two existing time slots that
      hold its start and end. */
  lemma {:induction false} SlotsResolve(bs: seq<Block>, p: Placed)
    requires p in EmitAll(bs) && p.annot.link.Aligned?
    ensures Slot(p.annot.link.slot1, p.annot.start) in AllSlots(bs)
    ensures Slot(p.annot.link.slot2, p.annot.end) in AllSlots(bs)
    decreases |bs|
  {
    var init := bs[..|bs| - 1];
    var b := bs[|bs| - 1];
    var a, t := 1 + AnnotCount(init), 1 + SlotCount(init);
    assert EmitAll(bs) == EmitAll(init) + EmitBlock(b, a, t);
    assert AllSlots(bs) == AllSlots(init) + BlockSlots(b, t);
    if p in EmitAll(init) {
      SlotsResolve(init, p);
    } else {
      BlockSlotsResolve(b, a, t, p);
    }
  }

  /** The annotation a block's referring annotation points to is the
      block's main annotation. */
  lemma {:induction false} BlockRefsResolve(b: Block, a: nat, t: nat, p: Placed)
    requires p in EmitBlock(b, a, t) && p.tier >= 2
    ensures p.annot.link == RefersTo(a)
    ensures Placed(0, Annot(a, Aligned(t, t + 1), b.main.text, p.annot.start, p.annot.end)) in EmitBlock(b, a, t)
  {
    var ws := Tag(1, WordAnnots(b.words, a + 1, t + 2));
    var r := RefAnnots(b, a + 1 + |b.words|, a);
    assert p !in ws;
    assert p in r;
    assert EmitBlock(b, a, t)[0] == Placed(0, AlignedAnnot(b.main, a, t));
  }

  /** Every referring annotation refers to a main-tier annotation with the
      same times. */
  lemma {:induction false} RefsResolve(bs: seq<Block>, p: Placed)
    requires p in EmitAll(bs) && p.tier >= 2
    ensures p.annot.link.RefersTo?
    ensures exists m :: m in TierOf(EmitAll(bs), 0) && m.id == p.annot.link.parent
                        && m.start == p.annot.start && m.end == p.annot.end
    decreases |bs|
  {
    var init := bs[..|bs| - 1];
    var b := bs[|bs| - 1];
    var a, t := 1 + AnnotCount(init), 1 + SlotCount(init);
    var blk := EmitBlock(b, a, t);
    assert EmitAll(bs) == EmitAll(init) + blk;
    TierOfAppend(EmitAll(init), blk, 0);
    if p in EmitAll(init) {
      RefsResolve(init, p);
    } else {
      BlockRefsResolve(b, a, t, p);
      var m := Annot(a, Aligned(t, t + 1), b.main.text, p.annot.start, p.annot.end);
      var i :| 0 <= i < |blk| && blk[i] == Placed(0, m);
      TierOfMemberBack(blk, i);
    }
  }

  /** An annotation emitted for tier `k` is in tier `k`. */
  lemma {:induction false} TierOfMemberBack(ps: seq<Placed>, i: nat)
    requires i < |ps|
    ensures ps[i].annot in TierOf(ps, ps[i].tier)
    decreases |ps|
  {
    if i < |ps| - 1 {
      TierOfMemberBack(ps[..|ps| - 1], i);
    }
  }

  /** A block's pieces, and the part of each that goes to tier `k`. */
  lemma {:induction false} BlockParts(b: Block, a: nat, t: nat, k: nat)
    ensures TierOf(EmitBlock(b, a, t), k)
            == TierOf([Placed(0, AlignedAnnot(b.main, a, t))], k)
               + TierOf(Tag(1, WordAnnots(b.words, a + 1, t + 2)), k)
               + TierOf(RefAnnots(b, a + 1 + |b.words|, a), k)
    ensures TierOf([Placed(0, AlignedAnnot(b.main, a, t))], k) == if k == 0 then [AlignedAnnot(b.main, a, t)] else []
  {
    var head := [Placed(0, AlignedAnnot(b.main, a, t))];
    var ws := Tag(1, WordAnnots(b.words, a + 1, t + 2));
    var r := RefAnnots(b, a + 1 + |b.words|, a);
    assert EmitBlock(b, a, t) == head + ws + r;
    TierOfAppend(head + ws, r, k);
    TierOfAppend(head, ws, k);
    assert head[..0] == [];
  }

  /** The main tier receives the block's main annotation. */
  lemma {:induction false} BlockMainTier(b: Block, a: nat, t: nat)
    ensures TierOf(EmitBlock(b, a, t), 0) == [AlignedAnnot(b.main, a, t)]
  {
    BlockParts(b, a, t, 0);
    TagTier(WordAnnots(b.words, a + 1, t + 2), 1, 0);
    RefsTier(b, a + 1 + |b.words|, a, 0);
  }

  /** The word tier receives the block's word annotations. */
  lemma {:induction false} BlockWordTier(b: Block, a: nat, t: nat)
    ensures TierOf(EmitBlock(b, a, t), 1) == WordAnnots(b.words, a + 1, t + 2)
  {
    BlockParts(b, a, t, 1);
    TagTier(WordAnnots(b.words, a + 1, t + 2), 1, 1);
    RefsTier(b, a + 1 + |b.words|, a, 1);
  }

  /** Referring tier `k` receives the block's `(k - 2)`-th referring
      annotation. */
  lemma {:induction false} BlockRefTier(b: Block, a: nat, t: nat, k: nat)
    requires 2 <= k < 2 + |b.refs|
    ensures TierOf(EmitBlock(b, a, t), k)
            == [Annot(a + 1 + |b.words| + k - 2, RefersTo(a), b.refs[k - 2], b.main.start, b.main.end)]
  {
    BlockParts(b, a, t, k);
    TagTier(WordAnnots(b.words, a + 1, t + 2), 1, k);
    RefsTier(b, a + 1 + |b.words|, a, k);
  }

  /** A tagged list goes entirely to its own tier. */
  lemma {:induction false} TagTier(xs: seq<Annot>, k: nat, m: nat)
    ensures TierOf(Tag(k, xs), m) == if k == m then xs else []
    decreases |xs|
  {
    if |xs| > 0 {
      var init := xs[..|xs| - 1];
      assert Tag(k, xs)[..|xs| - 1] == Tag(k, init);
      TagTier(init, k, m);
      assert init + [xs[|xs| - 1]] == xs;
    } else {
      assert xs == [];
    }
  }

  /** The `j`-th referring annotation goes to tier `2 + j`, alone. */
  lemma {:induction false} RefsTier(b: Block, a: nat, parent: nat, m: nat)
    ensures m < 2 ==> TierOf(RefAnnots(b, a, parent), m) == []
    ensures 2 <= m < 2 + |b.refs| ==>
              TierOf(RefAnnots(b, a, parent), m)
              == [Annot(a + m - 2, RefersTo(parent), b.refs[m - 2], b.main.start, b.main.end)]
  {
    var r := RefAnnots(b, a, parent);
    RefsTierPrefix(b, a, parent, m, |b.refs|);
    assert r[..|b.refs|] == r;
  }

  lemma {:induction false} RefsTierPrefix(b: Block, a: nat, parent: nat, m: nat, n: nat)
    requires n <= |b.refs|
    ensures m < 2 || 2 + n <= m ==> TierOf(RefAnnots(b, a, parent)[..n], m) == []
    ensures 2 <= m < 2 + n ==>
              TierOf(RefAnnots(b, a, parent)[..n], m)
              == [Annot(a + m - 2, RefersTo(parent), b.refs[m - 2], b.main.start, b.main.end)]
    decreases n
  {
    var r := RefAnnots(b, a, parent);
    if n == 0 {
      assert r[..0] == [];
    } else {
      RefsTierPrefix(b, a, parent, m, n - 1);
      assert r[..n][..n - 1] == r[..n - 1];
      assert r[..n][n - 1] == r[n - 1] == Placed(2 + n - 1, Annot(a + n - 1, RefersTo(parent), b.refs[n - 1], b.main.start, b.main.end));
    }
  }

  /** The main tier as the converters' loops build it: one annotation per
      block, at the next free id and slot. */
  function MainTier(bs: seq<Block>): seq<Annot> {
    if |bs| == 0 then []
    else
      var init := bs[..|bs| - 1];
      MainTier(init) + [AlignedAnnot(bs[|bs| - 1].main, 1 + AnnotCount(init), 1 + SlotCount(init))]
  }

  /** The word tier as the loops build it. */
  function WordTier(bs: seq<Block>): seq<Annot> {
    if |bs| == 0 then []
    else
      var init := bs[..|bs| - 1];
      var a, t := 1 + AnnotCount(init), 1 + SlotCount(init);
      WordTier(init) + WordAnnots(bs[|bs| - 1].words, a + 1, t + 2)
  }

  /** The `j`-th referring tier as the loops build it: one annotation per
      block that has a `j`-th referring value, after the block's words,
      referring to the block's main annotation. */
  function RefTier(bs: seq<Block>, j: nat): seq<Annot> {
    if |bs| == 0 then []
    else
      var init := bs[..|bs| - 1];
      var b := bs[|bs| - 1];
      RefTier(init, j)
      + if j < |b.refs| then [Annot(2 + AnnotCount(init) + |b.words| + j, RefersTo(1 + AnnotCount(init)), b.refs[j], b.main.start, b.main.end)]
        else []
  }

  /** The loop-built main tier is tier 0 of the emitted annotations. */
  lemma {:induction false} MainTierEmitted(bs: seq<Block>)
    ensures MainTier(bs) == TierOf(EmitAll(bs), 0)
    decreases |bs|
  {
    if |bs| > 0 {
      var init := bs[..|bs| - 1];
      var a, t := 1 + AnnotCount(init), 1 + SlotCount(init);
      var b := bs[|bs| - 1];
      assert MainTier(bs) == MainTier(init) + [AlignedAnnot(b.main, a, t)];
      assert EmitAll(bs) == EmitAll(init) + EmitBlock(b, a, t);
      MainTierEmitted(init);
      BlockMainTier(b, a, t);
      TierOfAppend(EmitAll(init), EmitBlock(b, a, t), 0);
    }
  }

  /** The loop-built word tier is tier 1 of the emitted annotations. */
  lemma {:induction false} WordTierEmitted(bs: seq<Block>)
    ensures WordTier(bs) == TierOf(EmitAll(bs), 1)
    decreases |bs|
  {
    if |bs| > 0 {
      var init := bs[..|bs| - 1];
      var a, t := 1 + AnnotCount(init), 1 + SlotCount(init);
      var b := bs[|bs| - 1];
      assert WordTier(bs) == WordTier(init) + WordAnnots(b.words, a + 1, t + 2);
      assert EmitAll(bs) == EmitAll(init) + EmitBlock(b, a, t);
      WordTierEmitted(init);
      BlockWordTier(b, a, t);
      TierOfAppend(EmitAll(init), EmitBlock(b, a, t), 1);
    }
  }

  /** The loop-built `j`-th referring tier is tier `2 + j` of the emitted
      annotations, when every block has a `j`-th referring value. */
  lemma {:induction false} RefTierEmitted(bs: seq<Block>, j: nat)
    requires forall i :: 0 <= i < |bs| ==> j < |bs[i].refs|
    ensures RefTier(bs, j) == TierOf(EmitAll(bs), 2 + j)
    decreases |bs|
  {
    if |bs| > 0 {
      var init := bs[..|bs| - 1];
      var a, t := 1 + AnnotCount(init), 1 + SlotCount(init);
      var b := bs[|bs| - 1];
      assert RefTier(bs, j) == RefTier(init, j) + [Annot(1 + a + |b.words| + j, RefersTo(a), b.refs[j], b.main.start, b.main.end)];
      assert EmitAll(bs) == EmitAll(init) + EmitBlock(b, a, t);
      RefTierEmitted(init, j);
      BlockRefTier(b, a, t, 2 + j);
      TierOfAppend(EmitAll(init), EmitBlock(b, a, t), 2 + j);
    }
  }

  /** The main tier gets one annotation per block. */
  lemma {:induction false} MainTierLength(bs: seq<Block>)
    ensures |MainTier(bs)| == |bs|
    decreases |bs|
  {
    if |bs| > 0 {
      MainTierLength(bs[..|bs| - 1]);
    }
  }

  /** The word tier gets one annotation per word. */
  lemma {:induction false} WordTierLength(bs: seq<Block>)
    ensures |WordTier(bs)| == WordCount(bs)
    decreases |bs|
  {
    if |bs| > 0 {
      WordTierLength(bs[..|bs| - 1]);
    }
  }

  /** A referring tier gets one annotation per block, when every block has
      a value for it. */
  lemma {:induction false} RefTierLength(bs: seq<Block>, j: nat)
    requires forall i :: 0 <= i < |bs| ==> j < |bs[i].refs|
    ensures |RefTier(bs, j)| == |bs|
    decreases |bs|
  {
    if |bs| > 0 {
      RefTierLength(bs[..|bs| - 1], j);
    }
  }

  /** The annotation count: per block one main annotation and one per
      referring tier, plus one per word. */
  lemma {:induction false} AnnotCountFormula(bs: seq<Block>, refs: nat)
    requires forall i :: 0 <= i < |bs| ==> |bs[i].refs| == refs
    ensures AnnotCount(bs) == |bs| * (1 + refs) + WordCount(bs)
    decreases |bs|
  {
    if |bs| > 0 {
      AnnotCountFormula(bs[..|bs| - 1], refs);
    }
  }

  /** The counters the loops read off their vectors: the next annotation
      id is one more than the sum of the tier lengths, the next slot id
      one more than the number of slots. */
  lemma {:induction false} TierCounts(bs: seq<Block>, refs: nat)
    requires forall i :: 0 <= i < |bs| ==> |bs[i].refs| == refs
    ensures AnnotCount(bs) == |MainTier(bs)| + |WordTier(bs)| + refs * |bs|
    ensures forall j :: 0 <= j < refs ==> |RefTier(bs, j)| == |bs|
    ensures SlotCount(bs) == |AllSlots(bs)|
  {
    MainTierLength(bs);
    WordTierLength(bs);
    AnnotCountFormula(bs, refs);
    AllSlotsIds(bs);
    forall j | 0 <= j < refs ensures |RefTier(bs, j)| == |bs| {
      RefTierLength(bs, j);
    }
  }

  /** Block `i` appends one annotation to the main tier, at id `a` with
      slots from `t`. */
  lemma {:induction false} MainTierSnoc(bs: seq<Block>, i: nat, main: seq<Annot>, a: nat, t: nat)
    requires i < |bs| && main == MainTier(bs[..i])
    requires a == 1 + AnnotCount(bs[..i]) && t == 1 + SlotCount(bs[..i])
    ensures MainTier(bs[..i + 1]) == main + [AlignedAnnot(bs[i].main, a, t)]
  {
    assert bs[..i + 1][..i] == bs[..i];
  }

  /** Block `i` appends its words to the word tier, after its main
      annotation `a` and its two slots from `t`. */
  lemma {:induction false} WordTierSnoc(bs: seq<Block>, i: nat, words: seq<Annot>, a: nat, t: nat)
    requires i < |bs| && words == WordTier(bs[..i])
    requires a == 1 + AnnotCount(bs[..i]) && t == 1 + SlotCount(bs[..i])
    ensures WordTier(bs[..i + 1]) == words + WordAnnots(bs[i].words, a + 1, t + 2)
  {
    assert bs[..i + 1][..i] == bs[..i];
  }

  /** Block `i` appends its `j`-th value to the `j`-th referring tier,
      referring to its main annotation `a`. */
  lemma {:induction false} RefTierSnoc(bs: seq<Block>, i: nat, j: nat, r: seq<Annot>, a: nat)
    requires i < |bs| && j < |bs[i].refs| && r == RefTier(bs[..i], j)
    requires a == 1 + AnnotCount(bs[..i])
    ensures RefTier(bs[..i + 1], j)
            == r + [Annot(a + |bs[i].words| + 1 + j, RefersTo(a), bs[i].refs[j], bs[i].main.start, bs[i].main.end)]
  {
    assert bs[..i + 1][..i] == bs[..i];
  }

  /** Block `i` appends its slots, from `t`. */
  lemma {:induction false} SlotSnoc(bs: seq<Block>, i: nat, slots: seq<Slot>, t: nat)
    requires i < |bs| && slots == AllSlots(bs[..i]) && t == 1 + SlotCount(bs[..i])
    ensures AllSlots(bs[..i + 1]) == slots + BlockSlots(bs[i], t)
  {
    assert bs[..i + 1][..i] == bs[..i];
  }

  /** The total length of the referring tiers' vectors. */
  function Total(vs: seq<seq<Annot>>): nat {
    if |vs| == 0 then 0 else Total(vs[..|vs| - 1]) + |vs[|vs| - 1]|
  }

  lemma {:induction false} TotalUniform(vs: seq<seq<Annot>>, n: nat)
    requires forall j :: 0 <= j < |vs| ==> |vs[j]| == n
    ensures Total(vs) == |vs| * n
    decreases |vs|
  {
    if |vs| > 0 {
      TotalUniform(vs[..|vs| - 1], n);
    }
  }

  /** A converter loop's vectors after `n` blocks: the main tier, the
      word tier, one vector per referring tier, and the time slots. */
  predicate Built(bs: seq<Block>, n: nat, main: seq<Annot>, words: seq<Annot>, refs: seq<seq<Annot>>, slots: seq<Slot>) {
    n <= |bs| && main == MainTier(bs[..n]) && words == WordTier(bs[..n]) && slots == AllSlots(bs[..n])
    && forall j :: 0 <= j < |refs| ==> refs[j] == RefTier(bs[..n], j)
  }

  /** What a loop pass appends for block `b`: the main annotation at the
      id after all the vectors' annotations and its slots after the slots
      so far, then its words, then one referring annotation per tier. */
  predicate Stepped(b: Block, main: seq<Annot>, words: seq<Annot>, refs: seq<seq<Annot>>, slots: seq<Slot>,
                    main': seq<Annot>, words': seq<Annot>, refs': seq<seq<Annot>>, slots': seq<Slot>) {
    var a, t := 1 + |main| + |words| + Total(refs), 1 + |slots|;
    AlignedPushed(b, main, words, slots, main', words', slots', a, t) && RefsPushed(b, refs, refs', a)
  }

  /** Block `b` numbered from annotation `a` and slot `t`: its main
      annotation, its words and its slots appended. */
  predicate AlignedPushed(b: Block, main: seq<Annot>, words: seq<Annot>, slots: seq<Slot>,
                          main': seq<Annot>, words': seq<Annot>, slots': seq<Slot>, a: nat, t: nat) {
    main' == main + [AlignedAnnot(b.main, a, t)]
    && words' == words + WordAnnots(b.words, a + 1, t + 2)
    && slots' == slots + BlockSlots(b, t)
  }

  /** Block `b`'s referring annotations, one per tier, after its words,
      each referring to its main annotation `a`. */
  predicate RefsPushed(b: Block, refs: seq<seq<Annot>>, refs': seq<seq<Annot>>, a: nat) {
    |refs'| == |refs| <= |b.refs|
    && forall j :: 0 <= j < |refs| ==>
         refs'[j] == refs[j] + [Annot(a + |b.words| + 1 + j, RefersTo(a), b.refs[j], b.main.start, b.main.end)]
  }

  /** The ids a loop computes from its vectors' lengths are the counts of
      what the blocks before emitted. */
  lemma {:induction false} BuiltCounts(bs: seq<Block>, i: nat, main: seq<Annot>, words: seq<Annot>, refs: seq<seq<Annot>>, slots: seq<Slot>)
    requires forall k :: 0 <= k < |bs| ==> |bs[k].refs| == |refs|
    requires Built(bs, i, main, words, refs, slots)
    ensures |main| + |words| + Total(refs) == AnnotCount(bs[..i]) && |slots| == SlotCount(bs[..i])
  {
    var init := bs[..i];
    assert forall k :: 0 <= k < |init| ==> |init[k].refs| == |refs|;
    TierCounts(init, |refs|);
    TotalUniform(refs, i);
  }

  /** One loop pass keeps the vectors equal to the tiers and slots of the
      blocks done so far. */
  lemma {:induction false} BuiltStep(bs: seq<Block>, i: nat, main: seq<Annot>, words: seq<Annot>, refs: seq<seq<Annot>>, slots: seq<Slot>,
                                     main': seq<Annot>, words': seq<Annot>, refs': seq<seq<Annot>>, slots': seq<Slot>)
    requires i < |bs| && forall k :: 0 <= k < |bs| ==> |bs[k].refs| == |refs|
    requires Built(bs, i, main, words, refs, slots)
    requires Stepped(bs[i], main, words, refs, slots, main', words', refs', slots')
    ensures Built(bs, i + 1, main', words', refs', slots')
  {
    BuiltCounts(bs, i, main, words, refs, slots);
    AlignedStep(bs, i, main, words, refs, slots, main', words', refs', slots');
    RefsStep(bs, i, main, words, refs, slots, main', words', refs', slots');
  }

  /** The main tier, the word tier and the slots after one pass. */
  lemma {:induction false} AlignedStep(bs: seq<Block>, i: nat, main: seq<Annot>, words: seq<Annot>, refs: seq<seq<Annot>>, slots: seq<Slot>,
                                       main': seq<Annot>, words': seq<Annot>, refs': seq<seq<Annot>>, slots': seq<Slot>)
    requires i < |bs| && Built(bs, i, main, words, refs, slots)
    requires |main| + |words| + Total(refs) == AnnotCount(bs[..i]) && |slots| == SlotCount(bs[..i])
    requires Stepped(bs[i], main, words, refs, slots, main', words', refs', slots')
    ensures MainTier(bs[..i + 1]) == main' && WordTier(bs[..i + 1]) == words' && AllSlots(bs[..i + 1]) == slots'
  {
    var a, t := 1 + |main| + |words| + Total(refs), 1 + |slots|;
    assert AlignedPushed(bs[i], main, words, slots, main', words', slots', a, t);
    assert main' == main + [AlignedAnnot(bs[i].main, a, t)];
    assert words' == words + WordAnnots(bs[i].words, a + 1, t + 2);
    assert slots' == slots + BlockSlots(bs[i], t);
    MainTierSnoc(bs, i, main, a, t);
    WordTierSnoc(bs, i, words, a, t);
    SlotSnoc(bs, i, slots, t);
  }

  /** The referring tiers after one pass. */
  lemma {:induction false} RefsStep(bs: seq<Block>, i: nat, main: seq<Annot>, words: seq<Annot>, refs: seq<seq<Annot>>, slots: seq<Slot>,
                                    main': seq<Annot>, words': seq<Annot>, refs': seq<seq<Annot>>, slots': seq<Slot>)
    requires i < |bs| && Built(bs, i, main, words, refs, slots)
    requires |main| + |words| + Total(refs) == AnnotCount(bs[..i])
    requires Stepped(bs[i], main, words, refs, slots, main', words', refs', slots')
    ensures |refs'| == |refs| && forall j :: 0 <= j < |refs'| ==> refs'[j] == RefTier(bs[..i + 1], j)
  {
    var a := 1 + |main| + |words| + Total(refs);
    forall j | 0 <= j < |refs'| ensures refs'[j] == RefTier(bs[..i + 1], j) {
      RefTierSnoc(bs, i, j, refs[j], a);
    }
  }

  /** One more word: one more annotation and two more slots at the end. */
  lemma {:induction false} WordsSnoc(ws: seq<Span>, w: Span, a: nat, t: nat)
    ensures WordAnnots(ws + [w], a, t) == WordAnnots(ws, a, t) + [AlignedAnnot(w, a + |ws|, t + 2 * |ws|)]
    ensures WordSlots(ws + [w], t) == WordSlots(ws, t) + SpanSlots(w, t + 2 * |ws|)
  {
    assert (ws + [w])[..|ws|] == ws;
  }

  /** One pass of `words_to_alignable`: word `i` is numbered from the
      lengths of what the words before it produced. */
  lemma {:induction false} WordsStep(ws: seq<Span>, i: nat, a: nat, t: nat, annots: seq<Annot>, slots: seq<Slot>)
    requires i < |ws| && annots == WordAnnots(ws[..i], a, t) && slots == WordSlots(ws[..i], t)
    ensures annots + [AlignedAnnot(ws[i], a + |annots|, t + |slots|)] == WordAnnots(ws[..i + 1], a, t)
    ensures slots + SpanSlots(ws[i], t + |slots|) == WordSlots(ws[..i + 1], t)
  {
    assert ws[..i + 1] == ws[..i] + [ws[i]];
    WordsSnoc(ws[..i], ws[i], a, t);
    WordSlotsNumbered(ws[..i], t);
  }

  /** No two annotations of a document share an id. */
  predicate DistinctIds(tiers: seq<OutTier>) {
    forall p, q, x, y ::
      0 <= p < |tiers| && 0 <= q < |tiers| && x in tiers[p].annotations && y in tiers[q].annotations && (p != q || x != y)
      ==> x.id != y.id
  }

  /** Every time-aligned annotation's two slots exist, with its times. */
  predicate SlotsPresent(e: Eaf) {
    forall p, x :: 0 <= p < |e.tiers| && x in e.tiers[p].annotations && x.link.Aligned? ==>
      Slot(x.link.slot1, x.start) in e.slots && Slot(x.link.slot2, x.end) in e.slots
  }

  /** Every annotation on a referring tier (all tiers after the first two)
      refers to an annotation on the main tier spanning the same times. */
  predicate ParentsPresent(e: Eaf) {
    forall p, x :: 2 <= p < |e.tiers| && x in e.tiers[p].annotations ==>
      x.link.RefersTo?
      && exists m :: m in e.tiers[0].annotations && m.id == x.link.parent && m.start == x.start && m.end == x.end
  }

  /** A document whose tiers are the loop-built main, word and referring
      tiers of `bs`, and whose slots are those of `bs`, is consistent: ids
      are unique across tiers, slots are numbered `1, 2, ...` in order and
      every annotation's anchors exist. */
  lemma {:induction false} EmittedDocument(bs: seq<Block>, refs: nat, e: Eaf)
    requires forall i :: 0 <= i < |bs| ==> |bs[i].refs| == refs
    requires e.slots == AllSlots(bs) && |e.tiers| == 2 + refs
    requires e.tiers[0].annotations == MainTier(bs) && e.tiers[1].annotations == WordTier(bs)
    requires forall k :: 2 <= k < 2 + refs ==> e.tiers[k].annotations == RefTier(bs, k - 2)
    ensures DistinctIds(e.tiers) && SlotsPresent(e) && ParentsPresent(e)
    ensures forall i :: 0 <= i < |e.slots| ==> e.slots[i].id == 1 + i
  {
    AllSlotsIds(bs);
    EmittedTiers(bs, refs, e.tiers);
    EmittedIdsDistinct(bs, e.tiers);
    EmittedSlotsPresent(bs, e);
    EmittedParentsPresent(bs, e);
  }

  /** The loop-built tiers are the emitted annotations split by tier. */
  lemma {:induction false} EmittedTiers(bs: seq<Block>, refs: nat, tiers: seq<OutTier>)
    requires forall i :: 0 <= i < |bs| ==> |bs[i].refs| == refs
    requires |tiers| == 2 + refs
    requires tiers[0].annotations == MainTier(bs) && tiers[1].annotations == WordTier(bs)
    requires forall k :: 2 <= k < 2 + refs ==> tiers[k].annotations == RefTier(bs, k - 2)
    ensures forall p :: 0 <= p < |tiers| ==> tiers[p].annotations == TierOf(EmitAll(bs), p)
  {
    MainTierEmitted(bs);
    WordTierEmitted(bs);
    forall k | 2 <= k < 2 + refs ensures tiers[k].annotations == TierOf(EmitAll(bs), k) {
      RefTierEmitted(bs, k - 2);
    }
  }

  lemma {:induction false} EmittedIdsDistinct(bs: seq<Block>, tiers: seq<OutTier>)
    requires forall p :: 0 <= p < |tiers| ==> tiers[p].annotations == TierOf(EmitAll(bs), p)
    ensures DistinctIds(tiers)
  {
    forall p, q, x, y | 0 <= p < |tiers| && 0 <= q < |tiers| && x in tiers[p].annotations && y in tiers[q].annotations
                        && (p != q || x != y)
      ensures x.id != y.id
    {
      TierIdsDistinct(bs, p, q, x, y);
    }
  }

  lemma {:induction false} EmittedSlotsPresent(bs: seq<Block>, e: Eaf)
    requires e.slots == AllSlots(bs)
    requires forall p :: 0 <= p < |e.tiers| ==> e.tiers[p].annotations == TierOf(EmitAll(bs), p)
    ensures SlotsPresent(e)
  {
    forall p, x | 0 <= p < |e.tiers| && x in e.tiers[p].annotations && x.link.Aligned?
      ensures Slot(x.link.slot1, x.start) in e.slots && Slot(x.link.slot2, x.end) in e.slots
    {
      PlacedMember(bs, p, x);
      SlotsResolve(bs, Placed(p, x));
    }
  }

  lemma {:induction false} EmittedParentsPresent(bs: seq<Block>, e: Eaf)
    requires |e.tiers| > 0
    requires forall p :: 0 <= p < |e.tiers| ==> e.tiers[p].annotations == TierOf(EmitAll(bs), p)
    ensures ParentsPresent(e)
  {
    forall p, x | 2 <= p < |e.tiers| && x in e.tiers[p].annotations
      ensures x.link.RefersTo?
      ensures exists m :: m in e.tiers[0].annotations && m.id == x.link.parent && m.start == x.start && m.end == x.end
    {
      PlacedMember(bs, p, x);
      RefsResolve(bs, Placed(p, x));
    }
  }

  /** An annotation of tier `k` was emitted placed on tier `k`. */
  lemma {:induction false} PlacedMember(bs: seq<Block>, k: nat, x: Annot)
    requires x in TierOf(EmitAll(bs), k)
    ensures Placed(k, x) in EmitAll(bs)
  {
    TierOfMember(EmitAll(bs), k, x);
  }
}
