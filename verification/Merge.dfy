/**
 * Merging two versions of a note, with or without the version they last agreed on (`merge_three_way`,
 * `merge_two_way`, `anchors`, `push_region` and `push_pairwise` in crates/mb-core/src/conflict.rs).
 */
module Merge {
  import opened Strings
  import opened Model
  import opened Lcs
  import opened Conflict

  // ---------------------------------------------------------------- one region

  /** What the three versions hold between the same two neighbours. */
  datatype Region = Region(base: seq<Block>, mine: seq<Block>, theirs: seq<Block>)

  /** The blocks of `theirs` that stand against `mine[i]`; the last of mine takes all that are left. */
  function Counterpart(mine: seq<Block>, theirs: seq<Block>, i: nat): seq<Block>
    requires i < |mine|
  {
    var end := if i + 1 == |mine| || |theirs| < i + 1 then |theirs| else i + 1;
    if i < end then theirs[i..end] else []
  }

  /** `mine[i]`, followed by its counterpart's callout when it has one. */
  function Pair(mine: seq<Block>, theirs: seq<Block>, i: nat, stamp: string): seq<Block>
    requires i < |mine|
  {
    var counterpart := Counterpart(mine, theirs, i);
    if counterpart == [] then [mine[i]] else [mine[i], CalloutOf(counterpart, stamp)]
  }

  /** The first `n` pairs of a divergent region. */
  function Pairs(mine: seq<Block>, theirs: seq<Block>, n: nat, stamp: string): seq<Block>
    requires n <= |mine|
  {
    if n == 0 then [] else Pairs(mine, theirs, n - 1, stamp) + Pair(mine, theirs, n - 1, stamp)
  }

  function Pairwise(mine: seq<Block>, theirs: seq<Block>, stamp: string): seq<Block> {
    Pairs(mine, theirs, |mine|, stamp)
  }

  lemma PairsUnfold(mine: seq<Block>, theirs: seq<Block>, n: nat, stamp: string)
    requires 0 < n <= |mine|
    ensures Pairs(mine, theirs, n, stamp) == Pairs(mine, theirs, n - 1, stamp) + Pair(mine, theirs, n - 1, stamp)
  {
  }

  lemma PairIsPushed(out: seq<Block>, mine: seq<Block>, theirs: seq<Block>, i: nat, stamp: string)
    requires i < |mine|
    ensures out + Pairs(mine, theirs, i, stamp) + Pair(mine, theirs, i, stamp) == out + Pairs(mine, theirs, i + 1, stamp)
  {
    PairsUnfold(mine, theirs, i + 1, stamp);
    Associate(out, Pairs(mine, theirs, i, stamp), Pair(mine, theirs, i, stamp));
  }

  method PushPairwise(out: seq<Block>, mine: seq<Block>, theirs: seq<Block>, stamp: string) returns (r: seq<Block>)
    ensures r == out + Pairwise(mine, theirs, stamp)
  {
    r := out;
    for i := 0 to |mine|
      invariant r == out + Pairs(mine, theirs, i, stamp)
    {
      r := PushPair(r, mine, theirs, i, stamp);
      PairIsPushed(out, mine, theirs, i, stamp);
    }
  }

  method PushPair(out: seq<Block>, mine: seq<Block>, theirs: seq<Block>, i: nat, stamp: string) returns (r: seq<Block>)
    requires i < |mine|
    ensures r == out + Pair(mine, theirs, i, stamp)
  {
    r := out + [mine[i]];
    var last := i + 1 == |mine|;
    var end := if last then |theirs| else if i + 1 < |theirs| then i + 1 else |theirs|;
    if i < end {
      var callout := CalloutOf(theirs[i..end], stamp);
      r := r + [callout];
      assert out + [mine[i]] + [callout] == out + [mine[i], callout];
    }
  }

  /** What `push_region` appends for a gap. */
  function Emit(r: Region, stamp: string): seq<Block> {
    if r.theirs == r.base || r.mine == r.theirs then r.mine
    else if r.mine == r.base then r.theirs
    else if r.theirs == [] then r.mine
    else if r.mine == [] then [CalloutOf(r.theirs, stamp)]
    else Pairwise(r.mine, r.theirs, stamp)
  }

  // ---------------------------------------------------------------- alignment

  datatype Anchor = Anchor(base: nat, mine: nat, theirs: nat)

  /** The partner of `i` in an alignment, if it has one. */
  function Partner(pairs: seq<IndexPair>, i: nat): Option<nat> {
    if pairs == [] then None
    else if Last(pairs).0 == i then Some(Last(pairs).1)
    else Partner(Init(pairs), i)
  }

  /** The base blocks matched in both alignments. */
  function Join(baseMine: seq<IndexPair>, baseTheirs: seq<IndexPair>): seq<Anchor> {
    if baseMine == [] then []
    else Join(Init(baseMine), baseTheirs) + AnchorAt(Last(baseMine), Partner(baseTheirs, Last(baseMine).0))
  }

  function AnchorAt(pair: IndexPair, partner: Option<nat>): seq<Anchor> {
    match partner case None => [] case Some(j) => [Anchor(pair.0, pair.1, j)]
  }

  function Anchors(base: seq<Block>, mine: seq<Block>, theirs: seq<Block>): seq<Anchor> {
    Join(Matches(base, mine), Matches(base, theirs))
  }

  lemma JoinSnoc(baseMine: seq<IndexPair>, pair: IndexPair, baseTheirs: seq<IndexPair>)
    ensures Join(baseMine + [pair], baseTheirs) == Join(baseMine, baseTheirs) + AnchorAt(pair, Partner(baseTheirs, pair.0))
  {
    SnocInit(baseMine, pair);
  }

  /** `anchors` as the program runs it: a slot for every base block, then a filter over the other alignment. */
  method ComputeAnchors(base: seq<Block>, mine: seq<Block>, theirs: seq<Block>) returns (anchors: seq<Anchor>)
    ensures anchors == Anchors(base, mine, theirs)
  {
    MatchesAreLongest(base, theirs);
    MatchesAreLongest(base, mine);
    var baseTheirs := ComputeMatches(base, theirs);
    var slots := FillSlots(|base|, baseTheirs);
    var baseMine := ComputeMatches(base, mine);
    anchors := FilterAnchors(|base|, baseMine, baseTheirs, slots);
  }

  method FilterAnchors(n: nat, baseMine: seq<IndexPair>, ghost baseTheirs: seq<IndexPair>, slots: array<Option<nat>>)
    returns (anchors: seq<Anchor>)
    requires slots.Length == n && forall i :: 0 <= i < n ==> slots[i] == Partner(baseTheirs, i)
    requires forall k :: 0 <= k < |baseMine| ==> baseMine[k].0 < n
    ensures anchors == Join(baseMine, baseTheirs)
  {
    anchors := [];
    for k := 0 to |baseMine|
      invariant anchors == Join(baseMine[..k], baseTheirs)
    {
      assert baseMine[..k + 1] == baseMine[..k] + [baseMine[k]];
      JoinSnoc(baseMine[..k], baseMine[k], baseTheirs);
      anchors := anchors + AnchorAt(baseMine[k], slots[baseMine[k].0]);
    }
    assert baseMine[..|baseMine|] == baseMine;
  }

  method FillSlots(n: nat, pairs: seq<IndexPair>) returns (slots: array<Option<nat>>)
    requires forall k :: 0 <= k < |pairs| ==> pairs[k].0 < n
    ensures fresh(slots) && slots.Length == n
    ensures forall i :: 0 <= i < n ==> slots[i] == Partner(pairs, i)
  {
    slots := new Option<nat>[n](_ => None);
    for k := 0 to |pairs|
      invariant forall i :: 0 <= i < n ==> slots[i] == Partner(pairs[..k], i)
    {
      assert pairs[..k + 1] == pairs[..k] + [pairs[k]];
      SnocInit(pairs[..k], pairs[k]);
      slots[pairs[k].0] := Some(pairs[k].1);
    }
    assert pairs[..|pairs|] == pairs;
  }

  lemma {:induction false} PartnerIs(pairs: seq<IndexPair>, i: nat)
    ensures Partner(pairs, i).Some? ==> (i, Partner(pairs, i).value) in pairs
    ensures Partner(pairs, i).None? ==> forall k :: 0 <= k < |pairs| ==> pairs[k].0 != i
  {
    if pairs != [] && Last(pairs).0 != i {
      PartnerIs(Init(pairs), i);
    }
  }

  /** Two pairs of an alignment are ordered the same way in both components. */
  lemma PartnersIncrease(pairs: seq<IndexPair>, p: IndexPair, q: IndexPair)
    requires Increasing(pairs, 0, 0) && p in pairs && q in pairs && p.0 < q.0
    ensures p.1 < q.1
  {
    var k :| 0 <= k < |pairs| && pairs[k] == p;
    var l :| 0 <= l < |pairs| && pairs[l] == q;
    assert k != l;
  }

  /** Anchors increase strictly in all three versions and mark the same block in each. */
  predicate Aligned(base: seq<Block>, mine: seq<Block>, theirs: seq<Block>, anchors: seq<Anchor>) {
    && (forall k :: 0 <= k < |anchors| ==> AnchorsAgree(base, mine, theirs, anchors[k]))
    && (forall k, l :: 0 <= k < l < |anchors| ==> Before(anchors[k], anchors[l]))
  }

  predicate AnchorsAgree(base: seq<Block>, mine: seq<Block>, theirs: seq<Block>, a: Anchor) {
    a.base < |base| && a.mine < |mine| && a.theirs < |theirs| && base[a.base] == mine[a.mine] == theirs[a.theirs]
  }

  predicate Before(a: Anchor, b: Anchor) {
    a.base < b.base && a.mine < b.mine && a.theirs < b.theirs
  }

  /** Every anchor is a pair of both alignments. */
  predicate FromBoth(anchors: seq<Anchor>, baseMine: seq<IndexPair>, baseTheirs: seq<IndexPair>) {
    forall k :: 0 <= k < |anchors| ==>
      (anchors[k].base, anchors[k].mine) in baseMine && (anchors[k].base, anchors[k].theirs) in baseTheirs
  }

  lemma AppendAnchor(base: seq<Block>, mine: seq<Block>, theirs: seq<Block>, anchors: seq<Anchor>,
                     baseMine: seq<IndexPair>, pair: IndexPair, baseTheirs: seq<IndexPair>, j: nat)
    requires IsCommon(base, mine, baseMine + [pair], 0, 0) && IsCommon(base, theirs, baseTheirs, 0, 0)
    requires Aligned(base, mine, theirs, anchors) && FromBoth(anchors, baseMine, baseTheirs)
    requires (pair.0, j) in baseTheirs
    ensures Aligned(base, mine, theirs, anchors + [Anchor(pair.0, pair.1, j)])
    ensures FromBoth(anchors + [Anchor(pair.0, pair.1, j)], baseMine + [pair], baseTheirs)
  {
    var last := Anchor(pair.0, pair.1, j);
    var all := baseMine + [pair];
    assert all[|baseMine|] == pair;
    var l :| 0 <= l < |baseTheirs| && baseTheirs[l] == (pair.0, j);
    assert AnchorsAgree(base, mine, theirs, last);
    forall k | 0 <= k < |anchors| ensures Before(anchors[k], last) {
      var m :| 0 <= m < |baseMine| && baseMine[m] == (anchors[k].base, anchors[k].mine);
      assert all[m].0 < all[|baseMine|].0 && all[m].1 < all[|baseMine|].1;
      PartnersIncrease(baseTheirs, (anchors[k].base, anchors[k].theirs), (pair.0, j));
    }
  }

  lemma {:induction false} JoinIsAligned(base: seq<Block>, mine: seq<Block>, theirs: seq<Block>,
                                         baseMine: seq<IndexPair>, baseTheirs: seq<IndexPair>)
    requires IsCommon(base, mine, baseMine, 0, 0) && IsCommon(base, theirs, baseTheirs, 0, 0)
    ensures Aligned(base, mine, theirs, Join(baseMine, baseTheirs))
    ensures FromBoth(Join(baseMine, baseTheirs), baseMine, baseTheirs)
    decreases |baseMine|
  {
    if baseMine != [] {
      var init, pair := Init(baseMine), Last(baseMine);
      InitLast(baseMine);
      JoinIsAligned(base, mine, theirs, init, baseTheirs);
      PartnerIs(baseTheirs, pair.0);
      match Partner(baseTheirs, pair.0)
      case None => assert Join(baseMine, baseTheirs) == Join(init, baseTheirs);
      case Some(j) => AppendAnchor(base, mine, theirs, Join(init, baseTheirs), init, pair, baseTheirs, j);
    }
  }

  lemma AnchorsAreAligned(base: seq<Block>, mine: seq<Block>, theirs: seq<Block>)
    ensures Aligned(base, mine, theirs, Anchors(base, mine, theirs))
  {
    MatchesAreLongest(base, mine);
    MatchesAreLongest(base, theirs);
    JoinIsAligned(base, mine, theirs, Matches(base, mine), Matches(base, theirs));
  }

  // ---------------------------------------------------------------- merging along anchors

  /** Versions of a note with the blocks all of them agree on. Without a base, every region's base reads as empty. */
  datatype Alignment = Alignment(base: seq<Block>, mine: seq<Block>, theirs: seq<Block>, anchors: seq<Anchor>, based: bool)

  predicate Valid(al: Alignment) {
    Aligned(al.base, al.mine, al.theirs, al.anchors)
  }

  function GapStart(al: Alignment, k: nat): Anchor
    requires k <= |al.anchors|
  {
    if k == 0 then Anchor(0, 0, 0)
    else Anchor(al.anchors[k - 1].base + 1, al.anchors[k - 1].mine + 1, al.anchors[k - 1].theirs + 1)
  }

  function GapEnd(al: Alignment, k: nat): Anchor
    requires k <= |al.anchors|
  {
    if k == |al.anchors| then Anchor(|al.base|, |al.mine|, |al.theirs|) else al.anchors[k]
  }

  lemma GapIsInside(al: Alignment, k: nat)
    requires Valid(al) && k <= |al.anchors|
    ensures GapStart(al, k).base <= GapEnd(al, k).base <= |al.base|
    ensures GapStart(al, k).mine <= GapEnd(al, k).mine <= |al.mine|
    ensures GapStart(al, k).theirs <= GapEnd(al, k).theirs <= |al.theirs|
  {
    if 0 < k {
      assert AnchorsAgree(al.base, al.mine, al.theirs, al.anchors[k - 1]);
      if k < |al.anchors| {
        assert Before(al.anchors[k - 1], al.anchors[k]);
      }
    }
    if k < |al.anchors| {
      assert AnchorsAgree(al.base, al.mine, al.theirs, al.anchors[k]);
    }
  }

  function Between(base: seq<Block>, mine: seq<Block>, theirs: seq<Block>, s: Anchor, e: Anchor): Region
    requires s.base <= e.base <= |base| && s.mine <= e.mine <= |mine| && s.theirs <= e.theirs <= |theirs|
  {
    Region(base[s.base..e.base], mine[s.mine..e.mine], theirs[s.theirs..e.theirs])
  }

  /** The region in front of anchor `k`; behind the last anchor when there is no `k`-th. */
  function Gap(al: Alignment, k: nat): Region
    requires Valid(al) && k <= |al.anchors|
  {
    GapIsInside(al, k);
    var region := Between(al.base, al.mine, al.theirs, GapStart(al, k), GapEnd(al, k));
    if al.based then region else region.(base := [])
  }

  function Gaps(al: Alignment): seq<Region>
    requires Valid(al)
  {
    seq(|al.anchors| + 1, k requires 0 <= k <= |al.anchors| => Gap(al, k))
  }

  /** The blocks all versions agree on. */
  function Agreed(al: Alignment): seq<Block>
    requires Valid(al)
  {
    seq(|al.anchors|, k requires 0 <= k < |al.anchors| =>
      assert AnchorsAgree(al.base, al.mine, al.theirs, al.anchors[k]); al.mine[al.anchors[k].mine])
  }

  /** The first `n` chunks, each followed by its agreed block. */
  function WeavePrefix<T>(chunks: seq<seq<T>>, agreed: seq<T>, n: nat): seq<T>
    requires n <= |agreed| && n <= |chunks|
  {
    if n == 0 then [] else WeavePrefix(chunks, agreed, n - 1) + chunks[n - 1] + [agreed[n - 1]]
  }

  /** Chunks with the agreed blocks between them. */
  function Weave<T>(chunks: seq<seq<T>>, agreed: seq<T>): seq<T>
    requires |chunks| == |agreed| + 1
  {
    WeavePrefix(chunks, agreed, |agreed|) + chunks[|agreed|]
  }

  function EmitEach(regions: seq<Region>, stamp: string): seq<seq<Block>> {
    seq(|regions|, k requires 0 <= k < |regions| => Emit(regions[k], stamp))
  }

  /** A merge: what each gap emits, with the agreed blocks between. */
  function MergeAlong(al: Alignment, stamp: string): seq<Block>
    requires Valid(al)
  {
    Weave(EmitEach(Gaps(al), stamp), Agreed(al))
  }

  function ThreeWay(base: seq<Block>, mine: seq<Block>, theirs: seq<Block>): (al: Alignment)
    ensures Valid(al)
  {
    AnchorsAreAligned(base, mine, theirs);
    Alignment(base, mine, theirs, Anchors(base, mine, theirs), true)
  }

  /** Without a base, the agreed blocks are the matches of the two versions. */
  function TwoWay(mine: seq<Block>, theirs: seq<Block>): (al: Alignment)
    ensures Valid(al)
  {
    var pairs := Matches(mine, theirs);
    var anchors := seq(|pairs|, k requires 0 <= k < |pairs| => Anchor(pairs[k].0, pairs[k].0, pairs[k].1));
    MatchesAreLongest(mine, theirs);
    assert forall k :: 0 <= k < |anchors| ==> AnchorsAgree(mine, mine, theirs, anchors[k]);
    assert forall k, l :: 0 <= k < l < |anchors| ==> Before(anchors[k], anchors[l]);
    Alignment(mine, mine, theirs, anchors, false)
  }

  function MergeThreeWay(base: seq<Block>, mine: seq<Block>, theirs: seq<Block>, stamp: string): seq<Block> {
    MergeAlong(ThreeWay(base, mine, theirs), stamp)
  }

  function MergeTwoWay(mine: seq<Block>, theirs: seq<Block>, stamp: string): seq<Block> {
    MergeAlong(TwoWay(mine, theirs), stamp)
  }

  /** `push_region`. */
  method PushRegion(out: seq<Block>, region: Region, stamp: string) returns (r: seq<Block>)
    ensures r == out + Emit(region, stamp)
  {
    var mineChanged, theirsChanged := region.mine != region.base, region.theirs != region.base;
    if !theirsChanged || region.mine == region.theirs {
      return out + region.mine;
    }
    if !mineChanged {
      return out + region.theirs;
    }
    if region.theirs == [] {
      return out + region.mine;
    }
    if region.mine == [] {
      return out + [CalloutOf(region.theirs, stamp)];
    }
    r := PushPairwise(out, region.mine, region.theirs, stamp);
  }

  /** What a merge has emitted in front of gap `n`. */
  function Merged(al: Alignment, n: nat, stamp: string): seq<Block>
    requires Valid(al) && n <= |al.anchors|
  {
    WeavePrefix(EmitEach(Gaps(al), stamp), Agreed(al), n)
  }

  lemma MergedSteps(al: Alignment, k: nat, stamp: string)
    requires Valid(al) && k < |al.anchors|
    ensures al.anchors[k].mine < |al.mine|
    ensures Merged(al, k + 1, stamp) == Merged(al, k, stamp) + Emit(Gap(al, k), stamp) + [al.mine[al.anchors[k].mine]]
  {
    assert AnchorsAgree(al.base, al.mine, al.theirs, al.anchors[k]);
    assert EmitEach(Gaps(al), stamp)[k] == Emit(Gap(al, k), stamp);
  }

  lemma MergedEnds(al: Alignment, stamp: string)
    requires Valid(al)
    ensures MergeAlong(al, stamp) == Merged(al, |al.anchors|, stamp) + Emit(Gap(al, |al.anchors|), stamp)
  {
    assert EmitEach(Gaps(al), stamp)[|al.anchors|] == Emit(Gap(al, |al.anchors|), stamp);
  }

  lemma CursorGap(al: Alignment, k: nat, cursor: Anchor)
    requires Valid(al) && al.based && k <= |al.anchors| && cursor == GapStart(al, k)
    ensures cursor.base <= GapEnd(al, k).base <= |al.base| && cursor.mine <= GapEnd(al, k).mine <= |al.mine|
    ensures cursor.theirs <= GapEnd(al, k).theirs <= |al.theirs|
    ensures Between(al.base, al.mine, al.theirs, cursor, GapEnd(al, k)) == Gap(al, k)
  {
    GapIsInside(al, k);
  }

  /** `merge_three_way` as the program runs it: a cursor that jumps from anchor to anchor. */
  method RunMergeThreeWay(base: seq<Block>, mine: seq<Block>, theirs: seq<Block>, stamp: string) returns (out: seq<Block>)
    ensures out == MergeThreeWay(base, mine, theirs, stamp)
  {
    ghost var al := ThreeWay(base, mine, theirs);
    out := [];
    var cursor := Anchor(0, 0, 0);
    var anchors := ComputeAnchors(base, mine, theirs);
    for k := 0 to |anchors|
      invariant cursor == GapStart(al, k)
      invariant out == Merged(al, k, stamp)
    {
      CursorGap(al, k, cursor);
      MergedSteps(al, k, stamp);
      out := PushRegion(out, Between(base, mine, theirs, cursor, anchors[k]), stamp);
      out := out + [mine[anchors[k].mine]];
      cursor := Anchor(anchors[k].base + 1, anchors[k].mine + 1, anchors[k].theirs + 1);
    }
    CursorGap(al, |anchors|, cursor);
    MergedEnds(al, stamp);
    out := PushRegion(out, Between(base, mine, theirs, cursor, Anchor(|base|, |mine|, |theirs|)), stamp);
  }

  lemma TwoWayGap(mine: seq<Block>, theirs: seq<Block>, k: nat)
    requires k <= |Matches(mine, theirs)|
    ensures var al, pairs := TwoWay(mine, theirs), Matches(mine, theirs);
      var s, e := GapStart(al, k), GapEnd(al, k);
      && |al.anchors| == |pairs|
      && s.mine <= e.mine <= |mine| && s.theirs <= e.theirs <= |theirs|
      && Gap(al, k) == Region([], mine[s.mine..e.mine], theirs[s.theirs..e.theirs])
      && (k < |pairs| ==> pairs[k] == (e.mine, e.theirs) && e.mine < |mine|)
  {
    var al := TwoWay(mine, theirs);
    GapIsInside(al, k);
    if k < |al.anchors| {
      assert AnchorsAgree(al.base, al.mine, al.theirs, al.anchors[k]);
    }
  }

  lemma NextGapStart(al: Alignment, k: nat)
    requires k < |al.anchors|
    ensures GapStart(al, k + 1).mine == GapEnd(al, k).mine + 1 && GapStart(al, k + 1).theirs == GapEnd(al, k).theirs + 1
  {
  }

  /** `merge_two_way` as the program runs it: one round per match, each for a gap whose base is empty. */
  method RunMergeTwoWay(mine: seq<Block>, theirs: seq<Block>, stamp: string) returns (out: seq<Block>)
    ensures out == MergeTwoWay(mine, theirs, stamp)
  {
    var pairs := ComputeMatches(mine, theirs);
    forall k: nat | k <= |pairs| ensures GapFollows(TwoWay(mine, theirs), pairs, k) {
      TwoWayGap(mine, theirs, k);
    }
    out := FollowPairs(mine, theirs, pairs, TwoWay(mine, theirs), stamp);
  }

  /** Gap `k` lies between the pairs `k - 1` and `k`. */
  ghost predicate GapFollows(al: Alignment, pairs: seq<IndexPair>, k: nat)
    requires Valid(al) && k <= |pairs|
  {
    && |al.anchors| == |pairs|
    && var s, e := GapStart(al, k), GapEnd(al, k);
    && s.mine <= e.mine <= |al.mine| && s.theirs <= e.theirs <= |al.theirs|
    && Gap(al, k) == Region([], al.mine[s.mine..e.mine], al.theirs[s.theirs..e.theirs])
    && (k < |pairs| ==> pairs[k] == (e.mine, e.theirs) && e.mine < |al.mine|)
  }

  lemma PairStep(al: Alignment, pairs: seq<IndexPair>, k: nat, left: nat, right: nat, stamp: string)
    requires Valid(al) && k < |pairs| && GapFollows(al, pairs, k)
    requires left == GapStart(al, k).mine && right == GapStart(al, k).theirs
    ensures left <= pairs[k].0 < |al.mine| && right <= pairs[k].1 <= |al.theirs|
    ensures Merged(al, k + 1, stamp)
         == Merged(al, k, stamp) + Emit(Region([], al.mine[left..pairs[k].0], al.theirs[right..pairs[k].1]), stamp)
            + [al.mine[pairs[k].0]]
    ensures GapStart(al, k + 1).mine == pairs[k].0 + 1 && GapStart(al, k + 1).theirs == pairs[k].1 + 1
  {
    NextGapStart(al, k);
    MergedSteps(al, k, stamp);
  }

  method FollowPairs(mine: seq<Block>, theirs: seq<Block>, pairs: seq<IndexPair>, ghost al: Alignment, stamp: string)
    returns (out: seq<Block>)
    requires Valid(al) && al.mine == mine && al.theirs == theirs && |al.anchors| == |pairs|
    requires forall k: nat | k <= |pairs| :: GapFollows(al, pairs, k)
    ensures out == MergeAlong(al, stamp)
  {
    out := [];
    var left, right := 0, 0;
    for k := 0 to |pairs|
      invariant left == GapStart(al, k).mine && right == GapStart(al, k).theirs
      invariant out == Merged(al, k, stamp)
    {
      out := FollowPair(out, mine, theirs, pairs, k, left, right, al, stamp);
      left, right := pairs[k].0 + 1, pairs[k].1 + 1;
    }
    LastPairStep(al, pairs, left, right, stamp);
    out := PushRegion(out, Region([], mine[left..], theirs[right..]), stamp);
  }

  /** One round of the loop: the gap in front of a pair, and the block both sides have. */
  method FollowPair(before: seq<Block>, mine: seq<Block>, theirs: seq<Block>, pairs: seq<IndexPair>, k: nat,
                    left: nat, right: nat, ghost al: Alignment, stamp: string)
    returns (out: seq<Block>)
    requires Valid(al) && al.mine == mine && al.theirs == theirs && k < |pairs| && GapFollows(al, pairs, k)
    requires left == GapStart(al, k).mine && right == GapStart(al, k).theirs && before == Merged(al, k, stamp)
    ensures out == Merged(al, k + 1, stamp)
    ensures GapStart(al, k + 1).mine == pairs[k].0 + 1 && GapStart(al, k + 1).theirs == pairs[k].1 + 1
  {
    PairStep(al, pairs, k, left, right, stamp);
    out := PushRegion(before, Region([], mine[left..pairs[k].0], theirs[right..pairs[k].1]), stamp);
    out := out + [mine[pairs[k].0]];
  }

  lemma LastPairGap(al: Alignment, pairs: seq<IndexPair>, left: nat, right: nat)
    requires Valid(al) && |pairs| == |al.anchors| && GapFollows(al, pairs, |pairs|)
    requires left == GapStart(al, |pairs|).mine && right == GapStart(al, |pairs|).theirs
    ensures left <= |al.mine| && right <= |al.theirs|
    ensures Gap(al, |pairs|) == Region([], al.mine[left..], al.theirs[right..])
  {
    assert GapEnd(al, |pairs|) == Anchor(|al.base|, |al.mine|, |al.theirs|);
  }

  lemma LastPairStep(al: Alignment, pairs: seq<IndexPair>, left: nat, right: nat, stamp: string)
    requires Valid(al) && |pairs| == |al.anchors| && GapFollows(al, pairs, |pairs|)
    requires left == GapStart(al, |pairs|).mine && right == GapStart(al, |pairs|).theirs
    ensures left <= |al.mine| && right <= |al.theirs|
    ensures MergeAlong(al, stamp)
         == Merged(al, |pairs|, stamp) + Emit(Region([], al.mine[left..], al.theirs[right..]), stamp)
  {
    LastPairGap(al, pairs, left, right);
    MergedEnds(al, stamp);
  }

  // ---------------------------------------------------------------- the gaps partition every version

  datatype Side = Base | Mine | Theirs

  function Version(al: Alignment, side: Side): seq<Block> {
    match side case Base => al.base case Mine => al.mine case Theirs => al.theirs
  }

  function Part(r: Region, side: Side): seq<Block> {
    match side case Base => r.base case Mine => r.mine case Theirs => r.theirs
  }

  function Index(a: Anchor, side: Side): nat {
    match side case Base => a.base case Mine => a.mine case Theirs => a.theirs
  }

  function PartEach(regions: seq<Region>, side: Side): seq<seq<Block>> {
    seq(|regions|, k requires 0 <= k < |regions| => Part(regions[k], side))
  }

  lemma GapIsSlice(al: Alignment, side: Side, k: nat)
    requires Valid(al) && (side == Base ==> al.based) && k <= |al.anchors|
    ensures Index(GapStart(al, k), side) <= Index(GapEnd(al, k), side) <= |Version(al, side)|
    ensures Part(Gap(al, k), side) == Version(al, side)[Index(GapStart(al, k), side)..Index(GapEnd(al, k), side)]
    ensures k < |al.anchors| ==>
      && Index(al.anchors[k], side) < |Version(al, side)|
      && Agreed(al)[k] == Version(al, side)[Index(al.anchors[k], side)]
  {
    GapIsInside(al, k);
    if k < |al.anchors| {
      assert AnchorsAgree(al.base, al.mine, al.theirs, al.anchors[k]);
    }
  }

  /** Chunk `k` is what lies between the cuts, and the agreed element is the one at its end. */
  ghost predicate CutsAt<T>(chunks: seq<seq<T>>, agreed: seq<T>, version: seq<T>, starts: seq<nat>, k: nat) {
    && k < |agreed| < |chunks| == |starts|
    && starts[k] < starts[k + 1] <= |version|
    && chunks[k] == version[starts[k]..starts[k + 1] - 1] && agreed[k] == version[starts[k + 1] - 1]
  }

  lemma SliceJoins<T>(version: seq<T>, s: nat, e: nat)
    requires s < e <= |version|
    ensures version[..s] + version[s..e - 1] + [version[e - 1]] == version[..e]
  {
  }

  lemma {:induction false} WovenPrefix<T>(chunks: seq<seq<T>>, agreed: seq<T>, version: seq<T>, starts: seq<nat>, n: nat)
    requires n <= |agreed| < |chunks| == |starts| && starts[0] == 0
    requires forall k: nat | k < n :: CutsAt(chunks, agreed, version, starts, k)
    ensures starts[n] <= |version| && WeavePrefix(chunks, agreed, n) == version[..starts[n]]
  {
    if n > 0 {
      WovenPrefix(chunks, agreed, version, starts, n - 1);
      assert CutsAt(chunks, agreed, version, starts, n - 1);
      SliceJoins(version, starts[n - 1], starts[n]);
    }
  }

  /** Chunks and agreed elements cut from one sequence make it up again. */
  lemma WovenIsWhole<T>(chunks: seq<seq<T>>, agreed: seq<T>, version: seq<T>, starts: seq<nat>)
    requires |chunks| == |agreed| + 1 == |starts| && starts[0] == 0
    requires forall k: nat | k < |agreed| :: CutsAt(chunks, agreed, version, starts, k)
    requires starts[|agreed|] <= |version| && chunks[|agreed|] == version[starts[|agreed|]..]
    ensures Weave(chunks, agreed) == version
  {
    WovenPrefix(chunks, agreed, version, starts, |agreed|);
    assert version[..starts[|agreed|]] + version[starts[|agreed|]..] == version;
  }

  function Starts(al: Alignment, side: Side): seq<nat> {
    seq(|al.anchors| + 1, k requires 0 <= k <= |al.anchors| => Index(GapStart(al, k), side))
  }

  lemma CutsMeet(al: Alignment, side: Side, k: nat)
    requires k < |al.anchors|
    ensures GapEnd(al, k) == al.anchors[k] && Index(GapStart(al, k + 1), side) == Index(al.anchors[k], side) + 1
    ensures |Starts(al, side)| == |al.anchors| + 1
    ensures Starts(al, side)[k] == Index(GapStart(al, k), side)
    ensures Starts(al, side)[k + 1] == Index(al.anchors[k], side) + 1
  {
  }

  lemma GapIsCut(al: Alignment, side: Side, k: nat)
    requires Valid(al) && (side == Base ==> al.based) && k < |al.anchors|
    ensures CutsAt(PartEach(Gaps(al), side), Agreed(al), Version(al, side), Starts(al, side), k)
  {
    GapIsSlice(al, side, k);
    CutsMeet(al, side, k);
    assert PartEach(Gaps(al), side)[k] == Part(Gap(al, k), side);
  }

  lemma LastGapIsCut(al: Alignment, side: Side)
    requires Valid(al) && (side == Base ==> al.based)
    ensures var n := |al.anchors|;
      Starts(al, side)[n] <= |Version(al, side)|
      && PartEach(Gaps(al), side)[n] == Version(al, side)[Starts(al, side)[n]..]
  {
    var n := |al.anchors|;
    GapIsSlice(al, side, n);
    assert Index(GapEnd(al, n), side) == |Version(al, side)|;
    assert Gaps(al)[n] == Gap(al, n);
  }

  /** The gaps and the agreed blocks put together again are exactly each version. */
  lemma GapsPartition(al: Alignment, side: Side)
    requires Valid(al) && (side == Base ==> al.based)
    ensures Weave(PartEach(Gaps(al), side), Agreed(al)) == Version(al, side)
  {
    forall k: nat | k < |al.anchors|
      ensures CutsAt(PartEach(Gaps(al), side), Agreed(al), Version(al, side), Starts(al, side), k)
    {
      GapIsCut(al, side, k);
    }
    LastGapIsCut(al, side);
    WovenIsWhole(PartEach(Gaps(al), side), Agreed(al), Version(al, side), Starts(al, side));
  }

  /** A merge that takes one side's part of every gap is that side. */
  lemma OneSidedMerge(al: Alignment, side: Side, stamp: string)
    requires Valid(al) && (side == Base ==> al.based)
    requires forall k: nat | k <= |al.anchors| :: Emit(Gap(al, k), stamp) == Part(Gap(al, k), side)
    ensures MergeAlong(al, stamp) == Version(al, side)
  {
    assert EmitEach(Gaps(al), stamp) == PartEach(Gaps(al), side);
    GapsPartition(al, side);
  }

  // ---------------------------------------------------------------- merge laws

  lemma AnchorsMatchBothWays(base: seq<Block>, mine: seq<Block>, theirs: seq<Block>, k: nat)
    requires k < |Anchors(base, mine, theirs)|
    ensures var a := Anchors(base, mine, theirs)[k];
      (a.base, a.mine) in Matches(base, mine) && (a.base, a.theirs) in Matches(base, theirs)
  {
    MatchesAreLongest(base, mine);
    MatchesAreLongest(base, theirs);
    JoinIsAligned(base, mine, theirs, Matches(base, mine), Matches(base, theirs));
  }

  /** Where one side is the base, their anchors sit at the same places. */
  lemma UnchangedSideAnchors(base: seq<Block>, other: seq<Block>)
    ensures forall a <- Anchors(base, base, other) :: a.base == a.mine
    ensures forall a <- Anchors(base, other, base) :: a.base == a.theirs
  {
    TraceOfSelf(base, 0);
    forall a | a in Anchors(base, base, other) ensures a.base == a.mine {
      var k :| 0 <= k < |Anchors(base, base, other)| && Anchors(base, base, other)[k] == a;
      AnchorsMatchBothWays(base, base, other, k);
    }
    forall a | a in Anchors(base, other, base) ensures a.base == a.theirs {
      var k :| 0 <= k < |Anchors(base, other, base)| && Anchors(base, other, base)[k] == a;
      AnchorsMatchBothWays(base, other, base, k);
    }
  }

  lemma SameChangeAnchors(base: seq<Block>, both: seq<Block>)
    ensures forall a <- Anchors(base, both, both) :: a.mine == a.theirs
  {
    MatchesAreLongest(base, both);
    var pairs := Matches(base, both);
    forall a | a in Anchors(base, both, both) ensures a.mine == a.theirs {
      var k :| 0 <= k < |Anchors(base, both, both)| && Anchors(base, both, both)[k] == a;
      AnchorsMatchBothWays(base, both, both, k);
      var i :| 0 <= i < |pairs| && pairs[i] == (a.base, a.mine);
      var j :| 0 <= j < |pairs| && pairs[j] == (a.base, a.theirs);
      assert i == j;
    }
  }

  /** A side I did not touch: the merge is theirs, deletions included. */
  lemma OnlyTheyChanged(base: seq<Block>, theirs: seq<Block>, stamp: string)
    ensures MergeThreeWay(base, base, theirs, stamp) == theirs
  {
    var al := ThreeWay(base, base, theirs);
    UnchangedSideAnchors(base, theirs);
    forall k: nat | k <= |al.anchors| ensures Emit(Gap(al, k), stamp) == Part(Gap(al, k), Theirs) {
      GapIsInside(al, k);
      assert Gap(al, k).mine == Gap(al, k).base;
    }
    OneSidedMerge(al, Theirs, stamp);
  }

  /** A side they did not touch: the merge is mine, deletions included. */
  lemma OnlyIChanged(base: seq<Block>, mine: seq<Block>, stamp: string)
    ensures MergeThreeWay(base, mine, base, stamp) == mine
  {
    var al := ThreeWay(base, mine, base);
    UnchangedSideAnchors(base, mine);
    forall k: nat | k <= |al.anchors| ensures Emit(Gap(al, k), stamp) == Part(Gap(al, k), Mine) {
      GapIsInside(al, k);
      assert Gap(al, k).theirs == Gap(al, k).base;
    }
    OneSidedMerge(al, Mine, stamp);
  }

  /** The same change on both sides appears once. */
  lemma BothMadeTheSameChange(base: seq<Block>, both: seq<Block>, stamp: string)
    ensures MergeThreeWay(base, both, both, stamp) == both
  {
    var al := ThreeWay(base, both, both);
    SameChangeAnchors(base, both);
    forall k: nat | k <= |al.anchors| ensures Emit(Gap(al, k), stamp) == Part(Gap(al, k), Mine) {
      GapIsInside(al, k);
      assert Gap(al, k).mine == Gap(al, k).theirs;
    }
    OneSidedMerge(al, Mine, stamp);
  }

  /** Without a base, merging a version with itself changes nothing. */
  lemma MergeWithItself(both: seq<Block>, stamp: string)
    ensures MergeTwoWay(both, both, stamp) == both
  {
    var al := TwoWay(both, both);
    TraceOfSelf(both, 0);
    forall k: nat | k <= |al.anchors| ensures Emit(Gap(al, k), stamp) == Part(Gap(al, k), Mine) {
      GapIsInside(al, k);
      assert Gap(al, k).mine == Gap(al, k).theirs;
    }
    OneSidedMerge(al, Mine, stamp);
  }
}
