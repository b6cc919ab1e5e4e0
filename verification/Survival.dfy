/** What a merge keeps of both versions, and where resolving its conflicts leads (crates/mb-core/src/conflict.rs). */
module Survival {
  import opened Strings
  import opened Model
  import opened Lcs
  import opened Conflict
  import opened Merge

  // ---------------------------------------------------------------- subsequences

  /** `a` can be read off `b` from left to right by skipping elements. */
  ghost predicate IsSub<T>(a: seq<T>, b: seq<T>)
    decreases |b|
  {
    || a == []
    || (b != [] && ((Last(a) == Last(b) && IsSub(Init(a), Init(b))) || IsSub(a, Init(b))))
  }

  lemma {:induction false} SubOfItself<T>(a: seq<T>)
    ensures IsSub(a, a)
    decreases |a|
  {
    if a != [] {
      SubOfItself(Init(a));
    }
  }

  lemma {:induction false} SubConcat<T>(a: seq<T>, b: seq<T>, c: seq<T>, d: seq<T>)
    requires IsSub(a, b) && IsSub(c, d)
    ensures IsSub(a + c, b + d)
    decreases |d|
  {
    if d == [] {
      assert a + c == a && b + d == b;
    } else {
      assert Init(b + d) == b + Init(d) && Last(b + d) == Last(d);
      if c == [] {
        assert a + c == a;
        SubConcat(a, b, c, Init(d));
      } else if Last(c) == Last(d) && IsSub(Init(c), Init(d)) {
        SubConcat(a, b, Init(c), Init(d));
        assert Init(a + c) == a + Init(c) && Last(a + c) == Last(c);
      } else {
        SubConcat(a, b, c, Init(d));
      }
    }
  }

  lemma {:induction false} SubWithin<T>(a: seq<T>, b: seq<T>, x: T)
    requires IsSub(a, b)
    ensures IsSub(a, b + [x]) && IsSub(a + [x], b + [x])
  {
    SnocInit(b, x);
    if a != [] {
      SnocInit(a, x);
    }
    SnocInit(a, x);
  }

  // ---------------------------------------------------------------- what one region keeps

  /** Local blocks nobody else may take away: those I changed, and those they left alone. */
  function KeptMine(r: Region): seq<Block> {
    if r.mine != r.base || r.theirs == r.base then r.mine else []
  }

  /** Their blocks that may not get lost: those they changed, and those I left alone. */
  function KeptTheirs(r: Region): seq<Block> {
    if r.theirs != r.base || r.mine == r.base then r.theirs else []
  }

  lemma {:induction false} PairsKeepBoth(mine: seq<Block>, theirs: seq<Block>, n: nat, stamp: string)
    requires n <= |mine|
    ensures IsSub(mine[..n], Pairs(mine, theirs, n, stamp))
    ensures var taken := if n == 0 then 0 else if n == |mine| || |theirs| < n then |theirs| else n;
      IsSub(Flatten(theirs[..taken]), Flatten(Pairs(mine, theirs, n, stamp)))
  {
    if n > 0 {
      PairsKeepBoth(mine, theirs, n - 1, stamp);
      PairKeepsMine(mine, theirs, n - 1, stamp);
      PairKeepsTheirs(mine, theirs, n - 1, stamp);
    }
  }

  lemma LocalIsInPair(mine: seq<Block>, theirs: seq<Block>, i: nat, stamp: string)
    requires i < |mine|
    ensures IsSub([mine[i]], Pair(mine, theirs, i, stamp))
  {
    var pair := Pair(mine, theirs, i, stamp);
    SubOfItself([mine[i]]);
    if |pair| == 2 {
      SubWithin([mine[i]], [mine[i]], pair[1]);
      assert [mine[i]] + [pair[1]] == pair;
    }
  }

  lemma PairKeepsMine(mine: seq<Block>, theirs: seq<Block>, i: nat, stamp: string)
    requires i < |mine| && IsSub(mine[..i], Pairs(mine, theirs, i, stamp))
    ensures IsSub(mine[..i + 1], Pairs(mine, theirs, i + 1, stamp))
  {
    LocalIsInPair(mine, theirs, i, stamp);
    SubConcat(mine[..i], Pairs(mine, theirs, i, stamp), [mine[i]], Pair(mine, theirs, i, stamp));
    PairsUnfold(mine, theirs, i + 1, stamp);
    TakeSnoc(mine, i);
  }

  /** How many of their blocks the first `n` pairs have shown. */
  function Shown(mine: seq<Block>, theirs: seq<Block>, n: nat): nat {
    if n == 0 then 0 else if n == |mine| || |theirs| < n then |theirs| else n
  }

  lemma ShownGrows(mine: seq<Block>, theirs: seq<Block>, i: nat)
    requires i < |mine| && Shown(mine, theirs, i) <= |theirs|
    ensures Shown(mine, theirs, i + 1) <= |theirs|
    ensures theirs[..Shown(mine, theirs, i + 1)] == theirs[..Shown(mine, theirs, i)] + Counterpart(mine, theirs, i)
  {
  }

  lemma PairHoldsCounterpart(mine: seq<Block>, theirs: seq<Block>, i: nat, stamp: string)
    requires i < |mine|
    ensures IsSub(Flatten(Counterpart(mine, theirs, i)), Flatten(Pair(mine, theirs, i, stamp)))
  {
    var content := Flatten(Counterpart(mine, theirs, i));
    PairFlattens(mine, theirs, i, stamp);
    SubOfItself(content);
    SubConcat([], FlattenBlock(mine[i]), content, content);
    assert [] + content == content;
  }

  lemma PairKeepsTheirs(mine: seq<Block>, theirs: seq<Block>, i: nat, stamp: string)
    requires i < |mine| && Shown(mine, theirs, i) <= |theirs|
    requires IsSub(Flatten(theirs[..Shown(mine, theirs, i)]), Flatten(Pairs(mine, theirs, i, stamp)))
    ensures Shown(mine, theirs, i + 1) <= |theirs|
    ensures IsSub(Flatten(theirs[..Shown(mine, theirs, i + 1)]), Flatten(Pairs(mine, theirs, i + 1, stamp)))
  {
    var before, pair := Pairs(mine, theirs, i, stamp), Pair(mine, theirs, i, stamp);
    var shown, counterpart := theirs[..Shown(mine, theirs, i)], Counterpart(mine, theirs, i);
    ShownGrows(mine, theirs, i);
    FlattenConcat(shown, counterpart);
    FlattenConcat(before, pair);
    PairHoldsCounterpart(mine, theirs, i, stamp);
    SubConcat(Flatten(shown), Flatten(before), Flatten(counterpart), Flatten(pair));
  }

  /** Unwrapping the conflict of a pair gives back the local block and its counterpart. */
  lemma PairFlattens(mine: seq<Block>, theirs: seq<Block>, i: nat, stamp: string)
    requires i < |mine|
    ensures Flatten(Pair(mine, theirs, i, stamp)) == FlattenBlock(mine[i]) + Flatten(Counterpart(mine, theirs, i))
  {
    var counterpart := Counterpart(mine, theirs, i);
    FlattenOne(mine[i]);
    if counterpart == [] {
      assert FlattenBlock(mine[i]) + [] == FlattenBlock(mine[i]);
    } else {
      var callout := CalloutOf(counterpart, stamp);
      CalloutFlattens(counterpart, stamp);
      FlattenOne(callout);
      FlattenConcat([mine[i]], [callout]);
      assert [mine[i]] + [callout] == Pair(mine, theirs, i, stamp);
    }
  }

  lemma CalloutFlattens(content: seq<Block>, stamp: string)
    ensures IsConflict(CalloutOf(content, stamp))
    ensures FlattenBlock(CalloutOf(content, stamp)) == Flatten(content)
  {
    FlattenedHasNoConflict(content);
    FlattenOfConflictFree(Flatten(content));
  }

  /** No region loses a block: mine stay in place, theirs are taken, agreed on, or inside its callouts. */
  lemma RegionKeepsBoth(r: Region, stamp: string)
    ensures IsSub(KeptMine(r), Emit(r, stamp))
    ensures IsSub(Flatten(KeptTheirs(r)), Flatten(Emit(r, stamp)))
  {
    SubOfItself(r.mine);
    SubOfItself(Flatten(r.mine));
    SubOfItself(Flatten(r.theirs));
    if r.theirs == r.base || r.mine == r.theirs || r.mine == r.base || r.theirs == [] {
    } else if r.mine == [] {
      CalloutFlattens(r.theirs, stamp);
      FlattenOne(CalloutOf(r.theirs, stamp));
    } else {
      PairsKeepBoth(r.mine, r.theirs, |r.mine|, stamp);
      assert r.mine[..|r.mine|] == r.mine && r.theirs[..|r.theirs|] == r.theirs;
    }
  }

  // ---------------------------------------------------------------- what a whole merge keeps

  function KeptEach(regions: seq<Region>, side: Side): seq<seq<Block>> {
    seq(|regions|, k requires 0 <= k < |regions| => if side == Theirs then KeptTheirs(regions[k]) else KeptMine(regions[k]))
  }

  lemma {:induction false} WeaveKeepsSub(a: seq<seq<Block>>, b: seq<seq<Block>>, agreed: seq<Block>, n: nat)
    requires |a| == |b| && n <= |agreed| && n <= |a|
    requires forall k :: 0 <= k < |a| ==> IsSub(a[k], b[k])
    ensures IsSub(WeavePrefix(a, agreed, n), WeavePrefix(b, agreed, n))
  {
    if n > 0 {
      WeaveKeepsSub(a, b, agreed, n - 1);
      SubStep(WeavePrefix(a, agreed, n - 1), WeavePrefix(b, agreed, n - 1), a[n - 1], b[n - 1], agreed[n - 1]);
    }
  }

  lemma SubStep(a: seq<Block>, b: seq<Block>, c: seq<Block>, d: seq<Block>, agreed: Block)
    requires IsSub(a, b) && IsSub(c, d)
    ensures IsSub(a + c + [agreed], b + d + [agreed])
  {
    SubConcat(a, b, c, d);
    SubOfItself([agreed]);
    SubConcat(a + c, b + d, [agreed], [agreed]);
  }

  lemma {:induction false} WeaveKeepsFlattened(a: seq<seq<Block>>, b: seq<seq<Block>>, agreed: seq<Block>, n: nat)
    requires |a| == |b| && n <= |agreed| && n <= |a|
    requires forall k :: 0 <= k < |a| ==> IsSub(Flatten(a[k]), Flatten(b[k]))
    ensures IsSub(Flatten(WeavePrefix(a, agreed, n)), Flatten(WeavePrefix(b, agreed, n)))
  {
    if n > 0 {
      WeaveKeepsFlattened(a, b, agreed, n - 1);
      FlattenedStep(WeavePrefix(a, agreed, n - 1), a[n - 1], WeavePrefix(b, agreed, n - 1), b[n - 1]);
      var last := [agreed[n - 1]];
      SubOfItself(Flatten(last));
      FlattenedStep(WeavePrefix(a, agreed, n - 1) + a[n - 1], last, WeavePrefix(b, agreed, n - 1) + b[n - 1], last);
    }
  }

  lemma FlattenedStep(a: seq<Block>, c: seq<Block>, b: seq<Block>, d: seq<Block>)
    requires IsSub(Flatten(a), Flatten(b)) && IsSub(Flatten(c), Flatten(d))
    ensures IsSub(Flatten(a + c), Flatten(b + d))
  {
    FlattenConcat(a, c);
    FlattenConcat(b, d);
    SubConcat(Flatten(a), Flatten(b), Flatten(c), Flatten(d));
  }

  /**
   * A merge keeps every block a side changed or the other side left alone, in order: mine as they are, theirs as
   * they are or inside a conflict callout, from which flattening brings them back.
   */
  lemma MergeKeepsBoth(al: Alignment, stamp: string)
    requires Valid(al)
    ensures IsSub(Weave(KeptEach(Gaps(al), Mine), Agreed(al)), MergeAlong(al, stamp))
    ensures IsSub(Flatten(Weave(KeptEach(Gaps(al), Theirs), Agreed(al))), Flatten(MergeAlong(al, stamp)))
  {
    var mine, theirs := KeptEach(Gaps(al), Mine), KeptEach(Gaps(al), Theirs);
    var emitted, agreed := EmitEach(Gaps(al), stamp), Agreed(al);
    var n := |agreed|;
    forall k | 0 <= k < |emitted|
      ensures IsSub(mine[k], emitted[k]) && IsSub(Flatten(theirs[k]), Flatten(emitted[k]))
    {
      RegionKeepsBoth(Gaps(al)[k], stamp);
    }
    WeaveKeepsSub(mine, emitted, agreed, n);
    SubConcat(WeavePrefix(mine, agreed, n), WeavePrefix(emitted, agreed, n), mine[n], emitted[n]);
    WeaveKeepsFlattened(theirs, emitted, agreed, n);
    FlattenedStep(WeavePrefix(theirs, agreed, n), theirs[n], WeavePrefix(emitted, agreed, n), emitted[n]);
  }

  /** Without a base, all of mine is in the merge, in order, and so is all of theirs once conflicts are unwrapped. */
  lemma TwoWayLosesNothing(mine: seq<Block>, theirs: seq<Block>, stamp: string)
    ensures IsSub(mine, MergeTwoWay(mine, theirs, stamp))
    ensures IsSub(Flatten(theirs), Flatten(MergeTwoWay(mine, theirs, stamp)))
  {
    var al := TwoWay(mine, theirs);
    forall k: nat | k < |Gaps(al)| ensures Gaps(al)[k].base == [] {
      TwoWayGap(mine, theirs, k);
    }
    assert KeptEach(Gaps(al), Mine) == PartEach(Gaps(al), Mine);
    assert KeptEach(Gaps(al), Theirs) == PartEach(Gaps(al), Theirs);
    GapsPartition(al, Mine);
    GapsPartition(al, Theirs);
    MergeKeepsBoth(al, stamp);
  }

  // ---------------------------------------------------------------- conflicts never nest

  lemma CalloutDoesNotNest(content: seq<Block>, stamp: string)
    ensures NoNested([CalloutOf(content, stamp)])
  {
    FlattenedHasNoConflict(content);
  }

  lemma {:induction false} PairsDoNotNest(mine: seq<Block>, theirs: seq<Block>, n: nat, stamp: string)
    requires n <= |mine| && NoNested(mine)
    ensures NoNested(Pairs(mine, theirs, n, stamp))
  {
    if n > 0 {
      PairsDoNotNest(mine, theirs, n - 1, stamp);
      var pair, counterpart := Pair(mine, theirs, n - 1, stamp), Counterpart(mine, theirs, n - 1);
      assert NoNestedIn(mine[n - 1]);
      CalloutDoesNotNest(counterpart, stamp);
      NoNestedConcat([mine[n - 1]], [CalloutOf(counterpart, stamp)]);
      assert [mine[n - 1]] + [CalloutOf(counterpart, stamp)] == [mine[n - 1], CalloutOf(counterpart, stamp)];
      NoNestedConcat(Pairs(mine, theirs, n - 1, stamp), pair);
    }
  }

  lemma RegionDoesNotNest(r: Region, stamp: string)
    requires NoNested(r.mine) && NoNested(r.theirs)
    ensures NoNested(Emit(r, stamp))
  {
    CalloutDoesNotNest(r.theirs, stamp);
    PairsDoNotNest(r.mine, r.theirs, |r.mine|, stamp);
  }

  lemma {:induction false} WeaveDoesNotNest(chunks: seq<seq<Block>>, agreed: seq<Block>, n: nat)
    requires n <= |agreed| && n <= |chunks|
    requires (forall k :: 0 <= k < |chunks| ==> NoNested(chunks[k])) && NoNested(agreed)
    ensures NoNested(WeavePrefix(chunks, agreed, n))
  {
    if n > 0 {
      WeaveDoesNotNest(chunks, agreed, n - 1);
      NoNestedConcat(WeavePrefix(chunks, agreed, n - 1), chunks[n - 1]);
      assert NoNestedIn(agreed[n - 1]);
      NoNestedConcat(WeavePrefix(chunks, agreed, n - 1) + chunks[n - 1], [agreed[n - 1]]);
    }
  }

  lemma GapDoesNotNest(al: Alignment, k: nat)
    requires Valid(al) && NoNested(al.mine) && NoNested(al.theirs) && k <= |al.anchors|
    ensures NoNested(Gap(al, k).mine) && NoNested(Gap(al, k).theirs)
  {
    GapIsSlice(al, Mine, k);
    GapIsSlice(al, Theirs, k);
  }

  /** Merging versions whose conflict callouts do not nest gives a note whose conflict callouts do not nest. */
  lemma MergeDoesNotNest(al: Alignment, stamp: string)
    requires Valid(al) && NoNested(al.mine) && NoNested(al.theirs)
    ensures NoNested(MergeAlong(al, stamp))
  {
    var chunks, agreed := EmitEach(Gaps(al), stamp), Agreed(al);
    forall k: nat | k < |chunks| ensures NoNested(chunks[k]) {
      GapDoesNotNest(al, k);
      RegionDoesNotNest(Gap(al, k), stamp);
    }
    forall k: nat | k < |agreed| ensures NoNestedIn(agreed[k]) {
      GapIsSlice(al, Mine, k);
    }
    WeaveDoesNotNest(chunks, agreed, |agreed|);
    NoNestedConcat(WeavePrefix(chunks, agreed, |agreed|), chunks[|agreed|]);
  }

  // ---------------------------------------------------------------- resolving everything one way

  /** No top-level conflict callout wraps a top-level conflict. */
  predicate Shallow(blocks: seq<Block>) {
    forall i: nat | i < |blocks| :: IsConflict(blocks[i]) ==> TopCount(blocks[i].kind.body) == 0
  }

  lemma ShallowConcat(a: seq<Block>, b: seq<Block>)
    ensures Shallow(a + b) <==> Shallow(a) && Shallow(b)
  {
    var all := a + b;
    assert forall i: nat | i < |a| :: all[i] == a[i];
    assert forall i: nat | i < |b| :: all[|a| + i] == b[i];
    if Shallow(all) {
      forall i: nat | i < |b| && IsConflict(b[i]) ensures TopCount(b[i].kind.body) == 0 {
        assert IsConflict(all[|a| + i]);
      }
    }
  }

  lemma {:induction false} NoTopConflict(blocks: seq<Block>)
    ensures TopCount(blocks) == 0 <==> forall i: nat | i < |blocks| :: !IsConflict(blocks[i])
  {
    if blocks != [] {
      NoTopConflict(Init(blocks));
      assert forall i: nat | i < |Init(blocks)| :: Init(blocks)[i] == blocks[i];
    }
  }

  lemma ResolveStaysShallow(blocks: seq<Block>, index: nat, resolution: Resolution)
    requires Shallow(blocks) && index < |blocks| && IsConflict(blocks[index])
    ensures Shallow(Resolve(blocks, index, resolution))
    ensures TopCount(Resolve(blocks, index, resolution)) == TopCount(blocks) - 1
  {
    var cut := if resolution == KeepTheirs then LocalVersion(blocks, index) else index;
    var content := if resolution == KeepMine then [] else blocks[index].kind.body;
    var front, local, back, callout := blocks[..cut], blocks[cut..index], blocks[index + 1..], [blocks[index]];
    ResolveSplits(blocks, index, resolution);
    NoTopConflict(content);
    ShallowConcat(front + local + callout, back);
    ShallowConcat(front + local, callout);
    ShallowConcat(front, local);
    ShallowConcat(front + content, back);
    ShallowConcat(front, content);
    TopCountConcat(front + local + callout, back);
    TopCountConcat(front + local, callout);
    TopCountConcat(front, local);
    TopCountOne(blocks[index]);
    TopCountConcat(front + content, back);
    TopCountConcat(front, content);
  }

  /** Resolves the first conflict the same way until none is left. */
  function ResolveAll(blocks: seq<Block>, resolution: Resolution): seq<Block>
    requires Shallow(blocks)
    decreases TopCount(blocks)
  {
    match Nth(blocks, 0)
    case None => blocks
    case Some(i) =>
      NthFinds(blocks, 0, i);
      ResolveStaysShallow(blocks, i, resolution);
      ResolveAll(Resolve(blocks, i, resolution), resolution)
  }

  lemma FirstConflict(front: seq<Block>, callout: Block, back: seq<Block>)
    requires TopCount(front) == 0 && IsConflict(callout)
    ensures Nth(front + [callout] + back, 0) == Some(|front|)
  {
    var all := front + [callout] + back;
    assert all[..|front|] == front;
    NthFinds(all, 0, |front|);
  }

  lemma NothingToResolve(blocks: seq<Block>)
    requires TopCount(blocks) == 0
    ensures Nth(blocks, 0) == None
  {
    NthExists(blocks, 0);
  }

  // ---------------------------------------------------------------- keeping mine

  /** A note without its unresolved conflicts. */
  function WithoutConflicts(blocks: seq<Block>): seq<Block> {
    if blocks == [] then []
    else WithoutConflicts(Init(blocks)) + if IsConflict(Last(blocks)) then [] else [Last(blocks)]
  }

  lemma {:induction false} WithoutConflictsConcat(a: seq<Block>, b: seq<Block>)
    ensures WithoutConflicts(a + b) == WithoutConflicts(a) + WithoutConflicts(b)
  {
    if b == [] {
      assert a + b == a;
    } else {
      InitOfConcat(a, b);
      WithoutConflictsConcat(a, Init(b));
    }
  }

  lemma {:induction false} WithoutConflictsKeeps(blocks: seq<Block>)
    requires TopCount(blocks) == 0
    ensures WithoutConflicts(blocks) == blocks
  {
    if blocks != [] {
      WithoutConflictsKeeps(Init(blocks));
      InitLast(blocks);
    }
  }

  lemma WithoutOne(b: Block)
    ensures WithoutConflicts([b]) == if IsConflict(b) then [] else [b]
  {
    assert Init([b]) == [];
  }

  lemma DropMiddle(front: seq<Block>, callout: Block, back: seq<Block>)
    requires IsConflict(callout)
    ensures WithoutConflicts(front + [callout] + back) == WithoutConflicts(front + back)
  {
    WithoutOne(callout);
    WithoutConflictsConcat(front + [callout], back);
    WithoutConflictsConcat(front, [callout]);
    WithoutConflictsConcat(front, back);
    assert WithoutConflicts(front) + [] == WithoutConflicts(front);
  }

  lemma DroppingAConflict(blocks: seq<Block>, i: nat)
    requires i < |blocks| && IsConflict(blocks[i])
    ensures WithoutConflicts(Resolve(blocks, i, KeepMine)) == WithoutConflicts(blocks)
  {
    assert blocks == blocks[..i] + [blocks[i]] + blocks[i + 1..];
    DropMiddle(blocks[..i], blocks[i], blocks[i + 1..]);
  }

  /** Resolving every conflict as mine drops exactly the conflict callouts. */
  lemma {:induction false} ResolveAllMine(blocks: seq<Block>)
    requires Shallow(blocks)
    ensures ResolveAll(blocks, KeepMine) == WithoutConflicts(blocks)
    decreases TopCount(blocks)
  {
    NthExists(blocks, 0);
    match Nth(blocks, 0)
    case None => WithoutConflictsKeeps(blocks);
    case Some(i) =>
      NthFinds(blocks, 0, i);
      ResolveStaysShallow(blocks, i, KeepMine);
      ResolveAllMine(Resolve(blocks, i, KeepMine));
      DroppingAConflict(blocks, i);
  }

  /** The part of a region that a merge preferring mine over theirs takes. */
  function MineFirst(r: Region): seq<Block> {
    if r.mine == r.base then r.theirs else r.mine
  }

  lemma PairWithoutConflicts(mine: seq<Block>, theirs: seq<Block>, i: nat, stamp: string)
    requires i < |mine| && TopCount(mine) == 0
    ensures WithoutConflicts(Pair(mine, theirs, i, stamp)) == [mine[i]]
  {
    NoTopConflict(mine);
    WithoutOne(mine[i]);
    if Counterpart(mine, theirs, i) != [] {
      var callout := CalloutOf(Counterpart(mine, theirs, i), stamp);
      CalloutFlattens(Counterpart(mine, theirs, i), stamp);
      WithoutOne(callout);
      WithoutConflictsConcat([mine[i]], [callout]);
      assert Pair(mine, theirs, i, stamp) == [mine[i]] + [callout];
    }
  }

  lemma {:induction false} PairsWithoutConflicts(mine: seq<Block>, theirs: seq<Block>, n: nat, stamp: string)
    requires n <= |mine| && TopCount(mine) == 0
    ensures WithoutConflicts(Pairs(mine, theirs, n, stamp)) == mine[..n]
  {
    if n > 0 {
      PairsWithoutConflicts(mine, theirs, n - 1, stamp);
      PairWithoutConflicts(mine, theirs, n - 1, stamp);
      PairsUnfold(mine, theirs, n, stamp);
      WithoutConflictsConcat(Pairs(mine, theirs, n - 1, stamp), Pair(mine, theirs, n - 1, stamp));
      TakeSnoc(mine, n - 1);
    }
  }

  lemma PairwiseWithoutConflicts(mine: seq<Block>, theirs: seq<Block>, stamp: string)
    requires TopCount(mine) == 0
    ensures WithoutConflicts(Pairwise(mine, theirs, stamp)) == mine
  {
    PairsWithoutConflicts(mine, theirs, |mine|, stamp);
    assert mine[..|mine|] == mine;
  }

  lemma RegionWithoutConflicts(r: Region, stamp: string)
    requires TopCount(r.mine) == 0 && TopCount(r.theirs) == 0
    ensures WithoutConflicts(Emit(r, stamp)) == MineFirst(r)
  {
    if r.theirs == r.base || r.mine == r.theirs || r.mine == r.base || r.theirs == [] {
      WithoutConflictsKeeps(r.mine);
      WithoutConflictsKeeps(r.theirs);
    } else if r.mine == [] {
      CalloutFlattens(r.theirs, stamp);
      WithoutOne(CalloutOf(r.theirs, stamp));
    } else {
      PairwiseWithoutConflicts(r.mine, r.theirs, stamp);
    }
  }

  function MineFirstEach(regions: seq<Region>): seq<seq<Block>> {
    seq(|regions|, k requires 0 <= k < |regions| => MineFirst(regions[k]))
  }

  lemma {:induction false} WeaveWithoutConflicts(a: seq<seq<Block>>, b: seq<seq<Block>>, agreed: seq<Block>, n: nat)
    requires |a| == |b| && n <= |agreed| && n <= |a| && TopCount(agreed) == 0
    requires forall k :: 0 <= k < |a| ==> WithoutConflicts(a[k]) == b[k]
    ensures WithoutConflicts(WeavePrefix(a, agreed, n)) == WeavePrefix(b, agreed, n)
  {
    if n > 0 {
      WeaveWithoutConflicts(a, b, agreed, n - 1);
      NoTopConflict(agreed);
      StepWithoutConflicts(WeavePrefix(a, agreed, n - 1), a[n - 1], agreed[n - 1]);
    }
  }

  lemma StepWithoutConflicts(front: seq<Block>, chunk: seq<Block>, agreed: Block)
    requires !IsConflict(agreed)
    ensures WithoutConflicts(front + chunk + [agreed]) == WithoutConflicts(front) + WithoutConflicts(chunk) + [agreed]
  {
    WithoutConflictsConcat(front, chunk);
    WithoutConflictsConcat(front + chunk, [agreed]);
    WithoutOne(agreed);
  }

  lemma GapHasNoConflict(al: Alignment, k: nat)
    requires Valid(al) && TopCount(al.mine) == 0 && TopCount(al.theirs) == 0 && k <= |al.anchors|
    ensures TopCount(Gap(al, k).mine) == 0 && TopCount(Gap(al, k).theirs) == 0
    ensures k < |al.anchors| ==> !IsConflict(Agreed(al)[k])
  {
    GapIsSlice(al, Mine, k);
    GapIsSlice(al, Theirs, k);
    NoTopConflict(al.mine);
    NoTopConflict(al.theirs);
    NoTopConflict(Gap(al, k).mine);
    NoTopConflict(Gap(al, k).theirs);
  }

  /**
   * For versions without unresolved conflicts, dropping every conflict of the merge gives, gap by gap, their
   * change where only they made one and mine everywhere else.
   */
  lemma MergeWithoutConflicts(al: Alignment, stamp: string)
    requires Valid(al) && TopCount(al.mine) == 0 && TopCount(al.theirs) == 0
    ensures WithoutConflicts(MergeAlong(al, stamp)) == Weave(MineFirstEach(Gaps(al)), Agreed(al))
  {
    var emitted, preferred, agreed := EmitEach(Gaps(al), stamp), MineFirstEach(Gaps(al)), Agreed(al);
    forall k: nat | k < |emitted| ensures WithoutConflicts(emitted[k]) == preferred[k] {
      GapHasNoConflict(al, k);
      RegionWithoutConflicts(Gap(al, k), stamp);
    }
    forall k: nat | k < |agreed| ensures !IsConflict(agreed[k]) {
      GapHasNoConflict(al, k);
    }
    NoTopConflict(agreed);
    WeaveWithoutConflicts(emitted, preferred, agreed, |agreed|);
    WithoutConflictsConcat(WeavePrefix(emitted, agreed, |agreed|), emitted[|agreed|]);
  }

  // ---------------------------------------------------------------- pairwise regions

  /** How many callouts the first `n` pairs show. */
  function Callouts(theirs: seq<Block>, n: nat): nat {
    if n <= |theirs| then n else |theirs|
  }

  lemma {:induction false} PairsAreShallow(mine: seq<Block>, theirs: seq<Block>, n: nat, stamp: string)
    requires n <= |mine| && TopCount(mine) == 0
    ensures Shallow(Pairs(mine, theirs, n, stamp))
    ensures TopCount(Pairs(mine, theirs, n, stamp)) == Callouts(theirs, n)
  {
    if n > 0 {
      PairsAreShallow(mine, theirs, n - 1, stamp);
      PairIsShallow(mine, theirs, n - 1, stamp);
      PairsUnfold(mine, theirs, n, stamp);
      AppendShallow(Pairs(mine, theirs, n - 1, stamp), Pair(mine, theirs, n - 1, stamp));
    }
  }

  lemma AppendShallow(a: seq<Block>, b: seq<Block>)
    requires Shallow(a) && Shallow(b)
    ensures Shallow(a + b) && TopCount(a + b) == TopCount(a) + TopCount(b)
  {
    ShallowConcat(a, b);
    TopCountConcat(a, b);
  }

  lemma PairCountsOne(local: Block, content: seq<Block>, stamp: string)
    requires !IsConflict(local)
    ensures Shallow([local, CalloutOf(content, stamp)]) && TopCount([local, CalloutOf(content, stamp)]) == 1
  {
    var callout := CalloutOf(content, stamp);
    CalloutFlattens(content, stamp);
    FlattenedHasNoConflict(content);
    CountCoversTop(Flatten(content));
    TopCountOne(local);
    TopCountOne(callout);
    TopCountConcat([local], [callout]);
    assert [local] + [callout] == [local, callout];
  }

  lemma PairIsShallow(mine: seq<Block>, theirs: seq<Block>, i: nat, stamp: string)
    requires i < |mine| && TopCount(mine) == 0
    ensures Shallow(Pair(mine, theirs, i, stamp))
    ensures TopCount(Pair(mine, theirs, i, stamp)) == if i < |theirs| then 1 else 0
  {
    NoTopConflict(mine);
    TopCountOne(mine[i]);
    if Counterpart(mine, theirs, i) != [] {
      PairCountsOne(mine[i], Counterpart(mine, theirs, i), stamp);
    }
  }

  /** The pairs of a divergent region from the `k`-th on. */
  function PairsFrom(mine: seq<Block>, theirs: seq<Block>, k: nat, stamp: string): seq<Block>
    requires k <= |mine|
    decreases |mine| - k
  {
    if k == |mine| then [] else Pair(mine, theirs, k, stamp) + PairsFrom(mine, theirs, k + 1, stamp)
  }

  lemma {:induction false} PairsSplit(mine: seq<Block>, theirs: seq<Block>, k: nat, stamp: string)
    requires k <= |mine|
    ensures Pairs(mine, theirs, k, stamp) + PairsFrom(mine, theirs, k, stamp) == Pairwise(mine, theirs, stamp)
    decreases |mine| - k
  {
    if k == |mine| {
      assert Pairs(mine, theirs, k, stamp) + [] == Pairs(mine, theirs, k, stamp);
    } else {
      PairsSplit(mine, theirs, k + 1, stamp);
      PairsUnfold(mine, theirs, k + 1, stamp);
      Associate(Pairs(mine, theirs, k, stamp), Pair(mine, theirs, k, stamp), PairsFrom(mine, theirs, k + 1, stamp));
    }
  }

  /** What keeping theirs makes of the pairs from the `k`-th on. */
  function TheirsFrom(mine: seq<Block>, theirs: seq<Block>, k: nat): seq<Block>
    requires k <= |mine|
  {
    if k == |mine| then []
    else if k >= |theirs| then mine[k..]
    else Flatten(theirs[k..]) + if |mine| <= |theirs| then [] else mine[|theirs|..]
  }

  /** Keeping theirs from the `k`-th pair on, between blocks without a conflict and whatever follows. */
  lemma {:induction false} ResolvePairsAsTheirs(front: seq<Block>, mine: seq<Block>, theirs: seq<Block>, k: nat,
                                                back: seq<Block>, stamp: string)
    requires k <= |mine| && TopCount(mine) == 0 && TopCount(front) == 0
    requires Shallow(front + (PairsFrom(mine, theirs, k, stamp) + back))
    ensures var next := front + TheirsFrom(mine, theirs, k);
      && TopCount(next) == 0 && Shallow(next + back)
      && ResolveAll(front + (PairsFrom(mine, theirs, k, stamp) + back), KeepTheirs) == ResolveAll(next + back, KeepTheirs)
    decreases |mine| - k
  {
    if k == |mine| || k >= |theirs| {
      NoPairsLeft(front, mine, theirs, k, stamp);
      Associate(front, PairsFrom(mine, theirs, k, stamp), back);
    } else {
      var content := Flatten(Counterpart(mine, theirs, k));
      ResolveOnePair(front, mine, theirs, k, back, stamp);
      ResolvePairsAsTheirs(front + content, mine, theirs, k + 1, back, stamp);
      TheirsStep(mine, theirs, k);
      Associate(front, content, TheirsFrom(mine, theirs, k + 1));
    }
  }

  lemma NoPairsLeft(front: seq<Block>, mine: seq<Block>, theirs: seq<Block>, k: nat, stamp: string)
    requires k <= |mine| && (k == |mine| || k >= |theirs|) && TopCount(mine) == 0 && TopCount(front) == 0
    ensures PairsFrom(mine, theirs, k, stamp) == TheirsFrom(mine, theirs, k)
    ensures TopCount(front + TheirsFrom(mine, theirs, k)) == 0
  {
    assert mine[|mine|..] == [];
    if k < |mine| {
      LocalOnly(mine, theirs, k, stamp);
    }
    NoTopConflict(mine);
    NoTopConflict(mine[k..]);
    TopCountConcat(front, mine[k..]);
  }

  lemma {:induction false} LocalOnly(mine: seq<Block>, theirs: seq<Block>, k: nat, stamp: string)
    requires |theirs| <= k <= |mine|
    ensures PairsFrom(mine, theirs, k, stamp) == mine[k..]
    decreases |mine| - k
  {
    if k < |mine| {
      LocalOnly(mine, theirs, k + 1, stamp);
    }
  }

  lemma TheirsStep(mine: seq<Block>, theirs: seq<Block>, k: nat)
    requires k < |mine| && k < |theirs|
    ensures Flatten(Counterpart(mine, theirs, k)) + TheirsFrom(mine, theirs, k + 1) == TheirsFrom(mine, theirs, k)
  {
    var content := Counterpart(mine, theirs, k);
    if k + 1 == |mine| {
      assert content == theirs[k..];
    } else {
      assert theirs[k..] == content + theirs[k + 1..];
      FlattenConcat(content, theirs[k + 1..]);
      if k + 1 == |theirs| {
        assert theirs[k + 1..] == [];
      } else {
        var rest := if |mine| <= |theirs| then [] else mine[|theirs|..];
        assert Flatten(content) + (Flatten(theirs[k + 1..]) + rest) == Flatten(content) + Flatten(theirs[k + 1..]) + rest;
      }
    }
  }

  /** Keeping theirs on the first pair replaces the local block and its callout by what the callout wraps. */
  lemma ResolveOnePair(front: seq<Block>, mine: seq<Block>, theirs: seq<Block>, k: nat, back: seq<Block>, stamp: string)
    requires k < |mine| && k < |theirs| && TopCount(mine) == 0 && TopCount(front) == 0
    requires Shallow(front + (PairsFrom(mine, theirs, k, stamp) + back))
    ensures var next := front + Flatten(Counterpart(mine, theirs, k));
      && TopCount(next) == 0
      && Shallow(next + (PairsFrom(mine, theirs, k + 1, stamp) + back))
      && ResolveAll(front + (PairsFrom(mine, theirs, k, stamp) + back), KeepTheirs)
         == ResolveAll(next + (PairsFrom(mine, theirs, k + 1, stamp) + back), KeepTheirs)
  {
    var content := Counterpart(mine, theirs, k);
    var more := PairsFrom(mine, theirs, k + 1, stamp) + back;
    var blocks := front + (PairsFrom(mine, theirs, k, stamp) + back);
    NoTopConflict(mine);
    assert blocks == front + [mine[k], CalloutOf(content, stamp)] + more;
    FirstPairIsFirst(front, mine[k], content, more, stamp);
    ResolveStaysShallow(blocks, |front| + 1, KeepTheirs);
    FlattenedHasNoConflict(content);
    CountCoversTop(Flatten(content));
    TopCountConcat(front, Flatten(content));
  }

  lemma KeepTheirsOfPair(front: seq<Block>, local: Block, callout: Block, back: seq<Block>)
    requires IsConflict(callout) && !IsConflict(local)
    ensures Resolve(front + [local, callout] + back, |front| + 1, KeepTheirs) == front + callout.kind.body + back
  {
    var blocks := front + [local, callout] + back;
    assert blocks[|front| + 1] == callout && blocks[|front|] == local;
    assert blocks[..|front|] == front && blocks[|front| + 2..] == back;
  }

  lemma FirstPairIsFirst(front: seq<Block>, local: Block, content: seq<Block>, back: seq<Block>, stamp: string)
    requires TopCount(front) == 0 && !IsConflict(local)
    ensures var blocks := front + [local, CalloutOf(content, stamp)] + back;
      && IsConflict(blocks[|front| + 1]) && Nth(blocks, 0) == Some(|front| + 1)
      && Resolve(blocks, |front| + 1, KeepTheirs) == front + Flatten(content) + back
  {
    var callout := CalloutOf(content, stamp);
    CalloutFlattens(content, stamp);
    TopCountOne(local);
    TopCountConcat(front, [local]);
    FirstConflict(front + [local], callout, back);
    PairBehindFront(front, local, callout, back);
    KeepTheirsOfPair(front, local, callout, back);
  }

  lemma PairBehindFront(front: seq<Block>, local: Block, callout: Block, back: seq<Block>)
    ensures front + [local, callout] + back == front + [local] + [callout] + back
    ensures (front + [local, callout] + back)[|front| + 1] == callout
  {
    assert [local, callout] == [local] + [callout];
  }

  /** Every conflict is the callout of a pair, in its place. */
  predicate CalloutsInPlace(blocks: seq<Block>, mine: seq<Block>, theirs: seq<Block>, stamp: string) {
    forall i: nat | i < |blocks| :: IsConflict(blocks[i]) ==> BehindLocal(blocks, i, mine, theirs, stamp)
  }

  /** With `k` conflicts in front, block `i` is the callout for the local block `k`, which stands right before it. */
  predicate BehindLocal(blocks: seq<Block>, i: nat, mine: seq<Block>, theirs: seq<Block>, stamp: string)
    requires i < |blocks|
  {
    var k := TopCount(blocks[..i]);
    && 0 < i && k < |mine|
    && blocks[i - 1] == mine[k] && blocks[i] == CalloutOf(Counterpart(mine, theirs, k), stamp)
  }

  lemma BehindLocalInPrefix(a: seq<Block>, b: seq<Block>, i: nat, mine: seq<Block>, theirs: seq<Block>, stamp: string)
    requires i < |a|
    ensures BehindLocal(a + b, i, mine, theirs, stamp) <==> BehindLocal(a, i, mine, theirs, stamp)
  {
    assert (a + b)[..i] == a[..i];
  }

  /** A pair behind others that show `k` callouts: its callout is the next one, behind its local block. */
  lemma PairInPlace(front: seq<Block>, mine: seq<Block>, theirs: seq<Block>, k: nat, i: nat, stamp: string)
    requires k < |mine| && !IsConflict(mine[k]) && TopCount(front) == Callouts(theirs, k)
    requires |front| <= i < |front + Pair(mine, theirs, k, stamp)| && IsConflict((front + Pair(mine, theirs, k, stamp))[i])
    ensures BehindLocal(front + Pair(mine, theirs, k, stamp), i, mine, theirs, stamp)
  {
    var blocks := front + Pair(mine, theirs, k, stamp);
    assert blocks[i] == Pair(mine, theirs, k, stamp)[i - |front|];
    assert blocks[..i] == front + [mine[k]];
    TopCountOne(mine[k]);
    TopCountConcat(front, [mine[k]]);
  }

  lemma {:induction false} PairsInPlace(mine: seq<Block>, theirs: seq<Block>, n: nat, stamp: string)
    requires n <= |mine| && TopCount(mine) == 0
    ensures CalloutsInPlace(Pairs(mine, theirs, n, stamp), mine, theirs, stamp)
  {
    if n > 0 {
      var front, pair := Pairs(mine, theirs, n - 1, stamp), Pair(mine, theirs, n - 1, stamp);
      PairsInPlace(mine, theirs, n - 1, stamp);
      PairsAreShallow(mine, theirs, n - 1, stamp);
      PairsUnfold(mine, theirs, n, stamp);
      NoTopConflict(mine);
      forall i: nat | i < |front + pair| && IsConflict((front + pair)[i])
        ensures BehindLocal(front + pair, i, mine, theirs, stamp)
      {
        if i < |front| {
          BehindLocalInPrefix(front, pair, i, mine, theirs, stamp);
        } else {
          PairInPlace(front, mine, theirs, n - 1, i, stamp);
        }
      }
    }
  }

  /**
   * A divergent region whose local blocks carry no conflict: it shows one callout per pair of blocks, the `k`-th with
   * the counterpart of the local block `k` and right behind it; keeping mine everywhere gives mine back, and keeping
   * theirs gives theirs, flattened, followed by the local blocks that had no counterpart.
   */
  lemma PairwiseResolves(mine: seq<Block>, theirs: seq<Block>, stamp: string)
    requires mine != [] && TopCount(mine) == 0
    ensures Shallow(Pairwise(mine, theirs, stamp))
    ensures TopCount(Pairwise(mine, theirs, stamp)) == if |mine| <= |theirs| then |mine| else |theirs|
    ensures CalloutsInPlace(Pairwise(mine, theirs, stamp), mine, theirs, stamp)
    ensures ResolveAll(Pairwise(mine, theirs, stamp), KeepMine) == mine
    ensures ResolveAll(Pairwise(mine, theirs, stamp), KeepTheirs)
         == Flatten(theirs) + if |mine| <= |theirs| then [] else mine[|theirs|..]
  {
    PairsAreShallow(mine, theirs, |mine|, stamp);
    PairsInPlace(mine, theirs, |mine|, stamp);
    ResolveAllMine(Pairwise(mine, theirs, stamp));
    PairwiseWithoutConflicts(mine, theirs, stamp);
    PairwiseAsTheirs(mine, theirs, stamp);
  }

  lemma PairwiseAsTheirs(mine: seq<Block>, theirs: seq<Block>, stamp: string)
    requires mine != [] && TopCount(mine) == 0 && Shallow(Pairwise(mine, theirs, stamp))
    ensures ResolveAll(Pairwise(mine, theirs, stamp), KeepTheirs)
         == Flatten(theirs) + if |mine| <= |theirs| then [] else mine[|theirs|..]
  {
    PairsSplit(mine, theirs, 0, stamp);
    var taken := TheirsFrom(mine, theirs, 0);
    assert [] + (PairsFrom(mine, theirs, 0, stamp) + []) == Pairwise(mine, theirs, stamp);
    ResolvePairsAsTheirs([], mine, theirs, 0, [], stamp);
    TheirsFromStart(mine, theirs);
    assert [] + taken == taken && taken + [] == taken;
    NothingToResolve(taken);
  }

  lemma TheirsFromStart(mine: seq<Block>, theirs: seq<Block>)
    requires mine != []
    ensures TheirsFrom(mine, theirs, 0) == Flatten(theirs) + if |mine| <= |theirs| then [] else mine[|theirs|..]
  {
    assert theirs[0..] == theirs;
    if theirs == [] {
      assert mine[0..] == [] + mine[0..];
    }
  }
}
