/** Where keeping theirs everywhere leads, for a whole merge (crates/mb-core/src/conflict.rs). */
module Resolved {
  import opened Strings
  import opened Model
  import opened Conflict
  import opened Merge
  import opened Survival
  import opened Standalone

  // ---------------------------------------------------------------- what keeping theirs takes

  /** The part of a region that keeping theirs takes: of what both changed, theirs and my blocks without a counterpart. */
  function TheirsFirst(r: Region): seq<Block> {
    if r.theirs == r.base || r.mine == r.theirs then r.mine
    else if r.mine == r.base then r.theirs
    else if r.theirs == [] then r.mine
    else Flatten(r.theirs) + if |r.mine| <= |r.theirs| then [] else r.mine[|r.theirs|..]
  }

  /** An agreed block, unless a callout without a local block takes its place. */
  function KeptBefore(r: Region, agreed: seq<Block>): seq<Block> {
    if StandsAlone(r) then [] else agreed
  }

  /** Gap by gap, from the `k`-th on, with the agreed blocks that are kept between. */
  function TakenFrom(regions: seq<Region>, agreed: seq<Block>, k: nat): seq<Block>
    requires k < |regions| == |agreed| + 1
    decreases |agreed| - k
  {
    if k == |agreed| then TheirsFirst(regions[k])
    else TheirsFirst(regions[k]) + KeptBefore(regions[k + 1], [agreed[k]]) + TakenFrom(regions, agreed, k + 1)
  }

  /** What a merge shows from gap `k` on. */
  function ShownFrom(regions: seq<Region>, agreed: seq<Block>, k: nat, stamp: string): seq<Block>
    requires k < |regions| == |agreed| + 1
    decreases |agreed| - k
  {
    if k == |agreed| then Emit(regions[k], stamp)
    else Emit(regions[k], stamp) + ([agreed[k]] + ShownFrom(regions, agreed, k + 1, stamp))
  }

  predicate ConflictFree(r: Region) {
    TopCount(r.mine) == 0 && TopCount(r.theirs) == 0
  }

  // ---------------------------------------------------------------- one gap

  lemma FlattenedIsFree(blocks: seq<Block>)
    ensures TopCount(Flatten(blocks)) == 0
  {
    FlattenedHasNoConflict(blocks);
    CountCoversTop(Flatten(blocks));
  }

  lemma AloneTakes(r: Region)
    requires StandsAlone(r)
    ensures TheirsFirst(r) == Flatten(r.theirs)
  {
    assert Flatten(r.theirs) + [] == Flatten(r.theirs);
  }

  /** A callout behind at most one ordinary block: the block goes with it, if there is one. */
  lemma ResolveAlone(front: seq<Block>, local: seq<Block>, content: seq<Block>, back: seq<Block>, stamp: string)
    requires |local| <= 1 && (local == [] ==> front == []) && TopCount(front) == 0 && TopCount(local) == 0
    requires Shallow(front + local + ([CalloutOf(content, stamp)] + back))
    ensures var blocks, next := front + local + ([CalloutOf(content, stamp)] + back), front + Flatten(content);
      && TopCount(next) == 0 && Shallow(next + back)
      && ResolveAll(blocks, KeepTheirs) == ResolveAll(next + back, KeepTheirs)
  {
    var callout := CalloutOf(content, stamp);
    var blocks := front + local + ([callout] + back);
    CalloutFlattens(content, stamp);
    FlattenedIsFree(content);
    TopCountConcat(front, local);
    TopCountConcat(front, Flatten(content));
    Associate(front + local, [callout], back);
    FirstConflict(front + local, callout, back);
    AloneResolves(front, local, callout, back);
    ResolveStaysShallow(blocks, |front + local|, KeepTheirs);
  }

  lemma AloneResolves(front: seq<Block>, local: seq<Block>, callout: Block, back: seq<Block>)
    requires |local| <= 1 && (local == [] ==> front == []) && TopCount(local) == 0 && IsConflict(callout)
    ensures var blocks := front + local + ([callout] + back);
      Resolve(blocks, |front + local|, KeepTheirs) == front + callout.kind.body + back
  {
    var blocks := front + local + ([callout] + back);
    var i := |front + local|;
    NoTopConflict(local);
    assert blocks[i] == callout && blocks[i + 1..] == back;
    if local != [] {
      assert blocks[i - 1] == local[0];
    }
    assert blocks[..|front|] == front;
  }

  lemma QuietRegion(r: Region, stamp: string)
    requires ConflictFree(r)
    requires r.theirs == r.base || r.mine == r.theirs || r.mine == r.base || r.theirs == []
    ensures Emit(r, stamp) == TheirsFirst(r) && TopCount(TheirsFirst(r)) == 0
  {
  }

  lemma LoudRegion(r: Region, stamp: string)
    requires ConflictFree(r) && !StandsAlone(r)
    requires r.theirs != r.base && r.mine != r.theirs && r.mine != r.base && r.theirs != []
    ensures r.mine != [] && Emit(r, stamp) == PairsFrom(r.mine, r.theirs, 0, stamp)
    ensures TheirsFirst(r) == TheirsFrom(r.mine, r.theirs, 0)
  {
    PairsSplit(r.mine, r.theirs, 0, stamp);
    assert [] + PairsFrom(r.mine, r.theirs, 0, stamp) == PairsFrom(r.mine, r.theirs, 0, stamp);
    TheirsFromStart(r.mine, r.theirs);
  }

  /** Resolving the conflicts of one gap, between what is resolved already and what follows. */
  lemma ResolveGap(front: seq<Block>, local: seq<Block>, r: Region, back: seq<Block>, stamp: string)
    requires |local| <= 1 && (local == [] ==> front == []) && TopCount(front) == 0 && TopCount(local) == 0
    requires ConflictFree(r) && Shallow(front + local + (Emit(r, stamp) + back))
    ensures var next := front + KeptBefore(r, local) + TheirsFirst(r);
      && TopCount(next) == 0 && Shallow(next + back)
      && ResolveAll(front + local + (Emit(r, stamp) + back), KeepTheirs) == ResolveAll(next + back, KeepTheirs)
  {
    TopCountConcat(front, local);
    if StandsAlone(r) {
      AloneTakes(r);
      ResolveAlone(front, local, r.theirs, back, stamp);
      assert front + [] == front;
    } else if r.theirs == r.base || r.mine == r.theirs || r.mine == r.base || r.theirs == [] {
      QuietRegion(r, stamp);
      TopCountConcat(front + local, TheirsFirst(r));
      Associate(front + local, Emit(r, stamp), back);
    } else {
      LoudRegion(r, stamp);
      ResolvePairsAsTheirs(front + local, r.mine, r.theirs, 0, back, stamp);
    }
  }

  // ---------------------------------------------------------------- the whole merge

  lemma EmitIsShallow(r: Region, stamp: string)
    requires ConflictFree(r)
    ensures Shallow(Emit(r, stamp))
  {
    if r.theirs == r.base || r.mine == r.theirs || r.mine == r.base || r.theirs == [] {
      NoTopConflict(r.mine);
      NoTopConflict(r.theirs);
    } else if r.mine == [] {
      FlattenedIsFree(r.theirs);
    } else {
      PairsAreShallow(r.mine, r.theirs, |r.mine|, stamp);
    }
  }

  lemma {:induction false} ShownIsShallow(regions: seq<Region>, agreed: seq<Block>, k: nat, stamp: string)
    requires k < |regions| == |agreed| + 1 && TopCount(agreed) == 0 && forall r :: r in regions ==> ConflictFree(r)
    ensures Shallow(ShownFrom(regions, agreed, k, stamp))
    decreases |agreed| - k
  {
    EmitIsShallow(regions[k], stamp);
    if k < |agreed| {
      NoTopConflict(agreed);
      ShownIsShallow(regions, agreed, k + 1, stamp);
      ShallowConcat([agreed[k]], ShownFrom(regions, agreed, k + 1, stamp));
      ShallowConcat(Emit(regions[k], stamp), [agreed[k]] + ShownFrom(regions, agreed, k + 1, stamp));
    }
  }

  lemma {:induction false} ResolveShown(front: seq<Block>, local: seq<Block>, regions: seq<Region>, agreed: seq<Block>,
                                        k: nat, stamp: string)
    requires k < |regions| == |agreed| + 1 && TopCount(agreed) == 0 && forall r :: r in regions ==> ConflictFree(r)
    requires |local| <= 1 && (local == [] ==> front == []) && TopCount(front) == 0 && TopCount(local) == 0
    requires Shallow(front + local + ShownFrom(regions, agreed, k, stamp))
    ensures ResolveAll(front + local + ShownFrom(regions, agreed, k, stamp), KeepTheirs)
         == front + KeptBefore(regions[k], local) + TakenFrom(regions, agreed, k)
    decreases |agreed| - k
  {
    var r := regions[k];
    var next := front + KeptBefore(r, local) + TheirsFirst(r);
    if k == |agreed| {
      assert Emit(r, stamp) + [] == Emit(r, stamp);
      ResolveGap(front, local, r, [], stamp);
      assert next + [] == next;
      NothingToResolve(next);
    } else {
      var agreedNext, more := [agreed[k]], ShownFrom(regions, agreed, k + 1, stamp);
      NoTopConflict(agreed);
      TopCountOne(agreed[k]);
      ResolveGap(front, local, r, agreedNext + more, stamp);
      Associate(next, agreedNext, more);
      ResolveShown(next, agreedNext, regions, agreed, k + 1, stamp);
      TakenStep(front + KeptBefore(r, local), TheirsFirst(r), KeptBefore(regions[k + 1], agreedNext),
                TakenFrom(regions, agreed, k + 1));
    }
  }

  lemma TakenStep(a: seq<Block>, b: seq<Block>, c: seq<Block>, d: seq<Block>)
    ensures a + b + c + d == a + (b + c + d)
  {
  }

  lemma {:induction false} ShownIsWoven(al: Alignment, k: nat, stamp: string)
    requires Valid(al) && k <= |al.anchors|
    ensures Merged(al, k, stamp) + ShownFrom(Gaps(al), Agreed(al), k, stamp) == MergeAlong(al, stamp)
    decreases |al.anchors| - k
  {
    if k == |al.anchors| {
      MergedEnds(al, stamp);
    } else {
      ShownIsWoven(al, k + 1, stamp);
      MergedSteps(al, k, stamp);
      ShownStep(Merged(al, k, stamp), Emit(Gap(al, k), stamp), [Agreed(al)[k]], ShownFrom(Gaps(al), Agreed(al), k + 1, stamp));
    }
  }

  lemma ShownStep(a: seq<Block>, b: seq<Block>, c: seq<Block>, d: seq<Block>)
    ensures a + b + c + d == a + (b + (c + d))
  {
  }

  lemma GapsAreConflictFree(al: Alignment)
    requires Valid(al) && TopCount(al.mine) == 0 && TopCount(al.theirs) == 0
    ensures TopCount(Agreed(al)) == 0 && forall r :: r in Gaps(al) ==> ConflictFree(r)
  {
    forall k: nat | k < |Gaps(al)| ensures ConflictFree(Gaps(al)[k]) {
      GapHasNoConflict(al, k);
    }
    forall k: nat | k < |Agreed(al)| ensures !IsConflict(Agreed(al)[k]) {
      GapHasNoConflict(al, k);
    }
    NoTopConflict(Agreed(al));
  }

  /**
   * For versions without unresolved conflicts, keeping theirs everywhere gives, gap by gap, my change where only I
   * made one, theirs where only they did, and theirs followed by my surplus blocks where both did; and all agreed
   * blocks but those right in front of a callout that stands alone.
   */
  lemma MergeAsTheirs(al: Alignment, stamp: string)
    requires Valid(al) && TopCount(al.mine) == 0 && TopCount(al.theirs) == 0
    ensures Shallow(MergeAlong(al, stamp))
    ensures ResolveAll(MergeAlong(al, stamp), KeepTheirs) == TakenFrom(Gaps(al), Agreed(al), 0)
  {
    var shown := ShownFrom(Gaps(al), Agreed(al), 0, stamp);
    GapsAreConflictFree(al);
    ShownIsWoven(al, 0, stamp);
    ShownIsShallow(Gaps(al), Agreed(al), 0, stamp);
    assert [] + shown == shown && [] + [] + shown == shown;
    ResolveShown([], [], Gaps(al), Agreed(al), 0, stamp);
    assert [] + KeptBefore(Gaps(al)[0], []) + TakenFrom(Gaps(al), Agreed(al), 0) == TakenFrom(Gaps(al), Agreed(al), 0);
  }

  function TheirsFirstEach(regions: seq<Region>): seq<seq<Block>> {
    seq(|regions|, k requires 0 <= k < |regions| => TheirsFirst(regions[k]))
  }

  lemma {:induction false} TakenIsWoven(regions: seq<Region>, agreed: seq<Block>, k: nat)
    requires k < |regions| == |agreed| + 1 && forall i :: 0 < i < |regions| ==> !StandsAlone(regions[i])
    ensures WeavePrefix(TheirsFirstEach(regions), agreed, k) + TakenFrom(regions, agreed, k)
         == Weave(TheirsFirstEach(regions), agreed)
    decreases |agreed| - k
  {
    if k < |agreed| {
      TakenIsWoven(regions, agreed, k + 1);
      TakenStep(WeavePrefix(TheirsFirstEach(regions), agreed, k), TheirsFirst(regions[k]), [agreed[k]],
                TakenFrom(regions, agreed, k + 1));
    }
  }

  /** Where no callout stands alone behind an agreed block, every agreed block is kept. */
  lemma MergeAsTheirsKeepsAgreed(al: Alignment, stamp: string)
    requires Valid(al) && TopCount(al.mine) == 0 && TopCount(al.theirs) == 0
    requires forall k :: 0 < k <= |al.anchors| ==> !StandsAlone(Gap(al, k))
    ensures Shallow(MergeAlong(al, stamp))
    ensures ResolveAll(MergeAlong(al, stamp), KeepTheirs) == Weave(TheirsFirstEach(Gaps(al)), Agreed(al))
  {
    MergeAsTheirs(al, stamp);
    TakenIsWoven(Gaps(al), Agreed(al), 0);
    assert [] + TakenFrom(Gaps(al), Agreed(al), 0) == TakenFrom(Gaps(al), Agreed(al), 0);
  }

  // ---------------------------------------------------------------- keeping both

  /** A note with every unresolved conflict replaced by what it wraps. */
  function Unwrapped(blocks: seq<Block>): seq<Block> {
    if blocks == [] then []
    else Unwrapped(Init(blocks)) + if IsConflict(Last(blocks)) then Last(blocks).kind.body else [Last(blocks)]
  }

  lemma {:induction false} UnwrappedConcat(a: seq<Block>, b: seq<Block>)
    ensures Unwrapped(a + b) == Unwrapped(a) + Unwrapped(b)
  {
    if b == [] {
      assert a + b == a;
    } else {
      InitOfConcat(a, b);
      UnwrappedConcat(a, Init(b));
    }
  }

  lemma {:induction false} UnwrappedKeeps(blocks: seq<Block>)
    requires TopCount(blocks) == 0
    ensures Unwrapped(blocks) == blocks
  {
    if blocks != [] {
      UnwrappedKeeps(Init(blocks));
      InitLast(blocks);
    }
  }

  lemma UnwrapMiddle(front: seq<Block>, callout: Block, back: seq<Block>)
    requires IsConflict(callout) && TopCount(callout.kind.body) == 0
    ensures Unwrapped(front + [callout] + back) == Unwrapped(front + callout.kind.body + back)
  {
    var body := callout.kind.body;
    UnwrappedConcat(front + [callout], back);
    UnwrappedConcat(front, [callout]);
    UnwrappedConcat(front + body, back);
    UnwrappedConcat(front, body);
    UnwrappedKeeps(body);
    UnwrappedOne(callout);
  }

  lemma UnwrappedOne(callout: Block)
    requires IsConflict(callout)
    ensures Unwrapped([callout]) == callout.kind.body
  {
    assert Init([callout]) == [] && [] + callout.kind.body == callout.kind.body;
  }

  lemma AroundConflict(blocks: seq<Block>, i: nat) returns (front: seq<Block>, callout: Block, back: seq<Block>)
    requires Shallow(blocks) && i < |blocks| && IsConflict(blocks[i])
    ensures blocks == front + [callout] + back && IsConflict(callout) && TopCount(callout.kind.body) == 0
    ensures Resolve(blocks, i, KeepBoth) == front + callout.kind.body + back
  {
    front, callout, back := blocks[..i], blocks[i], blocks[i + 1..];
  }

  lemma UnwrapOne(blocks: seq<Block>, i: nat)
    requires Shallow(blocks) && i < |blocks| && IsConflict(blocks[i])
    ensures Unwrapped(Resolve(blocks, i, KeepBoth)) == Unwrapped(blocks)
  {
    var front, callout, back := AroundConflict(blocks, i);
    UnwrapMiddle(front, callout, back);
  }

  /** Resolving every conflict by keeping both puts what it wraps in its place, behind the local block. */
  lemma {:induction false} ResolveAllBoth(blocks: seq<Block>)
    requires Shallow(blocks)
    ensures ResolveAll(blocks, KeepBoth) == Unwrapped(blocks)
    decreases TopCount(blocks)
  {
    NthExists(blocks, 0);
    match Nth(blocks, 0)
    case None => UnwrappedKeeps(blocks);
    case Some(i) =>
      NthFinds(blocks, 0, i);
      ResolveStaysShallow(blocks, i, KeepBoth);
      UnwrapOne(blocks, i);
      ResolveAllBoth(Resolve(blocks, i, KeepBoth));
  }
}
