/**
 * Callouts that a merge puts where the local blocks were deleted, and what resolving them drops
 * (`push_region`, `local_version` and `resolve` in crates/mb-core/src/conflict.rs).
 */
module Standalone {
  import opened Strings
  import opened Model
  import opened Lcs
  import opened Conflict
  import opened Merge
  import opened Survival

  /** I deleted what they changed: the gap shows a callout without a local block. */
  predicate StandsAlone(r: Region) {
    r.mine == [] && r.base != [] && r.theirs != [] && r.theirs != r.base
  }

  lemma PrefixGrows<T>(a: seq<T>, b: seq<T>, c: seq<T>, d: seq<T>)
    requires a <= b
    ensures a <= b + c + d
  {
  }

  lemma {:induction false} MergedGrows(al: Alignment, k: nat, n: nat, stamp: string)
    requires Valid(al) && k < n <= |al.anchors|
    ensures Merged(al, k, stamp) + Emit(Gap(al, k), stamp) <= Merged(al, n, stamp)
  {
    MergedSteps(al, n - 1, stamp);
    var agreed := [al.mine[al.anchors[n - 1].mine]];
    if k < n - 1 {
      MergedGrows(al, k, n - 1, stamp);
      PrefixGrows(Merged(al, k, stamp) + Emit(Gap(al, k), stamp), Merged(al, n - 1, stamp), Emit(Gap(al, n - 1), stamp), agreed);
    } else {
      Associate(Merged(al, k, stamp), Emit(Gap(al, k), stamp), agreed);
    }
  }

  /** Gap `k` shows what it emits right behind what was merged in front of it. */
  lemma MergeShowsGap(al: Alignment, k: nat, stamp: string)
    requires Valid(al) && k <= |al.anchors|
    ensures Merged(al, k, stamp) + Emit(Gap(al, k), stamp) <= MergeAlong(al, stamp)
  {
    MergedEnds(al, stamp);
    if k < |al.anchors| {
      MergedGrows(al, k, |al.anchors|, stamp);
    }
  }

  lemma AgreedIsInFront(al: Alignment, k: nat, stamp: string)
    requires Valid(al) && 0 < k <= |al.anchors|
    ensures Merged(al, k, stamp) != [] && Last(Merged(al, k, stamp)) == Agreed(al)[k - 1]
  {
    MergedSteps(al, k - 1, stamp);
  }

  /** The callout of a gap stands right behind the block all versions agree on in front of the gap. */
  lemma StandaloneIsShown(al: Alignment, k: nat, stamp: string)
    requires Valid(al) && k <= |al.anchors| && StandsAlone(Gap(al, k))
    ensures var merged, at := MergeAlong(al, stamp), |Merged(al, k, stamp)|;
      && at < |merged| && merged[at] == CalloutOf(Gap(al, k).theirs, stamp) && IsConflict(merged[at])
      && (at > 0 <==> k > 0) && (k > 0 ==> merged[at - 1] == Agreed(al)[k - 1])
  {
    MergeShowsGap(al, k, stamp);
    var front := Merged(al, k, stamp);
    var shown := front + [CalloutOf(Gap(al, k).theirs, stamp)];
    assert Emit(Gap(al, k), stamp) == [CalloutOf(Gap(al, k).theirs, stamp)];
    assert shown[|front|] == MergeAlong(al, stamp)[|front|];
    CalloutFlattens(Gap(al, k).theirs, stamp);
    if k > 0 {
      AgreedIsInFront(al, k, stamp);
      assert shown[|front| - 1] == MergeAlong(al, stamp)[|front| - 1];
    }
  }

  /**
   * What keeping theirs makes of such a callout: the block all versions agree on goes, unless there is none in
   * front of the gap or it is a conflict itself. Exactly then it is the same as keeping both.
   */
  lemma StandaloneDropsAgreed(al: Alignment, k: nat, stamp: string)
    requires Valid(al) && k <= |al.anchors| && StandsAlone(Gap(al, k))
    ensures var merged, at := MergeAlong(al, stamp), |Merged(al, k, stamp)|;
      var harmless := k == 0 || IsConflict(Agreed(al)[k - 1]);
      && at < |merged| && (at > 0 <==> k > 0)
      && (k > 0 ==> merged[at - 1] == Agreed(al)[k - 1])
      && Resolve(merged, at, KeepTheirs)
         == merged[..if harmless then at else at - 1] + Flatten(Gap(al, k).theirs) + merged[at + 1..]
      && (Resolve(merged, at, KeepTheirs) == Resolve(merged, at, KeepBoth) <==> harmless)
  {
    StandaloneIsShown(al, k, stamp);
    KeepTheirsIsKeepBothIff(MergeAlong(al, stamp), |Merged(al, k, stamp)|);
  }

  lemma SharedFirst(a: Block, x: seq<Block>, y: seq<Block>)
    requires |x| <= 1 && |y| <= 1 && (x == [] || y == [] || x[0] != y[0])
    ensures Matches([a] + x, [a] + y) == [(0, 0)]
  {
    var s, t := [a] + x, [a] + y;
    assert Trace(s, t, 0, 0) == [(0, 0)] + Trace(s, t, 1, 1);
    if |x| == 1 && |y| == 1 {
      assert s[1] == x[0] && t[1] == y[0];
      assert Trace(s, t, 2, 1) == [] && Trace(s, t, 1, 2) == [];
    }
  }

  lemma OneAnchor(a: Block, b: Block, c: Block)
    requires b != c
    ensures Anchors([a, b], [a], [a, c]) == [Anchor(0, 0, 0)]
  {
    SharedFirst(a, [b], []);
    SharedFirst(a, [b], [c]);
    assert [a] + [b] == [a, b] && [a] + [c] == [a, c] && [a] + [] == [a];
    assert Init([(0, 0)]) == [];
  }

  lemma OneGapEach(a: Block, b: Block, c: Block)
    requires b != c
    ensures var al := ThreeWay([a, b], [a], [a, c]);
      al.anchors == [Anchor(0, 0, 0)] && Gap(al, 0) == Region([], [], []) && Gap(al, 1) == Region([b], [], [c])
  {
    OneAnchor(a, b, c);
  }

  lemma DeletedMerge(a: Block, b: Block, c: Block, stamp: string)
    requires b != c
    ensures MergeThreeWay([a, b], [a], [a, c], stamp) == [a, CalloutOf([c], stamp)]
  {
    var al := ThreeWay([a, b], [a], [a, c]);
    OneGapEach(a, b, c);
    assert Emit(Gap(al, 0), stamp) == [] && Emit(Gap(al, 1), stamp) == [CalloutOf([c], stamp)];
    MergedSteps(al, 0, stamp);
    assert Merged(al, 0, stamp) == [];
    MergedEnds(al, stamp);
  }

  lemma ResolveSecond(blocks: seq<Block>)
    requires |blocks| == 2 && !IsConflict(blocks[0]) && IsConflict(blocks[1])
    ensures Resolve(blocks, 1, KeepTheirs) == blocks[1].kind.body
    ensures Resolve(blocks, 1, KeepBoth) == [blocks[0]] + blocks[1].kind.body
  {
    assert blocks[..0] == [] && blocks[..1] == [blocks[0]] && blocks[2..] == [];
  }

  /** I deleted the block they changed: the merge shows a callout, and keeping theirs drops the block before it. */
  lemma KeepTheirsDropsAgreed(a: Block, b: Block, c: Block, stamp: string)
    requires b != c && !IsConflict(a)
    ensures MergeThreeWay([a, b], [a], [a, c], stamp) == [a, CalloutOf([c], stamp)]
    ensures Resolve([a, CalloutOf([c], stamp)], 1, KeepTheirs) == Flatten([c])
    ensures Resolve([a, CalloutOf([c], stamp)], 1, KeepBoth) == [a] + Flatten([c])
  {
    DeletedMerge(a, b, c, stamp);
    CalloutFlattens([c], stamp);
    ResolveSecond([a, CalloutOf([c], stamp)]);
  }
}
