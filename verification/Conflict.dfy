/**
 * Conflict callouts: counting, addressing and resolving them (`count_blocks`, `nth`, `resolve`, `local_version`,
 * `callout` and `flatten_conflicts` in crates/mb-core/src/conflict.rs).
 */
module Conflict {
  import opened Strings
  import opened Model

  predicate EqIgnoreAsciiCase(a: string, b: string) {
    |a| == |b| && forall i :: 0 <= i < |a| ==> LowerChar(a[i]) == LowerChar(b[i])
  }

  const CONFLICT_KIND := "conflict"
  const TITLE_PREFIX := "Conflicting version — external edit, "

  predicate IsConflict(b: Block) {
    b.kind.Callout? && EqIgnoreAsciiCase(b.kind.kind, CONFLICT_KIND)
  }

  // ---------------------------------------------------------------- flattening

  /** `flatten_conflicts`: every conflict callout, at any depth, replaced by the blocks it wraps. */
  function Flatten(blocks: seq<Block>): seq<Block>
    decreases blocks
  {
    if blocks == [] then [] else Flatten(Init(blocks)) + FlattenBlock(Last(blocks))
  }

  function FlattenBlock(b: Block): seq<Block>
    decreases b
  {
    match b.kind
    case Callout(kind, fold, title, body) =>
      if IsConflict(b) then Flatten(body) else [b.(kind := Callout(kind, fold, title, Flatten(body)))]
    case Blockquote(inner) => [b.(kind := Blockquote(Flatten(inner)))]
    case List(ordered, start, items) => [b.(kind := List(ordered, start, FlattenItems(items)))]
    case _ => [b]
  }

  function FlattenItems(items: seq<ListItem>): seq<ListItem>
    decreases items
  {
    if items == [] then []
    else FlattenItems(Init(items)) + [Last(items).(content := Flatten(Last(items).content))]
  }

  /** The callout a divergent run is wrapped in; what it wraps is flattened on the way in. */
  function CalloutOf(content: seq<Block>, stamp: string): Block {
    Block(Callout(CONFLICT_KIND, Unfoldable, [Text(TITLE_PREFIX + stamp)], Flatten(content)), None)
  }

  lemma {:induction false} FlattenConcat(a: seq<Block>, b: seq<Block>)
    ensures Flatten(a + b) == Flatten(a) + Flatten(b)
  {
    if b == [] {
      assert a + b == a;
    } else {
      InitOfConcat(a, b);
      FlattenConcat(a, Init(b));
      assert Flatten(a) + Flatten(Init(b)) + FlattenBlock(Last(b)) == Flatten(a) + (Flatten(Init(b)) + FlattenBlock(Last(b)));
    }
  }

  lemma FlattenOne(b: Block)
    ensures Flatten([b]) == FlattenBlock(b)
  {
    assert Init([b]) == [];
    assert [] + FlattenBlock(b) == FlattenBlock(b);
  }

  // ---------------------------------------------------------------- counting

  /** `count_blocks`: unresolved conflicts at any depth; what a conflict callout wraps is not looked into. */
  function Count(blocks: seq<Block>): nat
    decreases blocks
  {
    if blocks == [] then 0 else Count(Init(blocks)) + CountBlock(Last(blocks))
  }

  function CountBlock(b: Block): nat
    decreases b
  {
    if IsConflict(b) then 1
    else
      match b.kind
      case Blockquote(inner) => Count(inner)
      case Callout(_, _, _, body) => Count(body)
      case List(_, _, items) => CountItems(items)
      case _ => 0
  }

  function CountItems(items: seq<ListItem>): nat
    decreases items
  {
    if items == [] then 0 else CountItems(Init(items)) + Count(Last(items).content)
  }

  lemma {:induction false} CountConcat(a: seq<Block>, b: seq<Block>)
    ensures Count(a + b) == Count(a) + Count(b)
  {
    if b == [] {
      assert a + b == a;
    } else {
      InitOfConcat(a, b);
      CountConcat(a, Init(b));
    }
  }

  lemma CountOne(b: Block)
    ensures Count([b]) == CountBlock(b)
  {
    assert Init([b]) == [];
  }

  /** A flattened run carries no conflict at any depth. */
  lemma {:induction false} FlattenedHasNoConflict(blocks: seq<Block>)
    ensures Count(Flatten(blocks)) == 0
    decreases blocks
  {
    if blocks != [] {
      FlattenedHasNoConflict(Init(blocks));
      FlattenedBlockHasNoConflict(Last(blocks));
      CountConcat(Flatten(Init(blocks)), FlattenBlock(Last(blocks)));
    }
  }

  lemma {:induction false} FlattenedBlockHasNoConflict(b: Block)
    ensures Count(FlattenBlock(b)) == 0
    decreases b
  {
    match b.kind
    case Callout(kind, fold, title, body) =>
      FlattenedHasNoConflict(body);
      if !IsConflict(b) {
        CountOne(FlattenBlock(b)[0]);
      }
    case Blockquote(inner) => FlattenedHasNoConflict(inner); CountOne(FlattenBlock(b)[0]);
    case List(_, _, items) => FlattenedItemsHaveNoConflict(items); CountOne(FlattenBlock(b)[0]);
    case _ => CountOne(b);
  }

  lemma {:induction false} FlattenedItemsHaveNoConflict(items: seq<ListItem>)
    ensures CountItems(FlattenItems(items)) == 0
    decreases items
  {
    if items != [] {
      FlattenedItemsHaveNoConflict(Init(items));
      FlattenedHasNoConflict(Last(items).content);
    }
  }

  /** Flattening changes nothing exactly where there is no conflict to unwrap. */
  lemma {:induction false} FlattenOfConflictFree(blocks: seq<Block>)
    requires Count(blocks) == 0
    ensures Flatten(blocks) == blocks
    decreases blocks
  {
    if blocks != [] {
      FlattenOfConflictFree(Init(blocks));
      FlattenBlockOfConflictFree(Last(blocks));
      InitLast(blocks);
    }
  }

  lemma {:induction false} FlattenBlockOfConflictFree(b: Block)
    requires CountBlock(b) == 0
    ensures FlattenBlock(b) == [b]
    decreases b
  {
    match b.kind
    case Callout(_, _, _, body) => FlattenOfConflictFree(body);
    case Blockquote(inner) => FlattenOfConflictFree(inner);
    case List(_, _, items) => FlattenItemsOfConflictFree(items);
    case _ =>
  }

  lemma {:induction false} FlattenItemsOfConflictFree(items: seq<ListItem>)
    requires CountItems(items) == 0
    ensures FlattenItems(items) == items
    decreases items
  {
    if items != [] {
      FlattenItemsOfConflictFree(Init(items));
      FlattenOfConflictFree(Last(items).content);
      InitLast(items);
    }
  }

  // ---------------------------------------------------------------- top-level conflicts

  /** How many of a note's own blocks are unresolved conflicts. */
  function TopCount(blocks: seq<Block>): nat {
    if blocks == [] then 0 else TopCount(Init(blocks)) + if IsConflict(Last(blocks)) then 1 else 0
  }

  lemma {:induction false} TopCountConcat(a: seq<Block>, b: seq<Block>)
    ensures TopCount(a + b) == TopCount(a) + TopCount(b)
  {
    if b == [] {
      assert a + b == a;
    } else {
      InitOfConcat(a, b);
      TopCountConcat(a, Init(b));
    }
  }

  lemma TopCountOne(b: Block)
    ensures TopCount([b]) == if IsConflict(b) then 1 else 0
  {
    assert Init([b]) == [];
  }

  lemma {:induction false} CountCoversTop(blocks: seq<Block>)
    ensures TopCount(blocks) <= Count(blocks)
  {
    if blocks != [] {
      CountCoversTop(Init(blocks));
    }
  }

  /** `nth`: the position of the unresolved conflict that has `ordinal` others in front of it, if there is one. */
  function Nth(blocks: seq<Block>, ordinal: nat): Option<nat> {
    if blocks == [] then None
    else if IsConflict(blocks[0]) && ordinal == 0 then Some(0)
    else
      match Nth(blocks[1..], if IsConflict(blocks[0]) then ordinal - 1 else ordinal)
      case None => None
      case Some(i) => Some(i + 1)
  }

  /** `nth` finds exactly the conflict callout that has `ordinal` conflicts in front of it. */
  lemma {:induction false} NthFinds(blocks: seq<Block>, ordinal: nat, i: nat)
    ensures Nth(blocks, ordinal) == Some(i) <==>
              i < |blocks| && IsConflict(blocks[i]) && TopCount(blocks[..i]) == ordinal
    decreases |blocks|
  {
    if blocks != [] {
      var rest := blocks[1..];
      var first := if IsConflict(blocks[0]) then 1 else 0;
      TopCountOne(blocks[0]);
      if 0 < i <= |blocks| {
        assert blocks[..i] == [blocks[0]] + rest[..i - 1];
        TopCountConcat([blocks[0]], rest[..i - 1]);
        if ordinal >= first {
          NthFinds(rest, ordinal - first, i - 1);
        }
      }
      if i > |blocks| && ordinal >= first {
        NthFinds(rest, ordinal - first, i - 1);
      }
    }
  }

  /** There is an `ordinal`-th conflict exactly when there are more conflicts than that. */
  lemma {:induction false} NthExists(blocks: seq<Block>, ordinal: nat)
    ensures Nth(blocks, ordinal).Some? <==> ordinal < TopCount(blocks)
    decreases |blocks|
  {
    if blocks != [] {
      assert blocks == [blocks[0]] + blocks[1..];
      TopCountConcat([blocks[0]], blocks[1..]);
      TopCountOne(blocks[0]);
      if !(IsConflict(blocks[0]) && ordinal == 0) {
        NthExists(blocks[1..], if IsConflict(blocks[0]) then ordinal - 1 else ordinal);
      }
    }
  }

  // ---------------------------------------------------------------- resolving

  datatype Resolution = KeepMine | KeepTheirs | KeepBoth

  /** The first block that keeping theirs replaces: an ordinary block in front of the callout goes with it. */
  function LocalVersion(blocks: seq<Block>, index: nat): (r: nat)
    requires index < |blocks|
    ensures r <= index
  {
    if index > 0 && !IsConflict(blocks[index - 1]) then index - 1 else index
  }

  /** `resolve`; addressing anything but an unresolved conflict has no effect. */
  function Resolve(blocks: seq<Block>, index: nat, resolution: Resolution): seq<Block> {
    if index >= |blocks| || !IsConflict(blocks[index]) then blocks
    else
      var content := blocks[index].kind.body;
      match resolution
      case KeepMine => blocks[..index] + blocks[index + 1..]
      case KeepTheirs => blocks[..LocalVersion(blocks, index)] + content + blocks[index + 1..]
      case KeepBoth => blocks[..index] + content + blocks[index + 1..]
  }

  /**
   * Keeping theirs is keeping both exactly where no ordinary block stands in front of the callout. `Standalone` shows
   * the merges that put a block all versions agree on there, which keeping theirs then drops.
   */
  lemma KeepTheirsIsKeepBothIff(blocks: seq<Block>, index: nat)
    requires index < |blocks| && IsConflict(blocks[index])
    ensures Resolve(blocks, index, KeepTheirs) == Resolve(blocks, index, KeepBoth) <==>
              index == 0 || IsConflict(blocks[index - 1])
  {
    var content := blocks[index].kind.body;
    assert |Resolve(blocks, index, KeepBoth)| == |blocks| - 1 + |content|;
    assert |Resolve(blocks, index, KeepTheirs)| == LocalVersion(blocks, index) + |content| + |blocks| - index - 1;
  }

  /** No conflict callout, at any depth, wraps a conflict at any depth. */
  predicate NoNested(blocks: seq<Block>)
    decreases blocks
  {
    forall i: nat | i < |blocks| :: NoNestedIn(blocks[i])
  }

  predicate NoNestedIn(b: Block)
    decreases b
  {
    match b.kind
    case Callout(_, _, _, body) => if IsConflict(b) then Count(body) == 0 else NoNested(body)
    case Blockquote(inner) => NoNested(inner)
    case List(_, _, items) => forall i: nat | i < |items| :: NoNested(items[i].content)
    case _ => true
  }

  lemma NoNestedConcat(a: seq<Block>, b: seq<Block>)
    ensures NoNested(a + b) <==> NoNested(a) && NoNested(b)
  {
    var all := a + b;
    assert forall i: nat | i < |a| :: all[i] == a[i];
    assert forall i: nat | i < |b| :: all[|a| + i] == b[i];
    if NoNested(all) {
      forall i: nat | i < |b| ensures NoNestedIn(b[i]) {
        assert NoNestedIn(all[|a| + i]);
      }
    }
  }

  /** A run without conflicts has none nested. */
  lemma {:induction false} ConflictFreeHasNoneNested(blocks: seq<Block>)
    requires Count(blocks) == 0
    ensures NoNested(blocks)
    decreases blocks
  {
    if blocks != [] {
      ConflictFreeHasNoneNested(Init(blocks));
      ConflictFreeBlockHasNoneNested(Last(blocks));
      InitLast(blocks);
      assert NoNested([Last(blocks)]);
      NoNestedConcat(Init(blocks), [Last(blocks)]);
    }
  }

  lemma {:induction false} ConflictFreeBlockHasNoneNested(b: Block)
    requires CountBlock(b) == 0
    ensures NoNestedIn(b)
    decreases b
  {
    match b.kind
    case Callout(_, _, _, body) => ConflictFreeHasNoneNested(body);
    case Blockquote(inner) => ConflictFreeHasNoneNested(inner);
    case List(_, _, items) => ConflictFreeItemsHaveNoneNested(items);
    case _ =>
  }

  lemma {:induction false} ConflictFreeItemsHaveNoneNested(items: seq<ListItem>)
    requires CountItems(items) == 0
    ensures forall i: nat | i < |items| :: NoNested(items[i].content)
    decreases items
  {
    if items != [] {
      ConflictFreeItemsHaveNoneNested(Init(items));
      ConflictFreeHasNoneNested(Last(items).content);
      InitLast(items);
      assert forall i: nat | i < |Init(items)| :: items[i] == Init(items)[i];
    }
  }

  /** Around the callout at `index`: what stays in front, what is dropped with it, and what stays behind. */
  lemma ResolveSplits(blocks: seq<Block>, index: nat, resolution: Resolution)
    requires index < |blocks| && IsConflict(blocks[index])
    ensures var cut := if resolution == KeepTheirs then LocalVersion(blocks, index) else index;
      var content := if resolution == KeepMine then [] else blocks[index].kind.body;
      && blocks == blocks[..cut] + blocks[cut..index] + [blocks[index]] + blocks[index + 1..]
      && Resolve(blocks, index, resolution) == blocks[..cut] + content + blocks[index + 1..]
      && TopCount(blocks[cut..index]) == 0
  {
    var cut := if resolution == KeepTheirs then LocalVersion(blocks, index) else index;
    if cut < index {
      assert blocks[cut..index] == [blocks[cut]];
      TopCountOne(blocks[cut]);
    } else {
      assert blocks[cut..index] == [];
    }
  }

  /** Resolving a conflict keeps callouts unnested and leaves exactly one top-level conflict fewer. */
  lemma ResolveLowersCount(blocks: seq<Block>, index: nat, resolution: Resolution)
    requires NoNested(blocks)
    requires index < |blocks| && IsConflict(blocks[index])
    ensures NoNested(Resolve(blocks, index, resolution))
    ensures TopCount(Resolve(blocks, index, resolution)) == TopCount(blocks) - 1
  {
    var cut := if resolution == KeepTheirs then LocalVersion(blocks, index) else index;
    var content := if resolution == KeepMine then [] else blocks[index].kind.body;
    var front, local, back := blocks[..cut], blocks[cut..index], blocks[index + 1..];
    var callout := [blocks[index]];
    ResolveSplits(blocks, index, resolution);
    assert NoNestedIn(blocks[index]);
    ConflictFreeHasNoneNested(content);
    CountCoversTop(content);
    NoNestedConcat(front + local + callout, back);
    NoNestedConcat(front + local, callout);
    NoNestedConcat(front, local);
    NoNestedConcat(front + content, back);
    NoNestedConcat(front, content);
    TopCountConcat(front + local + callout, back);
    TopCountConcat(front + local, callout);
    TopCountConcat(front, local);
    TopCountOne(blocks[index]);
    TopCountConcat(front + content, back);
    TopCountConcat(front, content);
  }

  // ---------------------------------------------------------------- runs of resolutions

  datatype Choice = Choice(ordinal: nat, resolution: Resolution)

  /** One step of a reader working through a note: the conflict is addressed by its ordinal. */
  function Step(blocks: seq<Block>, c: Choice): Option<seq<Block>> {
    match Nth(blocks, c.ordinal)
    case None => None
    case Some(i) => Some(Resolve(blocks, i, c.resolution))
  }

  /** What a sequence of choices leads to, if every one of them addresses a conflict. */
  function Run(blocks: seq<Block>, choices: seq<Choice>): Option<seq<Block>>
    decreases |choices|
  {
    if choices == [] then Some(blocks)
    else
      match Step(blocks, choices[0])
      case None => None
      case Some(next) => Run(next, choices[1..])
  }

  /**
   * Every run of resolutions, in any order and of any kind, keeps callouts unnested and takes off exactly one
   * conflict a step: it can be continued until, after as many steps as there were conflicts, none is left.
   */
  lemma {:induction false} RunsEnd(blocks: seq<Block>, choices: seq<Choice>)
    requires NoNested(blocks)
    ensures Run(blocks, choices).Some? ==>
              && NoNested(Run(blocks, choices).value)
              && |choices| <= TopCount(blocks)
              && TopCount(Run(blocks, choices).value) == TopCount(blocks) - |choices|
    decreases |choices|
  {
    if choices != [] && Step(blocks, choices[0]).Some? {
      var i := Nth(blocks, choices[0].ordinal).value;
      NthFinds(blocks, choices[0].ordinal, i);
      ResolveLowersCount(blocks, i, choices[0].resolution);
      RunsEnd(Resolve(blocks, i, choices[0].resolution), choices[1..]);
    }
  }

  /** A run gets stuck only for want of the conflict it names. */
  lemma RunContinues(blocks: seq<Block>, choices: seq<Choice>, c: Choice)
    requires NoNested(blocks) && Run(blocks, choices).Some?
    ensures Step(Run(blocks, choices).value, c).Some? <==> c.ordinal < TopCount(blocks) - |choices|
  {
    RunsEnd(blocks, choices);
    NthExists(Run(blocks, choices).value, c.ordinal);
  }

  // ---------------------------------------------------------------- what a conflict looks like

  /** The kind of a callout decides, in whatever case it is written. */
  lemma CaseDoesNotMatter(kind: string, fold: Fold, title: seq<Inline>, body: seq<Block>, anchor: Option<string>)
    ensures IsConflict(Block(Callout(kind, fold, title, body), anchor)) <==> AsciiLower(kind) == "conflict"
  {
    if AsciiLower(kind) == "conflict" {
      assert forall i :: 0 <= i < |kind| ==> LowerChar(kind[i]) == AsciiLower(kind)[i] == "conflict"[i];
    }
  }

  /** A merge's callout is one: it does not fold, says when the other version was written, and holds what it wraps. */
  lemma CalloutIsDated(content: seq<Block>, stamp: string)
    ensures var c := CalloutOf(content, stamp);
      && IsConflict(c) && c.anchor == None && c.kind.fold == Unfoldable && c.kind.body == Flatten(content)
      && |c.kind.title| == 1 && c.kind.title[0].Text? && stamp <= c.kind.title[0].text[|TITLE_PREFIX|..]
      && TITLE_PREFIX <= c.kind.title[0].text
  {
    CaseDoesNotMatter(CONFLICT_KIND, Unfoldable, [Text(TITLE_PREFIX + stamp)], Flatten(content), None);
  }
}
