/** The stack of open blocks used while a page is loaded, and the placement of
    each new block under the nearest shallower open block. */
module BlockStacks {
  import opened Common
  import opened Blocks

  /** BlockStack: indices into the page's blocks, bottom first. */
  class BlockStack {
    var blocks: seq<nat>

    /** NewBlockStack */
    constructor ()
      ensures blocks == []
    {
      blocks := [];
    }

    /** Top: the most recently pushed block still on the stack, if any. */
    function Top(): (r: Option<nat>)
      reads this
      ensures r.None? <==> blocks == []
      ensures r.Some? ==> r.value == blocks[|blocks| - 1]
    {
      if blocks == [] then None else Some(blocks[|blocks| - 1])
    }

    predicate IsEmpty()
      reads this
      ensures IsEmpty() <==> |blocks| == 0
    {
      blocks == []
    }

    method Push(b: nat)
      modifies this
      ensures blocks == old(blocks) + [b]
      ensures Top() == Some(b)
    {
      blocks := blocks + [b];
    }

    /** Pop: on an empty stack nothing happens and nothing comes back; otherwise
        the top is removed and returned. */
    method Pop() returns (top: Option<nat>)
      modifies this
      ensures old(blocks) == [] ==> top.None? && blocks == []
      ensures old(blocks) != [] ==> top == Some(old(blocks)[|old(blocks)| - 1])
      ensures old(blocks) != [] ==> blocks == old(blocks)[..|old(blocks)| - 1]
    {
      if blocks == [] {
        return None;
      }
      top := Some(blocks[|blocks| - 1]);
      blocks := blocks[..|blocks| - 1];
    }
  }

  predicate OnArena(stack: seq<nat>, bs: seq<Block>) {
    forall k :: 0 <= k < |stack| ==> stack[k] < |bs|
  }

  /** The stack after popping every top at least as deep as `d`: the longest
      prefix whose top is shallower than `d`. */
  function PopDeeper(stack: seq<nat>, bs: seq<Block>, d: nat): (r: seq<nat>)
    requires OnArena(stack, bs)
    ensures |r| <= |stack| && r == stack[..|r|]
    ensures r != [] ==> bs[r[|r| - 1]].depth < d
    ensures forall k :: |r| <= k < |stack| ==> bs[stack[k]].depth >= d
  {
    if stack == [] then []
    else if bs[stack[|stack| - 1]].depth < d then stack
    else PopDeeper(stack[..|stack| - 1], bs, d)
  }

  /** An arena and a stack together, as placing a block leaves them. */
  datatype Placed = Placed(blocks: seq<Block>, stack: seq<nat>)

  /** PlaceBlock on values: the new arena and stack once block `b` is placed. */
  function Place(bs: seq<Block>, stack: seq<nat>, b: nat): (r: Placed)
    requires b < |bs| && OnArena(stack, bs)
    requires forall k :: 0 <= k < |stack| ==> stack[k] < b
  {
    if bs[b].depth == 0 then Placed(bs, stack + [b])
    else
      var kept := PopDeeper(stack, bs, bs[b].depth);
      if kept == [] then Placed(bs, [])
      else Placed(WithChild(bs, kept[|kept| - 1], b), kept + [b])
  }

  /** Depths strictly increase from the bottom of the stack to its top, as do the
      indices. */
  predicate Increasing(stack: seq<nat>, bs: seq<Block>)
    requires OnArena(stack, bs)
  {
    forall k, m :: 0 <= k < m < |stack| ==> bs[stack[k]].depth < bs[stack[m]].depth && stack[k] < stack[m]
  }

  /** What placing a block does: a depth-0 block is pushed with no parent; a
      deeper block pops every top at least as deep, becomes the last child of the
      shallower top left and is pushed; with no shallower block left the stack
      ends empty and the block has no parent. */
  lemma {:induction false} PlaceFacts(bs: seq<Block>, stack: seq<nat>, b: nat)
    requires b < |bs| && OnArena(stack, bs)
    requires forall k :: 0 <= k < |stack| ==> stack[k] < b
    ensures bs[b].depth == 0 ==> Place(bs, stack, b) == Placed(bs, stack + [b])
    ensures bs[b].depth > 0 && (forall k :: 0 <= k < |stack| ==> bs[stack[k]].depth >= bs[b].depth) ==>
      Place(bs, stack, b) == Placed(bs, [])
    ensures bs[b].depth > 0 && (exists k :: 0 <= k < |stack| && bs[stack[k]].depth < bs[b].depth) ==>
      var bs', stack' := Place(bs, stack, b).blocks, Place(bs, stack, b).stack;
      && |stack'| >= 2 && stack'[|stack'| - 1] == b
      && stack'[..|stack'| - 1] == stack[..|stack'| - 1]
      && var p := stack'[|stack'| - 2];
      && bs[p].depth < bs[b].depth
      && (forall k :: |stack'| - 1 <= k < |stack| ==> bs[stack[k]].depth >= bs[b].depth)
      && bs'[b].parent == Some(p) && bs'[p].children == bs[p].children + [b]
  {
  }

  /** Placing keeps the stack increasing, and every parent it assigns is
      shallower than its child. A depth-0 block keeps the stack increasing only
      on an empty stack, which is where the loader places it. */
  lemma {:induction false} PlaceKeepsIncreasing(bs: seq<Block>, stack: seq<nat>, b: nat)
    requires b < |bs| && OnArena(stack, bs)
    requires forall k :: 0 <= k < |stack| ==> stack[k] < b
    requires Increasing(stack, bs)
    requires bs[b].depth == 0 ==> stack == []
    ensures var r := Place(bs, stack, b);
      && OnArena(r.stack, r.blocks) && Increasing(r.stack, r.blocks)
      && forall i :: 0 <= i < |bs| && r.blocks[i].parent.Some? && bs[i].parent.None? ==>
           i == b && r.blocks[r.blocks[i].parent.value].depth < r.blocks[i].depth
  {
    if bs[b].depth == 0 {
      assert Place(bs, stack, b) == Placed(bs, [b]);
    } else {
      var kept := PopDeeper(stack, bs, bs[b].depth);
      if kept == [] {
        assert Place(bs, stack, b) == Placed(bs, []);
      } else {
        var p := kept[|kept| - 1];
        assert Place(bs, stack, b) == Placed(WithChild(bs, p, b), kept + [b]);
        AttachKeepsIncreasing(bs, stack, b, kept);
      }
    }
  }

  /** Pushing the new block on the popped stack, after attaching it under the
      top left there, keeps the stack increasing. */
  lemma {:induction false} AttachKeepsIncreasing(bs: seq<Block>, stack: seq<nat>, b: nat, kept: seq<nat>)
    requires b < |bs| && OnArena(stack, bs)
    requires forall k :: 0 <= k < |stack| ==> stack[k] < b
    requires Increasing(stack, bs) && bs[b].depth > 0
    requires kept == PopDeeper(stack, bs, bs[b].depth) && kept != []
    ensures var bs' := WithChild(bs, kept[|kept| - 1], b);
      OnArena(kept + [b], bs') && Increasing(kept + [b], bs')
  {
    var bs' := WithChild(bs, kept[|kept| - 1], b);
    PrefixIncreasing(stack, bs, |kept|);
    assert kept[|kept| - 1] == stack[|kept| - 1] < b;
    PushKeepsIncreasing(bs, kept, b);
    assert forall i :: 0 <= i < |bs| ==> bs'[i].depth == bs[i].depth;
    SameDepthsIncreasing(kept + [b], bs, bs');
  }

  /** Any bottom part of an increasing stack is increasing. */
  lemma {:induction false} PrefixIncreasing(stack: seq<nat>, bs: seq<Block>, n: nat)
    requires OnArena(stack, bs) && Increasing(stack, bs) && n <= |stack|
    ensures OnArena(stack[..n], bs) && Increasing(stack[..n], bs)
  {
    var p := stack[..n];
    assert forall k :: 0 <= k < n ==> p[k] == stack[k];
  }

  /** A block deeper and later than the top can be pushed on an increasing stack. */
  lemma {:induction false} PushKeepsIncreasing(bs: seq<Block>, stack: seq<nat>, b: nat)
    requires OnArena(stack, bs) && Increasing(stack, bs) && b < |bs|
    requires stack != [] ==> bs[stack[|stack| - 1]].depth < bs[b].depth && stack[|stack| - 1] < b
    ensures OnArena(stack + [b], bs) && Increasing(stack + [b], bs)
  {
    var s := stack + [b];
    forall k, m | 0 <= k < m < |s|
      ensures bs[s[k]].depth < bs[s[m]].depth && s[k] < s[m]
    {
      if m < |stack| {
        assert s[k] == stack[k] && s[m] == stack[m];
      } else if k < |stack| - 1 {
        assert s[k] == stack[k];
        assert bs[stack[k]].depth < bs[stack[|stack| - 1]].depth && stack[k] < stack[|stack| - 1];
      }
    }
  }

  /** Whether a stack is increasing depends on the depths alone. */
  lemma {:induction false} SameDepthsIncreasing(stack: seq<nat>, bs: seq<Block>, bs': seq<Block>)
    requires OnArena(stack, bs) && Increasing(stack, bs) && |bs'| == |bs|
    requires forall i :: 0 <= i < |bs| ==> bs'[i].depth == bs[i].depth
    ensures OnArena(stack, bs') && Increasing(stack, bs')
  {
  }

  /** PlaceBlock: pushes a depth-0 block; otherwise pops until a shallower block
      is on top, attaches the new block to it and pushes it. */
  method PlaceBlock(b: nat, stack: BlockStack, arena: Arena)
    requires b < |arena.blocks| && OnArena(stack.blocks, arena.blocks)
    requires forall k :: 0 <= k < |stack.blocks| ==> stack.blocks[k] < b
    modifies stack, arena
    ensures Placed(arena.blocks, stack.blocks) == Place(old(arena.blocks), old(stack.blocks), b)
  {
    var d := arena.blocks[b].depth;
    if d == 0 {
      stack.Push(b);
      return;
    }
    ghost var kept := PopDeeper(stack.blocks, arena.blocks, d);
    var top := stack.Top();
    while top.Some?
      invariant arena.blocks == old(arena.blocks)
      invariant OnArena(stack.blocks, arena.blocks)
      invariant |stack.blocks| <= |old(stack.blocks)| && stack.blocks == old(stack.blocks)[..|stack.blocks|]
      invariant PopDeeper(stack.blocks, arena.blocks, d) == kept
      invariant top == stack.Top()
      decreases |stack.blocks|
    {
      if arena.blocks[top.value].depth < d {
        arena.AddChild(top.value, b);
        stack.Push(b);
        return;
      }
      var _ := stack.Pop();
      top := stack.Top();
    }
  }
}
