/** Walks over a page's block tree: the pre-order that Page.AddTree records and
    the pruned pre-order that Page.AddPublicTree records. */
module PageTrees {
  import opened Common
  import opened Blocks

  /** Every child comes after its parent, so walking down ends. */
  predicate ChildrenAfter(bs: seq<Block>) {
    forall i, k :: 0 <= i < |bs| && 0 <= k < |bs[i].children| ==> i < bs[i].children[k] < |bs|
  }

  /** The block `i`, then the pre-order of each of its children in turn. */
  function PreOrder(bs: seq<Block>, i: nat): (r: seq<nat>)
    requires ChildrenAfter(bs) && i < |bs|
    ensures |r| >= 1 && r[0] == i
    decreases |bs| - i, 1
  {
    [i] + PreOrderList(bs, i, bs[i].children)
  }

  /** The pre-orders of the blocks `cs`, all children of `p`, one after another. */
  function PreOrderList(bs: seq<Block>, p: nat, cs: seq<nat>): (r: seq<nat>)
    requires ChildrenAfter(bs) && p < |bs|
    requires forall k :: 0 <= k < |cs| ==> p < cs[k] < |bs|
    decreases |bs| - p, 0, |cs|
  {
    if cs == [] then []
    else PreOrderList(bs, p, cs[..|cs| - 1]) + PreOrder(bs, cs[|cs| - 1])
  }

  /** The run of subtrees of `cs` is that of all but the last, then the last. */
  lemma {:induction false} ListStep(bs: seq<Block>, p: nat, cs: seq<nat>)
    requires ChildrenAfter(bs) && p < |bs| && cs != []
    requires forall k :: 0 <= k < |cs| ==> p < cs[k] < |bs|
    ensures PreOrderList(bs, p, cs) == PreOrderList(bs, p, cs[..|cs| - 1]) + PreOrder(bs, cs[|cs| - 1])
  {
  }

  /** A block is in a run of subtrees exactly when it is in one of them. */
  lemma {:induction false} InList(bs: seq<Block>, p: nat, cs: seq<nat>, x: nat)
    requires ChildrenAfter(bs) && p < |bs|
    requires forall k :: 0 <= k < |cs| ==> p < cs[k] < |bs|
    ensures x in PreOrderList(bs, p, cs) <==> exists k :: 0 <= k < |cs| && x in PreOrder(bs, cs[k])
    decreases |cs|
  {
    if cs != [] {
      var init := cs[..|cs| - 1];
      var last := |cs| - 1;
      ListStep(bs, p, cs);
      InList(bs, p, init, x);
      if x in PreOrderList(bs, p, cs) {
        if x in PreOrderList(bs, p, init) {
          var k :| 0 <= k < |init| && x in PreOrder(bs, init[k]);
          assert cs[k] == init[k];
        } else {
          assert x in PreOrder(bs, cs[last]);
        }
      }
      if exists k :: 0 <= k < |cs| && x in PreOrder(bs, cs[k]) {
        var k :| 0 <= k < |cs| && x in PreOrder(bs, cs[k]);
        if k < |init| {
          assert init[k] == cs[k];
        }
      }
    }
  }

  /** `a` is `j` itself or one of its ancestors. */
  predicate Descends(bs: seq<Block>, j: nat, a: nat)
    requires ParentsBefore(bs) && j < |bs|
  {
    a in Ancestry(bs, j)
  }

  /** Everything in the pre-order of `i` descends from `i`. */
  lemma {:induction false} PreOrderSound(bs: seq<Block>, i: nat, j: nat)
    requires WellFormed(bs) && i < |bs| && j in PreOrder(bs, i)
    ensures j < |bs| && Descends(bs, j, i)
    decreases |bs| - i
  {
    if j != i {
      var cs := bs[i].children;
      assert j in PreOrderList(bs, i, cs);
      InList(bs, i, cs, j);
      var k :| 0 <= k < |cs| && j in PreOrder(bs, cs[k]);
      var c := cs[k];
      PreOrderSound(bs, c, j);
      AncestryUp(bs, j, c, i);
    }
  }

  /** The ancestry of `j` continues from any block in it to that block's parent. */
  lemma {:induction false} AncestryUp(bs: seq<Block>, j: nat, c: nat, i: nat)
    requires ParentsBefore(bs) && j < |bs| && c < |bs|
    requires c in Ancestry(bs, j) && bs[c].parent == Some(i)
    ensures i in Ancestry(bs, j)
  {
    var r := Ancestry(bs, j);
    var m :| 0 <= m < |r| && r[m] == c;
    assert m < |r| - 1;
    assert r[m + 1] == i;
  }

  /** The pre-order of `i` is closed under taking children. */
  lemma {:induction false} ChildInSubtree(bs: seq<Block>, i: nat, p: nat, c: nat)
    requires WellFormed(bs) && i < |bs| && p < |bs| && p in PreOrder(bs, i) && c in bs[p].children
    ensures c in PreOrder(bs, i)
    decreases |bs| - i
  {
    var cs := bs[i].children;
    InList(bs, i, cs, c);
    if p == i {
      var k :| 0 <= k < |cs| && cs[k] == c;
      assert c in PreOrder(bs, cs[k]);
    } else {
      InList(bs, i, cs, p);
      var k :| 0 <= k < |cs| && p in PreOrder(bs, cs[k]);
      ChildInSubtree(bs, cs[k], p, c);
    }
  }

  /** Everything that descends from `i` is in the pre-order of `i`. */
  lemma {:induction false} PreOrderComplete(bs: seq<Block>, i: nat, j: nat)
    requires WellFormed(bs) && i < |bs| && j < |bs| && Descends(bs, j, i)
    ensures j in PreOrder(bs, i)
    decreases j
  {
    if j != i {
      var p := bs[j].parent.value;
      PreOrderComplete(bs, i, p);
      ChildInSubtree(bs, i, p, j);
    }
  }

  /** AddTree records exactly the block and its descendants. */
  lemma {:induction false} PreOrderMembers(bs: seq<Block>, i: nat, j: nat)
    requires WellFormed(bs) && i < |bs| && j < |bs|
    ensures j in PreOrder(bs, i) <==> Descends(bs, j, i)
  {
    if j in PreOrder(bs, i) {
      PreOrderSound(bs, i, j);
    }
    if Descends(bs, j, i) {
      PreOrderComplete(bs, i, j);
    }
  }

  // ------------------------------------------------------------- public walk

  /** AddPublicTree on values: nothing for a block that is not public,
      otherwise the block, then the public walk of each child in turn. */
  function PublicPreOrder(bs: seq<Block>, i: nat): (r: seq<nat>)
    requires ChildrenAfter(bs) && ParentsBefore(bs) && i < |bs|
    ensures r != [] <==> IsPublic(bs, i)
    decreases |bs| - i, 1
  {
    if IsPublic(bs, i) then [i] + PublicPreOrderList(bs, i, bs[i].children) else []
  }

  function PublicPreOrderList(bs: seq<Block>, p: nat, cs: seq<nat>): (r: seq<nat>)
    requires ChildrenAfter(bs) && ParentsBefore(bs) && p < |bs|
    requires forall k :: 0 <= k < |cs| ==> p < cs[k] < |bs|
    decreases |bs| - p, 0, |cs|
  {
    if cs == [] then []
    else PublicPreOrderList(bs, p, cs[..|cs| - 1]) + PublicPreOrder(bs, cs[|cs| - 1])
  }

  /** The public walks of `cs` are those of all but the last, then the last. */
  lemma {:induction false} PublicListStep(bs: seq<Block>, p: nat, cs: seq<nat>)
    requires ChildrenAfter(bs) && ParentsBefore(bs) && p < |bs| && cs != []
    requires forall k :: 0 <= k < |cs| ==> p < cs[k] < |bs|
    ensures PublicPreOrderList(bs, p, cs) == PublicPreOrderList(bs, p, cs[..|cs| - 1]) + PublicPreOrder(bs, cs[|cs| - 1])
  {
  }

  /** A block is in a run of public walks exactly when it is in one of them. */
  lemma {:induction false} InPublicList(bs: seq<Block>, p: nat, cs: seq<nat>, x: nat)
    requires ChildrenAfter(bs) && ParentsBefore(bs) && p < |bs|
    requires forall k :: 0 <= k < |cs| ==> p < cs[k] < |bs|
    ensures x in PublicPreOrderList(bs, p, cs) <==> exists k :: 0 <= k < |cs| && x in PublicPreOrder(bs, cs[k])
    decreases |cs|
  {
    if cs != [] {
      var init := cs[..|cs| - 1];
      var last := |cs| - 1;
      PublicListStep(bs, p, cs);
      InPublicList(bs, p, init, x);
      if x in PublicPreOrderList(bs, p, cs) {
        if x in PublicPreOrderList(bs, p, init) {
          var k :| 0 <= k < |init| && x in PublicPreOrder(bs, init[k]);
          assert cs[k] == init[k];
        } else {
          assert x in PublicPreOrder(bs, cs[last]);
        }
      }
      if exists k :: 0 <= k < |cs| && x in PublicPreOrder(bs, cs[k]) {
        var k :| 0 <= k < |cs| && x in PublicPreOrder(bs, cs[k]);
        if k < |init| {
          assert init[k] == cs[k];
        }
      }
    }
  }

  /** Every block on the way up from `j` to `a`, both included, is public. */
  predicate PublicPath(bs: seq<Block>, a: nat, j: nat)
    requires ParentsBefore(bs) && j < |bs|
    decreases j
  {
    IsPublic(bs, j) && (j == a || (bs[j].parent.Some? && PublicPath(bs, a, bs[j].parent.value)))
  }

  /** A public path can be continued up to a public parent. */
  lemma {:induction false} PublicPathUp(bs: seq<Block>, c: nat, i: nat, j: nat)
    requires WellFormed(bs) && c < |bs| && i < |bs| && j < |bs|
    requires bs[c].parent == Some(i) && IsPublic(bs, i) && PublicPath(bs, c, j)
    ensures PublicPath(bs, i, j)
    decreases j
  {
    if j != c {
      PublicPathUp(bs, c, i, bs[j].parent.value);
    }
  }

  lemma {:induction false} PublicPreOrderSound(bs: seq<Block>, i: nat, j: nat)
    requires WellFormed(bs) && i < |bs| && j in PublicPreOrder(bs, i)
    ensures j < |bs| && PublicPath(bs, i, j)
    decreases |bs| - i
  {
    if j != i {
      var cs := bs[i].children;
      InPublicList(bs, i, cs, j);
      var k :| 0 <= k < |cs| && j in PublicPreOrder(bs, cs[k]);
      PublicPreOrderSound(bs, cs[k], j);
      PublicPathUp(bs, cs[k], i, j);
    }
  }

  lemma {:induction false} PublicChildInSubtree(bs: seq<Block>, i: nat, p: nat, c: nat)
    requires WellFormed(bs) && i < |bs| && p < |bs| && p in PublicPreOrder(bs, i) && c in bs[p].children
    requires IsPublic(bs, c)
    ensures c in PublicPreOrder(bs, i)
    decreases |bs| - i
  {
    var cs := bs[i].children;
    InPublicList(bs, i, cs, c);
    if p == i {
      var k :| 0 <= k < |cs| && cs[k] == c;
      assert c in PublicPreOrder(bs, cs[k]);
    } else {
      InPublicList(bs, i, cs, p);
      var k :| 0 <= k < |cs| && p in PublicPreOrder(bs, cs[k]);
      PublicChildInSubtree(bs, cs[k], p, c);
    }
  }

  lemma {:induction false} PublicPreOrderComplete(bs: seq<Block>, i: nat, j: nat)
    requires WellFormed(bs) && i < |bs| && j < |bs| && PublicPath(bs, i, j)
    ensures j in PublicPreOrder(bs, i)
    decreases j
  {
    if j != i {
      var p := bs[j].parent.value;
      PublicPreOrderComplete(bs, i, p);
      PublicChildInSubtree(bs, i, p, j);
    }
  }

  /** AddPublicTree records exactly the blocks reached from `i` through public
      blocks only. */
  lemma {:induction false} PublicPreOrderMembers(bs: seq<Block>, i: nat, j: nat)
    requires WellFormed(bs) && i < |bs| && j < |bs|
    ensures j in PublicPreOrder(bs, i) <==> PublicPath(bs, i, j)
  {
    if j in PublicPreOrder(bs, i) {
      PublicPreOrderSound(bs, i, j);
    }
    if PublicPath(bs, i, j) {
      PublicPreOrderComplete(bs, i, j);
    }
  }

  /** Every block on a public path from `j` up to `a` is public, whatever lies
      between. */
  lemma {:induction false} PublicPathAll(bs: seq<Block>, a: nat, j: nat, k: nat)
    requires WellFormed(bs) && j < |bs| && PublicPath(bs, a, j)
    requires Descends(bs, j, k) && k < |bs| && Descends(bs, k, a)
    ensures IsPublic(bs, k)
    decreases j
  {
    if j != k {
      AncestryBelow(bs, j, k);
      AncestryBelow(bs, k, a);
      assert j != a;
      var p := bs[j].parent.value;
      assert Ancestry(bs, j) == [j] + Ancestry(bs, p);
      PublicPathAll(bs, a, p, k);
    }
  }

  /** An ancestor is never after its descendant. */
  lemma {:induction false} AncestryBelow(bs: seq<Block>, j: nat, a: nat)
    requires ParentsBefore(bs) && j < |bs| && Descends(bs, j, a)
    ensures a <= j
    decreases j
  {
    if a != j {
      AncestryBelow(bs, bs[j].parent.value, a);
    }
  }

  /** A block that is not public hides its whole subtree from AddPublicTree:
      nothing below it is recorded, however public. */
  lemma {:induction false} PrivateHidesSubtree(bs: seq<Block>, i: nat, k: nat, j: nat)
    requires WellFormed(bs) && i < |bs| && k < |bs| && j < |bs|
    requires k in PreOrder(bs, i) && j in PreOrder(bs, k) && !IsPublic(bs, k)
    ensures j !in PublicPreOrder(bs, i)
  {
    PreOrderSound(bs, i, k);
    PreOrderSound(bs, k, j);
    if j in PublicPreOrder(bs, i) {
      PublicPreOrderSound(bs, i, j);
      PublicPathAll(bs, i, j, k);
    }
  }

  /** Every block AddPublicTree records is public and also recorded by AddTree. */
  lemma {:induction false} PublicWalkIsPrunedWalk(bs: seq<Block>, i: nat, j: nat)
    requires WellFormed(bs) && i < |bs| && j < |bs| && j in PublicPreOrder(bs, i)
    ensures IsPublic(bs, j) && j in PreOrder(bs, i)
  {
    PublicPreOrderSound(bs, i, j);
    PublicPathDescends(bs, i, j);
    PreOrderComplete(bs, i, j);
  }

  lemma {:induction false} PublicPathDescends(bs: seq<Block>, a: nat, j: nat)
    requires ParentsBefore(bs) && j < |bs| && PublicPath(bs, a, j)
    ensures Descends(bs, j, a)
    decreases j
  {
    if j != a {
      PublicPathDescends(bs, a, bs[j].parent.value);
    }
  }
}
