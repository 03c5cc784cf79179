/** Pages: a page owns its blocks (its arena), knows which one is its root and
    records its blocks in walking order in `allBlocks`. */
module Pages {
  import opened Common
  import opened Strs
  import opened Links
  import opened Properties
  import opened Blocks
  import opened PageTrees

  /** The links of the blocks `order` names, block after block. */
  function LinksOf(bs: seq<Block>, order: seq<nat>): seq<Link>
    requires forall k :: 0 <= k < |order| ==> order[k] < |bs|
  {
    Concat(seq(|order|, k requires 0 <= k < |order| => BlockLinks(bs[order[k]])))
  }

  /** A link is among the page's links exactly when one of the recorded blocks
      has it. */
  lemma {:induction false} LinksOfMembers(bs: seq<Block>, order: seq<nat>, l: Link)
    requires forall k :: 0 <= k < |order| ==> order[k] < |bs|
    ensures l in LinksOf(bs, order) <==> exists k :: 0 <= k < |order| && l in BlockLinks(bs[order[k]])
  {
    var parts := seq(|order|, k requires 0 <= k < |order| => BlockLinks(bs[order[k]]));
    ConcatMembers(parts, l);
    if exists k :: 0 <= k < |order| && l in BlockLinks(bs[order[k]]) {
      var k :| 0 <= k < |order| && l in BlockLinks(bs[order[k]]);
      assert l in parts[k];
    }
  }

  /** The page-name shape of a journal, `dddd-dd-dd` or `dddd/dd/dd` (either
      separator at either place). */
  predicate IsJournalName(name: string) {
    DateLike(name, {'-', '/'})
  }

  class Page {
    var name: string
    var title: string
    var namespace: string
    var path: string
    var pathInGraph: string
    /** "page", or "section" once another page's key extends this one's. */
    var kind: string
    /** The page's blocks; Root and AllBlocks refer to them by index. */
    var blocks: seq<Block>
    var root: nat
    var allBlocks: seq<nat>
    var backlinks: seq<Link>
    var taggedLinks: seq<Link>

    /** The root and the recorded blocks are blocks of the page, and every
        parent comes before its children: enough to read the page. */
    ghost predicate Indexed()
      reads this
    {
      && ParentsBefore(blocks)
      && root < |blocks|
      && (forall k :: 0 <= k < |allBlocks| ==> allBlocks[k] < |blocks|)
    }

    /** Indexed, and the blocks form a well-formed tree. */
    ghost predicate Valid()
      reads this
    {
      && WellFormed(blocks)
      && Indexed()
    }

    /** NewEmptyPage: one empty block, which is the root and the only block
        recorded. `freshId` is the identifier the new block draws. */
    constructor NewEmptyPage(freshId: string)
      ensures Valid()
      ensures blocks == [NewEmptyBlock(freshId)] && root == 0 && allBlocks == [0]
      ensures name == "" && title == "" && namespace == "" && path == "" && pathInGraph == ""
      ensures kind == "page" && backlinks == [] && taggedLinks == []
    {
      name, title, namespace, path, pathInGraph := "", "", "", "", "";
      kind := "page";
      blocks := [NewEmptyBlock(freshId)];
      root := 0;
      allBlocks := [0];
      backlinks, taggedLinks := [], [];
    }

    /** The page LoadPage assembles. */
    constructor Loaded(name: string, title: string, namespace: string, path: string, pathInGraph: string,
                       blocks: seq<Block>, allBlocks: seq<nat>)
      requires WellFormed(blocks) && 0 < |blocks|
      requires forall k :: 0 <= k < |allBlocks| ==> allBlocks[k] < |blocks|
      ensures Valid()
      ensures this.name == name && this.title == title && this.namespace == namespace
      ensures this.path == path && this.pathInGraph == pathInGraph && kind == "page"
      ensures this.blocks == blocks && root == 0 && this.allBlocks == allBlocks
      ensures backlinks == [] && taggedLinks == []
    {
      this.name, this.title, this.namespace, this.path, this.pathInGraph := name, title, namespace, path, pathInGraph;
      kind := "page";
      this.blocks := blocks;
      root := 0;
      this.allBlocks := allBlocks;
      backlinks, taggedLinks := [], [];
    }

    /** Properties: the root block's properties. */
    function Properties(): PropertyMap
      reads this
      requires Indexed()
    {
      blocks[root].properties
    }

    /** Aliases: the `alias` property read as a ", "-separated list; none
        without one. */
    function Aliases(): (r: seq<string>)
      reads this
      requires Indexed()
      ensures "alias" !in Properties() ==> r == []
      ensures "alias" in Properties() ==> |r| >= 1 && Join(r, ", ") == Properties()["alias"]
      ensures forall a :: a in r ==> IndexOf(a, ", ") == -1
    {
      match Get(Properties(), "alias")
        case None => []
        case Some(p) => ListRoundTrip(p); p.List()
    }

    /** Tags: the root block's tags. */
    function Tags(): (r: seq<string>)
      reads this
      requires Indexed()
      ensures "tags" !in Properties() ==> r == []
      ensures "tags" in Properties() ==> |r| >= 1 && Join(r, ", ") == Properties()["tags"]
    {
      Blocks.Tags(blocks[root])
    }

    predicate IsJournal()
      reads this
    {
      IsJournalName(name)
    }

    /** A page that no file stands behind. */
    predicate IsPlaceholder()
      reads this
    {
      pathInGraph == ""
    }

    /** IsPublic: the root block's visibility. */
    predicate IsPublic()
      reads this
      requires Indexed()
    {
      Blocks.IsPublic(blocks, root)
    }

    /** Links: the links of every recorded block, block after block. */
    function Links(): seq<Link>
      reads this
      requires Indexed()
    {
      LinksOf(blocks, allBlocks)
    }

    function PageLinks(): (r: seq<Link>)
      reads this
      requires Indexed()
      ensures forall l :: l in r <==> l in Links() && l.linkType == LinkTypePage
    {
      OfType(Links(), LinkTypePage)
    }

    function TagLinks(): (r: seq<Link>)
      reads this
      requires Indexed()
      ensures forall l :: l in r <==> l in Links() && l.linkType == LinkTypeTag
    {
      OfType(Links(), LinkTypeTag)
    }

    /** The `hoist-namespace` property is present and reads as true. */
    predicate RequestsHoistedNamespace()
      reads this
      requires Indexed()
      ensures RequestsHoistedNamespace() <==> ValueOf(Properties(), "hoist-namespace") == "true"
    {
      match Get(Properties(), "hoist-namespace")
        case None => false
        case Some(p) => p.Bool()
    }

    /** Nothing but the kind changes. */
    twostate predicate OnlyKindChanged()
      reads this
    {
      && name == old(name) && title == old(title) && namespace == old(namespace)
      && path == old(path) && pathInGraph == old(pathInGraph)
      && blocks == old(blocks) && root == old(root) && allBlocks == old(allBlocks)
      && backlinks == old(backlinks) && taggedLinks == old(taggedLinks)
    }

    /** The page becomes a section; nothing else about it changes. */
    method MarkSection()
      modifies this
      ensures kind == "section" && OnlyKindChanged()
    {
      kind := "section";
    }

    /** Nothing but the recorded blocks changes. */
    twostate predicate OnlyWalkChanged()
      reads this
    {
      && name == old(name) && title == old(title) && namespace == old(namespace)
      && path == old(path) && pathInGraph == old(pathInGraph) && kind == old(kind)
      && blocks == old(blocks) && backlinks == old(backlinks) && taggedLinks == old(taggedLinks)
    }

    /** SetRoot: `r` becomes the root and the recorded blocks are exactly the
        pre-order walk of its tree; whatever was recorded before is dropped. */
    method SetRoot(r: nat)
      requires Valid() && r < |blocks|
      modifies this
      ensures Valid() && OnlyWalkChanged()
      ensures root == r && allBlocks == PreOrder(blocks, r)
    {
      root := r;
      allBlocks := [];
      AddTree(r);
    }

    /** AddTree: records the block, then the tree of each child in turn. */
    method AddTree(b: nat)
      requires Valid() && b < |blocks|
      modifies this
      ensures Valid() && OnlyWalkChanged() && root == old(root)
      ensures allBlocks == old(allBlocks) + PreOrder(blocks, b)
      decreases |blocks| - b
    {
      ghost var bs := blocks;
      allBlocks := allBlocks + [b];
      ghost var before := allBlocks;
      var children := blocks[b].children;
      for i := 0 to |children|
        invariant Valid() && OnlyWalkChanged() && root == old(root) && blocks == bs
        invariant allBlocks == before + PreOrderList(bs, b, children[..i])
      {
        ghost var here := allBlocks;
        AddTree(children[i]);
        WalkStep(bs, b, i, before, here, allBlocks);
      }
      WalkEnd(bs, b, old(allBlocks), before, allBlocks);
    }

    /** AddPublicTree: like AddTree, but a block that is not public is skipped
        together with everything below it. */
    method AddPublicTree(b: nat)
      requires Valid() && b < |blocks|
      modifies this
      ensures Valid() && OnlyWalkChanged() && root == old(root)
      ensures allBlocks == old(allBlocks) + PublicPreOrder(blocks, b)
      decreases |blocks| - b
    {
      if !Blocks.IsPublic(blocks, b) {
        return;
      }
      ghost var bs := blocks;
      allBlocks := allBlocks + [b];
      ghost var before := allBlocks;
      var children := blocks[b].children;
      for i := 0 to |children|
        invariant Valid() && OnlyWalkChanged() && root == old(root) && blocks == bs
        invariant allBlocks == before + PublicPreOrderList(bs, b, children[..i])
      {
        ghost var here := allBlocks;
        AddPublicTree(children[i]);
        PublicWalkStep(bs, b, i, before, here, allBlocks);
      }
      PublicWalkEnd(bs, b, old(allBlocks), before, allBlocks);
    }
  }

  /** A fresh page has no aliases, no tags, is private, is not hoisted and
      records only its root. */
  lemma {:induction false} EmptyPageDefaults(p: Page, freshId: string)
    requires p.Valid() && p.blocks == [NewEmptyBlock(freshId)] && p.root == 0 && p.allBlocks == [0]
    ensures p.Aliases() == [] && p.Tags() == []
    ensures !p.IsPublic() && !p.RequestsHoistedNamespace()
    ensures p.Links() == []
  {
    assert LinksOf(p.blocks, [0]) == LinksOf(p.blocks, []) + BlockLinks(p.blocks[0]);
  }

  /** SetRoot keeps a block exactly when it descends from the new root, so the
      old root is dropped unless it sits under the new one. */
  lemma {:induction false} SetRootMembers(bs: seq<Block>, r: nat, j: nat)
    requires WellFormed(bs) && r < |bs| && j < |bs|
    ensures j in PreOrder(bs, r) <==> Descends(bs, j, r)
  {
    PreOrderMembers(bs, r, j);
  }

  /** A page's page links and tag links are the links of its recorded blocks
      that have that type. */
  lemma {:induction false} PageLinksOfBlocks(p: Page, l: Link)
    requires p.Valid()
    ensures l in p.PageLinks() <==>
      l.linkType == LinkTypePage && exists k :: 0 <= k < |p.allBlocks| && l in BlockLinks(p.blocks[p.allBlocks[k]])
    ensures l in p.TagLinks() <==>
      l.linkType == LinkTypeTag && exists k :: 0 <= k < |p.allBlocks| && l in BlockLinks(p.blocks[p.allBlocks[k]])
  {
    LinksOfMembers(p.blocks, p.allBlocks, l);
  }

  /** Journal names: both separators are accepted; underscores are not. */
  lemma {:induction false} JournalNameExamples()
    ensures IsJournalName("2022-01-01") && IsJournalName("2022/01/01")
    ensures !IsJournalName("2022_01_01") && !IsJournalName("2022-01-1")
  {
  }

  lemma {:induction false} PreOrderListStep(bs: seq<Block>, b: nat, i: nat)
    requires ChildrenAfter(bs) && b < |bs| && i < |bs[b].children|
    ensures var cs := bs[b].children;
      PreOrderList(bs, b, cs[..i + 1]) == PreOrderList(bs, b, cs[..i]) + PreOrder(bs, cs[i])
  {
    var cs := bs[b].children;
    assert cs[..i + 1][..i] == cs[..i];
  }

  lemma {:induction false} PublicPreOrderListStep(bs: seq<Block>, b: nat, i: nat)
    requires ChildrenAfter(bs) && ParentsBefore(bs) && b < |bs| && i < |bs[b].children|
    ensures var cs := bs[b].children;
      PublicPreOrderList(bs, b, cs[..i + 1]) == PublicPreOrderList(bs, b, cs[..i]) + PublicPreOrder(bs, cs[i])
  {
    var cs := bs[b].children;
    assert cs[..i + 1][..i] == cs[..i];
  }

  /** One child's walk added to the walks of the children before it. */
  lemma {:induction false} WalkStep(bs: seq<Block>, b: nat, i: nat, before: seq<nat>, here: seq<nat>, after: seq<nat>)
    requires ChildrenAfter(bs) && b < |bs| && i < |bs[b].children|
    requires here == before + PreOrderList(bs, b, bs[b].children[..i])
    requires after == here + PreOrder(bs, bs[b].children[i])
    ensures after == before + PreOrderList(bs, b, bs[b].children[..i + 1])
  {
    PreOrderListStep(bs, b, i);
  }

  /** The block and the walks of all its children make its walk. */
  lemma {:induction false} WalkEnd(bs: seq<Block>, b: nat, start: seq<nat>, before: seq<nat>, after: seq<nat>)
    requires ChildrenAfter(bs) && b < |bs|
    requires before == start + [b]
    requires after == before + PreOrderList(bs, b, bs[b].children[..|bs[b].children|])
    ensures after == start + PreOrder(bs, b)
  {
    var cs := bs[b].children;
    assert cs[..|cs|] == cs;
    var walks := PreOrderList(bs, b, cs);
    assert PreOrder(bs, b) == [b] + walks;
    assert after == start + ([b] + walks);
  }

  lemma {:induction false} PublicWalkStep(bs: seq<Block>, b: nat, i: nat, before: seq<nat>, here: seq<nat>, after: seq<nat>)
    requires ChildrenAfter(bs) && ParentsBefore(bs) && b < |bs| && i < |bs[b].children|
    requires here == before + PublicPreOrderList(bs, b, bs[b].children[..i])
    requires after == here + PublicPreOrder(bs, bs[b].children[i])
    ensures after == before + PublicPreOrderList(bs, b, bs[b].children[..i + 1])
  {
    PublicPreOrderListStep(bs, b, i);
  }

  lemma {:induction false} PublicWalkEnd(bs: seq<Block>, b: nat, start: seq<nat>, before: seq<nat>, after: seq<nat>)
    requires ChildrenAfter(bs) && ParentsBefore(bs) && b < |bs| && IsPublic(bs, b)
    requires before == start + [b]
    requires after == before + PublicPreOrderList(bs, b, bs[b].children[..|bs[b].children|])
    ensures after == start + PublicPreOrder(bs, b)
  {
    var cs := bs[b].children;
    assert cs[..|cs|] == cs;
    var walks := PublicPreOrderList(bs, b, cs);
    assert after == before + walks;
    PublicWalkOf(bs, b);
    assert after == start + ([b] + walks);
  }

  /** The public walk of a public block: the block, then its children's walks. */
  lemma {:induction false} PublicWalkOf(bs: seq<Block>, b: nat)
    requires ChildrenAfter(bs) && ParentsBefore(bs) && b < |bs| && IsPublic(bs, b)
    ensures PublicPreOrder(bs, b) == [b] + PublicPreOrderList(bs, b, bs[b].children)
  {
  }
}
