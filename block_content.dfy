/** The content of a block: its markdown with any callout unwrapped, the callout
    kind, and the links found in the markdown keyed by their path. */
module BlockContents {
  import opened Common
  import opened Strs
  import opened Links
  import opened LinkScan
  import opened Callouts

  /** A map of links in which every link sits under its own path and comes from
      the given block. */
  ghost predicate KeyedFrom(links: map<string, Link>, from: string) {
    forall p :: p in links ==> links[p].linkPath == p && links[p].linksFrom == from
  }

  /** AddLink on the link map: a path already present keeps its link; a new path
      gets the link, stamped as coming from `from`. */
  function AddOne(links: map<string, Link>, from: string, l: Link): (r: map<string, Link>)
    ensures l.linkPath in links ==> r == links
    ensures l.linkPath !in links ==> r == links[l.linkPath := l.(linksFrom := from)]
  {
    if l.linkPath in links then links else links[l.linkPath := l.(linksFrom := from)]
  }

  /** The links of `ls` added one after another. */
  function AddAll(links: map<string, Link>, from: string, ls: seq<Link>): (r: map<string, Link>)
    decreases |ls|
  {
    if ls == [] then links else AddAll(AddOne(links, from, ls[0]), from, ls[1..])
  }

  lemma {:induction false} AddAllSnoc(links: map<string, Link>, from: string, ls: seq<Link>, l: Link)
    ensures AddAll(links, from, ls + [l]) == AddOne(AddAll(links, from, ls), from, l)
    decreases |ls|
  {
    if ls == [] {
      assert AddAll(AddOne(links, from, l), from, []) == AddOne(links, from, l);
    } else {
      assert (ls + [l])[1..] == ls[1..] + [l];
      AddAllSnoc(AddOne(links, from, ls[0]), from, ls[1..], l);
    }
  }

  lemma {:induction false} AddAllConcat(links: map<string, Link>, from: string, xs: seq<Link>, ys: seq<Link>)
    ensures AddAll(links, from, xs + ys) == AddAll(AddAll(links, from, xs), from, ys)
    decreases |xs|
  {
    if xs != [] {
      assert (xs + ys)[1..] == xs[1..] + ys;
      AddAllConcat(AddOne(links, from, xs[0]), from, xs[1..], ys);
    } else {
      assert xs + ys == ys;
    }
  }

  /** Adding links never overwrites one already present. */
  lemma {:induction false} AddAllKeeps(links: map<string, Link>, from: string, ls: seq<Link>)
    ensures forall p :: p in links ==> p in AddAll(links, from, ls) && AddAll(links, from, ls)[p] == links[p]
    decreases |ls|
  {
    if ls != [] {
      AddAllKeeps(AddOne(links, from, ls[0]), from, ls[1..]);
    }
  }

  /** The paths afterwards are the paths before and the paths of the added links. */
  lemma {:induction false} AddAllKeys(links: map<string, Link>, from: string, ls: seq<Link>)
    ensures AddAll(links, from, ls).Keys == links.Keys + set l | l in ls :: l.linkPath
    decreases |ls|
  {
    if ls != [] {
      AddAllKeys(AddOne(links, from, ls[0]), from, ls[1..]);
      assert ls == [ls[0]] + ls[1..];
      assert (set l | l in ls :: l.linkPath) == {ls[0].linkPath} + set l | l in ls[1..] :: l.linkPath;
    }
  }

  /** Adding keeps every link under its own path and stamped with its block. */
  lemma {:induction false} AddAllKeyed(links: map<string, Link>, from: string, ls: seq<Link>)
    requires KeyedFrom(links, from)
    ensures KeyedFrom(AddAll(links, from, ls), from)
    decreases |ls|
  {
    if ls != [] {
      AddAllKeyed(AddOne(links, from, ls[0]), from, ls[1..]);
    }
  }

  /** A new path holds the first link of `ls` with that path. */
  lemma {:induction false} AddAllFirstWins(links: map<string, Link>, from: string, ls: seq<Link>, i: nat)
    requires i < |ls| && ls[i].linkPath !in links
    requires forall j :: 0 <= j < i ==> ls[j].linkPath != ls[i].linkPath
    ensures ls[i].linkPath in AddAll(links, from, ls)
    ensures AddAll(links, from, ls)[ls[i].linkPath] == ls[i].(linksFrom := from)
  {
    var p := ls[i].linkPath;
    assert ls == ls[..i] + [ls[i]] + ls[i + 1..];
    AddAllConcat(links, from, ls[..i] + [ls[i]], ls[i + 1..]);
    AddAllSnoc(links, from, ls[..i], ls[i]);
    AddAllKeys(links, from, ls[..i]);
    var before := AddAll(links, from, ls[..i]);
    assert p !in before;
    AddAllKeeps(AddOne(before, from, ls[i]), from, ls[i + 1..]);
  }

  /** When a path first appears in `xs`, adding `ys` after `xs` leaves its link
      as `xs` put it: an earlier kind of link wins over a later one. */
  lemma {:induction false} EarlierWins(links: map<string, Link>, from: string, xs: seq<Link>, ys: seq<Link>, p: string)
    requires exists l :: l in xs && l.linkPath == p
    ensures p in AddAll(links, from, xs) && p in AddAll(links, from, xs + ys)
    ensures AddAll(links, from, xs + ys)[p] == AddAll(links, from, xs)[p]
  {
    AddAllKeys(links, from, xs);
    AddAllConcat(links, from, xs, ys);
    AddAllKeeps(AddAll(links, from, xs), from, ys);
  }

  /** Markdown holding a code fence. */
  predicate HasCodeFence(md: string) {
    Contains(md, "```")
  }

  /** findLinks: nothing in a code block; otherwise page links, then asset links,
      then tags, each in the order they appear. */
  function ExtractLinks(md: string, from: string): (r: seq<Link>)
    ensures HasCodeFence(md) ==> r == []
    ensures !HasCodeFence(md) ==> r == PageLinks(md, from) + AssetLinks(md, from) + TagLinks(md, from)
  {
    if HasCodeFence(md) then [] else PageLinks(md, from) + AssetLinks(md, from) + TagLinks(md, from)
  }

  /** The link stored for a path named by a page link is that page link, whatever
      asset link or tag shares the path; likewise an asset link wins over a tag. */
  lemma {:induction false} PageLinkPrecedence(md: string, from: string, l: Link)
    requires !HasCodeFence(md) && l in PageLinks(md, from)
    ensures l.linkPath in AddAll(map[], from, ExtractLinks(md, from))
    ensures AddAll(map[], from, ExtractLinks(md, from))[l.linkPath].linkType == LinkTypePage
  {
    var ps := PageLinks(md, from);
    EarlierWins(map[], from, ps, AssetLinks(md, from) + TagLinks(md, from), l.linkPath);
    assert ExtractLinks(md, from) == ps + (AssetLinks(md, from) + TagLinks(md, from));
    AddAllStoredFrom(map[], from, ps, l.linkPath);
  }

  lemma {:induction false} AssetLinkPrecedence(md: string, from: string, l: Link)
    requires !HasCodeFence(md) && l in AssetLinks(md, from)
    requires forall pl :: pl in PageLinks(md, from) ==> pl.linkPath != l.linkPath
    ensures l.linkPath in AddAll(map[], from, ExtractLinks(md, from))
    ensures AddAll(map[], from, ExtractLinks(md, from))[l.linkPath].linkType == LinkTypeAsset
  {
    var ps := PageLinks(md, from);
    var xs := AssetLinks(md, from);
    AddAllKeys(map[], from, ps);
    var afterPages := AddAll(map[], from, ps);
    assert l.linkPath !in afterPages;
    EarlierWins(afterPages, from, xs, TagLinks(md, from), l.linkPath);
    AddAllConcat(map[], from, ps, xs + TagLinks(md, from));
    assert ExtractLinks(md, from) == ps + (xs + TagLinks(md, from));
    AddAllStoredFrom(afterPages, from, xs, l.linkPath);
  }

  /** A path that was new holds one of the added links, stamped. */
  lemma {:induction false} AddAllStoredFrom(links: map<string, Link>, from: string, ls: seq<Link>, p: string)
    requires p !in links && p in AddAll(links, from, ls)
    ensures exists l :: l in ls && AddAll(links, from, ls)[p] == l.(linksFrom := from)
    decreases |ls|
  {
    if ls == [] {
    } else if ls[0].linkPath == p {
      AddAllKeeps(AddOne(links, from, ls[0]), from, ls[1..]);
    } else {
      AddAllStoredFrom(AddOne(links, from, ls[0]), from, ls[1..], p);
      var l :| l in ls[1..] && AddAll(links, from, ls)[p] == l.(linksFrom := from);
      assert l in ls;
    }
  }

  /** A block's content as a value, as NewBlockContent leaves it. */
  datatype Content = Content(blockId: string, markdown: string, links: map<string, Link>, callout: string)

  /** NewBlockContent: the raw source, unwrapped and searched for links. */
  function NewContent(blockId: string, rawSource: string): (r: Result<Content>)
    ensures r.Err? <==> Unwrap(rawSource).Err?
    ensures r.Ok? ==> r.value.blockId == blockId && r.value.markdown == Unwrap(rawSource).value.markdown
    ensures r.Ok? ==> r.value.links == AddAll(map[], blockId, ExtractLinks(r.value.markdown, blockId))
    ensures r.Ok? && Unwrap(rawSource).value.callout.None? ==> r.value.callout == ""
    ensures r.Ok? && Unwrap(rawSource).value.callout.Some? ==> r.value.callout == Unwrap(rawSource).value.callout.value
  {
    match Unwrap(rawSource)
      case Err(e) => Err(e)
      case Ok(u) =>
        var md := u.markdown;
        Ok(Content(blockId, md, AddAll(map[], blockId, ExtractLinks(md, blockId)),
                   if u.callout.Some? then u.callout.value else ""))
  }

  /** Every link of new content sits under its own path and names its block. */
  lemma {:induction false} NewContentKeyed(blockId: string, rawSource: string)
    requires NewContent(blockId, rawSource).Ok?
    ensures KeyedFrom(NewContent(blockId, rawSource).value.links, blockId)
  {
    var md := NewContent(blockId, rawSource).value.markdown;
    AddAllKeyed(map[], blockId, ExtractLinks(md, blockId));
  }

  /** Source with no callout and no code fence keeps its markdown, has no
      callout kind, and holds a link for exactly the paths its page links, asset
      links and tags name. */
  lemma {:induction false} PlainContent(blockId: string, rawSource: string)
    requires !Contains(rawSource, Begin) && !HasCodeFence(rawSource)
    ensures NewContent(blockId, rawSource).Ok?
    ensures NewContent(blockId, rawSource).value.markdown == rawSource
    ensures NewContent(blockId, rawSource).value.callout == ""
    ensures NewContent(blockId, rawSource).value.links.Keys ==
      set l | l in PageLinks(rawSource, blockId) + AssetLinks(rawSource, blockId) + TagLinks(rawSource, blockId) :: l.linkPath
  {
    NoBeginNoCallout(rawSource);
    AddAllKeys(map[], blockId, ExtractLinks(rawSource, blockId));
  }

  /** Content in a code block has no links. */
  lemma {:induction false} CodeBlockHasNoLinks(blockId: string, rawSource: string)
    requires NewContent(blockId, rawSource).Ok?
    requires HasCodeFence(NewContent(blockId, rawSource).value.markdown)
    ensures NewContent(blockId, rawSource).value.links == map[]
  {
  }

  /** A block's content while it is being built. */
  class BlockContent {
    var blockId: string
    var markdown: string
    var links: map<string, Link>
    var callout: string

    /** NewEmptyBlockContent */
    constructor ()
      ensures blockId == "" && markdown == "" && links == map[] && callout == ""
    {
      blockId := "";
      markdown := "";
      links := map[];
      callout := "";
    }

    function Value(): Content
      reads this
    {
      Content(blockId, markdown, links, callout)
    }

    /** FindLink: the link stored under `path`, if any. */
    function FindLink(path: string): (r: Option<Link>)
      reads this
      ensures r.Some? <==> path in links
      ensures r.Some? ==> r.value == links[path]
    {
      if path in links then Some(links[path]) else None
    }

    predicate IsCodeBlock()
      reads this
    {
      HasCodeFence(markdown)
    }

    /** AddLink: a link whose path is already present is dropped and reported as
        None (Go hands back the zero Link); otherwise it is stored, stamped with
        this block, and returned. */
    method AddLink(link: Link) returns (added: Option<Link>)
      modifies this
      ensures links == AddOne(old(links), blockId, link)
      ensures added.None? <==> link.linkPath in old(links)
      ensures added.Some? ==> added.value == link.(linksFrom := blockId) && links[link.linkPath] == added.value
      ensures blockId == old(blockId) && markdown == old(markdown) && callout == old(callout)
    {
      if FindLink(link.linkPath).Some? {
        return None;
      }
      var stamped := link.(linksFrom := blockId);
      links := links[link.linkPath := stamped];
      return Some(stamped);
    }

    /** The loop each find*Links method runs over its matches. */
    method AddEach(ls: seq<Link>)
      modifies this
      ensures links == AddAll(old(links), blockId, ls)
      ensures blockId == old(blockId) && markdown == old(markdown) && callout == old(callout)
    {
      for i := 0 to |ls|
        invariant links == AddAll(old(links), blockId, ls[..i])
        invariant blockId == old(blockId) && markdown == old(markdown) && callout == old(callout)
      {
        AddAllSnoc(old(links), blockId, ls[..i], ls[i]);
        assert ls[..i + 1] == ls[..i] + [ls[i]];
        var _ := AddLink(ls[i]);
      }
      assert ls[..|ls|] == ls;
    }

    method FindPageLinks()
      modifies this
      ensures links == AddAll(old(links), blockId, PageLinks(markdown, blockId))
      ensures blockId == old(blockId) && markdown == old(markdown) && callout == old(callout)
    {
      AddEach(PageLinks(markdown, blockId));
    }

    method FindAssetLinks()
      modifies this
      ensures links == AddAll(old(links), blockId, AssetLinks(markdown, blockId))
      ensures blockId == old(blockId) && markdown == old(markdown) && callout == old(callout)
    {
      AddEach(AssetLinks(markdown, blockId));
    }

    method FindTagLinks()
      modifies this
      ensures links == AddAll(old(links), blockId, TagLinks(markdown, blockId))
      ensures blockId == old(blockId) && markdown == old(markdown) && callout == old(callout)
    {
      AddEach(TagLinks(markdown, blockId));
    }

    /** findLinks: code blocks are skipped; otherwise page links, asset links and
        tags are added in that order. */
    method FindLinks()
      modifies this
      ensures links == AddAll(old(links), blockId, ExtractLinks(markdown, blockId))
      ensures blockId == old(blockId) && markdown == old(markdown) && callout == old(callout)
    {
      if IsCodeBlock() {
        return;
      }
      ghost var start := links;
      FindPageLinks();
      FindAssetLinks();
      FindTagLinks();
      AddAllConcat(start, blockId, PageLinks(markdown, blockId), AssetLinks(markdown, blockId));
      AddAllConcat(start, blockId, PageLinks(markdown, blockId) + AssetLinks(markdown, blockId), TagLinks(markdown, blockId));
    }

    /** SetMarkdown: unwraps a callout, stores the markdown, and finds its links.
        A callout whose closer differs from its opener is reported and nothing
        changes. */
    method SetMarkdown(md: string) returns (err: Option<Error>)
      modifies this
      ensures blockId == old(blockId)
      ensures match Unwrap(md)
        case Err(e) => err == Some(e) && links == old(links) && markdown == old(markdown) && callout == old(callout)
        case Ok(u) =>
          && err.None? && markdown == u.markdown
          && links == AddAll(old(links), blockId, ExtractLinks(markdown, blockId))
          && callout == (if u.callout.Some? then u.callout.value else old(callout))
    {
      var u := Unwrap(md);
      if u.Err? {
        return Some(u.error);
      }
      if u.value.callout.Some? {
        callout := u.value.callout.value;
      }
      markdown := u.value.markdown;
      FindLinks();
      return None;
    }
  }

  /** NewBlockContent: fresh content for the block, filled from the raw source. */
  method NewBlockContent(blockId: string, rawSource: string) returns (r: Result<BlockContent>)
    ensures r.Err? <==> NewContent(blockId, rawSource).Err?
    ensures r.Err? ==> r.error == NewContent(blockId, rawSource).error
    ensures r.Ok? ==> fresh(r.value) && r.value.Value() == NewContent(blockId, rawSource).value
  {
    var content := new BlockContent();
    content.blockId := blockId;
    var err := content.SetMarkdown(rawSource);
    if err.Some? {
      return Err(err.value);
    }
    return Ok(content);
  }
}
