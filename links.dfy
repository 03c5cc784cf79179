/** A link found in a block: what kind of thing it points at, the path it points
    to, the label it shows and the raw text it was written as. */
module Links {
  import opened Common

  datatype LinkType = LinkTypePage | LinkTypeTag | LinkTypeBlock | LinkTypeAsset | LinkTypeResource

  datatype Link = Link(
    raw: string,        // the matched source text, replaced when the block is exported
    linksFrom: string,  // the block the link was found in
    linkPath: string,   // the page name, tag name, block id or asset path
    linkLabel: string,  // the text shown for the link
    linkType: LinkType,
    isEmbed: bool)

  /** The links of `ls` of the given type, in their original order. */
  function OfType(ls: seq<Link>, t: LinkType): (r: seq<Link>)
    ensures |r| <= |ls|
    ensures forall l :: l in r <==> l in ls && l.linkType == t
  {
    Filter(ls, (l: Link) => l.linkType == t)
  }

  /** Filtering by type distributes over concatenation, so the links of a type
      in a whole are those of its parts, part by part. */
  lemma {:induction false} OfTypeConcat(xs: seq<Link>, ys: seq<Link>, t: LinkType)
    ensures OfType(xs + ys, t) == OfType(xs, t) + OfType(ys, t)
  {
    FilterConcat(xs, ys, (l: Link) => l.linkType == t);
  }

  /** One more link joins the links of its type when it has that type. */
  lemma {:induction false} OfTypeSnoc(xs: seq<Link>, x: Link, t: LinkType)
    ensures OfType(xs + [x], t) == OfType(xs, t) + (if x.linkType == t then [x] else [])
  {
    OfTypeConcat(xs, [x], t);
    assert [x][1..] == [];
  }

  /** The links of `ls` whose path is exactly `target`, in their original order. */
  function ToTarget(ls: seq<Link>, target: string): (r: seq<Link>)
    ensures |r| <= |ls|
    ensures forall l :: l in r <==> l in ls && l.linkPath == target
  {
    Filter(ls, (l: Link) => l.linkPath == target)
  }

  /** One more link joins the links to a target when it points there. */
  lemma {:induction false} ToTargetSnoc(xs: seq<Link>, x: Link, target: string)
    ensures ToTarget(xs + [x], target) == ToTarget(xs, target) + (if x.linkPath == target then [x] else [])
  {
    FilterConcat(xs, [x], (l: Link) => l.linkPath == target);
    assert [x][1..] == [];
  }
}
