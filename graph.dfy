/** The graph: every page keyed by its lower-cased name and every asset keyed
    by its path. Go leaves the order of a map's iteration open; here a map is
    walked in the fixed order of KeyOrder.Enumerate. */
module Graphs {
  import opened Common
  import opened Strs
  import opened KeyOrder
  import opened Links
  import opened Pages
  import opened Assets

  /** The links of a map's pages, one list per page, in the order the graph
      walks them. */
  function LinkLists(m: map<string, Page>): (r: seq<seq<Link>>)
    reads m.Values
    requires forall k :: k in m ==> m[k].Indexed()
  {
    var keys := Enumerate(m.Keys);
    seq(|keys|, i requires 0 <= i < |keys| && m[keys[i]].Indexed() reads m.Values => m[keys[i]].Links())
  }

  /** A link is among the pages' links exactly when one of the pages has it. */
  lemma {:induction false} LinkListsMembers(m: map<string, Page>, l: Link)
    requires forall k :: k in m ==> m[k].Indexed()
    ensures l in Concat(LinkLists(m)) <==> exists k :: k in m && l in m[k].Links()
  {
    if l in Concat(LinkLists(m)) {
      var k := LinkOwner(m, l);
    }
    if exists k :: k in m && l in m[k].Links() {
      var k :| k in m && l in m[k].Links();
      LinkOfOwner(m, l, k);
    }
  }

  /** A link of the pages belongs to one of them. */
  lemma {:induction false} LinkOwner(m: map<string, Page>, l: Link) returns (k: string)
    requires forall k :: k in m ==> m[k].Indexed()
    requires l in Concat(LinkLists(m))
    ensures k in m && l in m[k].Links()
  {
    var lss := LinkLists(m);
    ConcatMembers(lss, l);
    var j :| 0 <= j < |lss| && l in lss[j];
    k := Enumerate(m.Keys)[j];
  }

  /** Each page's links are among the pages' links. */
  lemma {:induction false} LinkOfOwner(m: map<string, Page>, l: Link, k: string)
    requires forall k :: k in m ==> m[k].Indexed()
    requires k in m && l in m[k].Links()
    ensures l in Concat(LinkLists(m))
  {
    var keys := Enumerate(m.Keys);
    var lss := LinkLists(m);
    assert k in keys;
    var j :| 0 <= j < |keys| && keys[j] == k;
    assert l in lss[j];
    ConcatMembers(lss, l);
  }

  /** The path of the first asset link whose target is not among `known`. */
  function MissingAsset(ls: seq<Link>, known: map<string, Asset>): (r: Option<string>)
    ensures r.None? <==> forall l :: l in ls && l.linkType == LinkTypeAsset ==> l.linkPath in known
    ensures r.Some? ==>
      && r.value !in known
      && exists l :: l in ls && l.linkType == LinkTypeAsset && l.linkPath == r.value
  {
    if ls == [] then None
    else if ls[0].linkType == LinkTypeAsset && ls[0].linkPath !in known then Some(ls[0].linkPath)
    else
      assert forall l :: l in ls <==> l == ls[0] || l in ls[1..];
      MissingAsset(ls[1..], known)
  }

  /** The paths the asset links among `ls` point at. */
  function Targets(ls: seq<Link>): set<string> {
    set l | l in ls && l.linkType == LinkTypeAsset :: l.linkPath
  }

  /** The asset targets of one more link: its target joins them when it is an
      asset link. */
  lemma {:induction false} TargetsStep(links: seq<Link>, i: nat, kept: map<string, Asset>, known: map<string, Asset>)
    requires i < |links|
    requires kept == map p | p in Targets(links[..i]) && p in known :: known[p]
    ensures var l := links[i];
      && Targets(links[..i + 1]) == Targets(links[..i]) + (if l.linkType == LinkTypeAsset then {l.linkPath} else {})
      && (l.linkType != LinkTypeAsset ==>
            kept == map p | p in Targets(links[..i + 1]) && p in known :: known[p])
      && (l.linkType == LinkTypeAsset && l.linkPath in known ==>
            kept[l.linkPath := known[l.linkPath]] == map p | p in Targets(links[..i + 1]) && p in known :: known[p])
  {
    assert links[..i + 1] == links[..i] + [links[i]];
  }

  /** The loop AssetLinks, PageLinks and ResourceLinks run: the links of one
      type, in order. */
  method KeepType(all: seq<Link>, t: LinkType) returns (r: seq<Link>)
    ensures r == OfType(all, t)
  {
    r := [];
    for i := 0 to |all|
      invariant r == OfType(all[..i], t)
    {
      assert all[..i + 1] == all[..i] + [all[i]];
      OfTypeSnoc(all[..i], all[i], t);
      if all[i].linkType == t {
        r := r + [all[i]];
      }
    }
    assert all[..|all|] == all;
  }

  /** The loop of FindLinksToPage: the links whose target is `target`, in
      order. */
  method KeepTarget(ls: seq<Link>, target: string) returns (r: seq<Link>)
    ensures r == ToTarget(ls, target)
  {
    r := [];
    for i := 0 to |ls|
      invariant r == ToTarget(ls[..i], target)
    {
      assert ls[..i + 1] == ls[..i] + [ls[i]];
      ToTargetSnoc(ls[..i], ls[i], target);
      if ls[i].linkPath == target {
        r := r + [ls[i]];
      }
    }
    assert ls[..|ls|] == ls;
  }

  /** The page whose alias list is the first of `lists` to hold `name`. */
  function FirstHolder(lists: seq<seq<string>>, name: string): (r: Option<nat>)
    ensures r.Some? ==> r.value < |lists| && name in lists[r.value]
    ensures r.Some? ==> forall j :: 0 <= j < r.value ==> name !in lists[j]
    ensures r.None? ==> forall j :: 0 <= j < |lists| ==> name !in lists[j]
  {
    if lists == [] then None
    else if name in lists[0] then Some(0)
    else match FirstHolder(lists[1..], name)
      case None => None
      case Some(i) => Some(i + 1)
  }

  /** The first list to hold `name` is the one at `i` when no list before it
      does. */
  lemma {:induction false} FirstHolderAt(lists: seq<seq<string>>, name: string, i: nat)
    requires i < |lists| && name in lists[i]
    requires forall j :: 0 <= j < i ==> name !in lists[j]
    ensures FirstHolder(lists, name) == Some(i)
  {
  }

  /** No list holds `name`: there is no first holder. */
  lemma {:induction false} FirstHolderNone(lists: seq<seq<string>>, name: string)
    requires forall j :: 0 <= j < |lists| ==> name !in lists[j]
    ensures FirstHolder(lists, name) == None
  {
  }

  /** The loop of Links: each page's links, in walking order, are appended
      to those of the pages before it. */
  method AppendAll(lss: seq<seq<Link>>) returns (links: seq<Link>)
    ensures links == Concat(lss)
  {
    links := [];
    for i := 0 to |lss|
      invariant links == Concat(lss[..i])
    {
      assert lss[..i + 1][..i] == lss[..i];
      links := links + lss[i];
    }
    assert lss[..|lss|] == lss;
  }

  /** The inner loops of FindPage: the pages are tried in walking order, and
      each page's aliases are compared with the name. */
  method SearchAliases(lists: seq<seq<string>>, name: string) returns (r: Option<nat>)
    ensures r == FirstHolder(lists, name)
  {
    for i := 0 to |lists|
      invariant forall j :: 0 <= j < i ==> name !in lists[j]
    {
      if name in lists[i] {
        FirstHolderAt(lists, name, i);
        return Some(i);
      }
    }
    FirstHolderNone(lists, name);
    return None;
  }

  /** The alias lists of a map's pages, in the order the graph walks them. */
  function AliasLists(m: map<string, Page>): (r: seq<seq<string>>)
    reads m.Values
    requires forall k :: k in m ==> m[k].Indexed()
    ensures |r| == |Enumerate(m.Keys)|
  {
    var keys := Enumerate(m.Keys);
    seq(|keys|, i requires 0 <= i < |keys| && m[keys[i]].Indexed() reads m.Values => m[keys[i]].Aliases())
  }

  /** The alias list at `i` is that of the page with the `i`th key. */
  lemma {:induction false} AliasListsAt(m: map<string, Page>, i: nat)
    requires forall k :: k in m ==> m[k].Indexed()
    requires i < |Enumerate(m.Keys)|
    ensures AliasLists(m)[i] == m[Enumerate(m.Keys)[i]].Aliases()
  {
  }

  /** The entries of `m` under the given keys. */
  function Restrict(m: map<string, Page>, keys: seq<string>): map<string, Page> {
    map k | k in keys && k in m :: m[k]
  }

  /** Restricting to one more key adds that key's entry, if any. */
  lemma {:induction false} RestrictStep(m: map<string, Page>, keys: seq<string>, i: nat)
    requires i < |keys|
    ensures Restrict(m, keys[..i + 1]) ==
      if keys[i] in m then Restrict(m, keys[..i])[keys[i] := m[keys[i]]] else Restrict(m, keys[..i])
  {
    assert keys[..i + 1] == keys[..i] + [keys[i]];
  }

  /** The first loop of PublicGraph: the pages of `pm` under `keys` that are
      public, the entries of `kept`, are added to `pub`, which starts with
      none. */
  method AddPublicPages(pub: Graph, pm: map<string, Page>, keys: seq<string>, ghost kept: map<string, Page>)
    requires pub.Valid() && pub.pages == map[]
    requires forall j :: 0 <= j < |keys| ==>
      keys[j] in pm && pm[keys[j]].Indexed() && Lower(pm[keys[j]].name) == keys[j]
    requires forall j :: 0 <= j < |keys| ==>
      (keys[j] in kept <==> pm[keys[j]].IsPublic()) && (keys[j] in kept ==> kept[keys[j]] == pm[keys[j]])
    requires forall i, j :: 0 <= i < j < |keys| ==> keys[i] != keys[j]
    modifies pub
    ensures pub.Valid() && pub.pages == Restrict(kept, keys)
    ensures pub.graphDir == old(pub.graphDir) && pub.assets == old(pub.assets)
  {
    for i := 0 to |keys|
      invariant pub.Valid() && pub.graphDir == old(pub.graphDir) && pub.assets == old(pub.assets)
      invariant pub.pages == Restrict(kept, keys[..i])
    {
      var page := pm[keys[i]];
      RestrictStep(kept, keys, i);
      assert keys[i] !in keys[..i];
      if page.IsPublic() {
        var added := pub.AddPage(page);
      }
    }
    assert keys[..|keys|] == keys;
  }

  /** The second loop of PublicGraph: the target of each asset link of
      `links` is carried over from the assets `known` to `pub` once; a
      target not known stops the loop with an error. */
  method AddLinkedAssets(pub: Graph, links: seq<Link>, known: map<string, Asset>) returns (r: Result<()>)
    requires pub.Valid() && pub.assets == map[]
    requires forall p :: p in known ==> known[p].pathInGraph == p
    modifies pub
    ensures pub.Valid() && pub.pages == old(pub.pages) && pub.graphDir == old(pub.graphDir)
    ensures MissingAsset(links, known).Some? ==> r == Err(AssetNotInGraph(MissingAsset(links, known).value))
    ensures MissingAsset(links, known).None? ==>
      r.Ok? && pub.assets == map p | p in Targets(links) && p in known :: known[p]
  {
    for i := 0 to |links|
      invariant pub.Valid() && pub.pages == old(pub.pages) && pub.graphDir == old(pub.graphDir)
      invariant MissingAsset(links, known) == MissingAsset(links[i..], known)
      invariant pub.assets == map p | p in Targets(links[..i]) && p in known :: known[p]
    {
      var link := links[i];
      assert links[i..][1..] == links[i + 1..];
      TargetsStep(links, i, pub.assets, known);
      if link.linkType == LinkTypeAsset {
        if link.linkPath !in known {
          return Err(AssetNotInGraph(link.linkPath));
        }
        if pub.FindAsset(link.linkPath).None? {
          var added := pub.AddAsset(known[link.linkPath]);
        }
      }
    }
    assert links[..|links|] == links;
    return Ok(());
  }

  /** The body of PublicGraph: a new graph in `graphDir` is given the pages
      of `pm` under `keys` that are among `wanted`, then the assets `links`
      point at. */
  method BuildPublicGraph(graphDir: string, pm: map<string, Page>, keys: seq<string>, ghost wanted: map<string, Page>,
                          links: seq<Link>, known: map<string, Asset>) returns (r: Result<Graph>)
    requires forall j :: 0 <= j < |keys| ==>
      keys[j] in pm && pm[keys[j]].Indexed() && Lower(pm[keys[j]].name) == keys[j]
    requires forall j :: 0 <= j < |keys| ==>
      (keys[j] in wanted <==> pm[keys[j]].IsPublic()) && (keys[j] in wanted ==> wanted[keys[j]] == pm[keys[j]])
    requires forall i, j :: 0 <= i < j < |keys| ==> keys[i] != keys[j]
    requires forall p :: p in known ==> known[p].pathInGraph == p
    ensures MissingAsset(links, known).Some? ==> r == Err(AssetNotInGraph(MissingAsset(links, known).value))
    ensures MissingAsset(links, known).None? ==>
      && r.Ok? && fresh(r.value) && r.value.Valid() && r.value.graphDir == graphDir
      && r.value.pages == Restrict(wanted, keys)
      && r.value.assets == map p | p in Targets(links) && p in known :: known[p]
  {
    var pub := new Graph.NewGraph();
    pub.graphDir := graphDir;
    AddPublicPages(pub, pm, keys, wanted);
    var carried := AddLinkedAssets(pub, links, known);
    if carried.Err? {
      return Err(carried.error);
    }
    return Ok(pub);
  }

  /** Another of the keys starts with `k`. */
  predicate ExtendedIn(keys: set<string>, k: string) {
    exists o :: o in keys && o != k && StartsWith(o, k)
  }

  /** The inner loop of PutPagesInContext: whether a key other than `k`
      starts with `k`. */
  method ExtendedByAnother(keys: seq<string>, k: string) returns (extended: bool)
    ensures extended <==> exists o :: o in keys && o != k && StartsWith(o, k)
  {
    for o := 0 to |keys|
      invariant forall j :: 0 <= j < o ==> !(keys[j] != k && StartsWith(keys[j], k))
    {
      if keys[o] == k {
        continue;
      }
      if StartsWith(keys[o], k) {
        return true;
      }
    }
    return false;
  }

  /** The outer loop of PutPagesInContext: the page under each of the keys
      becomes a section when another of the keys extends its key, and
      nothing else about any page changes. */
  method MarkSections(pm: map<string, Page>, keys: seq<string>)
    requires forall j :: 0 <= j < |keys| ==> keys[j] in pm
    requires forall i, j :: 0 <= i < j < |keys| ==> pm[keys[i]] != pm[keys[j]]
    modifies pm.Values
    ensures forall j :: 0 <= j < |keys| ==> pm[keys[j]].OnlyKindChanged()
    ensures forall j :: 0 <= j < |keys| ==>
      pm[keys[j]].kind == if ExtendedIn((set k | k in keys), keys[j]) then "section" else old(pm[keys[j]].kind)
  {
    for i := 0 to |keys|
      invariant forall j :: 0 <= j < |keys| ==> pm[keys[j]].OnlyKindChanged()
      invariant forall j :: 0 <= j < |keys| ==>
        pm[keys[j]].kind == if j < i && ExtendedIn((set k | k in keys), keys[j]) then "section" else old(pm[keys[j]].kind)
    {
      var extended := ExtendedByAnother(keys, keys[i]);
      if extended {
        pm[keys[i]].MarkSection();
      }
    }
  }

  /** The keys listed are the keys of the map. */
  lemma {:induction false} ListedKeys(pm: map<string, Page>, keys: seq<string>)
    requires forall k :: k in keys <==> k in pm
    ensures (set k | k in keys) == pm.Keys
  {
  }

  /** PutPagesInContext over a map holding each page once: the page under
      each key becomes a section when another key extends it, and nothing else
      about any page changes. */
  method MarkAllSections(pm: map<string, Page>)
    requires forall k, k' :: k in pm && k' in pm && k != k' ==> pm[k] != pm[k']
    modifies pm.Values
    ensures forall k :: k in pm ==>
      && pm[k].OnlyKindChanged()
      && pm[k].kind == if ExtendedIn(pm.Keys, k) then "section" else old(pm[k].kind)
  {
    var keys := Enumerate(pm.Keys);
    MarkSections(pm, keys);
    ListedKeys(pm, keys);
    forall k | k in pm
      ensures pm[k].OnlyKindChanged()
      ensures pm[k].kind == if ExtendedIn(pm.Keys, k) then "section" else old(pm[k].kind)
    {
      var j :| 0 <= j < |keys| && keys[j] == k;
    }
  }

  class Graph {
    var graphDir: string
    var pages: map<string, Page>
    var assets: map<string, Asset>

    /** Every page is well formed and stored under its lower-cased name, so
        no page is stored twice; every asset is stored under its own path. */
    ghost predicate Valid()
      reads this, pages.Values
    {
      && (forall k :: k in pages ==> pages[k].Indexed() && k == Lower(pages[k].name))
      && (forall p :: p in assets ==> assets[p].pathInGraph == p)
    }

    /** NewGraph: no pages, no assets. */
    constructor NewGraph()
      ensures Valid() && graphDir == "" && pages == map[] && assets == map[]
    {
      graphDir := "";
      pages := map[];
      assets := map[];
    }

    /** AddAsset: stores the asset under its path, unless an asset is stored
        there already; then the graph is left as it was. */
    method AddAsset(asset: Asset) returns (r: Result<()>)
      requires Valid()
      modifies this
      ensures Valid() && graphDir == old(graphDir) && pages == old(pages)
      ensures old(asset.pathInGraph in assets) ==> r == Err(AssetExists(asset.pathInGraph)) && assets == old(assets)
      ensures old(asset.pathInGraph !in assets) ==> r == Ok(()) && assets == old(assets)[asset.pathInGraph := asset]
    {
      var key := asset.pathInGraph;
      if key in assets {
        return Err(AssetExists(asset.pathInGraph));
      }
      assets := assets[key := asset];
      return Ok(());
    }

    /** AddPage: stores the page under its lower-cased name, unless a page is
        stored there already; then the graph is left as it was. */
    method AddPage(page: Page) returns (r: Result<()>)
      requires Valid() && page.Indexed()
      modifies this
      ensures Valid() && graphDir == old(graphDir) && assets == old(assets)
      ensures old(Lower(page.name) in pages) ==> r == Err(PageExists(page.name)) && pages == old(pages)
      ensures old(Lower(page.name) !in pages) ==> r == Ok(()) && pages == old(pages)[Lower(page.name) := page]
    {
      var key := Lower(page.name);
      if key in pages {
        return Err(PageExists(page.name));
      }
      LowerIdempotent(page.name);
      pages := pages[key := page];
      return Ok(());
    }

    /** FindAsset: the asset stored at exactly this path, if any. */
    function FindAsset(path: string): (r: Option<Asset>)
      reads this, pages.Values
      requires Valid()
      ensures r.Some? <==> path in assets
      ensures r.Some? ==> r.value == assets[path] && r.value.pathInGraph == path
    {
      if path in assets then Some(assets[path]) else None
    }

    /** What FindPage finds: the page stored under the lower-cased name; else
        the first page, in walking order, with the name as an alias; else
        nothing. */
    function PageNamed(name: string): Result<Page>
      reads this, pages.Values
      requires Valid()
    {
      var keys := Enumerate(pages.Keys);
      if Lower(name) in pages then Ok(pages[Lower(name)])
      else match FirstHolder(AliasLists(pages), name)
        case Some(i) => Ok(pages[keys[i]])
        case None => Err(PageNotFound(name))
    }

    /** FindPage. */
    method FindPage(name: string) returns (r: Result<Page>)
      requires Valid()
      ensures r == PageNamed(name)
    {
      var key := Lower(name);
      if key in pages {
        return Ok(pages[key]);
      }
      var keys := Enumerate(pages.Keys);
      var holder := SearchAliases(AliasLists(pages), name);
      if holder.Some? {
        return Ok(pages[keys[holder.value]]);
      }
      return Err(PageNotFound(name));
    }

    /** What FindPage finds is a page of the graph, found by key or by
        alias; it finds nothing only when no page has the name as key or
        alias. */
    lemma {:induction false} FoundPage(name: string)
      requires Valid()
      ensures PageNamed(name).Ok? ==>
        && PageNamed(name).value in pages.Values
        && (Lower(name) in pages || name in PageNamed(name).value.Aliases())
      ensures PageNamed(name).Err? <==>
        Lower(name) !in pages && forall k :: k in pages ==> name !in pages[k].Aliases()
      ensures PageNamed(name).Err? ==> PageNamed(name).error == PageNotFound(name)
    {
      var keys := Enumerate(pages.Keys);
      var lists := AliasLists(pages);
      match FirstHolder(lists, name)
        case Some(i) => AliasListsAt(pages, i);
        case None =>
      if Lower(name) !in pages && FirstHolder(lists, name).None? {
        forall k | k in pages
          ensures name !in pages[k].Aliases()
        {
          var j :| 0 <= j < |keys| && keys[j] == k;
          AliasListsAt(pages, j);
        }
      }
    }

    /** Every link of every page, page after page. */
    function AllLinks(): seq<Link>
      reads this, pages.Values
      requires Valid()
    {
      Concat(LinkLists(pages))
    }

    /** A link is a link of the graph exactly when some page has it. */
    lemma {:induction false} AllLinksMembers(l: Link)
      requires Valid()
      ensures l in AllLinks() <==> exists k :: k in pages && l in pages[k].Links()
    {
      LinkListsMembers(pages, l);
    }

    /** A graph without pages has no links of any type. */
    lemma {:induction false} EmptyGraphLinks()
      requires Valid() && pages == map[]
      ensures AllLinks() == []
    {
      assert LinkLists(pages) == [];
    }

    /** Links: the links of every page, page after page. */
    method Links() returns (links: seq<Link>)
      requires Valid()
      ensures links == AllLinks()
    {
      links := AppendAll(LinkLists(pages));
    }

    /** AssetLinks: the graph's asset links. */
    method AssetLinks() returns (r: seq<Link>)
      requires Valid()
      ensures forall l :: l in r <==> l in AllLinks() && l.linkType == LinkTypeAsset
      ensures r == OfType(AllLinks(), LinkTypeAsset)
    {
      var all := Links();
      r := KeepType(all, LinkTypeAsset);
    }

    /** PageLinks: the graph's page links. */
    method PageLinks() returns (r: seq<Link>)
      requires Valid()
      ensures forall l :: l in r <==> l in AllLinks() && l.linkType == LinkTypePage
      ensures r == OfType(AllLinks(), LinkTypePage)
    {
      var all := Links();
      r := KeepType(all, LinkTypePage);
    }

    /** ResourceLinks: the graph's links to outside resources. */
    method ResourceLinks() returns (r: seq<Link>)
      requires Valid()
      ensures forall l :: l in r <==> l in AllLinks() && l.linkType == LinkTypeResource
      ensures r == OfType(AllLinks(), LinkTypeResource)
    {
      var all := Links();
      r := KeepType(all, LinkTypeResource);
    }

    /** FindLinksToPage: the page links that name the page exactly, case and
        all, in the order the graph lists them. */
    method FindLinksToPage(page: Page) returns (r: seq<Link>)
      requires Valid()
      ensures forall l :: l in r <==>
        l in AllLinks() && l.linkType == LinkTypePage && l.linkPath == page.name
      ensures r == ToTarget(OfType(AllLinks(), LinkTypePage), page.name)
    {
      var pageLinks := PageLinks();
      r := KeepTarget(pageLinks, page.name);
    }

    /** The public pages, under the keys they have here. */
    function PublicPages(): (r: map<string, Page>)
      reads this, pages.Values
      requires Valid()
      ensures forall k :: k in r <==> k in pages && pages[k].IsPublic()
    {
      map k | k in pages && pages[k].IsPublic() :: pages[k]
    }

    /** The links of the public pages, in the order the public graph walks
        them. */
    function PublicLinks(): seq<Link>
      reads this, pages.Values
      requires Valid()
    {
      Concat(LinkLists(PublicPages()))
    }

    /** The public graph's links are exactly the links of public pages. */
    lemma {:induction false} PublicLinksMembers(l: Link)
      requires Valid()
      ensures l in PublicLinks() <==> exists k :: k in pages && pages[k].IsPublic() && l in pages[k].Links()
    {
      LinkListsMembers(PublicPages(), l);
    }

    /** PublicGraph: a new graph holding the public pages under their keys and
        the assets their asset links point at, each once. An asset link whose
        target the graph does not have is an error, the first one met. */
    method PublicGraph() returns (r: Result<Graph>)
      requires Valid()
      ensures var missing := MissingAsset(old(PublicLinks()), assets);
        && (missing.Some? ==> r == Err(AssetNotInGraph(missing.value)))
        && (missing.None? ==>
              && r.Ok? && fresh(r.value) && r.value.Valid() && r.value.graphDir == graphDir
              && r.value.pages == old(PublicPages())
              && r.value.assets == map p | p in Targets(old(PublicLinks())) && p in assets :: assets[p])
    {
      var keys := Enumerate(pages.Keys);
      ghost var wanted := PublicPages();
      PublicPagesByKey(keys);
      // The public graph's links are those of the public pages in walking
      // order; they are read here, before the public graph is built.
      var links := PublicLinks();
      r := BuildPublicGraph(graphDir, pages, keys, wanted, links, assets);
    }

    /** The public pages, key by key in walking order: every key holds a
        readable page stored under its lower-cased name, the public ones are
        kept, and keeping them key by key keeps them all. */
    lemma {:induction false} PublicPagesByKey(keys: seq<string>)
      requires Valid() && keys == Enumerate(pages.Keys)
      ensures forall j :: 0 <= j < |keys| ==>
        keys[j] in pages && pages[keys[j]].Indexed() && Lower(pages[keys[j]].name) == keys[j]
      ensures forall j :: 0 <= j < |keys| ==>
        (keys[j] in PublicPages() <==> pages[keys[j]].IsPublic())
        && (keys[j] in PublicPages() ==> PublicPages()[keys[j]] == pages[keys[j]])
      ensures forall i, j :: 0 <= i < j < |keys| ==> keys[i] != keys[j]
      ensures Restrict(PublicPages(), keys) == PublicPages()
    {
      var wanted := PublicPages();
      forall j | 0 <= j < |keys|
        ensures keys[j] in pages && pages[keys[j]].Indexed() && Lower(pages[keys[j]].name) == keys[j]
      {
      }
      forall k | k in wanted
        ensures k in keys
      {
      }
      assert Restrict(wanted, keys) == wanted;
    }

    /** PutPagesInContext: a page becomes a section when the key of another
        page starts with its key; no other page and no other field changes. */
    method PutPagesInContext()
      requires Valid()
      modifies pages.Values
      ensures Valid()
      ensures forall k :: k in pages ==>
        && pages[k].OnlyKindChanged()
        && pages[k].kind == if IsSection(k) then "section" else old(pages[k].kind)
    {
      KeysHoldDistinctPages();
      MarkAllSections(pages);
      KindsKeepValid();
    }

    /** Changing only the kinds of the pages keeps the graph valid. */
    twostate lemma KindsKeepValid()
      requires old(Valid()) && pages == old(pages) && assets == old(assets)
      requires forall k :: k in pages ==> pages[k].OnlyKindChanged()
      ensures Valid()
    {
      forall k | k in pages
        ensures pages[k].Indexed() && k == Lower(pages[k].name)
      {
        assert old(pages[k].Indexed());
      }
    }

    /** Distinct keys hold distinct pages. */
    lemma {:induction false} KeysHoldDistinctPages()
      requires Valid()
      ensures forall k, k' :: k in pages && k' in pages && k != k' ==> pages[k] != pages[k']
    {
    }

    /** Another page's key extends this key. */
    predicate IsSection(k: string)
      reads this
    {
      ExtendedIn(pages.Keys, k)
    }
  }
}
