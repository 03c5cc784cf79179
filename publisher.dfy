/** The Hugo exporter's rewriting of a graph into site content: the permalink
    maps built from the graph's pages and assets, the lookups into them, the
    rendering of each kind of link and the rendering of a block tree. */
module Publisher {
  import opened Common
  import opened Strs
  import opened Links
  import opened Assets
  import opened Properties
  import opened Blocks
  import opened BlockContents
  import opened PageNames
  import opened Pages
  import opened Graphs
  import KeyOrder

  /** Lower-cased page or asset names (and page aliases) to site paths. */
  type Permalinks = map<string, string>

  /** The exporter's state as the rendering reads it. `blocks` is the index of
      blocks by identifier that block links are resolved against. */
  datatype Exporter = Exporter(
    pagePermalinks: Permalinks,
    assetPermalinks: Permalinks,
    blocks: map<string, Block>,
    requirePublic: bool)

  /** A permalink lookup: the permalink and whether the name was known. */
  datatype Lookup = Lookup(permalink: string, found: bool)

  // ---------------------------------------------------------------- lookups

  /** UnavailableLink: the label in emphasis, marking a link whose target is
      not part of the site. */
  function UnavailableLink(caption: string): (r: string)
    ensures |r| == |caption| + 2 && r[0] == '*' && r[|r| - 1] == '*' && r[1..|r| - 1] == caption
  {
    "*" + caption + "*"
  }

  /** AssetPermalink: the permalink stored under the lower-cased name; the
      empty string when there is none. */
  function AssetPermalink(links: Permalinks, assetName: string): (r: Lookup)
    ensures r.found <==> Lower(assetName) in links
    ensures r.found ==> r.permalink == links[Lower(assetName)]
    ensures !r.found ==> r.permalink == ""
  {
    var key := Lower(assetName);
    if key in links then Lookup(links[key], true) else Lookup("", false)
  }

  /** PagePermalink as written: "/" in front of whatever is stored under the
      lower-cased name, even on a miss, and even in front of the "/" that
      the map holds for the contents page. */
  function PagePermalinkAsWritten(links: Permalinks, pageName: string): (r: Lookup)
    ensures r.found <==> Lower(pageName) in links
    ensures r.found ==> r.permalink == "/" + links[Lower(pageName)]
    ensures !r.found ==> r.permalink == "/"
  {
    var key := Lower(pageName);
    if key in links then Lookup("/" + links[key], true) else Lookup("/", false)
  }

  /** PagePermalink: the stored permalink made site-absolute, with one "/"
      in front, whether or not it already had one; "/" on a miss. */
  function PagePermalink(links: Permalinks, pageName: string): (r: Lookup)
    ensures r.found <==> Lower(pageName) in links
    ensures StartsWith(r.permalink, "/")
    ensures r.found ==> r.permalink == links[Lower(pageName)] || r.permalink == "/" + links[Lower(pageName)]
    ensures !r.found ==> r.permalink == "/"
  {
    var key := Lower(pageName);
    if key !in links then Lookup("/", false)
    else if StartsWith(links[key], "/") then Lookup(links[key], true)
    else Lookup("/" + links[key], true)
  }

  /** The corrected lookup gives one leading "/" in front of a stored path
      with or without one, and agrees with the lookup as written on every
      stored path that is not already site-absolute. */
  lemma {:induction false} PagePermalinkAbsolute(links: Permalinks, pageName: string, path: string)
    requires Lower(pageName) in links
    requires links[Lower(pageName)] == path || links[Lower(pageName)] == "/" + path
    requires !StartsWith(path, "/")
    ensures PagePermalink(links, pageName) == Lookup("/" + path, true)
    ensures links[Lower(pageName)] == path ==> PagePermalinkAsWritten(links, pageName) == PagePermalink(links, pageName)
  {
    if links[Lower(pageName)] == "/" + path {
      assert StartsWith("/" + path, "/");
    }
  }

  lemma {:induction false} LowerContents()
    ensures Lower("Contents") == "contents"
  {
    var r := Lower("Contents");
    assert r[0] == LowerChar('C') == 'c';
    forall i | 1 <= i < 8 ensures r[i] == "contents"[i] {
      assert r[i] == LowerChar("Contents"[i]);
    }
  }

  /** The contents page, stored as the site root "/", comes out of the lookup
      as written as "//", which is not a site path; the corrected lookup
      gives the root. */
  lemma {:induction false} ContentsDoubleSlash()
    ensures PagePermalinkAsWritten(map["contents" := "/"], "Contents") == Lookup("//", true)
    ensures PagePermalink(map["contents" := "/"], "Contents") == Lookup("/", true)
  {
    LowerContents();
    assert StartsWith("/", "/");
  }

  /** BlockPermalink: the permalink of the block's page, `#` and the block
      identifier; the empty string when the page has no permalink. */
  function BlockPermalink(links: Permalinks, b: Block): (r: string)
    ensures Lower(b.pageName) !in links <==> r == ""
    ensures Lower(b.pageName) in links ==> r == PagePermalink(links, b.pageName).permalink + "#" + b.id
  {
    var page := PagePermalink(links, b.pageName);
    if !page.found then "" else page.permalink + "#" + b.id
  }

  // ------------------------------------------------------------------ links

  /** The text that replaces a link: a markdown link to a known page, a tag
      shortcode for a known tag page, a block-link shortcode around the target
      block's markdown, an image for a known asset; a target that cannot be
      found is marked unavailable, and any other link shows its label. */
  function ProcessBlockLink(e: Exporter, l: Link): (r: string)
  {
    match l.linkType
      case LinkTypePage =>
        var p := PagePermalink(e.pagePermalinks, l.linkPath);
        if p.found then "[" + l.linkLabel + "](" + p.permalink + ")" else UnavailableLink(l.linkLabel)
      case LinkTypeBlock =>
        if l.linkPath !in e.blocks then UnavailableLink(l.linkLabel)
        else
          var target := e.blocks[l.linkPath];
          "{{< block-link link=\"" + BlockPermalink(e.pagePermalinks, target) + "\" >}}"
            + target.content.markdown + "{{< /block-link >}}"
      case LinkTypeTag =>
        var p := PagePermalink(e.pagePermalinks, l.linkPath);
        if p.found then " {{< logseq/tag-link label=\"" + l.linkLabel + "\" link=\"" + p.permalink + "\" >}}"
        else UnavailableLink(l.linkLabel)
      case LinkTypeAsset =>
        var p := AssetPermalink(e.assetPermalinks, l.linkPath);
        if p.found then "![" + l.linkLabel + "](" + p.permalink + ")" else UnavailableLink(l.linkLabel)
      case LinkTypeResource => l.linkLabel
  }

  /** Whether the target of a link can be found: a page or tag link needs a
      page permalink, a block link an indexed block, an asset link an asset
      permalink; a resource link needs nothing. */
  predicate TargetKnown(e: Exporter, l: Link) {
    match l.linkType
      case LinkTypePage => Lower(l.linkPath) in e.pagePermalinks
      case LinkTypeTag => Lower(l.linkPath) in e.pagePermalinks
      case LinkTypeBlock => l.linkPath in e.blocks
      case LinkTypeAsset => Lower(l.linkPath) in e.assetPermalinks
      case LinkTypeResource => true
  }

  /** A page, tag, block or asset link renders as an emphasised label exactly
      when its target cannot be found: every rendering of a found target
      starts with a character other than `*`. */
  lemma {:induction false} UnavailableIffUnknown(e: Exporter, l: Link)
    requires !l.linkType.LinkTypeResource?
    ensures ProcessBlockLink(e, l) == UnavailableLink(l.linkLabel) <==> !TargetKnown(e, l)
  {
    var r := ProcessBlockLink(e, l);
    if TargetKnown(e, l) {
      match l.linkType
        case LinkTypePage => assert r[0] == '[';
        case LinkTypeTag => assert r[0] == ' ';
        case LinkTypeBlock => assert r[0] == '{';
        case LinkTypeAsset => assert r[0] == '!';
    }
  }

  /** A known page renders as a markdown link to its site-absolute permalink,
      a known tag as the tag shortcode with its label and that permalink, and
      a known asset as an image of its permalink. */
  lemma {:induction false} KnownTargets(e: Exporter, l: Link)
    requires TargetKnown(e, l)
    ensures l.linkType.LinkTypePage? ==>
      var p := PagePermalink(e.pagePermalinks, l.linkPath).permalink;
      StartsWith(p, "/") && ProcessBlockLink(e, l) == "[" + l.linkLabel + "](" + p + ")"
    ensures l.linkType.LinkTypeTag? ==>
      var p := PagePermalink(e.pagePermalinks, l.linkPath).permalink;
      StartsWith(p, "/") && ProcessBlockLink(e, l) == " {{< logseq/tag-link label=\"" + l.linkLabel + "\" link=\"" + p + "\" >}}"
    ensures l.linkType.LinkTypeAsset? ==>
      ProcessBlockLink(e, l) == "![" + l.linkLabel + "](" + e.assetPermalinks[Lower(l.linkPath)] + ")"
    ensures l.linkType.LinkTypeResource? ==> ProcessBlockLink(e, l) == l.linkLabel
  {
  }

  /** A block link to an indexed block shows that block's markdown inside the
      shortcode, pointing at the block's anchor on its page; when the page has
      no permalink the link points nowhere. */
  lemma {:induction false} BlockLinkTarget(e: Exporter, l: Link)
    requires l.linkType.LinkTypeBlock? && l.linkPath in e.blocks
    ensures var target := e.blocks[l.linkPath];
      var link := if Lower(target.pageName) in e.pagePermalinks
        then PagePermalink(e.pagePermalinks, target.pageName).permalink + "#" + target.id else "";
      ProcessBlockLink(e, l) ==
        "{{< block-link link=\"" + link + "\" >}}" + target.content.markdown + "{{< /block-link >}}"
  {
  }

  /** The contents page's difference carried through to the rendered links:
      with the seeded "contents" permalink, `[[Contents]]` renders as
      `[Contents](/)` here, where the lookup as written renders
      `[Contents](//)`. */
  lemma {:induction false} ContentsLinkRendering(e: Exporter, l: Link)
    requires e.pagePermalinks == map["contents" := "/"]
    requires l.linkType.LinkTypePage? && l.linkPath == "Contents" && l.linkLabel == "Contents"
    ensures ProcessBlockLink(e, l) == "[Contents](/)"
    ensures "[" + l.linkLabel + "](" + PagePermalinkAsWritten(e.pagePermalinks, l.linkPath).permalink + ")" == "[Contents](//)"
  {
    ContentsDoubleSlash();
  }

  /** A block on the contents page is anchored at "/#id" here, where the
      lookup as written gives "//#id". */
  lemma {:induction false} ContentsBlockAnchor(b: Block)
    requires b.pageName == "Contents"
    ensures BlockPermalink(map["contents" := "/"], b) == "/#" + b.id
    ensures PagePermalinkAsWritten(map["contents" := "/"], b.pageName).permalink + "#" + b.id == "//#" + b.id
  {
    ContentsDoubleSlash();
  }

  // ------------------------------------------------------ asset permalinks

  /** Where the published copies of the assets live on the site. */
  const GraphAssetsPrefix := "/graph-assets/"

  /** The graph's assets in the order the graph's map is walked. */
  function AssetsInOrder(m: map<string, Asset>): (r: seq<Asset>)
    ensures |r| == |KeyOrder.Enumerate(m.Keys)|
  {
    var keys := KeyOrder.Enumerate(m.Keys);
    seq(|keys|, i requires 0 <= i < |keys| => m[keys[i]])
  }

  /** The walk visits every asset of the map and nothing else. */
  lemma {:induction false} AssetsInOrderMembers(m: map<string, Asset>)
    ensures forall a :: a in AssetsInOrder(m) <==> a in m.Values
  {
    var keys := KeyOrder.Enumerate(m.Keys);
    var r := AssetsInOrder(m);
    forall a | a in m.Values ensures a in r {
      var k :| k in m && m[k] == a;
      var i :| 0 <= i < |keys| && keys[i] == k;
      assert r[i] == a;
    }
  }

  /** The asset permalink map once the assets of `assets` were recorded one
      after another. */
  function AssetPermalinksOf(assets: seq<Asset>): Permalinks
    decreases |assets|
  {
    if assets == [] then map[]
    else
      var a := assets[|assets| - 1];
      AssetPermalinksOf(assets[..|assets| - 1])[Lower(a.name) := GraphAssetsPrefix + a.name]
  }

  /** Whether some asset of `assets` has `key` as its lower-cased name. */
  predicate NamedIn(assets: seq<Asset>, key: string) {
    exists i :: 0 <= i < |assets| && Lower(assets[i].name) == key
  }

  /** The keys of the finished map are the lower-cased names of the recorded
      assets. */
  lemma {:induction false} AssetPermalinksKeys(assets: seq<Asset>)
    ensures forall k :: k in AssetPermalinksOf(assets) <==> NamedIn(assets, k)
    decreases |assets|
  {
    if assets != [] {
      var n := |assets| - 1;
      var init := assets[..n];
      AssetPermalinksKeys(init);
      forall k ensures NamedIn(assets, k) <==> NamedIn(init, k) || k == Lower(assets[n].name) {
        if NamedIn(assets, k) && k != Lower(assets[n].name) {
          var i :| 0 <= i < |assets| && Lower(assets[i].name) == k;
          assert init[i] == assets[i];
        }
        if NamedIn(init, k) {
          var i :| 0 <= i < n && Lower(init[i].name) == k;
          assert init[i] == assets[i];
        }
      }
    }
  }

  /** A key leads to the published place of the last asset recorded under it. */
  lemma {:induction false} AssetPermalinksLast(assets: seq<Asset>, i: nat)
    requires i < |assets|
    requires forall j :: i < j < |assets| ==> Lower(assets[j].name) != Lower(assets[i].name)
    ensures Lower(assets[i].name) in AssetPermalinksOf(assets)
    ensures AssetPermalinksOf(assets)[Lower(assets[i].name)] == GraphAssetsPrefix + assets[i].name
    decreases |assets|
  {
    var n := |assets| - 1;
    if i < n {
      var init := assets[..n];
      assert init[i] == assets[i];
      forall j | i < j < |init| ensures Lower(init[j].name) != Lower(init[i].name) {
        assert init[j] == assets[j];
      }
      AssetPermalinksLast(init, i);
    }
  }

  /** Looking an asset up in the finished map finds it exactly when some
      recorded asset has the same name up to case, and then gives the
      published place of such an asset. */
  lemma {:induction false} AssetLookupFinds(assets: seq<Asset>, name: string)
    ensures var r := AssetPermalink(AssetPermalinksOf(assets), name);
      && (r.found <==> NamedIn(assets, Lower(name)))
      && (r.found ==> exists i :: 0 <= i < |assets| && Lower(assets[i].name) == Lower(name)
                                 && r.permalink == GraphAssetsPrefix + assets[i].name)
  {
    AssetPermalinksKeys(assets);
    if NamedIn(assets, Lower(name)) {
      var i := LastNamed(assets, Lower(name));
      AssetPermalinksLast(assets, i);
    }
  }

  /** The last asset whose lower-cased name is `key`. */
  lemma {:induction false} LastNamed(assets: seq<Asset>, key: string) returns (i: nat)
    requires NamedIn(assets, key)
    ensures i < |assets| && Lower(assets[i].name) == key
    ensures forall j :: i < j < |assets| ==> Lower(assets[j].name) != key
    decreases |assets|
  {
    var n := |assets| - 1;
    if Lower(assets[n].name) == key {
      i := n;
    } else {
      var k :| 0 <= k < |assets| && Lower(assets[k].name) == key;
      assert assets[..n][k] == assets[k];
      i := LastNamed(assets[..n], key);
      assert assets[..n][i] == assets[i];
    }
  }

  /** Recording one more asset of the walk. */
  lemma {:induction false} AssetPermalinksStep(assets: seq<Asset>, i: nat)
    requires i < |assets|
    ensures AssetPermalinksOf(assets[..i + 1]) == AssetPermalinksOf(assets[..i])[Lower(assets[i].name) := GraphAssetsPrefix + assets[i].name]
  {
    assert assets[..i + 1][..i] == assets[..i];
  }

  /** SetAssetPermalinks: every asset of the graph, in walking order, under
      its lower-cased name, leads to its published copy. */
  method SetAssetPermalinks(g: Graph) returns (permalinks: Permalinks)
    ensures permalinks == AssetPermalinksOf(AssetsInOrder(g.assets))
  {
    var keys := KeyOrder.Enumerate(g.assets.Keys);
    ghost var assets := AssetsInOrder(g.assets);
    permalinks := map[];
    for i := 0 to |keys|
      invariant permalinks == AssetPermalinksOf(assets[..i])
    {
      var asset := g.assets[keys[i]];
      AssetPermalinksStep(assets, i);
      permalinks := permalinks[Lower(asset.name) := GraphAssetsPrefix + asset.name];
    }
    assert assets[..|keys|] == assets;
  }

  // ------------------------------------------------------- page permalinks

  /** What the page map records of a page: its name and its aliases. */
  datatype PageEntry = PageEntry(name: string, aliases: seq<string>)

  /** The graph's pages, as entries, in the order the graph's map is walked. */
  function EntriesOf(m: map<string, Page>): (r: seq<PageEntry>)
    reads m.Values
    requires forall k :: k in m ==> m[k].Indexed()
    ensures |r| == |KeyOrder.Enumerate(m.Keys)|
  {
    var keys := KeyOrder.Enumerate(m.Keys);
    seq(|keys|, i requires 0 <= i < |keys| && m[keys[i]].Indexed() reads m.Values =>
      PageEntry(m[keys[i]].name, m[keys[i]].Aliases()))
  }

  /** The first step of a page's site path when it is not hoisted: journals
      (pages named by a `dddd-dd-dd` date) and all other pages are kept apart. */
  function Section(name: string): (r: string)
    ensures r == JournalsNamespace <==> DateLike(name, {'-'})
    ensures r == PagesNamespace <==> !DateLike(name, {'-'})
  {
    if DateLike(name, {'-'}) then JournalsNamespace else PagesNamespace
  }

  /** The site path of a page: the slug of each `/` step of its name, joined
      with `/`, under the page's section unless the page is hoisted. */
  function PagePath(name: string, hoisted: bool, slugify: string -> string): string {
    var slugs := Slugs(Split(name, "/"), slugify);
    Join(if hoisted then slugs else [Section(name)] + slugs, "/")
  }

  /** A page that is not hoisted lives below its section; a hoisted one lives
      at the top of the site. */
  lemma {:induction false} PagePathShape(name: string, hoisted: bool, slugify: string -> string)
    ensures var slugs := Join(Slugs(Split(name, "/"), slugify), "/");
      PagePath(name, hoisted, slugify) == if hoisted then slugs else Section(name) + "/" + slugs
  {
    if !hoisted {
      JoinCons(Section(name), Slugs(Split(name, "/"), slugify), "/");
    }
  }

  /** The map after each of `aliases`, lower-cased, was given `permalink`. */
  function WithAliases(links: Permalinks, aliases: seq<string>, permalink: string): Permalinks
    decreases |aliases|
  {
    if aliases == [] then links
    else WithAliases(links, aliases[..|aliases| - 1], permalink)[Lower(aliases[|aliases| - 1]) := permalink]
  }

  /** The lower-cased aliases. */
  function AliasKeys(aliases: seq<string>): set<string> {
    set a | a in aliases :: Lower(a)
  }

  /** The keys a page entry writes: none for the page named "Contents", else
      its lower-cased name and its lower-cased aliases. */
  function Written(e: PageEntry): set<string> {
    if e.name == "Contents" then {} else {Lower(e.name)} + AliasKeys(e.aliases)
  }

  /** The permalink a page entry writes under each of its keys. */
  function EntryPath(e: PageEntry, hoisted: string -> bool, slugify: string -> string): string {
    PagePath(e.name, hoisted(e.name), slugify)
  }

  /** The map after one page was recorded: the contents page is passed over,
      any other page's name and aliases lead to its site path. */
  function Record(links: Permalinks, e: PageEntry, hoisted: string -> bool, slugify: string -> string): Permalinks {
    if e.name == "Contents" then links
    else
      var permalink := EntryPath(e, hoisted, slugify);
      WithAliases(links[Lower(e.name) := permalink], e.aliases, permalink)
  }

  /** The page permalink map once the pages of `entries` were recorded one
      after another, starting from the contents page at the site root. */
  function PagePermalinksOf(entries: seq<PageEntry>, hoisted: string -> bool, slugify: string -> string): Permalinks
    decreases |entries|
  {
    if entries == [] then map["contents" := "/"]
    else
      var n := |entries| - 1;
      Record(PagePermalinksOf(entries[..n], hoisted, slugify), entries[n], hoisted, slugify)
  }

  /** Giving aliases a permalink adds their lower-cased forms as keys leading
      to it and leaves every other key as it was. */
  lemma {:induction false} WithAliasesFacts(links: Permalinks, aliases: seq<string>, permalink: string)
    ensures var r := WithAliases(links, aliases, permalink);
      && r.Keys == links.Keys + AliasKeys(aliases)
      && forall k :: k in r ==> r[k] == if k in AliasKeys(aliases) then permalink else links[k]
    decreases |aliases|
  {
    if aliases != [] {
      var n := |aliases| - 1;
      WithAliasesFacts(links, aliases[..n], permalink);
      assert aliases == aliases[..n] + [aliases[n]];
      assert AliasKeys(aliases) == AliasKeys(aliases[..n]) + {Lower(aliases[n])};
    }
  }

  /** Recording a page adds the keys it writes, each leading to its site path,
      and leaves every other key as it was. */
  lemma {:induction false} RecordFacts(links: Permalinks, e: PageEntry, hoisted: string -> bool, slugify: string -> string)
    ensures var r := Record(links, e, hoisted, slugify);
      && r.Keys == links.Keys + Written(e)
      && forall k :: k in r ==> r[k] == if k in Written(e) then EntryPath(e, hoisted, slugify) else links[k]
  {
    if e.name != "Contents" {
      WithAliasesFacts(links[Lower(e.name) := EntryPath(e, hoisted, slugify)], e.aliases, EntryPath(e, hoisted, slugify));
    }
  }

  /** Whether some entry from index `i` on writes `k`. */
  predicate WrittenFrom(entries: seq<PageEntry>, i: nat, k: string) {
    exists j :: i <= j < |entries| && k in Written(entries[j])
  }

  /** The keys of the finished map: "contents" and the keys some page wrote. */
  lemma {:induction false} PagePermalinksKeys(entries: seq<PageEntry>, hoisted: string -> bool, slugify: string -> string)
    ensures forall k :: k in PagePermalinksOf(entries, hoisted, slugify) <==> k == "contents" || WrittenFrom(entries, 0, k)
    decreases |entries|
  {
    if entries != [] {
      var n := |entries| - 1;
      var init := entries[..n];
      PagePermalinksKeys(init, hoisted, slugify);
      RecordFacts(PagePermalinksOf(init, hoisted, slugify), entries[n], hoisted, slugify);
      forall k ensures WrittenFrom(entries, 0, k) <==> WrittenFrom(init, 0, k) || k in Written(entries[n]) {
        if WrittenFrom(init, 0, k) {
          var j :| 0 <= j < n && k in Written(init[j]);
          assert init[j] == entries[j];
        }
        if WrittenFrom(entries, 0, k) && k !in Written(entries[n]) {
          var j :| 0 <= j < |entries| && k in Written(entries[j]);
          assert j != n;
          assert init[j] == entries[j];
          assert WrittenFrom(init, 0, k);
        }
      }
    }
  }

  /** The last page to write a key decides where it leads. */
  lemma {:induction false} PagePermalinksLast(entries: seq<PageEntry>, i: nat, k: string, hoisted: string -> bool, slugify: string -> string)
    requires i < |entries| && k in Written(entries[i]) && !WrittenFrom(entries, i + 1, k)
    ensures k in PagePermalinksOf(entries, hoisted, slugify)
    ensures PagePermalinksOf(entries, hoisted, slugify)[k] == EntryPath(entries[i], hoisted, slugify)
    decreases |entries|
  {
    var n := |entries| - 1;
    var init := entries[..n];
    var before := PagePermalinksOf(init, hoisted, slugify);
    assert PagePermalinksOf(entries, hoisted, slugify) == Record(before, entries[n], hoisted, slugify);
    if i < n {
      assert init[i] == entries[i];
      assert k !in Written(entries[n]);
      forall j | i + 1 <= j < n ensures k !in Written(init[j]) {
        assert init[j] == entries[j];
      }
      PagePermalinksLast(init, i, k, hoisted, slugify);
      RecordFacts(before, entries[n], hoisted, slugify);
    } else {
      RecordFacts(before, entries[n], hoisted, slugify);
    }
  }

  /** A key no page writes keeps the contents page at the site root. */
  lemma {:induction false} ContentsStaysRoot(entries: seq<PageEntry>, hoisted: string -> bool, slugify: string -> string)
    requires !WrittenFrom(entries, 0, "contents")
    ensures "contents" in PagePermalinksOf(entries, hoisted, slugify)
    ensures PagePermalinksOf(entries, hoisted, slugify)["contents"] == "/"
    decreases |entries|
  {
    if entries != [] {
      var n := |entries| - 1;
      var init := entries[..n];
      forall j | 0 <= j < n ensures "contents" !in Written(init[j]) {
        assert init[j] == entries[j];
      }
      assert "contents" !in Written(entries[n]);
      ContentsStaysRoot(init, hoisted, slugify);
      RecordFacts(PagePermalinksOf(init, hoisted, slugify), entries[n], hoisted, slugify);
    }
  }

  /** Unless some page takes the key "contents", a link to the contents page
      leads to the site root, while the lookup as written makes it "//". */
  lemma {:induction false} ContentsLinkIsRoot(entries: seq<PageEntry>, hoisted: string -> bool, slugify: string -> string)
    requires !WrittenFrom(entries, 0, "contents")
    ensures PagePermalink(PagePermalinksOf(entries, hoisted, slugify), "Contents") == Lookup("/", true)
    ensures PagePermalinkAsWritten(PagePermalinksOf(entries, hoisted, slugify), "Contents") == Lookup("//", true)
  {
    ContentsStaysRoot(entries, hoisted, slugify);
    LowerContents();
    assert StartsWith("/", "/");
  }

  /** A page link whose target, in any case, is a key that a page not hoisted
      wrote last renders as a markdown link to that page's place under its
      section. */
  lemma {:induction false} PageLinkToRecordedPage(e: Exporter, l: Link, entries: seq<PageEntry>, i: nat,
                                                  hoisted: string -> bool, slugify: string -> string)
    requires e.pagePermalinks == PagePermalinksOf(entries, hoisted, slugify)
    requires l.linkType.LinkTypePage?
    requires i < |entries| && Lower(l.linkPath) in Written(entries[i]) && !WrittenFrom(entries, i + 1, Lower(l.linkPath))
    requires !hoisted(entries[i].name)
    ensures var name := entries[i].name;
      PagePermalink(e.pagePermalinks, l.linkPath) == Lookup("/" + Section(name) + "/" + Join(Slugs(Split(name, "/"), slugify), "/"), true)
    ensures ProcessBlockLink(e, l) == "[" + l.linkLabel + "](" + PagePermalink(e.pagePermalinks, l.linkPath).permalink + ")"
  {
    var name := entries[i].name;
    PagePermalinksLast(entries, i, Lower(l.linkPath), hoisted, slugify);
    var path := EntryPath(entries[i], hoisted, slugify);
    SectionPath(name, slugify);
    PagePermalinkAbsolute(e.pagePermalinks, l.linkPath, path);
  }

  /** The site path of a page that is not hoisted starts with its section,
      never with "/". */
  lemma {:induction false} SectionPath(name: string, slugify: string -> string)
    ensures PagePath(name, false, slugify) == Section(name) + "/" + Join(Slugs(Split(name, "/"), slugify), "/")
    ensures "/" + PagePath(name, false, slugify) == "/" + Section(name) + "/" + Join(Slugs(Split(name, "/"), slugify), "/")
    ensures !StartsWith(PagePath(name, false, slugify), "/")
  {
    PagePathShape(name, false, slugify);
    var path := PagePath(name, false, slugify);
    assert path[0] == Section(name)[0];
    Assoc3("/", Section(name) + "/", Join(Slugs(Split(name, "/"), slugify), "/"));
    Assoc3("/", Section(name), "/");
  }

  /** The slug steps of a page: the section first unless the page is hoisted,
      then the slug of each `/` step of the name. */
  method SlugSteps(name: string, hoisted: bool, slugify: string -> string) returns (steps: seq<string>)
    ensures steps == if hoisted then Slugs(Split(name, "/"), slugify) else [Section(name)] + Slugs(Split(name, "/"), slugify)
  {
    var nameSteps := Split(name, "/");
    var front := if hoisted then [] else [Section(name)];
    steps := front;
    for j := 0 to |nameSteps|
      invariant steps == front + Slugs(nameSteps[..j], slugify)
    {
      assert Slugs(nameSteps[..j + 1], slugify) == Slugs(nameSteps[..j], slugify) + [slugify(nameSteps[j])];
      steps := steps + [slugify(nameSteps[j])];
    }
    assert nameSteps[..|nameSteps|] == nameSteps;
  }

  /** One page of SetPagePermalinks: passed over when it is the contents page,
      else its lower-cased name and each lower-cased alias, in order, lead to
      its site path. */
  method RecordPage(links: Permalinks, name: string, aliases: seq<string>, hoisted: string -> bool, slugify: string -> string)
    returns (permalinks: Permalinks)
    ensures permalinks == Record(links, PageEntry(name, aliases), hoisted, slugify)
  {
    permalinks := links;
    if name == "Contents" {
      return;
    }
    var slugSteps := SlugSteps(name, hoisted(name), slugify);
    var permalink := Join(slugSteps, "/");
    var named := permalinks[Lower(name) := permalink];
    permalinks := named;
    for j := 0 to |aliases|
      invariant permalinks == WithAliases(named, aliases[..j], permalink)
    {
      assert aliases[..j + 1][..j] == aliases[..j];
      permalinks := permalinks[Lower(aliases[j]) := permalink];
    }
    assert aliases[..|aliases|] == aliases;
  }

  /** The entry at `i` is the name and aliases of the page with the `i`th key. */
  lemma {:induction false} EntriesOfAt(m: map<string, Page>, i: nat)
    requires forall k :: k in m ==> m[k].Indexed()
    requires i < |KeyOrder.Enumerate(m.Keys)|
    ensures var page := m[KeyOrder.Enumerate(m.Keys)[i]];
      EntriesOf(m)[i] == PageEntry(page.name, page.Aliases())
  {
  }

  /** Recording one more page of the walk. */
  lemma {:induction false} PagePermalinksStep(entries: seq<PageEntry>, i: nat, hoisted: string -> bool, slugify: string -> string)
    requires i < |entries|
    ensures PagePermalinksOf(entries[..i + 1], hoisted, slugify)
         == Record(PagePermalinksOf(entries[..i], hoisted, slugify), entries[i], hoisted, slugify)
  {
    assert entries[..i + 1][..i] == entries[..i];
  }

  /** SetPagePermalinks: the contents page at the site root, then every page
      of the graph, in walking order, except the one named "Contents": its
      lower-cased name and each lower-cased alias lead to its site path. */
  method SetPagePermalinks(g: Graph, hoisted: string -> bool, slugify: string -> string) returns (permalinks: Permalinks)
    requires g.Valid()
    ensures permalinks == PagePermalinksOf(EntriesOf(g.pages), hoisted, slugify)
  {
    var keys := KeyOrder.Enumerate(g.pages.Keys);
    ghost var entries := EntriesOf(g.pages);
    permalinks := map["contents" := "/"];
    for i := 0 to |keys|
      invariant permalinks == PagePermalinksOf(entries[..i], hoisted, slugify)
    {
      var page := g.pages[keys[i]];
      var aliases := page.Aliases();
      EntriesOfAt(g.pages, i);
      PagePermalinksStep(entries, i, hoisted, slugify);
      permalinks := RecordPage(permalinks, page.name, aliases, hoisted, slugify);
    }
    assert entries[..|keys|] == entries;
  }

  // ----------------------------------------------------------------- blocks

  /** fmt's `%d` of a depth: its decimal digits, most significant first. */
  function Decimal(n: nat): (r: string)
    ensures 1 <= |r| && forall k :: 0 <= k < |r| ==> IsDigit(r[k])
    decreases n
  {
    if n < 10 then [('0' as int + n) as char] else Decimal(n / 10) + [('0' as int + n % 10) as char]
  }

  /** The number a string of decimal digits stands for. */
  function DigitsValue(s: string): nat
    requires forall k :: 0 <= k < |s| ==> IsDigit(s[k])
    decreases |s|
  {
    if s == [] then 0
    else
      assert IsDigit(s[|s| - 1]);
      DigitsValue(s[..|s| - 1]) * 10 + (s[|s| - 1] as int - '0' as int)
  }

  /** Reading the decimal digits back gives the number: the header level
      written into the output is the block's depth. */
  lemma {:induction false} DecimalRoundTrip(n: nat)
    ensures DigitsValue(Decimal(n)) == n
    decreases n
  {
    if n >= 10 {
      DecimalRoundTrip(n / 10);
      var d := Decimal(n);
      assert d[..|d| - 1] == Decimal(n / 10);
    }
  }

  /** The markdown of a block after each of `links`, in order, had every
      occurrence of its raw text replaced by its rendering. */
  function RewriteLinks(e: Exporter, content: string, links: seq<Link>): string
    decreases |links|
  {
    if links == [] then content
    else
      var l := links[|links| - 1];
      ReplaceAll(RewriteLinks(e, content, links[..|links| - 1]), l.raw, ProcessBlockLink(e, l))
  }

  /** The text a block contributes itself: nothing for a depth-0 block (the
      page's root); otherwise its markdown with shortcode openers broken up in
      a code block, or embedded shortcodes expanded (`embed`) elsewhere, and
      then every link of the block rewritten. */
  function OwnContent(e: Exporter, b: Block, embed: string -> string): string {
    if b.depth == 0 then ""
    else
      var md := b.content.markdown;
      var escaped := if HasCodeFence(md) then ReplaceAll(md, "{{<", "{{/**/<") else embed(md);
      RewriteLinks(e, escaped, BlockLinks(b))
  }

  /** The header shortcode around a heading block's content, at the block's
      depth as level. */
  function HeaderWrap(depth: nat, content: string): string {
    "{{% block-header level=" + Decimal(depth) + " %}}" + content + "{{% /block-header %}}"
  }

  /** The arguments of a block's shortcode: always its id; its caption, with
      `"` escaped, when it has one; its callout when it has one. */
  function ShortcodeArgs(b: Block): (r: map<string, string>)
    ensures r.Keys <= {"id", "caption", "callout"}
    ensures "id" in r && r["id"] == b.id
    ensures "caption" in r <==> "caption" in b.properties
    ensures "caption" in r ==> r["caption"] == ReplaceAll(b.properties["caption"], "\"", "\\\"")
    ensures "callout" in r <==> b.content.callout != ""
    ensures "callout" in r ==> r["callout"] == b.content.callout
  {
    var withId := map["id" := b.id];
    var withCaption := match Get(b.properties, "caption")
      case Some(p) => withId["caption" := ReplaceAll(p.value, "\"", "\\\"")]
      case None => withId;
    if b.content.callout != "" then withCaption["callout" := b.content.callout] else withCaption
  }

  /** One argument of a shortcode, ` name="value"`. */
  function ArgText(name: string, value: string): string {
    " " + name + "=\"" + value + "\""
  }

  /** The argument texts in the order the arguments are walked. */
  function ArgTexts(args: map<string, string>): (r: seq<string>)
    ensures |r| == |args|
  {
    var ks := KeyOrder.Enumerate(args.Keys);
    seq(|ks|, j requires 0 <= j < |ks| => ArgText(ks[j], args[ks[j]]))
  }

  /** Every argument appears, once, among the argument texts. */
  lemma {:induction false} ArgTextsComplete(args: map<string, string>)
    ensures forall name :: name in args ==> ArgText(name, args[name]) in ArgTexts(args)
  {
    var ks := KeyOrder.Enumerate(args.Keys);
    forall name | name in args ensures ArgText(name, args[name]) in ArgTexts(args) {
      var j :| 0 <= j < |ks| && ks[j] == name;
      assert ArgTexts(args)[j] == ArgText(name, args[name]);
    }
  }

  /** The shortcode name and its arguments. */
  function ShortcodeOf(args: map<string, string>): string {
    "block" + Concat(ArgTexts(args))
  }

  /** Children come after their parent in the arena, as in a well-formed one;
      all the rendering needs of the tree besides parents coming first. */
  predicate ChildrenFollow(bs: seq<Block>) {
    forall i, k :: 0 <= i < |bs| && 0 <= k < |bs[i].children| ==> i < bs[i].children[k] < |bs|
  }

  /** Whether the public requirement hides block `i`: it is not public, or
      it is a task (`isTask`). */
  predicate Hidden(e: Exporter, bs: seq<Block>, i: nat, isTask: Block -> bool)
    requires ParentsBefore(bs) && i < |bs|
  {
    e.requirePublic && (!IsPublic(bs, i) || isTask(bs[i]))
  }

  /** The start of a shown block's text: its shortcode, then its own content,
      wrapped as a header when the block is a heading. */
  function Opening(e: Exporter, b: Block, embed: string -> string): string {
    var own := OwnContent(e, b, embed);
    "\n{{% " + ShortcodeOf(ShortcodeArgs(b)) + " %}}" + (if IsHeader(b) then HeaderWrap(b.depth, own) else own)
  }

  /** The text ProcessBlock makes of block `i` and its subtree: nothing for a
      hidden block, so nothing of anything below it either; otherwise its
      opening, its children's texts in order, and the closing shortcode. */
  function BlockOutput(e: Exporter, bs: seq<Block>, i: nat, isTask: Block -> bool, embed: string -> string): string
    requires ParentsBefore(bs) && ChildrenFollow(bs) && i < |bs|
    decreases |bs| - i, 1
  {
    if Hidden(e, bs, i, isTask) then ""
    else Opening(e, bs[i], embed) + ChildrenOutput(e, bs, i, bs[i].children, isTask, embed) + "{{% /block %}}"
  }

  /** The texts of the children `cs` of block `i`, one after another. */
  function ChildrenOutput(e: Exporter, bs: seq<Block>, i: nat, cs: seq<nat>, isTask: Block -> bool, embed: string -> string): string
    requires ParentsBefore(bs) && ChildrenFollow(bs) && i < |bs|
    requires forall k :: 0 <= k < |cs| ==> i < cs[k] < |bs|
    decreases |bs| - i, 0, |cs|
  {
    if cs == [] then ""
    else ChildrenOutput(e, bs, i, cs[..|cs| - 1], isTask, embed) + BlockOutput(e, bs, cs[|cs| - 1], isTask, embed)
  }

  /** One more child adds its text after those of the children before it. */
  lemma {:induction false} ChildrenOutputStep(e: Exporter, bs: seq<Block>, i: nat, k: nat, isTask: Block -> bool, embed: string -> string)
    requires ParentsBefore(bs) && ChildrenFollow(bs) && i < |bs| && k < |bs[i].children|
    ensures ChildrenOutput(e, bs, i, bs[i].children[..k + 1], isTask, embed)
         == ChildrenOutput(e, bs, i, bs[i].children[..k], isTask, embed) + BlockOutput(e, bs, bs[i].children[k], isTask, embed)
  {
    var cs := bs[i].children;
    assert cs[..k + 1][..k] == cs[..k];
  }

  /** With the public requirement, a block makes no text exactly when it is
      not public or is a task; without it, every block makes some. */
  lemma {:induction false} SkippedIffHidden(e: Exporter, bs: seq<Block>, i: nat, isTask: Block -> bool, embed: string -> string)
    requires ParentsBefore(bs) && ChildrenFollow(bs) && i < |bs|
    ensures BlockOutput(e, bs, i, isTask, embed) == "" <==> e.requirePublic && (!IsPublic(bs, i) || isTask(bs[i]))
  {
    if !Hidden(e, bs, i, isTask) {
      OpeningStart(e, bs[i], embed);
    }
  }

  /** Every opening starts a `block` shortcode. */
  lemma {:induction false} OpeningStart(e: Exporter, b: Block, embed: string -> string)
    ensures |Opening(e, b, embed)| >= 10 && Opening(e, b, embed)[..10] == "\n{{% block"
  {
    var own := OwnContent(e, b, embed);
    StartsShortcode(Concat(ArgTexts(ShortcodeArgs(b))), " %}}", if IsHeader(b) then HeaderWrap(b.depth, own) else own);
  }

  /** Any text that opens the shortcode named `block` starts the same way. */
  lemma {:induction false} StartsShortcode(args: string, close: string, body: string)
    ensures var s := "\n{{% " + ("block" + args) + close + body;
      |s| >= 10 && s[..10] == "\n{{% block"
  {
    var s := "\n{{% " + ("block" + args) + close + body;
    Assoc3("\n{{% ", "block", args);
    PrefixKept("\n{{% block", args, 10);
    var head := "\n{{% " + ("block" + args);
    Assoc3(head, close, body);
    PrefixKept(head, close + body, 10);
  }

  /** The text of a block that is shown opens a `block` shortcode and closes
      it at its very end, with the subtree's text in between. */
  lemma {:induction false} ShownIsFramed(e: Exporter, bs: seq<Block>, i: nat, isTask: Block -> bool, embed: string -> string)
    requires ParentsBefore(bs) && ChildrenFollow(bs) && i < |bs|
    requires !e.requirePublic || (IsPublic(bs, i) && !isTask(bs[i]))
    ensures var out := BlockOutput(e, bs, i, isTask, embed);
      |out| >= 24 && out[..10] == "\n{{% block" && out[|out| - 14..] == "{{% /block %}}"
  {
    OpeningStart(e, bs[i], embed);
    Framed(Opening(e, bs[i], embed), ChildrenOutput(e, bs, i, bs[i].children, isTask, embed));
  }

  /** An opening of a `block` shortcode, any text, and the closing shortcode. */
  lemma {:induction false} Framed(opening: string, middle: string)
    requires |opening| >= 10 && opening[..10] == "\n{{% block"
    ensures var out := opening + middle + "{{% /block %}}";
      |out| >= 24 && out[..10] == "\n{{% block" && out[|out| - 14..] == "{{% /block %}}"
  {
    var out := opening + middle + "{{% /block %}}";
    assert out[..10] == opening[..10];
  }

  /** A depth-0 block, the root of a page, contributes none of its own
      markdown: only its shortcode, an empty header when it is a heading, and
      its children. */
  lemma {:induction false} RootShowsOnlyChildren(e: Exporter, bs: seq<Block>, i: nat, isTask: Block -> bool, embed: string -> string)
    requires ParentsBefore(bs) && ChildrenFollow(bs) && i < |bs| && bs[i].depth == 0
    requires !e.requirePublic || (IsPublic(bs, i) && !isTask(bs[i]))
    ensures BlockOutput(e, bs, i, isTask, embed) ==
      "\n{{% " + ShortcodeOf(ShortcodeArgs(bs[i])) + " %}}" + (if IsHeader(bs[i]) then HeaderWrap(0, "") else "")
        + ChildrenOutput(e, bs, i, bs[i].children, isTask, embed) + "{{% /block %}}"
  {
  }

  /** The link loop of ProcessBlock: each link of the block in turn has its
      raw text replaced by its rendering. */
  method ReplaceLinks(e: Exporter, content: string, links: seq<Link>) returns (r: string)
    ensures r == RewriteLinks(e, content, links)
  {
    r := content;
    for j := 0 to |links|
      invariant r == RewriteLinks(e, content, links[..j])
    {
      assert links[..j + 1][..j] == links[..j];
      r := ReplaceAll(r, links[j].raw, ProcessBlockLink(e, links[j]));
    }
    assert links[..|links|] == links;
  }

  /** The argument loop of ProcessBlock: the shortcode name followed by each
      argument in walking order. */
  method Shortcode(args: map<string, string>) returns (r: string)
    ensures r == ShortcodeOf(args)
  {
    var texts := ArgTexts(args);
    r := "block";
    for j := 0 to |texts|
      invariant r == "block" + Concat(texts[..j])
    {
      assert texts[..j + 1][..j] == texts[..j];
      Assoc3("block", Concat(texts[..j]), texts[j]);
      r := r + texts[j];
    }
    assert texts[..|texts|] == texts;
  }

  /** The block's own content, rewritten: the first step of ProcessBlock. */
  method OwnText(e: Exporter, b: Block, embed: string -> string) returns (content: string)
    ensures content == OwnContent(e, b, embed)
  {
    content := "";
    if b.depth > 0 {
      content := b.content.markdown;
      if HasCodeFence(content) {
        content := ReplaceAll(content, "{{<", "{{/**/<");
      } else {
        content := embed(content);
      }
      content := ReplaceLinks(e, content, BlockLinks(b));
    }
  }

  /** The first half of ProcessBlock: the block's shortcode and its own
      content, as a header for a heading. */
  method OpenBlock(e: Exporter, b: Block, embed: string -> string) returns (text: string)
    ensures text == Opening(e, b, embed)
  {
    var content := OwnText(e, b, embed);
    var shortCode := Shortcode(ShortcodeArgs(b));
    if IsHeader(b) {
      content := HeaderWrap(b.depth, content);
    }
    text := "\n{{% " + shortCode + " %}}" + content;
  }

  /** ProcessBlock: the block's opening and its children's texts in order,
      then the closing shortcode; nothing for a block the public requirement
      hides. */
  method ProcessBlock(e: Exporter, bs: seq<Block>, i: nat, isTask: Block -> bool, embed: string -> string) returns (out: string)
    requires ParentsBefore(bs) && ChildrenFollow(bs) && i < |bs|
    ensures out == BlockOutput(e, bs, i, isTask, embed)
    decreases |bs| - i, 1
  {
    var b := bs[i];
    if e.requirePublic {
      if !IsPublic(bs, i) {
        return "";
      }
      if isTask(b) {
        return "";
      }
    }
    var opening := OpenBlock(e, b, embed);
    var children := ProcessChildren(e, bs, i, isTask, embed);
    out := opening + children + "{{% /block %}}";
  }

  /** The child loop of ProcessBlock: the texts of block `i`'s children, in
      order. */
  method ProcessChildren(e: Exporter, bs: seq<Block>, i: nat, isTask: Block -> bool, embed: string -> string) returns (text: string)
    requires ParentsBefore(bs) && ChildrenFollow(bs) && i < |bs|
    ensures text == ChildrenOutput(e, bs, i, bs[i].children, isTask, embed)
    decreases |bs| - i, 0
  {
    var cs := bs[i].children;
    text := "";
    for k := 0 to |cs|
      invariant text == ChildrenOutput(e, bs, i, cs[..k], isTask, embed)
    {
      var child := ProcessBlock(e, bs, cs[k], isTask, embed);
      ChildrenOutputStep(e, bs, i, k, isTask, embed);
      text := text + child;
    }
    assert cs[..|cs|] == cs;
  }

  /** Concatenation regroups freely. */
  lemma {:induction false} Assoc3(a: string, b: string, c: string)
    ensures a + b + c == a + (b + c)
  {
  }

  /** A prefix of the first part is a prefix of the whole. */
  lemma {:induction false} PrefixKept(a: string, b: string, n: nat)
    requires n <= |a|
    ensures |a + b| >= n && (a + b)[..n] == a[..n]
  {
  }
}
