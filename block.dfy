/** Blocks: a page's blocks live in one sequence (the page's arena) and refer
    to their parent and children by index into it. */
module Blocks {
  import opened Common
  import opened Strs
  import opened Links
  import opened LinkScan
  import opened Properties
  import opened BlockContents
  import KeyOrder

  datatype Block = Block(
    id: string,
    pageName: string,           // the page that holds this block
    content: Content,
    properties: PropertyMap,
    depth: nat,
    parent: Option<nat>,        // index of the parent in the page's blocks
    children: seq<nat>)         // indices of the children, in the order added

  // ------------------------------------------------------------ arena shape

  /** Every parent comes before its child in the sequence. */
  predicate ParentsBefore(bs: seq<Block>) {
    forall i :: 0 <= i < |bs| && bs[i].parent.Some? ==> bs[i].parent.value < i
  }

  /** Parent and child links agree, children come after their parent and in
      ascending order. */
  predicate WellFormed(bs: seq<Block>) {
    && ParentsBefore(bs)
    && (forall i :: 0 <= i < |bs| && bs[i].parent.Some? ==> i in bs[bs[i].parent.value].children)
    && (forall i, k :: 0 <= i < |bs| && 0 <= k < |bs[i].children| ==>
          i < bs[i].children[k] < |bs| && bs[bs[i].children[k]].parent == Some(i))
    && (forall i, k, m :: 0 <= i < |bs| && 0 <= k < m < |bs[i].children| ==>
          bs[i].children[k] < bs[i].children[m])
  }

  /** Block.AddChild on the arena: `c` is appended to the children of `p` and
      `p` becomes the parent of `c`. */
  function WithChild(bs: seq<Block>, p: nat, c: nat): (r: seq<Block>)
    requires p < |bs| && c < |bs| && p != c
    ensures |r| == |bs|
    ensures r[p] == bs[p].(children := bs[p].children + [c])
    ensures r[c] == bs[c].(parent := Some(p))
    ensures forall i :: 0 <= i < |bs| && i != p && i != c ==> r[i] == bs[i]
  {
    bs[p := bs[p].(children := bs[p].children + [c])][c := bs[c].(parent := Some(p))]
  }

  /** Attaching a block that was just appended (no parent, no children) under an
      earlier block keeps the arena well formed. */
  lemma {:induction false} WithChildWellFormed(bs: seq<Block>, p: nat)
    requires WellFormed(bs) && |bs| > 0 && p < |bs| - 1
    requires bs[|bs| - 1].parent.None? && bs[|bs| - 1].children == []
    ensures WellFormed(WithChild(bs, p, |bs| - 1))
  {
    var c := |bs| - 1;
    var r := WithChild(bs, p, c);
    forall i, k | 0 <= i < |r| && 0 <= k < |r[i].children|
      ensures i < r[i].children[k] < |r| && r[r[i].children[k]].parent == Some(i)
    {
      if i == p && k == |bs[p].children| {
      } else {
        assert r[i].children[k] == bs[i].children[k];
      }
    }
    forall i, k, m | 0 <= i < |r| && 0 <= k < m < |r[i].children|
      ensures r[i].children[k] < r[i].children[m]
    {
      assert r[i].children[k] == bs[i].children[k];
    }
  }

  // ------------------------------------------------------------- visibility

  /** IsPublic: a block's own `public` property decides; without one, its
      parent's visibility is inherited; a root without one is private. */
  predicate IsPublic(bs: seq<Block>, i: nat)
    requires ParentsBefore(bs) && i < |bs|
    decreases i
  {
    match Get(bs[i].properties, "public")
      case Some(p) => p.Bool()
      case None => bs[i].parent.Some? && IsPublic(bs, bs[i].parent.value)
  }

  /** The block itself, its parent, its grandparent, ... up to a root. */
  function Ancestry(bs: seq<Block>, i: nat): (r: seq<nat>)
    requires ParentsBefore(bs) && i < |bs|
    ensures |r| >= 1 && r[0] == i
    ensures forall k :: 0 <= k < |r| ==> r[k] < |bs|
    ensures forall k :: 0 <= k < |r| - 1 ==> bs[r[k]].parent == Some(r[k + 1])
    ensures bs[r[|r| - 1]].parent.None?
    decreases i
  {
    match bs[i].parent
      case None => [i]
      case Some(p) => [i] + Ancestry(bs, p)
  }

  /** The `k`-th block of the chain is the nearest to set `public`, and sets
      it to "true". */
  predicate SettingAt(bs: seq<Block>, chain: seq<nat>, k: nat)
    requires forall j :: 0 <= j < |chain| ==> chain[j] < |bs|
    requires k < |chain|
  {
    && "public" in bs[chain[k]].properties
    && bs[chain[k]].properties["public"] == "true"
    && forall m :: 0 <= m < k ==> "public" !in bs[chain[m]].properties
  }

  /** The nearest block of the ancestry that sets `public` at all decides. */
  predicate NearestSettingIsTrue(bs: seq<Block>, chain: seq<nat>)
    requires forall k :: 0 <= k < |chain| ==> chain[k] < |bs|
  {
    exists k :: 0 <= k < |chain| && SettingAt(bs, chain, k)
  }

  /** Behind a block without its own `public` property, the deciding block
      moves one place along the chain. */
  lemma {:induction false} SettingShifts(bs: seq<Block>, i: nat, rest: seq<nat>, k: nat)
    requires i < |bs| && forall j :: 0 <= j < |rest| ==> rest[j] < |bs|
    requires "public" !in bs[i].properties && k < |rest|
    ensures SettingAt(bs, [i] + rest, k + 1) <==> SettingAt(bs, rest, k)
  {
    var chain := [i] + rest;
    assert chain[k + 1] == rest[k];
    assert forall m :: 0 <= m < k ==> chain[m + 1] == rest[m];
    if SettingAt(bs, rest, k) {
      forall m | 0 <= m < k + 1 ensures "public" !in bs[chain[m]].properties {
        if m > 0 { assert chain[m] == rest[m - 1]; }
      }
    }
  }

  /** A block without its own `public` property passes the decision on to the
      rest of its ancestry. */
  lemma {:induction false} NearestSkipsUnset(bs: seq<Block>, i: nat, rest: seq<nat>)
    requires i < |bs| && forall k :: 0 <= k < |rest| ==> rest[k] < |bs|
    requires "public" !in bs[i].properties
    ensures NearestSettingIsTrue(bs, [i] + rest) <==> NearestSettingIsTrue(bs, rest)
  {
    var chain := [i] + rest;
    if NearestSettingIsTrue(bs, chain) {
      var k :| 0 <= k < |chain| && SettingAt(bs, chain, k);
      assert chain[0] == i;
      assert k > 0;
      SettingShifts(bs, i, rest, k - 1);
    }
    if NearestSettingIsTrue(bs, rest) {
      var k :| 0 <= k < |rest| && SettingAt(bs, rest, k);
      SettingShifts(bs, i, rest, k);
    }
  }

  /** A block is public exactly when the nearest of itself and its ancestors
      that has a `public` property has it set to "true". */
  lemma {:induction false} PublicIffNearestSetting(bs: seq<Block>, i: nat)
    requires ParentsBefore(bs) && i < |bs|
    ensures IsPublic(bs, i) <==> NearestSettingIsTrue(bs, Ancestry(bs, i))
    decreases i
  {
    var chain := Ancestry(bs, i);
    if "public" in bs[i].properties {
      assert chain[0] == i;
      if bs[i].properties["public"] == "true" {
        assert SettingAt(bs, chain, 0);
      } else {
        forall k | 0 <= k < |chain| ensures !SettingAt(bs, chain, k) {
          if k > 0 { assert "public" in bs[chain[0]].properties; }
        }
      }
    } else if bs[i].parent.None? {
      assert chain == [i];
    } else {
      var p := bs[i].parent.value;
      assert chain == [i] + Ancestry(bs, p);
      PublicIffNearestSetting(bs, p);
      NearestSkipsUnset(bs, i, Ancestry(bs, p));
    }
  }

  /** The visibility cases of the block tests: a lone block is private; its own
      property decides; a child inherits its parent's; a child's own property
      overrides its parent's. */
  lemma {:induction false} PublicExamples(b: Block, c: Block)
    requires b.parent.None? && b.properties == map[]
    ensures !IsPublic([b], 0)
    ensures IsPublic([b.(properties := map["public" := "true"])], 0)
    ensures !IsPublic([b.(properties := map["public" := "false"])], 0)
    ensures !IsPublic([b.(properties := map["public" := ""])], 0)
    ensures c.properties == map[] ==> IsPublic([b.(properties := map["public" := "true"]), c.(parent := Some(0))], 1)
    ensures c.properties == map[] ==> !IsPublic([b.(properties := map["public" := "false"]), c.(parent := Some(0))], 1)
    ensures IsPublic([b.(properties := map["public" := "false"]), c.(parent := Some(0), properties := map["public" := "true"])], 1)
  {
  }

  /** IsHeader: the block's `heading` property is "true". */
  predicate IsHeader(b: Block) {
    match Get(b.properties, "heading")
      case Some(p) => p.Bool()
      case None => false
  }

  /** Tags: the `tags` property read as a ", "-separated list; none without one. */
  function Tags(b: Block): (r: seq<string>)
    ensures "tags" !in b.properties ==> r == []
    ensures "tags" in b.properties ==> |r| >= 1 && Join(r, ", ") == b.properties["tags"]
    ensures forall t :: t in r ==> IndexOf(t, ", ") == -1
  {
    match Get(b.properties, "tags")
      case None => []
      case Some(p) => ListRoundTrip(p); p.List()
  }

  /** Block.String: `page#id`. */
  function BlockRef(b: Block): string {
    b.pageName + "#" + b.id
  }

  /** InContext: the block's address within the site, `/page#id`; a block that
      belongs to no page has none. */
  function InContext(b: Block): (r: Result<string>)
    ensures b.pageName == "" <==> r.Err?
    ensures r.Err? ==> r.error == NoPageName(b.id)
    ensures r.Ok? ==> r.value == "/" + BlockRef(b)
  {
    if b.pageName == "" then Err(NoPageName(b.id)) else Ok("/" + b.pageName + "#" + b.id)
  }

  // ------------------------------------------------------------------ links

  /** The content links, one per stored path, in one fixed order of the paths
      (Go leaves the order of a map walk unspecified). */
  function ContentLinks(c: Content): (r: seq<Link>)
    ensures |r| == |c.links.Keys|
    ensures forall l :: l in r <==> l in c.links.Values
  {
    var ks := KeyOrder.Enumerate(c.links.Keys);
    ValuesInOrder(c.links, ks);
    seq(|ks|, k requires 0 <= k < |ks| => c.links[ks[k]])
  }

  /** Looking up every key of a map, in any order that lists each key, yields
      every value of the map and nothing else. */
  lemma {:induction false} ValuesInOrder(m: map<string, Link>, ks: seq<string>)
    requires forall p :: p in ks <==> p in m
    ensures var r := seq(|ks|, k requires 0 <= k < |ks| => m[ks[k]]);
      forall l :: l in r <==> l in m.Values
  {
    var r := seq(|ks|, k requires 0 <= k < |ks| => m[ks[k]]);
    forall l | l in m.Values ensures l in r {
      var p :| p in m && m[p] == l;
      var k :| 0 <= k < |ks| && ks[k] == p;
      assert r[k] == l;
    }
  }

  /** The link a `banner` property makes: an embedded asset named by the last
      element of the property's path. */
  function BannerLink(b: Block, banner: string): (r: Link)
    ensures r.linkType == LinkTypeAsset && r.isEmbed && r.linkPath == BaseName(banner)
    ensures r.raw == "" && r.linkLabel == "" && r.linksFrom == BlockRef(b)
  {
    Link("", BlockRef(b), BaseName(banner), "", LinkTypeAsset, true)
  }

  /** Block.Links: the banner link first when there is a banner, then every link
      of the content. */
  function BlockLinks(b: Block): (r: seq<Link>)
    ensures |r| == |b.content.links.Keys| + (if "banner" in b.properties then 1 else 0)
    ensures "banner" in b.properties ==> r[0] == BannerLink(b, b.properties["banner"])
    ensures forall l :: l in b.content.links.Values ==> l in r
    ensures forall l :: l in r ==>
      (l in b.content.links.Values || ("banner" in b.properties && l == BannerLink(b, b.properties["banner"])))
  {
    match Get(b.properties, "banner")
      case Some(p) => [BannerLink(b, p.value)] + ContentLinks(b.content)
      case None => ContentLinks(b.content)
  }

  // ------------------------------------------------------ property lines

  predicate IsPropertyNameChar(c: char) {
    IsLetter(c) || IsDigit(c) || c == '_' || c == '-'
  }

  /** A name the property pattern accepts: `[a-zA-Z][a-zA-Z0-9_-]*`. */
  predicate IsPropertyName(s: string) {
    |s| >= 1 && IsLetter(s[0]) && forall k :: 1 <= k < |s| ==> IsPropertyNameChar(s[k])
  }

  function NameRunEnd(s: string, i: nat): (j: nat)
    requires i <= |s|
    ensures i <= j <= |s|
    ensures forall k :: i <= k < j ==> IsPropertyNameChar(s[k])
    ensures j == |s| || !IsPropertyNameChar(s[j])
    decreases |s| - i
  {
    if i < |s| && IsPropertyNameChar(s[i]) then NameRunEnd(s, i + 1) else i
  }

  /** Where the line starting at `i` ends: RE2's `.` does not match a newline. */
  function LineEnd(s: string, i: nat): (j: nat)
    requires i <= |s|
    ensures i <= j <= |s|
    ensures forall k :: i <= k < j ==> s[k] != '\n'
    ensures j == |s| || s[j] == '\n'
    decreases |s| - i
  {
    if i < |s| && s[i] != '\n' then LineEnd(s, i + 1) else i
  }

  /** The match of `^([a-zA-Z][a-zA-Z0-9_-]*):: (.*)` against a source line. */
  function ParseProperty(line: string): (r: Option<Property>)
    ensures r.Some? ==> IsPropertyName(r.value.name) && '\n' !in r.value.value
    ensures r.Some? ==> StartsWith(line, r.value.name + ":: " + r.value.value)
    ensures r.Some? ==>
      (|line| == |r.value.name + ":: " + r.value.value| || line[|r.value.name + ":: " + r.value.value|] == '\n')
    ensures line == [] || !IsLetter(line[0]) ==> r.None?
  {
    if line == [] || !IsLetter(line[0]) then None
    else
      var n := NameRunEnd(line, 1);
      if At(line, n, ":: ") then
        var e := LineEnd(line, n + 3);
        var name, value := line[..n], line[n + 3..e];
        assert line[..e] == name + ":: " + value by {
          assert line[..e] == line[..n] + line[n..n + 3] + line[n + 3..e];
        }
        assert forall k :: 0 <= k < |value| ==> value[k] == line[n + 3 + k];
        Some(Property(name, value))
      else None
  }

  /** A line written as `name:: value` reads back as that property. */
  lemma {:induction false} ParsePropertyRoundTrip(name: string, value: string, rest: string)
    requires IsPropertyName(name) && '\n' !in value
    requires rest == [] || rest[0] == '\n'
    ensures ParseProperty(name + ":: " + value + rest) == Some(Property(name, value))
  {
    var line := name + ":: " + value + rest;
    var n := |name|;
    assert line[0] == name[0];
    assert NameRunEnd(line, 1) == n by {
      assert forall k :: 1 <= k < n ==> line[k] == name[k];
      assert line[n] == ':';
      NameRunEndOf(line, 1, n);
    }
    assert line[n..n + 3] == ":: ";
    var e := |name| + 3 + |value|;
    assert LineEnd(line, n + 3) == e by {
      assert forall k :: n + 3 <= k < e ==> line[k] == value[k - n - 3];
      assert e == |line| || line[e] == rest[0];
      LineEndOf(line, n + 3, e);
    }
    assert line[..n] == name;
    assert line[n + 3..e] == value;
  }

  lemma {:induction false} NameRunEndOf(s: string, i: nat, j: nat)
    requires i <= j <= |s|
    requires forall k :: i <= k < j ==> IsPropertyNameChar(s[k])
    requires j == |s| || !IsPropertyNameChar(s[j])
    ensures NameRunEnd(s, i) == j
    decreases j - i
  {
    if i < j { NameRunEndOf(s, i + 1, j); }
  }

  lemma {:induction false} LineEndOf(s: string, i: nat, j: nat)
    requires i <= j <= |s|
    requires forall k :: i <= k < j ==> s[k] != '\n'
    requires j == |s| || s[j] == '\n'
    ensures LineEnd(s, i) == j
    decreases j - i
  {
    if i < j { LineEndOf(s, i + 1, j); }
  }

  // ------------------------------------------------------------- NewBlock

  /** The properties set by the property lines among `lines`, later lines
      overwriting earlier ones. */
  function PropertiesOf(lines: seq<string>): PropertyMap
  {
    if lines == [] then map[]
    else
      var pm := PropertiesOf(lines[..|lines| - 1]);
      match ParseProperty(lines[|lines| - 1])
        case Some(p) => Set(pm, p.name, p.value)
        case None => pm
  }

  /** The lines that are not property lines, in order. */
  function ContentLinesOf(lines: seq<string>): seq<string>
  {
    if lines == [] then []
    else
      var cs := ContentLinesOf(lines[..|lines| - 1]);
      if ParseProperty(lines[|lines| - 1]).None? then cs + [lines[|lines| - 1]] else cs
  }

  /** The content lines are exactly the lines the property pattern rejects. */
  lemma {:induction false} ContentLinesAreNonProperties(lines: seq<string>)
    ensures ContentLinesOf(lines) == Filter(lines, (l: string) => ParseProperty(l).None?)
  {
    if lines != [] {
      var init, last := lines[..|lines| - 1], lines[|lines| - 1];
      assert lines == init + [last];
      ContentLinesAreNonProperties(init);
      FilterConcat(init, [last], (l: string) => ParseProperty(l).None?);
      assert [last][1..] == [];
    }
  }

  /** The line is a property line for `name`. */
  predicate SetsProperty(line: string, name: string) {
    ParseProperty(line).Some? && ParseProperty(line).value.name == name
  }

  /** A property is set exactly when some line sets it. */
  lemma {:induction false} PropertyKeys(lines: seq<string>, name: string)
    ensures name in PropertiesOf(lines) <==> exists k :: 0 <= k < |lines| && SetsProperty(lines[k], name)
  {
    if lines != [] {
      var init, last := lines[..|lines| - 1], lines[|lines| - 1];
      PropertyKeysStep(lines, name);
      PropertyKeys(init, name);
      assert forall k :: 0 <= k < |init| ==> init[k] == lines[k];
      if exists k :: 0 <= k < |lines| && SetsProperty(lines[k], name) {
        var k :| 0 <= k < |lines| && SetsProperty(lines[k], name);
        if k < |init| { assert SetsProperty(init[k], name); }
      }
    }
  }

  /** The last line adds its own property's name to the earlier lines' keys. */
  lemma {:induction false} PropertyKeysStep(lines: seq<string>, name: string)
    requires lines != []
    ensures name in PropertiesOf(lines) <==>
      name in PropertiesOf(lines[..|lines| - 1]) || SetsProperty(lines[|lines| - 1], name)
  {
  }

  /** A property holds the value of the last line that sets it. */
  lemma {:induction false} PropertyLastWins(lines: seq<string>, name: string, k: nat)
    requires k < |lines| && SetsProperty(lines[k], name)
    requires forall m :: k < m < |lines| ==> !SetsProperty(lines[m], name)
    ensures name in PropertiesOf(lines) && PropertiesOf(lines)[name] == ParseProperty(lines[k]).value.value
  {
    var init, last := lines[..|lines| - 1], lines[|lines| - 1];
    if k < |init| {
      assert init[k] == lines[k];
      assert forall m :: k < m < |init| ==> init[m] == lines[m];
      PropertyLastWins(init, name, k);
      assert !SetsProperty(last, name);
    }
  }

  /** The id a new block takes: its own non-empty `id` property, else a fresh one. */
  function ChosenId(props: PropertyMap, freshId: string): string {
    if ValueOf(props, "id") != "" then ValueOf(props, "id") else freshId
  }

  /** NewBlock: property lines become properties, the other lines, joined with
      newlines, become the content; the block keeps an `id` property that names
      it. The result has no parent and no children yet. */
  function MakeBlock(pageName: string, lines: seq<string>, depth: nat, freshId: string): Result<Block>
  {
    var props := PropertiesOf(lines);
    var id := ChosenId(props, freshId);
    var props' := if ValueOf(props, "id") != "" then props else Set(props, "id", id);
    match NewContent(id, Join(ContentLinesOf(lines), "\n"))
      case Err(e) => Err(e)
      case Ok(c) => Ok(Block(id, pageName, c, props', depth, None, []))
  }

  /** What a new block is: its id is its `id` property when that is non-empty
      and the fresh id otherwise, and the `id` property always names the block;
      its content is addressed by the same id; every other property is as the
      lines set it; it sits at the given depth on the given page with no
      relatives. It fails exactly when its content does. */
  lemma {:induction false} MakeBlockFacts(pageName: string, lines: seq<string>, depth: nat, freshId: string)
    ensures MakeBlock(pageName, lines, depth, freshId).Err? <==>
      NewContent(ChosenId(PropertiesOf(lines), freshId), Join(ContentLinesOf(lines), "\n")).Err?
    ensures MakeBlock(pageName, lines, depth, freshId).Ok? ==>
      var b := MakeBlock(pageName, lines, depth, freshId).value;
      && (ValueOf(PropertiesOf(lines), "id") != "" ==> b.id == PropertiesOf(lines)["id"])
      && (ValueOf(PropertiesOf(lines), "id") == "" ==> b.id == freshId)
      && ValueOf(b.properties, "id") == b.id
      && b.content.blockId == b.id
      && b.properties.Keys == PropertiesOf(lines).Keys + {"id"}
      && (forall n :: n in PropertiesOf(lines) && n != "id" ==> b.properties[n] == PropertiesOf(lines)[n])
      && b.pageName == pageName && b.depth == depth && b.parent.None? && b.children == []
  {
  }

  /** The property line of the block tests: `id:: 123` gives the block that id. */
  lemma {:induction false} MakeBlockWithIdProperty(pageName: string, freshId: string)
    ensures MakeBlock(pageName, ["id:: 123"], 0, freshId).Ok?
    ensures MakeBlock(pageName, ["id:: 123"], 0, freshId).value.id == "123"
    ensures Get(MakeBlock(pageName, ["id:: 123"], 0, freshId).value.properties, "id") == Some(Property("id", "123"))
  {
    ParsePropertyRoundTrip("id", "123", "");
    assert "id" + ":: " + "123" + "" == "id:: 123";
    assert ["id:: 123"][..0] == [];
    assert ContentLinesOf(["id:: 123"]) == [];
    PlainContent("123", "");
  }

  /** NewEmptyBlock: a block with no content and no properties. */
  function NewEmptyBlock(freshId: string): (r: Block)
    ensures r.id == freshId && r.content.blockId == freshId
    ensures r.content.markdown == "" && r.content.links == map[] && r.properties == map[]
    ensures r.pageName == "" && r.depth == 0 && r.parent.None? && r.children == []
    ensures BlockLinks(r) == []
  {
    Block(freshId, "", Content(freshId, "", map[], ""), map[], 0, None, [])
  }

  /** NewBlock, step by step: the lines are sorted into properties and content,
      the id is chosen, and the content is built. `freshId` stands for the
      random identifier the source draws on every call. */
  method NewBlock(pageName: string, sourceLines: seq<string>, depth: nat, freshId: string)
    returns (r: Result<Block>)
    ensures r == MakeBlock(pageName, sourceLines, depth, freshId)
  {
    var contentLines: seq<string> := [];
    var properties: PropertyMap := map[];
    for i := 0 to |sourceLines|
      invariant properties == PropertiesOf(sourceLines[..i])
      invariant contentLines == ContentLinesOf(sourceLines[..i])
    {
      assert sourceLines[..i + 1][..i] == sourceLines[..i];
      var m := ParseProperty(sourceLines[i]);
      if m.Some? {
        properties := Set(properties, m.value.name, m.value.value);
      } else {
        contentLines := contentLines + [sourceLines[i]];
      }
    }
    assert sourceLines[..|sourceLines|] == sourceLines;
    var id := freshId;
    var idProp := ValueOf(properties, "id");
    if idProp != "" {
      id := idProp;
    } else {
      properties := Set(properties, "id", id);
    }
    var content := NewBlockContent(id, Join(contentLines, "\n"));
    if content.Err? {
      return Err(content.error);
    }
    var c := content.value.Value();
    return Ok(Block(id, pageName, c, properties, depth, None, []));
  }

  // ----------------------------------------------------------------- arena

  /** The blocks of one page while they are being loaded. */
  class Arena {
    var blocks: seq<Block>

    constructor ()
      ensures blocks == []
    {
      blocks := [];
    }

    /** Records a new block; its index is returned. */
    method Append(b: Block) returns (i: nat)
      modifies this
      ensures blocks == old(blocks) + [b] && i == |old(blocks)|
    {
      i := |blocks|;
      blocks := blocks + [b];
    }

    /** Block.AddChild */
    method AddChild(p: nat, c: nat)
      requires p < |blocks| && c < |blocks| && p != c
      modifies this
      ensures blocks == WithChild(old(blocks), p, c)
    {
      blocks := blocks[p := blocks[p].(children := blocks[p].children + [c])];
      blocks := blocks[c := blocks[c].(parent := Some(p))];
    }
  }
}
