/** LoadPage: a page file becomes a Page. The file's name gives the page's
    name, title, namespace and path; its lines, already split by the scanner,
    give its blocks; a page without blocks gets one empty block. Opening the
    file and reading it are left to the caller, who passes the text in, and
    `pathInGraph` stands for the file's path relative to the graph directory. */
module PageLoading {
  import opened Common
  import opened PageLines
  import opened Blocks
  import opened Loader
  import opened LoaderProperties
  import opened PageNames
  import opened Pages

  /** The PageLines LoadPageLines reads from the text's lines. */
  function PageLinesOf(text: seq<string>): seq<PageLine> {
    seq(|text|, i requires 0 <= i < |text| => NewPageLine(text[i]))
  }

  /** The blocks findBlocks makes of a page's lines, or the single empty block
      LoadPage falls back to when it makes none. */
  function LoadedBlocks(name: string, ids: nat -> string, text: seq<string>): Result<seq<Block>> {
    match FindBlocksSpec(name, ids, PageLinesOf(text))
      case Err(e) => Err(e)
      case Ok(bs) => Ok(if bs == [] then [NewEmptyBlock(ids(0))] else bs)
  }

  /** The indices of a page's blocks, in the order they were made. */
  function Indices(n: nat): (r: seq<nat>)
    ensures |r| == n && forall k :: 0 <= k < n ==> r[k] == k
  {
    seq(n, k requires 0 <= k < n => k)
  }

  /** The blocks a page is loaded with form one tree under the first block:
      block 0 is a root of depth 0, every later block has a parent shallower
      than itself, and the blocks findBlocks made belong to the page. */
  lemma {:induction false} LoadedBlocksShape(name: string, ids: nat -> string, text: seq<string>)
    requires LoadedBlocks(name, ids, text).Ok?
    ensures var bs := LoadedBlocks(name, ids, text).value;
      && |bs| > 0 && WellFormed(bs) && Rooted(bs)
      && (FindBlocksSpec(name, ids, PageLinesOf(text)).value != [] ==>
            forall i :: 0 <= i < |bs| ==> bs[i].pageName == name)
  {
    var lines := PageLinesOf(text);
    FindBlocksShape(name, ids, lines);
    var st := FinalState(name, ids, lines).value;
    if st.blocks != [] {
      MadeBelong(name, ids, st);
    } else {
      EmptyPageShape(ids(0));
    }
  }

  /** The blocks NewBlock made for a page carry that page's name. */
  lemma {:induction false} MadeBelong(name: string, ids: nat -> string, st: ScanState)
    requires Made(name, ids, st)
    ensures forall i :: 0 <= i < |st.blocks| ==> st.blocks[i].pageName == name
  {
    forall i | 0 <= i < |st.blocks|
      ensures st.blocks[i].pageName == name
    {
      MakeBlockFacts(name, st.sources[i], st.blocks[i].depth, ids(i));
    }
  }

  /** The fallback page of one empty block is a one-block tree. */
  lemma {:induction false} EmptyPageShape(freshId: string)
    ensures WellFormed([NewEmptyBlock(freshId)]) && Rooted([NewEmptyBlock(freshId)])
  {
  }

  /** What LoadPage reads from a page file: its naming and its blocks. */
  datatype PageContent = PageContent(naming: Naming, blocks: seq<Block>)

  /** A name that does not decode and lines findBlocks refuses are errors, in
      that order; otherwise the derived naming and the loaded blocks. */
  function PageContents(pageFile: string, text: seq<string>, ids: nat -> string,
                        unescape: string -> Option<string>, slugify: string -> string): Result<PageContent>
  {
    match DerivePageName(pageFile, unescape, slugify)
      case Err(e) => Err(e)
      case Ok(n) =>
        match LoadedBlocks(n.name, ids, text)
          case Err(e) => Err(e)
          case Ok(bs) => Ok(PageContent(n, bs))
  }

  /** The blocks of a loaded page form one tree under its first block. */
  lemma {:induction false} PageContentsShape(pageFile: string, text: seq<string>, ids: nat -> string,
                          unescape: string -> Option<string>, slugify: string -> string)
    requires PageContents(pageFile, text, ids, unescape, slugify).Ok?
    ensures var c := PageContents(pageFile, text, ids, unescape, slugify).value;
      |c.blocks| > 0 && WellFormed(c.blocks) && Rooted(c.blocks)
  {
    var n := DerivePageName(pageFile, unescape, slugify).value;
    LoadedBlocksShape(n.name, ids, text);
  }

  /** The reading half of LoadPage: the naming, then the page's lines run
      through findBlocks, with one empty block when it makes none. */
  method ReadPage(pageFile: string, text: seq<string>, ids: nat -> string,
                  unescape: string -> Option<string>, slugify: string -> string) returns (r: Result<PageContent>)
    ensures r == PageContents(pageFile, text, ids, unescape, slugify)
  {
    var naming := DerivePageName(pageFile, unescape, slugify);
    if naming.Err? {
      return Err(naming.error);
    }
    var n := naming.value;
    var lines := LoadPageLines(text);
    assert lines == PageLinesOf(text);
    var found := FindBlocks(n.name, lines, ids);
    if found.Err? {
      return Err(found.error);
    }
    var blocks := found.value;
    if |blocks| == 0 {
      blocks := [NewEmptyBlock(ids(0))];
    }
    return Ok(PageContent(n, blocks));
  }

  /** LoadPage. When reading fails, the error; otherwise a new page carrying
      the derived name, title, namespace and path, the loaded blocks with the
      first as root, and every block recorded in the order it was made. */
  method LoadPage(pageFile: string, pathInGraph: string, text: seq<string>, ids: nat -> string,
                  unescape: string -> Option<string>, slugify: string -> string) returns (r: Result<Page>)
    ensures var c := PageContents(pageFile, text, ids, unescape, slugify);
      && (c.Err? ==> r == Err(c.error))
      && (c.Ok? ==>
            && r.Ok? && fresh(r.value) && r.value.Valid()
            && r.value.name == c.value.naming.name && r.value.title == c.value.naming.title
            && r.value.namespace == c.value.naming.namespace && r.value.path == c.value.naming.path
            && r.value.pathInGraph == pathInGraph && r.value.kind == "page"
            && r.value.blocks == c.value.blocks
            && r.value.root == 0 && r.value.allBlocks == Indices(|c.value.blocks|)
            && r.value.backlinks == [] && r.value.taggedLinks == [])
  {
    var c := ReadPage(pageFile, text, ids, unescape, slugify);
    if c.Err? {
      return Err(c.error);
    }
    PageContentsShape(pageFile, text, ids, unescape, slugify);
    var n := c.value.naming;
    var blocks := c.value.blocks;
    var page := new Page.Loaded(n.name, n.title, n.namespace, n.path, pathInGraph, blocks, Indices(|blocks|));
    return Ok(page);
  }
}
