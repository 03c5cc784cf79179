# ExportLogseq core, modelled in Dafny

This project models the core of a tool that reads a Logseq graph and exports it as a Hugo site.

- A Logseq graph is a directory of Markdown pages and assets.
- Each page is an outline of tab-indented `- ` blocks.
- A block carries `name:: value` property lines and `[[page]]`, `#tag` and `![label](../assets/x)` links.

The model follows the Go packages `logseq`, `graph` and `hugo`:

- **Loading pages.** Page lines keep their tab depth (`PageLines`). Pages get their names from file names, with the nested, flat and journal rules (`PageNames`). The blocks of a page are found by a line-by-line state machine and an imperative method over a block stack (`Loader`, `BlockStacks`, `LoaderProperties`, `PageLoading`).
- **The graph.** The graph entities are modelled here:
  - blocks with properties and the inherited `public` flag (`Blocks`, `Properties`);
  - block content with its link scanner (`BlockContents`, `LinkScan`, `LinkScanRoundTrips`, `Callouts`);
  - pages and their block trees (`Pages`, `PageTrees`);
  - assets (`Assets`);
  - the graph with its lookups, link queries, public subgraph and section marking (`Graphs`).
- **Publishing to Hugo.** The `Publisher` module models the permalink tables, link rewriting and the nested `block` shortcode output.

Blocks live in a per-page arena (`seq<Block>`) and refer to their parent and children by index. A parent always comes before its children. Objects that the Go code updates in place are Dafny classes with `modifies` frames:

- `BlockStack`;
- the block `Arena`;
- `BlockContent`;
- `Page`;
- `Graph`.

Each loop of the source that changes state step by step is a `method` with invariants, proved equal to a specification function. The lemmas next to that function state what the source promises about it.

Five loops only filter or map a list, so they are functions, with no method:

- `Page.Links` (graph/page.go:62) is `Pages.Page.Links`, built on `Pages.LinksOf`;
- `Page.PageLinks` (graph/page.go:73) is `Pages.Page.PageLinks`, built on `Links.OfType`;
- `Page.TagLinks` (graph/page.go:86) is `Pages.Page.TagLinks`, built on `Links.OfType`;
- the content part of `Block.Links` (graph/block.go:128) is `Blocks.ContentLinks`;
- the slug loop of logseq/loader.go:124 is `PageNames.Slugs`, a sequence comprehension.

Some inputs come from outside the modelled code. They are parameters:

- the file system;
- random UUIDs;
- `slug.Make`;
- `url.QueryUnescape`;
- Go's unspecified map iteration order, which the model fixes as code-point order in `KeyOrder.Enumerate`.

Where the code and its documentation differ, the model follows the code, with one exception. The exporter renders links through the corrected page-permalink lookup of the "## Findings" row, not the lookup as written. So a link to the contents page gives "/" where the code gives "//"; "## Left out" names each member this affects. Otherwise:

- **A page that starts with a bullet.** findBlocks first makes a block of the lines gathered so far, even when there are none. So the page `- a`, `  b`, `- c`, `\t- d` gives an empty depth-0 root, "a\nb" and "c" at depth 1 under it, and "d" at depth 2 under "c". It does not give two depth-0 blocks. Every page therefore has exactly one root (`LoaderProperties.FindBlocksShape`).
- **Link rewriting with an empty pattern.** `ProcessBlock` replaces each link's raw text with its rendering, following `strings.Replace` exactly. The banner link has empty raw text, and an empty pattern makes Go insert the replacement around every character. `Strs.ReplaceAll` models that rule.

## Model

| member | source | states |
|---|---|---|
| PageLines.NewPageLine | logseq/page_line.go:19-28 | the indent is the number of leading tabs; the tabs followed by the content give back the line; the content does not start with a tab |
| PageLines.NewPageLineUnique | logseq/page_line.go:19-28 | any split of a line into leading tabs and tab-free-start content is the one NewPageLine returns |
| PageLines.NewPageLineOfIndented | logseq/page_line.go:19-28 | n tabs before a content that does not start with a tab read back as indent n and that content |
| PageLines.NewPageLineExamples | logseq/page_line.go:19-28 | empty line, plain text, space-indented continuation and tab-indented bullet read as the source's tests expect (spaces do not count as indent) |
| PageLines.LoadPageLines | logseq/page_line.go:30-45 | one PageLine per input line, in order, each equal to NewPageLine of that line |
| BlockStacks.BlockStack.constructor | logseq/block_stack.go:15-19 | a new stack is empty |
| BlockStacks.BlockStack.Top | logseq/block_stack.go:22-28 | none iff the stack is empty, otherwise the last pushed block |
| BlockStacks.BlockStack.IsEmpty | logseq/block_stack.go:31-33 | true iff the stack holds no block |
| BlockStacks.BlockStack.Push | logseq/block_stack.go:36-38 | the block is appended and becomes the top |
| BlockStacks.BlockStack.Pop | logseq/block_stack.go:41-51 | on an empty stack returns none and leaves it empty; otherwise returns the old top and removes exactly it |
| BlockStacks.PopDeeper | logseq/block_stack.go:57-67 | the popping loop leaves a prefix of the stack whose top is shallower than the new block, and every popped block is at least as deep |
| BlockStacks.PlaceFacts | logseq/block_stack.go:53-71 | a depth-0 block is pushed; a deeper block with no shallower block on the stack empties the stack and is dropped; otherwise it becomes the child of the nearest shallower block and is pushed |
| BlockStacks.PlaceKeepsIncreasing | logseq/block_stack.go:53-71 | placing a block keeps the stack strictly increasing in depth and arena index, and the only parent it assigns is the placed block's, to a shallower block |
| BlockStacks.AttachKeepsIncreasing | logseq/block_stack.go:58-63 | attaching the new block under the top kept block keeps the stack ordered on the updated arena |
| BlockStacks.PrefixIncreasing | logseq/block_stack.go:66 | popping keeps the stack ordered |
| BlockStacks.PushKeepsIncreasing | logseq/block_stack.go:61 | pushing a deeper, later block keeps the stack ordered |
| BlockStacks.SameDepthsIncreasing | logseq/block_stack.go:59 | adding a child changes no depth, so the stack stays ordered |
| BlockStacks.PlaceBlock | logseq/block_stack.go:53-71 | the imperative loop over the stack and arena objects leaves exactly the state the specification Place computes |
| Properties.Property.String | logseq/property.go:13-18 | a `[[...]]` value reads as the text between the brackets, any other value as itself |
| Properties.Property.List | logseq/property.go:27-29 | a value splits into at least one item |
| Properties.ListRoundTrip | logseq/property.go:27-29 | joining the items with ", " gives back the value, and no item contains ", " |
| Properties.PageLinkLength | logseq/property.go:32-34 | a value counted as a page link has at least the four bracket characters |
| Properties.StringOfPageLink | logseq/property.go:13-18 | the value `[[p]]` reads as p |
| Properties.StringExamples | logseq/property.go:13-18 | plain, empty and `[[value]]` values read as the source's tests expect |
| Properties.IsPageLinkExamples | logseq/property.go:32-34 | `[[page]]` is a page link; plain and empty values are not |
| Properties.ListExample | logseq/property.go:27-29 | "a, b, c" lists as ["a", "b", "c"] |
| Properties.Get | graph/block.go:53 | the property is found iff its name is set, and then carries that name and value |
| Properties.Set | graph/block.go:139-141 | setting adds the name to the keys, makes its value the new one and keeps every other property |
| Properties.ValueOf | graph/block.go:53-55 | the value of a set property, and "" when it is missing |
| Blocks.WithChild | graph/block.go:79-82 | adding a child appends it to the parent's children, points the child's parent at the parent and changes no other block |
| Blocks.WithChildWellFormed | graph/block.go:79-82 | attaching the newest block under an earlier block keeps parent and children links consistent and ordered |
| Blocks.Ancestry | graph/block.go:99-110 | the chain of parents from a block up to its root: it starts at the block, each step is the parent link, and it ends at a block with no parent |
| Blocks.SettingShifts | graph/block.go:100-106 | reading a `public` setting at position k+1 of a chain is reading it at position k of the chain without its first block |
| Blocks.NearestSkipsUnset | graph/block.go:100-106 | a block without a `public` property defers to its parent |
| Blocks.PublicIffNearestSetting | graph/block.go:99-110 | a block is public iff the nearest block on its ancestry with a `public` property has the value "true"; with none, it is private |
| Blocks.PublicExamples | graph/block.go:99-110 | no property means private; "true" means public; "false" and "" mean private; a child inherits its parent's setting and its own setting overrides it |
| Blocks.Tags | graph/block.go:143-151 | no `tags` property gives no tags; otherwise the tags are at least one item whose ", "-join is the property value, none containing ", " |
| Blocks.InContext | graph/block.go:84-90 | an error naming the block iff it has no page name, otherwise "/" + page + "#" + id |
| Blocks.ContentLinks | graph/block.go:128-130 | the content's links, each stored link exactly once |
| Blocks.ValuesInOrder | graph/block.go:128-130 | listing a map's values by a duplicate-free list of all its keys lists each value exactly once |
| Blocks.BannerLink | graph/block.go:115-126 | the banner link is an embedded asset link to the base name of the banner path, with empty raw text and label, from this block |
| Blocks.BlockLinks | graph/block.go:112-133 | the banner link first when the block has a banner property, then the content's links; nothing else and nothing missing |
| Blocks.NameRunEnd | graph/block.go:36 | the end of the run of name characters `[a-zA-Z0-9_-]` |
| Blocks.LineEnd | graph/block.go:36 | the end of the line |
| Blocks.ParseProperty | graph/block.go:36-47 | a match is a letter-led name of `[a-zA-Z0-9_-]` followed by ":: " and the rest of the line; a line not starting with a letter never matches |
| Blocks.ParsePropertyRoundTrip | graph/block.go:36-47 | writing `name:: value` and parsing it gives back the name and the value |
| Blocks.NameRunEndOf | graph/block.go:36 | the run end is the first index past name characters |
| Blocks.LineEndOf | graph/block.go:36 | the line end is the first newline or the end |
| Blocks.ContentLinesAreNonProperties | graph/block.go:40-50 | the content lines are exactly the lines that are not property lines, in order |
| Blocks.PropertyKeys | graph/block.go:40-50 | a property is set iff some line sets it |
| Blocks.PropertyKeysStep | graph/block.go:40-50 | the properties of the lines plus one more are those of the lines, plus any the last line sets |
| Blocks.PropertyLastWins | graph/block.go:40-50 | a property takes the value of the last line that sets it |
| Blocks.MakeBlockFacts | graph/block.go:35-77 | the block fails iff its content fails; its id is its non-empty `id` property, else the fresh id, and the `id` property then names it; the content has the same id; other properties are as set; it has the page, the depth, no parent and no children |
| Blocks.MakeBlockWithIdProperty | graph/block.go:52-59 | the line `id:: 123` gives a block whose id and `id` property are "123" |
| Blocks.NewEmptyBlock | graph/block.go:23-33 | a block with the fresh id on itself and its content, empty content, no links, no properties, depth 0 and no relatives |
| Blocks.NewBlock | graph/block.go:35-77 | the imperative split of the lines into properties and content lines gives the block MakeBlock describes |
| Blocks.Arena.constructor | graph/block.go:79-82 | a new arena holds no block |
| Blocks.Arena.Append | graph/block.go:79-82 | the block is appended and its index returned |
| Blocks.Arena.AddChild | graph/block.go:79-82 | the arena afterwards is WithChild of the one before |
| BlockContents.AddOne | graph/block_content.go:42-56 | a path already present leaves the links unchanged; a new path stores the link under it, stamped with the block id |
| BlockContents.AddAllSnoc | graph/block_content.go:42-56 | adding a list then one more link equals adding that link to the result |
| BlockContents.AddAllConcat | graph/block_content.go:100-120 | adding two lists in turn equals adding their concatenation |
| BlockContents.AddAllKeeps | graph/block_content.go:45-49 | links already stored are never replaced |
| BlockContents.AddAllKeys | graph/block_content.go:42-56 | the stored paths are the old ones plus the paths of the added links |
| BlockContents.AddAllKeyed | graph/block_content.go:52-53 | every stored link sits under its own path and comes from the block |
| BlockContents.AddAllFirstWins | graph/block_content.go:45-53 | for a path met first in a list at position i, the stored link is the one at i, stamped |
| BlockContents.EarlierWins | graph/block_content.go:45-53 | links added later never change a path stored earlier |
| BlockContents.ExtractLinks | graph/block_content.go:100-120 | content with a code fence has no links; otherwise page links, then asset links, then tag links |
| BlockContents.PageLinkPrecedence | graph/block_content.go:100-120 | a path named by a page link is stored as a page link whatever else names it |
| BlockContents.AssetLinkPrecedence | graph/block_content.go:100-120 | a path named by an asset link and no page link is stored as an asset link |
| BlockContents.AddAllStoredFrom | graph/block_content.go:42-56 | each newly stored path holds one of the added links, stamped |
| BlockContents.NewContent | graph/block_content.go:29-39 | fails iff the callout step fails; otherwise the unwrapped markdown, its links added in order, and the lower-cased callout kind or "" |
| BlockContents.NewContentKeyed | graph/block_content.go:29-39 | every link of new content sits under its own path and names the block |
| BlockContents.PlainContent | graph/block_content.go:72-98 | source with no callout and no code fence keeps its markdown, has no callout, and stores the paths of its page, asset and tag links |
| BlockContents.CodeBlockHasNoLinks | graph/block_content.go:103-105 | markdown with a code fence stores no links |
| BlockContents.BlockContent.constructor | graph/block_content.go:20-27 | empty id, markdown, links and callout |
| BlockContents.BlockContent.FindLink | graph/block_content.go:59-63 | found iff the path is stored, and then the stored link |
| BlockContents.BlockContent.AddLink | graph/block_content.go:42-56 | returns none iff the path was present, otherwise the stamped link now stored; links become AddOne of the old links; nothing else changes |
| BlockContents.BlockContent.AddEach | graph/block_content.go:125-143 | adding the links in order leaves AddAll of the old links |
| BlockContents.BlockContent.FindPageLinks | graph/block_content.go:148-170 | the page links of the markdown are added in order |
| BlockContents.BlockContent.FindAssetLinks | graph/block_content.go:172-197 | the asset links of the markdown are added in order |
| BlockContents.BlockContent.FindTagLinks | graph/block_content.go:122-146 | the tag links of the markdown are added in order |
| BlockContents.BlockContent.FindLinks | graph/block_content.go:100-120 | the links of ExtractLinks are added in order |
| BlockContents.BlockContent.SetMarkdown | graph/block_content.go:72-98 | a callout mismatch is reported and changes nothing; otherwise the markdown is unwrapped, the callout set when there is one, and the links found |
| BlockContents.NewBlockContent | graph/block_content.go:29-39 | fails exactly as NewContent does; otherwise a fresh object whose value is NewContent's |
| Callouts.NonSpaceRunEnd | graph/block_content.go:73 | the end of the longest run of non-whitespace from a position (the `\S+` groups) |
| Callouts.BodyEnd | graph/block_content.go:73 | the shortest body end after which a closing line "\n#+END_" with a kind follows; no earlier position closes |
| Callouts.CalloutAt | graph/block_content.go:73 | a match starting at a position ends after it and within the text |
| Callouts.FirstCalloutAt | graph/block_content.go:73-74 | the leftmost match position from a position on: it matches and no earlier position does; none means no position from there matches |
| Callouts.FirstCallout | graph/block_content.go:73-74 | the leftmost match (FindStringSubmatch): the match at a position with no match before it; none means no position matches |
| Callouts.Groups | graph/block_content.go:73-86 | the submatches a template can name: 1 the opener, 2 the body, 3 the closer |
| Callouts.WordRunEnd | graph/block_content.go:86 | the end of the run of word characters that a `$name` reference takes |
| Callouts.TemplateRef | graph/block_content.go:86 | the name after a `$` in the replacement, bare or in braces, is non-empty, made of word characters, and followed by the rest of the template |
| Callouts.TemplateRefBare | graph/block_content.go:86 | a bare name ended by a non-word character or the end is read whole |
| Callouts.TemplateRefBraced | graph/block_content.go:86 | a braced name is read whole, braces dropped |
| Callouts.GroupText | graph/block_content.go:86 | "1" and "2" name the opener and the body; a name that is not one digit from 0 to 3 names nothing |
| Callouts.ExpandLiteral | graph/block_content.go:86 | a replacement without "$" is inserted as written |
| Callouts.ExpandLiteralPrefix | graph/block_content.go:86 | a "$"-free prefix of the replacement is copied, and expansion goes on after it |
| Callouts.ExpandKeepsDollar | graph/block_content.go:86 | "$$" is "$"; a "$" with no name after it, as in "${1" or a trailing "$", stays |
| Callouts.ExpandGroups | graph/block_content.go:86 | "${1}" and "$1" give the opener, "$2" the body |
| Callouts.ExpandUnknownGroups | graph/block_content.go:86 | "$10" and "$HOME" name no group of the pattern and give nothing |
| Callouts.ReplaceCallouts | graph/block_content.go:86 | ReplaceAllString: text without a match is unchanged; otherwise the text before the leftmost match is kept verbatim, the match becomes the replacement expanded against its own groups, and replacing goes on after it |
| Callouts.Unwrap | graph/block_content.go:73-88 | no match leaves the markdown unchanged and no callout; an error iff the first match's opener and closer differ; otherwise the markdown is every match replaced by the first match's body, as ReplaceCallouts states, and the callout kind is the lower-cased opener |
| Callouts.NoBeginNoCallout | graph/block_content.go:73-88 | text without "#+BEGIN_" is left unchanged with no callout |
| Callouts.WrappedCalloutMatches | graph/block_content.go:73-77 | `#+BEGIN_X`, newline, a body without a closing line, `#+END_Y` matches from the start with opener X, that body and closer Y |
| Callouts.CalloutRoundTrip | graph/block_content.go:72-88 | wrapping a body in a callout of kind X and unwrapping it gives the body expanded against the callout's groups, and lower-cased X; a body without "$" comes back unchanged |
| Callouts.ReplaceWholeMatch | graph/block_content.go:86 | when the match spans the whole text, the result is the replacement expanded against that match alone |
| Callouts.MissingGroupDropped | graph/block_content.go:73-88 | a callout body ending in "$10" is stored without it, since the pattern has no group 10 ("Costs $10" in a NOTE callout becomes "Costs ") |
| Callouts.CalloutMismatchIsError | graph/block_content.go:79-81 | a callout whose closer differs from its opener is the mismatch error naming both |
| LinkScan.PageNameEnd | graph/block_content.go:149 | the first "]]" after a non-empty name, with no newline inside (`(.+?)`) |
| LinkScan.PageLinksFrom | graph/block_content.go:148-170 | every found page link is a non-embedded page link from the block, labelled by its non-empty, newline-free name, with raw text `[[name]]` |
| LinkScan.AssetPathEnd | graph/block_content.go:175 | the closing ')' of an asset path |
| LinkScan.AssetPathEndFacts | graph/block_content.go:175 | the path before its ')' holds no newline and no ')' |
| LinkScan.AssetLabelEnd | graph/block_content.go:175 | the end of the label is followed by "](../assets/" and a closed path |
| LinkScan.AssetLabelEndFacts | graph/block_content.go:175 | the label holds no newline and the path is closed |
| LinkScan.AssetLinkAt | graph/block_content.go:181-188 | an asset link from the block, embedded iff a '!' precedes the '[' |
| LinkScan.AssetLinkAtShape | graph/block_content.go:177-188 | a match puts back together as `[label](../assets/path)`, with '!' when embedded |
| LinkScan.AssetOpen | graph/block_content.go:175 | a match opens at its own position, or one later after a '!' |
| LinkScan.AssetMatchAt | graph/block_content.go:175 | the label and path of a match lie in order inside the text |
| LinkScan.NextAssetMatch | graph/block_content.go:177 | the next match starts at or after the position and ends inside the text |
| LinkScan.NextFound | graph/block_content.go:177 | the next match has the shape the pattern demands |
| LinkScan.AssetMatchesStep | graph/block_content.go:177 | the matches are the next one and those after its end (non-overlapping, left to right) |
| LinkScan.MatchesFound | graph/block_content.go:177 | every listed match has the pattern's shape |
| LinkScan.MatchLink | graph/block_content.go:181-188 | the link of a match is an asset link from the block, embedded iff it has a '!' |
| LinkScan.AssetLinksFrom | graph/block_content.go:172-197 | every found asset link is an asset link from the block |
| LinkScan.AssetLinksShape | graph/block_content.go:172-197 | every found asset link is `[label](../assets/path)` put back together, with '!' when embedded |
| LinkScan.FoundAssetShaped | graph/block_content.go:177-188 | the link of one match has that shape |
| LinkScan.TagRunEnd | graph/block_content.go:123 | the end of the run of `[\w/-]` characters |
| LinkScan.BackToBoundary | graph/block_content.go:123 | backing off to the last word boundary (`\b`) not before a bound |
| LinkScan.TagNameEnd | graph/block_content.go:123 | a tag name is a letter then at least one `[\w/-]` character |
| LinkScan.TagHash | graph/block_content.go:123 | a tag's '#' is at the start of the text or right after whitespace (`(?:^|\s)`) |
| LinkScan.TagLinkAt | graph/block_content.go:126-137 | a tag link labelled by its name, raw text including the leading whitespace when there is one |
| LinkScan.TagRawParts | graph/block_content.go:126 | the raw match is "#" + name, or the whitespace character, "#" and the name |
| LinkScan.TagLinksFrom | graph/block_content.go:122-146 | every found tag link has that shape and comes from the block |
| LinkScanRoundTrips.PageLinkRoundTrip | graph/block_content.go:148-170 | `[[name]]` with a newline-free name without ']' is exactly one page link to that name |
| LinkScanRoundTrips.TagRoundTrip | graph/block_content.go:122-146 | "#" + a letter-led word name is exactly one tag link to that name |
| LinkScanRoundTrips.AssetLinkRoundTrip | graph/block_content.go:172-197 | a written asset link, embedded or not, scans back to exactly that label, path and embed flag |
| Links.OfType | graph/graph.go:155-179 | the links of one type, in order, and all of them |
| Links.OfTypeConcat | graph/graph.go:155-179 | filtering by type distributes over concatenation |
| Links.OfTypeSnoc | graph/graph.go:155-179 | filtering one more link adds it iff it has the type |
| Links.ToTarget | graph/graph.go:105-122 | the links to one target path, in order, and all of them |
| Links.ToTargetSnoc | graph/graph.go:105-122 | filtering one more link adds it iff it points at the target |
| Loader.Flush | logseq/loader.go:262-269 | making and placing a block adds exactly one block and keeps every stacked index on the arena |
| Loader.PlaceOnArena | logseq/loader.go:269 | placing keeps the arena's size and the stack on it |
| Loader.Gather | logseq/loader.go:289-296 | a line is refused with the mismatched-indent error iff its indent differs from the current block's |
| Loader.Step | logseq/loader.go:253-297 | one loop iteration keeps every stacked index on the arena |
| Loader.Scan | logseq/loader.go:253-297 | the loop keeps every stacked index on the arena |
| Loader.ScanErrorSticks | logseq/loader.go:264-294 | the first error ends the loop: later lines do not change the outcome |
| Loader.FlushBlock | logseq/loader.go:262-269 | the imperative block-making step on the arena and stack objects leaves the state Flush computes |
| Loader.ScanLine | logseq/loader.go:253-297 | the imperative loop body leaves the state Step computes, or its error |
| Loader.FindBlocks | logseq/loader.go:247-314 | the imperative findBlocks, over the arena and BlockStack objects, returns exactly the specification's blocks or error |
| LoaderProperties.ScanConcat | logseq/loader.go:253-297 | scanning two runs of lines is scanning the first and then the second from where it stopped |
| LoaderProperties.DashLineSkipped | logseq/loader.go:256-258 | a line that is exactly "-" changes nothing: removing it gives the same blocks and state |
| LoaderProperties.DashesLeaveStart | logseq/loader.go:256-258 | lines that are all "-" leave the scanner at its start |
| LoaderProperties.FailingLine | logseq/loader.go:264-294 | a line that fails makes the whole page fail with that error, whatever follows |
| LoaderProperties.OrphanContinuation | logseq/loader.go:278-282 | a continuation line before any content fails with "no block to continue" |
| LoaderProperties.ScanTraced | logseq/loader.go:253-297 | the blocks' lines followed by the gathered lines are the kept lines, with their markers removed, in order |
| LoaderProperties.MismatchedPlainLine | logseq/loader.go:289-294 | a line with no marker and an indent other than the expected one fails with "mismatched indent" |
| LoaderProperties.GatheredIffKept | logseq/loader.go:250-296 | lines are gathered iff some line was kept |
| LoaderProperties.ContinuationStep | logseq/loader.go:278-287 | a continuation after some content is gathered without its marker at one more indent |
| LoaderProperties.MismatchedContinuation | logseq/loader.go:278-294 | a continuation whose indent plus one differs from the expected one fails with "mismatched indent" |
| LoaderProperties.FindBlocksShape | logseq/loader.go:247-314 | the blocks form a well-formed tree whose first block is the only root, at depth 0; each block is what NewBlock makes of its lines; those lines are the page's kept lines in order; there is one block per bullet line plus one when lines are left over |
| PageLoading.LoadedBlocksShape | logseq/loader.go:150-162 | the loaded blocks are never empty and form one well-formed tree under block 0; the blocks findBlocks made carry the page's name |
| PageLoading.MadeBelong | logseq/loader.go:142-150 | every block findBlocks made carries the page's name |
| PageLoading.EmptyPageShape | logseq/loader.go:155-159 | the fallback page of one empty block is a one-block tree |
| PageLoading.PageContentsShape | logseq/loader.go:87-165 | a page read without error has at least one block, and its blocks form one tree under the first |
| PageLoading.ReadPage | logseq/loader.go:87-159 | the imperative read returns what the specification PageContents gives |
| PageLoading.LoadPage | logseq/loader.go:87-165 | a read error is returned as is; otherwise a fresh, valid page with the derived name, title, namespace and path, the loaded blocks, the first as root, and every block recorded in order |
| PageNames.Slugs | logseq/loader.go:122-126 | one slug per step, in order |
| PageNames.NestedNaming | logseq/loader.go:113-128 | a name of several steps keeps the whole name; the title is the last step and has no "/"; namespace + "/" + title is base + "/" + name; the path is the slugged steps joined by "/" |
| PageNames.StepsRejoin | logseq/loader.go:117-118 | the steps before the last, "/" and the last step spell the name |
| PageNames.FlatNaming | logseq/loader.go:92-128 | a one-step name keeps the undecoded stem as its title, the base namespace and its own slug as path |
| PageNames.JournalNaming | logseq/loader.go:93-98 | a `dddd_dd_dd` file is named by the date with "-" for "_", lands under "journals", keeps the underscored stem as title and has the dashed date shape |
| PageNames.JournalDate | logseq/loader.go:97 | the dashed date has the `dddd-dd-dd` shape and no "/" |
| PageNames.PageNaming | logseq/loader.go:99-106 | any other file is refused with a decoding error iff its stem does not decode; otherwise it keeps the decoded name under "pages" |
| Pages.LinksOfMembers | graph/page.go:59-67 | a link is among a page's links iff some recorded block has it |
| Pages.Page.NewEmptyPage | graph/page_test.go:12-19 | a valid page of one empty block, which is its root and its only recorded block, with empty names, kind "page" and no backlinks or tagged links |
| Pages.Page.Loaded | logseq/loader.go:142-162 | a valid page with the given names and blocks, block 0 as root and the given recorded blocks |
| Pages.Page.Aliases | graph/page.go:32-39 | no `alias` property on the root gives no aliases; otherwise at least one alias, whose ", "-join is the property, none containing ", " |
| Pages.Page.Tags | graph/page.go:141-143 | the root block's tags |
| Pages.Page.PageLinks | graph/page.go:70-80 | exactly the page links among the page's links |
| Pages.Page.TagLinks | graph/page.go:83-93 | exactly the tag links among the page's links |
| Pages.Page.RequestsHoistedNamespace | graph/page.go:101-105 | true iff the root's `hoist-namespace` property is "true" |
| Pages.Page.MarkSection | graph/graph.go:226-228 | the kind becomes "section" and nothing else changes |
| Pages.Page.SetRoot | graph/page.go:113-117 | the root is the given block and the recorded blocks are its subtree in pre-order; nothing else changes |
| Pages.Page.AddTree | graph/page.go:120-125 | the block's subtree, in pre-order, is appended to the recorded blocks; nothing else changes |
| Pages.Page.AddPublicTree | graph/page.go:128-138 | the block's public subtree, pruned at the first private block on each path, is appended in pre-order; nothing else changes |
| Pages.EmptyPageDefaults | graph/page.go:20-29 | the empty page has no aliases, tags or links, is not public and does not ask for hoisting |
| Pages.SetRootMembers | graph/page.go:113-117 | after SetRoot a block is recorded iff it descends from the root |
| Pages.PageLinksOfBlocks | graph/page.go:59-93 | a link is among the page links (tag links) iff it is a page (tag) link of some recorded block |
| Pages.JournalNameExamples | graph/page.go:42-46 | "2022-01-01" and "2022/01/01" are journal names; "2022_01_01" and "2022-01-1" are not |
| Pages.PreOrderListStep | graph/page.go:122-124 | walking one more child appends that child's subtree |
| Pages.PublicPreOrderListStep | graph/page.go:135-137 | walking one more child appends that child's public subtree |
| Pages.WalkStep | graph/page.go:122-124 | the loop in AddTree keeps the recorded blocks equal to the walk of the children so far |
| Pages.WalkEnd | graph/page.go:120-125 | after all children the recorded blocks end with the block's whole subtree |
| Pages.PublicWalkStep | graph/page.go:135-137 | the loop in AddPublicTree keeps the recorded blocks equal to the public walk of the children so far |
| Pages.PublicWalkEnd | graph/page.go:128-138 | after all children the recorded blocks end with the block's public subtree |
| Pages.PublicWalkOf | graph/page.go:128-138 | the public walk of a public block is the block followed by its children's public walks |
| PageTrees.PreOrder | graph/page.go:120-125 | the walk starts at the block itself |
| PageTrees.ListStep | graph/page.go:122-124 | the walk of a list of children is the walk of all but the last, then the last's subtree |
| PageTrees.InList | graph/page.go:122-124 | a block is in the walk of a list of children iff it is in the subtree of one of them |
| PageTrees.PreOrderSound | graph/page.go:120-125 | every block in a subtree walk descends from its start |
| PageTrees.AncestryUp | graph/block.go:104-106 | the parent of a block on an ancestry chain is on the chain too |
| PageTrees.ChildInSubtree | graph/page.go:120-125 | the children of a block in the walk are in the walk |
| PageTrees.PreOrderComplete | graph/page.go:120-125 | every descendant of the start is in its walk |
| PageTrees.PreOrderMembers | graph/page.go:120-125 | a block is in the walk iff it descends from the start |
| PageTrees.PublicPreOrder | graph/page.go:128-138 | the public walk is empty iff its start is private |
| PageTrees.PublicListStep | graph/page.go:135-137 | the public walk of a list of children is the walk of all but the last, then the last's public subtree |
| PageTrees.InPublicList | graph/page.go:135-137 | a block is in the public walk of a list iff it is in the public subtree of one of them |
| PageTrees.PublicPathUp | graph/page.go:128-138 | a public path from a child extends to its public parent |
| PageTrees.PublicPreOrderSound | graph/page.go:128-138 | every block in the public walk is reached from the start through public blocks only |
| PageTrees.PublicChildInSubtree | graph/page.go:135-137 | a public child of a block in the public walk is in the walk |
| PageTrees.PublicPreOrderComplete | graph/page.go:128-138 | every block reached from the start through public blocks only is in the public walk |
| PageTrees.PublicPreOrderMembers | graph/page.go:128-138 | a block is in the public walk iff the whole path to it from the start is public |
| PageTrees.PublicPathAll | graph/page.go:128-138 | every block between the start and a block of the public walk is public |
| PageTrees.AncestryBelow | graph/block.go:104-106 | ancestors come before their descendants in the arena |
| PageTrees.PrivateHidesSubtree | graph/page.go:129-131 | nothing below a private block is in the public walk |
| PageTrees.PublicWalkIsPrunedWalk | graph/page.go:128-138 | every block of the public walk is public and in the full walk |
| PageTrees.PublicPathDescends | graph/page.go:128-138 | a block on a public path descends from the start |
| Assets.NewAsset | graph/asset.go:13-21 | path in graph and in site are the given path; the name is "/" or a non-empty last path element |
| Assets.NewAssetNameIsLastElement | graph/asset.go:13-21 | for a path not ending in "/" the name is the non-empty, slash-free suffix after the last "/" |
| Assets.BaseNameUntrimmed | graph/asset.go:14 | for such a path the base name is the text after its last "/" |
| Assets.NewAssetInDirectory | graph/asset.go:13-21 | an asset at dir/file is named file |
| Assets.InContext | graph/asset.go:24-31 | an asset-not-found error naming the path iff the graph does not know the path; otherwise the known asset's path in the graph |
| Graphs.LinkListsMembers | graph/graph.go:144-153 | a link is among the pages' link lists iff some page has it |
| Graphs.LinkOwner | graph/graph.go:144-153 | every link of the graph belongs to some page |
| Graphs.LinkOfOwner | graph/graph.go:144-153 | every link of a page is a link of the graph |
| Graphs.MissingAsset | graph/graph.go:192-199 | none iff every asset link's target is known; otherwise the path of an asset link whose target is unknown |
| Graphs.TargetsStep | graph/graph.go:192-208 | one more link adds its target to the kept assets iff it is an asset link to a known asset |
| Graphs.KeepType | graph/graph.go:155-179 | the loop keeps exactly the links of the type, in order |
| Graphs.KeepTarget | graph/graph.go:105-121 | the loop keeps exactly the links to the target, in order |
| Graphs.FirstHolder | graph/graph.go:132-138 | the first alias list holding the name; none iff no list holds it |
| Graphs.FirstHolderAt | graph/graph.go:132-138 | a list holding the name with none before it is the first holder |
| Graphs.FirstHolderNone | graph/graph.go:132-138 | with no list holding the name there is no holder |
| Graphs.AppendAll | graph/graph.go:147-149 | the loop appends every page's links in order |
| Graphs.SearchAliases | graph/graph.go:132-138 | the nested alias loop stops at the first holder |
| Graphs.AliasLists | graph/graph.go:132-138 | one alias list per page, in walking order |
| Graphs.AliasListsAt | graph/graph.go:132-138 | the i-th list is the aliases of the i-th page walked |
| Graphs.RestrictStep | graph/graph.go:185-189 | keeping one more key adds that page iff it is kept |
| Graphs.AddPublicPages | graph/graph.go:185-189 | the loop adds exactly the wanted pages and leaves the assets alone |
| Graphs.AddLinkedAssets | graph/graph.go:192-209 | a missing asset is an error; otherwise exactly the assets the asset links point at are added, each once |
| Graphs.BuildPublicGraph | graph/graph.go:181-212 | the public graph of the given pages and links, or the missing-asset error |
| Graphs.ExtendedByAnother | graph/graph.go:217-227 | true iff another key has this key as a prefix |
| Graphs.MarkSections | graph/graph.go:216-230 | each listed page becomes a section iff another key extends its key; only the kind changes |
| Graphs.ListedKeys | graph/graph.go:216 | the walk lists every key |
| Graphs.MarkAllSections | graph/graph.go:215-231 | every page becomes a section iff another page's key extends its key, and otherwise keeps its kind |
| Graphs.Graph.NewGraph | graph/graph.go:20-25 | a valid graph with no pages and no assets |
| Graphs.Graph.AddAsset | graph/graph.go:69-82 | an existing path is an error and changes nothing; otherwise the asset is stored under its path; pages never change |
| Graphs.Graph.AddPage | graph/graph.go:84-96 | a lower-cased name already present is an error and changes nothing; otherwise the page is stored under its lower-cased name |
| Graphs.Graph.FindAsset | graph/graph.go:98-103 | found iff the path is stored, and then the stored asset, whose path is that path |
| Graphs.Graph.FindPage | graph/graph.go:124-142 | the imperative lookup (by key, then through aliases) returns what PageNamed specifies |
| Graphs.Graph.FoundPage | graph/graph.go:124-142 | a found page is a page of the graph with the name as key or alias; not found, with the name in the error, iff no page has the name as key or alias |
| Graphs.Graph.AllLinksMembers | graph/graph.go:144-153 | a link is in the graph iff some page has it |
| Graphs.Graph.EmptyGraphLinks | graph/graph.go:144-153 | a graph with no pages has no links |
| Graphs.Graph.Links | graph/graph.go:144-153 | the loop returns every page's links, in walking order |
| Graphs.Graph.AssetLinks | graph/graph.go:155-166 | exactly the asset links of the graph, in order |
| Graphs.Graph.PageLinks | graph/graph.go:168-179 | exactly the page links of the graph, in order |
| Graphs.Graph.ResourceLinks | graph/graph.go:234-246 | exactly the resource links of the graph, in order |
| Graphs.Graph.FindLinksToPage | graph/graph.go:105-122 | exactly the page links whose target is the page's name, in order |
| Graphs.Graph.PublicPages | graph/graph.go:185-189 | exactly the pages whose root is public |
| Graphs.Graph.PublicLinksMembers | graph/graph.go:192 | a link is among the public pages' links iff some public page has it |
| Graphs.Graph.PublicGraph | graph/graph.go:181-212 | an asset link to an unknown asset is an error naming it; otherwise a fresh valid graph in the same directory with exactly the public pages and exactly the known assets their asset links point at |
| Graphs.Graph.PublicPagesByKey | graph/graph.go:185-189 | walking the keys visits each page once, stored under its lower-cased name, and keeping the public ones keeps them all |
| Graphs.Graph.PutPagesInContext | graph/graph.go:215-232 | a page becomes a section iff another page's key has its key as a prefix; otherwise it keeps its kind; nothing but the kind changes |
| Graphs.Graph.KindsKeepValid | graph/graph.go:215-232 | changing kinds keeps the graph valid |
| Graphs.Graph.KeysHoldDistinctPages | graph/graph.go:84-96 | different keys hold different pages |
| Publisher.UnavailableLink | hugo/publisher.go:348-350 | the caption between two `*`, and nothing else |
| Publisher.AssetPermalink | hugo/publisher.go:572-581 | found iff the lower-cased name is a key; then the stored permalink, otherwise "" |
| Publisher.PagePermalinkAsWritten | hugo/publisher.go:584-594 | found iff the lower-cased name is a key; the permalink is "/" followed by the stored value on a hit and "/" on a miss |
| Publisher.PagePermalink | hugo/publisher.go:584-594 | found iff the lower-cased name is a key; the permalink always starts with "/"; on a hit it is the stored value with one "/" in front |
| Publisher.PagePermalinkAbsolute | hugo/publisher.go:584-594 | a stored path with or without a leading "/" comes out with exactly one; for a path stored without it the corrected lookup agrees with the one as written |
| Publisher.ContentsDoubleSlash | hugo/publisher.go:529-533 | on the map {"contents": "/"} the lookup as written gives "//" for "Contents" and the corrected one gives "/" |
| Publisher.ContentsLinkRendering | hugo/publisher.go:282-290 | with the seeded {"contents": "/"}, `[[Contents]]` renders as `[Contents](/)` in the model and as `[Contents](//)` through the lookup as written |
| Publisher.ContentsBlockAnchor | hugo/publisher.go:597-607 | a block of the contents page is anchored at "/#id" in the model and at "//#id" through the lookup as written |
| Publisher.BlockPermalink | hugo/publisher.go:597-607 | "" iff the block's page has no permalink; otherwise the page permalink, "#" and the block id |
| Publisher.UnavailableIffUnknown | hugo/publisher.go:282-328 | for page, tag, asset and block links the rendering is the unavailable marker iff the target has no permalink or the block is not indexed |
| Publisher.KnownTargets | hugo/publisher.go:282-328 | a known page link renders as a Markdown link, a known tag as the tag-link shortcode with its leading space, a known asset as an image link; the page permalinks start with "/"; a resource link renders as its label |
| Publisher.BlockLinkTarget | hugo/publisher.go:292-303 | a link to an indexed block renders as the block-link shortcode around that block's markdown, pointing at its permalink ("" when its page has none) |
| Publisher.AssetsInOrder | hugo/publisher.go:520 | one asset per key of the graph's asset map |
| Publisher.AssetsInOrderMembers | hugo/publisher.go:520 | exactly the graph's assets |
| Publisher.AssetPermalinksKeys | hugo/publisher.go:517-526 | the keys are exactly the lower-cased names of the assets |
| Publisher.AssetPermalinksLast | hugo/publisher.go:517-526 | a key leads to "/graph-assets/" + the name of the last asset with that lower-cased name |
| Publisher.AssetLookupFinds | hugo/publisher.go:517-581 | an asset lookup succeeds iff some asset has that name up to case, and then gives "/graph-assets/" + such an asset's name |
| Publisher.LastNamed | hugo/publisher.go:520-523 | among assets with a given lower-cased name there is a last one |
| Publisher.AssetPermalinksStep | hugo/publisher.go:520-523 | one more asset writes its lower-cased name |
| Publisher.SetAssetPermalinks | hugo/publisher.go:517-526 | the loop builds the permalink map of the graph's assets in walking order |
| Publisher.EntriesOf | hugo/publisher.go:534 | one entry per page of the graph |
| Publisher.Section | hugo/publisher.go:543-548 | "journals" iff the name has the `dddd-dd-dd` shape, "pages" otherwise |
| Publisher.PagePathShape | hugo/publisher.go:539-557 | a hoisted page's path is its slugged steps joined by "/"; any other page's path has its section and "/" in front |
| Publisher.WithAliasesFacts | hugo/publisher.go:562-565 | every lower-cased alias leads to the page's permalink and every other key is unchanged |
| Publisher.RecordFacts | hugo/publisher.go:535-565 | recording a page adds its lower-cased name and aliases, leading to its path, and changes no other key; the page "Contents" adds nothing |
| Publisher.PagePermalinksKeys | hugo/publisher.go:529-569 | the keys are exactly "contents" and the keys some page writes |
| Publisher.PagePermalinksLast | hugo/publisher.go:529-569 | a key leads to the path of the last page that writes it |
| Publisher.ContentsStaysRoot | hugo/publisher.go:530-532 | when no page writes "contents", it leads to "/" |
| Publisher.ContentsLinkIsRoot | hugo/publisher.go:529-594 | in that case a link to "Contents" resolves to "//" as written and "/" when corrected |
| Publisher.PageLinkToRecordedPage | hugo/publisher.go:282-290 | a link to a page that is not hoisted renders with the permalink "/" + section + "/" + its slugged steps |
| Publisher.SectionPath | hugo/publisher.go:539-557 | a page that is not hoisted lives below its section, with no leading "/" |
| Publisher.SlugSteps | hugo/publisher.go:540-555 | the section (unless hoisted), then one slug per name step |
| Publisher.RecordPage | hugo/publisher.go:535-565 | the loop body leaves the map Record describes |
| Publisher.EntriesOfAt | hugo/publisher.go:534 | the i-th entry holds the name and aliases of the i-th page walked |
| Publisher.PagePermalinksStep | hugo/publisher.go:534-566 | one more page recorded |
| Publisher.SetPagePermalinks | hugo/publisher.go:529-569 | the loop builds the permalink map of the graph's pages in walking order |
| Publisher.Decimal | hugo/publisher.go:262 | at least one digit and only digits |
| Publisher.DecimalRoundTrip | hugo/publisher.go:262 | the digits read back as the depth |
| Publisher.ShortcodeArgs | hugo/publisher.go:241-253 | the keys are among id, caption and callout; id is the block's id; caption is present iff the block has one, with `"` escaped; callout is present iff the block has one |
| Publisher.ArgTexts | hugo/publisher.go:257-259 | one ` name="value"` text per argument |
| Publisher.ArgTextsComplete | hugo/publisher.go:257-259 | every argument is written |
| Publisher.ChildrenOutputStep | hugo/publisher.go:268-275 | rendering one more child appends its text |
| Publisher.SkippedIffHidden | hugo/publisher.go:208-220 | the text is empty iff public output is required and the block is not public or is a task |
| Publisher.OpeningStart | hugo/publisher.go:266 | a shown block's text opens with "\n{{% block" |
| Publisher.ShownIsFramed | hugo/publisher.go:205-280 | a shown block's text opens with "\n{{% block" and ends with "{{% /block %}}" |
| Publisher.RootShowsOnlyChildren | hugo/publisher.go:222-239 | a depth-0 block contributes its shortcode, an empty header if a heading, its children and the closing shortcode, none of its own markdown |
| Publisher.ReplaceLinks | hugo/publisher.go:235-238 | the loop rewrites every link of the block in order |
| Publisher.Shortcode | hugo/publisher.go:255-259 | the loop writes "block" and every argument |
| Publisher.OwnText | hugo/publisher.go:222-239 | the block's own text as OwnContent describes it |
| Publisher.OpenBlock | hugo/publisher.go:241-266 | the opening as Opening describes it |
| Publisher.ProcessBlock | hugo/publisher.go:205-280 | the recursive method returns BlockOutput: nothing for a hidden block, otherwise the opening, the children's texts in order and the closing shortcode |
| Publisher.ProcessChildren | hugo/publisher.go:268-275 | the children's texts, in order |
| KeyOrder.Enumerate | graph/graph.go:147 | every key of a map exactly once, in one fixed order, standing for Go's map iteration |

## Left out

- File and directory I/O is not modelled. This covers `LoadGraph`, `loadAssets`, `loadPagesFromDir`, opening the page file and the line scanner's I/O errors. It also covers the export functions of the publisher (`ExportGraph`, `ExportAssets`, `ExportGraphJSON`, `exportPage`, `ExportLinkedAsset`, `shouldExportAsset`, `PageContentPath`, `PublishedAssetPath`). A page's text arrives as a sequence of lines; `pathInGraph` (from `filepath.Rel`) is a parameter.
- The goroutine and channel fan-out of the loader and the exporter is not modelled: it is concurrency.
- Markdown-to-HTML conversion (goldmark, `prepPageForSite`, `prepBlockForSite`) is not modelled: it is a foreign library. `PutPagesInContext` is modelled only in its kind-marking loop.
- Some foreign calls become function parameters:
  - `uuid.New` is `ids` / `freshId`;
  - `slug.Make` is `slugify`;
  - `url.QueryUnescape` is `unescape`;
  - the video and link-preview rewrites of `ProcessBlockEmbeddedShortcodes` are `embed`.
  `determinePageFrontmatter` and its JSON encoding are not modelled.
- Some members the code calls are not in the shown files. They become inputs:
  - `Block.IsTask` is the `isTask` parameter;
  - `Block.Callout()` is the block content's callout;
  - `Graph.PageIsHoisted` is the `hoisted` parameter;
  - `Graph.Blocks` is the exporter's `blocks` map.
- Go's map iteration order is unspecified. The model walks every map in the one fixed order of `KeyOrder.Enumerate`. Results that depend on the order therefore depend on it here too: FindPage's alias search, the link lists of the graph, and which page wins a shared permalink key. The lemmas state what holds for every order. Examples are the last-writer rules of `Publisher.PagePermalinksLast` and `Publisher.AssetPermalinksLast`, and the membership lemmas.
- Publisher.ShortcodeOf: the shortcode arguments are written in the fixed key order, while Go's order varies from run to run. So only the set of arguments is a promise (`Publisher.ShortcodeArgs`, `Publisher.ArgTextsComplete`), not the exact string.
- `log.Fatal` stops the program in the source. The model returns an error result instead, in three places:
  - a callout whose closer differs from its opener (`CalloutMismatch`);
  - an asset link of a public page whose asset is not in the graph (`AssetNotInGraph`);
  - a failing `AddAsset` inside `PublicGraph`, which cannot happen, because each asset is added once.
- Logging (`log.Debug`, `log.Warn`) is not modelled: it has no effect on results.
- Strs.Lower: `strings.ToLower` is modelled on ASCII letters only; Unicode case mapping is not modelled.
- PageLines.NewPageLine: the indent is counted in characters (`seq<char>`), the same as Go's rune count for well-formed UTF-8; invalid UTF-8 is not modelled.
- Regular expressions are modelled as hand-written scanners of the exact patterns. These cover the property line, the callout, page links, asset links, tags, the code fence and the journal names. `(?s)` and `(?m)` are taken from the callout pattern, and `\b` and `\w` are ASCII as in Go's RE2. The callout replacement is expanded as a `Regexp.Expand` template (`Callouts.ReplaceCallouts`), not inserted literally.
- Callouts.TemplateRef: a `$name` reference is read as ASCII letters, digits and `_`, while Go also takes non-ASCII Unicode letters and digits into the name. So the model reads "$1é" as the opener followed by "é", where Go reads the name "1é", which names no group, and gives nothing.
- Pages.Page.NewEmptyPage: the `Page` struct in graph/page.go:8-18 has no `Kind` field, and neither `NewEmptyPage` nor `LoadPage` sets one, yet graph/graph.go:223 writes `page.Kind`. The default kind "page" is taken from graph/page_test.go:16, which expects it of a new empty page.
- Publisher.BlockPermalink: it uses the corrected lookup `Publisher.PagePermalink`, so a block on a page whose stored permalink starts with "/" is anchored at "/#id", where hugo/publisher.go:593 and 606 give "//#id". This happens for the seeded "contents" entry (`Publisher.ContentsBlockAnchor`) and for a hoisted page whose path starts with "/".
- Publisher.KnownTargets: page and tag links render with the corrected lookup, so `[[Contents]]` gives `[Contents](/)` where the code gives `[Contents](//)` (`Publisher.ContentsLinkRendering`). The same holds for `#Contents`.
- Publisher.BlockLinkTarget: the block-link shortcode points at the corrected anchor of `Publisher.BlockPermalink`, "/#id" rather than "//#id" for the contents page.
- Publisher.ReplaceLinks: each link is replaced by the corrected rendering above, so a contents link is rewritten to "/" rather than "//".
- Publisher.OwnText: the block's own text carries the corrected link renderings of `Publisher.ReplaceLinks`.
- Publisher.OpenBlock: the opening carries the corrected link renderings of `Publisher.OwnText`.
- Publisher.ProcessChildren: the children's texts carry the corrected link renderings.
- Publisher.ProcessBlock: the output equals `Publisher.BlockOutput`, whose link renderings use the corrected lookup; it differs from hugo/publisher.go only where a link reaches the contents page or a stored permalink starting with "/".
- Publisher.ProcessBlockLink has no `ensures` of its own. Its behaviour is stated by `Publisher.UnavailableIffUnknown`, `Publisher.KnownTargets`, `Publisher.BlockLinkTarget` and `Publisher.PageLinkToRecordedPage`.
- `Page.String`, `Block.String` (as `Blocks.BlockRef`) and `PageLine.String` produce log text only; only `Block.String` is used, as a link's `linksFrom`.
- `Properties.Property.Bool`, `Blocks.IsHeader`, `Pages.Page.IsJournal`, `Pages.Page.IsPlaceholder` and `Pages.Page.IsPublic` are one-line predicates. They are modelled without a lemma of their own beyond the examples, because each is its own definition.
- The copies of the loader, graph, page and block code in other directories are not part of this model. They are older versions that redeclare the same functions.

## Findings

| source | as written | input that shows it | evidently intended | confidence | as-written member | corrected member |
|---|---|---|---|---|---|---|
| hugo/publisher.go:584-594 | `PagePermalink` puts "/" in front of every stored permalink, and `SetPagePermalinks` stores "/" for the contents page (hugo/publisher.go:531-532) | a link `[[Contents]]` when no page writes the key "contents": the lookup gives "//" | the contents page is the site root, "/" | medium, not executed | Publisher.PagePermalinkAsWritten, shown by Publisher.ContentsDoubleSlash and Publisher.ContentsLinkIsRoot | Publisher.PagePermalink, proved by Publisher.PagePermalinkAbsolute and Publisher.ContentsLinkIsRoot; ProcessBlockLink and BlockPermalink use it, so the rendered links differ too (Publisher.ContentsLinkRendering, Publisher.ContentsBlockAnchor) |
