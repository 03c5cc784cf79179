/** findBlocks: the state machine that turns a page's lines into its blocks.
    Bullet lines (`- `) open blocks, continuation lines (`  `) extend them, a
    bare `-` is skipped, and each block is placed under the nearest shallower
    open block. */
module Loader {
  import opened Common
  import opened Strs
  import opened PageLines
  import opened Blocks
  import opened BlockStacks

  const BranchBlockOpener := "- "
  const BranchBlockContinuer := "  "

  /** The scanner's state after some lines: the blocks made so far, the stack of
      open blocks, the lines gathered for the next block and their indent. The
      last field records, for each block made, the lines it was made from. */
  datatype ScanState = ScanState(
    blocks: seq<Block>,
    stack: seq<nat>,
    current: seq<string>,
    indent: nat,
    sources: seq<seq<string>>)

  const Start := ScanState([], [], [], 0, [])

  /** Every stacked index names a block. */
  predicate StackOk(st: ScanState) {
    forall k :: 0 <= k < |st.stack| ==> st.stack[k] < |st.blocks|
  }

  /** Makes a block of the gathered lines at the gathered indent and places it.
      `ids(n)` is the fresh identifier the n-th new block draws. */
  function Flush(pageName: string, ids: nat -> string, st: ScanState): (r: Result<ScanState>)
    requires StackOk(st)
    ensures r.Ok? ==> StackOk(r.value) && |r.value.blocks| == |st.blocks| + 1
  {
    match MakeBlock(pageName, st.current, st.indent, ids(|st.blocks|))
      case Err(e) => Err(e)
      case Ok(b) =>
        var placed := Place(st.blocks + [b], st.stack, |st.blocks|);
        PlaceOnArena(st.blocks + [b], st.stack, |st.blocks|);
        Ok(st.(blocks := placed.blocks, stack := placed.stack, sources := st.sources + [st.current]))
  }

  lemma {:induction false} PlaceOnArena(bs: seq<Block>, stack: seq<nat>, b: nat)
    requires b < |bs| && OnArena(stack, bs)
    requires forall k :: 0 <= k < |stack| ==> stack[k] < b
    ensures |Place(bs, stack, b).blocks| == |bs| && OnArena(Place(bs, stack, b).stack, Place(bs, stack, b).blocks)
  {
  }

  /** Adds a line's content to the gathered lines, provided its indent is the
      gathered indent. */
  function Gather(st: ScanState, content: string, indent: nat): (r: Result<ScanState>)
    ensures r.Err? <==> indent != st.indent
  {
    if indent != st.indent then Err(MismatchedIndent(content, indent))
    else Ok(st.(current := st.current + [content]))
  }

  /** One iteration of findBlocks' loop. */
  function Step(pageName: string, ids: nat -> string, st: ScanState, line: PageLine): (r: Result<ScanState>)
    requires StackOk(st)
    ensures r.Ok? ==> StackOk(r.value)
  {
    var c := line.content;
    if c == "-" then Ok(st)
    else if StartsWith(c, BranchBlockOpener) then
      match Flush(pageName, ids, st)
        case Err(e) => Err(e)
        case Ok(f) =>
          Gather(f.(current := [], indent := line.indent + 1), TrimPrefix(c, BranchBlockOpener), line.indent + 1)
    else if StartsWith(c, BranchBlockContinuer) then
      if st.current == [] then Err(NoBlockToContinue(c))
      else Gather(st, TrimPrefix(c, BranchBlockContinuer), line.indent + 1)
    else Gather(st, c, line.indent)
  }

  /** The loop over `lines` from state `st`, stopping at the first error. */
  function Scan(pageName: string, ids: nat -> string, st: ScanState, lines: seq<PageLine>): (r: Result<ScanState>)
    requires StackOk(st)
    ensures r.Ok? ==> StackOk(r.value)
  {
    if lines == [] then Ok(st)
    else
      match Scan(pageName, ids, st, lines[..|lines| - 1])
        case Err(e) => Err(e)
        case Ok(s) => Step(pageName, ids, s, lines[|lines| - 1])
  }

  /** An error ends the loop: later lines do not change it. */
  lemma {:induction false} ScanErrorSticks(pageName: string, ids: nat -> string, st: ScanState, lines: seq<PageLine>, j: nat)
    requires StackOk(st) && j <= |lines|
    requires Scan(pageName, ids, st, lines[..j]).Err?
    ensures Scan(pageName, ids, st, lines) == Scan(pageName, ids, st, lines[..j])
    decreases |lines| - j
  {
    if j < |lines| {
      assert lines[..j + 1][..j] == lines[..j];
      ScanErrorSticks(pageName, ids, st, lines, j + 1);
    } else {
      assert lines[..j] == lines;
    }
  }

  /** After the loop, the gathered lines become the last block if there are any. */
  function Finish(pageName: string, ids: nat -> string, st: ScanState): (r: Result<ScanState>)
    requires StackOk(st)
  {
    if st.current == [] then Ok(st) else Flush(pageName, ids, st)
  }

  /** findBlocks on values: the whole state at the end. */
  function FinalState(pageName: string, ids: nat -> string, lines: seq<PageLine>): Result<ScanState>
  {
    match Scan(pageName, ids, Start, lines)
      case Err(e) => Err(e)
      case Ok(st) => Finish(pageName, ids, st)
  }

  /** findBlocks on values: the blocks of a page, in the order they were made. */
  function FindBlocksSpec(pageName: string, ids: nat -> string, lines: seq<PageLine>): Result<seq<Block>>
  {
    match FinalState(pageName, ids, lines)
      case Err(e) => Err(e)
      case Ok(st) => Ok(st.blocks)
  }

  /** The block-making step findBlocks runs on a bullet line and after the
      last line: NewBlock on the gathered lines, then PlaceBlock. */
  method FlushBlock(pageName: string, ids: nat -> string, arena: Arena, stack: BlockStack,
                    currentBlockLines: seq<string>, currentIndent: nat, ghost sources: seq<seq<string>>)
    returns (err: Option<Error>)
    requires StackOk(ScanState(arena.blocks, stack.blocks, currentBlockLines, currentIndent, sources))
    modifies arena, stack
    ensures var f := Flush(pageName, ids, ScanState(old(arena.blocks), old(stack.blocks), currentBlockLines, currentIndent, sources));
      && (err.Some? <==> f.Err?)
      && (err.Some? ==> err.value == f.error)
      && (err.None? ==> f.value == ScanState(arena.blocks, stack.blocks, currentBlockLines, currentIndent, sources + [currentBlockLines]))
  {
    var block := NewBlock(pageName, currentBlockLines, currentIndent, ids(|arena.blocks|));
    if block.Err? {
      return Some(block.error);
    }
    var b := arena.Append(block.value);
    PlaceBlock(b, stack, arena);
    return None;
  }

  /** The body of findBlocks' loop for one line, on the arena and the stack;
      the gathered lines and their indent come back updated. */
  method ScanLine(pageName: string, ids: nat -> string, arena: Arena, stack: BlockStack,
                  currentBlockLines: seq<string>, currentIndent: nat, ghost sources: seq<seq<string>>, line: PageLine)
    returns (r: Result<(seq<string>, nat)>, ghost sources': seq<seq<string>>)
    requires StackOk(ScanState(arena.blocks, stack.blocks, currentBlockLines, currentIndent, sources))
    modifies arena, stack
    ensures var s := Step(pageName, ids, ScanState(old(arena.blocks), old(stack.blocks), currentBlockLines, currentIndent, sources), line);
      && (r.Err? <==> s.Err?)
      && (r.Err? ==> r.error == s.error)
      && (r.Ok? ==> s.value == ScanState(arena.blocks, stack.blocks, r.value.0, r.value.1, sources'))
  {
    sources' := sources;
    if line.content == "-" {
      return Ok((currentBlockLines, currentIndent)), sources';
    }
    var lines, lineIndent := currentBlockLines, currentIndent;
    var content := line.content;
    var indent := line.indent;
    if StartsWith(content, BranchBlockOpener) {
      var err := FlushBlock(pageName, ids, arena, stack, lines, lineIndent, sources);
      if err.Some? {
        return Err(err.value), sources';
      }
      sources' := sources + [lines];
      indent := indent + 1;
      lines := [];
      lineIndent := indent;
      content := TrimPrefix(content, BranchBlockOpener);
    } else if StartsWith(content, BranchBlockContinuer) {
      if |lines| == 0 {
        return Err(NoBlockToContinue(content)), sources';
      }
      content := TrimPrefix(content, BranchBlockContinuer);
      indent := indent + 1;
    }
    if indent != lineIndent {
      return Err(MismatchedIndent(content, indent)), sources';
    }
    return Ok((lines + [content], lineIndent)), sources';
  }

  /** findBlocks, step by step, with the arena and the block stack as objects. */
  method FindBlocks(pageName: string, lines: seq<PageLine>, ids: nat -> string) returns (r: Result<seq<Block>>)
    ensures r == FindBlocksSpec(pageName, ids, lines)
  {
    var arena := new Arena();
    var stack := new BlockStack();
    var currentBlockLines: seq<string> := [];
    var currentIndent: nat := 0;
    ghost var sources: seq<seq<string>> := [];
    for i := 0 to |lines|
      invariant Scan(pageName, ids, Start, lines[..i]) ==
        Ok(ScanState(arena.blocks, stack.blocks, currentBlockLines, currentIndent, sources))
    {
      assert lines[..i + 1][..i] == lines[..i];
      var step;
      step, sources := ScanLine(pageName, ids, arena, stack, currentBlockLines, currentIndent, sources, lines[i]);
      if step.Err? {
        ScanErrorSticks(pageName, ids, Start, lines, i + 1);
        return Err(step.error);
      }
      currentBlockLines, currentIndent := step.value.0, step.value.1;
    }
    assert lines[..|lines|] == lines;
    if |currentBlockLines| > 0 {
      var err := FlushBlock(pageName, ids, arena, stack, currentBlockLines, currentIndent, sources);
      if err.Some? {
        return Err(err.value);
      }
    }
    return Ok(arena.blocks);
  }
}
