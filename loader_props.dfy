/** What findBlocks guarantees about the blocks it makes and the errors it
    reports, proved about the state machine of module Loader. */
module LoaderProperties {
  import opened Common
  import opened Strs
  import opened PageLines
  import opened Blocks
  import opened BlockStacks
  import opened Loader

  // --------------------------------------------------------------- the loop

  /** Scanning two runs of lines is scanning the first, then the second from
      where the first left off. */
  lemma {:induction false} ScanConcat(pageName: string, ids: nat -> string, st: ScanState, xs: seq<PageLine>, ys: seq<PageLine>)
    requires StackOk(st)
    ensures Scan(pageName, ids, st, xs + ys) ==
      match Scan(pageName, ids, st, xs)
        case Err(e) => Err(e)
        case Ok(s) => Scan(pageName, ids, s, ys)
    decreases |ys|
  {
    if ys == [] {
      assert xs + ys == xs;
    } else {
      var init := ys[..|ys| - 1];
      assert (xs + ys)[..|xs + ys| - 1] == xs + init;
      ScanConcat(pageName, ids, st, xs, init);
    }
  }

  /** A line that is exactly "-" is skipped: it changes nothing. */
  lemma {:induction false} DashLineSkipped(pageName: string, ids: nat -> string, xs: seq<PageLine>, dash: PageLine, ys: seq<PageLine>)
    requires dash.content == "-"
    ensures FindBlocksSpec(pageName, ids, xs + [dash] + ys) == FindBlocksSpec(pageName, ids, xs + ys)
    ensures FinalState(pageName, ids, xs + [dash] + ys) == FinalState(pageName, ids, xs + ys)
  {
    ScanConcat(pageName, ids, Start, xs + [dash], ys);
    ScanConcat(pageName, ids, Start, xs, ys);
    assert (xs + [dash])[..|xs + [dash]| - 1] == xs;
  }

  /** Lines that are all "-" leave the scanner where it started. */
  lemma {:induction false} DashesLeaveStart(pageName: string, ids: nat -> string, xs: seq<PageLine>)
    requires forall k :: 0 <= k < |xs| ==> xs[k].content == "-"
    ensures Scan(pageName, ids, Start, xs) == Ok(Start)
  {
    if xs != [] {
      DashesLeaveStart(pageName, ids, xs[..|xs| - 1]);
    }
  }

  /** A line that makes the scanner fail makes the whole page fail with that
      error, whatever follows it. */
  lemma {:induction false} FailingLine(pageName: string, ids: nat -> string, xs: seq<PageLine>, l: PageLine, ys: seq<PageLine>, e: Error)
    requires Scan(pageName, ids, Start, xs).Ok?
    requires Step(pageName, ids, Scan(pageName, ids, Start, xs).value, l) == Err(e)
    ensures FindBlocksSpec(pageName, ids, xs + [l] + ys) == Err(e)
  {
    ScanConcat(pageName, ids, Start, xs + [l], ys);
    assert (xs + [l])[..|xs + [l]| - 1] == xs;
  }

  /** A continuation line ("  ") before any content fails with "no block to
      continue". */
  lemma {:induction false} OrphanContinuation(pageName: string, ids: nat -> string, xs: seq<PageLine>, l: PageLine, ys: seq<PageLine>)
    requires forall k :: 0 <= k < |xs| ==> xs[k].content == "-"
    requires StartsWith(l.content, BranchBlockContinuer)
    ensures FindBlocksSpec(pageName, ids, xs + [l] + ys) == Err(NoBlockToContinue(l.content))
  {
    DashesLeaveStart(pageName, ids, xs);
    assert !StartsWith(l.content, BranchBlockOpener) by {
      assert l.content[..2][0] == ' ';
    }
    FailingLine(pageName, ids, xs, l, ys, NoBlockToContinue(l.content));
  }

  // ---------------------------------------------------- the expected indent

  /** The indent a line must have after `xs`: one more than the tabs of the last
      bullet line, or 0 before any bullet. */
  function ExpectedIndent(xs: seq<PageLine>): nat {
    if xs == [] then 0
    else if StartsWith(xs[|xs| - 1].content, BranchBlockOpener) then xs[|xs| - 1].indent + 1
    else ExpectedIndent(xs[..|xs| - 1])
  }

  /** The lines each non-dash line contributes, with its bullet or continuation
      marker removed, in order. */
  function Kept(xs: seq<PageLine>): seq<string> {
    if xs == [] then []
    else
      var l := xs[|xs| - 1];
      if l.content == "-" then Kept(xs[..|xs| - 1])
      else if StartsWith(l.content, BranchBlockOpener) then Kept(xs[..|xs| - 1]) + [TrimPrefix(l.content, BranchBlockOpener)]
      else if StartsWith(l.content, BranchBlockContinuer) then Kept(xs[..|xs| - 1]) + [TrimPrefix(l.content, BranchBlockContinuer)]
      else Kept(xs[..|xs| - 1]) + [l.content]
  }

  /** The number of bullet lines. */
  function Bullets(xs: seq<PageLine>): nat {
    if xs == [] then 0
    else Bullets(xs[..|xs| - 1]) + if StartsWith(xs[|xs| - 1].content, BranchBlockOpener) then 1 else 0
  }

  function Flatten(ss: seq<seq<string>>): seq<string> {
    if ss == [] then [] else Flatten(ss[..|ss| - 1]) + ss[|ss| - 1]
  }

  /** What the scanner has seen: the gathered lines and the lines of the blocks
      made so far are exactly the kept lines, in document order; one block was
      made per bullet line; the indent is the expected one. */
  ghost predicate Traced(xs: seq<PageLine>, st: ScanState) {
    && Flatten(st.sources) + st.current == Kept(xs)
    && |st.sources| == Bullets(xs)
    && st.indent == ExpectedIndent(xs)
  }

  lemma {:induction false} ScanTraced(pageName: string, ids: nat -> string, xs: seq<PageLine>)
    requires Scan(pageName, ids, Start, xs).Ok?
    ensures Traced(xs, Scan(pageName, ids, Start, xs).value)
  {
    if xs != [] {
      var init, l := xs[..|xs| - 1], xs[|xs| - 1];
      ScanTraced(pageName, ids, init);
      var st := Scan(pageName, ids, Start, init).value;
      var st' := Scan(pageName, ids, Start, xs).value;
      assert Step(pageName, ids, st, l) == Ok(st');
      if l.content != "-" && StartsWith(l.content, BranchBlockOpener) {
        var f := Flush(pageName, ids, st).value;
        assert f.sources == st.sources + [st.current] by {
          match MakeBlock(pageName, st.current, st.indent, ids(|st.blocks|))
            case Ok(b) =>
        }
        assert (st.sources + [st.current])[..|st.sources|] == st.sources;
      }
    }
  }

  /** A line with no marker whose indent is not the expected one fails with
      "mismatched indent". */
  lemma {:induction false} MismatchedPlainLine(pageName: string, ids: nat -> string, xs: seq<PageLine>, l: PageLine, ys: seq<PageLine>)
    requires Scan(pageName, ids, Start, xs).Ok?
    requires l.content != "-" && !StartsWith(l.content, BranchBlockOpener) && !StartsWith(l.content, BranchBlockContinuer)
    requires l.indent != ExpectedIndent(xs)
    ensures FindBlocksSpec(pageName, ids, xs + [l] + ys) == Err(MismatchedIndent(l.content, l.indent))
  {
    ScanTraced(pageName, ids, xs);
    FailingLine(pageName, ids, xs, l, ys, MismatchedIndent(l.content, l.indent));
  }

  /** Lines are gathered exactly when some line was kept. */
  lemma {:induction false} GatheredIffKept(pageName: string, ids: nat -> string, xs: seq<PageLine>)
    requires Scan(pageName, ids, Start, xs).Ok?
    ensures Scan(pageName, ids, Start, xs).value.current == [] <==> Kept(xs) == []
  {
    ScanShape(pageName, ids, xs);
    ScanTraced(pageName, ids, xs);
    assert Flatten([]) == [];
  }

  /** A continuation line after some content, unfolded. */
  lemma {:induction false} ContinuationStep(pageName: string, ids: nat -> string, st: ScanState, l: PageLine)
    requires StackOk(st) && StartsWith(l.content, BranchBlockContinuer) && st.current != []
    ensures Step(pageName, ids, st, l) == Gather(st, TrimPrefix(l.content, BranchBlockContinuer), l.indent + 1)
  {
    assert !StartsWith(l.content, BranchBlockOpener) by {
      assert l.content[..2][0] == ' ';
    }
    assert l.content != "-" by { assert |l.content| >= 2; }
  }

  /** A continuation line whose tabs plus one differ from the expected indent
      fails with "mismatched indent", reported with its marker removed. */
  lemma {:induction false} MismatchedContinuation(pageName: string, ids: nat -> string, xs: seq<PageLine>, l: PageLine, ys: seq<PageLine>)
    requires Scan(pageName, ids, Start, xs).Ok?
    requires Kept(xs) != []
    requires StartsWith(l.content, BranchBlockContinuer)
    requires l.indent + 1 != ExpectedIndent(xs)
    ensures FindBlocksSpec(pageName, ids, xs + [l] + ys) ==
      Err(MismatchedIndent(TrimPrefix(l.content, BranchBlockContinuer), l.indent + 1))
  {
    ScanTraced(pageName, ids, xs);
    GatheredIffKept(pageName, ids, xs);
    ContinuationStep(pageName, ids, Scan(pageName, ids, Start, xs).value, l);
    FailingLine(pageName, ids, xs, l, ys, MismatchedIndent(TrimPrefix(l.content, BranchBlockContinuer), l.indent + 1));
  }

  // ------------------------------------------------------- the block tree

  /** The first block is the only one at depth 0 and the only one without a
      parent; every other block is deeper than its parent. */
  predicate Rooted(bs: seq<Block>)
    requires ParentsBefore(bs)
  {
    && (|bs| > 0 ==> bs[0].depth == 0 && bs[0].parent.None?)
    && forall i :: 0 < i < |bs| ==>
         bs[i].depth >= 1 && bs[i].parent.Some? && bs[bs[i].parent.value].depth < bs[i].depth
  }

  /** Every block is what NewBlock made of its lines, apart from the parent and
      children that placing it gave it. */
  predicate Made(pageName: string, ids: nat -> string, st: ScanState) {
    && |st.sources| == |st.blocks|
    && forall i :: 0 <= i < |st.blocks| ==>
         MakeBlock(pageName, st.sources[i], st.blocks[i].depth, ids(i)) == Ok(Unplaced(st.blocks[i]))
  }

  /** A block as NewBlock makes it, before it is placed in the tree. */
  function Unplaced(b: Block): Block {
    b.(parent := None, children := [])
  }

  /** The shape of the tree and the stack between lines. */
  predicate TreeShape(bs: seq<Block>, stack: seq<nat>) {
    && OnArena(stack, bs)
    && WellFormed(bs)
    && Increasing(stack, bs)
    && Rooted(bs)
    && (|bs| == 0 ==> stack == [])
    && (|bs| > 0 ==> stack != [] && stack[0] == 0)
  }

  predicate Shape(pageName: string, ids: nat -> string, st: ScanState) {
    && StackOk(st)
    && TreeShape(st.blocks, st.stack)
    && Made(pageName, ids, st)
  }

  /** Shape, plus what holds of the gathered lines between lines: before the
      first bullet the indent is 0; after it the indent is at least 1 and the
      bullet's own line is gathered. */
  predicate ScanInv(pageName: string, ids: nat -> string, st: ScanState) {
    && Shape(pageName, ids, st)
    && (|st.blocks| == 0 ==> st.indent == 0)
    && (|st.blocks| > 0 ==> st.indent >= 1 && st.current != [])
  }

  lemma {:induction false} AppendWellFormed(bs: seq<Block>, b: Block)
    requires WellFormed(bs) && b.parent.None? && b.children == []
    ensures WellFormed(bs + [b])
  {
    var bs' := bs + [b];
    assert forall i :: 0 <= i < |bs| ==> bs'[i] == bs[i];
  }

  /** A block placed after the root goes under the last block the popping
      keeps, which is shallower; the root stays at the bottom of the stack. */
  lemma {:induction false} PlaceLater(bs: seq<Block>, stack: seq<nat>, b: Block) returns (p: nat, kept: seq<nat>)
    requires TreeShape(bs, stack) && |bs| > 0 && b.depth >= 1
    ensures OnArena(stack, bs + [b]) && forall k :: 0 <= k < |stack| ==> stack[k] < |bs|
    ensures kept == PopDeeper(stack, bs + [b], b.depth)
    ensures |kept| >= 1 && kept[0] == 0 && p == kept[|kept| - 1] && p < |bs|
    ensures bs[p].depth < b.depth
    ensures Place(bs + [b], stack, |bs|) == Placed(WithChild(bs + [b], p, |bs|), kept + [|bs|])
  {
    var bs1 := bs + [b];
    assert bs1[stack[0]].depth == 0;
    kept := PopDeeper(stack, bs1, b.depth);
    p := kept[|kept| - 1];
    assert bs1[p] == bs[p];
  }

  lemma {:induction false} PlaceStackShape(bs: seq<Block>, stack: seq<nat>, b: Block)
    requires TreeShape(bs, stack)
    requires |bs| == 0 ==> b.depth == 0
    requires |bs| > 0 ==> b.depth >= 1
    ensures OnArena(stack, bs + [b]) && forall k :: 0 <= k < |stack| ==> stack[k] < |bs|
    ensures var r := Place(bs + [b], stack, |bs|);
      OnArena(r.stack, r.blocks) && Increasing(r.stack, r.blocks) && r.stack != [] && r.stack[0] == 0
  {
    var bs1 := bs + [b];
    assert forall k :: 0 <= k < |stack| ==> bs1[stack[k]] == bs[stack[k]];
    assert Increasing(stack, bs1);
    PlaceKeepsIncreasing(bs1, stack, |bs|);
    if |bs| > 0 {
      var p, kept := PlaceLater(bs, stack, b);
    }
  }

  lemma {:induction false} PlaceKeepsWellFormed(bs: seq<Block>, stack: seq<nat>, b: Block)
    requires TreeShape(bs, stack)
    requires b.parent.None? && b.children == []
    requires |bs| == 0 ==> b.depth == 0
    requires |bs| > 0 ==> b.depth >= 1
    ensures OnArena(stack, bs + [b]) && forall k :: 0 <= k < |stack| ==> stack[k] < |bs|
    ensures WellFormed(Place(bs + [b], stack, |bs|).blocks)
  {
    AppendWellFormed(bs, b);
    if |bs| > 0 {
      var p, kept := PlaceLater(bs, stack, b);
      WithChildWellFormed(bs + [b], p);
    }
  }

  lemma {:induction false} PlaceKeepsRooted(bs: seq<Block>, stack: seq<nat>, b: Block)
    requires TreeShape(bs, stack)
    requires b.parent.None? && b.children == []
    requires |bs| == 0 ==> b.depth == 0
    requires |bs| > 0 ==> b.depth >= 1
    ensures OnArena(stack, bs + [b]) && forall k :: 0 <= k < |stack| ==> stack[k] < |bs|
    ensures var r := Place(bs + [b], stack, |bs|).blocks; ParentsBefore(r) && Rooted(r)
  {
    PlaceKeepsWellFormed(bs, stack, b);
    if |bs| > 0 {
      var p, kept := PlaceLater(bs, stack, b);
      AttachRooted(bs, b, p);
    } else {
      assert Place(bs + [b], stack, |bs|).blocks == [b];
    }
  }

  /** Attaching a new block under a shallower earlier one keeps the arena rooted. */
  lemma {:induction false} AttachRooted(bs: seq<Block>, b: Block, p: nat)
    requires ParentsBefore(bs) && Rooted(bs)
    requires p < |bs| && bs[p].depth < b.depth
    ensures ParentsBefore(WithChild(bs + [b], p, |bs|)) && Rooted(WithChild(bs + [b], p, |bs|))
  {
    var bs' := WithChild(bs + [b], p, |bs|);
    assert forall i :: 0 <= i < |bs| ==> bs'[i].depth == bs[i].depth && bs'[i].parent == bs[i].parent;
  }

  /** Placing changes only parents and children. */
  lemma {:induction false} PlaceKeepsUnplaced(bs: seq<Block>, stack: seq<nat>, b: Block)
    requires TreeShape(bs, stack)
    requires b.parent.None? && b.children == []
    requires |bs| == 0 ==> b.depth == 0
    requires |bs| > 0 ==> b.depth >= 1
    ensures OnArena(stack, bs + [b]) && forall k :: 0 <= k < |stack| ==> stack[k] < |bs|
    ensures var r := Place(bs + [b], stack, |bs|).blocks;
      && |r| == |bs| + 1
      && (forall i :: 0 <= i < |bs| ==> Unplaced(r[i]) == Unplaced(bs[i]))
      && Unplaced(r[|bs|]) == b
  {
    if |bs| > 0 {
      var p, kept := PlaceLater(bs, stack, b);
    }
  }

  /** Placing a new unplaced block keeps the tree's shape: the first block goes
      on the empty stack at depth 0, a later one, at depth 1 or more, under a
      shallower block. */
  lemma {:induction false} PlaceTreeShape(bs: seq<Block>, stack: seq<nat>, b: Block)
    requires TreeShape(bs, stack)
    requires b.parent.None? && b.children == []
    requires |bs| == 0 ==> b.depth == 0
    requires |bs| > 0 ==> b.depth >= 1
    ensures OnArena(stack, bs + [b]) && forall k :: 0 <= k < |stack| ==> stack[k] < |bs|
    ensures var r := Place(bs + [b], stack, |bs|);
      && TreeShape(r.blocks, r.stack) && |r.blocks| == |bs| + 1
      && (forall i :: 0 <= i < |bs| ==> Unplaced(r.blocks[i]) == Unplaced(bs[i]))
      && Unplaced(r.blocks[|bs|]) == b
  {
    PlaceStackShape(bs, stack, b);
    PlaceKeepsWellFormed(bs, stack, b);
    PlaceKeepsRooted(bs, stack, b);
    PlaceKeepsUnplaced(bs, stack, b);
  }

  /** Flush, unfolded: the block NewBlock makes of the gathered lines is placed. */
  lemma {:induction false} FlushUnfolded(pageName: string, ids: nat -> string, st: ScanState)
    requires StackOk(st)
    requires Flush(pageName, ids, st).Ok?
    ensures MakeBlock(pageName, st.current, st.indent, ids(|st.blocks|)).Ok?
    ensures var b := MakeBlock(pageName, st.current, st.indent, ids(|st.blocks|)).value;
      var placed := Place(st.blocks + [b], st.stack, |st.blocks|);
      Flush(pageName, ids, st).value == st.(blocks := placed.blocks, stack := placed.stack, sources := st.sources + [st.current])
  {
  }

  /** Making a block at the gathered indent keeps the shape. */
  lemma {:induction false} FlushShape(pageName: string, ids: nat -> string, st: ScanState)
    requires ScanInv(pageName, ids, st)
    requires Flush(pageName, ids, st).Ok?
    ensures Shape(pageName, ids, Flush(pageName, ids, st).value)
    ensures Flush(pageName, ids, st).value.current == st.current
    ensures Flush(pageName, ids, st).value.indent == st.indent
    ensures Flush(pageName, ids, st).value.sources == st.sources + [st.current]
  {
    var n := |st.blocks|;
    FlushUnfolded(pageName, ids, st);
    var b := MakeBlock(pageName, st.current, st.indent, ids(n)).value;
    MakeBlockFacts(pageName, st.current, st.indent, ids(n));
    PlaceTreeShape(st.blocks, st.stack, b);
    var f := Flush(pageName, ids, st).value;
    MadeExtended(pageName, ids, st, f, b);
  }

  /** Recording one more made block keeps every block traceable to its lines. */
  lemma {:induction false} MadeExtended(pageName: string, ids: nat -> string, st: ScanState, f: ScanState, b: Block)
    requires Made(pageName, ids, st)
    requires |f.blocks| == |st.blocks| + 1 && f.sources == st.sources + [st.current]
    requires forall i :: 0 <= i < |st.blocks| ==> Unplaced(f.blocks[i]) == Unplaced(st.blocks[i])
    requires Unplaced(f.blocks[|st.blocks|]) == b && b.depth == st.indent
    requires MakeBlock(pageName, st.current, st.indent, ids(|st.blocks|)) == Ok(b)
    ensures Made(pageName, ids, f)
  {
    forall i | 0 <= i < |f.blocks|
      ensures MakeBlock(pageName, f.sources[i], f.blocks[i].depth, ids(i)) == Ok(Unplaced(f.blocks[i]))
    {
      if i < |st.blocks| {
        MadeAgain(pageName, ids, st.sources[i], f.sources[i], st.blocks[i], f.blocks[i], i);
      } else {
        MadeAgain(pageName, ids, st.current, f.sources[i], b, f.blocks[i], i);
      }
    }
  }

  /** A block made of the same lines at the same depth is made the same way. */
  lemma {:induction false} MadeAgain(pageName: string, ids: nat -> string, src: seq<string>, src': seq<string>, b: Block, b': Block, i: nat)
    requires MakeBlock(pageName, src, b.depth, ids(i)) == Ok(Unplaced(b))
    requires src' == src && Unplaced(b') == Unplaced(b)
    ensures MakeBlock(pageName, src', b'.depth, ids(i)) == Ok(Unplaced(b'))
  {
    assert b'.depth == Unplaced(b').depth == b.depth;
  }

  /** A bullet line, unfolded: the gathered lines become a block, then the
      bullet's own content starts the next group at its tabs plus one. */
  lemma {:induction false} BulletStep(pageName: string, ids: nat -> string, st: ScanState, l: PageLine)
    requires StackOk(st) && StartsWith(l.content, BranchBlockOpener)
    requires Step(pageName, ids, st, l).Ok?
    ensures Flush(pageName, ids, st).Ok?
    ensures Step(pageName, ids, st, l) ==
      Ok(Flush(pageName, ids, st).value.(current := [TrimPrefix(l.content, BranchBlockOpener)], indent := l.indent + 1))
  {
    assert l.content != "-" by { assert |l.content| >= 2; }
    var c := TrimPrefix(l.content, BranchBlockOpener);
    match Flush(pageName, ids, st)
      case Ok(f) =>
        var g := f.(current := [], indent := l.indent + 1);
        assert Step(pageName, ids, st, l) == Gather(g, c, l.indent + 1);
        assert g.current + [c] == [c];
  }

  /** A line that is not a bullet only adds to the gathered lines, if anything. */
  lemma {:induction false} OtherStep(pageName: string, ids: nat -> string, st: ScanState, l: PageLine)
    requires StackOk(st) && !StartsWith(l.content, BranchBlockOpener)
    requires Step(pageName, ids, st, l).Ok?
    ensures var s := Step(pageName, ids, st, l).value;
      s.blocks == st.blocks && s.stack == st.stack && s.sources == st.sources && s.indent == st.indent
      && (l.content != "-" ==> s.current != [])
      && (l.content == "-" ==> s.current == st.current)
  {
  }

  lemma {:induction false} StepInv(pageName: string, ids: nat -> string, st: ScanState, l: PageLine)
    requires ScanInv(pageName, ids, st)
    requires Step(pageName, ids, st, l).Ok?
    ensures ScanInv(pageName, ids, Step(pageName, ids, st, l).value)
  {
    if StartsWith(l.content, BranchBlockOpener) {
      BulletStep(pageName, ids, st, l);
      FlushShape(pageName, ids, st);
    } else {
      OtherStep(pageName, ids, st, l);
    }
  }

  lemma {:induction false} ScanShape(pageName: string, ids: nat -> string, xs: seq<PageLine>)
    requires Scan(pageName, ids, Start, xs).Ok?
    ensures ScanInv(pageName, ids, Scan(pageName, ids, Start, xs).value)
  {
    if xs != [] {
      var init := xs[..|xs| - 1];
      ScanShape(pageName, ids, init);
      StepInv(pageName, ids, Scan(pageName, ids, Start, init).value, xs[|xs| - 1]);
    }
  }

  /** findBlocks after the loop, unfolded: the state the loop ends in, flushed
      when lines are still gathered. */
  lemma {:induction false} FinalUnfolded(pageName: string, ids: nat -> string, lines: seq<PageLine>) returns (st: ScanState)
    requires FinalState(pageName, ids, lines).Ok?
    ensures Scan(pageName, ids, Start, lines) == Ok(st)
    ensures st.current == [] ==> FinalState(pageName, ids, lines) == Ok(st)
    ensures st.current != [] ==> FinalState(pageName, ids, lines) == Flush(pageName, ids, st)
  {
    st := Scan(pageName, ids, Start, lines).value;
  }

  lemma {:induction false} FlattenSnoc(ss: seq<seq<string>>, s: seq<string>)
    ensures Flatten(ss + [s]) == Flatten(ss) + s
  {
    assert (ss + [s])[..|ss|] == ss;
  }

  /** What findBlocks returns. The blocks form a well-formed tree: the first is
      the root at depth 0 and every later block is deeper than its parent. Each
      block is what NewBlock makes of its own lines; those lines, block after
      block, are the page's non-dash lines with their markers removed, in
      document order. One block is made per bullet line, plus one for the lines
      left after the last bullet (or for a page without bullets) when there are
      any. */
  lemma {:induction false} FindBlocksShape(pageName: string, ids: nat -> string, lines: seq<PageLine>)
    requires FinalState(pageName, ids, lines).Ok?
    ensures var st := FinalState(pageName, ids, lines).value;
      && WellFormed(st.blocks) && Rooted(st.blocks)
      && Made(pageName, ids, st)
      && Flatten(st.sources) == Kept(lines)
      && |st.blocks| == Bullets(lines) + (if Kept(lines) == [] then 0 else 1)
      && FindBlocksSpec(pageName, ids, lines) == Ok(st.blocks)
  {
    var st := FinalUnfolded(pageName, ids, lines);
    ScanShape(pageName, ids, lines);
    ScanTraced(pageName, ids, lines);
    GatheredIffKept(pageName, ids, lines);
    if st.current != [] {
      FlushShape(pageName, ids, st);
      FlattenSnoc(st.sources, st.current);
    }
  }
}
