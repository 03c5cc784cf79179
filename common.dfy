/** Shared wrappers: optional values, the typed errors the exporter reports, and
    order-preserving filtering of sequences. */
module Common {

  datatype Option<+T> = None | Some(value: T)

  /** Every error the modelled core can report. The ones the source raises through
      log.Fatal (a callout mismatch, an asset missing from the source graph) are
      modelled as errors too: they end the run. */
  datatype Error =
    | NoBlockToContinue(line: string)
    | MismatchedIndent(content: string, indent: int)
    | CalloutMismatch(opener: string, closer: string)
    | PageNameDecode(name: string)
    | PageExists(pageName: string)
    | AssetExists(assetPath: string)
    | PageNotFound(pageName: string)
    | AssetNotFound(assetPath: string)
    | NoPageName(blockId: string)
    | AssetNotInGraph(assetPath: string)

  datatype Result<+T> = Ok(value: T) | Err(error: Error)

  /** The elements of `xs` that satisfy `keep`, in their original order. */
  function Filter<T(!new)>(xs: seq<T>, keep: T -> bool): (r: seq<T>)
    ensures |r| <= |xs|
    ensures forall x :: x in r <==> x in xs && keep(x)
  {
    if xs == [] then []
    else if keep(xs[0]) then [xs[0]] + Filter(xs[1..], keep)
    else Filter(xs[1..], keep)
  }

  lemma {:induction false} FilterConcat<T(!new)>(xs: seq<T>, ys: seq<T>, keep: T -> bool)
    ensures Filter(xs + ys, keep) == Filter(xs, keep) + Filter(ys, keep)
  {
    if xs != [] {
      assert (xs + ys)[1..] == xs[1..] + ys;
      FilterConcat(xs[1..], ys, keep);
    } else {
      assert xs + ys == ys;
    }
  }

  /** The integers lo, lo+1, ..., hi-1. */
  function Range(lo: int, hi: int): (r: seq<int>)
    requires lo <= hi
    ensures |r| == hi - lo
    ensures forall i :: 0 <= i < |r| ==> r[i] == lo + i
    decreases hi - lo
  {
    if lo == hi then [] else [lo] + Range(lo + 1, hi)
  }

  /** The sequences of `xss`, one after another. */
  function Concat<T>(xss: seq<seq<T>>): seq<T> {
    if xss == [] then [] else Concat(xss[..|xss| - 1]) + xss[|xss| - 1]
  }

  /** An element of a concatenation comes from one of its parts, and every
      element of a part is in it. */
  lemma {:induction false} ConcatMembers<T>(xss: seq<seq<T>>, x: T)
    ensures x in Concat(xss) <==> exists k :: 0 <= k < |xss| && x in xss[k]
    decreases |xss|
  {
    if xss != [] {
      var init := xss[..|xss| - 1];
      ConcatMembers(init, x);
      if x in Concat(init) {
        var k :| 0 <= k < |init| && x in init[k];
        assert xss[k] == init[k];
      }
      if exists k :: 0 <= k < |xss| && x in xss[k] {
        var k :| 0 <= k < |xss| && x in xss[k];
        if k < |init| {
          assert init[k] == xss[k];
        }
      }
    }
  }
}
