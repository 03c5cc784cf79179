/** The three link patterns a block's markdown is searched for, each read the way
    Go's RE2 engine reads it with FindAllStringSubmatch: leftmost match first,
    lazy `*?`/`+?` taking the shortest run that lets the rest match, greedy runs
    the longest, and the next search starting where the last match ended.
      page link   \[\[(.+?)\]\]
      asset link  (!?)\[(.*?)\]\(\.\./assets/(.*?)\)
      tag         (?:^|\s)#([a-zA-Z][\w/-]+)\b
    `.` does not match a newline in any of them. */
module LinkScan {
  import opened Common
  import opened Strs
  import opened Links

  /** `s` holds `sub` at position `i`. */
  predicate At(s: string, i: nat, sub: string) {
    i + |sub| <= |s| && s[i..i + |sub|] == sub
  }

  // ---------------------------------------------------------------- page links

  /** `(.+?)\]\]` after a name whose last character is `s[j-1]`: the end of the
      shortest newline-free name that "]]" follows, trying ends `j`, `j+1`, ... */
  function PageNameEnd(s: string, j: nat): (r: Option<nat>)
    requires 1 <= j
    ensures r.Some? ==> j <= r.value && At(s, r.value, "]]")
    ensures r.Some? ==> forall k :: j - 1 <= k < r.value ==> s[k] != '\n'
    ensures r.Some? ==> forall k :: j <= k < r.value ==> !At(s, k, "]]")
    decreases |s| - j
  {
    if |s| < j then None
    else if s[j - 1] == '\n' then None
    else if At(s, j, "]]") then Some(j)
    else PageNameEnd(s, j + 1)
  }

  /** The page links `[[name]]` found from position `i` on. */
  function PageLinksFrom(s: string, i: nat, from: string): (r: seq<Link>)
    ensures forall l :: l in r ==>
      l.linkType == LinkTypePage && !l.isEmbed && l.linksFrom == from &&
      l.linkLabel == l.linkPath && 1 <= |l.linkPath| && '\n' !in l.linkPath &&
      l.raw == "[[" + l.linkPath + "]]"
    decreases |s| - i
  {
    if |s| <= i then []
    else if At(s, i, "[[") && PageNameEnd(s, i + 3).Some? then
      var j := PageNameEnd(s, i + 3).value;
      var name := s[i + 2..j];
      assert s[i..j + 2] == s[i..i + 2] + name + s[j..j + 2];
      assert '\n' !in name by {
        forall k | 0 <= k < |name| ensures name[k] != '\n' {
          assert name[k] == s[i + 2 + k];
        }
      }
      [Link(s[i..j + 2], from, name, name, LinkTypePage, false)] + PageLinksFrom(s, j + 2, from)
    else PageLinksFrom(s, i + 1, from)
  }

  function PageLinks(s: string, from: string): seq<Link> {
    PageLinksFrom(s, 0, from)
  }

  // --------------------------------------------------------------- asset links

  const AssetsDir := "](../assets/"

  /** `(.*?)\)` from position `p`: the first ')' with no newline before it. */
  function AssetPathEnd(s: string, p: nat): (r: Option<nat>)
    ensures r.Some? ==> p <= r.value < |s|
    decreases |s| - p
  {
    if |s| <= p then None
    else if s[p] == ')' then Some(p)
    else if s[p] == '\n' then None
    else AssetPathEnd(s, p + 1)
  }

  /** The path AssetPathEnd finds ends at a ')' and holds no newline and no ')'. */
  lemma {:induction false} AssetPathEndFacts(s: string, p: nat, pe: nat)
    requires AssetPathEnd(s, p) == Some(pe)
    ensures pe < |s| && s[pe] == ')'
    ensures forall k :: p <= k < pe ==> s[k] != '\n' && s[k] != ')'
    decreases |s| - p
  {
    if s[p] != ')' {
      AssetPathEndFacts(s, p + 1, pe);
    }
  }

  /** Where an asset link's label ends (at the "](../assets/") and where its
      path ends (at the ')'). */
  datatype AssetEnds = AssetEnds(labelEnd: nat, pathEnd: nat)

  /** `(.*?)\]\(\.\./assets/(.*?)\)` with the label tried as ending at `e`, then
      one character later, and so on: the label end and the path end. */
  function AssetLabelEnd(s: string, e: nat): (r: Option<AssetEnds>)
    ensures r.Some? ==> e <= r.value.labelEnd && r.value.labelEnd + |AssetsDir| <= r.value.pathEnd < |s|
    decreases |s| - e
  {
    if At(s, e, AssetsDir) && AssetPathEnd(s, e + |AssetsDir|).Some? then
      Some(AssetEnds(e, AssetPathEnd(s, e + |AssetsDir|).value))
    else if e < |s| && s[e] != '\n' then AssetLabelEnd(s, e + 1)
    else None
  }

  /** The label AssetLabelEnd finds is followed by "](../assets/" and the
      path, and holds no newline. */
  lemma {:induction false} AssetLabelEndFacts(s: string, e: nat, le: nat, pe: nat)
    requires AssetLabelEnd(s, e) == Some(AssetEnds(le, pe))
    ensures At(s, le, AssetsDir) && AssetPathEnd(s, le + |AssetsDir|) == Some(pe)
    ensures forall k :: e <= k < le ==> s[k] != '\n'
    decreases |s| - e
  {
    if !(At(s, e, AssetsDir) && AssetPathEnd(s, e + |AssetsDir|).Some?) {
      AssetLabelEndFacts(s, e + 1, le, pe);
    }
  }

  /** `[label](../assets/path)`, with a leading '!' when embedded, put back
      together from its label and path; the label holds no newline, the path
      no newline and no ')'. */
  predicate AssetLinkShaped(l: Link) {
    && l.raw == (if l.isEmbed then "!" else "") + "[" + l.linkLabel + AssetsDir + l.linkPath + ")"
    && '\n' !in l.linkLabel && '\n' !in l.linkPath && ')' !in l.linkPath
  }

  /** The asset link whose '[' is at `open`, whose label ends at `le` and whose
      path ends at `pe`; embedded when a '!' precedes the '['. */
  function AssetLinkAt(s: string, start: nat, open: nat, le: nat, pe: nat, from: string): (l: Link)
    requires start <= open < le && le + |AssetsDir| <= pe < |s|
    ensures l.linkType == LinkTypeAsset && l.linksFrom == from
    ensures l.isEmbed <==> open == start + 1
  {
    Link(s[start..pe + 1], from, s[le + |AssetsDir|..pe], s[open + 1..le], LinkTypeAsset, open == start + 1)
  }

  /** The raw text of such a link is its optional '!', its label and its path
      put back together; the label holds no newline, the path no newline and
      no ')'. */
  lemma {:induction false} AssetLinkAtShape(s: string, start: nat, open: nat, le: nat, pe: nat, from: string)
    requires start <= open < le && le + |AssetsDir| <= pe < |s|
    requires open == start || (open == start + 1 && s[start] == '!')
    requires s[open] == '[' && At(s, le, AssetsDir) && s[pe] == ')'
    requires forall k :: open + 1 <= k < le ==> s[k] != '\n'
    requires forall k :: le + |AssetsDir| <= k < pe ==> s[k] != '\n' && s[k] != ')'
    ensures AssetLinkShaped(AssetLinkAt(s, start, open, le, pe, from))
  {
    var pathStart := le + |AssetsDir|;
    SliceAvoids(s, open + 1, le, '\n');
    SliceAvoids(s, pathStart, pe, '\n');
    SliceAvoids(s, pathStart, pe, ')');
    AssetRawParts(s, start, open, le, pe);
  }

  lemma {:induction false} SliceAvoids(s: string, a: nat, b: nat, c: char)
    requires a <= b <= |s|
    requires forall k :: a <= k < b ==> s[k] != c
    ensures c !in s[a..b]
  {
    forall k | 0 <= k < b - a ensures s[a..b][k] != c {
      assert s[a..b][k] == s[a + k];
    }
  }

  lemma {:induction false} AssetRawParts(s: string, start: nat, open: nat, le: nat, pe: nat)
    requires start <= open < le && le + |AssetsDir| <= pe < |s|
    requires open == start || (open == start + 1 && s[start] == '!')
    requires s[open] == '[' && At(s, le, AssetsDir) && s[pe] == ')'
    ensures s[start..pe + 1] ==
      (if open == start + 1 then "!" else "") + "[" + s[open + 1..le] + AssetsDir + s[le + |AssetsDir|..pe] + ")"
  {
    var pathStart := le + |AssetsDir|;
    SixSlices(s, start, open, open + 1, le, pathStart, pe, pe + 1);
    assert s[start..open] == (if open == start + 1 then "!" else "");
    assert s[open..open + 1] == "[";
    assert s[pe..pe + 1] == ")";
  }

  /** A slice cut at five points is the concatenation of the six pieces. */
  lemma {:induction false} SixSlices(s: string, a: nat, b: nat, c: nat, d: nat, e: nat, f: nat, g: nat)
    requires a <= b <= c <= d <= e <= f <= g <= |s|
    ensures s[a..g] == s[a..b] + s[b..c] + s[c..d] + s[d..e] + s[e..f] + s[f..g]
  {
    assert s[a..g] == s[a..f] + s[f..g];
    assert s[a..f] == s[a..e] + s[e..f];
    assert s[a..e] == s[a..d] + s[d..e];
    assert s[a..d] == s[a..c] + s[c..d];
    assert s[a..c] == s[a..b] + s[b..c];
  }

  /** Where the '[' of an asset link starting at `i` is. At a '!' only the
      embedded reading can match (its '[' must follow), at a '[' only the plain one. */
  function AssetOpen(s: string, i: nat): (r: Option<nat>)
    requires i < |s|
    ensures r.Some? ==> r.value < |s| && s[r.value] == '[' && AssetLabelEnd(s, r.value + 1).Some?
    ensures r.Some? ==> r.value == i || (r.value == i + 1 && s[i] == '!')
  {
    if s[i] == '!' && At(s, i + 1, "[") && AssetLabelEnd(s, i + 2).Some? then
      assert s[i + 1] == s[i + 1..i + 2][0];
      Some(i + 1)
    else if s[i] == '[' && AssetLabelEnd(s, i + 1).Some? then Some(i)
    else None
  }

  /** One asset match: where it starts, where its '[' is, and where its label
      and path end. */
  datatype AssetMatch = AssetMatch(start: nat, open: nat, ends: AssetEnds)

  /** The asset match that starts at `i`, if any. */
  function AssetMatchAt(s: string, i: nat): (r: Option<AssetMatch>)
    requires i < |s|
    ensures r.Some? ==> r.value.start == i <= r.value.open < r.value.ends.labelEnd
    ensures r.Some? ==> r.value.ends.labelEnd + |AssetsDir| <= r.value.ends.pathEnd < |s|
  {
    match AssetOpen(s, i)
      case Some(open) => Some(AssetMatch(i, open, AssetLabelEnd(s, open + 1).value))
      case None => None
  }

  /** `m` is the asset match that starts at `m.start`. */
  predicate FoundAt(s: string, m: AssetMatch) {
    m.start < |s| && AssetMatchAt(s, m.start) == Some(m)
  }

  /** The leftmost asset match at or after `i`. */
  function NextAssetMatch(s: string, i: nat): (r: Option<AssetMatch>)
    ensures r.Some? ==> i <= r.value.start <= r.value.ends.pathEnd < |s|
    decreases |s| - i
  {
    if |s| <= i then None
    else if AssetMatchAt(s, i).Some? then AssetMatchAt(s, i)
    else NextAssetMatch(s, i + 1)
  }

  /** The leftmost match is one that starts where it says. */
  lemma {:induction false} NextFound(s: string, i: nat)
    requires NextAssetMatch(s, i).Some?
    ensures FoundAt(s, NextAssetMatch(s, i).value)
    decreases |s| - i
  {
    if AssetMatchAt(s, i).None? {
      NextFound(s, i + 1);
    }
  }

  /** The asset matches from position `i` on, each search starting where the
      last match ended. */
  function AssetMatchesFrom(s: string, i: nat): seq<AssetMatch>
    decreases |s| - i
  {
    match NextAssetMatch(s, i)
      case Some(m) => [m] + AssetMatchesFrom(s, m.ends.pathEnd + 1)
      case None => []
  }

  /** One step of the asset scan: the leftmost match, then the matches after it. */
  lemma {:induction false} AssetMatchesStep(s: string, i: nat, m: AssetMatch)
    requires NextAssetMatch(s, i) == Some(m)
    ensures AssetMatchesFrom(s, i) == [m] + AssetMatchesFrom(s, m.ends.pathEnd + 1)
  {
  }

  /** Every match of the scan is one that starts where it says. */
  lemma {:induction false} MatchesFound(s: string, i: nat)
    ensures forall m :: m in AssetMatchesFrom(s, i) ==> FoundAt(s, m)
    decreases |s| - i
  {
    match NextAssetMatch(s, i)
    case Some(m) =>
      NextFound(s, i);
      MatchesFound(s, m.ends.pathEnd + 1);
      AssetMatchesStep(s, i, m);
    case None =>
  }

  /** The link a match stands for. */
  function MatchLink(s: string, m: AssetMatch, from: string): (l: Link)
    requires FoundAt(s, m)
    ensures l.linkType == LinkTypeAsset && l.linksFrom == from
    ensures l.isEmbed <==> m.open == m.start + 1
  {
    AssetLinkAt(s, m.start, m.open, m.ends.labelEnd, m.ends.pathEnd, from)
  }

  /** The asset links found from position `i` on. */
  function AssetLinksFrom(s: string, i: nat, from: string): (r: seq<Link>)
    ensures forall l :: l in r ==> l.linkType == LinkTypeAsset && l.linksFrom == from
  {
    var ms := AssetMatchesFrom(s, i);
    MatchesFound(s, i);
    seq(|ms|, k requires 0 <= k < |ms| => MatchLink(s, ms[k], from))
  }

  function AssetLinks(s: string, from: string): seq<Link> {
    AssetLinksFrom(s, 0, from)
  }

  /** Every asset link found is `[label](../assets/path)`, with a leading '!'
      when embedded, put back together from its label and path; the label
      holds no newline, the path no newline and no ')'. */
  lemma {:induction false} AssetLinksShape(s: string, from: string)
    ensures forall l :: l in AssetLinks(s, from) ==> AssetLinkShaped(l)
  {
    var ms := AssetMatchesFrom(s, 0);
    MatchesFound(s, 0);
    forall k | 0 <= k < |ms| ensures AssetLinkShaped(MatchLink(s, ms[k], from)) {
      assert ms[k] in ms;
      FoundAssetShaped(s, ms[k], from);
    }
  }

  /** The link of a match is shaped as AssetLinksShape says. */
  lemma {:induction false} FoundAssetShaped(s: string, m: AssetMatch, from: string)
    requires FoundAt(s, m)
    ensures AssetLinkShaped(MatchLink(s, m, from))
  {
    var le := m.ends.labelEnd;
    var pe := m.ends.pathEnd;
    assert AssetOpen(s, m.start) == Some(m.open) && AssetLabelEnd(s, m.open + 1) == Some(m.ends);
    AssetLabelEndFacts(s, m.open + 1, le, pe);
    AssetPathEndFacts(s, le + |AssetsDir|, pe);
    AssetLinkAtShape(s, m.start, m.open, le, pe, from);
  }

  // ----------------------------------------------------------------- tag links

  /** A character of `[\w/-]`. */
  predicate IsTagChar(c: char) {
    IsWordChar(c) || c == '/' || c == '-'
  }

  /** RE2's `\b` at position `e`: a word character on exactly one side. */
  predicate WordBoundary(s: string, e: nat)
    requires e <= |s|
  {
    (0 < e && IsWordChar(s[e - 1])) != (e < |s| && IsWordChar(s[e]))
  }

  /** The end of the longest run of tag characters starting at `p`. */
  function TagRunEnd(s: string, p: nat): (q: nat)
    requires p <= |s|
    ensures p <= q <= |s|
    ensures forall k :: p <= k < q ==> IsTagChar(s[k])
    ensures q < |s| ==> !IsTagChar(s[q])
    decreases |s| - p
  {
    if p < |s| && IsTagChar(s[p]) then TagRunEnd(s, p + 1) else p
  }

  /** The greedy run giving characters back, from `e` down to `lo`, until `\b`
      holds after it. */
  function BackToBoundary(s: string, lo: nat, e: nat): (r: Option<nat>)
    requires e <= |s|
    ensures r.Some? ==> lo <= r.value <= e && WordBoundary(s, r.value)
    decreases e
  {
    if e < lo then None
    else if WordBoundary(s, e) then Some(e)
    else if e == 0 then None
    else BackToBoundary(s, lo, e - 1)
  }

  /** `[a-zA-Z][\w/-]+\b` with the letter at `h`: the end of the tag name. */
  function TagNameEnd(s: string, h: nat): (r: Option<nat>)
    requires h <= |s|
    ensures r.Some? ==> h + 2 <= r.value <= |s| && IsLetter(s[h])
    ensures r.Some? ==> forall k :: h + 1 <= k < r.value ==> IsTagChar(s[k])
  {
    if h + 1 < |s| && IsLetter(s[h]) && IsTagChar(s[h + 1]) then
      BackToBoundary(s, h + 2, TagRunEnd(s, h + 1))
    else None
  }

  /** Where the '#' of a tag match starting at `i` is: at the very start of the
      text (`^`), or right after a whitespace character (`\s`). */
  function TagHash(s: string, i: nat): (r: Option<nat>)
    requires i < |s|
    ensures r.Some? ==> r.value < |s| && s[r.value] == '#'
    ensures r.Some? ==> (r.value == i == 0) || (r.value == i + 1 && IsSpace(s[i]))
  {
    if i == 0 && s[0] == '#' then Some(0)
    else if IsSpace(s[i]) && i + 1 < |s| && s[i + 1] == '#' then Some(i + 1)
    else None
  }

  /** The tag shaped like `TagLinksFrom` promises. */
  predicate IsTagLink(l: Link, from: string) {
    l.linkType == LinkTypeTag && !l.isEmbed && l.linksFrom == from &&
    l.linkLabel == l.linkPath && 2 <= |l.linkPath| && IsLetter(l.linkPath[0]) &&
    (forall c :: c in l.linkPath ==> IsTagChar(c)) &&
    (l.raw == "#" + l.linkPath ||
     (|l.raw| == |l.linkPath| + 2 && IsSpace(l.raw[0]) && l.raw[1..] == "#" + l.linkPath))
  }

  /** The tag match that starts at `i` with its '#' at `h` and its name ending at `e`. */
  function TagLinkAt(s: string, i: nat, h: nat, e: nat, from: string): (l: Link)
    requires i < |s| && TagHash(s, i) == Some(h) && TagNameEnd(s, h + 1) == Some(e)
    ensures IsTagLink(l, from)
  {
    var name := s[h + 1..e];
    assert forall c :: c in name ==> IsTagChar(c) by {
      forall k | 0 <= k < |name| ensures IsTagChar(name[k]) { assert name[k] == s[h + 1 + k]; }
    }
    TagRawParts(s, i, h, e);
    Link(s[i..e], from, name, name, LinkTypeTag, false)
  }

  lemma {:induction false} TagRawParts(s: string, i: nat, h: nat, e: nat)
    requires i < |s| && TagHash(s, i) == Some(h) && h < e <= |s|
    ensures h == i ==> s[i..e] == "#" + s[h + 1..e]
    ensures h != i ==> s[i..e] == [s[i]] + "#" + s[h + 1..e]
  {
    assert s[i..e] == s[i..h] + [s[h]] + s[h + 1..e];
  }

  /** The tags `#name` found from position `i` on; each match's raw text keeps
      the whitespace in front of the '#'. */
  function TagLinksFrom(s: string, i: nat, from: string): (r: seq<Link>)
    ensures forall l :: l in r ==> IsTagLink(l, from)
    decreases |s| - i
  {
    if |s| <= i then []
    else if TagHash(s, i).Some? && TagNameEnd(s, TagHash(s, i).value + 1).Some? then
      var h := TagHash(s, i).value;
      var e := TagNameEnd(s, h + 1).value;
      [TagLinkAt(s, i, h, e, from)] + TagLinksFrom(s, e, from)
    else TagLinksFrom(s, i + 1, from)
  }

  function TagLinks(s: string, from: string): seq<Link> {
    TagLinksFrom(s, 0, from)
  }
}

module LinkScanRoundTrips {
  import opened Common
  import opened Strs
  import opened Links
  import opened LinkScan

  /** Writing a page name that has no ']' and no newline as `[[name]]` and
      scanning the text finds exactly that one page link. */
  lemma {:induction false} PageLinkRoundTrip(name: string, from: string)
    requires 1 <= |name| && ']' !in name && '\n' !in name
    ensures PageLinks("[[" + name + "]]", from) ==
      [Link("[[" + name + "]]", from, name, name, LinkTypePage, false)]
  {
    var s := "[[" + name + "]]";
    PageNameEndOf(name, 3);
    assert At(s, 0, "[[");
    assert s[2..|name| + 2] == name;
    assert s[0..|name| + 4] == s;
    assert PageLinksFrom(s, |s|, from) == [];
    assert PageLinksFrom(s, 0, from) ==
      [Link(s[0..|name| + 4], from, name, name, LinkTypePage, false)] + PageLinksFrom(s, |s|, from);
  }

  lemma {:induction false} PageNameEndOf(name: string, j: nat)
    requires 1 <= |name| && ']' !in name && '\n' !in name
    requires 3 <= j <= |name| + 2
    ensures PageNameEnd("[[" + name + "]]", j) == Some(|name| + 2)
    decreases |name| + 2 - j
  {
    var s := "[[" + name + "]]";
    assert s[j - 1] == name[j - 3];
    if j < |name| + 2 {
      assert s[j] == name[j - 2];
      assert !At(s, j, "]]") by { assert s[j] != ']'; }
      PageNameEndOf(name, j + 1);
    } else {
      assert s[j..j + 2] == "]]";
    }
  }

  /** Writing `#name` for a name of a letter followed by at least one word
      character and scanning the text finds exactly that one tag. */
  lemma {:induction false} TagRoundTrip(name: string, from: string)
    requires 2 <= |name| && IsLetter(name[0])
    requires forall k :: 0 <= k < |name| ==> IsWordChar(name[k])
    ensures TagLinks("#" + name, from) == [Link("#" + name, from, name, name, LinkTypeTag, false)]
  {
    var s := "#" + name;
    assert TagHash(s, 0) == Some(0);
    TagRunToEnd(s, 2);
    assert WordBoundary(s, |s|) by { assert s[|s| - 1] == name[|name| - 1]; }
    assert TagNameEnd(s, 1) == Some(|s|) by {
      assert s[1] == name[0] && s[2] == name[1];
    }
    assert s[1..|s|] == name;
    assert s[0..|s|] == s;
    assert TagLinkAt(s, 0, 0, |s|, from) == Link(s, from, name, name, LinkTypeTag, false);
    assert TagLinksFrom(s, |s|, from) == [];
    assert TagLinksFrom(s, 0, from) == [TagLinkAt(s, 0, 0, |s|, from)] + TagLinksFrom(s, |s|, from);
  }

  lemma {:induction false} TagRunToEnd(s: string, p: nat)
    requires p <= |s|
    requires forall k :: p <= k < |s| ==> IsTagChar(s[k])
    ensures TagRunEnd(s, p) == |s|
    decreases |s| - p
  {
    if p < |s| {
      TagRunToEnd(s, p + 1);
    }
  }

  /** Writing an asset link `[label](../assets/path)`, or its embedded form with
      a leading '!', and scanning the text finds exactly that one asset link. */
  lemma {:induction false} AssetLinkRoundTrip(embed: bool, lbl: string, path: string, from: string)
    requires ']' !in lbl && '\n' !in lbl && ')' !in path && '\n' !in path
    ensures
      var raw := (if embed then "!" else "") + "[" + lbl + AssetsDir + path + ")";
      AssetLinks(raw, from) == [Link(raw, from, path, lbl, LinkTypeAsset, embed)]
  {
    var pre: string := if embed then "!" else "";
    var raw := pre + "[" + lbl + AssetsDir + path + ")";
    var open := |pre|;
    var le := open + 1 + |lbl|;
    var pe := le + |AssetsDir| + |path|;
    AssetRawLayout(pre, lbl, path);
    AssetScanWhole(raw, open, le, pe, from);
  }

  /** `raw` is one asset link and nothing more: its '[' at `open` (after a '!'
      when `open` is 1), its label ending at `le`, its path at `pe`, and no
      character in label or path that would end them early. */
  predicate AssetLayout(raw: string, open: nat, le: nat, pe: nat) {
    && open < le && le + |AssetsDir| <= pe == |raw| - 1
    && open <= 1 && (open == 1 ==> raw[0] == '!')
    && raw[open] == '[' && At(raw, le, AssetsDir) && raw[pe] == ')'
    && (forall k :: open + 1 <= k < le ==> raw[k] != ']' && raw[k] != '\n')
    && (forall k :: le + |AssetsDir| <= k < pe ==> raw[k] != ')' && raw[k] != '\n')
  }

  lemma {:induction false} AssetScanWhole(raw: string, open: nat, le: nat, pe: nat, from: string)
    requires AssetLayout(raw, open, le, pe)
    ensures AssetLinks(raw, from) ==
      [Link(raw, from, raw[le + |AssetsDir|..pe], raw[open + 1..le], LinkTypeAsset, open == 1)]
  {
    AssetMatchesWhole(raw, open, le, pe);
    var m := AssetMatch(0, open, AssetEnds(le, pe));
    assert raw[0..pe + 1] == raw;
    assert AssetLinks(raw, from) == [MatchLink(raw, m, from)];
  }

  lemma {:induction false} AssetMatchesWhole(raw: string, open: nat, le: nat, pe: nat)
    requires AssetLayout(raw, open, le, pe)
    ensures FoundAt(raw, AssetMatch(0, open, AssetEnds(le, pe)))
    ensures AssetMatchesFrom(raw, 0) == [AssetMatch(0, open, AssetEnds(le, pe))]
  {
    AssetPathEndOf(raw, le + |AssetsDir|, pe);
    AssetLabelEndOf(raw, open + 1, le, pe);
    AssetOpenAtStart(raw, open);
    var m := AssetMatch(0, open, AssetEnds(le, pe));
    assert AssetMatchAt(raw, 0) == Some(m);
    AssetMatchesStep(raw, 0, m);
    assert AssetMatchesFrom(raw, pe + 1) == [];
  }

  lemma {:induction false} AssetOpenAtStart(raw: string, open: nat)
    requires open <= 1 && open < |raw| && (open == 1 ==> raw[0] == '!') && raw[open] == '['
    requires AssetLabelEnd(raw, open + 1).Some?
    ensures AssetOpen(raw, 0) == Some(open)
  {
    if open == 1 {
      assert At(raw, 1, "[") by { assert raw[1..2] == "["; }
    }
  }

  lemma {:induction false} AssetRawLayout(pre: string, lbl: string, path: string)
    requires pre == "" || pre == "!"
    requires ']' !in lbl && '\n' !in lbl && ')' !in path && '\n' !in path
    ensures
      var raw := pre + "[" + lbl + AssetsDir + path + ")";
      var open := |pre|;
      var le := open + 1 + |lbl|;
      var pe := le + |AssetsDir| + |path|;
      AssetLayout(raw, open, le, pe) && raw[open + 1..le] == lbl && raw[le + |AssetsDir|..pe] == path
  {
    var raw := pre + "[" + lbl + AssetsDir + path + ")";
    var open := |pre|;
    var le := open + 1 + |lbl|;
    var pe := le + |AssetsDir| + |path|;
    assert forall k :: open + 1 <= k < le ==> raw[k] == lbl[k - open - 1];
    assert forall k :: le + |AssetsDir| <= k < pe ==> raw[k] == path[k - le - |AssetsDir|];
    assert raw[le..le + |AssetsDir|] == AssetsDir;
  }

  lemma {:induction false} AssetPathEndOf(s: string, p: nat, pe: nat)
    requires p <= pe < |s| && s[pe] == ')'
    requires forall k :: p <= k < pe ==> s[k] != ')' && s[k] != '\n'
    ensures AssetPathEnd(s, p) == Some(pe)
    decreases pe - p
  {
    if p < pe {
      AssetPathEndOf(s, p + 1, pe);
    }
  }

  lemma {:induction false} AssetLabelEndOf(s: string, e: nat, le: nat, pe: nat)
    requires e <= le && At(s, le, AssetsDir) && AssetPathEnd(s, le + |AssetsDir|) == Some(pe)
    requires forall k :: e <= k < le ==> s[k] != ']' && s[k] != '\n'
    ensures AssetLabelEnd(s, e) == Some(AssetEnds(le, pe))
    decreases le - e
  {
    if e < le {
      assert !At(s, e, AssetsDir) by { assert s[e] != AssetsDir[0]; }
      AssetLabelEndOf(s, e + 1, le, pe);
    }
  }
}
