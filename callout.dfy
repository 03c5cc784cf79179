/** Callout blocks: a `#+BEGIN_X` line, a body, and a `#+END_X` line. The pattern
    is `(?sm)#\+BEGIN_(\S+)\n(.+?)\n#\+END_(\S+)`, read the way Go's RE2 engine
    reads it: `.` matches newlines too, `\S+` takes the longest run of
    non-whitespace, and the body is the shortest one the closing line follows. */
module Callouts {
  import opened Common
  import opened Strs
  import opened LinkScan

  const Begin := "#+BEGIN_"
  const End := "\n#+END_"

  /** `\S+` from position `p`: the end of the longest run of non-whitespace. */
  function NonSpaceRunEnd(s: string, p: nat): (q: nat)
    requires p <= |s|
    ensures p <= q <= |s|
    ensures forall k :: p <= k < q ==> !IsSpace(s[k])
    ensures q < |s| ==> IsSpace(s[q])
    decreases |s| - p
  {
    if p < |s| && !IsSpace(s[p]) then NonSpaceRunEnd(s, p + 1) else p
  }

  /** The closing line can start at `k`: "\n#+END_" and at least one
      non-whitespace character. */
  predicate ClosesAt(s: string, k: nat) {
    At(s, k, End) && k + |End| < |s| && !IsSpace(s[k + |End|])
  }

  /** The end of the shortest body `(.+?)` whose last character is `s[j-1]`. */
  function BodyEnd(s: string, j: nat): (r: Option<nat>)
    ensures r.Some? ==> j <= r.value && ClosesAt(s, r.value)
    ensures r.Some? ==> forall k :: j <= k < r.value ==> !ClosesAt(s, k)
    decreases |s| - j
  {
    if |s| <= j then None
    else if ClosesAt(s, j) then Some(j)
    else BodyEnd(s, j + 1)
  }

  datatype CalloutMatch = CalloutMatch(end: nat, opener: string, body: string, closer: string)

  /** The callout match that starts at `i`, if one does. */
  function CalloutAt(s: string, i: nat): (r: Option<CalloutMatch>)
    ensures r.Some? ==> i < r.value.end <= |s|
  {
    if !At(s, i, Begin) then None
    else
      var oe := NonSpaceRunEnd(s, i + |Begin|);
      if oe == i + |Begin| || oe == |s| || s[oe] != '\n' then None
      else match BodyEnd(s, oe + 2)
        case None => None
        case Some(be) =>
          var ce := NonSpaceRunEnd(s, be + |End|);
          Some(CalloutMatch(ce, s[i + |Begin|..oe], s[oe + 1..be], s[be + |End|..ce]))
  }

  /** A callout match is the text it spans, taken apart. */
  lemma {:induction false} CalloutAtText(s: string, i: nat)
    requires CalloutAt(s, i).Some?
    ensures CalloutText(s, i, CalloutAt(s, i).value)
  {
    var oe := NonSpaceRunEnd(s, i + |Begin|);
    var be := BodyEnd(s, oe + 2).value;
    var ce := NonSpaceRunEnd(s, be + |End|);
    assert CalloutAt(s, i).value == CalloutMatch(ce, s[i + |Begin|..oe], s[oe + 1..be], s[be + |End|..ce]);
    CalloutParts(s, i, oe, be, ce);
  }

  /** `m` is the text from `i` to `m.end`, taken apart: "#+BEGIN_", the
      opener, a newline, the body, "\n#+END_" and the closer, where opener,
      body and closer are non-empty and opener and closer hold no whitespace. */
  predicate CalloutText(s: string, i: nat, m: CalloutMatch) {
    && i <= m.end <= |s|
    && s[i..m.end] == Begin + m.opener + "\n" + m.body + End + m.closer
    && 1 <= |m.opener| && 1 <= |m.body| && 1 <= |m.closer|
    && NoSpace(m.opener) && NoSpace(m.closer)
  }

  lemma {:induction false} CalloutParts(s: string, i: nat, oe: nat, be: nat, ce: nat)
    requires i + |Begin| < oe && oe + 1 < be && be + |End| < ce <= |s|
    requires At(s, i, Begin) && s[oe] == '\n' && At(s, be, End)
    requires forall k :: i + |Begin| <= k < oe ==> !IsSpace(s[k])
    requires forall k :: be + |End| <= k < ce ==> !IsSpace(s[k])
    ensures CalloutText(s, i, CalloutMatch(ce, s[i + |Begin|..oe], s[oe + 1..be], s[be + |End|..ce]))
  {
    assert s[i..i + |Begin|] == Begin && s[oe..oe + 1] == "\n" && s[be..be + |End|] == End;
    SixSlices(s, i, i + |Begin|, oe, oe + 1, be, be + |End|, ce);
    RangeNoSpace(s, i + |Begin|, oe);
    RangeNoSpace(s, be + |End|, ce);
  }

  lemma {:induction false} RangeNoSpace(s: string, i: nat, j: nat)
    requires i <= j <= |s|
    requires forall k :: i <= k < j ==> !IsSpace(s[k])
    ensures NoSpace(s[i..j])
  {
    forall c | c in s[i..j] ensures !IsSpace(c) {
      var t :| 0 <= t < j - i && s[i..j][t] == c;
      assert c == s[i + t];
    }
  }

  /** Where the leftmost callout match at or after `i` starts: a position that
      matches with none before it, or none when no position from `i` matches. */
  function FirstCalloutAt(s: string, i: nat): (r: Option<nat>)
    ensures r.Some? ==> i <= r.value < |s| && CalloutAt(s, r.value).Some? && NoCalloutIn(s, i, r.value)
    ensures r.None? ==> NoCalloutIn(s, i, |s|)
    decreases |s| - i
  {
    if |s| <= i then None
    else if CalloutAt(s, i).Some? then Some(i)
    else
      var r := FirstCalloutAt(s, i + 1);
      NoCalloutBefore(s, i, if r.Some? then r.value else |s|);
      r
  }

  lemma {:induction false} NoCalloutBefore(s: string, i: nat, j: nat)
    requires i < j && CalloutAt(s, i).None? && NoCalloutIn(s, i + 1, j)
    ensures NoCalloutIn(s, i, j)
  {
  }

  /** The leftmost callout match at or after `i` (FindStringSubmatch). */
  function FirstCallout(s: string, i: nat): (r: Option<CalloutMatch>)
    ensures r.Some? ==> exists k :: i <= k < |s| && CalloutAt(s, k) == r && NoCalloutIn(s, i, k)
    ensures r.None? ==> NoCalloutIn(s, i, |s|)
  {
    match FirstCalloutAt(s, i)
      case None => None
      case Some(k) => CalloutAt(s, k)
  }

  /** No callout match starts at a position in `[i, j)`. */
  predicate NoCalloutIn(s: string, i: nat, j: nat) {
    forall k :: i <= k < j ==> CalloutAt(s, k).None?
  }

  /** The submatches a replacement template can name: 0 the whole match, 1 the
      opener, 2 the body and 3 the closer. */
  function Groups(s: string, i: nat, m: CalloutMatch): (g: seq<string>)
    requires i <= m.end <= |s|
    ensures |g| == 4 && g[1] == m.opener && g[2] == m.body && g[3] == m.closer
  {
    [s[i..m.end], m.opener, m.body, m.closer]
  }

  /** A reference after a "$" in a template: the name and the text after it. */
  datatype Ref = Ref(name: string, rest: string)

  /** The end of the run of word characters from `p`. */
  function WordRunEnd(s: string, p: nat): (q: nat)
    requires p <= |s|
    ensures p <= q <= |s|
    ensures forall k :: p <= k < q ==> IsWordChar(s[k])
    ensures q < |s| ==> !IsWordChar(s[q])
    decreases |s| - p
  {
    if p < |s| && IsWordChar(s[p]) then WordRunEnd(s, p + 1) else p
  }

  /** The name a template refers to right after its "$": `{name}` or a bare
      `name` of word characters, never empty; a brace left open is no reference. */
  function TemplateRef(t: string): (r: Option<Ref>)
    ensures r.Some? ==> 1 <= |r.value.name| && |r.value.rest| < |t|
    ensures r.Some? ==> forall c :: c in r.value.name ==> IsWordChar(c)
    ensures r.Some? ==>
      t == r.value.name + r.value.rest || t == "{" + r.value.name + "}" + r.value.rest
  {
    if 0 < |t| && t[0] == '{' then
      var e := WordRunEnd(t, 1);
      if e == 1 || e == |t| || t[e] != '}' then None
      else
        assert t == "{" + t[1..e] + "}" + t[e + 1..] by {
          assert t == t[..1] + t[1..e] + t[e..e + 1] + t[e + 1..];
        }
        Some(Ref(t[1..e], t[e + 1..]))
    else
      var e := WordRunEnd(t, 0);
      if e == 0 then None
      else
        assert t == t[..e] + t[e..];
        Some(Ref(t[..e], t[e..]))
  }

  /** The text a reference names: a group number names that group; the pattern
      has four groups and no named ones, so only "0" to "3" name anything (a
      longer number is too large or has a leading zero) and every other name
      expands to nothing. */
  function GroupText(name: string, g: seq<string>): (r: string)
    requires |g| == 4
    ensures name == "1" ==> r == g[1]
    ensures name == "2" ==> r == g[2]
    ensures (|name| != 1 || !IsDigit(name[0]) || name[0] > '3') ==> r == ""
  {
    if |name| == 1 && '0' <= name[0] <= '3' then g[name[0] as int - '0' as int] else ""
  }

  /** Regexp.Expand, which ReplaceAllString applies to its replacement for each
      match: "$$" is a "$", "$name" and "${name}" are the named group's text, and
      a "$" with no name after it stays as it is. */
  function Expand(t: string, g: seq<string>): (r: string)
    requires |g| == 4
    decreases |t|
  {
    if |t| == 0 then ""
    else if t[0] != '$' then [t[0]] + Expand(t[1..], g)
    else if 2 <= |t| && t[1] == '$' then "$" + Expand(t[2..], g)
    else match TemplateRef(t[1..])
      case None => "$" + Expand(t[1..], g)
      case Some(ref) => GroupText(ref.name, g) + Expand(ref.rest, g)
  }

  /** A template without "$" is copied as it is. */
  lemma {:induction false} ExpandLiteral(t: string, g: seq<string>)
    requires |g| == 4 && '$' !in t
    ensures Expand(t, g) == t
    decreases |t|
  {
    if 0 < |t| {
      assert t[0] in t;
      assert forall c :: c in t[1..] ==> c in t;
      ExpandLiteral(t[1..], g);
    }
  }

  /** Expansion distributes over a "$"-free prefix: the prefix is copied. */
  lemma {:induction false} ExpandLiteralPrefix(a: string, t: string, g: seq<string>)
    requires |g| == 4 && '$' !in a
    ensures Expand(a + t, g) == a + Expand(t, g)
    decreases |a|
  {
    if 0 < |a| {
      assert a[0] in a;
      assert forall c :: c in a[1..] ==> c in a;
      assert (a + t)[0] == a[0] && (a + t)[1..] == a[1..] + t;
      ExpandLiteralPrefix(a[1..], t, g);
      assert a == [a[0]] + a[1..];
    } else {
      assert a + t == t;
    }
  }

  lemma {:induction false} WordRunEndOf(s: string, p: nat, q: nat)
    requires p <= q <= |s|
    requires forall k :: p <= k < q ==> IsWordChar(s[k])
    requires q < |s| ==> !IsWordChar(s[q])
    ensures WordRunEnd(s, p) == q
    decreases q - p
  {
    if p < q {
      WordRunEndOf(s, p + 1, q);
    }
  }

  /** A bare name of word characters, ended by a non-word character or the end
      of the template, is read as a whole. */
  lemma {:induction false} TemplateRefBare(name: string, rest: string)
    requires 1 <= |name| && forall c :: c in name ==> IsWordChar(c)
    requires 0 < |rest| ==> !IsWordChar(rest[0])
    ensures TemplateRef(name + rest) == Some(Ref(name, rest))
  {
    var t := name + rest;
    assert t[0] == name[0] && name[0] in name;
    forall k | 0 <= k < |name| ensures IsWordChar(t[k]) {
      assert t[k] == name[k] && name[k] in name;
    }
    WordRunEndOf(t, 0, |name|);
    assert t[..|name|] == name && t[|name|..] == rest;
  }

  /** A braced name of word characters is read as a whole, braces dropped. */
  lemma {:induction false} TemplateRefBraced(name: string, rest: string)
    requires 1 <= |name| && forall c :: c in name ==> IsWordChar(c)
    ensures TemplateRef("{" + name + "}" + rest) == Some(Ref(name, rest))
  {
    var t := "{" + name + "}" + rest;
    var e := |name| + 1;
    forall k | 1 <= k < e ensures IsWordChar(t[k]) {
      assert t[k] == name[k - 1] && name[k - 1] in name;
    }
    WordRunEndOf(t, 1, e);
    assert t[1..e] == name && t[e] == '}' && t[e + 1..] == rest;
  }

  /** "$$" is one "$", and a "$" with no name after it stays as written. */
  lemma ExpandKeepsDollar(g: seq<string>)
    requires |g| == 4
    ensures Expand("$$", g) == "$"
    ensures Expand("${1", g) == "${1"
    ensures Expand("$", g) == "$"
  {
    assert "$$"[2..] == "";
    assert "${1"[1..] == "{1";
    assert WordRunEnd("{1", 1) == 2 by { WordRunEndOf("{1", 1, 2); }
    ExpandLiteral("{1", g);
    assert "$"[1..] == "";
  }

  /** "${1}" and "$1" are the opener, "$2" the body. */
  lemma ExpandGroups(g: seq<string>)
    requires |g| == 4
    ensures Expand("${1}", g) == g[1]
    ensures Expand("$1", g) == g[1]
    ensures Expand("$2", g) == g[2]
  {
    assert "${1}"[1..] == "{" + "1" + "}" + "";
    TemplateRefBraced("1", "");
    assert "$1"[1..] == "1" + "";
    TemplateRefBare("1", "");
    assert "$2"[1..] == "2" + "";
    TemplateRefBare("2", "");
  }

  /** A group the pattern lacks, such as "$10" or "$HOME", expands to nothing. */
  lemma ExpandUnknownGroups(g: seq<string>)
    requires |g| == 4
    ensures Expand("$10", g) == ""
    ensures Expand("$HOME", g) == ""
  {
    assert "$10"[1..] == "10" + "";
    TemplateRefBare("10", "");
    assert "$HOME"[1..] == "HOME" + "";
    TemplateRefBare("HOME", "");
  }

  /** Replacing from `i` on: every callout match replaced by `body`, expanded
      as a template against that match's groups, and every other character kept. */
  function ReplaceFrom(s: string, i: nat, body: string): string
    decreases |s| - i
  {
    if |s| <= i then ""
    else match CalloutAt(s, i)
      case Some(m) => Expand(body, Groups(s, i, m)) + ReplaceFrom(s, m.end, body)
      case None => [s[i]] + ReplaceFrom(s, i + 1, body)
  }

  /** ReplaceAllString: text without a callout is unchanged; otherwise the text
      before the leftmost match is kept verbatim, the match becomes `body`
      expanded against its groups, and replacing goes on after it. */
  function ReplaceCallouts(s: string, body: string): (r: string)
    ensures FirstCalloutAt(s, 0).None? ==> r == s
    ensures FirstCalloutAt(s, 0).Some? ==>
      var k := FirstCalloutAt(s, 0).value;
      var m := CalloutAt(s, k).value;
      r == s[..k] + Expand(body, Groups(s, k, m)) + ReplaceFrom(s, m.end, body)
  {
    match FirstCalloutAt(s, 0)
      case None =>
        ReplaceNoCallout(s, body);
        ReplaceFrom(s, 0, body)
      case Some(k) =>
        ReplaceFirstCallout(s, k, body);
        ReplaceFrom(s, 0, body)
  }

  lemma {:induction false} ReplaceNoCallout(s: string, body: string)
    requires FirstCalloutAt(s, 0).None?
    ensures ReplaceFrom(s, 0, body) == s
  {
    ReplaceKeepsPrefix(s, 0, |s|, body);
    assert s[0..|s|] == s;
  }

  lemma {:induction false} ReplaceFirstCallout(s: string, k: nat, body: string)
    requires k < |s| && NoCalloutIn(s, 0, k) && CalloutAt(s, k).Some?
    ensures ReplaceFrom(s, 0, body) ==
      s[..k] + Expand(body, Groups(s, k, CalloutAt(s, k).value)) + ReplaceFrom(s, CalloutAt(s, k).value.end, body)
  {
    var m := CalloutAt(s, k).value;
    ReplaceKeepsPrefix(s, 0, k, body);
    ReplaceAt(s, k, body);
    PrefixSplit(s, k, Expand(body, Groups(s, k, m)), ReplaceFrom(s, m.end, body));
  }

  lemma {:induction false} PrefixSplit(s: string, k: nat, e: string, rest: string)
    requires k <= |s|
    ensures s[0..k] + (e + rest) == s[..k] + e + rest
  {
  }

  /** The text up to the first match from `i` is kept verbatim. */
  lemma {:induction false} ReplaceKeepsPrefix(s: string, i: nat, k: nat, body: string)
    requires i <= k <= |s| && NoCalloutIn(s, i, k)
    ensures ReplaceFrom(s, i, body) == s[i..k] + ReplaceFrom(s, k, body)
    decreases k - i
  {
    if i < k {
      ReplaceSkip(s, i, body);
      ReplaceKeepsPrefix(s, i + 1, k, body);
      ConsAssoc(s, i, k, ReplaceFrom(s, i + 1, body), ReplaceFrom(s, k, body));
    }
  }

  lemma {:induction false} ConsAssoc(s: string, i: nat, k: nat, mid: string, tail: string)
    requires i < k <= |s| && mid == s[i + 1..k] + tail
    ensures [s[i]] + mid == s[i..k] + tail
  {
    assert s[i..k] == [s[i]] + s[i + 1..k];
  }

  lemma {:induction false} ReplaceSkip(s: string, i: nat, body: string)
    requires i < |s| && CalloutAt(s, i).None?
    ensures ReplaceFrom(s, i, body) == [s[i]] + ReplaceFrom(s, i + 1, body)
  {
  }

  lemma {:induction false} ReplaceAt(s: string, k: nat, body: string)
    requires k < |s| && CalloutAt(s, k).Some?
    ensures ReplaceFrom(s, k, body) ==
      Expand(body, Groups(s, k, CalloutAt(s, k).value)) + ReplaceFrom(s, CalloutAt(s, k).value.end, body)
  {
  }

  /** The markdown with its callouts unwrapped, and the callout kind if it has one. */
  datatype Unwrapped = Unwrapped(markdown: string, callout: Option<string>)

  /** SetMarkdown's callout step: with no callout the markdown is unchanged; with
      one, its opener, lowered, is the callout kind and every match is replaced
      by the first match's body; an opener that differs from its closer ends the
      run, modelled as an error. */
  function Unwrap(md: string): (r: Result<Unwrapped>)
    ensures FirstCallout(md, 0).None? ==> r == Ok(Unwrapped(md, None))
    ensures r.Err? <==> FirstCallout(md, 0).Some? && FirstCallout(md, 0).value.opener != FirstCallout(md, 0).value.closer
    ensures FirstCallout(md, 0).Some? && FirstCallout(md, 0).value.opener == FirstCallout(md, 0).value.closer ==>
      r == Ok(Unwrapped(ReplaceCallouts(md, FirstCallout(md, 0).value.body), Some(Lower(FirstCallout(md, 0).value.opener))))
  {
    match FirstCallout(md, 0)
      case None => Ok(Unwrapped(md, None))
      case Some(m) =>
        if m.opener != m.closer then Err(CalloutMismatch(m.opener, m.closer))
        else Ok(Unwrapped(ReplaceCallouts(md, m.body), Some(Lower(m.opener))))
  }

  /** Text that never contains "#+BEGIN_" has no callout and is left unchanged. */
  lemma {:induction false} NoBeginNoCallout(md: string)
    requires !Contains(md, Begin)
    ensures Unwrap(md) == Ok(Unwrapped(md, None))
  {
    NoBeginFrom(md, 0);
  }

  lemma {:induction false} NoBeginFrom(md: string, i: nat)
    requires !Contains(md, Begin)
    ensures FirstCalloutAt(md, i).None?
    decreases |md| - i
  {
    if i < |md| {
      assert !At(md, i, Begin) by { assert !StartsWith(md[i..], Begin); }
      NoBeginFrom(md, i + 1);
    }
  }

  /** A callout written out in full, `#+BEGIN_X`, a body, `#+END_Y`, is matched as
      a whole, with X as its opener, the body as its body and Y as its closer. */
  lemma {:induction false} WrappedCalloutMatches(x: string, body: string, y: string)
    requires 1 <= |x| && 1 <= |y| && 1 <= |body|
    requires NoSpace(x) && NoSpace(y)
    requires !Contains(body, End)
    ensures
      var md := Begin + x + "\n" + body + End + y;
      CalloutAt(md, 0) == FirstCallout(md, 0) == Some(CalloutMatch(|md|, x, body, y))
  {
    var md := Begin + x + "\n" + body + End + y;
    var oe := |Begin| + |x|;
    var be := oe + 1 + |body|;
    CalloutLayout(x, body, y);
    NoEarlierClose(md, oe, body, be);
    CalloutAtPositions(md, oe, be);
  }

  /** `md` opens with "#+BEGIN_" and an opener of non-space characters ending
      at the newline at `oe`, and closes with "\n#+END_" at `be` followed by a
      closer of non-space characters up to its end. */
  predicate CalloutShape(md: string, oe: nat, be: nat) {
    && |Begin| < oe && oe + 1 < be && be + |End| < |md|
    && At(md, 0, Begin) && md[oe] == '\n' && At(md, be, End)
    && (forall k :: |Begin| <= k < oe ==> !IsSpace(md[k]))
    && (forall k :: be + |End| <= k < |md| ==> !IsSpace(md[k]))
  }

  lemma {:induction false} CalloutLayout(x: string, body: string, y: string)
    requires 1 <= |x| && 1 <= |body| && 1 <= |y|
    requires NoSpace(x) && NoSpace(y)
    ensures
      var md := Begin + x + "\n" + body + End + y;
      var oe := |Begin| + |x|;
      var be := oe + 1 + |body|;
      CalloutShape(md, oe, be) &&
      be + |End| < |md| && md[be..be + |End|] == End &&
      md[|Begin|..oe] == x && md[oe + 1..be] == body && md[be + |End|..] == y
  {
    var md := Begin + x + "\n" + body + End + y;
    var oe := |Begin| + |x|;
    var be := oe + 1 + |body|;
    SixPieces(Begin, x, "\n", body, End, y);
    assert md[oe] == md[oe..oe + 1][0];
    SliceNoSpace(md, |Begin|, oe);
    SliceNoSpace(md, be + |End|, |md|);
  }

  /** Text without whitespace. */
  predicate NoSpace(s: string) {
    forall c :: c in s ==> !IsSpace(c)
  }

  lemma {:induction false} SliceNoSpace(s: string, i: nat, j: nat)
    requires i <= j <= |s| && NoSpace(s[i..j])
    ensures forall k :: i <= k < j ==> !IsSpace(s[k])
  {
    forall k | i <= k < j ensures !IsSpace(s[k]) {
      assert s[k] == s[i..j][k - i];
    }
  }

  /** Where each of six concatenated pieces sits in the whole. */
  lemma {:induction false} SixPieces(a: string, b: string, c: string, d: string, e: string, f: string)
    ensures var s := a + b + c + d + e + f;
      var i1 := |a|; var i2 := i1 + |b|; var i3 := i2 + |c|; var i4 := i3 + |d|; var i5 := i4 + |e|;
      && |s| == i5 + |f|
      && s[0..i1] == a && s[i1..i2] == b && s[i2..i3] == c
      && s[i3..i4] == d && s[i4..i5] == e && s[i5..] == f
  {
    var s := a + b + c + d + e + f;
    var i1 := |a|; var i2 := i1 + |b|; var i3 := i2 + |c|; var i4 := i3 + |d|; var i5 := i4 + |e|;
    assert s[..i5] == a + b + c + d + e && s[i5..] == f;
    assert s[..i4] == a + b + c + d && s[i4..i5] == e;
    assert s[..i3] == a + b + c && s[i3..i4] == d;
    assert s[..i2] == a + b && s[i2..i3] == c;
    assert s[..i1] == a && s[i1..i2] == b;
  }

  lemma {:induction false} CalloutAtPositions(md: string, oe: nat, be: nat)
    requires CalloutShape(md, oe, be)
    requires forall k :: oe + 2 <= k < be ==> !ClosesAt(md, k)
    ensures CalloutAt(md, 0) == FirstCallout(md, 0)
    ensures FirstCallout(md, 0) == Some(CalloutMatch(|md|, md[|Begin|..oe], md[oe + 1..be], md[be + |End|..]))
  {
    CalloutAtStart(md, oe, be);
    assert md[be + |End|..|md|] == md[be + |End|..];
  }

  lemma {:induction false} CalloutAtStart(md: string, oe: nat, be: nat)
    requires CalloutShape(md, oe, be)
    requires forall k :: oe + 2 <= k < be ==> !ClosesAt(md, k)
    ensures CalloutAt(md, 0) == Some(CalloutMatch(|md|, md[|Begin|..oe], md[oe + 1..be], md[be + |End|..|md|]))
  {
    NonSpaceRunEndOf(md, |Begin|, oe);
    NonSpaceRunEndOf(md, be + |End|, |md|);
    BodyEndOf(md, oe + 2, be);
    CalloutAtFrom(md, 0, oe, be, |md|);
  }

  /** CalloutAt from the three scanned positions: the end of the opener, of the
      body and of the closer. */
  lemma {:induction false} CalloutAtFrom(s: string, i: nat, oe: nat, be: nat, ce: nat)
    requires At(s, i, Begin) && NonSpaceRunEnd(s, i + |Begin|) == oe
    requires oe != i + |Begin| && oe < |s| && s[oe] == '\n'
    requires BodyEnd(s, oe + 2) == Some(be) && NonSpaceRunEnd(s, be + |End|) == ce
    ensures CalloutAt(s, i) == Some(CalloutMatch(ce, s[i + |Begin|..oe], s[oe + 1..be], s[be + |End|..ce]))
  {
    var r := CalloutAt(s, i);
    assert r.Some?;
    assert r.value.end == ce && r.value.opener == s[i + |Begin|..oe];
    assert r.value.body == s[oe + 1..be] && r.value.closer == s[be + |End|..ce];
  }

  lemma {:induction false} NonSpaceRunEndOf(s: string, p: nat, q: nat)
    requires p <= q <= |s|
    requires forall k :: p <= k < q ==> !IsSpace(s[k])
    requires q < |s| ==> IsSpace(s[q])
    ensures NonSpaceRunEnd(s, p) == q
    decreases q - p
  {
    if p < q {
      NonSpaceRunEndOf(s, p + 1, q);
    }
  }

  lemma {:induction false} BodyEndOf(s: string, j: nat, be: nat)
    requires j <= be && ClosesAt(s, be)
    requires forall k :: j <= k < be ==> !ClosesAt(s, k)
    ensures BodyEnd(s, j) == Some(be)
    decreases be - j
  {
    if j < be {
      BodyEndOf(s, j + 1, be);
    }
  }

  /** No closing line starts inside the body: the body holds no "\n#+END_" of its
      own, and one that started in the body and ran into the real closing line
      would have to hold that line's newline where it has '#', '+' or a letter. */
  lemma {:induction false} NoEarlierClose(md: string, oe: nat, body: string, be: nat)
    requires be == oe + 1 + |body| && be + |End| <= |md|
    requires md[oe + 1..be] == body && md[be..be + |End|] == End
    requires !Contains(body, End)
    ensures forall k :: oe + 2 <= k < be ==> !ClosesAt(md, k)
  {
    forall k | oe + 2 <= k < be ensures !At(md, k, End) {
      if k + |End| <= be {
        var j := k - oe - 1;
        assert forall t :: 0 <= t < |End| ==> md[k..k + |End|][t] == body[j..][..|End|][t] by {
          forall t | 0 <= t < |End| ensures md[k..k + |End|][t] == body[j..][..|End|][t] {
            assert md[k + t] == md[oe + 1..be][j + t];
          }
        }
        assert !StartsWith(body[j..], End);
      } else {
        assert md[be] == '\n';
        assert md[k..k + |End|][be - k] == md[be];
        assert End[be - k] != '\n';
      }
    }
  }

  /** Wrapping a body in a matching callout and unwrapping it gives the body,
      expanded as a template against the callout's own groups, with the opener,
      lowered, as the callout kind; a body without "$" comes back unchanged. */
  lemma {:induction false} CalloutRoundTrip(x: string, body: string)
    requires 1 <= |x| && 1 <= |body|
    requires NoSpace(x)
    requires !Contains(body, End)
    ensures var md := Begin + x + "\n" + body + End + x;
      Unwrap(md) == Ok(Unwrapped(Expand(body, [md, x, body, x]), Some(Lower(x))))
    ensures '$' !in body ==> Unwrap(Begin + x + "\n" + body + End + x) == Ok(Unwrapped(body, Some(Lower(x))))
  {
    var md := Begin + x + "\n" + body + End + x;
    WrappedCalloutMatches(x, body, x);
    ReplaceWholeMatch(md, body);
    assert md[0..|md|] == md;
    if '$' !in body {
      ExpandLiteral(body, [md, x, body, x]);
    }
  }

  /** When the match spans the whole text, the result is the expanded body alone. */
  lemma {:induction false} ReplaceWholeMatch(md: string, body: string)
    requires CalloutAt(md, 0).Some? && CalloutAt(md, 0).value.end == |md|
    ensures ReplaceCallouts(md, body) == Expand(body, Groups(md, 0, CalloutAt(md, 0).value))
  {
    assert FirstCalloutAt(md, 0) == Some(0);
    assert ReplaceFrom(md, |md|, body) == "";
    assert md[..0] == "";
  }

  /** A body line ending in "$10" loses it: the pattern has no group 10, so the
      reference expands to nothing and the stored markdown is the text before it
      ("Costs $10" in a NOTE callout is stored as "Costs "). */
  lemma {:induction false} MissingGroupDropped(x: string, pre: string)
    requires 1 <= |x| && NoSpace(x)
    requires '$' !in pre && '\n' !in pre
    ensures Unwrap(Begin + x + "\n" + pre + "$10" + End + x) == Ok(Unwrapped(pre, Some(Lower(x))))
  {
    var body := pre + "$10";
    assert Begin + x + "\n" + pre + "$10" + End + x == Begin + x + "\n" + body + End + x;
    NoNewlineNoEnd(body);
    CalloutRoundTrip(x, body);
    DroppedTail(pre, [Begin + x + "\n" + body + End + x, x, body, x]);
  }

  lemma {:induction false} DroppedTail(pre: string, g: seq<string>)
    requires |g| == 4 && '$' !in pre
    ensures Expand(pre + "$10", g) == pre
  {
    ExpandLiteralPrefix(pre, "$10", g);
    ExpandUnknownGroups(g);
  }

  lemma {:induction false} NoNewlineNoEnd(b: string)
    requires '\n' !in b
    ensures !Contains(b, End)
  {
    var r := IndexOf(b, End);
    if r != -1 {
      SliceHead(b, r, r + |End|);
    }
  }

  lemma {:induction false} SliceHead(b: string, i: nat, j: nat)
    requires i < j <= |b|
    ensures b[i..j][0] == b[i] && b[i] in b
  {
  }

  /** A callout whose closer differs from its opener is an error. */
  lemma {:induction false} CalloutMismatchIsError(x: string, body: string, y: string)
    requires 1 <= |x| && 1 <= |y| && 1 <= |body| && x != y
    requires NoSpace(x) && NoSpace(y)
    requires !Contains(body, End)
    ensures Unwrap(Begin + x + "\n" + body + End + y) == Err(CalloutMismatch(x, y))
  {
    WrappedCalloutMatches(x, body, y);
  }
}
