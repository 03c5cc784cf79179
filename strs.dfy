/** The string operations of Go's `strings` and `path/filepath` packages that the
    core relies on, stated over Dafny strings (sequences of Unicode scalar values,
    so a character is one Go rune). */
module Strs {

  predicate StartsWith(s: string, prefix: string) {
    |prefix| <= |s| && s[..|prefix|] == prefix
  }

  predicate EndsWith(s: string, suffix: string) {
    |suffix| <= |s| && s[|s| - |suffix|..] == suffix
  }

  /** strings.TrimPrefix */
  function TrimPrefix(s: string, prefix: string): (r: string)
    ensures StartsWith(s, prefix) ==> prefix + r == s
    ensures !StartsWith(s, prefix) ==> r == s
  {
    if StartsWith(s, prefix) then s[|prefix|..] else s
  }

  /** strings.TrimSuffix */
  function TrimSuffix(s: string, suffix: string): (r: string)
    ensures EndsWith(s, suffix) ==> r + suffix == s
    ensures !EndsWith(s, suffix) ==> r == s
  {
    if EndsWith(s, suffix) then s[..|s| - |suffix|] else s
  }

  /** Position of the first occurrence of `sub` in `s` at or after `from`, or -1. */
  function IndexFrom(s: string, sub: string, from: nat): (r: int)
    requires 0 < |sub|
    ensures r == -1 || (from <= r && r + |sub| <= |s| && s[r..r + |sub|] == sub)
    ensures forall j :: from <= j <= |s| && (r == -1 || j < r) ==> !StartsWith(s[j..], sub)
    decreases |s| - from
  {
    if |s| < from + |sub| then
      -1
    else if s[from..from + |sub|] == sub then from
    else IndexFrom(s, sub, from + 1)
  }

  /** strings.Index for a non-empty needle. */
  function IndexOf(s: string, sub: string): (r: int)
    requires 0 < |sub|
    ensures r == -1 || (0 <= r && r + |sub| <= |s| && s[r..r + |sub|] == sub)
    ensures forall j :: 0 <= j <= |s| && (r == -1 || j < r) ==> !StartsWith(s[j..], sub)
  {
    IndexFrom(s, sub, 0)
  }

  /** strings.Contains */
  predicate Contains(s: string, sub: string) {
    if |sub| == 0 then true else IndexOf(s, sub) >= 0
  }

  /** strings.Split for a non-empty separator: the pieces between the
      non-overlapping occurrences of `sep`, scanning left to right. */
  function Split(s: string, sep: string): (parts: seq<string>)
    requires 0 < |sep|
    ensures 1 <= |parts|
    decreases |s|
  {
    var i := IndexOf(s, sep);
    if i < 0 then [s] else [s[..i]] + Split(s[i + |sep|..], sep)
  }

  /** strings.Join */
  function Join(parts: seq<string>, sep: string): string {
    if |parts| == 0 then ""
    else if |parts| == 1 then parts[0]
    else parts[0] + sep + Join(parts[1..], sep)
  }

  /** Joining the pieces of a split with the same separator gives back the input. */
  lemma {:induction false} JoinSplit(s: string, sep: string)
    requires 0 < |sep|
    ensures Join(Split(s, sep), sep) == s
    decreases |s|
  {
    var i := IndexOf(s, sep);
    if i >= 0 {
      var rest := s[i + |sep|..];
      JoinSplit(rest, sep);
      var tail := Split(rest, sep);
      SplitAt(s, sep);
      JoinCons(s[..i], tail, sep);
      SliceAround(s, i, i + |sep|);
    }
  }

  /** One step of Split: the piece before the first separator, then the split of the rest. */
  lemma {:induction false} SplitAt(s: string, sep: string)
    requires 0 < |sep| && IndexOf(s, sep) >= 0
    ensures var i := IndexOf(s, sep); Split(s, sep) == [s[..i]] + Split(s[i + |sep|..], sep)
  {
  }

  lemma {:induction false} SliceAround(s: string, i: nat, j: nat)
    requires i <= j <= |s|
    ensures s == s[..i] + s[i..j] + s[j..]
  {
  }

  lemma {:induction false} JoinCons(head: string, tail: seq<string>, sep: string)
    requires 1 <= |tail|
    ensures Join([head] + tail, sep) == head + sep + Join(tail, sep)
  {
    assert ([head] + tail)[1..] == tail;
  }

  /** No piece of a split contains the separator. */
  lemma {:induction false} SplitPiecesAvoidSeparator(s: string, sep: string)
    requires 0 < |sep|
    ensures forall p :: p in Split(s, sep) ==> IndexOf(p, sep) == -1
    decreases |s|
  {
    var i := IndexOf(s, sep);
    if i < 0 {
      assert Split(s, sep) == [s];
    } else {
      var head := s[..i];
      SplitPiecesAvoidSeparator(s[i + |sep|..], sep);
      assert Split(s, sep) == [head] + Split(s[i + |sep|..], sep);
      BeforeFirstAvoids(s, sep, i);
    }
  }

  /** The text before the first occurrence of `sep` does not contain it. */
  lemma {:induction false} BeforeFirstAvoids(s: string, sep: string, i: nat)
    requires 0 < |sep| && IndexOf(s, sep) == i
    ensures IndexOf(s[..i], sep) == -1
  {
    var head := s[..i];
    forall j | 0 <= j <= |head| ensures !StartsWith(head[j..], sep) {
      if j + |sep| <= |head| {
        assert head[j..][..|sep|] == s[j..][..|sep|];
      }
    }
    NoneFrom(head, sep, 0);
  }

  /** A text with no occurrence of `sub` from `from` on has none for IndexFrom to find. */
  lemma {:induction false} NoneFrom(s: string, sub: string, from: nat)
    requires 0 < |sub|
    requires forall j :: from <= j <= |s| ==> !StartsWith(s[j..], sub)
    ensures IndexFrom(s, sub, from) == -1
    decreases |s| - from
  {
    if from + |sub| <= |s| {
      assert s[from..][..|sub|] == s[from..from + |sub|];
      NoneFrom(s, sub, from + 1);
    }
  }

  /** The characters of `s`, each preceded by `repl`, followed by one more `repl`:
      what Go's strings.Replace does when the pattern is empty. */
  function InsertAround(s: string, repl: string): (r: string)
    ensures |r| == |s| + (|s| + 1) * |repl|
  {
    if s == [] then repl else repl + [s[0]] + InsertAround(s[1..], repl)
  }

  /** strings.ReplaceAll, including Go's rule for an empty pattern. */
  function ReplaceAll(s: string, pattern: string, repl: string): string {
    if |pattern| == 0 then InsertAround(s, repl) else Join(Split(s, pattern), repl)
  }

  /** unicode.ToLower restricted to ASCII letters. */
  function LowerChar(c: char): char {
    if 'A' <= c <= 'Z' then (c as int + 32) as char else c
  }

  /** strings.ToLower (ASCII case mapping). */
  function Lower(s: string): (r: string)
    ensures |r| == |s|
    ensures forall i :: 0 <= i < |s| ==> r[i] == LowerChar(s[i])
  {
    if s == [] then [] else [LowerChar(s[0])] + Lower(s[1..])
  }

  /** Lowering twice is lowering once, so a lowered key is its own key. */
  lemma {:induction false} LowerIdempotent(s: string)
    ensures Lower(Lower(s)) == Lower(s)
  {
  }

  predicate IsDigit(c: char) { '0' <= c <= '9' }

  predicate IsLetter(c: char) { ('a' <= c <= 'z') || ('A' <= c <= 'Z') }

  /** RE2's \w: ASCII letters, digits and underscore. */
  predicate IsWordChar(c: char) { IsLetter(c) || IsDigit(c) || c == '_' }

  /** RE2's \s: tab, newline, form feed, carriage return and space. */
  predicate IsSpace(c: char) { c == '\t' || c == '\n' || c as int == 12 || c == '\r' || c == ' ' }

  /** `s` without its trailing '/' characters. */
  function TrimTrailingSlashes(s: string): (r: string)
    ensures |r| <= |s| && r == s[..|r|]
    ensures r == [] || r[|r| - 1] != '/'
  {
    if s != [] && s[|s| - 1] == '/' then TrimTrailingSlashes(s[..|s| - 1]) else s
  }

  /** The text after the last '/' of `s` (all of `s` when it has none). */
  function AfterLastSlash(s: string): (r: string)
    ensures '/' !in r
    ensures |r| <= |s| && r == s[|s| - |r|..]
    ensures |r| < |s| ==> s[|s| - |r| - 1] == '/'
  {
    if s == [] then []
    else if s[|s| - 1] == '/' then []
    else AfterLastSlash(s[..|s| - 1]) + [s[|s| - 1]]
  }

  /** The text after a '/' that is followed by no other '/' is what AfterLastSlash keeps. */
  lemma {:induction false} AfterSlashSuffix(a: string, b: string)
    requires '/' !in b
    ensures AfterLastSlash(a + "/" + b) == b
    decreases |b|
  {
    var s := a + "/" + b;
    if b != [] {
      var b' := b[..|b| - 1];
      assert s[..|s| - 1] == a + "/" + b';
      AfterSlashSuffix(a, b');
      assert b == b' + [b[|b| - 1]];
    } else {
      assert s[|s| - 1] == '/';
    }
  }

  /** filepath.Base with '/' as the separator. */
  function BaseName(path: string): (r: string)
    ensures r != []
    ensures r == "/" || '/' !in r
  {
    if path == [] then "."
    else
      var trimmed := TrimTrailingSlashes(path);
      if trimmed == [] then "/" else AfterLastSlash(trimmed)
  }

  /** `s` with every `c` changed to `d`. */
  function MapChar(s: string, c: char, d: char): (r: string)
    ensures |r| == |s|
    ensures forall i :: 0 <= i < |s| ==> r[i] == (if s[i] == c then d else s[i])
  {
    if s == [] then [] else [if s[0] == c then d else s[0]] + MapChar(s[1..], c, d)
  }

  /** strings.Replace of one character by one character, every occurrence, is
      that character mapped in place. */
  lemma {:induction false} ReplaceSingleChar(s: string, c: char, d: char)
    ensures ReplaceAll(s, [c], [d]) == MapChar(s, c, d)
    decreases |s|
  {
    var i := IndexOf(s, [c]);
    CharFreePrefix(s, c);
    if i < 0 {
      assert Split(s, [c]) == [s];
      MapCharAbsent(s, c, d);
    } else {
      var rest := s[i + 1..];
      ReplaceSingleChar(rest, c, d);
      assert Split(s, [c]) == [s[..i]] + Split(rest, [c]);
      JoinCons(s[..i], Split(rest, [c]), [d]);
      MapCharAbsent(s[..i], c, d);
      MapCharAt(s, i, c, d);
    }
  }

  /** No `c` comes before the first match strings.Index finds for it. */
  lemma {:induction false} CharFreePrefix(s: string, c: char)
    ensures var i := IndexOf(s, [c]);
      && (i < 0 ==> c !in s)
      && (i >= 0 ==> s[i] == c && c !in s[..i])
  {
    var i := IndexOf(s, [c]);
    forall j | 0 <= j < |s| && (i < 0 || j < i) ensures s[j] != c {
      assert !StartsWith(s[j..], [c]);
    }
    if i >= 0 {
      assert s[i..i + 1] == [c];
    }
  }

  lemma {:induction false} MapCharAbsent(s: string, c: char, d: char)
    requires c !in s
    ensures MapChar(s, c, d) == s
  {
  }

  lemma {:induction false} MapCharAt(s: string, i: nat, c: char, d: char)
    requires i < |s| && s[i] == c
    ensures MapChar(s, c, d) == MapChar(s[..i], c, d) + [d] + MapChar(s[i + 1..], c, d)
  {
    var r := MapChar(s[..i], c, d) + [d] + MapChar(s[i + 1..], c, d);
    assert |r| == |s|;
    forall j | 0 <= j < |s| ensures r[j] == MapChar(s, c, d)[j] {
      if j > i {
        assert r[j] == MapChar(s[i + 1..], c, d)[j - i - 1];
      } else if j < i {
        assert r[j] == MapChar(s[..i], c, d)[j];
      }
    }
  }

  /** Ten characters: four digits, a separator from `seps`, two digits, a
      separator from `seps`, two digits (`^\d{4}[seps]\d{2}[seps]\d{2}$`). */
  predicate DateLike(s: string, seps: set<char>) {
    && |s| == 10
    && (forall i :: 0 <= i < 10 && i != 4 && i != 7 ==> IsDigit(s[i]))
    && s[4] in seps && s[7] in seps
  }

  /** Splitting a string without the separator character gives the string. */
  lemma {:induction false} SplitWithout(s: string, c: char)
    requires c !in s
    ensures Split(s, [c]) == [s]
  {
    CharFreePrefix(s, c);
  }

  /** Joining one more piece appends the separator and the piece. */
  lemma {:induction false} JoinSnoc(parts: seq<string>, last: string, sep: string)
    requires 1 <= |parts|
    ensures Join(parts + [last], sep) == Join(parts, sep) + sep + last
    decreases |parts|
  {
    if |parts| == 1 {
      assert (parts + [last])[1..] == [last];
    } else {
      assert (parts + [last])[1..] == parts[1..] + [last];
      JoinSnoc(parts[1..], last, sep);
    }
  }
}
