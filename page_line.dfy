/** One line of a page file: its leading tabs counted as an indent, the rest kept
    as content. */
module PageLines {

  datatype PageLine = PageLine(content: string, indent: nat)

  /** `n` tab characters. */
  function Tabs(n: nat): (r: string)
    ensures |r| == n
    ensures forall i :: 0 <= i < n ==> r[i] == '\t'
  {
    if n == 0 then "" else "\t" + Tabs(n - 1)
  }

  /** Length of the run of tabs that starts `s`. */
  function LeadingTabs(s: string): (n: nat)
    ensures n <= |s|
    ensures forall i :: 0 <= i < n ==> s[i] == '\t'
    ensures n < |s| ==> s[n] != '\t'
  {
    if s == [] || s[0] != '\t' then 0 else 1 + LeadingTabs(s[1..])
  }

  /** NewPageLine: the leading tabs are stripped and counted. Spaces are content. */
  function NewPageLine(line: string): (pl: PageLine)
    ensures pl.indent <= |line|
    ensures Tabs(pl.indent) + pl.content == line
    ensures pl.content == [] || pl.content[0] != '\t'
  {
    var n := LeadingTabs(line);
    assert Tabs(n) == line[..n];
    PageLine(line[n..], n)
  }

  /** The split of a line into tabs and tab-free-headed content is unique, so
      NewPageLine is the only reading of a line that its contract allows. */
  lemma {:induction false} NewPageLineUnique(line: string, content: string, indent: nat)
    requires Tabs(indent) + content == line
    requires content == [] || content[0] != '\t'
    ensures NewPageLine(line) == PageLine(content, indent)
  {
    var pl := NewPageLine(line);
    assert pl.indent == indent by {
      assert forall i :: 0 <= i < indent ==> line[i] == '\t';
      assert indent < |line| ==> line[indent] == content[0];
    }
    assert line[..indent] == Tabs(indent);
    assert content == line[indent..];
  }

  /** Indenting content that does not start with a tab by `n` tabs reads back as
      that content at indent `n`. */
  lemma {:induction false} NewPageLineOfIndented(n: nat, content: string)
    requires content == [] || content[0] != '\t'
    ensures NewPageLine(Tabs(n) + content) == PageLine(content, n)
  {
    NewPageLineUnique(Tabs(n) + content, content, n);
  }

  lemma {:induction false} NewPageLineExamples()
    ensures NewPageLine("") == PageLine("", 0)
    ensures NewPageLine("text") == PageLine("text", 0)
    ensures NewPageLine("  continuation") == PageLine("  continuation", 0)
    ensures NewPageLine("\t- block") == PageLine("- block", 1)
    ensures NewPageLine("\t  continuation") == PageLine("  continuation", 1)
  {
    NewPageLineOfIndented(0, "");
    NewPageLineOfIndented(0, "text");
    NewPageLineOfIndented(0, "  continuation");
    NewPageLineOfIndented(1, "- block");
    NewPageLineOfIndented(1, "  continuation");
  }

  /** LoadPageLines over the lines a scanner has already split: one PageLine per
      line, in order. */
  method LoadPageLines(text: seq<string>) returns (lines: seq<PageLine>)
    ensures |lines| == |text|
    ensures forall i :: 0 <= i < |text| ==> lines[i] == NewPageLine(text[i])
  {
    lines := [];
    for k := 0 to |text|
      invariant |lines| == k
      invariant forall i :: 0 <= i < k ==> lines[i] == NewPageLine(text[i])
    {
      lines := lines + [NewPageLine(text[k])];
    }
  }
}
