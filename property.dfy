/** Block properties (`name:: value` lines) and their typed readings. */
module Properties {
  import opened Common
  import opened Strs

  datatype Property = Property(name: string, value: string)
  {
    /** The value is written as a page link, `[[...]]`. */
    predicate IsPageLink() {
      StartsWith(value, "[[") && EndsWith(value, "]]")
    }

    /** The value with the page-link brackets removed, if it has them. */
    function String(): (r: string)
      ensures IsPageLink() ==> "[[" + r + "]]" == value
      ensures !IsPageLink() ==> r == value
    {
      if IsPageLink() then
        PageLinkLength(value);
        var inner := TrimSuffix(TrimPrefix(value, "[["), "]]");
        var rest := value[2..];
        assert rest[|rest| - 2..] == value[|value| - 2..];
        assert value == "[[" + rest;
        inner
      else value
    }

    predicate Bool() {
      value == "true"
    }

    /** The value split on ", ". */
    function List(): (r: seq<string>)
      ensures 1 <= |r|
    {
      Split(value, ", ")
    }
  }

  /** The items of a list value, joined back with ", ", give the value, and no
      item holds the separator. */
  lemma {:induction false} ListRoundTrip(p: Property)
    ensures Join(p.List(), ", ") == p.value
    ensures forall item :: item in p.List() ==> IndexOf(item, ", ") == -1
  {
    JoinSplit(p.value, ", ");
    SplitPiecesAvoidSeparator(p.value, ", ");
  }

  lemma {:induction false} PageLinkLength(v: string)
    requires StartsWith(v, "[[") && EndsWith(v, "]]")
    ensures |v| >= 4
  {
    assert v[0] == v[..2][0] == '[' && v[1] == v[..2][1] == '[';
    assert v[|v| - 2] == v[|v| - 2..][0] == ']';
  }

  /** Reading a page link back gives the page name it was written from. */
  lemma {:induction false} StringOfPageLink(name: string, page: string)
    ensures Property(name, "[[" + page + "]]").String() == page
  {
    var p := Property(name, "[[" + page + "]]");
    assert StartsWith(p.value, "[[") && EndsWith(p.value, "]]");
  }

  lemma {:induction false} StringExamples()
    ensures Property("test", "value").String() == "value"
    ensures Property("test", "").String() == ""
    ensures Property("test", "[[value]]").String() == "value"
  {
    StringOfPageLink("test", "value");
    assert "value"[..2] != "[[" by { assert "value"[..2][0] == 'v'; }
  }

  lemma {:induction false} IsPageLinkExamples()
    ensures Property("test", "[[page]]").IsPageLink()
    ensures !Property("test", "page").IsPageLink() && !Property("test", "").IsPageLink()
  {
    assert "page"[..2] != "[[" by { assert "page"[..2][0] == 'p'; }
    assert "[[page]]"[..2] == "[[";
    assert "[[page]]"[6..] == "]]";
  }

  lemma {:induction false} ListExample()
    ensures Property("test", "a, b, c").List() == ["a", "b", "c"]
  {
    var v := "a, b, c";
    ListTail();
    assert v == ['a'] + ", " + "b, c";
    ListHead('a', "b, c");
  }

  lemma {:induction false} ListTail()
    ensures Split("b, c", ", ") == ["b", "c"]
  {
    assert "b, c" == ['b'] + ", " + "c";
    ListHead('b', "c");
    assert IndexOf("c", ", ") == -1;
  }

  /** A one-character item followed by the separator splits off first. */
  lemma {:induction false} ListHead(a: char, rest: string)
    requires a != ','
    ensures Split([a] + ", " + rest, ", ") == [[a]] + Split(rest, ", ")
  {
    var s := [a] + ", " + rest;
    assert s[0..2] != ", " by { assert s[0..2][0] == a; }
    assert s[1..3] == ", ";
    assert IndexFrom(s, ", ", 1) == 1;
    assert IndexOf(s, ", ") == 1;
    SplitAt(s, ", ");
    assert s[..1] == [a] && s[3..] == rest;
  }

  /** A block's properties by name; setting a name again overwrites its value. */
  type PropertyMap = map<string, string>

  /** PropertyMap.Get: the named property, if present. */
  function Get(pm: PropertyMap, name: string): (r: Option<Property>)
    ensures r.Some? <==> name in pm
    ensures r.Some? ==> r.value.name == name && r.value.value == pm[name]
  {
    if name in pm then Some(Property(name, pm[name])) else None
  }

  /** PropertyMap.Set */
  function Set(pm: PropertyMap, name: string, value: string): (r: PropertyMap)
    ensures r.Keys == pm.Keys + {name}
    ensures Get(r, name) == Some(Property(name, value))
    ensures forall other :: other != name && other in pm ==> Get(r, other) == Get(pm, other)
  {
    pm[name := value]
  }

  /** The value of the named property, or "" when it is absent (the value of the
      zero Property that Get hands back on a miss). */
  function ValueOf(pm: PropertyMap, name: string): (r: string)
    ensures Get(pm, name).Some? ==> r == Get(pm, name).value.value
    ensures Get(pm, name).None? ==> r == ""
  {
    if name in pm then pm[name] else ""
  }
}
