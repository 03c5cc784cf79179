/** The naming half of LoadPage: a page file's name becomes the page's name,
    title, namespace and path. `unescape` stands for url.QueryUnescape (None
    when the name does not decode) and `slugify` for slug.Make. */
module PageNames {
  import opened Common
  import opened Strs

  const PagesNamespace := "pages"
  const JournalsNamespace := "journals"

  /** A journal file is named after its date, `dddd_dd_dd`. */
  predicate IsJournalFileName(s: string) {
    DateLike(s, {'_'})
  }

  datatype Naming = Naming(name: string, title: string, namespace: string, path: string)

  /** The base name of the file with each `___` read as `/` and `.md` dropped. */
  function FileStem(pageFile: string): string {
    TrimSuffix(ReplaceAll(BaseName(pageFile), "___", "/"), ".md")
  }

  /** slug.Make applied to each step of a name. */
  function Slugs(steps: seq<string>, slugify: string -> string): (r: seq<string>)
    ensures |r| == |steps| && forall i :: 0 <= i < |steps| ==> r[i] == slugify(steps[i])
  {
    seq(|steps|, i requires 0 <= i < |steps| => slugify(steps[i]))
  }

  /** The name, title, namespace and path of a page whose decoded name is
      `name`: a name of several `/` steps has its last step as title and the
      steps before it under the namespace; a name of one step keeps the stem,
      as it was before decoding, as title. */
  function NamingOf(stem: string, name: string, base: string, slugify: string -> string): Naming {
    var steps := Split(name, "/");
    var title := if |steps| > 1 then steps[|steps| - 1] else stem;
    var namespace := if |steps| > 1 then base + "/" + Join(steps[..|steps| - 1], "/") else base;
    Naming(name, title, namespace, Join(Slugs(steps, slugify), "/"))
  }

  /** LoadPage's derivation of the page's name, title, namespace and path. A
      journal's name is its date with dashes; any other name is decoded, and a
      name that does not decode is an error. */
  function DerivePageName(pageFile: string, unescape: string -> Option<string>, slugify: string -> string): Result<Naming>
  {
    var stem := FileStem(pageFile);
    var decoded: Option<string> := if IsJournalFileName(stem) then Some(ReplaceAll(stem, "_", "-")) else unescape(stem);
    var base := if IsJournalFileName(stem) then JournalsNamespace else PagesNamespace;
    match decoded
      case None => Err(PageNameDecode(stem))
      case Some(name) => Ok(NamingOf(stem, name, base, slugify))
  }

  /** A name of several steps: the title is its last step and holds no `/`,
      the namespace is the base namespace, a `/` and the steps before it, so
      namespace, `/` and title spell out the base namespace, `/` and the whole
      name. The path is the steps' slugs joined by `/`. */
  lemma {:induction false} NestedNaming(stem: string, name: string, base: string, slugify: string -> string)
    requires |Split(name, "/")| > 1
    ensures var r := NamingOf(stem, name, base, slugify);
      && r.name == name
      && '/' !in r.title
      && r.namespace + "/" + r.title == base + "/" + name
      && r.path == Join(Slugs(Split(name, "/"), slugify), "/")
  {
    var steps := Split(name, "/");
    var last := steps[|steps| - 1];
    StepsRejoin(name);
    SplitPiecesAvoidSeparator(name, "/");
    assert last in steps;
    CharFreePrefix(last, '/');
    assert base + "/" + Join(steps[..|steps| - 1], "/") + "/" + last == base + "/" + (Join(steps[..|steps| - 1], "/") + "/" + last);
  }

  /** The steps before the last, joined, then `/` and the last step: the name. */
  lemma {:induction false} StepsRejoin(name: string)
    requires |Split(name, "/")| > 1
    ensures var steps := Split(name, "/");
      Join(steps[..|steps| - 1], "/") + "/" + steps[|steps| - 1] == name
  {
    var steps := Split(name, "/");
    var init := steps[..|steps| - 1];
    JoinSplit(name, "/");
    assert steps == init + [steps[|steps| - 1]];
    JoinSnoc(init, steps[|steps| - 1], "/");
  }

  /** A name of one step: the title is the stem, the namespace is the base one
      and the path is the slug of the name. */
  lemma {:induction false} FlatNaming(stem: string, name: string, base: string, slugify: string -> string)
    requires '/' !in name
    ensures NamingOf(stem, name, base, slugify) == Naming(name, stem, base, slugify(name))
  {
    SplitWithout(name, '/');
    assert Slugs([name], slugify) == [slugify(name)];
  }

  /** A journal file: the name is the date with `_` turned into `-` (so it has
      the `dddd-dd-dd` shape journals are recognised by), the namespace is
      "journals", the path is the slug of the whole name, and the title is the
      stem as written, underscores and all. */
  lemma {:induction false} JournalNaming(pageFile: string, unescape: string -> Option<string>, slugify: string -> string)
    requires IsJournalFileName(FileStem(pageFile))
    ensures var stem := FileStem(pageFile);
      DerivePageName(pageFile, unescape, slugify) ==
        Ok(Naming(MapChar(stem, '_', '-'), stem, JournalsNamespace, slugify(MapChar(stem, '_', '-'))))
    ensures DateLike(DerivePageName(pageFile, unescape, slugify).value.name, {'-'})
  {
    var stem := FileStem(pageFile);
    var name := MapChar(stem, '_', '-');
    ReplaceSingleChar(stem, '_', '-');
    JournalDate(stem);
    FlatNaming(stem, name, JournalsNamespace, slugify);
  }

  /** A journal file's date with dashes has the dashed date shape and no `/`. */
  lemma {:induction false} JournalDate(stem: string)
    requires IsJournalFileName(stem)
    ensures DateLike(MapChar(stem, '_', '-'), {'-'}) && '/' !in MapChar(stem, '_', '-')
  {
    var name := MapChar(stem, '_', '-');
    forall i | 0 <= i < |name| ensures name[i] != '/' {
      if i != 4 && i != 7 {
        assert IsDigit(stem[i]);
      }
    }
  }

  /** Any other file whose stem does not decode is refused with a decoding
      error; one that decodes keeps the decoded name and lands under the
      "pages" namespace. */
  lemma {:induction false} PageNaming(pageFile: string, unescape: string -> Option<string>, slugify: string -> string)
    requires !IsJournalFileName(FileStem(pageFile))
    ensures var stem := FileStem(pageFile);
      && (unescape(stem).None? <==> DerivePageName(pageFile, unescape, slugify).Err?)
      && (unescape(stem).None? ==> DerivePageName(pageFile, unescape, slugify) == Err(PageNameDecode(stem)))
      && (unescape(stem).Some? ==>
            DerivePageName(pageFile, unescape, slugify) == Ok(NamingOf(stem, unescape(stem).value, PagesNamespace, slugify)))
  {
  }
}
