/** Assets: the non-note files of a graph (images and the like). */
module Assets {
  import opened Common
  import opened Strs

  datatype Asset = Asset(name: string, pathInGraph: string, pathInSite: string)

  /** NewAsset: an asset found at `pathInGraph`, published at the same path. */
  function NewAsset(pathInGraph: string): (a: Asset)
    ensures a.pathInGraph == pathInGraph && a.pathInSite == pathInGraph
    ensures a.name != [] && (a.name == "/" || '/' !in a.name)
  {
    Asset(BaseName(pathInGraph), pathInGraph, pathInGraph)
  }

  /** An asset's name is the last element of its path: the path ends with the
      name, right after a '/' or at its start, and the name holds no '/'. */
  lemma {:induction false} NewAssetNameIsLastElement(pathInGraph: string)
    requires pathInGraph != [] && pathInGraph[|pathInGraph| - 1] != '/'
    ensures var n := NewAsset(pathInGraph).name;
      && '/' !in n && n != []
      && |n| <= |pathInGraph| && pathInGraph[|pathInGraph| - |n|..] == n
      && (|n| < |pathInGraph| ==> pathInGraph[|pathInGraph| - |n| - 1] == '/')
  {
    BaseNameUntrimmed(pathInGraph);
    var n := AfterLastSlash(pathInGraph);
    assert n != [] && n == NewAsset(pathInGraph).name;
  }

  /** A path that does not end with '/' keeps everything after its last '/'. */
  lemma {:induction false} BaseNameUntrimmed(path: string)
    requires path != [] && path[|path| - 1] != '/'
    ensures BaseName(path) == AfterLastSlash(path)
  {
    assert TrimTrailingSlashes(path) == path;
  }

  /** An asset in a directory is named by its file name: "assets/test.jpg"
      gives "test.jpg". */
  lemma {:induction false} NewAssetInDirectory(dir: string, file: string)
    requires file != [] && '/' !in file
    ensures NewAsset(dir + "/" + file).name == file
  {
    var p := dir + "/" + file;
    assert p[|p| - 1] == file[|file| - 1];
    BaseNameUntrimmed(p);
    AfterSlashSuffix(dir, file);
  }

  /** InContext: the asset's path as the graph knows it, or an error when the
      graph's assets, keyed by path, have nothing at that path. */
  function InContext(a: Asset, known: map<string, Asset>): (r: Result<string>)
    ensures r.Err? <==> a.pathInGraph !in known
    ensures r.Err? ==> r.error == AssetNotFound(a.pathInGraph)
    ensures r.Ok? ==> r.value == known[a.pathInGraph].pathInGraph
  {
    if a.pathInGraph in known then Ok(known[a.pathInGraph].pathInGraph)
    else Err(AssetNotFound(a.pathInGraph))
  }
}
