/** The release host's answer and the choice of the asset to download (src/sqruff.rs:42-48, 75-79). */
module Releases {
  import opened Wrappers

  datatype Asset = Asset(name: string, downloadUrl: string)

  /** The latest release: its tag and its assets, in the order the host lists them. */
  datatype Release = Release(version: string, assets: seq<Asset>)

  /** The query sent to the release host: a repository and the release filter. */
  datatype ReleaseQuery = ReleaseQuery(repository: string, requireAssets: bool, preRelease: bool)

  /** The one query the extension makes: the latest non-pre-release with assets of quarylabs/sqruff. */
  const SqruffQuery := ReleaseQuery("quarylabs/sqruff", true, false)

  /**
   * The first asset whose name equals `name` exactly, or None when there is none
   * (the iterator `find` of src/sqruff.rs:75-78).
   */
  function FindAsset(assets: seq<Asset>, name: string): (r: Option<Asset>)
    ensures r.None? <==> forall i :: 0 <= i < |assets| ==> assets[i].name != name
    ensures r.Some? ==> exists i :: 0 <= i < |assets| && assets[i] == r.value && assets[i].name == name
                                    && forall j :: 0 <= j < i ==> assets[j].name != name
  {
    if assets == [] then None
    else if assets[0].name == name then Some(assets[0])
    else
      var r := FindAsset(assets[1..], name);
      assert r.Some? ==> exists i :: 0 <= i < |assets[1..]| && assets[1..][i] == r.value && assets[1..][i].name == name
                                    && forall j :: 0 <= j < i ==> assets[1..][j].name != name;
      if r.Some? then
        var i :| 0 <= i < |assets[1..]| && assets[1..][i] == r.value && assets[1..][i].name == name
                 && forall j :: 0 <= j < i ==> assets[1..][j].name != name;
        assert assets[i + 1] == r.value && forall j :: 0 <= j < i + 1 ==> assets[j].name != name;
        r
      else
        r
  }

  /** The asset chosen is the one at the first index with the wanted name. */
  lemma FindAssetIsFirstMatch(assets: seq<Asset>, name: string, k: nat)
    requires k < |assets| && assets[k].name == name
    requires forall j :: 0 <= j < k ==> assets[j].name != name
    ensures FindAsset(assets, name) == Some(assets[k])
  {
  }
}
