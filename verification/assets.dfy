/** Assets in the media store, the lookup by id, and the upload of a single local file. */
module Assets {
  import opened Wrappers
  import opened Text
  import opened Paths

  /** A file held by an asset, known by its name. */
  datatype AssetFile = AssetFile(name: string)

  /** An asset: its store-assigned id, its display name and its files in order. */
  datatype Asset = Asset(id: string, name: string, files: seq<AssetFile>)

  /** The prefix that marks a command-line target as the id of an existing asset. */
  const AssetIdPrefix: string := "nb:cid"

  /** True when a target names an existing asset rather than a local file to upload. */
  function IsAssetId(target: string): (b: bool)
    ensures b <==> |AssetIdPrefix| <= |target| && target == AssetIdPrefix + target[|AssetIdPrefix|..]
  {
    StartsWith(target, AssetIdPrefix)
  }

  /** Reference definition: position i holds the first asset whose id is exactly assetId. */
  predicate IsFirstWithId(store: seq<Asset>, assetId: string, i: int)
  {
    0 <= i < |store| && store[i].id == assetId && forall j :: 0 <= j < i ==> store[j].id != assetId
  }

  /** GetAsset: the first asset whose id equals assetId, or null when there is none. */
  function GetAsset(store: seq<Asset>, assetId: string): (r: Option<Asset>)
    ensures r.None? <==> forall a :: a in store ==> a.id != assetId
    ensures r.Some? ==> exists i :: IsFirstWithId(store, assetId, i) && store[i] == r.value
  {
    if |store| == 0 then None
    else if store[0].id == assetId then
      assert IsFirstWithId(store, assetId, 0);
      Some(store[0])
    else
      var r := GetAsset(store[1..], assetId);
      assert store == [store[0]] + store[1..];
      if r.Some? then
        var i :| IsFirstWithId(store[1..], assetId, i) && store[1..][i] == r.value;
        assert IsFirstWithId(store, assetId, i + 1);
        r
      else r
  }

  /** The first matching position is unique, so the lookup's answer is fully determined. */
  lemma GetAssetIsFirst(store: seq<Asset>, assetId: string, i: int)
    requires IsFirstWithId(store, assetId, i)
    ensures GetAsset(store, assetId) == Some(store[i])
  {
    assert store[i] in store;
    var r := GetAsset(store, assetId);
    var k :| IsFirstWithId(store, assetId, k) && store[k] == r.value;
  }

  /** A found asset is in the store and carries the id asked for. */
  lemma GetAssetFound(store: seq<Asset>, assetId: string)
    ensures GetAsset(store, assetId).Some? ==> GetAsset(store, assetId).value in store && GetAsset(store, assetId).value.id == assetId
  {
    if GetAsset(store, assetId).Some? {
      var i :| IsFirstWithId(store, assetId, i) && store[i] == GetAsset(store, assetId).value;
    }
  }

  /**
   * CreateAssetAndUploadSingleFile: a new asset named assetName whose single file carries the
   * base name of the local path. The store assigns the id.
   */
  function UploadSingleFile(newId: string, filePath: string, assetName: string): (a: Asset)
    ensures a.id == newId && a.name == assetName && |a.files| == 1
    ensures NoSeparator(a.files[0].name)
    ensures |a.files[0].name| <= |filePath| && filePath[|filePath| - |a.files[0].name|..] == a.files[0].name
    ensures |a.files[0].name| < |filePath| ==> IsSeparator(filePath[|filePath| - |a.files[0].name| - 1])
  {
    var base := GetFileName(filePath);
    Asset(newId, assetName, [AssetFile(base)])
  }

  /**
   * A file uploaded from dir\name, for a name with no separator, is stored under name: the
   * same name the download later joins to the result directory.
   */
  lemma UploadKeepsFileName(newId: string, dir: string, name: string, assetName: string)
    requires |name| > 0 && NoSeparator(name)
    ensures UploadSingleFile(newId, Combine(dir, name), assetName).files == [AssetFile(name)]
  {
    FileNameRoundTrip(dir, name);
  }
}
