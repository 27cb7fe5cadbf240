/** What one call of `language_server_binary` promises, proved of its specification `Provision`. */
module SqruffProperties {
  import opened Wrappers
  import opened Platform
  import opened Releases
  import opened Workdir
  import opened Sqruff

  /** The release was found and has an asset for this platform. */
  predicate AssetFound(facts: Facts)
  {
    facts.release.Ok? && FindAsset(facts.release.value.assets, AssetName(facts.os, facts.arch)).Some?
  }

  /** A `sqruff` on the search path is returned as it is, and nothing else happens. */
  lemma LookupShortCircuits(id: LanguageServerId, facts: Facts, fs: FsState)
    requires facts.which.Some?
    ensures Provision(id, facts, fs) == Outcome(Ok(facts.which.value), [], fs, None)
  {
  }

  /**
   * Without a local binary, the extension first reports that it checks for updates, then asks for
   * one release; if it goes on, it reports Downloading and then downloads once.
   */
  lemma LookupMissQueriesOnce(id: LanguageServerId, facts: Facts, fs: FsState)
    requires facts.which.None?
    ensures var o := Provision(id, facts, fs);
      (|o.calls| == 2 || |o.calls| == 4)
      && o.calls[..2] == [SetStatus(id, CheckingForUpdate), QueryRelease(SqruffQuery)]
      && (|o.calls| == 4 ==> o.calls[2] == SetStatus(id, Downloading) && o.calls[3].Download?)
  {
  }

  /** A failed release query is passed on, and nothing is downloaded, removed or stored. */
  lemma ReleaseFailureIsHarmless(id: LanguageServerId, facts: Facts, fs: FsState)
    requires facts.which.None? && facts.release.Err?
    ensures Provision(id, facts, fs) ==
            Outcome(Err(facts.release.error), [SetStatus(id, CheckingForUpdate), QueryRelease(SqruffQuery)], fs, None)
  {
  }

  /** A release without the platform's asset is an error naming that asset, with no other effect. */
  lemma MissingAssetIsReported(id: LanguageServerId, facts: Facts, fs: FsState)
    requires facts.which.None? && facts.release.Ok?
    requires forall i :: 0 <= i < |facts.release.value.assets| ==>
               facts.release.value.assets[i].name != AssetName(facts.os, facts.arch)
    ensures Provision(id, facts, fs) ==
            Outcome(Err("no asset found matching \"" + AssetName(facts.os, facts.arch) + "\""),
                    [SetStatus(id, CheckingForUpdate), QueryRelease(SqruffQuery)], fs, None)
  {
    var name := AssetName(facts.os, facts.arch);
    assert FindAsset(facts.release.value.assets, name).None?;
    AssetNotFoundMessageQuotesName(name);
  }

  /** The asset-not-found message quotes the expected asset name. */
  lemma AssetNotFoundMessageQuotesName(name: string)
    ensures AssetNotFoundMessage(name) == "no asset found matching \"" + name + "\""
  {
    assert "no asset found matching \"" == "no asset found matching " + "\"";
  }

  /** Something is stored in `cached_binary_path` exactly when a release path is returned, and it is that path. */
  lemma StoredExactlyOnReleasePathSuccess(id: LanguageServerId, facts: Facts, fs: FsState)
    ensures var o := Provision(id, facts, fs);
      (o.stored.Some? <==> o.result.Ok? && facts.which.None?)
      && (o.stored.Some? ==> o.stored.value == o.result.value)
  {
  }

  /**
   * A path obtained through the release is "sqruff-<version>/sqruff", inside the directory
   * "sqruff-<version>"; when the version has no '/', that directory is its first component.
   */
  lemma ReleasePathIsInsideVersionDir(id: LanguageServerId, facts: Facts, fs: FsState)
    requires facts.which.None? && Provision(id, facts, fs).result.Ok?
    ensures facts.release.Ok?
    ensures var path := Provision(id, facts, fs).result.value;
      var version := facts.release.value.version;
      path == "sqruff-" + version + "/sqruff"
      && VersionDir(version) + "/" <= path
      && ('/' !in version ==> Head(path) == VersionDir(version))
  {
    var version := facts.release.value.version;
    var path := Provision(id, facts, fs).result.value;
    if '/' !in version {
      assert '/' !in VersionDir(version);
      HeadOfNested(VersionDir(version), "sqruff");
    }
  }

  /** A regular file at the binary path is trusted: no download, no clean-up, the path is returned. */
  lemma CacheHitSkipsDownload(id: LanguageServerId, facts: Facts, fs: FsState)
    requires facts.which.None? && AssetFound(facts)
    requires BinaryPath(facts.release.value.version) in fs.files
    ensures var binary := BinaryPath(facts.release.value.version);
      Provision(id, facts, fs) ==
      Outcome(Ok(binary), [SetStatus(id, CheckingForUpdate), QueryRelease(SqruffQuery)], fs, Some(binary))
  {
  }

  /**
   * On a cache miss the calls are, in order: CheckingForUpdate, the release query, Downloading,
   * and one download of the chosen asset into the version directory, in the platform's format.
   */
  lemma CacheMissDownloadsChosenAsset(id: LanguageServerId, facts: Facts, fs: FsState)
    requires facts.which.None? && AssetFound(facts)
    requires BinaryPath(facts.release.value.version) !in fs.files
    ensures var release := facts.release.value;
      var asset := FindAsset(release.assets, AssetName(facts.os, facts.arch)).value;
      var o := Provision(id, facts, fs);
      o.calls == [SetStatus(id, CheckingForUpdate), QueryRelease(SqruffQuery), SetStatus(id, Downloading),
                  Download(DownloadRequest(asset.downloadUrl, "sqruff-" + release.version, FileKind(facts.os)))]
      && asset in release.assets && asset.name == AssetName(facts.os, facts.arch)
      && (FileKind(facts.os) == Zip <==> facts.os == Windows)
  {
  }

  /**
   * A failed download is reported before any clean-up: nothing is removed or stored, and
   * anything it left behind lies under the version directory.
   */
  lemma DownloadFailureSkipsCleanup(id: LanguageServerId, facts: Facts, fs: FsState)
    requires facts.which.None? && AssetFound(facts)
    requires BinaryPath(facts.release.value.version) !in fs.files
    requires facts.download.DownloadFailed?
    ensures var o := Provision(id, facts, fs);
      var dir := VersionDir(facts.release.value.version);
      o.result == Err("failed to download file: " + facts.download.message) && o.stored == None
      && fs.entries <= o.fs.entries && fs.files <= o.fs.files
      && (forall n :: n in o.fs.entries && n !in fs.entries ==> n == Head(dir))
      && (forall p :: p in o.fs.files && p !in fs.files ==> dir + "/" <= p)
      && (facts.download.partial == {} ==> o.fs == fs)
  {
    UnpackOnlyAdds(fs, VersionDir(facts.release.value.version), facts.download.partial);
  }

  /** A working directory that cannot be listed is an error after the download, and nothing is removed. */
  lemma ListingFailureAborts(id: LanguageServerId, facts: Facts, fs: FsState)
    requires facts.which.None? && AssetFound(facts)
    requires BinaryPath(facts.release.value.version) !in fs.files
    requires facts.download.Downloaded? && facts.listing.Err?
    ensures var o := Provision(id, facts, fs);
      var dir := VersionDir(facts.release.value.version);
      o.result == Err("failed to list working directory " + facts.listing.error)
      && o.fs == Unpack(fs, dir, facts.download.contents) && o.stored == None
  {
  }

  /**
   * After a download, the clean-up never removes the version directory or anything in it, so
   * the unpacked files and the binary, if the archive held one, are still there.
   */
  lemma CleanupSparesVersionDir(id: LanguageServerId, facts: Facts, fs: FsState)
    requires facts.which.None? && AssetFound(facts)
    requires '/' !in facts.release.value.version
    requires BinaryPath(facts.release.value.version) !in fs.files
    requires facts.download.Downloaded? && facts.listing.Ok?
    ensures var o := Provision(id, facts, fs);
      var version := facts.release.value.version;
      var contents := facts.download.contents;
      VersionDir(version) in o.fs.entries
      && (forall c :: c in contents ==> VersionDir(version) + "/" + c in o.fs.files)
      && ("sqruff" in contents ==> BinaryPath(version) in o.fs.files)
      && (forall p :: p in fs.files && Head(p) == VersionDir(version) ==> p in o.fs.files)
  {
    var version := facts.release.value.version;
    var dir := VersionDir(version);
    var contents := facts.download.contents;
    var unpacked := Unpack(fs, dir, contents);
    assert '/' !in dir;
    UnpackInsideDir(fs, dir, contents);
    assert dir + "/" + "sqruff" == BinaryPath(version);
    forall c | c in contents
      ensures Head(dir + "/" + c) == dir
    {
      HeadOfNested(dir, c);
    }
    SweepSparesKeep(unpacked, facts.listing.value, dir);
  }

  /**
   * After a download, every other listed removable entry read before the first unreadable one is
   * removed, and the call fails exactly when some entry cannot be read.
   */
  lemma CleanupRemovesOthers(id: LanguageServerId, facts: Facts, fs: FsState)
    requires facts.which.None? && AssetFound(facts)
    requires BinaryPath(facts.release.value.version) !in fs.files
    requires facts.download.Downloaded? && facts.listing.Ok?
    ensures var o := Provision(id, facts, fs);
      var dir := VersionDir(facts.release.value.version);
      var listing := facts.listing.value;
      (forall i :: 0 <= i < |listing| && (forall j :: 0 <= j <= i ==> listing[j].Entry?)
            && listing[i].removable && listing[i].name != dir
            ==> listing[i].name !in o.fs.entries)
      && (o.result.Err? <==> exists i :: 0 <= i < |listing| && listing[i].EntryError?)
      && (o.stored.Some? <==> o.result.Ok?)
  {
    var dir := VersionDir(facts.release.value.version);
    var listing := facts.listing.value;
    var unpacked := Unpack(fs, dir, facts.download.contents);
    SweepFailsOnUnreadable(unpacked, listing, dir);
    forall i | 0 <= i < |listing| && (forall j :: 0 <= j <= i ==> listing[j].Entry?)
                 && listing[i].removable && listing[i].name != dir
      ensures listing[i].name !in Sweep(unpacked, listing, dir).fs.entries
    {
      SweepRemovesListed(unpacked, listing, dir, i);
    }
  }

  /** On a cache miss after a successful download, the call ends as the clean-up pass does. */
  lemma CacheMissEndsAsSweep(id: LanguageServerId, facts: Facts, fs: FsState)
    requires facts.which.None? && AssetFound(facts)
    requires BinaryPath(facts.release.value.version) !in fs.files
    requires facts.download.Downloaded? && facts.listing.Ok?
    ensures var o := Provision(id, facts, fs);
      var version := facts.release.value.version;
      var swept := Sweep(Unpack(fs, VersionDir(version), facts.download.contents), facts.listing.value, VersionDir(version));
      o.fs == swept.fs
      && o.result == (if swept.error.Some? then Err(swept.error.value) else Ok(BinaryPath(version)))
  {
  }

  /**
   * When the version directory is nested, "top/sub", a listing that shows the entry "top" makes
   * the clean-up remove it, and with it everything just unpacked.
   */
  lemma NestedSweepRemovesInstall(top: string, sub: string, contents: set<string>)
    requires '/' !in top
    ensures var dir := top + "/" + sub;
      Sweep(Unpack(FsState({}, {}), dir, contents), [Entry(top, true)], dir) == SweepResult(FsState({}, {}), None)
  {
    var dir := top + "/" + sub;
    HeadOfNested(top, sub);
    forall c | c in contents
      ensures Head(dir + "/" + c) == top
    {
      assert dir + "/" + c == top + "/" + (sub + "/" + c);
      HeadOfNested(top, sub + "/" + c);
    }
    var unpacked := Unpack(FsState({}, {}), dir, contents);
    assert unpacked.entries == {top};
    assert top != dir by { assert |top| < |dir|; }
    assert RemoveAll(unpacked, {top}) == FsState({}, {});
  }


  /**
   * A tag containing '/' nests the version directory, and the clean-up then removes the entry
   * holding the new install. With version "a/b" and a listing that shows the entry "sqruff-a",
   * the call returns "sqruff-a/b/sqruff" but leaves no entry and no binary behind.
   */
  lemma NestedVersionLosesInstall(id: LanguageServerId, facts: Facts, first: string, rest: string)
    requires facts.which.None? && AssetFound(facts)
    requires '/' !in first && facts.release.value.version == first + "/" + rest
    requires facts.download.Downloaded? && facts.listing == Ok([Entry("sqruff-" + first, true)])
    ensures var o := Provision(id, facts, FsState({}, {}));
      var path := BinaryPath(facts.release.value.version);
      o.result == Ok(path) && o.fs.entries == {} && path !in o.fs.files
  {
    CacheMissEndsAsSweep(id, facts, FsState({}, {}));
    assert VersionDir(facts.release.value.version) == ("sqruff-" + first) + "/" + rest;
    assert '/' !in "sqruff-" + first;
    NestedSweepRemovesInstall("sqruff-" + first, rest, facts.download.contents);
  }




  /**
   * A fresh install whose listing shows every entry, each readable and removable, succeeds and
   * leaves the version directory as the only entry, holding every remaining file.
   */
  lemma FreshInstallLeavesOnlyVersionDir(id: LanguageServerId, facts: Facts, fs: FsState)
    requires facts.which.None? && AssetFound(facts)
    requires '/' !in facts.release.value.version
    requires BinaryPath(facts.release.value.version) !in fs.files
    requires facts.download.Downloaded? && facts.listing.Ok?
    requires Consistent(fs)
    requires var listing := facts.listing.value;
      (forall i :: 0 <= i < |listing| ==> listing[i].Entry?)
      && forall n :: n in fs.entries + {VersionDir(facts.release.value.version)} ==> Entry(n, true) in listing
    ensures var o := Provision(id, facts, fs);
      var dir := VersionDir(facts.release.value.version);
      o.result == Ok(dir + "/sqruff") && o.fs.entries == {dir}
      && (forall p :: p in o.fs.files ==> Head(p) == dir)
  {
    var dir := VersionDir(facts.release.value.version);
    var contents := facts.download.contents;
    var unpacked := Unpack(fs, dir, contents);
    assert '/' !in dir;
    UnpackInsideDir(fs, dir, contents);
    assert unpacked.entries == fs.entries + {dir};
    SweepLeavesOnlyKeep(unpacked, facts.listing.value, dir);
  }

  /** Linux on x86_64 picks the musl tarball; Windows finds nothing among Linux and macOS builds. */
  lemma AssetSelectionExample()
    ensures var assets := [Asset("sqruff-linux-x86_64-musl.tar.gz", "u1"), Asset("sqruff-darwin-aarch64.tar.gz", "u2")];
      FindAsset(assets, AssetName(Linux, X86_64)) == Some(assets[0])
      && forall arch :: FindAsset(assets, AssetName(Windows, arch)).None?
  {
    var assets := [Asset("sqruff-linux-x86_64-musl.tar.gz", "u1"), Asset("sqruff-darwin-aarch64.tar.gz", "u2")];
    LinuxAssetNames();
    forall arch
      ensures FindAsset(assets, AssetName(Windows, arch)).None?
    {
      SuffixIsZipExactlyOnWindows(Windows, arch);
      SuffixIsZipExactlyOnWindows(Linux, X86_64);
      SuffixIsZipExactlyOnWindows(Mac, Aarch64);
      MacAssetNames();
    }
  }
}
