/**
 * The editor extension of src/sqruff.rs: how it finds or installs the `sqruff` language server
 * (`language_server_binary`, src/sqruff.rs:28-107) and the command it hands to the editor
 * (`language_server_command`, src/sqruff.rs:13-25).
 *
 * Everything the editor host answers (the `which` lookup, the platform, the release query, the
 * download, the directory listing) arrives as `Facts`. The calls the extension makes to the host
 * (status events, release queries, downloads) are recorded in order in a `Host`, which also holds
 * the working directory.
 */
module Sqruff {
  import opened Wrappers
  import opened Platform
  import opened Releases
  import opened Workdir

  /** The editor's identifier of the language server, used to key status events. */
  datatype LanguageServerId = LanguageServerId(name: string)

  datatype InstallationStatus = CheckingForUpdate | Downloading

  datatype DownloadRequest = DownloadRequest(url: string, dir: string, kind: DownloadedFileType)

  /** One call the extension makes to the host, in the order it makes them. */
  datatype HostCall =
    | SetStatus(id: LanguageServerId, status: InstallationStatus)
    | QueryRelease(query: ReleaseQuery)
    | Download(request: DownloadRequest)

  /**
   * What `download_file` does: it unpacks an archive holding these relative paths, or fails,
   * possibly after unpacking part of it (`partial`).
   */
  datatype DownloadOutcome =
    | Downloaded(contents: set<string>)
    | DownloadFailed(message: string, partial: set<string>)

  /** The host's answers to every question the extension asks during one call. */
  datatype Facts = Facts(
    which: Option<string>,
    os: Os,
    arch: Architecture,
    release: Result<Release, string>,
    download: DownloadOutcome,
    listing: Result<seq<EntryRead>, string>)

  /** The command the editor runs to start the language server. */
  datatype Command = Command(command: string, args: seq<string>, env: seq<(string, string)>)

  /**
   * Everything one provisioning call does: its result, the host calls it makes in order, the
   * working directory it leaves, and the value it stores in `cached_binary_path` (None when it
   * stores nothing).
   */
  datatype Outcome = Outcome(
    result: Result<string, string>,
    calls: seq<HostCall>,
    fs: FsState,
    stored: Option<string>)

  function VersionDir(version: string): string
  {
    "sqruff-" + version
  }

  function BinaryPath(version: string): string
  {
    VersionDir(version) + "/sqruff"
  }

  /** Rust's `{:?}` of a string with no quote, backslash or control character. */
  function DebugQuote(s: string): string
  {
    "\"" + s + "\""
  }

  function AssetNotFoundMessage(name: string): string
  {
    "no asset found matching " + DebugQuote(name)
  }

  function DownloadErrorMessage(e: string): string
  {
    "failed to download file: " + e
  }

  function ListErrorMessage(e: string): string
  {
    "failed to list working directory " + e
  }

  /** The working directory after a download into `dir`: a failed one keeps whatever it unpacked. */
  function AfterDownload(fs: FsState, dir: string, outcome: DownloadOutcome): FsState
  {
    match outcome
    case Downloaded(contents) => Unpack(fs, dir, contents)
    case DownloadFailed(_, partial) => if partial == {} then fs else Unpack(fs, dir, partial)
  }

  /** The whole effect of `language_server_binary` on a working directory `fs`. */
  function Provision(id: LanguageServerId, facts: Facts, fs: FsState): Outcome
  {
    if facts.which.Some? then
      Outcome(Ok(facts.which.value), [], fs, None)
    else
      var asked := [SetStatus(id, CheckingForUpdate), QueryRelease(SqruffQuery)];
      match facts.release
      case Err(e) => Outcome(Err(e), asked, fs, None)
      case Ok(release) =>
        var name := AssetName(facts.os, facts.arch);
        match FindAsset(release.assets, name)
        case None => Outcome(Err(AssetNotFoundMessage(name)), asked, fs, None)
        case Some(asset) =>
          var dir := VersionDir(release.version);
          var binary := BinaryPath(release.version);
          if binary in fs.files then
            Outcome(Ok(binary), asked, fs, Some(binary))
          else
            var calls := asked + [SetStatus(id, Downloading),
                                  Download(DownloadRequest(asset.downloadUrl, dir, FileKind(facts.os)))];
            var downloaded := AfterDownload(fs, dir, facts.download);
            match facts.download
            case DownloadFailed(e, _) =>
              Outcome(Err(DownloadErrorMessage(e)), calls, downloaded, None)
            case Downloaded(_) =>
              match facts.listing
              case Err(e) =>
                Outcome(Err(ListErrorMessage(e)), calls, downloaded, None)
              case Ok(listing) =>
                var swept := Sweep(downloaded, listing, dir);
                if swept.error.Some? then
                  Outcome(Err(swept.error.value), calls, swept.fs, None)
                else
                  Outcome(Ok(binary), calls, swept.fs, Some(binary))
  }

  /** The host side: what the extension has asked of it, and its working directory. */
  class Host {
    var fs: FsState
    var calls: seq<HostCall>

    constructor (fs: FsState)
      ensures this.fs == fs && calls == []
    {
      this.fs := fs;
      calls := [];
    }

    /** `set_language_server_installation_status` */
    method SetInstallationStatus(id: LanguageServerId, status: InstallationStatus)
      modifies this`calls
      ensures calls == old(calls) + [SetStatus(id, status)]
    {
      calls := calls + [SetStatus(id, status)];
    }

    /** `latest_github_release`: the query is recorded; the environment supplies the answer. */
    method LatestGithubRelease(query: ReleaseQuery, answer: Result<Release, string>)
      returns (r: Result<Release, string>)
      modifies this`calls
      ensures calls == old(calls) + [QueryRelease(query)] && r == answer
    {
      calls := calls + [QueryRelease(query)];
      r := answer;
    }

    /**
     * `download_file`: on success the archive is unpacked into `dir`; a failure may leave part
     * of it unpacked there.
     */
    method DownloadFile(url: string, dir: string, kind: DownloadedFileType, outcome: DownloadOutcome)
      returns (r: Result<(), string>)
      modifies this`calls, this`fs
      ensures calls == old(calls) + [Download(DownloadRequest(url, dir, kind))]
      ensures outcome.Downloaded? ==> r == Ok(()) && fs == Unpack(old(fs), dir, outcome.contents)
      ensures outcome.DownloadFailed? ==> r == Err(outcome.message)
      ensures outcome.DownloadFailed? && outcome.partial == {} ==> fs == old(fs)
      ensures outcome.DownloadFailed? && outcome.partial != {} ==> fs == Unpack(old(fs), dir, outcome.partial)
    {
      calls := calls + [Download(DownloadRequest(url, dir, kind))];
      match outcome
      case Downloaded(contents) =>
        fs := Unpack(fs, dir, contents);
        r := Ok(());
      case DownloadFailed(e, partial) =>
        if partial != {} {
          fs := Unpack(fs, dir, partial);
        }
        r := Err(e);
    }

    /** `metadata(path).is_ok_and(|stat| stat.is_file())` */
    predicate IsFile(path: string)
      reads this
    {
      path in fs.files
    }

    /** `remove_dir_all` on a top-level entry; a failure leaves the entry in place. */
    method RemoveDirAll(name: string, removable: bool) returns (r: Result<(), ()>)
      modifies this`fs
      ensures r.Ok? == removable
      ensures fs == if removable then RemoveAll(old(fs), {name}) else old(fs)
    {
      if removable {
        fs := RemoveAll(fs, {name});
        r := Ok(());
      } else {
        r := Err(());
      }
    }
  }

  class SqruffExtension {
    var cachedBinaryPath: Option<string>

    /** `SqruffExtension::default()` */
    constructor ()
      ensures cachedBinaryPath == None
    {
      cachedBinaryPath := None;
    }

    /** `language_server_binary`: the path of a `sqruff` executable, installing one if need be. */
    method LanguageServerBinary(id: LanguageServerId, host: Host, facts: Facts)
      returns (r: Result<string, string>)
      modifies this, host
      ensures var o := Provision(id, facts, old(host.fs));
        r == o.result
        && host.fs == o.fs
        && host.calls == old(host.calls) + o.calls
        && cachedBinaryPath == if o.stored.Some? then o.stored else old(cachedBinaryPath)
    {
      if facts.which.Some? {
        return Ok(facts.which.value);
      }
      host.SetInstallationStatus(id, CheckingForUpdate);
      var answer := host.LatestGithubRelease(SqruffQuery, facts.release);
      if answer.Err? {
        return Err(answer.error);
      }
      var release := answer.value;
      var assetName := AssetName(facts.os, facts.arch);
      var asset := FindAsset(release.assets, assetName);
      if asset.None? {
        return Err(AssetNotFoundMessage(assetName));
      }
      var versionDir := VersionDir(release.version);
      var binaryPath := versionDir + "/sqruff";
      if !host.IsFile(binaryPath) {
        host.SetInstallationStatus(id, Downloading);
        var downloaded := host.DownloadFile(asset.value.downloadUrl, versionDir, FileKind(facts.os), facts.download);
        if downloaded.Err? {
          return Err(DownloadErrorMessage(downloaded.error));
        }
        if facts.listing.Err? {
          return Err(ListErrorMessage(facts.listing.error));
        }
        var entries := facts.listing.value;
        ghost var unpacked := host.fs;
        ghost var calls := host.calls;
        for i := 0 to |entries|
          invariant Sweep(unpacked, entries, versionDir) == Sweep(host.fs, entries[i..], versionDir)
          invariant host.calls == calls
          invariant cachedBinaryPath == old(cachedBinaryPath)
        {
          match entries[i]
          case EntryError(e) =>
            return Err(EntryErrorMessage(e));
          case Entry(name, removable) =>
            if name != versionDir {
              var _ := host.RemoveDirAll(name, removable);
            }
        }
      }
      cachedBinaryPath := Some(binaryPath);
      return Ok(binaryPath);
    }

    /** `language_server_command`: run the binary with the single argument "lsp" and no environment. */
    method LanguageServerCommand(id: LanguageServerId, host: Host, facts: Facts)
      returns (r: Result<Command, string>)
      modifies this, host
      ensures var o := Provision(id, facts, old(host.fs));
        (r.Ok? <==> o.result.Ok?)
        && (r.Ok? ==> r.value == Command(o.result.value, ["lsp"], []))
        && (r.Err? ==> r.error == o.result.error)
        && host.fs == o.fs
        && host.calls == old(host.calls) + o.calls
        && cachedBinaryPath == if o.stored.Some? then o.stored else old(cachedBinaryPath)
    {
      var command := LanguageServerBinary(id, host, facts);
      if command.Err? {
        return Err(command.error);
      }
      return Ok(Command(command.value, ["lsp"], []));
    }
  }
}
