# sqruff-zed: provisioning the sqruff language server

This project models the Zed editor extension for sqruff, a SQL linter and formatter, and proves
properties of the model. The extension answers one question from the editor: which command starts
the `sqruff` language server? It answers in one of two ways:

1. If `sqruff` is on the worktree's search path, it uses that binary.
2. Otherwise it asks GitHub for the latest release of `quarylabs/sqruff`. It picks the asset built
   for the host platform and downloads and unpacks it into `sqruff-<version>/`, unless a regular
   file already exists at `sqruff-<version>/sqruff`. After a download it removes every other entry
   of its working directory. It stores the path in `cached_binary_path` and returns it.

Modules:

- `Platform`: the asset name for an (OS, architecture) pair, and the archive kind.
- `Releases`: the release the host returns, the query sent for it, and the choice of asset.
- `Workdir`: the working directory, abstracted to its top-level entry names and its regular-file
  paths, and `Sweep`, the clean-up pass.
- `Sqruff`: the host (`Host`), the extension (`SqruffExtension`) and its two operations. It also
  holds `Provision`, a pure function giving everything one provisioning call does.
  `SqruffExtension.LanguageServerBinary` is imperative, with the clean-up loop written out, and is
  proved equal to `Provision`.
- `SqruffProperties`: the promises of one call, proved as lemmas about `Provision`.

The host's answers arrive as a `Facts` value. These are the `which` result, the platform, the
release or its error, the download outcome and the directory listing. Each listed entry says
whether it can be read and whether removing it succeeds. A failed download says which files it
unpacked before failing. A `Host` object records every call the extension makes to the host in one
ordered log: status events, release queries and download requests. It also holds the working
directory.

Points where the code behaves differently from what one might expect, all modelled as the code has them:

- A failed directory listing and an unreadable directory entry abort the call with an error
  (src/sqruff.rs:95-98). They are not ignored. Only failed removals are ignored (src/sqruff.rs:100).
- No `Idle` status is ever sent. Only `CheckingForUpdate` and `Downloading` are.
- `cached_binary_path` is written (src/sqruff.rs:105) but never read. Setting it has no effect on
  later calls. The model keeps it as a field that is only written.
- A removal that would take the version directory is skipped by name only. If a version tag contains
  '/', the version directory is nested and its top-level entry has a different name, so the
  clean-up would remove it. `SqruffProperties.NestedVersionLosesInstall` shows this happening.
  The lemmas that promise the version directory survives therefore assume the version has no '/'.

## Model

| member | source | states |
|---|---|---|
| Platform.MacAssetNames | src/sqruff.rs:51-73 | the three macOS asset names, "sqruff-darwin-<arch>.tar.gz" |
| Platform.LinuxAssetNames | src/sqruff.rs:51-73 | the three Linux asset names; Aarch64 and X86_64 get the "-musl" variants |
| Platform.WindowsAssetNames | src/sqruff.rs:51-73 | the three Windows asset names, ending in ".zip" |
| Platform.AssetNameLayout | src/sqruff.rs:51-73 | an asset name is "sqruff-", the OS token, "-", the architecture token, "." and the suffix, at known positions |
| Platform.SuffixIsZipExactlyOnWindows | src/sqruff.rs:67-73 | the name ends in ".zip" exactly on Windows, and in ".tar.gz" on every other OS |
| Platform.FileKindMatchesSuffix | src/sqruff.rs:89-92 | the archive is unpacked as zip exactly when the suffix is "zip", and as gzip-tar exactly when it is "tar.gz" |
| Platform.MuslExactlyOnLinux64 | src/sqruff.rs:58-64 | the architecture token ends in "-musl" exactly when the OS is Linux and the architecture is not X86 |
| Platform.AssetNameInjective | src/sqruff.rs:51-73 | two (OS, architecture) pairs with the same asset name are the same pair |
| Platform.AssetNameIsPlain | src/sqruff.rs:79 | every asset-name character is a lower-case letter, a digit, '.', '-' or '_', so `{:?}` only adds quotes |
| Releases.FindAsset | src/sqruff.rs:75-79 | None exactly when no asset has the name; otherwise an asset with that name at an index before which no asset has it |
| Releases.FindAssetIsFirstMatch | src/sqruff.rs:75-78 | the asset chosen is the one at the first index whose name matches exactly |
| Workdir.Head | src/sqruff.rs:81-82 | the first component of a path is its longest prefix without '/' |
| Workdir.HeadOfName | src/sqruff.rs:99 | an entry name without '/' is its own first component |
| Workdir.HeadOfNested | src/sqruff.rs:81-82 | a path "dir/rest" with no '/' in dir lies inside the entry dir |
| Workdir.RemoveAllTwice | src/sqruff.rs:97-102 | removing entries in two rounds is removing them all at once |
| Workdir.UnpackOnlyAdds | src/sqruff.rs:93-94 | unpacking removes nothing, adds at most the entry of the directory's first component, and adds only files under "dir/" |
| Workdir.UnpackInsideDir | src/sqruff.rs:93-94 | unpacking into dir creates the entry dir and puts every unpacked file inside it, keeping every file inside some entry |
| Workdir.ReadCount | src/sqruff.rs:97-98 | the number of entries read before the first unreadable one: all before it are readable, the one at it is not |
| Workdir.SweepRemovesTargets | src/sqruff.rs:95-102 | the clean-up removes exactly the removable entries not named the version directory that are read before the first read error, and fails with that error's message |
| Workdir.SweepSparesKeep | src/sqruff.rs:99-100 | the clean-up only removes; it never removes the version directory or a file inside it, and untargeted entries survive |
| Workdir.SweepRemovesListed | src/sqruff.rs:97-102 | every removable entry read before any error, other than the version directory, is gone with all its files |
| Workdir.SweepFailsOnUnreadable | src/sqruff.rs:98 | the clean-up fails exactly when some entry cannot be read |
| Workdir.SweepLeavesOnlyKeep | src/sqruff.rs:95-102 | when every entry is listed, readable and removable, only the version directory remains, holding every remaining file |
| Sqruff.Host.constructor | src/sqruff.rs:28-32 | a host with the given working directory and no calls logged yet |
| Sqruff.Host.SetInstallationStatus | src/sqruff.rs:37-40 | appends one status call keyed by the language-server id to the log, and changes nothing else |
| Sqruff.Host.LatestGithubRelease | src/sqruff.rs:42-48 | appends the query to the log and returns the host's answer |
| Sqruff.Host.DownloadFile | src/sqruff.rs:93-94 | appends the download to the log; on success the archive is unpacked into the directory; on failure the error is returned and whatever was partly unpacked stays |
| Sqruff.Host.RemoveDirAll | src/sqruff.rs:100 | removes the entry and every file inside it when removal succeeds, and otherwise changes nothing |
| Sqruff.SqruffExtension.constructor | src/sqruff.rs:3-11 | a new extension has no cached binary path |
| Sqruff.SqruffExtension.LanguageServerBinary | src/sqruff.rs:28-107 | the result, the host calls made in order, the new working directory and the new `cached_binary_path` are those `Provision` gives for the old working directory |
| Sqruff.SqruffExtension.LanguageServerCommand | src/sqruff.rs:13-25 | succeeds exactly when provisioning does, with the path as command, args ["lsp"] and an empty env; otherwise returns provisioning's error; same effects as provisioning |
| SqruffProperties.LookupShortCircuits | src/sqruff.rs:33-35 | a path from `which` is returned unchanged, with no event, query, download, file change or cache store |
| SqruffProperties.LookupMissQueriesOnce | src/sqruff.rs:37-93 | without a local binary: first a CheckingForUpdate event, then one query for quarylabs/sqruff's latest non-pre-release with assets; any further calls are a Downloading event followed by one download |
| SqruffProperties.ReleaseFailureIsHarmless | src/sqruff.rs:42-48 | a failed release query is returned as the error; the working directory and cache are untouched and nothing is downloaded |
| SqruffProperties.MissingAssetIsReported | src/sqruff.rs:75-79 | with no asset of the computed name, the error quotes that name; the working directory and cache are untouched and nothing is downloaded |
| SqruffProperties.AssetNotFoundMessageQuotesName | src/sqruff.rs:79 | the message is "no asset found matching " followed by the name in double quotes |
| SqruffProperties.StoredExactlyOnReleasePathSuccess | src/sqruff.rs:105-106 | `cached_binary_path` is set exactly when a path obtained through the release is returned, and to that path |
| SqruffProperties.ReleasePathIsInsideVersionDir | src/sqruff.rs:81-82 | a path obtained through the release is "sqruff-<version>/sqruff", inside "sqruff-<version>/" |
| SqruffProperties.CacheHitSkipsDownload | src/sqruff.rs:84-103 | with a regular file at the binary path: no Downloading event, no download, no clean-up; the path is returned and stored |
| SqruffProperties.CacheMissDownloadsChosenAsset | src/sqruff.rs:84-94 | on a cache miss the calls are, in order, CheckingForUpdate, the release query, Downloading, and one download of the matching asset's URL into the version directory, as zip exactly on Windows |
| SqruffProperties.DownloadFailureSkipsCleanup | src/sqruff.rs:93-94 | a failed download is an error prefixed "failed to download file: "; nothing is removed or stored; anything left behind lies under the version directory; with nothing unpacked the directory is unchanged |
| SqruffProperties.ListingFailureAborts | src/sqruff.rs:95-96 | a failed listing is an error after the download; only the unpacked files were added and nothing is removed or stored |
| SqruffProperties.CleanupSparesVersionDir | src/sqruff.rs:93-102 | after a download, for a version without '/', the version directory, the unpacked files, the binary and older files inside that directory survive |
| SqruffProperties.CleanupRemovesOthers | src/sqruff.rs:95-106 | after a download, every other removable entry read before any error is removed; the call fails exactly when an entry is unreadable, and stores the path exactly when it succeeds |
| SqruffProperties.CacheMissEndsAsSweep | src/sqruff.rs:93-106 | after a successful download, the call leaves the directory the clean-up leaves, and fails with its error or returns the binary path |
| SqruffProperties.NestedSweepRemovesInstall | src/sqruff.rs:97-102 | for a nested version directory "top/sub", listing the entry "top" makes the clean-up remove everything just unpacked |
| SqruffProperties.NestedVersionLosesInstall | src/sqruff.rs:81-106 | for a version "first/rest", the call returns the binary path yet leaves no entry and no binary behind |
| SqruffProperties.FreshInstallLeavesOnlyVersionDir | src/sqruff.rs:93-106 | when the listing shows every entry, readable and removable, the install succeeds and the version directory is the only entry left |
| SqruffProperties.AssetSelectionExample | src/sqruff.rs:75-79 | Linux/X86_64 picks the musl tarball listed first; Windows finds no asset among Linux and macOS builds |

## Left out

- The editor host's calls are not modelled as real calls: `worktree.which`, `current_platform`,
  `latest_github_release`, `download_file` and the status sink. Their answers are the parameters
  in `Facts`, and their effects are recorded in `Host`. The host's side is foreign code.
- Real filesystem I/O is abstracted. `metadata`, `read_dir` and `remove_dir_all` work on a state of
  entry names and regular-file paths. The order and read errors of `read_dir` are given by the
  listing. The listing is not tied to the directory's real contents; the lemmas that need it to be
  make that an assumption.
- A failed download that unpacked nothing is modelled as leaving the directory unchanged. A
  failure that only creates an empty version directory is not told apart from that.
- A removal that fails part-way is modelled as removing nothing. The code ignores the failure
  either way.
- An entry name that is not valid UTF-8 cannot occur, because names are strings. In the code such
  an entry is always removed.
- The archive formats (zip, gzip-tar) are left out. Only the choice of kind per OS is modelled, and
  the download outcome lists the unpacked relative paths.
- `DebugQuote` models Rust's `{:?}` only for strings needing no escapes. `AssetNameIsPlain` shows
  that every asset name is such a string.
- The `register_extension!` macro and the `Extension` trait plumbing are host ABI glue
  (src/sqruff.rs:8-11, 109).
- Concurrent calls and races on the version directory are left out. The code has no locking.
- The integrity of downloaded content is left out. The code only checks that a regular file exists.
