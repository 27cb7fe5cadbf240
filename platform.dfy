/**
 * The release-asset name for the host platform (src/sqruff.rs:50-73) and the archive kind that
 * goes with it (src/sqruff.rs:89-92).
 */
module Platform {

  datatype Os = Mac | Linux | Windows

  datatype Architecture = Aarch64 | X86 | X86_64

  /** How the host unpacks a downloaded asset. */
  datatype DownloadedFileType = Zip | GzipTar

  /** The operating-system token of an asset name. */
  function OsToken(os: Os): string
  {
    match os
    case Mac => "darwin"
    case Linux => "linux"
    case Windows => "windows"
  }

  /** The architecture token; the Linux builds of the 64-bit targets are the musl ones. */
  function ArchToken(os: Os, arch: Architecture): string
  {
    match arch
    case Aarch64 => if os == Linux then "aarch64-musl" else "aarch64"
    case X86 => "x86"
    case X86_64 => if os == Linux then "x86_64-musl" else "x86_64"
  }

  /** The archive extension of an asset name, without the dot. */
  function Suffix(os: Os): string
  {
    if os == Windows then "zip" else "tar.gz"
  }

  function AssetStem(os: Os, arch: Architecture): string
  {
    "sqruff-" + OsToken(os) + "-" + ArchToken(os, arch)
  }

  /** The name of the release asset built for `os` and `arch`. */
  function AssetName(os: Os, arch: Architecture): string
  {
    AssetStem(os, arch) + "." + Suffix(os)
  }

  function FileKind(os: Os): DownloadedFileType
  {
    if os == Windows then Zip else GzipTar
  }

  predicate EndsWith(s: string, tail: string)
  {
    |tail| <= |s| && s[|s| - |tail|..] == tail
  }

  /** The characters of a plain asset name: lower-case letters, digits, '.', '-' and '_'. */
  predicate IsPlainChar(c: char)
  {
    ('a' <= c <= 'z') || ('0' <= c <= '9') || c == '.' || c == '-' || c == '_'
  }

  /** The asset names for macOS. */
  lemma MacAssetNames()
    ensures AssetName(Mac, Aarch64) == "sqruff-darwin-aarch64.tar.gz"
    ensures AssetName(Mac, X86) == "sqruff-darwin-x86.tar.gz"
    ensures AssetName(Mac, X86_64) == "sqruff-darwin-x86_64.tar.gz"
  {
  }

  /** The asset names for Linux: the 64-bit ones are the musl builds. */
  lemma LinuxAssetNames()
    ensures AssetName(Linux, Aarch64) == "sqruff-linux-aarch64-musl.tar.gz"
    ensures AssetName(Linux, X86) == "sqruff-linux-x86.tar.gz"
    ensures AssetName(Linux, X86_64) == "sqruff-linux-x86_64-musl.tar.gz"
  {
    assert AssetStem(Linux, Aarch64) == "sqruff-linux-aarch64-musl";
    assert AssetStem(Linux, X86_64) == "sqruff-linux-x86_64-musl";
  }

  /** The asset names for Windows. */
  lemma WindowsAssetNames()
    ensures AssetName(Windows, Aarch64) == "sqruff-windows-aarch64.zip"
    ensures AssetName(Windows, X86) == "sqruff-windows-x86.zip"
    ensures AssetName(Windows, X86_64) == "sqruff-windows-x86_64.zip"
  {
  }

  /** An asset name is "sqruff-", the OS token, "-", the architecture token, "." and the suffix. */
  lemma AssetNameLayout(os: Os, arch: Architecture)
    ensures var name := AssetName(os, arch);
      var o := OsToken(os);
      var a := ArchToken(os, arch);
      |name| == 9 + |o| + |a| + |Suffix(os)|
      && name[..7] == "sqruff-" && name[7..7 + |o|] == o && name[7 + |o|] == '-'
      && name[8 + |o|..8 + |o| + |a|] == a && name[8 + |o| + |a|] == '.'
      && name[9 + |o| + |a|..] == Suffix(os)
  {
  }

  /** The suffix is "zip" exactly on Windows and "tar.gz" everywhere else. */
  lemma SuffixIsZipExactlyOnWindows(os: Os, arch: Architecture)
    ensures EndsWith(AssetName(os, arch), ".zip") <==> os == Windows
    ensures os != Windows ==> EndsWith(AssetName(os, arch), ".tar.gz")
  {
    AssetNameLayout(os, arch);
    var name := AssetName(os, arch);
    var n := |name|;
    if os == Windows {
      assert name[n - 4..] == "." + Suffix(os);
    } else {
      assert name[n - 7..] == "." + Suffix(os);
      assert name[n - 4] == name[n - 7..][3] == 'r';
    }
  }

  /** The archive kind agrees with the suffix of the asset name. */
  lemma FileKindMatchesSuffix(os: Os)
    ensures FileKind(os) == Zip <==> Suffix(os) == "zip"
    ensures FileKind(os) == GzipTar <==> Suffix(os) == "tar.gz"
  {
  }

  /** The musl builds are chosen on Linux for Aarch64 and X86_64, and nowhere else. */
  lemma MuslExactlyOnLinux64(os: Os, arch: Architecture)
    ensures EndsWith(ArchToken(os, arch), "-musl") <==> os == Linux && arch != X86
  {
  }

  /** Distinct platforms get distinct asset names. */
  lemma AssetNameInjective(os1: Os, arch1: Architecture, os2: Os, arch2: Architecture)
    requires AssetName(os1, arch1) == AssetName(os2, arch2)
    ensures os1 == os2 && arch1 == arch2
  {
  }

  /** Every character of an asset name is plain, so Rust's `{:?}` only adds the quotes. */
  lemma AssetNameIsPlain(os: Os, arch: Architecture)
    ensures forall c :: c in AssetName(os, arch) ==> IsPlainChar(c)
  {
    var o, a, s := OsToken(os), ArchToken(os, arch), Suffix(os);
    assert forall c :: c in "sqruff-" ==> IsPlainChar(c);
    assert forall c :: c in o ==> IsPlainChar(c);
    assert forall c :: c in a ==> IsPlainChar(c);
    assert forall c :: c in s ==> IsPlainChar(c);
    assert AssetName(os, arch) == "sqruff-" + o + "-" + a + "." + s;
  }
}
