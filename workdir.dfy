/**
 * The extension's working directory, abstracted to the names of its top-level entries and the
 * paths of the regular files beneath it, and the clean-up pass that removes every entry but the
 * current version directory (src/sqruff.rs:93-102).
 */
module Workdir {
  import opened Wrappers

  /** Top-level entry names, and relative paths of the regular files (src/sqruff.rs:84 asks for one). */
  datatype FsState = FsState(entries: set<string>, files: set<string>)

  /** The first component of a relative path: everything before the first '/'. */
  function Head(path: string): (h: string)
    ensures h <= path
    ensures '/' !in h
    ensures |h| < |path| ==> path[|h|] == '/'
  {
    if path == [] || path[0] == '/' then [] else [path[0]] + Head(path[1..])
  }

  /** A name without '/' is its own first component. */
  lemma HeadOfName(name: string)
    requires '/' !in name
    ensures Head(name) == name
  {
  }

  /** A path inside a directory whose name has no '/' starts with that directory. */
  lemma HeadOfNested(dir: string, rest: string)
    requires '/' !in dir
    ensures Head(dir + "/" + rest) == dir
  {
    var p := dir + "/" + rest;
    var h := Head(p);
    assert forall i :: 0 <= i < |h| ==> h[i] == p[i] && h[i] != '/';
    assert forall i :: 0 <= i < |dir| ==> p[i] == dir[i] && dir[i] != '/';
    assert p[|dir|] == '/';
    assert |h| == |dir|;
    assert h == p[..|dir|];
  }

  /** Every regular file lies inside one of the listed entries. */
  predicate Consistent(fs: FsState)
  {
    forall p :: p in fs.files ==> Head(p) in fs.entries
  }

  /** The state after `remove_dir_all` has succeeded on each of `names`. */
  function RemoveAll(fs: FsState, names: set<string>): (r: FsState)
  {
    FsState(fs.entries - names, set p | p in fs.files && Head(p) !in names)
  }

  /** Removing one set of entries and then another is removing both. */
  lemma RemoveAllTwice(fs: FsState, a: set<string>, b: set<string>)
    ensures RemoveAll(RemoveAll(fs, a), b) == RemoveAll(fs, a + b)
  {
  }

  /** The state after an archive holding the relative paths `contents` is unpacked into `dir`. */
  function Unpack(fs: FsState, dir: string, contents: set<string>): FsState
  {
    FsState(fs.entries + {Head(dir)}, fs.files + set c | c in contents :: dir + "/" + c)
  }

  /** Unpacking keeps the state consistent, and what it unpacks lies inside `dir`. */
  lemma UnpackInsideDir(fs: FsState, dir: string, contents: set<string>)
    requires '/' !in dir
    ensures Head(dir) == dir && dir in Unpack(fs, dir, contents).entries
    ensures forall c :: c in contents ==> dir + "/" + c in Unpack(fs, dir, contents).files
    ensures Consistent(fs) ==> Consistent(Unpack(fs, dir, contents))
  {
    HeadOfName(dir);
    var u := Unpack(fs, dir, contents);
    forall p | p in u.files && p !in fs.files
      ensures Head(p) == dir
    {
      var c :| c in contents && p == dir + "/" + c;
      HeadOfNested(dir, c);
    }
  }

  /**
   * Unpacking removes nothing; the only entry it can add is the first component of `dir`, and
   * every file it adds lies under "dir/".
   */
  lemma UnpackOnlyAdds(fs: FsState, dir: string, contents: set<string>)
    ensures var u := Unpack(fs, dir, contents);
      fs.entries <= u.entries && fs.files <= u.files
      && (forall n :: n in u.entries && n !in fs.entries ==> n == Head(dir))
      && (forall p :: p in u.files && p !in fs.files ==> dir + "/" <= p)
  {
    var u := Unpack(fs, dir, contents);
    forall p | p in u.files && p !in fs.files
      ensures dir + "/" <= p
    {
      var c :| c in contents && p == dir + "/" + c;
      assert p[..|dir| + 1] == dir + "/";
    }
  }

  /** One step of the directory iterator: a readable entry (and whether removing it succeeds), or a read error. */
  datatype EntryRead = Entry(name: string, removable: bool) | EntryError(message: string)

  /** What the clean-up pass leaves behind: the new state, and the error that stopped it, if any. */
  datatype SweepResult = SweepResult(fs: FsState, error: Option<string>)

  function EntryErrorMessage(e: string): string
  {
    "failed to load directory entry " + e
  }

  /**
   * The clean-up loop: walk the entries in order, remove each one not named `keep` (a failed
   * removal is ignored), and stop at the first entry that cannot be read.
   */
  function Sweep(fs: FsState, listing: seq<EntryRead>, keep: string): SweepResult
    decreases |listing|
  {
    if listing == [] then SweepResult(fs, None)
    else match listing[0]
      case EntryError(e) => SweepResult(fs, Some(EntryErrorMessage(e)))
      case Entry(name, removable) =>
        Sweep(if name != keep && removable then RemoveAll(fs, {name}) else fs, listing[1..], keep)
  }

  /** The number of entries read before the first read error. */
  function ReadCount(listing: seq<EntryRead>): (n: nat)
    ensures n <= |listing|
    ensures forall i :: 0 <= i < n ==> listing[i].Entry?
    ensures n < |listing| ==> listing[n].EntryError?
  {
    if listing == [] || listing[0].EntryError? then 0 else 1 + ReadCount(listing[1..])
  }

  /** The entries the pass removes: those read before the first error, not named `keep`, removable. */
  function Targets(listing: seq<EntryRead>, keep: string): set<string>
  {
    set e | e in listing[..ReadCount(listing)] && e.Entry? && e.removable && e.name != keep :: e.name
  }

  /** The clean-up pass removes exactly its targets, and fails exactly at the first unreadable entry. */
  lemma {:induction false} SweepRemovesTargets(fs: FsState, listing: seq<EntryRead>, keep: string)
    ensures Sweep(fs, listing, keep).fs == RemoveAll(fs, Targets(listing, keep))
    ensures Sweep(fs, listing, keep).error ==
            if ReadCount(listing) < |listing|
            then Some(EntryErrorMessage(listing[ReadCount(listing)].message))
            else None
    decreases |listing|
  {
    if listing == [] || listing[0].EntryError? {
      assert Targets(listing, keep) == {};
      assert RemoveAll(fs, {}) == fs;
    } else {
      var name, removable := listing[0].name, listing[0].removable;
      var rest := listing[1..];
      var first: set<string> := if name != keep && removable then {name} else {};
      var next := if name != keep && removable then RemoveAll(fs, {name}) else fs;
      SweepRemovesTargets(next, rest, keep);
      assert listing[..ReadCount(listing)] == [listing[0]] + rest[..ReadCount(rest)];
      assert Targets(listing, keep) == first + Targets(rest, keep);
      RemoveAllTwice(fs, first, Targets(rest, keep));
      assert RemoveAll(fs, {}) == fs;
    }
  }

  /**
   * The pass only removes, never removes `keep`, and never touches a file inside `keep`;
   * entries it does not target survive.
   */
  lemma SweepSparesKeep(fs: FsState, listing: seq<EntryRead>, keep: string)
    ensures var r := Sweep(fs, listing, keep).fs;
      r.entries <= fs.entries && r.files <= fs.files
      && (forall n :: n in fs.entries && n !in Targets(listing, keep) ==> n in r.entries)
      && (keep in fs.entries ==> keep in r.entries)
      && (forall p :: p in fs.files && Head(p) == keep ==> p in r.files)
  {
    SweepRemovesTargets(fs, listing, keep);
  }

  /** Every removable entry read before the first error, other than `keep`, is gone with all its files. */
  lemma SweepRemovesListed(fs: FsState, listing: seq<EntryRead>, keep: string, i: nat)
    requires i < |listing| && forall j :: 0 <= j <= i ==> listing[j].Entry?
    requires listing[i].removable && listing[i].name != keep
    ensures var r := Sweep(fs, listing, keep).fs;
      listing[i].name !in r.entries && forall p :: p in r.files ==> Head(p) != listing[i].name
  {
    SweepRemovesTargets(fs, listing, keep);
    assert listing[i] in listing[..ReadCount(listing)];
  }

  /** The pass fails exactly when some entry cannot be read. */
  lemma SweepFailsOnUnreadable(fs: FsState, listing: seq<EntryRead>, keep: string)
    ensures Sweep(fs, listing, keep).error.Some? <==> exists i :: 0 <= i < |listing| && listing[i].EntryError?
  {
    SweepRemovesTargets(fs, listing, keep);
  }

  /**
   * When every entry is listed, readable and removable, only `keep` is left, holding every
   * remaining file.
   */
  lemma SweepLeavesOnlyKeep(fs: FsState, listing: seq<EntryRead>, keep: string)
    requires forall i :: 0 <= i < |listing| ==> listing[i].Entry?
    requires forall n :: n in fs.entries ==> Entry(n, true) in listing
    ensures var r := Sweep(fs, listing, keep);
      r.error.None? && r.fs.entries <= {keep}
      && (keep in fs.entries ==> r.fs.entries == {keep})
      && (Consistent(fs) ==> forall p :: p in r.fs.files ==> Head(p) == keep)
  {
    SweepRemovesTargets(fs, listing, keep);
    assert listing[..ReadCount(listing)] == listing;
    forall n | n in fs.entries && n != keep
      ensures n in Targets(listing, keep)
    {
      assert Entry(n, true) in listing;
    }
  }
}
