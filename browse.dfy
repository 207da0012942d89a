/**
 * The proxy's directory browser (src/server/routes/browse.ts): the allow-list
 * check and the outcome of a browse request. The filesystem is a parameter
 * record: whether a path exists, what listing a directory read yields (`None`
 * when the read throws) and what `stat` says about a path (`None` when it
 * throws, otherwise whether it is a directory). `resolve` and `join` of the
 * path library are parameters too, and the query string arrives already parsed.
 */
module Browse {
  import opened Wrappers
  import opened Strings
  import opened Seqs
  import opened Sorting
  import opened ApiTypes

  /** `normalized === root || normalized.startsWith(root + '/')`. */
  predicate UnderRoot(normalized: string, root: string) {
    normalized == root || StartsWith(normalized, root + "/")
  }

  /** `ALLOWED_ROOTS.some(...)` over the canonical form of `target`. */
  predicate WithinRoots(canonical: string, roots: seq<string>)
    decreases |roots|
  {
    roots != [] && (UnderRoot(canonical, roots[0]) || WithinRoots(canonical, roots[1..]))
  }

  /** `isWithinAllowedRoots(target)`: `target` resolved, then checked against the roots. */
  predicate IsWithinAllowedRoots(target: string, roots: seq<string>, resolve: string -> string) {
    WithinRoots(resolve(target), roots)
  }

  /** The check holds iff the canonical path equals some root or continues it after a '/'. */
  lemma {:induction false} WithinRootsSpec(canonical: string, roots: seq<string>)
    ensures WithinRoots(canonical, roots) <==> exists i :: 0 <= i < |roots| && UnderRoot(canonical, roots[i])
    decreases |roots|
  {
    if roots != [] {
      WithinRootsSpec(canonical, roots[1..]);
      if exists i :: 0 <= i < |roots| && UnderRoot(canonical, roots[i]) {
        var i :| 0 <= i < |roots| && UnderRoot(canonical, roots[i]);
        if i > 0 {
          assert roots[1..][i - 1] == roots[i];
        }
      }
    }
  }

  /** A sibling that merely shares a prefix is not inside a root. */
  lemma PrefixSiblingOutside()
    ensures !WithinRoots("/home/userX", ["/home/user"])
    ensures WithinRoots("/home/user/x", ["/home/user"])
  {
    assert !StartsWith("/home/userX", "/home/user" + "/") by {
      assert "/home/userX"[10] == 'X';
    }
    assert StartsWith("/home/user/x", "/home/user" + "/") by {
      assert "/home/user/x"[..11] == "/home/user/";
    }
  }

  /** The filesystem as the handler sees it. */
  datatype Fs = Fs(
    exists_: string -> bool,
    readDir: string -> Option<seq<string>>,
    isDirectory: string -> Option<bool>)

  /** What the handler answers: a listing, or a status code with an error message. */
  datatype Reply = Listing(response: BrowseResponse) | Refused(status: int, error: string)

  /** `root.split('/').pop() ?? root`: the last segment (`pop` of a split never gives undefined). */
  function RootName(root: string): string {
    LastSegment(root, '/')
  }

  /** The root listing: one directory entry per root, in order. */
  function RootEntries(roots: seq<string>): (r: seq<BrowserEntry>)
    ensures |r| == |roots|
    ensures forall i :: 0 <= i < |roots| ==> r[i] == BrowserEntry(RootName(roots[i]), roots[i], Directory)
  {
    if roots == [] then [] else [BrowserEntry(RootName(roots[0]), roots[0], Directory)] + RootEntries(roots[1..])
  }

  /** `.filter(name => !name.startsWith('.'))`. */
  predicate Visible(name: string) { !StartsWith(name, ".") }

  /**
   * The entries of a directory that survive the listing's filters: visible names
   * whose `stat` succeeded and says directory, in listing order.
   */
  function Directories(names: seq<string>, dir: string, fs: Fs, join: (string, string) -> string): (r: seq<BrowserEntry>)
    ensures |r| <= |names|
    ensures forall i :: 0 <= i < |r| ==>
      && r[i].entryType == Directory && Visible(r[i].name) && r[i].name in names
      && r[i].path == join(dir, r[i].name) && fs.isDirectory(r[i].path) == Some(true)
    ensures forall i :: 0 <= i < |names| && Visible(names[i]) && fs.isDirectory(join(dir, names[i])) == Some(true) ==>
      BrowserEntry(names[i], join(dir, names[i]), Directory) in r
  {
    if names == [] then []
    else
      var rest := Directories(names[1..], dir, fs, join);
      var n := names[0];
      var full := join(dir, n);
      if Visible(n) && fs.isDirectory(full) == Some(true) then [BrowserEntry(n, full, Directory)] + rest else rest
  }

  /**
   * The listing in order: no names give no entries, and a name appended to the
   * listing appends its entry exactly when it is visible and a directory.
   */
  lemma {:induction false} DirectoriesSnoc(names: seq<string>, n: string, dir: string, fs: Fs,
                                           join: (string, string) -> string)
    ensures Directories([], dir, fs, join) == []
    ensures Directories(names + [n], dir, fs, join)
         == Directories(names, dir, fs, join)
            + (if Visible(n) && fs.isDirectory(join(dir, n)) == Some(true) then [BrowserEntry(n, join(dir, n), Directory)] else [])
  {
    if names != [] {
      ConcatTail(names, [n]);
      DirectoriesSnoc(names[1..], n, dir, fs, join);
    } else {
      assert names + [n] == [n];
      assert [n][1..] == [];
    }
  }

  /** `a.name.localeCompare(b.name)`, as code-unit order on the names. */
  function ByName(): (BrowserEntry, BrowserEntry) -> bool {
    (a: BrowserEntry, b: BrowserEntry) => LexLe(a.name, b.name)
  }

  lemma ByNameIsPreorder()
    ensures TotalPreorder(ByName())
  {
    forall a: BrowserEntry, b: BrowserEntry ensures ByName()(a, b) || ByName()(b, a) {
      LexLeTotal(a.name, b.name);
    }
    forall a: BrowserEntry, b: BrowserEntry, c: BrowserEntry | ByName()(a, b) && ByName()(b, c)
      ensures ByName()(a, c)
    {
      LexLeTransitive(a.name, b.name, c.name);
    }
  }

  /**
   * `handleBrowse` for the query's `path` parameter (`None` when absent): the
   * roots for no path; otherwise the resolved path is checked against the roots,
   * then for existence, then read.
   */
  function HandleBrowse(requested: Option<string>, roots: seq<string>, fs: Fs,
                        resolve: string -> string, join: (string, string) -> string): Reply
  {
    var p := requested.GetOr("");
    if p == "" then Listing(BrowseResponse(RootEntries(roots), "", true))
    else
      var normalized := resolve(p);
      if !IsWithinAllowedRoots(normalized, roots, resolve) then Refused(403, "Access denied")
      else if !fs.exists_(normalized) then Refused(404, "Path not found")
      else match fs.readDir(normalized)
        case None => Refused(500, "Failed to read directory")
        case Some(names) =>
          Listing(BrowseResponse(Sort(Directories(names, normalized, fs, join), ByName()), normalized, false))
  }

  /** Without a path: one directory entry per root, response path '' and `isRoot` true. */
  lemma NoPathListsRoots(requested: Option<string>, roots: seq<string>, fs: Fs,
                         resolve: string -> string, join: (string, string) -> string)
    requires requested.None? || requested.value == ""
    ensures var r := HandleBrowse(requested, roots, fs, resolve, join);
      && r.Listing? && r.response.path == "" && r.response.isRoot
      && |r.response.entries| == |roots|
      && forall i :: 0 <= i < |roots| ==>
           r.response.entries[i].path == roots[i] && r.response.entries[i].entryType == Directory
  {
  }

  /**
   * With a path, the outcome cascade: out of bounds is 403 whatever the filesystem
   * holds; in bounds but missing is 404; a failed read is 500; otherwise a listing.
   */
  lemma OutcomeCascade(p: string, roots: seq<string>, fs: Fs, fs': Fs,
                       resolve: string -> string, join: (string, string) -> string)
    requires p != ""
    ensures var n := resolve(p); var r := HandleBrowse(Some(p), roots, fs, resolve, join);
      && (!IsWithinAllowedRoots(n, roots, resolve) <==> r == Refused(403, "Access denied"))
      && (!IsWithinAllowedRoots(n, roots, resolve) ==> HandleBrowse(Some(p), roots, fs', resolve, join) == r)
      && (IsWithinAllowedRoots(n, roots, resolve) && !fs.exists_(n) <==> r == Refused(404, "Path not found"))
      && ((IsWithinAllowedRoots(n, roots, resolve) && fs.exists_(n) && fs.readDir(n).None?)
            <==> r == Refused(500, "Failed to read directory"))
      && (r.Listing? <==> IsWithinAllowedRoots(n, roots, resolve) && fs.exists_(n) && fs.readDir(n).Some?)
  {
  }

  /**
   * A listing holds only visible directories of the read directory, every one of
   * them, sorted by name, with the canonical path and `isRoot` false.
   */
  lemma ListingSpec(p: string, roots: seq<string>, fs: Fs, resolve: string -> string, join: (string, string) -> string)
    requires p != ""
    requires HandleBrowse(Some(p), roots, fs, resolve, join).Listing?
    ensures var n := resolve(p); var resp := HandleBrowse(Some(p), roots, fs, resolve, join).response;
      && resp.path == n && !resp.isRoot
      && fs.readDir(n).Some?
      && Sorted(resp.entries, ByName())
      && multiset(resp.entries) == multiset(Directories(fs.readDir(n).value, n, fs, join))
      && (forall e :: e in resp.entries ==>
            e.entryType == Directory && Visible(e.name) && e.name in fs.readDir(n).value
            && fs.isDirectory(e.path) == Some(true))
  {
    var n := resolve(p);
    var ds := Directories(fs.readDir(n).value, n, fs, join);
    var resp := HandleBrowse(Some(p), roots, fs, resolve, join).response;
    assert resp.entries == Sort(ds, ByName());
    ByNameIsPreorder();
    SortSorted(ds, ByName());
    forall e | e in resp.entries
      ensures e.entryType == Directory && Visible(e.name) && e.name in fs.readDir(n).value
      ensures fs.isDirectory(e.path) == Some(true)
    {
      SortElements(ds, ByName(), e);
    }
  }
}
