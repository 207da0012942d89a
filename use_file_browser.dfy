/**
 * The directory browser's navigation state (src/hooks/useFileBrowser.ts): the
 * shown path and entries and the history of visited paths. Each awaited
 * `client.browse` call is split into the method that starts it (returning the
 * request, or `None` when there is no client) and the method that receives its
 * outcome (`None` when the call rejects). A reply's fields may be missing.
 */
module UseFileBrowser {
  import opened Wrappers
  import opened ApiTypes

  /** The parsed JSON of a browse reply, with each field possibly absent. */
  datatype BrowseReply = BrowseReply(entries: Option<seq<BrowserEntry>>, path: Option<string>, isRoot: Option<bool>)

  /** Which browse call is in flight: one of `loadBrowsePath`, or `navigateUp`'s parent reload. */
  datatype Load = PathLoad(path: string) | ParentLoad(path: string)

  /** The history after a successful `loadBrowsePath(path)`. */
  function HistoryAfter(history: seq<string>, path: string, reply: BrowseReply): (h: seq<string>)
    ensures path != "" && !reply.isRoot.GetOr(false) ==> h == history + [path]
    ensures path == "" ==> h == []
    ensures path != "" && reply.isRoot.GetOr(false) ==> h == history
  {
    if path != "" && !reply.isRoot.GetOr(false) then history + [path]
    else if path == "" then []
    else history
  }

  class FileBrowser {
    const hasClient: bool
    var browserPath: string
    var browserEntries: seq<BrowserEntry>
    var browserHistory: seq<string>

    constructor(hasClient: bool)
      ensures this.hasClient == hasClient
      ensures browserPath == "" && browserEntries == [] && browserHistory == []
    {
      this.hasClient := hasClient;
      browserPath := "";
      browserEntries := [];
      browserHistory := [];
    }

    /** `loadBrowsePath(path)`: nothing happens without a client. */
    method LoadBrowsePath(path: string) returns (load: Option<Load>)
      ensures load == (if hasClient then Some(PathLoad(path)) else None)
    {
      load := if hasClient then Some(PathLoad(path)) else None;
    }

    /** A `loadBrowsePath` call settled: a reply is shown and updates the history; a failure changes nothing. */
    method OnPathLoaded(path: string, reply: Option<BrowseReply>)
      modifies this
      ensures reply.None? ==>
        browserPath == old(browserPath) && browserEntries == old(browserEntries) && browserHistory == old(browserHistory)
      ensures reply.Some? ==>
        browserEntries == reply.value.entries.GetOr([]) && browserPath == reply.value.path.GetOr("") && browserHistory == HistoryAfter(old(browserHistory), path, reply.value)
    {
      if reply.Some? {
        browserEntries := reply.value.entries.GetOr([]);
        browserPath := reply.value.path.GetOr("");
        if path != "" && !reply.value.isRoot.GetOr(false) {
          browserHistory := browserHistory + [path];
        } else if path == "" {
          browserHistory := [];
        }
      }
    }

    /**
     * `navigateUp`: with more than one visited path the last is dropped and the
     * new last one is reloaded (without touching the history again); otherwise,
     * or when that entry is empty or there is no client, the roots are loaded.
     */
    method NavigateUp() returns (load: Option<Load>)
      modifies this`browserHistory
      ensures |old(browserHistory)| > 1 ==> browserHistory == old(browserHistory)[..|old(browserHistory)| - 1]
      ensures |old(browserHistory)| <= 1 ==> browserHistory == old(browserHistory)
      ensures var parent := if |old(browserHistory)| > 1 then old(browserHistory)[|old(browserHistory)| - 2] else "";
        load == (if !hasClient then None else if parent != "" then Some(ParentLoad(parent)) else Some(PathLoad("")))
    {
      if |browserHistory| > 1 {
        var newHistory := browserHistory[..|browserHistory| - 1];
        browserHistory := newHistory;
        var parentPath := newHistory[|newHistory| - 1];
        if parentPath != "" && hasClient {
          load := Some(ParentLoad(parentPath));
        } else {
          load := LoadBrowsePath("");
        }
      } else {
        load := LoadBrowsePath("");
      }
    }

    /** The parent reload settled: a reply is shown as is; a failure falls back to loading the roots. */
    method OnParentLoaded(reply: Option<BrowseReply>) returns (fallback: Option<Load>)
      modifies this`browserPath, this`browserEntries
      ensures reply.Some? ==>
        browserEntries == reply.value.entries.GetOr([]) && browserPath == reply.value.path.GetOr("") && fallback.None?
      ensures reply.None? ==>
        browserPath == old(browserPath) && browserEntries == old(browserEntries) && fallback == (if hasClient then Some(PathLoad("")) else None)
    {
      if reply.Some? {
        browserEntries := reply.value.entries.GetOr([]);
        browserPath := reply.value.path.GetOr("");
        fallback := None;
      } else {
        fallback := LoadBrowsePath("");
      }
    }

    method Reset()
      modifies this
      ensures browserPath == "" && browserEntries == [] && browserHistory == []
    {
      browserPath := "";
      browserEntries := [];
      browserHistory := [];
    }
  }

  /**
   * Walking down two directories and then up once leaves the first in the
   * history and reloads it; loading the roots afterwards clears the history.
   */
  method DownDownUp(a: string, b: string, ra: BrowseReply, rb: BrowseReply)
      returns (afterDown: seq<string>, load: Option<Load>, afterUp: seq<string>, afterRoot: seq<string>)
    requires a != "" && b != "" && !ra.isRoot.GetOr(false) && !rb.isRoot.GetOr(false)
    ensures afterDown == [a, b]
    ensures load == Some(ParentLoad(a)) && afterUp == [a]
    ensures afterRoot == []
  {
    var fb := new FileBrowser(true);
    fb.OnPathLoaded(a, Some(ra));
    fb.OnPathLoaded(b, Some(rb));
    afterDown := fb.browserHistory;
    load := fb.NavigateUp();
    afterUp := fb.browserHistory;
    fb.OnPathLoaded("", Some(BrowseReply(None, None, Some(true))));
    afterRoot := fb.browserHistory;
  }
}
