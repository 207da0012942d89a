/**
 * The top-level view state of src/App.tsx that has rules of its own: the
 * session name derived from the first prompt, the per-workdir collapse and
 * page-size maps, the message input wired to the slash-command menu, the
 * new-session form, and the confirmation step for the permission mode that
 * skips permission prompts. Calls into the session engine are returned as
 * records rather than made.
 */
module AppView {
  import opened Wrappers
  import opened Strings
  import opened UseModal
  import opened UseSlashCommands

  /** `MAX_SESSION_NAME_LENGTH` (src/utils/constants.ts). */
  const MaxSessionNameLength: nat := 128

  /** `DEFAULT_VISIBLE_SESSIONS` (src/utils/constants.ts). */
  const DefaultVisibleSessions: int := 5

  const SkipPermissions: string := "dangerously-skip-permissions"

  /** `prompt.slice(0, MAX_SESSION_NAME_LENGTH).trim()`. */
  function PromptHead(prompt: string): string {
    Trim(if |prompt| <= MaxSessionNameLength then prompt else prompt[..MaxSessionNameLength])
  }

  /**
   * The name passed to `createSession`: the explicit name if given; otherwise
   * one made from the prompt, cut back to its last space with '...' when the
   * prompt is longer than the limit; `None` when that leaves nothing.
   */
  function AutoName(name: string, prompt: string): Option<string> {
    var sessionName :=
      if name == "" && prompt != "" then
        var head := PromptHead(prompt);
        if |prompt| > MaxSessionNameLength && ' ' in head then head[..LastIndexOf(head, ' ')] + "..." else head
      else name;
    if sessionName == "" then None else Some(sessionName)
  }

  lemma TrimShortens(s: string)
    ensures |Trim(s)| <= |s|
  {
  }

  /** An explicit name is used unchanged; no name and no prompt pass no name. */
  lemma AutoNameExplicit(name: string, prompt: string)
    ensures name != "" ==> AutoName(name, prompt) == Some(name)
    ensures name == "" && prompt == "" ==> AutoName(name, prompt).None?
  {
  }

  /** A prompt within the limit names the session by its trimmed text (none when blank). */
  lemma AutoNameShort(prompt: string)
    requires 0 < |prompt| <= MaxSessionNameLength
    ensures AutoName("", prompt) == (if IsBlank(prompt) then None else Some(Trim(prompt)))
  {
    TrimEmptyIffBlank(prompt);
  }

  /**
   * A longer prompt whose trimmed head has a space is cut before the head's last
   * space and marked '...'; a generated name never exceeds the limit plus three.
   */
  lemma AutoNameLong(prompt: string)
    requires |prompt| > MaxSessionNameLength
    ensures var head := PromptHead(prompt);
      ' ' in head ==> AutoName("", prompt) == Some(head[..LastIndexOf(head, ' ')] + "...")
    ensures AutoName("", prompt).Some? ==> |AutoName("", prompt).value| <= MaxSessionNameLength + 3
  {
    TrimShortens(prompt[..MaxSessionNameLength]);
  }

  /** `toggleWorkdirCollapse`: the workdir's flag flips (a missing flag counts as expanded); nothing else changes. */
  function Toggled(collapsed: map<string, bool>, workdir: string): (r: map<string, bool>)
    ensures r.Keys == collapsed.Keys + {workdir}
    ensures r[workdir] == !(workdir in collapsed && collapsed[workdir])
    ensures forall w :: w in collapsed && w != workdir ==> r[w] == collapsed[w]
  {
    collapsed[workdir := !(workdir in collapsed && collapsed[workdir])]
  }

  /** Every workdir is collapsed already. */
  predicate EveryCollapsed(workdirs: seq<string>, collapsed: map<string, bool>) {
    forall i :: 0 <= i < |workdirs| ==> workdirs[i] in collapsed && collapsed[workdirs[i]]
  }

  /** `collapseAllWorkdirs`: expand all (the empty map) when all are collapsed, else collapse every workdir. */
  function CollapseAll(workdirs: seq<string>, collapsed: map<string, bool>): (r: map<string, bool>)
    ensures EveryCollapsed(workdirs, collapsed) ==> r == map[]
    ensures !EveryCollapsed(workdirs, collapsed) ==>
      (forall w :: w in r <==> w in workdirs) && forall w :: w in r ==> r[w]
  {
    if EveryCollapsed(workdirs, collapsed) then map[]
    else map w | w in workdirs :: true
  }

  /** Pressing collapse-all twice expands everything: the second press finds all collapsed. */
  lemma CollapseAllTwice(workdirs: seq<string>, collapsed: map<string, bool>)
    ensures !EveryCollapsed(workdirs, collapsed) ==> CollapseAll(workdirs, CollapseAll(workdirs, collapsed)) == map[]
  {
    if !EveryCollapsed(workdirs, collapsed) {
      var r := CollapseAll(workdirs, collapsed);
      assert forall i :: 0 <= i < |workdirs| ==> workdirs[i] in r && r[workdirs[i]];
    }
  }

  /** `showMoreSessions`: the workdir's count grows by `count` from its current value, 5 when unset. */
  function ShowMore(counts: map<string, int>, workdir: string, count: int): (r: map<string, int>)
    ensures r.Keys == counts.Keys + {workdir}
    ensures r[workdir] == (if workdir in counts then counts[workdir] else DefaultVisibleSessions) + count
    ensures forall w :: w in counts && w != workdir ==> r[w] == counts[w]
  {
    counts[workdir := (if workdir in counts then counts[workdir] else DefaultVisibleSessions) + count]
  }

  /** `showAllSessions`: the workdir's count becomes the total. */
  function ShowAll(counts: map<string, int>, workdir: string, total: int): (r: map<string, int>)
    ensures r.Keys == counts.Keys + {workdir} && r[workdir] == total
    ensures forall w :: w in counts && w != workdir ==> r[w] == counts[w]
  {
    counts[workdir := total]
  }

  datatype NewSessionForm = NewSessionForm(workdir: string, prompt: string, name: string, permissionMode: string)

  const EmptyForm := NewSessionForm("", "", "", "default")

  /** A call of `createSession(workdir, prompt || undefined, name || undefined, mode)`. */
  datatype CreateCall = CreateCall(workdir: string, prompt: Option<string>, name: Option<string>, mode: string)

  /** A call of `updateSessionPermissionMode(sessionId, mode)`. */
  datatype ModeCall = ModeCall(sessionId: string, mode: string)

  class App {
    const slash: SlashMenu
    const modal: ModalStack
    var inputText: string
    var collapsedWorkdirs: map<string, bool>
    var visibleCounts: map<string, int>
    var form: NewSessionForm
    var pendingPermissionChange: Option<ModeCall>

    /**
     * `storedCollapsed` and `storedCounts` are what local storage yields for the
     * two persisted cells: `None` when the key is missing, empty or does not
     * parse, which gives the empty record.
     */
    constructor(slash: SlashMenu, modal: ModalStack,
                storedCollapsed: Option<map<string, bool>>, storedCounts: Option<map<string, int>>)
      ensures this.slash == slash && this.modal == modal && inputText == ""
      ensures collapsedWorkdirs == storedCollapsed.GetOr(map[]) && visibleCounts == storedCounts.GetOr(map[])
      ensures form == EmptyForm && pendingPermissionChange.None?
    {
      this.slash := slash;
      this.modal := modal;
      inputText := "";
      collapsedWorkdirs := storedCollapsed.GetOr(map[]);
      visibleCounts := storedCounts.GetOr(map[]);
      form := EmptyForm;
      pendingPermissionChange := None;
    }

    method ToggleWorkdirCollapse(workdir: string)
      modifies this`collapsedWorkdirs
      ensures collapsedWorkdirs == Toggled(old(collapsedWorkdirs), workdir)
    {
      collapsedWorkdirs := collapsedWorkdirs[workdir := !(workdir in collapsedWorkdirs && collapsedWorkdirs[workdir])];
    }

    /** `workdirs` are the sessions' workdirs (duplicates allowed). */
    method CollapseAllWorkdirs(workdirs: seq<string>)
      modifies this`collapsedWorkdirs
      ensures collapsedWorkdirs == CollapseAll(workdirs, old(collapsedWorkdirs))
    {
      collapsedWorkdirs := CollapseAll(workdirs, collapsedWorkdirs);
    }

    method ShowMoreSessions(workdir: string, count: int)
      modifies this`visibleCounts
      ensures visibleCounts == ShowMore(old(visibleCounts), workdir, count)
    {
      visibleCounts := ShowMore(visibleCounts, workdir, count);
    }

    method ShowAllSessions(workdir: string, total: int)
      modifies this`visibleCounts
      ensures visibleCounts == ShowAll(old(visibleCounts), workdir, total)
    {
      visibleCounts := visibleCounts[workdir := total];
    }

    /** `handleInputChange`: text after a leading '/' filters an opened menu; other text closes it. */
    method HandleInputChange(value: string)
      modifies this`inputText, slash
      ensures inputText == value
      ensures StartsWith(value, "/") ==>
        slash.showSlashMenu && slash.slashFilter == value[1..] && slash.selectedSlashIndex == old(slash.selectedSlashIndex)
      ensures !StartsWith(value, "/") ==>
        !slash.showSlashMenu && slash.slashFilter == "" && slash.selectedSlashIndex == 0
    {
      inputText := value;
      if StartsWith(value, "/") {
        slash.SetSlashFilter(value[1..]);
        slash.OpenSlashMenu();
      } else {
        slash.CloseSlashMenu();
      }
    }

    /** `handleSend`: blank input does nothing; otherwise the input is cleared, the menu closed and the text sent. */
    method HandleSend() returns (sent: Option<string>)
      modifies this`inputText, slash
      ensures IsBlank(old(inputText)) ==>
        sent.None? && inputText == old(inputText) && unchanged(slash)
      ensures !IsBlank(old(inputText)) ==>
        sent == Some(old(inputText)) && inputText == "" && !slash.showSlashMenu && slash.slashFilter == "" && slash.selectedSlashIndex == 0
    {
      TrimEmptyIffBlank(inputText);
      if Trim(inputText) == "" {
        sent := None;
        return;
      }
      sent := Some(inputText);
      inputText := "";
      slash.CloseSlashMenu();
    }

    method SetForm(f: NewSessionForm)
      modifies this`form
      ensures form == f
    {
      form := f;
    }

    /**
     * `handleCreateSession`: without a workdir nothing happens; otherwise all
     * modals close, the form resets and the session is created with the
     * derived name and the prompt, if any.
     */
    method HandleCreateSession() returns (call: Option<CreateCall>)
      modifies this`form, modal
      ensures old(form).workdir == "" ==> call.None? && form == old(form) && unchanged(modal)
      ensures old(form).workdir != "" ==>
        && call == Some(CreateCall(old(form).workdir, if old(form).prompt == "" then None else Some(old(form).prompt),
                                   AutoName(old(form).name, old(form).prompt), old(form).permissionMode))
        && form == EmptyForm && modal.stack == []
    {
      if form.workdir == "" {
        call := None;
        return;
      }
      var name := AutoName(form.name, form.prompt);
      var prompt := if form.prompt == "" then None else Some(form.prompt);
      var f := form;
      modal.CloseAllModals();
      form := EmptyForm;
      call := Some(CreateCall(f.workdir, prompt, name, f.permissionMode));
    }

    /** `handlePermissionModeChange`: the skip-permissions mode waits for confirmation; others apply at once. */
    method HandlePermissionModeChange(sessionId: string, mode: string) returns (call: Option<ModeCall>)
      modifies this`pendingPermissionChange
      ensures mode == SkipPermissions ==>
        call.None? && pendingPermissionChange == Some(ModeCall(sessionId, mode))
      ensures mode != SkipPermissions ==>
        call == Some(ModeCall(sessionId, mode)) && pendingPermissionChange == old(pendingPermissionChange)
    {
      if mode == SkipPermissions {
        pendingPermissionChange := Some(ModeCall(sessionId, mode));
        call := None;
      } else {
        call := Some(ModeCall(sessionId, mode));
      }
    }

    /** `confirmPermissionChange`: the staged change, if any, is applied, and nothing stays staged. */
    method ConfirmPermissionChange() returns (call: Option<ModeCall>)
      modifies this`pendingPermissionChange
      ensures call == old(pendingPermissionChange) && pendingPermissionChange.None?
    {
      call := pendingPermissionChange;
      pendingPermissionChange := None;
    }
  }

  /** The skip-permissions mode reaches the session only through the confirmation. */
  method StagedSkip(slash: SlashMenu, modal: ModalStack, id: string) returns (first: Option<ModeCall>, confirmed: Option<ModeCall>)
    ensures first.None? && confirmed == Some(ModeCall(id, SkipPermissions))
  {
    var app := new App(slash, modal, None, None);
    first := app.HandlePermissionModeChange(id, SkipPermissions);
    confirmed := app.ConfirmPermissionChange();
  }
}
