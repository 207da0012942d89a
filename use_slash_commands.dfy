/**
 * The slash-command menu (src/hooks/useSlashCommands.ts): whether it is shown,
 * the text typed after '/', the highlighted row, and the commands that match.
 * Case-insensitive matching lower-cases ASCII letters only.
 */
module UseSlashCommands {
  import opened Strings
  import opened Seqs

  datatype SlashCommand = SlashCommand(name: string, description: string)

  /** `SLASH_COMMANDS` (src/utils/constants.ts). */
  const SlashCommands: seq<SlashCommand> := [
    SlashCommand("help", "Show available commands"),
    SlashCommand("clear", "Clear conversation history"),
    SlashCommand("compact", "Summarize and compact conversation"),
    SlashCommand("bug", "Report a bug in the current project"),
    SlashCommand("config", "View or modify configuration"),
    SlashCommand("cost", "Show token usage and costs"),
    SlashCommand("doctor", "Check system health"),
    SlashCommand("init", "Initialize Claude Code in a project"),
    SlashCommand("login", "Log in to your account"),
    SlashCommand("logout", "Log out of your account"),
    SlashCommand("mcp", "Manage MCP servers"),
    SlashCommand("memory", "Edit CLAUDE.md memory file"),
    SlashCommand("model", "Switch AI model"),
    SlashCommand("permissions", "View or manage permissions"),
    SlashCommand("pr-comments", "View PR comments"),
    SlashCommand("review", "Review code changes"),
    SlashCommand("terminal-setup", "Set up terminal integration"),
    SlashCommand("vim", "Toggle vim mode"),
    SlashCommand("add-dir", "Add a directory to context")
  ]

  /** The command's name or description contains the lower-cased filter, ignoring case. */
  predicate MatchesLower(cmd: SlashCommand, lower: string) {
    Contains(ToLower(cmd.name), lower) || Contains(ToLower(cmd.description), lower)
  }

  function Matcher(lower: string): SlashCommand -> bool {
    cmd => MatchesLower(cmd, lower)
  }

  /** `filteredCommands`: every command for an empty filter, else the matching ones. */
  function FilteredCommands(commands: seq<SlashCommand>, filter: string): (r: seq<SlashCommand>)
    ensures filter == "" ==> r == commands
    ensures filter != "" ==> forall c :: c in r <==> c in commands && MatchesLower(c, ToLower(filter))
    ensures |r| <= |commands|
  {
    if filter == "" then commands else Filter(commands, Matcher(ToLower(filter)))
  }

  /** The matching commands keep their original order: a command listed after the others comes out after them. */
  lemma FilteredKeepsOrder(commands: seq<SlashCommand>, c: SlashCommand, filter: string)
    ensures FilteredCommands(commands + [c], filter)
         == FilteredCommands(commands, filter) + (if filter == "" || MatchesLower(c, ToLower(filter)) then [c] else [])
  {
    if filter != "" {
      FilterSnoc(commands, c, Matcher(ToLower(filter)));
    }
  }

  /** Filtering ignores case: a filter and its lower-cased form give the same commands. */
  lemma FilterIgnoresCase(commands: seq<SlashCommand>, filter: string)
    ensures FilteredCommands(commands, filter) == FilteredCommands(commands, ToLower(filter))
  {
    ToLowerFacts(filter);
    if filter != "" {
      assert ToLower(filter) != "";
    } else {
      assert ToLower(filter) == "";
    }
  }

  /** `Math.min(i + 1, count - 1)`. */
  function ArrowDownIndex(i: int, count: nat): (j: int)
    ensures j <= i + 1 && j <= count - 1
    ensures j == i + 1 || j == count - 1
  {
    if i + 1 < count - 1 then i + 1 else count - 1
  }

  /** `Math.max(i - 1, 0)`. */
  function ArrowUpIndex(i: int): (j: int)
    ensures j >= 0 && j >= i - 1
    ensures j == i - 1 || j == 0
  {
    if i - 1 > 0 then i - 1 else 0
  }

  /** An index on a row stays on a row; an empty list drives arrow-down to -1. */
  lemma ArrowsStayInRange(i: int, count: nat)
    requires 0 <= i < count
    ensures 0 <= ArrowDownIndex(i, count) < count
    ensures 0 <= ArrowUpIndex(i) < count
    ensures ArrowDownIndex(0, 0) == -1
  {
  }

  class SlashMenu {
    var showSlashMenu: bool
    var slashFilter: string
    var selectedSlashIndex: int

    constructor()
      ensures !showSlashMenu && slashFilter == "" && selectedSlashIndex == 0
    {
      showSlashMenu := false;
      slashFilter := "";
      selectedSlashIndex := 0;
    }

    function Filtered(): (r: seq<SlashCommand>)
      reads this
      ensures r == FilteredCommands(SlashCommands, slashFilter)
    {
      FilteredCommands(SlashCommands, slashFilter)
    }

    method SetSlashFilter(filter: string)
      modifies this`slashFilter
      ensures slashFilter == filter
    {
      slashFilter := filter;
    }

    method SetSelectedSlashIndex(index: int)
      modifies this`selectedSlashIndex
      ensures selectedSlashIndex == index
    {
      selectedSlashIndex := index;
    }

    method OpenSlashMenu()
      modifies this`showSlashMenu
      ensures showSlashMenu
    {
      showSlashMenu := true;
    }

    method CloseSlashMenu()
      modifies this
      ensures !showSlashMenu && slashFilter == "" && selectedSlashIndex == 0
    {
      showSlashMenu := false;
      slashFilter := "";
      selectedSlashIndex := 0;
    }

    /** Hides the menu and clears the filter (the highlighted row is kept) and gives the text to insert. */
    method SelectCommand(cmd: SlashCommand) returns (text: string)
      modifies this`showSlashMenu, this`slashFilter
      ensures text == "/" + cmd.name + " "
      ensures !showSlashMenu && slashFilter == ""
    {
      showSlashMenu := false;
      slashFilter := "";
      text := "/" + cmd.name + " ";
    }

    method HandleArrowDown()
      modifies this`selectedSlashIndex
      ensures selectedSlashIndex == ArrowDownIndex(old(selectedSlashIndex), |Filtered()|)
    {
      selectedSlashIndex := ArrowDownIndex(selectedSlashIndex, |Filtered()|);
    }

    method HandleArrowUp()
      modifies this`selectedSlashIndex
      ensures selectedSlashIndex == ArrowUpIndex(old(selectedSlashIndex))
    {
      selectedSlashIndex := ArrowUpIndex(selectedSlashIndex);
    }
  }
}
