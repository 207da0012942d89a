/**
 * The message box's key handling and send button
 * (src/components/Chat/MessageInput.tsx). A key press is its key name and
 * whether Shift was held; the outcome is the callback it triggers and whether
 * the browser's default action is suppressed.
 */
module MessageInput {
  import opened Strings
  import opened UseSlashCommands

  datatype Action =
    | ArrowDown
    | ArrowUp
    | Select(cmd: SlashCommand)
    | CloseMenu
    | Send
    | Nothing

  datatype Outcome = Outcome(action: Action, prevented: bool)

  /** The menu takes the keys while it is shown and lists something. */
  predicate MenuMode(showSlashMenu: bool, commands: seq<SlashCommand>) {
    showSlashMenu && |commands| > 0
  }

  /** `handleKeyDown`. */
  function HandleKeyDown(key: string, shift: bool, showSlashMenu: bool,
                         commands: seq<SlashCommand>, selected: int): Outcome
  {
    if MenuMode(showSlashMenu, commands) && key == "ArrowDown" then Outcome(ArrowDown, true)
    else if MenuMode(showSlashMenu, commands) && key == "ArrowUp" then Outcome(ArrowUp, true)
    else if MenuMode(showSlashMenu, commands) && (key == "Tab" || (key == "Enter" && !shift)) then
      Outcome(if 0 <= selected < |commands| then Select(commands[selected]) else Nothing, true)
    else if MenuMode(showSlashMenu, commands) && key == "Escape" then Outcome(CloseMenu, false)
    else if key == "Enter" && !shift then Outcome(Send, true)
    else Outcome(Nothing, false)
  }

  /**
   * In menu mode the arrows only move, Tab or Enter picks the highlighted
   * command if there is one and never sends, and Escape only closes; outside it
   * an unshifted Enter sends; a shifted Enter never sends.
   */
  lemma KeyDispatch(key: string, shift: bool, show: bool, commands: seq<SlashCommand>, selected: int)
    ensures var o := HandleKeyDown(key, shift, show, commands, selected);
      && (MenuMode(show, commands) ==>
            && (key == "ArrowDown" ==> o == Outcome(ArrowDown, true))
            && (key == "ArrowUp" ==> o == Outcome(ArrowUp, true))
            && (key == "Tab" || (key == "Enter" && !shift) ==>
                  o.prevented && !o.action.Send? &&
                  (o.action.Select? <==> 0 <= selected < |commands|) &&
                  (o.action.Select? ==> o.action.cmd == commands[selected]))
            && (key == "Escape" ==> o.action == CloseMenu))
      && (!MenuMode(show, commands) ==> (o.action == Send <==> key == "Enter" && !shift))
      && (shift ==> o.action != Send)
      && (o.action == Send ==> key == "Enter" && !shift)
  {
  }

  /** The send button is disabled while `disabled` is set or the trimmed input is empty. */
  predicate SendDisabled(disabled: bool, inputText: string) {
    disabled || Trim(inputText) == ""
  }

  /** The button agrees with blankness: enabled exactly when not disabled and the input has a non-whitespace character. */
  lemma SendDisabledIffBlank(disabled: bool, inputText: string)
    ensures SendDisabled(disabled, inputText) <==> disabled || IsBlank(inputText)
  {
    TrimEmptyIffBlank(inputText);
  }
}
