/**
 * The inline rename editor (src/hooks/useRename.ts). The caller's `onSave`
 * callback is awaited, so saving is two steps: `SaveRename` gives the call to
 * make, if any, and `SaveSettled` receives how it ended.
 */
module UseRename {
  import opened Wrappers
  import opened Strings

  /** A call of `onSave(id, name)`. */
  datatype SaveCall = SaveCall(id: string, name: string)

  /** `editingId && editedName.trim()`: an empty id or a blank name saves nothing. */
  function SaveCallFor(editingId: Option<string>, editedName: string): (c: Option<SaveCall>)
    ensures c.Some? <==> editingId.Some? && editingId.value != "" && !IsBlank(editedName)
    ensures c.Some? ==> c.value.id == editingId.value && c.value.name == Trim(editedName) && c.value.name != ""
  {
    TrimEmptyIffBlank(editedName);
    if editingId.Some? && editingId.value != "" && Trim(editedName) != "" then Some(SaveCall(editingId.value, Trim(editedName)))
    else None
  }

  class Rename {
    var editingId: Option<string>
    var editedName: string

    constructor()
      ensures editingId.None? && editedName == ""
    {
      editingId := None;
      editedName := "";
    }

    method StartRename(id: string, currentName: string)
      modifies this
      ensures editingId == Some(id) && editedName == currentName
    {
      editingId := Some(id);
      editedName := currentName;
    }

    method SetEditedName(name: string)
      modifies this`editedName
      ensures editedName == name
    {
      editedName := name;
    }

    method CancelRename()
      modifies this
      ensures editingId.None? && editedName == ""
    {
      editingId := None;
      editedName := "";
    }

    /**
     * Starts a save: the call to `onSave`, if the edit is saveable. Without a
     * call the editor is closed at once; with one it stays open until the call settles.
     */
    method SaveRename() returns (call: Option<SaveCall>)
      modifies this
      ensures call == SaveCallFor(old(editingId), old(editedName))
      ensures call.None? ==> editingId.None? && editedName == ""
      ensures call.Some? ==> editingId == old(editingId) && editedName == old(editedName)
    {
      call := SaveCallFor(editingId, editedName);
      if call.None? {
        editingId := None;
        editedName := "";
      }
    }

    /** The awaited `onSave` settled: on success the editor closes; a rejection propagates and leaves it open. */
    method SaveSettled(rejected: bool)
      modifies this
      ensures !rejected ==> editingId.None? && editedName == ""
      ensures rejected ==> editingId == old(editingId) && editedName == old(editedName)
    {
      if !rejected {
        editingId := None;
        editedName := "";
      }
    }
  }

  /** Starting a rename and saving it untouched calls `onSave` once with the trimmed name. */
  method RenameFlow(id: string, name: string) returns (call: Option<SaveCall>, closed: bool)
    requires id != "" && !IsBlank(name)
    ensures call == Some(SaveCall(id, Trim(name)))
    ensures closed
  {
    var r := new Rename();
    r.StartRename(id, name);
    call := r.SaveRename();
    r.SaveSettled(false);
    closed := r.editingId.None? && r.editedName == "";
  }
}
