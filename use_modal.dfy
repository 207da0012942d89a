/**
 * The modal stack (src/hooks/useModal.ts): the modal on top is the one shown;
 * a modal that the top one lists as a child is pushed over it, any other
 * replaces the whole stack, and closing returns to the parent.
 */
module UseModal {
  import opened Wrappers

  datatype ModalType = NewSession | FileBrowser | WorkdirConfig

  datatype ModalEntry = ModalEntry(id: ModalType, data: Option<string>)

  /** `MODAL_CHILDREN` (src/types/ui.ts): the modals that may open over each one. */
  function Children(m: ModalType): seq<ModalType> {
    match m
    case NewSession => [FileBrowser]
    case WorkdirConfig => [FileBrowser]
    case FileBrowser => []
  }

  /** `activeModal`: the top entry's id, or null. */
  function ActiveOf(stack: seq<ModalEntry>): (r: Option<ModalType>)
    ensures r.Some? <==> |stack| > 0
    ensures |stack| > 0 ==> r.value == stack[|stack| - 1].id
  {
    if |stack| > 0 then Some(stack[|stack| - 1].id) else None
  }

  /** `modalData`: the top entry's data, or null (also when the top entry has none). */
  function DataOf(stack: seq<ModalEntry>): (r: Option<string>)
    ensures |stack| == 0 ==> r.None?
    ensures |stack| > 0 ==> r == stack[|stack| - 1].data
  {
    if |stack| > 0 then stack[|stack| - 1].data else None
  }

  /** The stack after `openModal(id, data)`. */
  function Opened(stack: seq<ModalEntry>, id: ModalType, data: Option<string>): seq<ModalEntry> {
    if |stack| > 0 && id in Children(stack[|stack| - 1].id) then stack + [ModalEntry(id, data)]
    else [ModalEntry(id, data)]
  }

  /** The stack after `closeModal()`. */
  function Closed(stack: seq<ModalEntry>): seq<ModalEntry> {
    if |stack| <= 1 then [] else stack[..|stack| - 1]
  }

  /**
   * Opening always shows the new modal with its data; it is pushed over the
   * current stack exactly when it is a child of the top modal, otherwise the
   * stack becomes that single entry.
   */
  lemma OpenedSpec(stack: seq<ModalEntry>, id: ModalType, data: Option<string>)
    ensures var s := Opened(stack, id, data);
      && ActiveOf(s) == Some(id) && DataOf(s) == data
      && (|stack| > 0 && id in Children(stack[|stack| - 1].id) <==>
            |stack| > 0 && |s| == |stack| + 1 && s[..|stack|] == stack)
      && (!(|stack| > 0 && id in Children(stack[|stack| - 1].id)) <==> s == [ModalEntry(id, data)])
  {
    var s := Opened(stack, id, data);
    if |stack| > 0 && id in Children(stack[|stack| - 1].id) {
      assert s[..|stack|] == stack;
      assert s != [ModalEntry(id, data)] by {
        assert |s| >= 2;
      }
    }
  }

  /** Closing pops exactly one entry and shows the parent; a stack of one or none empties. */
  lemma ClosedSpec(stack: seq<ModalEntry>)
    ensures var s := Closed(stack);
      && |s| == (if |stack| == 0 then 0 else |stack| - 1)
      && s == stack[..|s|]
      && (|stack| >= 2 ==> ActiveOf(s) == Some(stack[|stack| - 2].id))
      && (|stack| <= 1 ==> ActiveOf(s).None?)
  {
  }

  /** Each entry above the bottom one is a child of the entry below it. */
  predicate Nested(stack: seq<ModalEntry>) {
    forall i :: 0 < i < |stack| ==> stack[i].id in Children(stack[i - 1].id)
  }

  /** The table gives children only to modals other than the file browser, which has none. */
  lemma ChildrenFacts(m: ModalType, c: ModalType)
    requires c in Children(m)
    ensures c == FileBrowser && m != FileBrowser && Children(c) == []
  {
  }

  /** A nested stack never holds more than two modals. */
  lemma NestedDepth(stack: seq<ModalEntry>)
    requires Nested(stack)
    ensures |stack| <= 2
  {
    if |stack| > 2 {
      assert stack[2].id in Children(stack[1].id);
      ChildrenFacts(stack[0].id, stack[1].id);
    }
  }

  /** Opening and closing keep the stack nested; so the empty start never grows past two. */
  lemma NestedPreserved(stack: seq<ModalEntry>, id: ModalType, data: Option<string>)
    requires Nested(stack)
    ensures Nested(Opened(stack, id, data)) && Nested(Closed(stack)) && Nested([])
    ensures |Opened(stack, id, data)| <= 2
  {
    var s := Opened(stack, id, data);
    if |stack| > 0 && id in Children(stack[|stack| - 1].id) {
      forall i | 0 < i < |s| ensures s[i].id in Children(s[i - 1].id) {
        if i < |stack| {
          assert s[i] == stack[i] && s[i - 1] == stack[i - 1];
        }
      }
    }
    NestedDepth(s);
  }

  /** The hook's state: the stack of open modals. */
  class ModalStack {
    var stack: seq<ModalEntry>

    constructor()
      ensures stack == []
    {
      stack := [];
    }

    function ActiveModal(): (r: Option<ModalType>)
      reads this
      ensures r == ActiveOf(stack)
    {
      ActiveOf(stack)
    }

    function ModalData(): (r: Option<string>)
      reads this
      ensures r == DataOf(stack)
    {
      DataOf(stack)
    }

    method OpenModal(id: ModalType, data: Option<string>)
      modifies this
      ensures stack == Opened(old(stack), id, data)
    {
      if |stack| > 0 && id in Children(stack[|stack| - 1].id) {
        stack := stack + [ModalEntry(id, data)];
      } else {
        stack := [ModalEntry(id, data)];
      }
    }

    method CloseModal()
      modifies this
      ensures stack == Closed(old(stack))
    {
      if |stack| <= 1 {
        stack := [];
      } else {
        stack := stack[..|stack| - 1];
      }
    }

    method CloseAllModals()
      modifies this
      ensures stack == []
    {
      stack := [];
    }
  }

  /**
   * The hook's scenarios: new session, then the file browser over it, then
   * close back to the new-session modal, then close all; and data carried by
   * a single modal.
   */
  method Scenarios() returns (afterChild: seq<ModalEntry>, afterClose: seq<ModalEntry>,
                              afterCloseAll: seq<ModalEntry>, withData: Option<string>)
    ensures |afterChild| == 2 && ActiveOf(afterChild) == Some(FileBrowser)
    ensures |afterClose| == 1 && ActiveOf(afterClose) == Some(NewSession)
    ensures afterCloseAll == [] && ActiveOf(afterCloseAll).None?
    ensures withData == Some("/home/user/project")
  {
    var m := new ModalStack();
    m.OpenModal(NewSession, None);
    m.OpenModal(FileBrowser, None);
    afterChild := m.stack;
    m.CloseModal();
    afterClose := m.stack;
    m.CloseAllModals();
    afterCloseAll := m.stack;
    var d := new ModalStack();
    d.OpenModal(WorkdirConfig, Some("/home/user/project"));
    withData := d.ModalData();
  }
}
