/** The todo-list screen: three modals (add, edit, delete confirmation), the
    add and edit drafts, the "updating" flag of the submit buttons, and the
    query version whose every bump makes the list be fetched again.

    Backend calls are not made here: each handler that calls the backend
    returns the request it would send and takes the outcome of that call as a
    parameter. */
module TodoList {

  /** A todo as the screen holds it. */
  datatype Todo = Todo(id: int, title: string, description: string, completed: bool)

  /** The add form's draft. */
  datatype AddDraft = AddDraft(title: string, description: string)

  /** The named input a change event comes from. */
  datatype Field = Title | Description

  /** How a backend call ended: a response with its status code, or a thrown
      error (a network failure, or a status the HTTP client rejects). */
  datatype CallOutcome = Responded(status: int) | Threw

  /** What a handler sends to the backend. */
  datatype Request =
    | CreateTodo(title: string, description: string, user: int)
    | UpdateTodo(id: int, title: string, description: string)
    | SetCompleted(id: int, completed: bool)
    | DeleteTodo(id: int)

  /** The whole state of the screen at one moment. */
  datatype State = State(
    queryVersion: int,
    isEditModalOpen: bool,
    isUpdating: bool,
    isOpenConfirmModal: bool,
    isOpenAddModal: bool,
    todoToAdd: AddDraft,
    todoToEdit: Todo)

  const EmptyAdd := AddDraft("", "")
  const EmptyEdit := Todo(0, "", "", false)
  const Initial := State(1, false, false, false, false, EmptyAdd, EmptyEdit)

  /** Only a 200 response counts as success; any other response is ignored. */
  predicate Succeeded(outcome: CallOutcome)
  {
    outcome == Responded(200)
  }

  /** The todo with its completion flag flipped. */
  function Toggled(t: Todo): Todo
  {
    t.(completed := !t.completed)
  }

  function WithAddField(d: AddDraft, f: Field, value: string): AddDraft
  {
    match f
    case Title => d.(title := value)
    case Description => d.(description := value)
  }

  function WithEditField(t: Todo, f: Field, value: string): Todo
  {
    match f
    case Title => t.(title := value)
    case Description => t.(description := value)
  }

  class TodoListScreen {
    var queryVersion: int
    var isEditModalOpen: bool
    var isUpdating: bool
    var isOpenConfirmModal: bool
    var isOpenAddModal: bool
    var todoToAdd: AddDraft
    var todoToEdit: Todo

    function Snapshot(): State
      reads this
    {
      State(queryVersion, isEditModalOpen, isUpdating, isOpenConfirmModal, isOpenAddModal, todoToAdd, todoToEdit)
    }

    constructor ()
      ensures Snapshot() == Initial
    {
      queryVersion := 1;
      isEditModalOpen := false;
      isUpdating := false;
      isOpenConfirmModal := false;
      isOpenAddModal := false;
      todoToAdd := EmptyAdd;
      todoToEdit := EmptyEdit;
    }

    method OnCloseAddModal()
      modifies this
      ensures Snapshot() == old(Snapshot()).(todoToAdd := EmptyAdd, isOpenAddModal := false)
    {
      todoToAdd := EmptyAdd;
      isOpenAddModal := false;
    }

    method OnOpenAddModal()
      modifies this
      ensures Snapshot() == old(Snapshot()).(isOpenAddModal := true)
    {
      isOpenAddModal := true;
    }

    method OnCloseEditModal()
      modifies this
      ensures Snapshot() == old(Snapshot()).(todoToEdit := EmptyEdit, isEditModalOpen := false)
    {
      todoToEdit := EmptyEdit;
      isEditModalOpen := false;
    }

    method OnOpenEditModal(todo: Todo)
      modifies this
      ensures Snapshot() == old(Snapshot()).(todoToEdit := todo, isEditModalOpen := true)
    {
      todoToEdit := todo;
      isEditModalOpen := true;
    }

    method OpenConfirmModal(todo: Todo)
      modifies this
      ensures Snapshot() == old(Snapshot()).(todoToEdit := todo, isOpenConfirmModal := true)
    {
      todoToEdit := todo;
      isOpenConfirmModal := true;
    }

    method CloseConfirmModal()
      modifies this
      ensures Snapshot() == old(Snapshot()).(todoToEdit := EmptyEdit, isOpenConfirmModal := false)
    {
      todoToEdit := EmptyEdit;
      isOpenConfirmModal := false;
    }

    /** A keystroke in the add form replaces the named field of the add draft. */
    method OnAddChangeHandler(name: Field, value: string)
      modifies this
      ensures Snapshot() == old(Snapshot()).(todoToAdd := WithAddField(old(todoToAdd), name, value))
      ensures name == Title ==> todoToAdd.title == value && todoToAdd.description == old(todoToAdd.description)
      ensures name == Description ==> todoToAdd.description == value && todoToAdd.title == old(todoToAdd.title)
    {
      todoToAdd := WithAddField(todoToAdd, name, value);
    }

    /** A keystroke in the edit form replaces the named field of the edit draft. */
    method OnChangeHandler(name: Field, value: string)
      modifies this
      ensures Snapshot() == old(Snapshot()).(todoToEdit := WithEditField(old(todoToEdit), name, value))
      ensures todoToEdit.id == old(todoToEdit.id) && todoToEdit.completed == old(todoToEdit.completed)
      ensures name == Title ==> todoToEdit.title == value && todoToEdit.description == old(todoToEdit.description)
      ensures name == Description ==> todoToEdit.description == value && todoToEdit.title == old(todoToEdit.title)
    {
      todoToEdit := WithEditField(todoToEdit, name, value);
    }

    /** Deletes the todo held in the edit draft. On success the confirmation
        modal closes, the draft is reset and the list is fetched again;
        otherwise nothing changes. */
    method OnRemove(outcome: CallOutcome) returns (sent: Request)
      modifies this
      ensures sent == DeleteTodo(old(todoToEdit.id))
      ensures Succeeded(outcome) ==>
                Snapshot() == old(Snapshot()).(todoToEdit := EmptyEdit, isOpenConfirmModal := false,
                                               queryVersion := old(queryVersion) + 1)
      ensures !Succeeded(outcome) ==> Snapshot() == old(Snapshot())
    {
      sent := DeleteTodo(todoToEdit.id);
      if outcome == Responded(200) {
        CloseConfirmModal();
        queryVersion := queryVersion + 1;
      }
    }

    /** Flips the completion of `todo` on the backend. On success the edit
        draft becomes the flipped todo and the list is fetched again; the
        modal flags and the updating flag are left alone. Nothing is changed
        before the response arrives, so a failure changes nothing. */
    method OnToggleComplete(todo: Todo, outcome: CallOutcome) returns (sent: Request)
      modifies this
      ensures sent == SetCompleted(todo.id, !todo.completed)
      ensures Succeeded(outcome) ==>
                Snapshot() == old(Snapshot()).(todoToEdit := Toggled(todo), queryVersion := old(queryVersion) + 1)
      ensures !Succeeded(outcome) ==> Snapshot() == old(Snapshot())
    {
      var updatedTodo := Toggled(todo);
      sent := SetCompleted(updatedTodo.id, updatedTodo.completed);
      if outcome == Responded(200) {
        todoToEdit := updatedTodo;
        queryVersion := queryVersion + 1;
      }
    }

    /** Creates a todo from the add draft for the signed-in user. On success
        the add modal closes with an empty draft and the list is fetched
        again; on any outcome the updating flag ends cleared, and a failure
        keeps the modal open with what was typed. */
    method OnAddSubmitHandler(user: int, outcome: CallOutcome) returns (sent: Request)
      modifies this
      ensures sent == CreateTodo(old(todoToAdd.title), old(todoToAdd.description), user)
      ensures Succeeded(outcome) ==>
                Snapshot() == old(Snapshot()).(todoToAdd := EmptyAdd, isOpenAddModal := false,
                                               queryVersion := old(queryVersion) + 1, isUpdating := false)
      ensures !Succeeded(outcome) ==> Snapshot() == old(Snapshot()).(isUpdating := false)
    {
      isUpdating := true;
      sent := CreateTodo(todoToAdd.title, todoToAdd.description, user);
      if outcome == Responded(200) {
        OnCloseAddModal();
        queryVersion := queryVersion + 1;
      }
      isUpdating := false;
    }

    /** Saves the title and description of the edit draft. On success the
        edit modal closes with an empty draft and the list is fetched again;
        on any outcome the updating flag ends cleared, and a failure keeps
        the modal open with what was typed. */
    method OnSubmitHandler(outcome: CallOutcome) returns (sent: Request)
      modifies this
      ensures sent == UpdateTodo(old(todoToEdit.id), old(todoToEdit.title), old(todoToEdit.description))
      ensures Succeeded(outcome) ==>
                Snapshot() == old(Snapshot()).(todoToEdit := EmptyEdit, isEditModalOpen := false,
                                               queryVersion := old(queryVersion) + 1, isUpdating := false)
      ensures !Succeeded(outcome) ==> Snapshot() == old(Snapshot()).(isUpdating := false)
    {
      isUpdating := true;
      sent := UpdateTodo(todoToEdit.id, todoToEdit.title, todoToEdit.description);
      if outcome == Responded(200) {
        OnCloseEditModal();
        queryVersion := queryVersion + 1;
      }
      isUpdating := false;
    }
  }

  // ---------------------------------------------------------------------------
  // Sessions on a fresh screen

  /** Two successful toggles, the second on the todo as refetched after the
      first, give back the original todo and bump the query version twice. */
  method ToggleTwice(todo: Todo) returns (after: Todo, sentFirst: Request, sentSecond: Request, version: int)
    ensures after == todo
    ensures sentFirst == SetCompleted(todo.id, !todo.completed)
    ensures sentSecond == SetCompleted(todo.id, todo.completed)
    ensures version == 3
  {
    var screen := new TodoListScreen();
    sentFirst := screen.OnToggleComplete(todo, Responded(200));
    sentSecond := screen.OnToggleComplete(screen.todoToEdit, Responded(200));
    after := screen.todoToEdit;
    version := screen.queryVersion;
  }

  /** Confirming a delete that succeeds sends the chosen todo's id, closes the
      confirmation, resets the draft and bumps the query version by one. */
  method ConfirmDelete(todo: Todo) returns (sent: Request, confirmOpen: bool, draft: Todo, version: int)
    ensures sent == DeleteTodo(todo.id)
    ensures !confirmOpen && draft == EmptyEdit && version == 2
  {
    var screen := new TodoListScreen();
    screen.OpenConfirmModal(todo);
    sent := screen.OnRemove(Responded(200));
    confirmOpen := screen.isOpenConfirmModal;
    draft := screen.todoToEdit;
    version := screen.queryVersion;
  }

  /** An edit whose save fails leaves the edit modal open with the typed
      title, clears the updating flag and does not bump the query version. */
  method FailedEdit(todo: Todo, typed: string) returns (sent: Request, editOpen: bool, draft: Todo, updating: bool, version: int)
    ensures sent == UpdateTodo(todo.id, typed, todo.description)
    ensures editOpen && draft == todo.(title := typed) && !updating && version == 1
  {
    var screen := new TodoListScreen();
    screen.OnOpenEditModal(todo);
    screen.OnChangeHandler(Title, typed);
    sent := screen.OnSubmitHandler(Threw);
    editOpen := screen.isEditModalOpen;
    draft := screen.todoToEdit;
    updating := screen.isUpdating;
    version := screen.queryVersion;
  }
}
