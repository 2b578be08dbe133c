/** The notes model of the second notes screen: its state, its actions, the
    twelve reducers each guarded by the action it handles, and
    `notesReducer`, which runs them all in order. */
module NotesModel {
  import opened Outcomes
  import opened Lists
  import opened NoteEntities

  /** The note editor's state. Errors are opaque `Error` tokens. */
  datatype Editor = Editor(text: string, error: Nullable<Error>, noteId: Nullable<string>, isSaving: bool)

  datatype State = State(
    entities: seq<NoteEntity>,
    lastFetched: int,
    isLoading: bool,
    editor: Nullable<Editor>,
    error: Nullable<Error>)

  datatype Action =
    | LoadNotes
    | NotesLoaded(timestamp: int, notes: seq<NoteEntity>)
    | FailedToLoadNotes(cause: Error)
    | EditNote(noteId: string, editorId: string)
    | CancelEdit
    | UpdateEditorText(text: string)
    | SaveEdit
    | OnSaveSuccessful(entity: NoteEntity)
    | OnSaveFailed(saveError: Error)
    | NewNote
    | OnNoteAdded(entity: NoteEntity)
    | DeleteNote(noteId: string)

  /** `INITIAL_STATE`: no notes, never fetched, no editor, no error. */
  const InitialState := State([], -1, false, Null, Null)

  /** A reducer that may throw: `editNote`'s `first` does when the note is
      missing. */
  type PartialReducer = (State, Action) -> Result<State>

  // ---------------------------------------------------------------------
  // The twelve reducers. Each is `reducer<A> { ... }`: on any action that
  // is not an `A` it returns the state unchanged.

  function LoadNotesReducer(s: State, a: Action): (r: Result<State>)
    ensures r.Success?
    ensures a.LoadNotes? ==> r.value == s.(isLoading := true)
    ensures !a.LoadNotes? ==> r.value == s
  {
    if a.LoadNotes? then Success(s.(isLoading := true)) else Success(s)
  }

  function NotesLoadedReducer(s: State, a: Action): (r: Result<State>)
    ensures r.Success?
    ensures a.NotesLoaded? ==> && !r.value.isLoading && r.value.entities == a.notes
                               && r.value.lastFetched == a.timestamp
                               && r.value.editor == s.editor && r.value.error == s.error
    ensures !a.NotesLoaded? ==> r.value == s
  {
    if a.NotesLoaded? then Success(s.(isLoading := false, entities := a.notes, lastFetched := a.timestamp))
    else Success(s)
  }

  function FailedToLoadNotesReducer(s: State, a: Action): (r: Result<State>)
    ensures r.Success?
    ensures a.FailedToLoadNotes? ==> && !r.value.isLoading && r.value.error == NonNull(a.cause)
                                     && r.value == s.(isLoading := false, error := r.value.error)
    ensures !a.FailedToLoadNotes? ==> r.value == s
  {
    if a.FailedToLoadNotes? then Success(s.(isLoading := false, error := NonNull(a.cause))) else Success(s)
  }

  /** `editNote`: with no editor open, open one on the first note with that
      id, holding its text; that note must exist. With an editor open,
      nothing changes. */
  function EditNoteReducer(s: State, a: Action): (r: Result<State>)
    ensures !a.EditNote? || s.editor.NonNull? ==> r == Success(s)
    ensures a.EditNote? && s.editor.Null? ==>
              && (r.Failure? <==> forall i :: 0 <= i < |s.entities| ==> s.entities[i].id != a.noteId)
              && (r.Failure? ==> r.error == NoSuchElement)
              && (r.Success? ==>
                    var i := FirstIndex(s.entities, (n: NoteEntity) => n.id == a.noteId);
                    && i < |s.entities| && s.entities[i].id == a.noteId
                    && r.value == s.(editor := NonNull(Editor(s.entities[i].text, Null, NonNull(a.noteId), false))))
  {
    if a.EditNote? && s.editor.Null? then
      var i := FirstIndex(s.entities, (n: NoteEntity) => n.id == a.noteId);
      if i < |s.entities| then Success(s.(editor := NonNull(Editor(s.entities[i].text, Null, NonNull(a.noteId), false))))
      else Failure(NoSuchElement)
    else Success(s)
  }

  function CancelEditReducer(s: State, a: Action): (r: Result<State>)
    ensures r.Success?
    ensures a.CancelEdit? ==> r.value == s.(editor := Null)
    ensures !a.CancelEdit? ==> r.value == s
  {
    if a.CancelEdit? then Success(s.(editor := Null)) else Success(s)
  }

  /** `editor?.copy(text = ...)`: a missing editor stays missing. */
  function UpdateEditorTextReducer(s: State, a: Action): (r: Result<State>)
    ensures r.Success?
    ensures a.UpdateEditorText? ==>
              && r.value.editor.Null? == s.editor.Null?
              && (s.editor.NonNull? ==> r.value.editor.value == s.editor.value.(text := a.text))
              && r.value == s.(editor := r.value.editor)
    ensures !a.UpdateEditorText? ==> r.value == s
  {
    if a.UpdateEditorText? then
      Success(s.(editor := if s.editor.Null? then Null else NonNull(s.editor.value.(text := a.text))))
    else Success(s)
  }

  function SaveEditReducer(s: State, a: Action): (r: Result<State>)
    ensures r.Success?
    ensures a.SaveEdit? ==>
              && r.value.editor.Null? == s.editor.Null?
              && (s.editor.NonNull? ==> r.value.editor.value == s.editor.value.(isSaving := true))
              && r.value == s.(editor := r.value.editor)
    ensures !a.SaveEdit? ==> r.value == s
  {
    if a.SaveEdit? then
      Success(s.(editor := if s.editor.Null? then Null else NonNull(s.editor.value.(isSaving := true))))
    else Success(s)
  }

  /** `onSaveSuccessful`: the editor closes and every note with the saved
      note's id is replaced by it; the list keeps its length. */
  function OnSaveSuccessfulReducer(s: State, a: Action): (r: Result<State>)
    ensures r.Success?
    ensures a.OnSaveSuccessful? ==>
              && r.value.editor.Null?
              && |r.value.entities| == |s.entities|
              && (forall i :: 0 <= i < |s.entities| ==>
                    r.value.entities[i] == if s.entities[i].id == a.entity.id then a.entity else s.entities[i])
              && r.value == s.(editor := Null, entities := r.value.entities)
    ensures !a.OnSaveSuccessful? ==> r.value == s
  {
    if a.OnSaveSuccessful? then
      Success(s.(editor := Null, entities := seq(|s.entities|, i requires 0 <= i < |s.entities| =>
        if s.entities[i].id == a.entity.id then a.entity else s.entities[i])))
    else Success(s)
  }

  function OnSaveFailedReducer(s: State, a: Action): (r: Result<State>)
    ensures r.Success?
    ensures a.OnSaveFailed? ==>
              && r.value.editor.Null? == s.editor.Null?
              && (s.editor.NonNull? ==>
                    r.value.editor.value == s.editor.value.(isSaving := false, error := NonNull(a.saveError)))
              && r.value == s.(editor := r.value.editor)
    ensures !a.OnSaveFailed? ==> r.value == s
  {
    if a.OnSaveFailed? then
      Success(s.(editor := if s.editor.Null? then Null
                           else NonNull(s.editor.value.(isSaving := false, error := NonNull(a.saveError)))))
    else Success(s)
  }

  /** `newNote`: with no editor open, open an empty one attached to no note. */
  function NewNoteReducer(s: State, a: Action): (r: Result<State>)
    ensures r.Success?
    ensures a.NewNote? && s.editor.Null? ==> r.value == s.(editor := NonNull(Editor("", Null, Null, false)))
    ensures !a.NewNote? || s.editor.NonNull? ==> r.value == s
  {
    if a.NewNote? && s.editor.Null? then Success(s.(editor := NonNull(Editor("", Null, Null, false))))
    else Success(s)
  }

  function OnNoteAddedReducer(s: State, a: Action): (r: Result<State>)
    ensures r.Success?
    ensures a.OnNoteAdded? ==> r.value.entities == s.entities + [a.entity] && r.value.editor.Null?
    ensures a.OnNoteAdded? ==> r.value == s.(entities := r.value.entities, editor := Null)
    ensures !a.OnNoteAdded? ==> r.value == s
  {
    if a.OnNoteAdded? then Success(s.(entities := s.entities + [a.entity], editor := Null)) else Success(s)
  }

  /** `deleteNote`: every note with that id goes; the rest stay in order. */
  function DeleteNoteReducer(s: State, a: Action): (r: Result<State>)
    ensures r.Success?
    ensures a.DeleteNote? ==>
              && (forall i :: 0 <= i < |r.value.entities| ==> r.value.entities[i].id != a.noteId)
              && (forall i :: 0 <= i < |r.value.entities| ==> r.value.entities[i] in s.entities)
              && (forall i :: 0 <= i < |s.entities| && s.entities[i].id != a.noteId ==>
                    s.entities[i] in r.value.entities)
              && r.value == s.(entities := r.value.entities)
              && r.value.entities == Filter(s.entities, (n: NoteEntity) => n.id != a.noteId)
              && (forall n :: multiset(r.value.entities)[n] == if n.id != a.noteId then multiset(s.entities)[n] else 0)
    ensures !a.DeleteNote? ==> r.value == s
  {
    if a.DeleteNote? then
      FilterCounts(s.entities, (n: NoteEntity) => n.id != a.noteId);
      Success(s.(entities := Filter(s.entities, (n: NoteEntity) => n.id != a.noteId)))
    else Success(s)
  }

  // ---------------------------------------------------------------------
  // `notesReducer`

  /** The twelve reducers in the order `notesReducer` lists them. */
  function Reducers(): (r: seq<PartialReducer>)
    ensures |r| == 12
  {
    [LoadNotesReducer, NotesLoadedReducer, FailedToLoadNotesReducer, EditNoteReducer,
     CancelEditReducer, UpdateEditorTextReducer, SaveEditReducer, OnSaveSuccessfulReducer,
     OnSaveFailedReducer, NewNoteReducer, OnNoteAddedReducer, DeleteNoteReducer]
  }

  /** Which of the twelve reducers handles an action. */
  function Handler(a: Action): (k: nat)
    ensures k < 12
  {
    match a
    case LoadNotes => 0
    case NotesLoaded(_, _) => 1
    case FailedToLoadNotes(_) => 2
    case EditNote(_, _) => 3
    case CancelEdit => 4
    case UpdateEditorText(_) => 5
    case SaveEdit => 6
    case OnSaveSuccessful(_) => 7
    case OnSaveFailed(_) => 8
    case NewNote => 9
    case OnNoteAdded(_) => 10
    case DeleteNote(_) => 11
  }

  /** The reducers applied in order, each to the previous one's state; the
      first that throws ends the run. */
  function RunAll(rs: seq<PartialReducer>, s: State, a: Action): Result<State>
    decreases |rs|
  {
    if rs == [] then Success(s)
    else match rs[0](s, a)
      case Failure(e) => Failure(e)
      case Success(t) => RunAll(rs[1..], t, a)
  }

  /** `notesReducer`. */
  function NotesReducer(s: State, a: Action): Result<State>
  {
    RunAll(Reducers(), s, a)
  }

  /** Every reducer but the one `Handler` names leaves every state unchanged
      for the action: each action has exactly one reducer. */
  lemma OnlyHandlerActs(a: Action, k: nat, s: State)
    requires k < 12 && k != Handler(a)
    ensures Reducers()[k](s, a) == Success(s)
  {
  }

  /** Running reducers of which only the one at `k` may act is running that
      one. */
  lemma {:induction false} RunAllSingleActive(rs: seq<PartialReducer>, k: nat, s: State, a: Action)
    requires k < |rs|
    requires forall j, t :: 0 <= j < |rs| && j != k ==> rs[j](t, a) == Success(t)
    ensures RunAll(rs, s, a) == rs[k](s, a)
    decreases |rs|
  {
    if k == 0 {
      match rs[0](s, a)
      case Failure(e) =>
      case Success(t) => RunAllIdle(rs[1..], t, a);
    } else {
      assert rs[0](s, a) == Success(s);
      assert forall j, t :: 0 <= j < |rs[1..]| && j != k - 1 ==> rs[1..][j](t, a) == Success(t) by {
        forall j, t | 0 <= j < |rs[1..]| && j != k - 1
          ensures rs[1..][j](t, a) == Success(t)
        {
          assert rs[1..][j] == rs[j + 1];
        }
      }
      RunAllSingleActive(rs[1..], k - 1, s, a);
    }
  }

  /** Reducers that all leave the state unchanged leave it unchanged together. */
  lemma {:induction false} RunAllIdle(rs: seq<PartialReducer>, s: State, a: Action)
    requires forall j, t :: 0 <= j < |rs| ==> rs[j](t, a) == Success(t)
    ensures RunAll(rs, s, a) == Success(s)
    decreases |rs|
  {
    if rs != [] {
      assert rs[0](s, a) == Success(s);
      assert forall j, t :: 0 <= j < |rs[1..]| ==> rs[1..][j](t, a) == Success(t) by {
        forall j, t | 0 <= j < |rs[1..]|
          ensures rs[1..][j](t, a) == Success(t)
        {
          assert rs[1..][j] == rs[j + 1];
        }
      }
      RunAllIdle(rs[1..], s, a);
    }
  }

  /** `notesReducer` does what the one reducer for the action does. */
  lemma NotesReducerIsHandler(s: State, a: Action)
    ensures NotesReducer(s, a) == Reducers()[Handler(a)](s, a)
  {
    forall j, t | 0 <= j < 12 && j != Handler(a)
      ensures Reducers()[j](t, a) == Success(t)
    {
      OnlyHandlerActs(a, j, t);
    }
    RunAllSingleActive(Reducers(), Handler(a), s, a);
  }

  /** `notesReducer` throws only on `EditNote` of a missing note with no
      editor open. */
  lemma NotesReducerFailsOnlyOnMissingEdit(s: State, a: Action)
    ensures NotesReducer(s, a).Failure? <==>
              && a.EditNote? && s.editor.Null?
              && forall i :: 0 <= i < |s.entities| ==> s.entities[i].id != a.noteId
  {
    NotesReducerIsHandler(s, a);
  }
}
