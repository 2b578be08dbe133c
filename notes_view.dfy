/** `toViewState`: the list the second notes screen shows for a model state,
    and the item callbacks whose equality ignores what they do. */
module NotesView {
  import opened Outcomes
  import opened NoteEntities
  import opened NotesModel

  /** What a callback does when the view calls it; the blocks themselves are
      code the model does not run. */
  datatype Command =
    | RunDeleteNote
    | DispatchEditNote
    | DispatchCancelEdit
    | RunSaveEdit
    | RunCreateNote
    | DispatchUpdateEditorText
    | DispatchNewNote

  /** The value a callback wraps: a note or an editor. */
  datatype Subject = OfNote(note: NoteEntity) | OfEditor(editor: Editor)

  /** `ItemAction0(entity, block)` and `ItemAction1(entity, block)`. */
  datatype ItemAction = Action0(subject: Subject, command: Command) | Action1(subject: Subject, command: Command)

  /** `equals`: the same class and equal wrapped entities; the block is not
      compared. */
  predicate SameAction(x: ItemAction, y: ItemAction)
  {
    x.Action0? == y.Action0? && x.subject == y.subject
  }

  /** `hashCode`: the wrapped entity's. */
  function ActionHash(x: ItemAction): Subject
  {
    x.subject
  }

  /** `equals` is an equivalence and agrees with `hashCode`; callbacks of the
      same class over the same entity are equal whatever they do. */
  lemma SameActionIsConsistent(x: ItemAction, y: ItemAction, z: ItemAction)
    ensures SameAction(x, x)
    ensures SameAction(x, y) ==> SameAction(y, x)
    ensures SameAction(x, y) && SameAction(y, z) ==> SameAction(x, z)
    ensures SameAction(x, y) ==> ActionHash(x) == ActionHash(y)
    ensures SameAction(x, y) <==> (x.Action0? == y.Action0? && ActionHash(x) == ActionHash(y))
  {
  }

  datatype ListItem =
    | NoteItem(id: string, text: string, delete: ItemAction, onClicked: ItemAction)
    | EditorItem(text: string, isSaving: bool, error: Nullable<Error>,
                 cancel: ItemAction, save: ItemAction, setText: ItemAction, itemId: Nullable<string>)
    | AddItem(onClick: Command)

  /** The editor row, for a note (`save` stores the edit) or for a new note
      (`save` creates it). */
  function EditorRow(e: Editor, itemId: Nullable<string>): (r: ListItem)
    ensures r.EditorItem? && r.text == e.text && r.isSaving == e.isSaving && r.error == e.error
    ensures r.itemId == itemId
  {
    EditorItem(e.text, e.isSaving, e.error,
               Action0(OfEditor(e), DispatchCancelEdit),
               Action0(OfEditor(e), if itemId.Null? then RunCreateNote else RunSaveEdit),
               Action1(OfEditor(e), DispatchUpdateEditorText),
               itemId)
  }

  /** Whether the open editor, if any, is attached to this note. */
  predicate EditsNote(s: State, note: NoteEntity)
  {
    s.editor.NonNull? && s.editor.value.noteId == NonNull(note.id)
  }

  /** The row a note becomes. */
  function NoteRow(s: State, note: NoteEntity): ListItem
  {
    if EditsNote(s, note) then EditorRow(s.editor.value, NonNull(note.id))
    else NoteItem(note.id, note.text, Action0(OfNote(note), RunDeleteNote), Action0(OfNote(note), DispatchEditNote))
  }

  /** `State.toViewState()`. */
  function ToViewState(s: State): (r: seq<ListItem>)
    ensures |r| == |s.entities| + (if s.editor.Null? || s.editor.value.noteId.Null? then 1 else 0)
    ensures forall i :: 0 <= i < |s.entities| ==>
              if EditsNote(s, s.entities[i])
              then r[i] == EditorRow(s.editor.value, NonNull(s.entities[i].id))
              else r[i].NoteItem? && r[i].id == s.entities[i].id && r[i].text == s.entities[i].text
    ensures s.editor.Null? ==> r[|r| - 1] == AddItem(DispatchNewNote)
    ensures s.editor.NonNull? && s.editor.value.noteId.Null? ==> r[|r| - 1] == EditorRow(s.editor.value, Null)
    ensures forall i :: 0 <= i < |r| ==> (r[i].AddItem? <==> s.editor.Null? && i == |s.entities|)
  {
    var items := seq(|s.entities|, i requires 0 <= i < |s.entities| => NoteRow(s, s.entities[i]));
    var withAdd := if s.editor.Null? then items + [AddItem(DispatchNewNote)] else items;
    if s.editor.NonNull? && s.editor.value.noteId.Null? then withAdd + [EditorRow(s.editor.value, Null)]
    else withAdd
  }

  /** The two callbacks of a note row compare equal: both wrap the note, so a
      list differ sees no change between them. */
  lemma NoteRowCallbacksAreEqual(s: State, note: NoteEntity)
    requires !EditsNote(s, note)
    ensures var r := NoteRow(s, note);
            && SameAction(r.delete, r.onClicked)
            && r.delete.command != r.onClicked.command
  {
  }

  /** At most one editor row shows, and only while an editor is open. */
  lemma AtMostOneEditorRow(s: State, i: nat, j: nat)
    requires (forall a, b :: 0 <= a < b < |s.entities| ==> s.entities[a].id != s.entities[b].id)
    requires i < j < |ToViewState(s)|
    ensures !(ToViewState(s)[i].EditorItem? && ToViewState(s)[j].EditorItem?)
  {
  }

  /** With no notes and no editor the view is the "add" row alone. */
  lemma InitialViewIsAddItem()
    ensures ToViewState(InitialState) == [AddItem(DispatchNewNote)]
  {
  }
}
