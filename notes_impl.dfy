/** The notes screen's store: its items, its messages, its reducer and the
    projection of its state onto the list the screen shows. */
module Notes {
  import opened Outcomes
  import opened Lists
  import opened NoteEntities

  // ---------------------------------------------------------------------
  // Editors, as the messages carry them

  /** The middleware an editor is built with: editing an existing note, or
      creating a new one. */
  datatype Handler = UpdateHandler(entity: NoteEntity) | CreateHandler

  /** An `EditorImpl`, by what it is built from. */
  datatype Editor = EditorImpl(handler: Handler, initialText: string)

  // ---------------------------------------------------------------------
  // Flags

  const DELETING: bv32 := 1
  const UPDATING: bv32 := 2
  const CREATING: bv32 := 4

  /** `isDeleting`: `(flags and DELETING) > 0`. */
  predicate IsDeleting(flags: bv32)
  {
    flags & DELETING != 0
  }

  /** `isUpdating`. */
  predicate IsUpdating(flags: bv32)
  {
    flags & UPDATING != 0
  }

  /** `isCreating`. */
  predicate IsCreating(flags: bv32)
  {
    flags & CREATING != 0
  }

  /** `setFlag(flag, isSet)`: `or` when setting, `xor` when clearing. */
  function SetFlag(flags: bv32, flag: bv32, isSet: bool): bv32
  {
    if isSet then flags | flag else flags ^ flag
  }

  /** Setting a flag turns its bit on; clearing it flips the bit, which turns
      it off only when it was on. No other bit changes. */
  lemma SetFlagBits(flags: bv32, flag: bv32, isSet: bool)
    requires flag == DELETING || flag == UPDATING || flag == CREATING
    ensures SetFlag(flags, flag, isSet) & !flag == flags & !flag
    ensures isSet ==> SetFlag(flags, flag, isSet) & flag == flag
    ensures !isSet ==> (SetFlag(flags, flag, isSet) & flag == 0 <==> flags & flag == flag)
  {
  }

  // ---------------------------------------------------------------------
  // State and messages

  /** A row of the list: a note shown with its flags, or a note being edited. */
  datatype Item = Display(entity: NoteEntity, flags: bv32) | Editing(entity: NoteEntity, editor: Editor)

  /** The trailing row: a "create" action, nothing, or a new note's editor. */
  datatype CreateState = CreateAction | CreateNone | CreateEditor(editor: Editor)

  datatype State = State(loading: bool, entities: seq<Item>, createState: CreateState)

  /** The store's initial state. */
  const InitialState := State(false, [], CreateAction)

  datatype Message =
    | GetNotes
    | NotesChanged(notes: seq<NoteEntity>)
    | Edit(id: string)
    | OnEditingStarted(noteId: string, editor: Editor)
    | Update(entity: NoteEntity)
    | OnUpdating(entity: NoteEntity)
    | OnUpdated(entity: NoteEntity)
    | CancelEdit(entity: NoteEntity)
    | DeleteNote(id: string)
    | MarkDeleted(id: string)
    | OnNoteDeleted(id: string)
    | OnCreate
    | OnCreateFinished
    | Create(text: string)
    | OnCreateStarted(editor: Editor)
    | OnCreating(entity: NoteEntity)
    | OnCreated(entity: NoteEntity)

  /** Where the first item with id `noteId` is, or `|items|`. */
  function IdIndex(items: seq<Item>, noteId: string): nat
  {
    FirstIndex(items, (it: Item) => it.entity.id == noteId)
  }

  /** `state[noteId]`: `entities.firstOrNull { it.entity.id == noteId }`. */
  function Get(state: State, noteId: string): (r: Nullable<Item>)
    ensures r.Null? <==> forall i :: 0 <= i < |state.entities| ==> state.entities[i].entity.id != noteId
    ensures r.NonNull? ==> IdIndex(state.entities, noteId) < |state.entities|
    ensures r.NonNull? ==> r.value == state.entities[IdIndex(state.entities, noteId)]
    ensures r.NonNull? ==> r.value.entity.id == noteId
  {
    var i := IdIndex(state.entities, noteId);
    if i < |state.entities| then NonNull(state.entities[i]) else Null
  }

  /** `entities.indexOf(item)` on the item `state[noteId]` is the index of the
      first item with that id: the write-back in the `on*` reducers lands on
      the item that was read. */
  lemma {:induction false} IndexOfGetIsIdIndex(state: State, noteId: string)
    requires Get(state, noteId).NonNull?
    ensures IndexOf(state.entities, Get(state, noteId).value) == IdIndex(state.entities, noteId)
  {
    var item := Get(state, noteId).value;
    var i := IdIndex(state.entities, noteId);
    var j := IndexOf(state.entities, item);
    assert state.entities[i] == item;
  }

  /** `entities.toMutableList().let { it[indexOf(item)] = replacement }`. */
  function Replaced(state: State, item: Item, replacement: Item): (r: State)
    requires item in state.entities
    ensures r.loading == state.loading && r.createState == state.createState
    ensures |r.entities| == |state.entities|
    ensures r.entities[IndexOf(state.entities, item)] == replacement
    ensures forall j :: 0 <= j < |state.entities| && j != IndexOf(state.entities, item) ==>
              r.entities[j] == state.entities[j]
  {
    state.(entities := state.entities[IndexOf(state.entities, item) := replacement])
  }

  /** `after` differs from `before` at most in the first item with id `id`. */
  ghost predicate ChangesOnlyFirstWithId(before: State, after: State, id: string)
  {
    && after.loading == before.loading
    && after.createState == before.createState
    && |after.entities| == |before.entities|
    && forall j :: 0 <= j < |before.entities| && j != IdIndex(before.entities, id) ==>
         after.entities[j] == before.entities[j]
  }

  // ---------------------------------------------------------------------
  // The on* reducers

  /** `onCreated`: a `Display` item takes the stored entity and has its
      CREATING bit toggled by `setCreating(false)`: cleared when it was set,
      set when it was clear; any other case leaves the state as it is. */
  function OnCreatedStep(state: State, entity: NoteEntity): (r: State)
    ensures ChangesOnlyFirstWithId(state, r, entity.id)
    ensures var it := Get(state, entity.id);
            if it.NonNull? && it.value.Display?
            then r.entities[IdIndex(state.entities, entity.id)]
                   == Display(entity, SetFlag(it.value.flags, CREATING, false))
            else r == state
  {
    var item := Get(state, entity.id);
    if item.NonNull? && item.value.Display? then
      IndexOfGetIsIdIndex(state, entity.id);
      Replaced(state, item.value, item.value.(entity := entity, flags := SetFlag(item.value.flags, CREATING, false)))
    else state
  }

  /** `onCreating`: one `Display` item flagged CREATING is appended. */
  function OnCreatingStep(state: State, entity: NoteEntity): (r: State)
    ensures r.loading == state.loading && r.createState == state.createState
    ensures r.entities == state.entities + [Display(entity, CREATING)]
    ensures IsCreating(r.entities[|r.entities| - 1].flags)
  {
    state.(entities := state.entities + [Display(entity, CREATING)])
  }

  /** `onCancelEdit`: an `Editing` item goes back to `Display` with no flags. */
  function OnCancelEditStep(state: State, entity: NoteEntity): (r: State)
    ensures ChangesOnlyFirstWithId(state, r, entity.id)
    ensures var it := Get(state, entity.id);
            if it.NonNull? && it.value.Editing?
            then r.entities[IdIndex(state.entities, entity.id)] == Display(entity, 0)
            else r == state
  {
    var item := Get(state, entity.id);
    if item.NonNull? && item.value.Editing? then
      IndexOfGetIsIdIndex(state, entity.id);
      Replaced(state, item.value, Display(entity, 0))
    else state
  }

  /** `onUpdated`: a `Display` item takes the stored entity and has its
      UPDATING bit toggled by `setUpdating(false)`: cleared when it was set,
      set when it was clear. */
  function OnUpdatedStep(state: State, entity: NoteEntity): (r: State)
    ensures ChangesOnlyFirstWithId(state, r, entity.id)
    ensures var it := Get(state, entity.id);
            if it.NonNull? && it.value.Display?
            then r.entities[IdIndex(state.entities, entity.id)]
                   == Display(entity, SetFlag(it.value.flags, UPDATING, false))
            else r == state
  {
    var item := Get(state, entity.id);
    if item.NonNull? && item.value.Display? then
      IndexOfGetIsIdIndex(state, entity.id);
      Replaced(state, item.value, item.value.(entity := entity, flags := SetFlag(item.value.flags, UPDATING, false)))
    else state
  }

  /** `onUpdating`: an `Editing` item becomes `Display` flagged UPDATING. */
  function OnUpdatingStep(state: State, entity: NoteEntity): (r: State)
    ensures ChangesOnlyFirstWithId(state, r, entity.id)
    ensures var it := Get(state, entity.id);
            if it.NonNull? && it.value.Editing?
            then r.entities[IdIndex(state.entities, entity.id)] == Display(entity, UPDATING)
            else r == state
  {
    var item := Get(state, entity.id);
    if item.NonNull? && item.value.Editing? then
      IndexOfGetIsIdIndex(state, entity.id);
      Replaced(state, item.value, Display(entity, UPDATING))
    else state
  }

  /** `onEditingStarted`: the item with that id, of either kind, becomes
      `Editing` with the new editor and its own entity. */
  function OnEditingStartedStep(state: State, noteId: string, editor: Editor): (r: State)
    ensures ChangesOnlyFirstWithId(state, r, noteId)
    ensures var it := Get(state, noteId);
            if it.NonNull?
            then r.entities[IdIndex(state.entities, noteId)] == Editing(it.value.entity, editor)
            else r == state
  {
    var item := Get(state, noteId);
    if item.NonNull? then
      IndexOfGetIsIdIndex(state, noteId);
      Replaced(state, item.value, Editing(item.value.entity, editor))
    else state
  }

  /** `onMarkDeleted`: every `Display` item with that id gets the DELETING
      flag; nothing else changes. */
  function OnMarkDeletedStep(state: State, noteId: string): (r: State)
    ensures r.loading == state.loading && r.createState == state.createState
    ensures |r.entities| == |state.entities|
    ensures forall i :: 0 <= i < |state.entities| ==>
              var it := state.entities[i];
              r.entities[i] == if it.Display? && it.entity.id == noteId
                               then Display(it.entity, SetFlag(it.flags, DELETING, true)) else it
    ensures forall i :: (0 <= i < |state.entities| && state.entities[i].Display?
              && state.entities[i].entity.id == noteId) ==> IsDeleting(r.entities[i].flags)
  {
    state.(entities := seq(|state.entities|, i requires 0 <= i < |state.entities| =>
      var it := state.entities[i];
      if it.Display? && it.entity.id == noteId then it.(flags := SetFlag(it.flags, DELETING, true)) else it))
  }

  /** The filter of `onNoteDeleted`: a `Display` item with another id. */
  predicate KeptAfterDelete(it: Item, noteId: string)
  {
    it.Display? && it.entity.id != noteId
  }

  /** `onNoteDeleted`: only `Display` items with another id remain, so every
      `Editing` item goes too. */
  function OnNoteDeletedStep(state: State, noteId: string): (r: State)
    ensures r.loading == state.loading && r.createState == state.createState
    ensures forall i :: 0 <= i < |r.entities| ==> r.entities[i].Display? && r.entities[i].entity.id != noteId
    ensures forall i :: 0 <= i < |r.entities| ==> r.entities[i] in state.entities
    ensures forall i :: 0 <= i < |state.entities| && KeptAfterDelete(state.entities[i], noteId) ==>
              state.entities[i] in r.entities
    ensures forall it :: multiset(r.entities)[it] == if KeptAfterDelete(it, noteId) then multiset(state.entities)[it] else 0
    ensures r.entities == Filter(state.entities, (it: Item) => KeptAfterDelete(it, noteId))
  {
    FilterCounts(state.entities, (it: Item) => KeptAfterDelete(it, noteId));
    state.(entities := Filter(state.entities, (it: Item) => KeptAfterDelete(it, noteId)))
  }

  /** `withEntity`: the same kind of item holding another entity. */
  function WithEntity(it: Item, e: NoteEntity): Item
  {
    it.(entity := e)
  }

  /** `onNotesChanged`: one item per incoming note, in order; a note already
      listed keeps its item kind, flags or editor, a new one is shown with no
      flags; loading stops. */
  function OnNotesChangedStep(state: State, notes: seq<NoteEntity>): (r: State)
    ensures !r.loading && r.createState == state.createState
    ensures |r.entities| == |notes|
    ensures forall i :: 0 <= i < |notes| ==> r.entities[i].entity == notes[i]
    ensures forall i :: 0 <= i < |notes| ==>
              var old_ := Get(state, notes[i].id);
              if old_.NonNull? then r.entities[i].Display? == old_.value.Display?
                                 && (r.entities[i].Display? ==> r.entities[i].flags == old_.value.flags)
                                 && (r.entities[i].Editing? ==> r.entities[i].editor == old_.value.editor)
              else r.entities[i] == Display(notes[i], 0)
  {
    state.(loading := false, entities := seq(|notes|, i requires 0 <= i < |notes| =>
      var it := Get(state, notes[i].id);
      if it.NonNull? then WithEntity(it.value, notes[i]) else Display(notes[i], 0)))
  }

  // ---------------------------------------------------------------------
  // The reducer

  /** `reduce(state, message)` with `Update` and `OnUpdated` routed as their
      names say: `OnUpdated` clears the UPDATING flag; `Update`, which only
      asks the persistence middleware to store the note, changes nothing. */
  function Reduce(state: State, m: Message): State
  {
    match m
    case GetNotes => state.(loading := true)
    case NotesChanged(notes) => OnNotesChangedStep(state, notes)
    case OnNoteDeleted(id) => OnNoteDeletedStep(state, id)
    case MarkDeleted(id) => OnMarkDeletedStep(state, id)
    case OnUpdating(e) => OnUpdatingStep(state, e)
    case OnUpdated(e) => OnUpdatedStep(state, e)
    case OnEditingStarted(id, editor) => OnEditingStartedStep(state, id, editor)
    case CancelEdit(e) => OnCancelEditStep(state, e)
    case OnCreateStarted(editor) => state.(createState := CreateEditor(editor))
    case OnCreateFinished => state.(createState := CreateAction)
    case OnCreating(e) => OnCreatingStep(state, e)
    case OnCreated(e) => OnCreatedStep(state, e)
    case _ => state
  }

  /** `reduce(state, message)` as written: `Update` goes to `onUpdated`, and
      `OnUpdated` falls to the `else` branch. */
  function ReduceAsWritten(state: State, m: Message): State
  {
    match m
    case Update(e) => OnUpdatedStep(state, e)
    case OnUpdated(_) => state
    case _ => Reduce(state, m)
  }

  /** The messages `reduce` has no branch for leave the state unchanged. */
  lemma ReduceIgnoresRequests(state: State, m: Message)
    requires m.Edit? || m.DeleteNote? || m.OnCreate? || m.Create? || m.Update?
    ensures Reduce(state, m) == state
  {
  }

  /** The same, as written: there `OnUpdated` is the one without effect, and
      `Update` edits a `Display` item. */
  lemma ReduceAsWrittenIgnores(state: State, m: Message)
    requires m.Edit? || m.DeleteNote? || m.OnCreate? || m.Create? || m.OnUpdated?
    ensures ReduceAsWritten(state, m) == state
  {
  }

  /** The reducers of the edit round trip keep the item they touched at the
      first index with its id. */
  lemma {:induction false} SameIdIndexAfterChange(before: State, after: State, id: string)
    requires ChangesOnlyFirstWithId(before, after, id)
    requires Get(before, id).NonNull?
    requires after.entities[IdIndex(before.entities, id)].entity.id == id
    ensures IdIndex(after.entities, id) == IdIndex(before.entities, id)
    ensures Get(after, id) == NonNull(after.entities[IdIndex(before.entities, id)])
  {
    var i := IdIndex(before.entities, id);
    assert after.entities[i].entity.id == id;
  }

  /** The messages a successful edit produces: the editor's `Update`, then the
      persistence middleware's `OnUpdating` and `OnUpdated`. */
  function SaveRoundTrip(reduce: (State, Message) -> State, state: State, e: NoteEntity): State
  {
    reduce(reduce(reduce(state, Update(e)), OnUpdating(e)), OnUpdated(e))
  }

  /** As written, a note saved from its editor keeps the UPDATING flag
      forever after the save has finished. */
  lemma {:induction false} UpdatingFlagStaysSetAsWritten(state: State, e: NoteEntity)
    requires Get(state, e.id).NonNull? && Get(state, e.id).value.Editing?
    ensures var after := SaveRoundTrip(ReduceAsWritten, state, e);
            && Get(after, e.id) == NonNull(Display(e, UPDATING))
            && IsUpdating(Get(after, e.id).value.flags)
  {
    var s1 := ReduceAsWritten(state, Update(e));
    assert s1 == state;
    var s2 := ReduceAsWritten(s1, OnUpdating(e));
    SameIdIndexAfterChange(s1, s2, e.id);
    var s3 := ReduceAsWritten(s2, OnUpdated(e));
    assert s3 == s2;
  }

  /** With `OnUpdated` routed to `onUpdated`, the saved note ends as a plain
      `Display` item holding the saved entity, with no flag set. */
  lemma {:induction false} SaveRoundTripClearsUpdating(state: State, e: NoteEntity)
    requires Get(state, e.id).NonNull? && Get(state, e.id).value.Editing?
    ensures var after := SaveRoundTrip(Reduce, state, e);
            && ChangesOnlyFirstWithId(state, after, e.id)
            && Get(after, e.id) == NonNull(Display(e, 0))
            && !IsUpdating(Get(after, e.id).value.flags)
  {
    var s1 := Reduce(state, Update(e));
    assert s1 == state;
    var s2 := Reduce(s1, OnUpdating(e));
    SameIdIndexAfterChange(s1, s2, e.id);
    var s3 := Reduce(s2, OnUpdated(e));
    assert Get(s2, e.id).value == Display(e, UPDATING);
    assert SetFlag(UPDATING, UPDATING, false) == 0;
    SameIdIndexAfterChange(s2, s3, e.id);
  }

  // ---------------------------------------------------------------------
  // The projection onto the screen

  /** `Notes.Item`'s id: a note's editor row or the trailing create row. */
  datatype ItemId = EditItemId(noteId: string) | CreateItemId

  /** `Notes.Item`. Each callback is named by the message it dispatches. */
  datatype NotesItem =
    | NoteItem(entity: NoteEntity, delete: Message, edit: Message)
    | EditItem(id: ItemId, editor: Editor)
    | CreateItem(id: ItemId, create: Message)

  /** The filter `noteDeleting`: every item except a `Display` item flagged
      DELETING. */
  predicate Shown(it: Item)
  {
    !it.Display? || !IsDeleting(it.flags)
  }

  /** The row an item becomes. */
  function Row(it: Item): (r: NotesItem)
    ensures it.Display? ==> r == NoteItem(it.entity, DeleteNote(it.entity.id), Edit(it.entity.id))
    ensures it.Editing? ==> r == EditItem(EditItemId(it.entity.id), it.editor)
  {
    match it
    case Display(e, _) => NoteItem(e, DeleteNote(e.id), Edit(e.id))
    case Editing(e, editor) => EditItem(EditItemId(e.id), editor)
  }

  /** The trailing row for each create state. */
  function CreateRow(c: CreateState): seq<NotesItem>
  {
    match c
    case CreateNone => []
    case CreateAction => [CreateItem(CreateItemId, OnCreate)]
    case CreateEditor(editor) => [EditItem(CreateItemId, editor)]
  }

  /** The list `onNotesChanged` hands to its block: one row per shown item,
      in order, then the create row unless the create state is `None`. */
  function Project(state: State): (r: seq<NotesItem>)
    ensures var shown := Filter(state.entities, Shown);
            && |r| == |shown| + (if state.createState.CreateNone? then 0 else 1)
            && (forall i :: 0 <= i < |shown| ==> r[i] == Row(shown[i]))
    ensures forall i :: 0 <= i < |r| && r[i].NoteItem? ==>
              exists j :: 0 <= j < |state.entities| && state.entities[j].Display?
                       && state.entities[j].entity == r[i].entity && !IsDeleting(state.entities[j].flags)
    ensures state.createState.CreateAction? ==> r[|r| - 1] == CreateItem(CreateItemId, OnCreate)
    ensures state.createState.CreateEditor? ==> r[|r| - 1] == EditItem(CreateItemId, state.createState.editor)
  {
    var shown := Filter(state.entities, Shown);
    var rows := seq(|shown|, i requires 0 <= i < |shown| => Row(shown[i]));
    forall i | 0 <= i < |rows| && rows[i].NoteItem?
      ensures exists j :: 0 <= j < |state.entities| && state.entities[j].Display?
                       && state.entities[j].entity == rows[i].entity && !IsDeleting(state.entities[j].flags)
    {
      var j := IndexOf(state.entities, shown[i]);
      assert state.entities[j] == shown[i];
    }
    rows + CreateRow(state.createState)
  }

  /** The screen first shows only the "create" row. */
  lemma InitialScreenIsCreateRow()
    ensures Project(InitialState) == [CreateItem(CreateItemId, OnCreate)]
  {
  }
}
