/** The optimistic notes model: pending operations (add, delete, update) are
    kept beside the notes the repository last reported, and the published
    list is the notes with every pending operation applied in order. */
module Operations {
  import opened Outcomes
  import opened Lists

  datatype Note = Note(id: string, text: string)

  /** A pending operation, with the id the model gave it. */
  datatype Operation =
    | AddNote(id: int, note: Note)
    | DeleteNote(id: int, note: Note)
    | UpdateNote(id: int, note: Note, noteId: string)

  /** `Operation.invoke(notes)`. */
  function Apply(op: Operation, notes: seq<Note>): (r: seq<Note>)
    ensures op.AddNote? ==> r == notes + [op.note]
    ensures op.DeleteNote? ==>
              && (forall i :: 0 <= i < |r| ==> r[i].id != op.note.id && r[i] in notes)
              && (forall i :: 0 <= i < |notes| && notes[i].id != op.note.id ==> notes[i] in r)
              && (forall n :: multiset(r)[n] == if n.id != op.note.id then multiset(notes)[n] else 0)
              && r == Filter(notes, (n: Note) => n.id != op.note.id)
    ensures op.UpdateNote? ==>
              && |r| == |notes|
              && forall i :: 0 <= i < |notes| ==> r[i] == if notes[i].id == op.note.id then op.note else notes[i]
  {
    match op
    case AddNote(_, note) => notes + [note]
    case DeleteNote(_, note) =>
      FilterCounts(notes, (n: Note) => n.id != note.id);
      Filter(notes, (n: Note) => n.id != note.id)
    case UpdateNote(_, note, _) =>
      seq(|notes|, i requires 0 <= i < |notes| => if notes[i].id == note.id then note else notes[i])
  }

  datatype Message = Add(operation: Operation) | Remove(operationId: int) | Replace(operation: Operation) | Execute(operationId: int)

  datatype State = State(notes: seq<Note>, operations: seq<Operation>)

  /** The model's initial state: no notes, nothing pending. */
  const InitialState := State([], [])

  /** `operations.filter { it.id != id }`: every operation with another id
      stays, as often as it occurs, and those with this id go. The order is
      `Filter`'s (`FilterAppend`). */
  function WithoutId(ops: seq<Operation>, id: int): (r: seq<Operation>)
    ensures forall i :: 0 <= i < |r| ==> r[i].id != id && r[i] in ops
    ensures forall i :: 0 <= i < |ops| && ops[i].id != id ==> ops[i] in r
    ensures forall op :: multiset(r)[op] == if op.id != id then multiset(ops)[op] else 0
    ensures r == Filter(ops, (op: Operation) => op.id != id)
  {
    FilterCounts(ops, (op: Operation) => op.id != id);
    Filter(ops, (op: Operation) => op.id != id)
  }

  /** `onExecute`: apply the first pending operation with that id to the
      notes and drop every operation with that id; `first` throws when there
      is none. */
  function OnExecute(s: State, id: int): (r: Result<State>)
    ensures r.Failure? <==> forall i :: 0 <= i < |s.operations| ==> s.operations[i].id != id
    ensures r.Failure? ==> r.error == NoSuchElement
    ensures r.Success? ==>
              var k := FirstIndex(s.operations, (op: Operation) => op.id == id);
              && k < |s.operations| && s.operations[k].id == id
              && r.value == State(Apply(s.operations[k], s.notes), WithoutId(s.operations, id))
  {
    var k := FirstIndex(s.operations, (op: Operation) => op.id == id);
    if k < |s.operations| then Success(State(Apply(s.operations[k], s.notes), WithoutId(s.operations, id)))
    else Failure(NoSuchElement)
  }

  /** `onReplace`: every pending operation with the new one's id is replaced
      by it, in place. */
  function OnReplace(s: State, op: Operation): (r: State)
    ensures r.notes == s.notes
    ensures |r.operations| == |s.operations|
    ensures forall i :: 0 <= i < |s.operations| ==>
              r.operations[i] == if s.operations[i].id == op.id then op else s.operations[i]
  {
    s.(operations := seq(|s.operations|, i requires 0 <= i < |s.operations| =>
      if s.operations[i].id == op.id then op else s.operations[i]))
  }

  /** `onRemove` as written: it keeps the operations whose id EQUALS the
      removed one's. */
  function OnRemoveAsWritten(s: State, id: int): (r: State)
    ensures r.notes == s.notes
    ensures forall i :: 0 <= i < |r.operations| ==> r.operations[i].id == id && r.operations[i] in s.operations
    ensures forall i :: 0 <= i < |s.operations| && s.operations[i].id == id ==> s.operations[i] in r.operations
    ensures forall op :: multiset(r.operations)[op] == if op.id == id then multiset(s.operations)[op] else 0
    ensures r.operations == Filter(s.operations, (op: Operation) => op.id == id)
  {
    FilterCounts(s.operations, (op: Operation) => op.id == id);
    s.(operations := Filter(s.operations, (op: Operation) => op.id == id))
  }

  /** `onRemove` as evidently intended: every pending operation with that id
      is dropped and the others stay, in order. */
  function OnRemove(s: State, id: int): (r: State)
    ensures r.notes == s.notes
    ensures forall i :: 0 <= i < |r.operations| ==> r.operations[i].id != id && r.operations[i] in s.operations
    ensures forall i :: 0 <= i < |s.operations| && s.operations[i].id != id ==> s.operations[i] in r.operations
    ensures forall op :: multiset(r.operations)[op] == if op.id != id then multiset(s.operations)[op] else 0
    ensures r.operations == Filter(s.operations, (op: Operation) => op.id != id)
  {
    s.(operations := WithoutId(s.operations, id))
  }

  /** `onAdd`: the operation becomes the last pending one. */
  function OnAdd(s: State, op: Operation): (r: State)
    ensures r.notes == s.notes && r.operations == s.operations + [op]
  {
    s.(operations := s.operations + [op])
  }

  /** One message of a batch, with `Remove` as intended. */
  function Reduce(s: State, m: Message): Result<State>
  {
    match m
    case Add(op) => Success(OnAdd(s, op))
    case Remove(id) => Success(OnRemove(s, id))
    case Replace(op) => Success(OnReplace(s, op))
    case Execute(id) => OnExecute(s, id)
  }

  /** `onActions`: the batch applied left to right; an `Execute` that throws
      ends it. */
  function OnActions(ms: seq<Message>, s: State): Result<State>
    decreases |ms|
  {
    if ms == [] then Success(s)
    else match Reduce(s, ms[0])
      case Failure(e) => Failure(e)
      case Success(t) => OnActions(ms[1..], t)
  }

  /** A batch is its parts in order: running `a + b` is running `a`, then
      `b` on its result. */
  lemma {:induction false} OnActionsAppend(a: seq<Message>, b: seq<Message>, s: State)
    ensures OnActions(a + b, s) == match OnActions(a, s)
                                   case Failure(e) => Failure(e)
                                   case Success(t) => OnActions(b, t)
    decreases |a|
  {
    if a == [] {
      assert a + b == b;
    } else {
      assert (a + b)[0] == a[0];
      assert (a + b)[1..] == a[1..] + b;
      match Reduce(s, a[0])
      case Failure(e) =>
      case Success(t) => OnActionsAppend(a[1..], b, t);
    }
  }

  /** `onNotesChanged`: the repository's notes are taken only when nothing
      is pending. */
  function OnNotesChanged(s: State, notes: seq<Note>): (r: State)
    ensures s.operations == [] ==> r == State(notes, [])
    ensures s.operations != [] ==> r == s
  {
    if s.operations == [] then s.(notes := notes) else s
  }

  /** The pending operations folded over the notes, first to last. */
  function ApplyAll(ops: seq<Operation>, notes: seq<Note>): seq<Note>
    decreases |ops|
  {
    if ops == [] then notes else ApplyAll(ops[1..], Apply(ops[0], notes))
  }

  /** What `publishState` sends. */
  function Published(s: State): seq<Note>
  {
    ApplyAll(s.operations, s.notes)
  }

  /** The fold applies a longer list as its parts in order. */
  lemma {:induction false} ApplyAllAppend(a: seq<Operation>, b: seq<Operation>, notes: seq<Note>)
    ensures ApplyAll(a + b, notes) == ApplyAll(b, ApplyAll(a, notes))
    decreases |a|
  {
    if a == [] {
      assert a + b == b;
    } else {
      assert (a + b)[0] == a[0];
      assert (a + b)[1..] == a[1..] + b;
      ApplyAllAppend(a[1..], b, Apply(a[0], notes));
    }
  }

  /** A new pending operation shows on top of what was published. */
  lemma AddIsPublishedLast(s: State, op: Operation)
    ensures Published(OnAdd(s, op)) == Apply(op, Published(s))
  {
    ApplyAllAppend(s.operations, [op], s.notes);
    assert ApplyAll([op], Published(s)) == ApplyAll([], Apply(op, Published(s)));
  }

  /** Ids of pending operations are unique. */
  predicate UniqueIds(ops: seq<Operation>)
  {
    forall i, j :: 0 <= i < j < |ops| ==> ops[i].id != ops[j].id
  }

  /** Executing the oldest pending operation moves it into the notes and
      publishes the same list as before. */
  lemma {:induction false} ExecuteOldestKeepsPublished(s: State)
    requires s.operations != [] && UniqueIds(s.operations)
    ensures var r := OnExecute(s, s.operations[0].id);
            && r.Success?
            && r.value.operations == s.operations[1..]
            && Published(r.value) == Published(s)
  {
    var ops := s.operations;
    var id := ops[0].id;
    var rest := ops[1..];
    var p := (op: Operation) => op.id != id;
    assert FirstIndex(ops, (op: Operation) => op.id == id) == 0;
    forall i | 0 <= i < |rest|
      ensures p(rest[i])
    {
      assert rest[i] == ops[i + 1];
    }
    FilterAllOrNone(rest, p);
    assert Filter(ops, p) == Filter(rest, p) by {
      assert !p(ops[0]);
      assert ops[1..] == rest;
    }
    assert WithoutId(ops, id) == rest;
    var r := State(Apply(ops[0], s.notes), rest);
    assert OnExecute(s, id) == Success(r);
    assert Published(r) == ApplyAll(rest, Apply(ops[0], s.notes));
  }

  /** Removing an operation just added, whose id nothing else pending uses,
      restores the state. */
  lemma {:induction false} RemoveUndoesAdd(s: State, op: Operation)
    requires forall i :: 0 <= i < |s.operations| ==> s.operations[i].id != op.id
    ensures OnRemove(OnAdd(s, op), op.id) == s
  {
    var p := (o: Operation) => o.id != op.id;
    FilterAppend(s.operations, [op], p);
    FilterAllOrNone(s.operations, p);
    assert Filter([op], p) == [] + Filter([op][1..], p);
    assert [op][1..] == [];
  }

  /** As written, `Remove` of the first of two pending operations keeps that
      one and drops the other. */
  lemma RemoveAsWrittenKeepsTheRemoved()
    ensures var first := AddNote(1, Note("local:a", "a"));
            var second := DeleteNote(2, Note("b", "b"));
            var s := State([], [first, second]);
            && OnRemoveAsWritten(s, 1).operations == [first]
            && OnRemove(s, 1).operations == [second]
  {
    var first := AddNote(1, Note("local:a", "a"));
    var second := DeleteNote(2, Note("b", "b"));
    var s := State([], [first, second]);
    assert [first, second][1..] == [second];
    assert [second][1..] == [];
  }

  /** As written, a failed create (its `Add`, then its `Remove`) leaves the
      note it never stored published, on top of the repository's notes. */
  lemma {:induction false} FailedCreateStaysPublishedAsWritten(notes: seq<Note>, op: Operation)
    requires op.AddNote?
    ensures var s := OnRemoveAsWritten(OnAdd(State(notes, []), op), op.id);
            Published(s) == notes + [op.note]
  {
    var s := OnRemoveAsWritten(OnAdd(State(notes, []), op), op.id);
    assert [op][1..] == [];
    assert s.operations == [op];
    assert ApplyAll([op], notes) == ApplyAll([], Apply(op, notes));
  }

  /** With `Remove` as intended, a failed operation leaves the published list
      as it was before the operation was added. */
  lemma FailedOperationIsUndone(s: State, op: Operation)
    requires forall i :: 0 <= i < |s.operations| ==> s.operations[i].id != op.id
    ensures Published(OnRemove(OnAdd(s, op), op.id)) == Published(s)
  {
    RemoveUndoesAdd(s, op);
  }

  /** From the initial state, the repository's notes are published as they
      are. */
  lemma InitialStatePublishesRepositoryNotes(notes: seq<Note>)
    ensures OnNotesChanged(InitialState, notes) == State(notes, [])
    ensures Published(OnNotesChanged(InitialState, notes)) == notes
  {
  }
}
