/** The note editor: its own small store (`EditorImpl.reduce`), the two
    handlers that connect it to the notes screen, and the notes middleware
    (`EditorServiceImpl`) that opens editors. Middleware are scripts of
    ordered `next` calls, dispatches and closes, walked by the chain of
    module `Stores`. */
module NotesEditor {
  import opened Outcomes
  import opened NoteEntities
  import opened Notes
  import opened Stores

  // ---------------------------------------------------------------------
  // The editor's store

  datatype EditorState = EditorState(text: string, reset: bool)

  datatype EditorMessage = SetText(text: string) | Close | Reset | Submit

  /** The state an editor starts in: its initial text, marked as reset. */
  function InitialEditorState(editor: Editor): (r: EditorState)
    ensures r.text == editor.initialText && r.reset
  {
    EditorState(editor.initialText, true)
  }

  /** `EditorImpl.reduce`. */
  function EditorReduce(s: EditorState, m: EditorMessage): (r: EditorState)
    ensures m.SetText? ==> r == EditorState(m.text, false)
    ensures m.Reset? ==> r == EditorState("", true)
    ensures m.Submit? || m.Close? ==> r == s
  {
    match m
    case SetText(t) => s.(text := t, reset := false)
    case Reset => s.(text := "", reset := true)
    case Submit => s
    case Close => s
  }

  /** The editor's state after a run of messages, reduced in order. */
  function EditorRun(s: EditorState, ms: seq<EditorMessage>): EditorState
    decreases |ms|
  {
    if ms == [] then s else EditorRun(EditorReduce(s, ms[0]), ms[1..])
  }

  /** After a run of messages the text is the last `SetText`'s, or empty when
      a `Reset` came after it; `Submit` and `Close` never change it. With no
      `SetText` or `Reset` in the run the state is untouched. */
  lemma {:induction false} EditorRunKeepsLastWrite(s: EditorState, ms: seq<EditorMessage>)
    ensures var r := EditorRun(s, ms);
            var k := LastWrite(ms);
            && (k == |ms| ==> r == s)
            && (k < |ms| && ms[k].SetText? ==> r == EditorState(ms[k].text, false))
            && (k < |ms| && ms[k].Reset? ==> r == EditorState("", true))
    decreases |ms|
  {
    if ms != [] {
      EditorRunKeepsLastWrite(EditorReduce(s, ms[0]), ms[1..]);
      var k := LastWrite(ms[1..]);
      if k == |ms[1..]| {
        assert LastWrite(ms) == if ms[0].SetText? || ms[0].Reset? then 0 else |ms|;
      } else {
        assert LastWrite(ms) == k + 1;
        assert ms[k + 1] == ms[1..][k];
      }
    }
  }

  /** The index of the last `SetText` or `Reset`, or `|ms|` when there is none. */
  function LastWrite(ms: seq<EditorMessage>): (k: nat)
    ensures k <= |ms|
    ensures k < |ms| ==> ms[k].SetText? || ms[k].Reset?
    ensures forall j :: k < j < |ms| ==> !(ms[j].SetText? || ms[j].Reset?)
    ensures k == |ms| ==> forall j :: 0 <= j < |ms| ==> !(ms[j].SetText? || ms[j].Reset?)
    decreases |ms|
  {
    if ms == [] then 0
    else
      var k := LastWrite(ms[1..]);
      if k < |ms[1..]| then k + 1
      else if ms[0].SetText? || ms[0].Reset? then 0
      else |ms|
  }

  // ---------------------------------------------------------------------
  // The handlers of the editor's chain; what they send goes to the notes
  // dispatcher

  /** `UpdateHandler(entity)` and `CreateHandler`, by what they do with the
      editor's state and message. */
  function HandlerScript(h: Handler, s: EditorState, m: EditorMessage): (r: seq<Act<EditorState, EditorMessage, Message>>)
    ensures m.Submit? || m.Close? ==> |r| == 3 && r[0] == Next(s, m)
    ensures m.SetText? || m.Reset? ==> r == []
  {
    match m
    case Submit =>
      [Next(s, m), Emit(Reset),
       Send(if h.UpdateHandler? then Update(h.entity.(text := s.text)) else Create(s.text))]
    case Close =>
      [Next(s, m),
       Send(if h.UpdateHandler? then CancelEdit(h.entity) else OnCreateFinished),
       CloseDispatcher]
    case _ => []
  }

  /** The handler as a middleware. */
  function HandlerMiddleware(h: Handler): Middleware<EditorState, EditorMessage, Message>
  {
    (s: EditorState, m: EditorMessage) => HandlerScript(h, s, m)
  }

  /** The chain an editor is built with: its handler alone. */
  function EditorChain(editor: Editor): seq<Middleware<EditorState, EditorMessage, Message>>
  {
    [HandlerMiddleware(editor.handler)]
  }

  /** Through the editor's chain, `Submit` resets the editor and sends the
      note with the editor's text to the notes screen: `Update` of the edited
      entity, or `Create` for a new note. */
  lemma SubmitResetsAndSends(editor: Editor, s: EditorState)
    ensures var w := WalkFrom(EditorChain(editor), 0, s, Submit);
            && w.invoked == [0]
            && w.effects == [Emitted(Reset),
                             Sent(match editor.handler
                                  case UpdateHandler(e) => Update(e.(text := s.text))
                                  case CreateHandler => Create(s.text))]
  {
    LastMiddlewareRunsAlone(EditorChain(editor), s, Submit);
    var script := HandlerScript(editor.handler, s, Submit);
    assert EditorChain(editor)[0](s, Submit) == script;
    assert EffectsOf(script[2..]) == [Sent(script[2].out)] + EffectsOf(script[3..]);
    assert EffectsOf(script[1..]) == [Emitted(Reset)] + EffectsOf(script[2..]);
  }

  /** `Close` sends `CancelEdit` of the edited entity, or `OnCreateFinished`,
      and then closes the editor's dispatcher. */
  lemma CloseCancelsAndCloses(editor: Editor, s: EditorState)
    ensures var w := WalkFrom(EditorChain(editor), 0, s, Close);
            && w.invoked == [0]
            && w.effects == [Sent(match editor.handler
                                  case UpdateHandler(e) => CancelEdit(e)
                                  case CreateHandler => OnCreateFinished),
                             DispatcherClosed]
  {
    LastMiddlewareRunsAlone(EditorChain(editor), s, Close);
    var script := HandlerScript(editor.handler, s, Close);
    assert EditorChain(editor)[0](s, Close) == script;
    assert EffectsOf(script[2..]) == [DispatcherClosed] + EffectsOf(script[3..]);
    assert EffectsOf(script[1..]) == [Sent(script[1].out)] + EffectsOf(script[2..]);
  }

  /** `SetText` and `Reset` are neither forwarded nor answered. */
  lemma {:induction false} TextMessagesStopAtHandler(editor: Editor, s: EditorState, m: EditorMessage)
    requires m.SetText? || m.Reset?
    ensures WalkFrom(EditorChain(editor), 0, s, m) == Walk(1, [0], [])
  {
    assert HandlerScript(editor.handler, s, m) == [];
  }

  // ---------------------------------------------------------------------
  // `EditorServiceImpl`, a middleware of the notes screen

  /** `onEdit`'s condition: the item exists, is shown and is not being
      deleted. */
  predicate Editable(state: State, noteId: string)
  {
    var item := Get(state, noteId);
    item.NonNull? && item.value.Display? && !IsDeleting(item.value.flags)
  }

  /** The editor `startEditing` builds for an item. */
  function EditorFor(entity: NoteEntity): (r: Editor)
    ensures r.handler == UpdateHandler(entity) && r.initialText == entity.text
  {
    EditorImpl(UpdateHandler(entity), entity.text)
  }

  /** The editor `onCreate` builds. */
  const NewNoteEditor: Editor := EditorImpl(CreateHandler, "")

  /** `EditorServiceImpl.dispatch`: forward first; on `Edit` of an editable
      item forward again and start editing it; on `OnCreate` start a new
      note's editor. The service sends nothing to other sinks. */
  function ServiceScript(state: State, m: Message): (r: seq<Act<State, Message, ()>>)
    ensures |r| >= 1 && r[0] == Next(state, m)
    ensures m.Edit? && Editable(state, m.id) ==>
              r == [Next(state, m), Next(state, m),
                    Emit(OnEditingStarted(m.id, EditorFor(Get(state, m.id).value.entity)))]
    ensures m.OnCreate? ==> r == [Next(state, m), Emit(OnCreateStarted(NewNoteEditor))]
    ensures !(m.Edit? && Editable(state, m.id)) && !m.OnCreate? ==> r == [Next(state, m)]
  {
    [Next(state, m)] +
    match m
    case Edit(id) =>
      var item := Get(state, id);
      if item.NonNull? && item.value.Display? && !IsDeleting(item.value.flags) then
        [Next(state, m), Emit(OnEditingStarted(item.value.entity.id, EditorFor(item.value.entity)))]
      else []
    case OnCreate => [Emit(OnCreateStarted(NewNoteEditor))]
    case _ => []
  }

  function ServiceMiddleware(): Middleware<State, Message, ()>
  {
    (s: State, m: Message) => ServiceScript(s, m)
  }

  /** At the end of a chain the service's `next` calls reach nothing: what
      leaves the chain is `OnEditingStarted` exactly for an editable item,
      `OnCreateStarted` for `OnCreate`, and nothing otherwise. */
  lemma ServiceAtEndOfChain(mws: seq<Middleware<State, Message, ()>>, s: State, m: Message)
    requires |mws| > 0 && mws[|mws| - 1] == ServiceMiddleware()
    ensures var w := WalkFrom(mws, |mws| - 1, s, m);
            && w.pos == |mws|
            && w.invoked == [|mws| - 1]
            && w.effects == if m.Edit? && Editable(s, m.id)
                            then [Emitted(OnEditingStarted(m.id, EditorFor(Get(s, m.id).value.entity)))]
                            else if m.OnCreate? then [Emitted(OnCreateStarted(NewNoteEditor))]
                            else []
  {
    LastMiddlewareRunsAlone(mws, s, m);
    var script := ServiceScript(s, m);
    assert mws[|mws| - 1](s, m) == script;
    if m.Edit? && Editable(s, m.id) {
      assert EffectsOf(script[2..]) == [Emitted(script[2].message)] + EffectsOf(script[3..]);
      assert EffectsOf(script[1..]) == EffectsOf(script[2..]);
    } else if m.OnCreate? {
      assert EffectsOf(script[1..]) == [Emitted(script[1].message)] + EffectsOf(script[2..]);
    }
  }

  /** The service's second `next` shares the iterator with the first: with
      pass-through middleware after it, each of them still runs exactly once. */
  lemma {:induction false} SecondNextRunsNothingTwice(rest: seq<Middleware<State, Message, ()>>, s: State, id: string)
    requires forall k :: 0 <= k < |rest| ==> rest[k](s, Edit(id)) == [Next(s, Edit(id))]
    requires Editable(s, id)
    ensures var mws := [ServiceMiddleware()] + rest;
            var w := WalkFrom(mws, 0, s, Edit(id));
            && w.invoked == Range(0, |mws|)
            && w.effects == [Emitted(OnEditingStarted(id, EditorFor(Get(s, id).value.entity)))]
  {
    var m := Edit(id);
    var mws := [ServiceMiddleware()] + rest;
    var n := |mws|;
    forall k | 1 <= k < n
      ensures mws[k](s, m) == [Next(s, m)]
    {
      assert mws[k] == rest[k - 1];
    }
    PassThroughRunsAll(mws, 1, s, m);
    var started := Emitted(OnEditingStarted(id, EditorFor(Get(s, id).value.entity)));
    var script := ServiceScript(s, m);
    assert mws[0](s, m) == script;
    var tail := script[1..];
    PerformAtEnd(mws, 0, tail);
    assert EffectsOf(tail[1..]) == [started] + EffectsOf(tail[2..]);
    assert EffectsOf(tail) == EffectsOf(tail[1..]);
    var w1 := WalkFrom(mws, 1, s, m);
    assert Perform(mws, 1, 0, script) == Walk(n, w1.invoked + [], w1.effects + [started]);
    assert [0] + Range(1, n) == Range(0, n);
  }
}
