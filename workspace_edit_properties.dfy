/** What `WorkspaceEditApplicator` promises, stated on the step functions
    its methods are proved against. */
module WorkspaceEditProperties {
  import opened LspExceptions
  import opened TextEdits
  import opened DocumentState
  import opened WorkspaceEdit

  // _apply_text_document_edit

  /** A versioned edit on an untracked document is refused before anything
      is read or written. */
  lemma NotOpenRejected(w: World, edit: TextDocumentEdit)
    requires edit.textDocument.version.Some? && edit.textDocument.uri !in w.docs
    ensures TextDocumentEditStep(w, edit) == Step(Some(NotOpen(edit.textDocument.uri)), w)
  {}

  /** A versioned edit on a document tracked at another version is refused
      with both versions named, before anything is read or written. */
  lemma VersionMismatchRejected(w: World, edit: TextDocumentEdit)
    requires edit.textDocument.version.Some? && edit.textDocument.uri in w.docs
    requires w.docs[edit.textDocument.uri].version != edit.textDocument.version.value
    ensures var uri := edit.textDocument.uri;
      TextDocumentEditStep(w, edit) ==
        Step(Some(Mismatch(uri, edit.textDocument.version.value, w.docs[uri].version)), w)
  {}

  /** An edit goes through exactly when the document is tracked (at the
      version given, if one is), and its file exists. */
  lemma TextDocumentEditSucceedsIff(w: World, edit: TextDocumentEdit)
    ensures var id := edit.textDocument;
      TextDocumentEditStep(w, edit).error.None? <==>
        id.uri in w.docs && FromUri(id.uri) in w.files
        && (id.version.None? || id.version.value == w.docs[id.uri].version)
  {}

  /** A successful edit writes `apply_text_edits` of the old file content,
      stores that content and advances the version by exactly one; no other
      file or document changes. */
  lemma SuccessfulEditWritesAndAdvances(w: World, edit: TextDocumentEdit)
    requires var id := edit.textDocument;
      id.uri in w.docs && FromUri(id.uri) in w.files
      && (id.version.None? || id.version.value == w.docs[id.uri].version)
    ensures var uri := edit.textDocument.uri;
      var newContent := EditedContent(w.files[FromUri(uri)], edit.edits);
      var s := TextDocumentEditStep(w, edit);
      s.error.None?
      && s.world.files == w.files[FromUri(uri) := newContent]
      && s.world.docs == w.docs[uri := DocumentState(newContent, w.docs[uri].version + 1)]
  {}

  /** A version-less edit on an untracked document writes the file and then
      raises the store's `KeyError`, which no caller catches. */
  lemma UntrackedVersionlessEditRaises(w: World, edit: TextDocumentEdit)
    requires edit.textDocument.version.None? && edit.textDocument.uri !in w.docs
    requires FromUri(edit.textDocument.uri) in w.files
    ensures var uri := edit.textDocument.uri; var path := FromUri(uri);
      TextDocumentEditStep(w, edit) ==
        Step(Some(NotFound(uri)), World(w.files[path := EditedContent(w.files[path], edit.edits)], w.docs))
  {}

  /** A missing file fails the edit with the read's `OSError`, nothing
      changed. */
  lemma MissingFileFails(w: World, edit: TextDocumentEdit)
    requires var id := edit.textDocument;
      id.version.None? || (id.uri in w.docs && id.version.value == w.docs[id.uri].version)
    requires FromUri(edit.textDocument.uri) !in w.files
    ensures TextDocumentEditStep(w, edit) ==
              Step(Some(OSError("File not found: " + PathString(FromUri(edit.textDocument.uri)))), w)
  {}

  // _apply_document_changes

  /** Applying `a + b` is applying `a`, then, unless that raised, `b`. */
  lemma {:induction false} DocumentChangesAppend(w: World, a: seq<DocumentChange>, b: seq<DocumentChange>)
    ensures DocumentChangesStep(w, a + b) ==
              var s := DocumentChangesStep(w, a);
              if s.error.Some? then s else DocumentChangesStep(s.world, b)
    decreases |a|
  {
    if a == [] {
      assert a + b == b;
    } else {
      assert (a + b)[0] == a[0] && (a + b)[1..] == a[1..] + b;
      var first := DocumentChangeStep(w, a[0]);
      if first.error.None? {
        DocumentChangesAppend(first.world, a[1..], b);
      }
    }
  }

  /** The first change that raises ends the batch with its exception; what
      the changes before it wrote stays written, what follows it is never
      looked at. */
  lemma {:induction false} FirstFailureEndsBatch(w: World, done: seq<DocumentChange>, c: DocumentChange,
                                                rest: seq<DocumentChange>)
    requires DocumentChangesStep(w, done).error.None?
    requires DocumentChangeStep(DocumentChangesStep(w, done).world, c).error.Some?
    ensures DocumentChangesStep(w, done + [c] + rest) ==
              DocumentChangeStep(DocumentChangesStep(w, done).world, c)
  {
    DocumentChangesAppend(w, done, [c] + rest);
    assert done + [c] + rest == done + ([c] + rest);
    assert ([c] + rest)[0] == c;
  }

  /** A create, rename or delete fails with "… not yet supported" after the
      changes before it, whatever follows. */
  lemma {:induction false} ResourceOperationUnsupported(w: World, done: seq<DocumentChange>, c: DocumentChange,
                                                       rest: seq<DocumentChange>)
    requires !c.DocumentEdit?
    requires DocumentChangesStep(w, done).error.None?
    ensures DocumentChangesStep(w, done + [c] + rest) ==
              Step(Some(EditApplicationError(UnsupportedMessage(c), ResourceOperationUri(c))),
                   DocumentChangesStep(w, done).world)
  {
    FirstFailureEndsBatch(w, done, c, rest);
  }

  // _apply_changes

  /** Applying `a + b` in the `changes` format is applying `a`, then, unless
      that failed, `b`. */
  lemma {:induction false} ChangesAppend(w: World, a: seq<(Uri, seq<TextEdit>)>, b: seq<(Uri, seq<TextEdit>)>)
    ensures ChangesStep(w, a + b) ==
              var s := ChangesStep(w, a);
              if s.error.Some? then s else ChangesStep(s.world, b)
    decreases |a|
  {
    if a == [] {
      assert a + b == b;
    } else {
      assert (a + b)[0] == a[0] && (a + b)[1..] == a[1..] + b;
      var first := ChangeStep(w, a[0].0, a[0].1);
      if first.error.None? {
        ChangesAppend(first.world, a[1..], b);
      }
    }
  }

  /** An item of `changes` does what a version-less text-document edit
      does, except that an untracked document's `KeyError` is swallowed:
      the same files and documents result, and the only failure left is a
      missing file. */
  lemma ChangeIsVersionlessEdit(w: World, uri: Uri, edits: seq<TextEdit>)
    ensures var e := TextDocumentEditStep(w, TextDocumentEdit(DocumentId(uri, None), edits));
      var s := ChangeStep(w, uri, edits);
      s.world == e.world
      && s.error == (if e.error == Some(NotFound(uri)) then None else e.error)
  {}

  // apply_workspace_edit

  /** A non-empty `documentChanges` wins: `changes` is then ignored. */
  lemma DocumentChangesPreferred(w: World, edit: WorkspaceEdit)
    requires edit.documentChanges.Some? && edit.documentChanges.value != []
    ensures WorkspaceEditOutcome(w, edit) == WorkspaceEditOutcome(w, WorkspaceEdit(edit.documentChanges, None))
  {}

  /** With neither format present, nothing happens and the edit counts as
      applied. */
  lemma EmptyEditApplied(w: World, edit: WorkspaceEdit)
    requires edit.documentChanges.None? || edit.documentChanges.value == []
    requires edit.changes.None? || edit.changes.value == []
    ensures WorkspaceEditOutcome(w, edit) == Outcome(Returned((true, None)), w)
  {}

  /** A `changes` edit never escapes with an exception. */
  lemma ChangesFormatNeverRaises(w: World, edit: WorkspaceEdit)
    requires edit.documentChanges.None? || edit.documentChanges.value == []
    ensures WorkspaceEditOutcome(w, edit).result.Returned?
  {}

  /** The edit is reported applied exactly when no change raised; a
      failure reports the message of the first exception raised. */
  lemma AppliedIffNoException(w: World, edit: WorkspaceEdit)
    ensures var s := EditStep(w, edit); var o := WorkspaceEditOutcome(w, edit);
      (o.result == Returned((true, None)) <==> s.error.None?)
      && (s.error.Some? && Caught(s.error.value) ==>
            o.result == Returned((false, Some(s.error.value.message))))
  {}

  /** A batch that fails part-way reports the failure and keeps the writes
      of the changes before the failing one. */
  lemma {:induction false} FailedBatchKeepsEarlierWrites(w: World, edit: WorkspaceEdit, done: seq<DocumentChange>,
                                                        c: DocumentChange, rest: seq<DocumentChange>)
    requires edit.documentChanges == Some(done + [c] + rest)
    requires DocumentChangesStep(w, done).error.None?
    requires var s := DocumentChangeStep(DocumentChangesStep(w, done).world, c);
      s.error.Some? && Caught(s.error.value)
    ensures var s := DocumentChangeStep(DocumentChangesStep(w, done).world, c);
      WorkspaceEditOutcome(w, edit) ==
        Outcome(Returned((false, Some(s.error.value.message))), DocumentChangesStep(w, done).world)
  {
    FirstFailureEndsBatch(w, done, c, rest);
  }
}
