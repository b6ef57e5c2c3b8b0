/** `WorkspaceEditApplicator` of src/lsp_client/utils/workspace_edit.py and
    the part of its client it uses: a file store addressed through
    `from_uri`, and the document-state store.

    Each applicator method is proved against a pure function over a `World`
    (files and tracked documents) that returns the exception raised, if any,
    together with the world afterwards. */
module WorkspaceEdit {
  import opened PyText
  import opened LspExceptions
  import opened TextEdits
  import opened DocumentState

  /** What `from_uri` gives: the local path of a `file://` URI; any other
      URI is kept apart as itself. */
  datatype Path = FilePath(local: string) | OtherUri(uri: Uri)

  const FILE_SCHEME: string := "file://"

  /** `from_uri(uri, relative=False)`: strips the `file://` scheme. */
  function FromUri(uri: Uri): Path {
    if FILE_SCHEME <= uri then FilePath(uri[|FILE_SCHEME|..]) else OtherUri(uri)
  }

  /** The URI a path came from. */
  function ToUri(p: Path): Uri {
    match p
    case FilePath(local) => FILE_SCHEME + local
    case OtherUri(uri) => uri
  }

  lemma FromUriRoundTrip(uri: Uri)
    ensures ToUri(FromUri(uri)) == uri
  {
    if FILE_SCHEME <= uri {
      assert uri == uri[..|FILE_SCHEME|] + uri[|FILE_SCHEME|..];
    }
  }

  /** Distinct URIs address distinct files. */
  lemma FromUriInjective(a: Uri, b: Uri)
    requires FromUri(a) == FromUri(b)
    ensures a == b
  {
    FromUriRoundTrip(a);
    FromUriRoundTrip(b);
  }

  /** `str(path)`. */
  function PathString(p: Path): string {
    match p
    case FilePath(local) => local
    case OtherUri(uri) => uri
  }

  type Files = map<Path, string>

  /** `read_file(path)`: a missing file raises `FileNotFoundError`, an
      `OSError`. */
  function ReadFileOf(files: Files, path: Path): (r: Raising<string>)
    ensures r.Returned? <==> path in files
    ensures r.Returned? ==> r.value == files[path]
    ensures r.Raised? ==> r.error == OSError("File not found: " + PathString(path))
  {
    if path in files then Returned(files[path])
    else Raised(OSError("File not found: " + PathString(path)))
  }

  /** `write_file(uri, content)`: stores `content` at the URI's path. */
  function WriteFileOf(files: Files, uri: Uri, content: string): (r: Files)
    ensures FromUri(uri) in r && r[FromUri(uri)] == content
    ensures forall p :: p != FromUri(uri) ==> (p in r <==> p in files) && (p in r ==> r[p] == files[p])
  {
    files[FromUri(uri) := content]
  }

  /** Everything the applicator reads and changes. */
  datatype World = World(files: Files, docs: DocMap)

  /** The exception a step raised, if any, and the world it left behind
      (a raising step keeps the writes it made before raising). */
  datatype Step = Step(error: Option<Exception>, world: World)

  /** `OptionalVersionedTextDocumentIdentifier`. */
  datatype DocumentId = DocumentId(uri: Uri, version: Option<int>)

  datatype TextDocumentEdit = TextDocumentEdit(textDocument: DocumentId, edits: seq<TextEdit>)

  /** An entry of `documentChanges`. */
  datatype DocumentChange =
    | DocumentEdit(edit: TextDocumentEdit)
    | CreateFile(uri: Uri)
    | RenameFile(oldUri: Uri, newUri: Uri)
    | DeleteFile(uri: Uri)

  /** `WorkspaceEdit`; the `changes` dictionary as its items in order. */
  datatype WorkspaceEdit = WorkspaceEdit(
    documentChanges: Option<seq<DocumentChange>>,
    changes: Option<seq<(Uri, seq<TextEdit>)>>)

  function NotOpen(uri: Uri): Exception {
    EditApplicationError("Document " + uri + " not open in client", uri)
  }

  function Mismatch(uri: Uri, expected: int, actual: int): Exception {
    VersionMismatchError(
      "Version mismatch for " + uri + ": expected " + IntToString(expected) + ", got " + IntToString(actual),
      uri, expected, actual)
  }

  /** An exception `apply_workspace_edit` catches and turns into a failure
      reason. */
  predicate Caught(e: Exception) {
    IsEditApplicationError(e) || e.OSError?
  }

  /** The version check of `_apply_text_document_edit`: with a version
      given, the document must be tracked at exactly that version. */
  function VersionGate(docs: DocMap, id: DocumentId): (r: Option<Exception>)
    ensures r.Some? <==> id.version.Some? && (id.uri !in docs || docs[id.uri].version != id.version.value)
    ensures r.Some? ==> Caught(r.value) && IsEditApplicationError(r.value) && r.value.uri == id.uri
    ensures r.Some? ==> |r.value.message| > 0
  {
    match id.version
    case None => None
    case Some(expected) =>
      match GetVersionOf(docs, id.uri)
      case Raised(_) => Some(NotOpen(id.uri))
      case Returned(actual) => if actual != expected then Some(Mismatch(id.uri, expected, actual)) else None
  }

  /** `_apply_text_document_edit`. */
  function TextDocumentEditStep(w: World, edit: TextDocumentEdit): (s: Step)
    ensures s.error.Some? ==> Caught(s.error.value) || s.error.value == NotFound(edit.textDocument.uri)
    ensures s.error.Some? && Caught(s.error.value) ==> s.world == w && |s.error.value.message| > 0
  {
    var uri := edit.textDocument.uri;
    var gate := VersionGate(w.docs, edit.textDocument);
    if gate.Some? then Step(gate, w)
    else
      match ReadFileOf(w.files, FromUri(uri))
      case Raised(e) => Step(Some(e), w)
      case Returned(content) =>
        var newContent := EditedContent(content, edit.edits);
        var files := WriteFileOf(w.files, uri, newContent);
        var t := UpdateContentOf(w.docs, uri, newContent);
        Step(if t.result.Raised? then Some(t.result.error) else None, World(files, t.docs))
  }

  /** The message a resource operation fails with. */
  function UnsupportedMessage(c: DocumentChange): string
    requires !c.DocumentEdit?
  {
    match c
    case CreateFile(_) => "CreateFile not yet supported"
    case RenameFile(_, _) => "RenameFile not yet supported"
    case DeleteFile(_) => "DeleteFile not yet supported"
  }

  /** The URI a resource operation's error names: `old_uri` for a rename. */
  function ResourceOperationUri(c: DocumentChange): Uri
    requires !c.DocumentEdit?
  {
    if c.RenameFile? then c.oldUri else c.uri
  }

  /** One entry of `documentChanges`: resource operations always fail. */
  function DocumentChangeStep(w: World, c: DocumentChange): (s: Step)
    ensures s.error.Some? ==> Caught(s.error.value) || s.error.value.KeyError?
    ensures s.error.Some? && Caught(s.error.value) ==> |s.error.value.message| > 0
    ensures !c.DocumentEdit? ==>
              s == Step(Some(EditApplicationError(UnsupportedMessage(c), ResourceOperationUri(c))), w)
  {
    match c
    case DocumentEdit(e) => TextDocumentEditStep(w, e)
    case _ =>
      Step(Some(EditApplicationError(UnsupportedMessage(c), ResourceOperationUri(c))), w)
  }

  /** `_apply_document_changes`: in order, stopping at the first exception. */
  function DocumentChangesStep(w: World, changes: seq<DocumentChange>): (s: Step)
    ensures s.error.Some? ==> Caught(s.error.value) || s.error.value.KeyError?
    ensures s.error.Some? && Caught(s.error.value) ==> |s.error.value.message| > 0
    decreases |changes|
  {
    if changes == [] then Step(None, w)
    else
      var first := DocumentChangeStep(w, changes[0]);
      if first.error.Some? then first else DocumentChangesStep(first.world, changes[1..])
  }

  /** One item of `_apply_changes`: no version check, and a `KeyError` from
      an untracked document is suppressed after the write. */
  function ChangeStep(w: World, uri: Uri, edits: seq<TextEdit>): (s: Step)
    ensures s.error.Some? ==> s.error.value.OSError? && Caught(s.error.value) && s.world == w
    ensures s.error.Some? ==> |s.error.value.message| > 0
  {
    match ReadFileOf(w.files, FromUri(uri))
    case Raised(e) => Step(Some(e), w)
    case Returned(content) =>
      var newContent := EditedContent(content, edits);
      Step(None, World(WriteFileOf(w.files, uri, newContent), UpdateContentOf(w.docs, uri, newContent).docs))
  }

  /** `_apply_changes`. */
  function ChangesStep(w: World, changes: seq<(Uri, seq<TextEdit>)>): (s: Step)
    ensures s.error.Some? ==> s.error.value.OSError? && Caught(s.error.value)
    ensures s.error.Some? ==> |s.error.value.message| > 0
    decreases |changes|
  {
    if changes == [] then Step(None, w)
    else
      var first := ChangeStep(w, changes[0].0, changes[0].1);
      if first.error.Some? then first else ChangesStep(first.world, changes[1..])
  }

  /** `apply_workspace_edit`'s result, or the exception that escapes it,
      with the world afterwards. */
  datatype Outcome = Outcome(result: Raising<(bool, Option<string>)>, world: World)

  /** Which format is applied: `documentChanges` when present and
      non-empty, otherwise a non-empty `changes`, otherwise nothing. */
  function EditStep(w: World, edit: WorkspaceEdit): (s: Step)
    ensures s.error.Some? ==> Caught(s.error.value) || s.error.value.KeyError?
    ensures s.error.Some? && Caught(s.error.value) ==> |s.error.value.message| > 0
  {
    if edit.documentChanges.Some? && edit.documentChanges.value != [] then
      DocumentChangesStep(w, edit.documentChanges.value)
    else if edit.changes.Some? && edit.changes.value != [] then
      ChangesStep(w, edit.changes.value)
    else Step(None, w)
  }

  /** `apply_workspace_edit`: `(True, None)` on success; an
      `EditApplicationError` or `OSError` becomes `(False, message)`; a
      `KeyError` escapes. */
  function WorkspaceEditOutcome(w: World, edit: WorkspaceEdit): (o: Outcome)
    ensures o.world == EditStep(w, edit).world
    ensures o.result.Returned? <==> EditStep(w, edit).error.None? || Caught(EditStep(w, edit).error.value)
    ensures o.result.Returned? ==> (o.result.value.0 <==> o.result.value.1.None?)
    ensures o.result.Returned? && o.result.value.1.Some? ==> |o.result.value.1.value| > 0
    ensures o.result.Raised? ==> o.result.error.KeyError?
  {
    var s := EditStep(w, edit);
    match s.error
    case None => Outcome(Returned((true, None)), s.world)
    case Some(e) =>
      if Caught(e) then Outcome(Returned((false, Some(e.message))), s.world)
      else Outcome(Raised(e), s.world)
  }

  /** The client the applicator works through: its files and its
      `_document_state`. */
  class EditClient {
    var files: Files
    const documentState: DocumentStateManager

    constructor(files: Files, documentState: DocumentStateManager)
      ensures this.files == files && this.documentState == documentState
    {
      this.files := files;
      this.documentState := documentState;
    }

    function State(): World
      reads this, documentState
    {
      World(files, documentState.docs)
    }

    method ReadFile(path: Path) returns (r: Raising<string>)
      ensures r == ReadFileOf(files, path)
    {
      if path !in files {
        return Raised(OSError("File not found: " + PathString(path)));
      }
      r := Returned(files[path]);
    }

    method WriteFile(uri: Uri, content: string)
      modifies this
      ensures files == WriteFileOf(old(files), uri, content)
    {
      files := files[FromUri(uri) := content];
    }
  }

  class WorkspaceEditApplicator {
    const client: EditClient

    constructor(client: EditClient)
      ensures this.client == client
    {
      this.client := client;
    }

    method ApplyWorkspaceEdit(edit: WorkspaceEdit) returns (r: Raising<(bool, Option<string>)>)
      modifies client, client.documentState
      ensures Outcome(r, client.State()) == WorkspaceEditOutcome(old(client.State()), edit)
    {
      var error: Option<Exception> := None;
      if edit.documentChanges.Some? && edit.documentChanges.value != [] {
        error := ApplyDocumentChanges(edit.documentChanges.value);
      } else if edit.changes.Some? && edit.changes.value != [] {
        error := ApplyChanges(edit.changes.value);
      }
      match error
      case None => r := Returned((true, None));
      case Some(e) =>
        if Caught(e) {
          r := Returned((false, Some(e.message)));
        } else {
          r := Raised(e);
        }
    }

    method ApplyDocumentChanges(changes: seq<DocumentChange>) returns (error: Option<Exception>)
      modifies client, client.documentState
      ensures Step(error, client.State()) == DocumentChangesStep(old(client.State()), changes)
    {
      for i := 0 to |changes|
        invariant DocumentChangesStep(client.State(), changes[i..]) ==
                  DocumentChangesStep(old(client.State()), changes)
      {
        assert changes[i..][0] == changes[i] && changes[i..][1..] == changes[i + 1..];
        ghost var first := DocumentChangeStep(client.State(), changes[i]);
        assert DocumentChangesStep(client.State(), changes[i..]) ==
               if first.error.Some? then first else DocumentChangesStep(first.world, changes[i + 1..]);
        match changes[i]
        case DocumentEdit(e) =>
          error := ApplyTextDocumentEdit(e);
          if error.Some? {
            return;
          }
        case CreateFile(uri) =>
          return Some(EditApplicationError("CreateFile not yet supported", uri));
        case RenameFile(oldUri, _) =>
          return Some(EditApplicationError("RenameFile not yet supported", oldUri));
        case DeleteFile(uri) =>
          return Some(EditApplicationError("DeleteFile not yet supported", uri));
      }
      error := None;
    }

    method ApplyTextDocumentEdit(edit: TextDocumentEdit) returns (error: Option<Exception>)
      modifies client, client.documentState
      ensures Step(error, client.State()) == TextDocumentEditStep(old(client.State()), edit)
    {
      var uri := edit.textDocument.uri;
      if edit.textDocument.version.Some? {
        var expected := edit.textDocument.version.value;
        var actual := client.documentState.GetVersion(uri);
        if actual.Raised? {
          return Some(NotOpen(uri));
        }
        if actual.value != expected {
          return Some(Mismatch(uri, expected, actual.value));
        }
      }
      var content := client.ReadFile(FromUri(uri));
      if content.Raised? {
        return Some(content.error);
      }
      var newContent := ApplyTextEdits(content.value, edit.edits);
      client.WriteFile(uri, newContent);
      var updated := client.documentState.UpdateContent(uri, newContent);
      error := if updated.Raised? then Some(updated.error) else None;
    }

    method ApplyChanges(changes: seq<(Uri, seq<TextEdit>)>) returns (error: Option<Exception>)
      modifies client, client.documentState
      ensures Step(error, client.State()) == ChangesStep(old(client.State()), changes)
    {
      for i := 0 to |changes|
        invariant ChangesStep(client.State(), changes[i..]) == ChangesStep(old(client.State()), changes)
      {
        assert changes[i..][0] == changes[i] && changes[i..][1..] == changes[i + 1..];
        var (uri, edits) := changes[i];
        var content := client.ReadFile(FromUri(uri));
        if content.Raised? {
          return Some(content.error);
        }
        var newContent := ApplyTextEdits(content.value, edits);
        client.WriteFile(uri, newContent);
        // a KeyError from an untracked document is suppressed
        var _ := client.documentState.UpdateContent(uri, newContent);
      }
      error := None;
    }
  }
}
