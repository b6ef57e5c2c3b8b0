# Workspace edits of the Python LSP client, in Dafny

This project models how the `lsp-client` Python SDK applies a
`workspace/applyEdit` request from a language server, and proves what that
code promises.

- **The text-edit engine.** `apply_text_edits` splits a document with
  `splitlines(keepends=True)`. It sorts the edits by start position, last
  first. It then splices each edit into the list of lines, padding past the
  end of the file and collapsing multi-line spans, and joins the lines
  again. `_get_edit_text` supplies the text of each edit shape.
- **`WorkspaceEditApplicator`.** It applies either a `documentChanges` batch
  or the deprecated `changes` map. For each text-document edit it checks
  the document version against the client's store. It reads the file
  through the client, writes the edited content back, and updates the
  store. It turns an `EditApplicationError`, `VersionMismatchError` or
  `OSError` into `(False, message)`.
- **The document-state store.** `DocumentStateManager` maps each URI to its
  content and version. It raises `KeyError` on a URI it does not track and
  on a second `register` of the same URI.
- **The `workspace/applyEdit` capability.** This is the responder that wraps
  the applicator's result in a response carrying the request's id. It also
  covers the client capabilities it advertises, the method it adds to
  `iter_methods`, and the hook it registers.

## Structure

- `py_text.dfy` (`PyText`) holds the Python string operations the engine
  relies on:
  - `str.splitlines(keepends=True)`, with Python's full set of line
    terminators and `"\r\n"` taken as one terminator;
  - `"".join`;
  - slicing that clamps at the end of the string;
  - `del l[a:b]`;
  - `str(int)`, proved to spell its argument in decimal.
- `exceptions.dfy` (`LspExceptions`) defines the exceptions raised, and
  `Raising<T>`, which is either a returned value or a raised exception.
- `text_edits.dfy` (`TextEdits`) holds the engine:
  - the edit shapes and `_get_edit_text`;
  - the stable reverse sort;
  - `Splice`, the effect of one edit on the list of lines, one case per
    branch of the source;
  - the method `ApplyTextEdits` with its loop body `SpliceEdit`. Both are
    proved against the specification function `EditedContent`.
- `text_edit_properties.dfy` (`TextEditProperties`) states what the engine
  promises in terms of the returned text.
- `text_edit_ranges.dfy` (`TextEditRanges`) states the promise behind the
  last-first order. Edits with distinct starts that lie in the document
  and do not overlap, given in any order, each replace their own range of
  the original content, measured by offsets into that content.
- `text_edit_cases.dfy` (`TextEditCases`) derives the documents of the unit
  tests from general lemmas about one-line and three-line documents. It
  also shows what happens to an insertion and a replacement at the same
  start.
- `document_state.dfy` (`DocumentState`) holds the store:
  - a pure transition function per operation;
  - lemmas on how the operations read back through each other;
  - the class `DocumentStateManager`, whose methods are proved against
    those functions.
- `workspace_edit.dfy` (`WorkspaceEdit`) holds:
  - the client the applicator works through (`EditClient`: a file store
    and a `DocumentStateManager`);
  - pure step functions over a `World` of files and tracked documents;
  - the class `WorkspaceEditApplicator`. Each of its methods is proved to
    leave the world, and return the exception, that its step function
    gives.
- `workspace_edit_properties.dfy` (`WorkspaceEditProperties`) states the
  applicator's guarantees on those step functions.
- `apply_edit.dfy` (`ApplyEdit`) holds the `workspace/applyEdit` responder,
  the capabilities, `iter_methods` and the hook registration.

### Where the code and what it advertises disagree

The Language Server Protocol lets a `WorkspaceEdit` create, rename and
delete files, and the client advertises all three resource operations
(src/lsp_client/capability/server_request/apply_edit.py:60-68). The code
does not perform them. Every `CreateFile`, `RenameFile` and `DeleteFile`
entry fails with "… not yet supported", as
src/lsp_client/utils/workspace_edit.py:167-181 shows and as the doc
comment at src/lsp_client/capability/server_request/apply_edit.py:40-44
says. The integration test at
tests/integration/test_clients/test_workspace_edit_integration.py:306-366
expects a rename and a create to succeed. This model follows the code:
the lemmas `ResourceOperationUnsupported` and `AdvertisedButUnsupported`
state that such an entry fails the batch.

The source of `DocumentStateManager` (`lsp_client/client/document_state.py`)
is not part of this model. Its behaviour is taken from its unit tests in
tests/unit/test_client/test_document_state.py. The file store is taken
from the test client in tests/unit/test_utils/test_workspace_edit.py:12-32.

## Model

| member | source | states |
|---|---|---|
| PyText.SplitLines | src/lsp_client/utils/workspace_edit.py:65 | every line is non-empty, and the list is empty exactly when the content is empty |
| PyText.FirstLineLength | src/lsp_client/utils/workspace_edit.py:65 | the first line ends after its first complete terminator (`"\r\n"` counts as one), or at the end of the string |
| PyText.JoinSplitLines | src/lsp_client/utils/workspace_edit.py:65-111 | joining the keep-ends split of a string gives back the string |
| PyText.JoinAppend | src/lsp_client/utils/workspace_edit.py:111 | joining two lists of lines is joining each and concatenating |
| PyText.Join | src/lsp_client/utils/workspace_edit.py:111 | `"".join(lines)`: the lines concatenated in order |
| PyText.Take | src/lsp_client/utils/workspace_edit.py:96 | `s[:n]` is a prefix of `s`, of length `n` clamped to `len(s)` |
| PyText.Drop | src/lsp_client/utils/workspace_edit.py:98 | `s[:n] + s[n:] == s` for every `n`, so `s[n:]` is empty past the end |
| PyText.DeleteSlice | src/lsp_client/utils/workspace_edit.py:109 | `del l[a:b]` removes `b - a` entries, keeping the parts before `a` and from `b` on; it does nothing when `b <= a` |
| PyText.NatToString | src/lsp_client/utils/workspace_edit.py:200 | `str(n)` is a non-empty string of decimal digits whose value is `n`, with no leading zero unless `n` is 0 |
| PyText.DigitsValue | src/lsp_client/utils/workspace_edit.py:200 | the number a string of decimal digits spells, most significant digit first |
| PyText.IntToString | src/lsp_client/utils/workspace_edit.py:200 | `str(i)` starts with '-' exactly when `i` is negative; the digits after the sign spell `-i`, and without a sign they spell `i` |
| TextEdits.SortByStartDescending | src/lsp_client/utils/workspace_edit.py:68-70 | the result is ordered last start first, is a permutation of the input, and keeps the input order among edits with the same start (the sort is stable) |
| TextEdits.EditText | src/lsp_client/utils/workspace_edit.py:35-42 | a snippet edit gives its snippet's value; a plain or annotated edit gives its new text |
| TextEdits.InsertSorted | src/lsp_client/utils/workspace_edit.py:68-70 | one insertion step keeps the list ordered |
| TextEdits.InsertKeepsGroups | src/lsp_client/utils/workspace_edit.py:68-70 | one insertion step puts the new edit first among those with its start and moves no other edit within its group |
| TextEdits.Newlines | src/lsp_client/utils/workspace_edit.py:82-83 | the padding is `count` lines, each `"\n"` |
| TextEdits.SpliceEdit | src/lsp_client/utils/workspace_edit.py:73-109 | the loop body leaves exactly the lines `ApplyEdit` gives: pad-then-set past the end, an in-line splice, or a splice that collapses a span or keeps every line when the end is past the end |
| TextEdits.Splice | src/lsp_client/utils/workspace_edit.py:79-109 | what one range and text do to the lines: pad past the end, splice within one line, or splice from the start line to the end line and delete the lines between, the end text empty when the end is past the last line |
| TextEdits.ApplyEdit | src/lsp_client/utils/workspace_edit.py:73-109 | one edit is its range and its `_get_edit_text` spliced into the lines |
| TextEdits.PastEndCase | src/lsp_client/utils/workspace_edit.py:80-85 | an edit starting past the last line pads with `"\n"` lines and appends its text |
| TextEdits.SingleLineCase | src/lsp_client/utils/workspace_edit.py:93-100 | an edit within one existing line replaces that line by its prefix, the text and its suffix |
| TextEdits.EndPastEndCase | src/lsp_client/utils/workspace_edit.py:90-109 | an edit whose end line is past the last line keeps only the prefix of the start line, then the text, and deletes no line |
| TextEdits.CollapseCase | src/lsp_client/utils/workspace_edit.py:102-109 | an edit across existing lines joins the start prefix, the text and the end suffix into one line and deletes the lines up to the end line |
| TextEdits.EndBeforeStartCase | src/lsp_client/utils/workspace_edit.py:102-109 | an edit whose end line is before its start line overwrites the start line and deletes nothing, since `del` of a reversed slice does nothing |
| TextEdits.ApplyInOrder | src/lsp_client/utils/workspace_edit.py:72-109 | the loop over the edits: each edit applied to the lines the previous one left |
| TextEdits.EditedContent | src/lsp_client/utils/workspace_edit.py:45-111 | `apply_text_edits`: split the content keeping line ends, sort the edits last start first, apply them in turn, join |
| TextEdits.ApplyTextEdits | src/lsp_client/utils/workspace_edit.py:45-111 | the returned text is `EditedContent` of the content and the edits; `TextEditRanges.EditsReplaceTheirRanges` states what that text is |
| TextEditProperties.NoEditsNoChange | src/lsp_client/utils/workspace_edit.py:65-111 | with no edits the content comes back unchanged |
| TextEditProperties.OneEdit | src/lsp_client/utils/workspace_edit.py:68-111 | a single edit is applied to the split content as it is |
| TextEditProperties.ReplacesRange | src/lsp_client/utils/workspace_edit.py:93-109 | an edit whose range lies inside the document replaces exactly the text between its start and end offsets with its new text; this covers a splice in one line, an insertion, a deletion and a collapsed multi-line span |
| TextEditProperties.SpanReplaced | src/lsp_client/utils/workspace_edit.py:93-109 | on the list of lines, an edit inside the document replaces the lines from its start line to its end line with one line |
| TextEditProperties.PrefixBefore | src/lsp_client/utils/workspace_edit.py:96 | the content before a position is the lines before its line plus the start of its line |
| TextEditProperties.SuffixAfter | src/lsp_client/utils/workspace_edit.py:98 | the content from a position on is the rest of its line plus the lines after it |
| TextEditProperties.CollapseRemovesLines | src/lsp_client/utils/workspace_edit.py:102-109 | a multi-line edit inside the document leaves `end - start` fewer lines, and the lines before and after the span unchanged |
| TextEditProperties.SingleLineKeepsOthers | src/lsp_client/utils/workspace_edit.py:93-100 | a single-line edit keeps the number of lines and every other line |
| TextEditProperties.PadsPastEnd | src/lsp_client/utils/workspace_edit.py:80-85 | an edit starting past the last line appends `"\n"` lines up to its start line, which then holds only the new text; the list ends with `start.line + 1` lines |
| TextEditProperties.EndPastEndKeepsTail | src/lsp_client/utils/workspace_edit.py:90-109 | an edit starting inside the document but ending past its last line takes the end text as empty and deletes no line, so every line after the start line survives |
| TextEditProperties.SortedIsUnique | src/lsp_client/utils/workspace_edit.py:68-70 | two ordered lists with the same edits at every start position are equal |
| TextEditProperties.SameGroupsSameResult | src/lsp_client/utils/workspace_edit.py:68-72 | two edit lists that differ only in how edits with different starts are interleaved give the same text |
| TextEditProperties.DistinctGroup | src/lsp_client/utils/workspace_edit.py:68-70 | when no two edits share a start, each start holds one edit or none |
| TextEditProperties.OrderIrrelevant | src/lsp_client/utils/workspace_edit.py:68-72 | when no two edits share a start, the order they are given in does not change the result |
| TextEditProperties.SnippetIsLiteral | src/lsp_client/utils/workspace_edit.py:35-42 | a snippet edit inserts its snippet's value literally, as a plain edit with that text would |
| TextEditRanges.LineOffset | src/lsp_client/utils/workspace_edit.py:61-63 | the offset in the joined text of a line and character |
| TextEditRanges.InDocument | src/lsp_client/utils/workspace_edit.py:61-63 | an edit whose start and end name existing lines and characters within them, start not after end |
| TextEditRanges.ChainBelow | src/lsp_client/utils/workspace_edit.py:61-70 | edits in the order `apply_text_edits` applies them, last first, each ending at or before the start of the one applied before it |
| TextEditRanges.Chain | src/lsp_client/utils/workspace_edit.py:61-70 | non-overlapping in-document edits with distinct starts, last first |
| TextEditRanges.SpansOf | src/lsp_client/utils/workspace_edit.py:61-63 | each edit's range, as offsets measured on the original lines, with its text |
| TextEditRanges.DisjointBelow | src/lsp_client/utils/workspace_edit.py:61-63 | spans listed last first, each ending at or before the start of the one listed before it |
| TextEditRanges.ReplaceSpans | src/lsp_client/utils/workspace_edit.py:61-63 | the original text with each span replaced by its text |
| TextEditRanges.OffsetWithin | src/lsp_client/utils/workspace_edit.py:65-111 | an in-document position's offset is within the content |
| TextEditRanges.OffsetMonotone | src/lsp_client/utils/workspace_edit.py:61-63 | a position at or before another has an offset at or before its offset |
| TextEditRanges.AroundOffset | src/lsp_client/utils/workspace_edit.py:96-98 | the text before a position is the lines before it plus the start of its line; the text from it is the rest of its line plus the lines after |
| TextEditRanges.OneEditJoined | src/lsp_client/utils/workspace_edit.py:73-111 | one in-document edit, seen on the joined text, replaces the text between its start and end offsets by its text |
| TextEditRanges.EditKeepsBefore | src/lsp_client/utils/workspace_edit.py:93-109 | an in-document edit leaves every line before its start line, and its start line up to its start character, unchanged |
| TextEditRanges.PositionKept | src/lsp_client/utils/workspace_edit.py:61-63 | a position at or before an edit's start stays valid and keeps its offset after the edit |
| TextEditRanges.ChainKept | src/lsp_client/utils/workspace_edit.py:61-63 | the edits still to apply keep their validity and their spans after an edit starting at or after all of them |
| TextEditRanges.ChainSpansDisjoint | src/lsp_client/utils/workspace_edit.py:61-63 | the spans of a chain do not overlap and all lie before its bound |
| TextEditRanges.ReplaceSpansAppend | src/lsp_client/utils/workspace_edit.py:61-63 | spans that all lie within a prefix are replaced in that prefix, and the rest is kept |
| TextEditRanges.ReplaceFirstSpan | src/lsp_client/utils/workspace_edit.py:61-63 | replacing the last span and then the earlier ones, each on the text the previous one left, is replacing all of them on the original |
| TextEditRanges.ChainAfterFirst | src/lsp_client/utils/workspace_edit.py:72-109 | after the first edit of a chain is applied, the rest is a chain on the new lines, with the spans they had on the original, all before the first edit's start |
| TextEditRanges.ApplyChain | src/lsp_client/utils/workspace_edit.py:72-111 | applying a chain in turn replaces every edit's range of the original text, by offsets measured before any edit, with its text |
| TextEditRanges.ChainBelowBefore | src/lsp_client/utils/workspace_edit.py:68-70 | every edit of a chain starts before its bound and before every edit listed ahead of it |
| TextEditRanges.ChainSorted | src/lsp_client/utils/workspace_edit.py:68-70 | a chain is ordered last start first, with no two starts equal |
| TextEditRanges.EditsReplaceTheirRanges | src/lsp_client/utils/workspace_edit.py:45-111 | for edits with distinct starts that lie in the document and do not overlap, given in any order, the result is the original content with each edit's range, at its `Offset` in the original, replaced by its text |
| TextEditRanges.SpansMeasuredOnContent | src/lsp_client/utils/workspace_edit.py:61-63 | the span offsets are the `Offset`s of the edits' positions in the content |
| TextEditCases.FirstLineIs | src/lsp_client/utils/workspace_edit.py:65 | a line with no terminator before its final `"\n"` is the first line of anything it starts |
| TextEditCases.SplitFirstLine | src/lsp_client/utils/workspace_edit.py:65 | such a line is split off whole |
| TextEditCases.SplitOneLine | src/lsp_client/utils/workspace_edit.py:65 | such a line splits into itself |
| TextEditCases.SplitThree | src/lsp_client/utils/workspace_edit.py:65 | three such lines split back into those three lines |
| TextEditCases.EditOnlyLine | src/lsp_client/utils/workspace_edit.py:93-100 | an edit on the only line of a one-line document splices that line |
| TextEditCases.SpliceParts | src/lsp_client/utils/workspace_edit.py:95-99 | replacing `mid` in `x + mid + y` gives `x + text + y` |
| TextEditCases.EditOnlyLineParts | src/lsp_client/utils/workspace_edit.py:93-100 | the edit of `mid` in the one-line document `x + mid + y` gives `x + text + y` |
| TextEditCases.ReplaceWord | tests/unit/test_utils/test_workspace_edit.py:35-48 | replacing characters 6-11 of "Hello world\n" with "Python" gives "Hello Python\n" |
| TextEditCases.InsertAtPoint | tests/unit/test_utils/test_workspace_edit.py:90-103 | an empty range at character 5 inserts " beautiful" |
| TextEditCases.DeleteRange | tests/unit/test_utils/test_workspace_edit.py:106-120 | an empty text over characters 5-16 deletes " beautiful " |
| TextEditCases.ReplaceCallArgument | tests/unit/test_utils/test_workspace_edit.py:124-153 | the test edit turns "print('hello')\n" into "print('world')\n" |
| TextEditCases.BumpVersion | tests/integration/test_clients/test_workspace_edit_integration.py:239-303 | the two edits of the sequential test turn "version 0\n" into "version 1\n" and then into "version 2\n" |
| TextEditCases.EditLine | src/lsp_client/utils/workspace_edit.py:93-100 | an edit of `m` on line `k` replaces only that line, `x + m + y`, with `x + t + y` |
| TextEditCases.SortTwo | src/lsp_client/utils/workspace_edit.py:68-70 | two edits given first-to-last are applied last-first |
| TextEditCases.TwoLinesInOrder | src/lsp_client/utils/workspace_edit.py:68-109 | the two sorted edits splice their own lines of a three-line list |
| TextEditCases.EditTwoLines | tests/unit/test_utils/test_workspace_edit.py:51-71 | two edits on different lines of a three-line document, given first-to-last, both land |
| TextEditCases.JoinThree | src/lsp_client/utils/workspace_edit.py:111 | three lines join into their concatenation |
| TextEditCases.CollapseFirstTwoLines | src/lsp_client/utils/workspace_edit.py:102-109 | an edit from the start of the first of three lines to the start of the third leaves one line, its text followed by the third line |
| TextEditCases.WholeLines | src/lsp_client/utils/workspace_edit.py:104 | a splice from character 0 to character 0 keeps nothing of the start line and all of the end line |
| TextEditCases.CollapseFirstTwo | tests/unit/test_utils/test_workspace_edit.py:74-87 | in a three-line document, that edit replaces the first two lines with its text |
| TextEditCases.CollapseTwoLines | tests/unit/test_utils/test_workspace_edit.py:74-87 | the test's edit turns "line 1\nline 2\nline 3\n" into "replaced\nline 3\n" |
| TextEditCases.SortSameStart | src/lsp_client/utils/workspace_edit.py:68-70 | two edits with the same start stay in the order given, as the stable reversed sort keeps them |
| TextEditCases.InsertOnLine | src/lsp_client/utils/workspace_edit.py:93-100 | an empty range on a line inserts the text there |
| TextEditCases.ReplaceOnLine | src/lsp_client/utils/workspace_edit.py:93-100 | a range of `n` characters on a line is replaced by the text |
| TextEditCases.InsertThenReplace | src/lsp_client/utils/workspace_edit.py:72-109 | an insertion and then a replacement at the same start, applied to one line: the replacement's range covers the inserted text |
| TextEditCases.SameStartInsertOverwritten | src/lsp_client/utils/workspace_edit.py:45-111 | an insertion and a replacement of `mid` at the same start of a one-line document give the prefix, the replacement text, then `ins + mid + y` minus its first `len(mid)` characters |
| TextEditCases.SameStartParts | src/lsp_client/utils/workspace_edit.py:45-111 | the same, for a document and edit list given as parts |
| TextEditCases.SameStartInsertLost | src/lsp_client/utils/workspace_edit.py:45-111 | on "a\n", inserting "b" and replacing "a" by "c" at the same start gives "ca\n": the inserted text is lost and the replaced text kept |
| DocumentState.RegisterOf | tests/unit/test_client/test_document_state.py:14-24 | registering an untracked URI stores its content and version, 0 when none is given, and changes no other entry; a tracked URI raises `KeyError("Document … is already registered")` and changes nothing |
| DocumentState.UnregisterOf | tests/unit/test_client/test_document_state.py:22-28 | unregistering removes only that URI; an untracked URI raises `KeyError("Document … not found")` and changes nothing |
| DocumentState.GetVersionOf | tests/unit/test_client/test_document_state.py:64-67 | gives the tracked version, and raises "not found" exactly for an untracked URI |
| DocumentState.GetContentOf | tests/unit/test_client/test_document_state.py:70-73 | gives the tracked content, and raises "not found" exactly for an untracked URI |
| DocumentState.UpdateContentOf | tests/unit/test_client/test_document_state.py:41-48 | stores the new content with the version plus one and returns that version, changing no other entry; an untracked URI raises and changes nothing |
| DocumentState.IncrementVersionOf | tests/unit/test_client/test_document_state.py:31-38 | bumps the version by one, keeps the content, returns the new version and changes no other entry; an untracked URI raises and changes nothing |
| DocumentState.RegisterThenRead | tests/unit/test_client/test_document_state.py:14-19 | a registered document reads back with the content and version given |
| DocumentState.RegisterDefaultThenUnregister | tests/unit/test_client/test_document_state.py:22-28 | a document registered without a version is at version 0, and once unregistered its version read raises "not found" |
| DocumentState.RegisterTwiceRaises | tests/unit/test_client/test_document_state.py:88-94 | a second `register` of a URI raises and keeps the first state |
| DocumentState.UnregisterThenReadRaises | tests/unit/test_client/test_document_state.py:22-28 | after `unregister`, `get_version`, `get_content` and `update_content` on that URI raise "not found" |
| DocumentState.UpdateThenRead | tests/unit/test_client/test_document_state.py:41-48 | after `update_content` the version is one more and the content is the new one |
| DocumentState.IncrementThenRead | tests/unit/test_client/test_document_state.py:31-38 | after `increment_version` the version is one more and the content is unchanged |
| DocumentState.OtherDocumentsUntouched | tests/unit/test_client/test_document_state.py:51-61 | changing one document leaves the version and content of every other one unchanged |
| DocumentState.DocumentStateManager.constructor | tests/unit/test_client/test_document_state.py:15 | a new store tracks nothing |
| DocumentState.DocumentStateManager.Register | tests/unit/test_client/test_document_state.py:88-94 | the call returns and leaves the store exactly as `RegisterOf` says |
| DocumentState.DocumentStateManager.Unregister | tests/unit/test_client/test_document_state.py:97-102 | the call returns and leaves the store exactly as `UnregisterOf` says |
| DocumentState.DocumentStateManager.GetVersion | tests/unit/test_client/test_document_state.py:64-67 | returns what `GetVersionOf` says |
| DocumentState.DocumentStateManager.GetContent | tests/unit/test_client/test_document_state.py:70-73 | returns what `GetContentOf` says |
| DocumentState.DocumentStateManager.UpdateContent | tests/unit/test_client/test_document_state.py:82-85 | the call returns and leaves the store exactly as `UpdateContentOf` says |
| DocumentState.DocumentStateManager.IncrementVersion | tests/unit/test_client/test_document_state.py:76-79 | the call returns and leaves the store exactly as `IncrementVersionOf` says |
| WorkspaceEdit.FromUriRoundTrip | tests/unit/test_utils/test_workspace_edit.py:30-32 | the path `from_uri` gives leads back to its URI |
| WorkspaceEdit.FromUriInjective | tests/unit/test_utils/test_workspace_edit.py:30-32 | distinct URIs address distinct files |
| WorkspaceEdit.FromUri | tests/unit/test_utils/test_workspace_edit.py:30-32 | `from_uri`: a `file://` URI becomes the path after the scheme; any other URI is kept as it is |
| WorkspaceEdit.ReadFileOf | tests/unit/test_utils/test_workspace_edit.py:19-23 | a stored file reads back as stored; a missing one raises "File not found: <path>", an `OSError` |
| WorkspaceEdit.WriteFileOf | tests/unit/test_utils/test_workspace_edit.py:25-28 | the content is stored at the URI's path and no other file changes |
| WorkspaceEdit.Caught | src/lsp_client/utils/workspace_edit.py:146-151 | the exceptions `apply_workspace_edit` catches: an `EditApplicationError` (a version mismatch included) or an `OSError` |
| WorkspaceEdit.EditClient.constructor | tests/unit/test_utils/test_workspace_edit.py:15-17 | the client holds the files and the store it is given |
| WorkspaceEdit.EditClient.ReadFile | tests/unit/test_utils/test_workspace_edit.py:19-23 | returns what `ReadFileOf` says |
| WorkspaceEdit.EditClient.WriteFile | tests/unit/test_utils/test_workspace_edit.py:25-28 | leaves the files as `WriteFileOf` says |
| WorkspaceEdit.VersionGate | src/lsp_client/utils/workspace_edit.py:188-204 | a version-less edit always passes; a versioned edit fails exactly when the document is untracked ("not open in client") or tracked at another version ("Version mismatch …"), with an `EditApplicationError` naming the URI |
| WorkspaceEdit.TextDocumentEditStep | src/lsp_client/utils/workspace_edit.py:183-213 | a failure is either a caught error with a non-empty message, and then nothing changed, or the store's "not found" `KeyError` |
| WorkspaceEdit.DocumentChangeStep | src/lsp_client/utils/workspace_edit.py:163-181 | a create, rename or delete fails with "… not yet supported", naming its URI (the old URI for a rename), and changes nothing |
| WorkspaceEdit.DocumentChangesStep | src/lsp_client/utils/workspace_edit.py:153-181 | any failure is a caught error with a non-empty message, or a `KeyError` |
| WorkspaceEdit.ChangeStep | src/lsp_client/utils/workspace_edit.py:219-228 | the only failure is a missing file's `OSError`, with a non-empty message, and it changes nothing |
| WorkspaceEdit.ChangesStep | src/lsp_client/utils/workspace_edit.py:215-228 | the only failure is a missing file's `OSError`, with a non-empty message |
| WorkspaceEdit.EditStep | src/lsp_client/utils/workspace_edit.py:139-145 | any failure is a caught error with a non-empty message, or a `KeyError` |
| WorkspaceEdit.WorkspaceEditOutcome | src/lsp_client/utils/workspace_edit.py:125-151 | returns exactly when no exception escaped the batch or the exception is caught; the result is "applied" exactly when no reason is given; a reason is never empty; only a `KeyError` escapes |
| WorkspaceEdit.WorkspaceEditApplicator.constructor | src/lsp_client/utils/workspace_edit.py:114-123 | the applicator works through the client it is given |
| WorkspaceEdit.WorkspaceEditApplicator.ApplyWorkspaceEdit | src/lsp_client/utils/workspace_edit.py:125-151 | the result and the new files and store are exactly `WorkspaceEditOutcome` of the old ones |
| WorkspaceEdit.WorkspaceEditApplicator.ApplyDocumentChanges | src/lsp_client/utils/workspace_edit.py:153-181 | the loop leaves the files and the store, and returns the exception, exactly as `DocumentChangesStep` says |
| WorkspaceEdit.WorkspaceEditApplicator.ApplyTextDocumentEdit | src/lsp_client/utils/workspace_edit.py:183-213 | the call leaves the files and the store, and returns the exception, exactly as `TextDocumentEditStep` says |
| WorkspaceEdit.WorkspaceEditApplicator.ApplyChanges | src/lsp_client/utils/workspace_edit.py:215-228 | the loop leaves the files and the store, and returns the exception, exactly as `ChangesStep` says |
| WorkspaceEditProperties.NotOpenRejected | src/lsp_client/utils/workspace_edit.py:189-196 | a versioned edit on an untracked document fails with "Document … not open in client" and changes nothing |
| WorkspaceEditProperties.VersionMismatchRejected | src/lsp_client/utils/workspace_edit.py:198-204 | a versioned edit on a document tracked at another version fails with a `VersionMismatchError` naming both versions, and changes nothing |
| WorkspaceEditProperties.TextDocumentEditSucceedsIff | src/lsp_client/utils/workspace_edit.py:183-213 | an edit succeeds exactly when the document is tracked (at the version given, if any) and its file exists |
| WorkspaceEditProperties.SuccessfulEditWritesAndAdvances | src/lsp_client/utils/workspace_edit.py:206-213 | a successful edit writes `apply_text_edits` of the old file content, stores that content, advances the version by exactly one, and changes no other file or document |
| WorkspaceEditProperties.UntrackedVersionlessEditRaises | src/lsp_client/utils/workspace_edit.py:207-213 | a version-less edit on an untracked document writes the file and then raises the store's `KeyError` |
| WorkspaceEditProperties.MissingFileFails | src/lsp_client/utils/workspace_edit.py:207-208 | an edit that passes the version check on a missing file fails with the read's `OSError` and changes nothing |
| WorkspaceEditProperties.DocumentChangesAppend | src/lsp_client/utils/workspace_edit.py:163-166 | applying `a + b` is applying `a` and then, unless that raised, `b` |
| WorkspaceEditProperties.FirstFailureEndsBatch | src/lsp_client/utils/workspace_edit.py:163-181 | the first change that raises ends the batch with its exception; the writes before it stay, and the changes after it are never applied |
| WorkspaceEditProperties.ResourceOperationUnsupported | src/lsp_client/utils/workspace_edit.py:167-181 | a create, rename or delete fails the batch with "… not yet supported" after the changes before it |
| WorkspaceEditProperties.ChangesAppend | src/lsp_client/utils/workspace_edit.py:219-228 | the `changes` items are applied in order, stopping at the first failure |
| WorkspaceEditProperties.ChangeIsVersionlessEdit | src/lsp_client/utils/workspace_edit.py:215-228 | an item of `changes` does what a version-less text-document edit does, except that an untracked document's `KeyError` is suppressed |
| WorkspaceEditProperties.DocumentChangesPreferred | src/lsp_client/utils/workspace_edit.py:140-143 | a non-empty `documentChanges` wins, and `changes` is ignored |
| WorkspaceEditProperties.EmptyEditApplied | src/lsp_client/utils/workspace_edit.py:139-145 | with neither format present or non-empty, nothing changes and the edit counts as applied |
| WorkspaceEditProperties.ChangesFormatNeverRaises | src/lsp_client/utils/workspace_edit.py:142-151 | a `changes` edit always returns a result, never an escaping exception |
| WorkspaceEditProperties.AppliedIffNoException | src/lsp_client/utils/workspace_edit.py:139-151 | the edit is reported applied exactly when no change raised; a reported failure carries the message of the first exception |
| WorkspaceEditProperties.FailedBatchKeepsEarlierWrites | src/lsp_client/utils/workspace_edit.py:139-181 | a batch that fails part-way reports `(False, message)` and keeps the writes of the changes before the failing one |
| ApplyEdit.RespondResultOf | src/lsp_client/capability/server_request/apply_edit.py:75-86 | the result carries the applicator's `(applied, failure_reason)` pair and is well formed (applied exactly when no reason is given; a reason is non-empty); a `KeyError` passes through |
| ApplyEdit.RespondOf | src/lsp_client/capability/server_request/apply_edit.py:88-94 | the response carries the request's own id and that result |
| ApplyEdit.RespondApplyEditResult | src/lsp_client/capability/server_request/apply_edit.py:75-86 | returns, and leaves the client's files and store, exactly as `RespondResultOf` says |
| ApplyEdit.RespondApplyEdit | src/lsp_client/capability/server_request/apply_edit.py:88-94 | returns, and leaves the client's files and store, exactly as `RespondOf` says |
| ApplyEdit.IterMethods | src/lsp_client/capability/server_request/apply_edit.py:47-51 | the inherited methods in their order, then `workspace/applyEdit` |
| ApplyEdit.RegisterWorkspaceCapability | src/lsp_client/capability/server_request/apply_edit.py:53-68 | sets `applyEdit` to true and `workspaceEdit` to document changes, the Create, Rename and Delete operations, and `Undo` failure handling |
| ApplyEdit.AdvertisedButUnsupported | src/lsp_client/capability/server_request/apply_edit.py:40-68 | every resource-operation kind is advertised, and each one makes the edit fail, unapplied, with nothing changed |
| ApplyEdit.ServerRequestHookRegistry.Register | src/lsp_client/capability/server_request/apply_edit.py:102-108 | registering binds the method name to the hook and keeps every other binding |
| ApplyEdit.RegisterServerRequestHooks | src/lsp_client/capability/server_request/apply_edit.py:96-108 | adds one hook under `workspace/applyEdit` that parses an `ApplyWorkspaceEditRequest` and runs this client's `respond_apply_edit`; nothing else changes |
| ApplyEdit.RunHook | src/lsp_client/capability/server_request/apply_edit.py:104-107 | running a hook's executor answers the request as `respond_apply_edit` of the bound client does, and changes that client's files and store accordingly |
| ApplyEdit.DispatchAfterRegistering | src/lsp_client/capability/server_request/apply_edit.py:88-108 | after `register_server_request_hooks`, a request run through the `workspace/applyEdit` hook is answered as `respond_apply_edit` answers it |
| ApplyEdit.OneRequestApplies | src/lsp_client/capability/server_request/apply_edit.py:75-94 | a request naming the tracked version of a document whose file exists is answered "applied" under its own id; the file and the stored content become the edited text and the version advances by one |
| ApplyEdit.SequentialRequestsApply | tests/integration/test_clients/test_workspace_edit_integration.py:239-303 | two requests in a row, each naming the version the previous one left, both apply under their own ids; the version advances by two, the file and the stored content hold both edits, and no other file or document changes |

## Left out

- I/O and concurrency. `read_file`, `write_file` and the store are maps held
  by the client object. `async` and the awaits are sequential calls.
  Logging (`logger.error`, `logger.debug`) is left out.
- A `write_file` that fails, and `ValueError`. Writes to the modelled file
  store always succeed, and no modelled operation raises `ValueError`, so
  the `except (OSError, ValueError)` branch is reached only by a missing
  file.
- FromUri: the test client's `from_uri` and `write_file` replace every
  "file://" in the URI. The model strips it only as a prefix, so that
  distinct URIs address distinct files. A real client's `from_uri` with
  percent-decoding and relative paths is not part of this model.
- Positions count Python code points of the line, as the source indexes
  its strings. LSP's UTF-16 position encoding is not modelled.
- `changeAnnotations` of a workspace edit and the options of resource
  operations (overwrite, ignore-if-exists, recursive) are not modelled:
  `WorkspaceEdit` has no `changeAnnotations` field, and `CreateFile`,
  `RenameFile` and `DeleteFile` carry only their URIs. The code never
  reads either. The `annotationId` of an annotated edit and the `label`
  of the request (the field `editLabel`, since `label` is a keyword of
  Dafny) are carried but, as in the code, never consulted.
- Resource operations (create, rename, delete) and document state that
  moves with a renamed file. The code raises instead, so only the raising
  is modelled.
- `FailureHandlingKind.Undo` is advertised, but no rollback stands behind
  it. The model keeps the partial writes, as the code does.
- The `super()` chains of `iter_methods`, `register_workspace_capability`,
  `register_server_request_hooks` and `check_server_capability`. Only the
  inherited method list is a parameter. `check_server_capability` only
  calls up the chain.
- The `ServerRequestHookRegistry` protocol is not part of this model. The
  registry is modelled as a map from method name to hook, and `register`
  overwrites an existing binding.
- The changes map is modelled as a sequence of (URI, edits) pairs in
  iteration order. Python dictionaries have distinct keys; the model does
  not require that.
- TextEdits.SpliceEdit: the body of the loop of `apply_text_edits` is a
  method of its own, over the list of lines as a value. Padding still
  appends one `"\n"` at a time in a loop, as the source does.
- TextEditCases.EditTwoLines: the two-edit test is proved for any lines of
  its shape, not on its literal strings.
- TextEditRanges.EditsReplaceTheirRanges: stated only for edits with
  distinct starts that do not overlap. The Language Server Protocol also
  allows an insertion and a replacement at the same start, the insertion
  listed first, and expects both texts in the result. The stable
  last-first sort applies the insertion first, and the replacement, whose
  offsets still count from the original line, then overwrites the inserted
  text. `TextEditCases.SameStartInsertOverwritten` states what the code
  produces, and `TextEditCases.SameStartInsertLost` shows the inserted
  text lost on a one-line document. No corrected ordering is modelled,
  because the source gives no other order for equal starts.
- DocumentState.RegisterOf: the source of `register` is not part of this
  model. The default version 0 is an assumption; the tests only show that
  the version may be omitted.
