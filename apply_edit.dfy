/** `WithRespondApplyEdit` of
    src/lsp_client/capability/server_request/apply_edit.py: the client side
    of the `workspace/applyEdit` request, the capabilities it advertises,
    and its registration. */
module ApplyEdit {
  import opened LspExceptions
  import opened TextEdits
  import opened DocumentState
  import opened WorkspaceEdit
  import WorkspaceEditProperties

  const WORKSPACE_APPLY_EDIT: string := "workspace/applyEdit"

  /** A JSON-RPC request id. */
  datatype RequestId = IntId(n: int) | StringId(s: string)

  /** The parameters of `workspace/applyEdit`. The protocol's field `label`
      is `editLabel` here, `label` being a keyword of Dafny. */
  datatype ApplyWorkspaceEditParams = ApplyWorkspaceEditParams(edit: WorkspaceEdit, editLabel: Option<string>)

  datatype ApplyWorkspaceEditRequest = ApplyWorkspaceEditRequest(id: RequestId, params: ApplyWorkspaceEditParams)

  datatype ApplyWorkspaceEditResult = ApplyWorkspaceEditResult(applied: bool, failureReason: Option<string>)

  datatype ApplyWorkspaceEditResponse = ApplyWorkspaceEditResponse(id: RequestId, result: ApplyWorkspaceEditResult)

  /** A result a server can rely on: applied exactly when no reason is
      given, and a reason is never empty. */
  predicate WellFormedResult(r: ApplyWorkspaceEditResult) {
    (r.applied <==> r.failureReason.None?)
    && (r.failureReason.Some? ==> |r.failureReason.value| > 0)
  }

  /** `_respond_apply_edit`: the applicator's `(applied, failure_reason)`
      pair as the protocol's result; a `KeyError` passes through. */
  function RespondResultOf(w: World, params: ApplyWorkspaceEditParams): (o: (Raising<ApplyWorkspaceEditResult>, World))
    ensures o.1 == WorkspaceEditOutcome(w, params.edit).world
    ensures o.0.Returned? <==> WorkspaceEditOutcome(w, params.edit).result.Returned?
    ensures o.0.Returned? ==>
              (o.0.value.applied, o.0.value.failureReason) == WorkspaceEditOutcome(w, params.edit).result.value
              && WellFormedResult(o.0.value)
    ensures o.0.Raised? ==> o.0.error.KeyError?
  {
    var out := WorkspaceEditOutcome(w, params.edit);
    match out.result
    case Raised(e) => (Raised(e), out.world)
    case Returned(pair) => (Returned(ApplyWorkspaceEditResult(pair.0, pair.1)), out.world)
  }

  /** `respond_apply_edit`: answers under the request's own id. */
  function RespondOf(w: World, req: ApplyWorkspaceEditRequest): (o: (Raising<ApplyWorkspaceEditResponse>, World))
    ensures o.1 == RespondResultOf(w, req.params).1
    ensures o.0.Returned? <==> RespondResultOf(w, req.params).0.Returned?
    ensures o.0.Returned? ==>
              o.0.value.id == req.id && o.0.value.result == RespondResultOf(w, req.params).0.value
              && WellFormedResult(o.0.value.result)
    ensures o.0.Raised? ==> o.0.error.KeyError?
  {
    var (r, w') := RespondResultOf(w, req.params);
    match r
    case Raised(e) => (Raised(e), w')
    case Returned(result) => (Returned(ApplyWorkspaceEditResponse(req.id, result)), w')
  }

  /** `_respond_apply_edit`, on the client `self`. */
  method RespondApplyEditResult(client: EditClient, params: ApplyWorkspaceEditParams)
    returns (r: Raising<ApplyWorkspaceEditResult>)
    modifies client, client.documentState
    ensures (r, client.State()) == RespondResultOf(old(client.State()), params)
  {
    var applicator := new WorkspaceEditApplicator(client);
    var pair := applicator.ApplyWorkspaceEdit(params.edit);
    match pair
    case Raised(e) => r := Raised(e);
    case Returned((applied, failureReason)) => r := Returned(ApplyWorkspaceEditResult(applied, failureReason));
  }

  /** `respond_apply_edit`, on the client `self`. */
  method RespondApplyEdit(client: EditClient, req: ApplyWorkspaceEditRequest)
    returns (r: Raising<ApplyWorkspaceEditResponse>)
    modifies client, client.documentState
    ensures (r, client.State()) == RespondOf(old(client.State()), req)
  {
    var result := RespondApplyEditResult(client, req.params);
    match result
    case Raised(e) => r := Raised(e);
    case Returned(res) => r := Returned(ApplyWorkspaceEditResponse(req.id, res));
  }

  /** `iter_methods`: the methods of the capabilities it extends, then
      `workspace/applyEdit`. */
  function IterMethods(inherited: seq<string>): (methods: seq<string>)
    ensures |methods| == |inherited| + 1
    ensures methods[..|inherited|] == inherited
    ensures methods[|inherited|] == WORKSPACE_APPLY_EDIT
  {
    inherited + [WORKSPACE_APPLY_EDIT]
  }

  datatype ResourceOperationKind = Create | Rename | Delete

  datatype FailureHandlingKind = Abort | Transactional | TextOnlyTransactional | Undo

  /** The fields of `WorkspaceEditClientCapabilities` this capability sets. */
  datatype WorkspaceEditClientCapabilities = WorkspaceEditClientCapabilities(
    documentChanges: Option<bool>,
    resourceOperations: Option<seq<ResourceOperationKind>>,
    failureHandling: Option<FailureHandlingKind>)

  /** The two fields of `WorkspaceClientCapabilities` this capability sets. */
  class WorkspaceClientCapabilities {
    var applyEdit: Option<bool>
    var workspaceEdit: Option<WorkspaceEditClientCapabilities>

    constructor()
      ensures applyEdit.None? && workspaceEdit.None?
    {
      applyEdit := None;
      workspaceEdit := None;
    }
  }

  /** `register_workspace_capability`. */
  method RegisterWorkspaceCapability(cap: WorkspaceClientCapabilities)
    modifies cap
    ensures cap.applyEdit == Some(true)
    ensures cap.workspaceEdit == Some(WorkspaceEditClientCapabilities(Some(true), Some([Create, Rename, Delete]), Some(Undo)))
  {
    cap.applyEdit := Some(true);
    cap.workspaceEdit := Some(WorkspaceEditClientCapabilities(
      documentChanges := Some(true),
      resourceOperations := Some([Create, Rename, Delete]),
      failureHandling := Some(Undo)));
  }

  /** The resource operation kind of a change in `documentChanges`. */
  function KindOf(c: DocumentChange): ResourceOperationKind
    requires !c.DocumentEdit?
  {
    match c
    case CreateFile(_) => Create
    case RenameFile(_, _) => Rename
    case DeleteFile(_) => Delete
  }

  /** Every kind of resource operation is advertised, and every one of them
      makes the edit fail, unapplied, with nothing changed. */
  lemma AdvertisedButUnsupported(cap: WorkspaceClientCapabilities, w: World, c: DocumentChange)
    requires cap.workspaceEdit == Some(WorkspaceEditClientCapabilities(Some(true), Some([Create, Rename, Delete]), Some(Undo)))
    requires !c.DocumentEdit?
    ensures KindOf(c) in cap.workspaceEdit.value.resourceOperations.value
    ensures WorkspaceEditOutcome(w, WorkspaceEdit(Some([c]), None)) ==
              Outcome(Returned((false, Some(UnsupportedMessage(c)))), w)
  {
    assert [c][0] == c && [c][1..] == [];
  }

  /** The class of request a hook parses. */
  datatype RequestClass = ApplyWorkspaceEditRequestClass

  /** What a hook runs: `respond_apply_edit` bound to a client. */
  datatype Executor = RespondApplyEditOn(client: EditClient)

  datatype ServerRequestHook = ServerRequestHook(cls: RequestClass, execute: Executor)

  /** The hooks for server requests, by method name. */
  class ServerRequestHookRegistry {
    var hooks: map<string, ServerRequestHook>

    constructor()
      ensures hooks == map[]
    {
      hooks := map[];
    }

    method Register(name: string, hook: ServerRequestHook)
      modifies this
      ensures hooks == old(hooks)[name := hook]
    {
      hooks := hooks[name := hook];
    }
  }

  /** `register_server_request_hooks`: one hook for `workspace/applyEdit`
      that runs this client's `respond_apply_edit`. */
  method RegisterServerRequestHooks(client: EditClient, registry: ServerRequestHookRegistry)
    modifies registry
    ensures registry.hooks ==
              old(registry.hooks)[WORKSPACE_APPLY_EDIT := ServerRequestHook(ApplyWorkspaceEditRequestClass, RespondApplyEditOn(client))]
  {
    registry.Register(WORKSPACE_APPLY_EDIT, ServerRequestHook(ApplyWorkspaceEditRequestClass, RespondApplyEditOn(client)));
  }

  /** Running a hook on a request: its executor is `respond_apply_edit` of
      the client it was bound to, which answers the request and changes
      that client's files and documents. */
  method RunHook(hook: ServerRequestHook, req: ApplyWorkspaceEditRequest) returns (r: Raising<ApplyWorkspaceEditResponse>)
    modifies hook.execute.client, hook.execute.client.documentState
    ensures (r, hook.execute.client.State()) == RespondOf(old(hook.execute.client.State()), req)
  {
    r := RespondApplyEdit(hook.execute.client, req);
  }

  /** A `workspace/applyEdit` request dispatched through the hook that
      `register_server_request_hooks` installed is answered as
      `respond_apply_edit` of the registering client answers it. */
  method DispatchAfterRegistering(client: EditClient, registry: ServerRequestHookRegistry, req: ApplyWorkspaceEditRequest)
    returns (r: Raising<ApplyWorkspaceEditResponse>)
    modifies registry, client, client.documentState
    ensures WORKSPACE_APPLY_EDIT in registry.hooks
    ensures (r, client.State()) == RespondOf(old(client.State()), req)
  {
    RegisterServerRequestHooks(client, registry);
    var hook := registry.hooks[WORKSPACE_APPLY_EDIT];
    r := RunHook(hook, req);
  }

  /** A request carrying one text-document edit. */
  function SingleEditRequest(id: RequestId, uri: Uri, version: Option<int>, edits: seq<TextEdit>): ApplyWorkspaceEditRequest {
    ApplyWorkspaceEditRequest(id, ApplyWorkspaceEditParams(
      WorkspaceEdit(Some([DocumentEdit(TextDocumentEdit(DocumentId(uri, version), edits))]), None), None))
  }

  /** The files and documents after an edit of a tracked document whose
      file exists: both hold the edited text, and the version is one more. */
  function AfterEdit(w: World, uri: Uri, e: seq<TextEdit>): World
    requires uri in w.docs && FromUri(uri) in w.files
  {
    var c := EditedContent(w.files[FromUri(uri)], e);
    World(w.files[FromUri(uri) := c], w.docs[uri := DocumentState(c, w.docs[uri].version + 1)])
  }

  /** A request naming the tracked version of a document whose file exists
      applies its edits under its own id. */
  lemma OneRequestApplies(w: World, uri: Uri, id: RequestId, e: seq<TextEdit>)
    requires uri in w.docs && FromUri(uri) in w.files
    ensures RespondOf(w, SingleEditRequest(id, uri, Some(w.docs[uri].version), e)) ==
              (Returned(ApplyWorkspaceEditResponse(id, ApplyWorkspaceEditResult(true, None))), AfterEdit(w, uri, e))
  {
    var t := TextDocumentEdit(DocumentId(uri, Some(w.docs[uri].version)), e);
    WorkspaceEditProperties.SuccessfulEditWritesAndAdvances(w, t);
    assert [DocumentEdit(t)][1..] == [];
    assert DocumentChangesStep(w, [DocumentEdit(t)]) == TextDocumentEditStep(w, t);
  }

  /** Two edits in a row: the second sees the version the first left, and
      the end state holds both edits and a version two more. */
  lemma AfterEditTwice(w: World, uri: Uri, e1: seq<TextEdit>, e2: seq<TextEdit>)
    requires uri in w.docs && FromUri(uri) in w.files
    ensures var w1 := AfterEdit(w, uri, e1);
      uri in w1.docs && FromUri(uri) in w1.files && w1.docs[uri].version == w.docs[uri].version + 1
      && var c := EditedContent(EditedContent(w.files[FromUri(uri)], e1), e2);
         AfterEdit(w1, uri, e2) ==
           World(w.files[FromUri(uri) := c], w.docs[uri := DocumentState(c, w.docs[uri].version + 2)])
  {
    var p := FromUri(uri);
    var c1 := EditedContent(w.files[p], e1);
    var c := EditedContent(c1, e2);
    OverwriteTwice(w.files, p, c1, c);
    OverwriteTwice(w.docs, uri, DocumentState(c1, w.docs[uri].version + 1),
                   DocumentState(c, w.docs[uri].version + 2));
  }

  /** Writing a key twice leaves the second value. */
  lemma OverwriteTwice<K, V>(m: map<K, V>, k: K, a: V, b: V)
    ensures m[k := a][k := b] == m[k := b]
  {}

  /** Two requests in a row, each naming the version the previous one left,
      both apply: the version advances by two, the file and the stored
      content hold both edits, and nothing else changes. */
  lemma SequentialRequestsApply(w: World, uri: Uri, id1: RequestId, e1: seq<TextEdit>, id2: RequestId, e2: seq<TextEdit>)
    requires uri in w.docs && FromUri(uri) in w.files
    ensures var v := w.docs[uri].version;
      var o1 := RespondOf(w, SingleEditRequest(id1, uri, Some(v), e1));
      var o2 := RespondOf(o1.1, SingleEditRequest(id2, uri, Some(v + 1), e2));
      var content := EditedContent(EditedContent(w.files[FromUri(uri)], e1), e2);
      o1.0 == Returned(ApplyWorkspaceEditResponse(id1, ApplyWorkspaceEditResult(true, None)))
      && o2.0 == Returned(ApplyWorkspaceEditResponse(id2, ApplyWorkspaceEditResult(true, None)))
      && o2.1 == World(w.files[FromUri(uri) := content], w.docs[uri := DocumentState(content, v + 2)])
  {
    OneRequestApplies(w, uri, id1, e1);
    AfterEditTwice(w, uri, e1, e2);
    OneRequestApplies(AfterEdit(w, uri, e1), uri, id2, e2);
  }
}
