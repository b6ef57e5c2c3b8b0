/** The client's record of open documents: URI to content and version.
    Raises `KeyError` on a URI it does not track, or on registering a URI
    twice. */
module DocumentState {
  import opened LspExceptions

  type Uri = string

  /** One tracked document. */
  datatype DocumentState = DocumentState(content: string, version: int)

  type DocMap = map<Uri, DocumentState>

  /** The result of a call on the store together with the store afterwards. */
  datatype Transition<T> = Transition(result: Raising<T>, docs: DocMap)

  function NotFound(uri: Uri): Exception {
    KeyError("Document " + uri + " not found")
  }

  function AlreadyRegistered(uri: Uri): Exception {
    KeyError("Document " + uri + " is already registered")
  }

  /** Every URI other than `uri` is tracked alike in `a` and `b`. */
  ghost predicate OthersUnchanged(a: DocMap, b: DocMap, uri: Uri) {
    forall u :: u != uri ==> (u in a <==> u in b) && (u in a ==> a[u] == b[u])
  }

  /** `register(uri, content, version)`; a call without a version registers
      version 0. */
  function RegisterOf(docs: DocMap, uri: Uri, content: string, version: int := 0): (t: Transition<()>)
    ensures t.result.Raised? <==> uri in docs
    ensures t.result.Raised? ==> t.docs == docs && t.result.error == AlreadyRegistered(uri)
    ensures t.result.Returned? ==>
              uri in t.docs && t.docs[uri] == DocumentState(content, version)
              && OthersUnchanged(docs, t.docs, uri)
  {
    if uri in docs then Transition(Raised(AlreadyRegistered(uri)), docs)
    else Transition(Returned(()), docs[uri := DocumentState(content, version)])
  }

  /** `unregister(uri)`. */
  function UnregisterOf(docs: DocMap, uri: Uri): (t: Transition<()>)
    ensures t.result.Raised? <==> uri !in docs
    ensures t.result.Raised? ==> t.docs == docs && t.result.error == NotFound(uri)
    ensures t.result.Returned? ==> uri !in t.docs && OthersUnchanged(docs, t.docs, uri)
  {
    if uri !in docs then Transition(Raised(NotFound(uri)), docs)
    else Transition(Returned(()), docs - {uri})
  }

  /** `get_version(uri)`. */
  function GetVersionOf(docs: DocMap, uri: Uri): (r: Raising<int>)
    ensures r.Raised? <==> uri !in docs
    ensures r.Raised? ==> r.error == NotFound(uri)
    ensures r.Returned? ==> r.value == docs[uri].version
  {
    if uri !in docs then Raised(NotFound(uri)) else Returned(docs[uri].version)
  }

  /** `get_content(uri)`. */
  function GetContentOf(docs: DocMap, uri: Uri): (r: Raising<string>)
    ensures r.Raised? <==> uri !in docs
    ensures r.Raised? ==> r.error == NotFound(uri)
    ensures r.Returned? ==> r.value == docs[uri].content
  {
    if uri !in docs then Raised(NotFound(uri)) else Returned(docs[uri].content)
  }

  /** `update_content(uri, content)`: the new content with the next
      version, which it returns. */
  function UpdateContentOf(docs: DocMap, uri: Uri, content: string): (t: Transition<int>)
    ensures t.result.Raised? <==> uri !in docs
    ensures t.result.Raised? ==> t.docs == docs && t.result.error == NotFound(uri)
    ensures t.result.Returned? ==>
              t.result.value == docs[uri].version + 1
              && uri in t.docs && t.docs[uri] == DocumentState(content, t.result.value)
              && OthersUnchanged(docs, t.docs, uri)
  {
    if uri !in docs then Transition(Raised(NotFound(uri)), docs)
    else
      var v := docs[uri].version + 1;
      Transition(Returned(v), docs[uri := DocumentState(content, v)])
  }

  /** `increment_version(uri)`: the next version, the content kept. */
  function IncrementVersionOf(docs: DocMap, uri: Uri): (t: Transition<int>)
    ensures t.result.Raised? <==> uri !in docs
    ensures t.result.Raised? ==> t.docs == docs && t.result.error == NotFound(uri)
    ensures t.result.Returned? ==>
              t.result.value == docs[uri].version + 1
              && uri in t.docs && t.docs[uri] == DocumentState(docs[uri].content, t.result.value)
              && OthersUnchanged(docs, t.docs, uri)
  {
    if uri !in docs then Transition(Raised(NotFound(uri)), docs)
    else
      var v := docs[uri].version + 1;
      Transition(Returned(v), docs[uri := docs[uri].(version := v)])
  }

  // How the operations read back through each other.

  /** A registered document reads back with the content and version given. */
  lemma RegisterThenRead(docs: DocMap, uri: Uri, content: string, version: int)
    requires uri !in docs
    ensures var after := RegisterOf(docs, uri, content, version).docs;
      GetVersionOf(after, uri) == Returned(version) && GetContentOf(after, uri) == Returned(content)
  {}

  /** A document registered without a version is at version 0, and once
      unregistered its version can no longer be read. */
  lemma RegisterDefaultThenUnregister(docs: DocMap, uri: Uri, content: string)
    requires uri !in docs
    ensures var after := RegisterOf(docs, uri, content).docs;
      GetVersionOf(after, uri) == Returned(0)
      && GetVersionOf(UnregisterOf(after, uri).docs, uri) == Raised(NotFound(uri))
  {}

  /** Registering a URI already tracked raises and keeps the first state. */
  lemma RegisterTwiceRaises(docs: DocMap, uri: Uri, c1: string, v1: int, c2: string, v2: int)
    requires uri !in docs
    ensures var once := RegisterOf(docs, uri, c1, v1).docs;
      RegisterOf(once, uri, c2, v2) == Transition(Raised(AlreadyRegistered(uri)), once)
  {}

  /** After `unregister`, every read of that URI raises. */
  lemma UnregisterThenReadRaises(docs: DocMap, uri: Uri)
    requires uri in docs
    ensures var after := UnregisterOf(docs, uri).docs;
      GetVersionOf(after, uri) == Raised(NotFound(uri))
      && GetContentOf(after, uri) == Raised(NotFound(uri))
      && UpdateContentOf(after, uri, "").result == Raised(NotFound(uri))
  {}

  /** `update_content` then reads give the new content and the old version
      plus one. */
  lemma UpdateThenRead(docs: DocMap, uri: Uri, content: string)
    requires uri in docs
    ensures var t := UpdateContentOf(docs, uri, content);
      t.result == Returned(docs[uri].version + 1)
      && GetVersionOf(t.docs, uri) == Returned(docs[uri].version + 1)
      && GetContentOf(t.docs, uri) == Returned(content)
  {}

  /** `increment_version` keeps the content. */
  lemma IncrementThenRead(docs: DocMap, uri: Uri)
    requires uri in docs
    ensures var t := IncrementVersionOf(docs, uri);
      GetVersionOf(t.docs, uri) == Returned(docs[uri].version + 1)
      && GetContentOf(t.docs, uri) == GetContentOf(docs, uri)
  {}

  /** Changing one document leaves every other one as it was. */
  lemma OtherDocumentsUntouched(docs: DocMap, uri: Uri, other: Uri, content: string)
    requires other != uri
    ensures GetVersionOf(UpdateContentOf(docs, uri, content).docs, other) == GetVersionOf(docs, other)
    ensures GetContentOf(UpdateContentOf(docs, uri, content).docs, other) == GetContentOf(docs, other)
    ensures GetVersionOf(IncrementVersionOf(docs, uri).docs, other) == GetVersionOf(docs, other)
    ensures GetContentOf(IncrementVersionOf(docs, uri).docs, other) == GetContentOf(docs, other)
  {}

  /** `DocumentStateManager`: the store as a mutable object. */
  class DocumentStateManager {
    var docs: DocMap

    constructor()
      ensures docs == map[]
    {
      docs := map[];
    }

    /** `register`; the version defaults to 0. */
    method Register(uri: Uri, content: string, version: int := 0) returns (r: Raising<()>)
      modifies this
      ensures Transition(r, docs) == RegisterOf(old(docs), uri, content, version)
    {
      if uri in docs {
        return Raised(AlreadyRegistered(uri));
      }
      docs := docs[uri := DocumentState(content, version)];
      r := Returned(());
    }

    method Unregister(uri: Uri) returns (r: Raising<()>)
      modifies this
      ensures Transition(r, docs) == UnregisterOf(old(docs), uri)
    {
      if uri !in docs {
        return Raised(NotFound(uri));
      }
      docs := docs - {uri};
      r := Returned(());
    }

    method GetVersion(uri: Uri) returns (r: Raising<int>)
      ensures r == GetVersionOf(docs, uri)
    {
      if uri !in docs {
        return Raised(NotFound(uri));
      }
      r := Returned(docs[uri].version);
    }

    method GetContent(uri: Uri) returns (r: Raising<string>)
      ensures r == GetContentOf(docs, uri)
    {
      if uri !in docs {
        return Raised(NotFound(uri));
      }
      r := Returned(docs[uri].content);
    }

    method UpdateContent(uri: Uri, content: string) returns (r: Raising<int>)
      modifies this
      ensures Transition(r, docs) == UpdateContentOf(old(docs), uri, content)
    {
      if uri !in docs {
        return Raised(NotFound(uri));
      }
      var v := docs[uri].version + 1;
      docs := docs[uri := DocumentState(content, v)];
      r := Returned(v);
    }

    method IncrementVersion(uri: Uri) returns (r: Raising<int>)
      modifies this
      ensures Transition(r, docs) == IncrementVersionOf(old(docs), uri)
    {
      if uri !in docs {
        return Raised(NotFound(uri));
      }
      var v := docs[uri].version + 1;
      docs := docs[uri := docs[uri].(version := v)];
      r := Returned(v);
    }
  }
}
