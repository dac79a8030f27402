/** The document service: the open-document store, the connected client,
    the four lifecycle notifications and the completion request. Each
    notification is a pure function from the current state to the next
    state and the `publishDiagnostics` notifications it sends. The column
    rule chooses between the Java code's position arithmetic and the
    corrected one; every property below holds for both. */
module DocumentService {
  import opened Wrappers
  import opened Lsp
  import opened Jdt
  import opened Diagnostics
  import Completion

  /** The service's two fields: uri-to-text store and the client, if any. */
  datatype State = State(documents: map<Uri, string>, client: Option<Client>)

  /** A fresh service: nothing stored, nobody connected. */
  const Initial := State(map[], None)

  /** The state after a notification, with what it sent to the client. */
  datatype Outcome = Outcome(state: State, published: seq<Publication>)

  /** The two stores agree on `u`: both lack it, or both hold it with the
      same text. */
  predicate SameEntry(m: map<Uri, string>, m': map<Uri, string>, u: Uri)
  {
    (u !in m && u !in m') || (u in m && u in m' && m[u] == m'[u])
  }

  /** `publishDiagnostics(uri)`: silent without a client or a stored text;
      otherwise one notification to the client carrying one diagnostic per
      problem of the freshly parsed text, in problem order. */
  function PublishDiagnostics(parse: Parser, rule: ColumnRule, s: State, uri: Uri): (out: seq<Publication>)
    ensures |out| <= 1
    ensures out != [] <==> s.client.Some? && uri in s.documents
    ensures out != [] ==>
      var cu := parse(s.documents[uri]);
      && out[0].to == s.client.value
      && out[0].uri == uri
      && |out[0].diagnostics| == |cu.problems|
      && forall i :: 0 <= i < |out[0].diagnostics| ==>
           out[0].diagnostics[i] == Diagnostics.Convert(rule, cu, cu.problems[i])
  {
    if s.client.None? then []
    else if uri !in s.documents then []
    else [Publication(s.client.value, uri, Diagnostics.UnitDiagnostics(rule, parse(s.documents[uri])))]
  }

  /** Stores `text` under `uri` and publishes for `uri`. */
  function Store(parse: Parser, rule: ColumnRule, s: State, uri: Uri, text: string): Outcome
  {
    var s' := s.(documents := s.documents[uri := text]);
    Outcome(s', PublishDiagnostics(parse, rule, s', uri))
  }

  /** `didOpen`: the uri now holds exactly the given text, whatever it held
      before; every other uri and the client are untouched; diagnostics are
      published for the new text. */
  function DidOpen(parse: Parser, rule: ColumnRule, s: State, uri: Uri, text: string): (r: Outcome)
    ensures uri in r.state.documents && r.state.documents[uri] == text
    ensures forall u :: u != uri ==> SameEntry(s.documents, r.state.documents, u)
    ensures r.state.client == s.client
    ensures r.published == PublishDiagnostics(parse, rule, r.state, uri)
    ensures |r.published| == 1 <==> s.client.Some?
  {
    Store(parse, rule, s, uri, text)
  }

  /** `didChange`: an empty change list does nothing at all; otherwise the
      text of the last change becomes the stored text and diagnostics are
      published for it. */
  function DidChange(parse: Parser, rule: ColumnRule, s: State, uri: Uri, changes: seq<ContentChange>): (r: Outcome)
    ensures changes == [] ==> r.state == s && r.published == []
    ensures changes != [] ==>
      && uri in r.state.documents
      && r.state.documents[uri] == changes[|changes| - 1].text
      && r.published == PublishDiagnostics(parse, rule, r.state, uri)
    ensures forall u :: u != uri ==> SameEntry(s.documents, r.state.documents, u)
    ensures r.state.client == s.client
  {
    if changes == [] then Outcome(s, [])
    else Store(parse, rule, s, uri, changes[|changes| - 1].text)
  }

  /** `didClose`: the uri is no longer stored, nothing else changes, and an
      empty diagnostic set goes out exactly when a client is connected. */
  function DidClose(s: State, uri: Uri): (r: Outcome)
    ensures uri !in r.state.documents
    ensures forall u :: u != uri ==> SameEntry(s.documents, r.state.documents, u)
    ensures r.state.client == s.client
    ensures r.published != [] <==> s.client.Some?
    ensures r.published != [] ==> r.published == [Publication(s.client.value, uri, [])]
  {
    var s' := s.(documents := s.documents - {uri});
    if s.client.Some? then Outcome(s', [Publication(s.client.value, uri, [])])
    else Outcome(s', [])
  }

  /** `didSave`: the store is left alone and diagnostics are re-derived
      from the stored text. */
  function DidSave(parse: Parser, rule: ColumnRule, s: State, uri: Uri): (r: Outcome)
    ensures r.state == s
    ensures r.published == PublishDiagnostics(parse, rule, s, uri)
  {
    Outcome(s, PublishDiagnostics(parse, rule, s, uri))
  }

  /** `connect`: later notifications go to this client (none if null). */
  function Connect(s: State, client: Option<Client>): (r: State)
    ensures r.documents == s.documents
    ensures r.client == client
  {
    s.(client := client)
  }

  /** `completion`: an absent document answers an empty completion list;
      a stored one answers one item per declaration of its parse. */
  function CompletionAt(parse: Parser, s: State, uri: Uri): (resp: CompletionResponse)
    ensures uri !in s.documents ==> resp == ListResponse(CompletionList(false, []))
    ensures uri in s.documents ==>
      var cu := parse(s.documents[uri]);
      && resp.ItemsResponse?
      && |resp.items| == |cu.decls|
      && forall i :: 0 <= i < |resp.items| ==> resp.items[i] == Completion.ItemOf(cu.decls[i])
  {
    if uri !in s.documents then ListResponse(CompletionList(false, []))
    else ItemsResponse(Completion.ItemsOf(parse(s.documents[uri]).decls))
  }

  /** A non-empty `didChange` is a `didOpen` of its last entry's text. */
  lemma ChangeIsOpenOfLast(parse: Parser, rule: ColumnRule, s: State, uri: Uri, changes: seq<ContentChange>)
    requires changes != []
    ensures DidChange(parse, rule, s, uri, changes) == DidOpen(parse, rule, s, uri, changes[|changes| - 1].text)
  {
  }

  /** Earlier entries of a change batch, and the range of the last one,
      have no effect. */
  lemma ChangeKeepsOnlyLastText(parse: Parser, rule: ColumnRule, s: State, uri: Uri,
                                earlier: seq<ContentChange>, last: ContentChange)
    ensures DidChange(parse, rule, s, uri, earlier + [last])
         == DidChange(parse, rule, s, uri, [ContentChange(None, last.text)])
  {
  }

  /** A second `didOpen` of the same uri replaces the first one's text. */
  lemma OpenOverwrites(parse: Parser, rule: ColumnRule, s: State, uri: Uri, t1: string, t2: string)
    ensures DidOpen(parse, rule, DidOpen(parse, rule, s, uri, t1).state, uri, t2).state
         == DidOpen(parse, rule, s, uri, t2).state
  {
  }

  /** Opening then closing a uri leaves the store as it was with that uri
      removed, and the close publishes an empty set iff a client listens. */
  lemma OpenThenClose(parse: Parser, rule: ColumnRule, s: State, uri: Uri, text: string)
    ensures var r := DidClose(DidOpen(parse, rule, s, uri, text).state, uri);
      && r.state == s.(documents := s.documents - {uri})
      && (r.published == [] <==> s.client.None?)
  {
  }

  /** After `didClose`, completion for that uri shows no items. */
  lemma CloseEmptiesCompletion(parse: Parser, s: State, uri: Uri)
    ensures CompletionAt(parse, DidClose(s, uri).state, uri).Visible() == []
  {
  }

  /** After `didOpen`, completion lists the declarations of the opened text. */
  lemma OpenThenCompletion(parse: Parser, rule: ColumnRule, s: State, uri: Uri, text: string)
    ensures CompletionAt(parse, DidOpen(parse, rule, s, uri, text).state, uri)
         == ItemsResponse(Completion.ItemsOf(parse(text).decls))
  {
  }

  /** Saving right after opening republishes exactly what the open did:
      diagnostics are re-derived from the stored text, not remembered. */
  lemma SaveAfterOpenRepublishes(parse: Parser, rule: ColumnRule, s: State, uri: Uri, text: string)
    ensures DidSave(parse, rule, DidOpen(parse, rule, s, uri, text).state, uri).published
         == DidOpen(parse, rule, s, uri, text).published
  {
  }
}
