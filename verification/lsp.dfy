/** The Language Server Protocol records the document service reads and
    writes: positions, diagnostics, completion items and the
    `textDocument/publishDiagnostics` notification it sends to the client. */
module Lsp {
  import opened Wrappers

  type Uri = string

  /** A zero-based (line, character) pair. Java `int`s in the wire library;
      the model keeps them unbounded. */
  datatype Position = Position(line: int, character: int)

  datatype Range = Range(start: Position, end: Position)

  datatype DiagnosticSeverity = Error | Warning | Information | Hint

  datatype Diagnostic = Diagnostic(range: Range, message: string, severity: DiagnosticSeverity)

  /** The completion kinds the service assigns, plus the rest of the
      protocol's kinds folded into one case. */
  datatype CompletionItemKind = Method | Class | Variable | OtherKind(code: nat)

  /** A completion item: its label and its (nullable) kind. The label is
      `labelText` because `label` is a reserved word in Dafny. */
  datatype CompletionItem = CompletionItem(labelText: string, kind: Option<CompletionItemKind>)

  datatype CompletionList = CompletionList(isIncomplete: bool, items: seq<CompletionItem>)

  /** The `Either<List<CompletionItem>, CompletionList>` a completion request answers. */
  datatype CompletionResponse =
    | ItemsResponse(items: seq<CompletionItem>)
    | ListResponse(list: CompletionList)
  {
    /** The items the client sees, whichever side of the union carries them. */
    function Visible(): seq<CompletionItem>
    {
      match this
      case ItemsResponse(items) => items
      case ListResponse(list) => list.items
    }
  }

  /** One connected language client, identified for the notifications it receives. */
  datatype Client = Client(id: nat)

  /** A `publishDiagnostics` notification: the full replacement set of
      diagnostics for one document, sent to one client. */
  datatype Publication = Publication(to: Client, uri: Uri, diagnostics: seq<Diagnostic>)

  /** One entry of a `didChange` notification; `range` is present for an
      incremental edit and absent for a full-text replacement. */
  datatype ContentChange = ContentChange(range: Option<Range>, text: string)
}
