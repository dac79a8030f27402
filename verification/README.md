# Document lifecycle of a minimal Java language server

This project models the text-document service of a small Language Server
Protocol endpoint for Java (`SimpleTextDocumentService`). The service keeps
two pieces of state:

- a map from document uri to the document's full text;
- the language client it is connected to, if any.

It handles four lifecycle notifications (`didOpen`, `didChange`,
`didClose`, `didSave`), each of which may send the client one
`publishDiagnostics` notification. It also answers `completion` and
`resolveCompletionItem` requests.

The model is functional:

- The state is an immutable `DocumentService.State`.
- Each notification is a pure function returning the next state together
  with the publications it sends.
- `Session.Run` applies a whole sequence of notifications.
- The Java parser (JDT) is a parameter `parse: string -> CompilationUnit`.
  A compilation unit carries the declaration nodes in the visitor's
  traversal order, the compiler problems, and the unit's opaque
  `lineNumber`/`columnNumber` lookups. Every property is proved for every
  such parser.
- Every lifecycle operation also takes a `Diagnostics.ColumnRule`.
  `AsWritten` is the Java code's position arithmetic (line and column both
  minus one). `Corrected` keeps the column as is (see "## Findings").
  Every lifecycle property is proved for both rules, so the program as
  written runs through all of them.

Files:

- `wrappers.dfy`: `Option`.
- `lsp.dfy`: protocol records.
- `jdt.dfy`: the parser boundary.
- `diagnostics.dfy`: problem-to-diagnostic mapping.
- `completion.dfy`: the completion visitor and `resolveCompletionItem`.
- `document_service.dfy`: state and notifications.
- `session.dfy`: sequences of notifications.

## Model

| member | source | states |
|---|---|---|
| Diagnostics.SeverityOf | standalone-example/src/main/java/org/eclipse/jdt/ls/standalone/SimpleTextDocumentService.java:141 | severity is Error exactly when the problem is an error, Warning exactly when it is not |
| Diagnostics.ToDiagnostic | standalone-example/src/main/java/org/eclipse/jdt/ls/standalone/SimpleTextDocumentService.java:139-146 | corrected mapping (see Findings): message copied; Error iff isError; lines are the unit's 1-based line minus one; characters are the unit's 0-based column |
| Diagnostics.ToDiagnosticAsWritten | standalone-example/src/main/java/org/eclipse/jdt/ls/standalone/SimpleTextDocumentService.java:139-146 | the mapping as written: line and column of start and end offsets each decremented by one; Error iff isError, Warning otherwise |
| Diagnostics.AsWrittenColumnZeroInvalid | standalone-example/src/main/java/org/eclipse/jdt/ls/standalone/SimpleTextDocumentService.java:143 | a problem at column 0 of a unit that keeps the parser's contract gets character -1 as written, and a valid position when corrected |
| Diagnostics.CorrectedRangesValid | standalone-example/src/main/java/org/eclipse/jdt/ls/standalone/SimpleTextDocumentService.java:142-146 | the corrected mapping gives only non-negative lines and characters when every problem offset gets an in-range line and column; it promises nothing for the lookups' -1/-2 answers |
| Diagnostics.SentinelInvalidUnderBothRules | standalone-example/src/main/java/org/eclipse/jdt/ls/standalone/SimpleTextDocumentService.java:142-145 | a problem whose offsets the unit cannot place (lookups answer -1) gets an invalid range under both rules |
| Diagnostics.DiagnosticsOf | standalone-example/src/main/java/org/eclipse/jdt/ls/standalone/SimpleTextDocumentService.java:137-148 | one diagnostic per problem, same length, the i-th diagnostic is the mapping of the i-th problem |
| Diagnostics.Convert | standalone-example/src/main/java/org/eclipse/jdt/ls/standalone/SimpleTextDocumentService.java:139-146 | one problem under either column rule: message kept, Error iff isError and Warning otherwise, lines the unit's line minus one, characters the unit's column minus one as written or the column itself when corrected |
| Diagnostics.UnitDiagnostics | standalone-example/src/main/java/org/eclipse/jdt/ls/standalone/SimpleTextDocumentService.java:137-148 | one diagnostic per problem of the unit, in order: the i-th is the i-th problem under the column rule (range included), message kept, Error iff isError, else Warning |
| Diagnostics.CollectDiagnostics | standalone-example/src/main/java/org/eclipse/jdt/ls/standalone/SimpleTextDocumentService.java:137-148 | the appending loop over the problems yields exactly the reference list of diagnostics, under either column rule |
| Diagnostics.DiagnosticsOfAppend | standalone-example/src/main/java/org/eclipse/jdt/ls/standalone/SimpleTextDocumentService.java:138-148 | the mapping is per problem: the diagnostics of a concatenation are the concatenation of the diagnostics |
| Completion.KindOf | standalone-example/src/main/java/org/eclipse/jdt/ls/standalone/SimpleTextDocumentService.java:84-108 | Method iff method declaration, Class iff type declaration, Variable iff variable-declaration fragment |
| Completion.ItemOf | standalone-example/src/main/java/org/eclipse/jdt/ls/standalone/SimpleTextDocumentService.java:87-89 | the item's label is the node's identifier and its kind is set from the node type |
| Completion.DeclOfItemOf | standalone-example/src/main/java/org/eclipse/jdt/ls/standalone/SimpleTextDocumentService.java:86-106 | an item determines its declaration: reading the item back gives the node's kind and identifier |
| Completion.ItemsOf | standalone-example/src/main/java/org/eclipse/jdt/ls/standalone/SimpleTextDocumentService.java:83-108 | one item per visited declaration, in traversal order, no merging |
| Completion.VisitDeclarations | standalone-example/src/main/java/org/eclipse/jdt/ls/standalone/SimpleTextDocumentService.java:83-110 | the visitor appending one item per node yields exactly the reference item list |
| Completion.ItemsRoundTrip | standalone-example/src/main/java/org/eclipse/jdt/ls/standalone/SimpleTextDocumentService.java:83-108 | decoding the i-th item of the list gives back the i-th declaration |
| Completion.ItemsKeepCounts | standalone-example/src/main/java/org/eclipse/jdt/ls/standalone/SimpleTextDocumentService.java:83-108 | no de-duplication: the number of items of each kind equals the number of declarations of that kind |
| Completion.ItemsOfAppend | standalone-example/src/main/java/org/eclipse/jdt/ls/standalone/SimpleTextDocumentService.java:84-108 | items of consecutive stretches of the traversal concatenate |
| Completion.ResolveCompletionItem | standalone-example/src/main/java/org/eclipse/jdt/ls/standalone/SimpleTextDocumentService.java:113-116 | resolving returns the given item unchanged |
| DocumentService.PublishDiagnostics | standalone-example/src/main/java/org/eclipse/jdt/ls/standalone/SimpleTextDocumentService.java:123-150 | publishes iff a client is connected and the uri is stored; then one notification to that client for that uri, the i-th diagnostic being the i-th problem of the fresh parse under the column rule (`AsWritten`: the code's column minus one) |
| DocumentService.DidOpen | standalone-example/src/main/java/org/eclipse/jdt/ls/standalone/SimpleTextDocumentService.java:44-47 | the uri maps to exactly the given text; every other uri and the client are unchanged; it publishes for the uri, once iff a client is connected |
| DocumentService.DidChange | standalone-example/src/main/java/org/eclipse/jdt/ls/standalone/SimpleTextDocumentService.java:50-56 | an empty change list changes nothing and publishes nothing; otherwise the last entry's text is stored, other uris are unchanged, and it publishes for the uri |
| DocumentService.DidClose | standalone-example/src/main/java/org/eclipse/jdt/ls/standalone/SimpleTextDocumentService.java:58-64 | the uri is removed and other uris are unchanged; an empty diagnostic set is published for it iff a client is connected |
| DocumentService.DidSave | standalone-example/src/main/java/org/eclipse/jdt/ls/standalone/SimpleTextDocumentService.java:66-69 | the state is unchanged; the output is what publishing the stored text yields |
| DocumentService.Connect | standalone-example/src/main/java/org/eclipse/jdt/ls/standalone/SimpleTextDocumentService.java:119-121 | the client is replaced by the given one; the store is untouched |
| DocumentService.CompletionAt | standalone-example/src/main/java/org/eclipse/jdt/ls/standalone/SimpleTextDocumentService.java:72-111 | an absent uri answers an empty completion list; a stored one answers one item per declaration of its parse, in order |
| DocumentService.ChangeIsOpenOfLast | standalone-example/src/main/java/org/eclipse/jdt/ls/standalone/SimpleTextDocumentService.java:50-54 | a non-empty change equals an open with the last entry's text |
| DocumentService.ChangeKeepsOnlyLastText | standalone-example/src/main/java/org/eclipse/jdt/ls/standalone/SimpleTextDocumentService.java:52-53 | earlier change entries and the last entry's range have no effect |
| DocumentService.OpenOverwrites | standalone-example/src/main/java/org/eclipse/jdt/ls/standalone/SimpleTextDocumentService.java:45 | a second open of the same uri replaces the first one's text |
| DocumentService.OpenThenClose | standalone-example/src/main/java/org/eclipse/jdt/ls/standalone/SimpleTextDocumentService.java:44-63 | open then close leaves the original store minus the uri, and publishes nothing on close iff no client |
| DocumentService.CloseEmptiesCompletion | standalone-example/src/main/java/org/eclipse/jdt/ls/standalone/SimpleTextDocumentService.java:60-75 | after close, completion for the uri shows no items |
| DocumentService.OpenThenCompletion | standalone-example/src/main/java/org/eclipse/jdt/ls/standalone/SimpleTextDocumentService.java:45-110 | after open, completion lists the declarations of the opened text |
| DocumentService.SaveAfterOpenRepublishes | standalone-example/src/main/java/org/eclipse/jdt/ls/standalone/SimpleTextDocumentService.java:66-69 | save after open republishes exactly the open's diagnostics, re-derived from the stored text |
| Session.Step | standalone-example/src/main/java/org/eclipse/jdt/ls/standalone/SimpleTextDocumentService.java:43-121 | one notification publishes at most once, only to the client connected before it and only for the uri it names; only connect changes the client; uris it does not name keep their entries |
| Session.Run | standalone-example/src/main/java/org/eclipse/jdt/ls/standalone/SimpleTextDocumentService.java:43-121 | a sequence of notifications publishes at most once per notification |
| Session.RunCons | standalone-example/src/main/java/org/eclipse/jdt/ls/standalone/SimpleTextDocumentService.java:43-121 | running a notification then others: the later ones start from the state the first one leaves, and their publications follow its own |
| Session.RunAppendState | standalone-example/src/main/java/org/eclipse/jdt/ls/standalone/SimpleTextDocumentService.java:43-121 | running a concatenation ends in the state of running the parts in order |
| Session.RunAppendPublished | standalone-example/src/main/java/org/eclipse/jdt/ls/standalone/SimpleTextDocumentService.java:43-121 | running a concatenation publishes the first part's publications followed by the second part's |
| Session.PublicationsGoToClient | standalone-example/src/main/java/org/eclipse/jdt/ls/standalone/SimpleTextDocumentService.java:119-126 | without connect, the client stays the same and every publication goes to it; nothing is published if there was none |
| Session.RunFrame | standalone-example/src/main/java/org/eclipse/jdt/ls/standalone/SimpleTextDocumentService.java:44-69 | a uri that no notification names keeps its stored text or its absence |
| Session.FreshServiceWithoutConnectIsSilent | standalone-example/src/main/java/org/eclipse/jdt/ls/standalone/SimpleTextDocumentService.java:41-126 | a fresh service (empty store, client null) that is never connected publishes nothing, whatever notifications it gets |
| Session.EndingInCloseEmptiesCompletion | standalone-example/src/main/java/org/eclipse/jdt/ls/standalone/SimpleTextDocumentService.java:58-75 | after any session ending in close of a uri, completion for that uri shows no items |

## Left out

- The JDT parser is a parameter. The model does not parse Java, does not define the visitor's traversal order, and does not define what `getLineNumber`/`getColumnNumber` return. `Jdt.LocatesProblems` states only their in-range answers: lines count from 1 and columns from 0.
- Diagnostics.CorrectedRangesValid: covers only problems whose offsets lie on a source line. JDT's lookups also answer -1 for an offset on no line and -2 when there is no line information. A problem may also carry -1 as an unknown offset. Both column rules turn these answers into invalid ranges (`Diagnostics.SentinelInvalidUnderBothRules`), exactly as the Java code does.
- The JSON-RPC transport, the launchers and `MinimalLanguageServer`/`Main` are not modelled. They only do stdio wiring.
- `SimpleLanguageServer` and `DummyJdtLanguageServer` are not modelled. `SimpleLanguageServer` declares full-text sync and forwards `connect` to the document service. `DummyJdtLanguageServer.connect` only stores the client and never forwards it. Neither launcher (`Main`, `MinimalLanguageServer`) calls `connect` at all. So in both shipped programs the document service's client stays null and it publishes nothing, which is the case `Session.FreshServiceWithoutConnectIsSilent` covers. In the code, `shutdown` does not release the stored documents; it only returns null. So the model has no shutdown transition.
- `SimpleWorkspaceService` is not modelled: every method is a no-op.
- `CompletableFuture` asynchrony and `ConcurrentHashMap` thread safety are not modelled. The model is sequential: one notification at a time.
- `ConcurrentHashMap` throws on a null uri or text. Strings in the model are never null, so this case does not arise.
- Java `int` overflow in `getLineNumber(..) - 1` is not modelled. Line and column values stay far from the 32-bit limits.
- Hover, go-to-definition and offset/position conversion are not part of this code, so they are not modelled.
- `CompletionItem` keeps only its label and kind. The service sets no other field.
- `Diagnostic` keeps range, message and severity. The service sets no other field.
- Diagnostics.Convert: under both column rules, the end position comes from the problem's inclusive end offset, exactly as in the code. The model does not widen it to the protocol's exclusive end.

## Findings

| source | as written | input that shows it | evidently intended | confidence | as-written member | corrected member |
|---|---|---|---|---|---|---|
| standalone-example/src/main/java/org/eclipse/jdt/ls/standalone/SimpleTextDocumentService.java:143 | the character of each position is `getColumnNumber(offset) - 1`, but JDT numbers columns from 0 (only lines from 1) | a problem starting at the first column of a line: the parser reports column 0, the diagnostic gets character -1, which is not a protocol position, and every other diagnostic is one character to the left | character = `getColumnNumber(offset)`; line = `getLineNumber(offset) - 1` as written | high, relying on JDT's documented 0-based columns; not executed | Diagnostics.ToDiagnosticAsWritten, Diagnostics.AsWrittenColumnZeroInvalid | Diagnostics.ToDiagnostic, Diagnostics.CorrectedRangesValid |

The lifecycle operations take the column rule as a parameter. With
`AsWritten` they model the code exactly. With `Corrected` they model the
evidently intended program. Every lifecycle property holds under both
rules.
