/** A session: the notifications a client sends, applied in order, and
    everything the service publishes in answer. */
module Session {
  import opened Wrappers
  import opened Lsp
  import opened Jdt
  import opened Diagnostics
  import DS = DocumentService

  datatype Event =
    | Open(uri: Uri, text: string)
    | Change(uri: Uri, changes: seq<ContentChange>)
    | Close(uri: Uri)
    | Save(uri: Uri)
    | Connect(client: Option<Client>)

  /** The uri an event concerns, if any. */
  predicate Mentions(e: Event, u: Uri)
  {
    !e.Connect? && e.uri == u
  }

  /** One notification handled by the service. */
  function Step(parse: Parser, rule: ColumnRule, s: DS.State, e: Event): (r: DS.Outcome)
    ensures |r.published| <= 1
    ensures !e.Connect? ==> r.state.client == s.client
    ensures forall u :: !Mentions(e, u) ==> DS.SameEntry(s.documents, r.state.documents, u)
    ensures forall p :: p in r.published ==> s.client == Some(p.to) && Mentions(e, p.uri)
    ensures s.client.None? ==> r.published == []
  {
    match e
    case Open(uri, text) => DS.DidOpen(parse, rule, s, uri, text)
    case Change(uri, changes) => DS.DidChange(parse, rule, s, uri, changes)
    case Close(uri) => DS.DidClose(s, uri)
    case Save(uri) => DS.DidSave(parse, rule, s, uri)
    case Connect(client) => DS.Outcome(DS.Connect(s, client), [])
  }

  /** A sequence of notifications, the publications concatenated in order. */
  function Run(parse: Parser, rule: ColumnRule, s: DS.State, events: seq<Event>): (r: DS.Outcome)
    ensures |r.published| <= |events|
    decreases |events|
  {
    if events == [] then DS.Outcome(s, [])
    else
      var first := Step(parse, rule, s, events[0]);
      var rest := Run(parse, rule, first.state, events[1..]);
      DS.Outcome(rest.state, first.published + rest.published)
  }

  /** Running a notification followed by others. */
  lemma RunCons(parse: Parser, rule: ColumnRule, s: DS.State, e: Event, rest: seq<Event>)
    ensures var first := Step(parse, rule, s, e);
      var after := Run(parse, rule, first.state, rest);
      Run(parse, rule, s, [e] + rest) == DS.Outcome(after.state, first.published + after.published)
  {
  }

  /** Running two stretches of notifications ends where running the
      second from the end of the first ends. */
  lemma {:induction false} RunAppendState(parse: Parser, rule: ColumnRule, s: DS.State, a: seq<Event>, b: seq<Event>)
    ensures Run(parse, rule, s, a + b).state == Run(parse, rule, Run(parse, rule, s, a).state, b).state
    decreases |a|
  {
    if a == [] {
      assert a + b == b;
    } else {
      var e, t := a[0], a[1..];
      assert a == [e] + t;
      assert a + b == [e] + (t + b);
      RunCons(parse, rule, s, e, t + b);
      RunCons(parse, rule, s, e, t);
      RunAppendState(parse, rule, Step(parse, rule, s, e).state, t, b);
    }
  }

  /** Running two stretches of notifications publishes what the first
      stretch publishes followed by what the second one publishes from
      where the first one ended. */
  lemma {:induction false} RunAppendPublished(parse: Parser, rule: ColumnRule, s: DS.State, a: seq<Event>, b: seq<Event>)
    ensures Run(parse, rule, s, a + b).published
         == Run(parse, rule, s, a).published + Run(parse, rule, Run(parse, rule, s, a).state, b).published
    decreases |a|
  {
    if a == [] {
      assert a + b == b;
    } else {
      var e, t := a[0], a[1..];
      assert a == [e] + t;
      assert a + b == [e] + (t + b);
      var first := Step(parse, rule, s, e);
      RunCons(parse, rule, s, e, t + b);
      RunCons(parse, rule, s, e, t);
      RunAppendPublished(parse, rule, first.state, t, b);
      var mid := Run(parse, rule, first.state, t);
      ConcatAssoc(first.published, mid.published, Run(parse, rule, mid.state, b).published);
    }
  }

  /** Sequence concatenation is associative. */
  lemma ConcatAssoc<T>(x: seq<T>, y: seq<T>, z: seq<T>)
    ensures x + (y + z) == (x + y) + z
  {
  }

  /** No `connect` among the events. */
  predicate NoConnect(events: seq<Event>)
  {
    forall i :: 0 <= i < |events| ==> !events[i].Connect?
  }

  /** Without a `connect`, every publication goes to the client connected at
      the start; in particular nothing is published if none was. */
  lemma {:induction false} PublicationsGoToClient(parse: Parser, rule: ColumnRule, s: DS.State, events: seq<Event>)
    requires NoConnect(events)
    ensures Run(parse, rule, s, events).state.client == s.client
    ensures forall p :: p in Run(parse, rule, s, events).published ==> s.client == Some(p.to)
    ensures s.client.None? ==> Run(parse, rule, s, events).published == []
    decreases |events|
  {
    if events != [] {
      var first := Step(parse, rule, s, events[0]);
      PublicationsGoToClient(parse, rule, first.state, events[1..]);
    }
  }

  /** A uri no event names keeps its stored text (or its absence). */
  lemma {:induction false} RunFrame(parse: Parser, rule: ColumnRule, s: DS.State, events: seq<Event>, u: Uri)
    requires forall i :: 0 <= i < |events| ==> !Mentions(events[i], u)
    ensures DS.SameEntry(s.documents, Run(parse, rule, s, events).state.documents, u)
    decreases |events|
  {
    if events != [] {
      var first := Step(parse, rule, s, events[0]);
      assert !Mentions(events[0], u);
      assert DS.SameEntry(s.documents, first.state.documents, u);
      RunFrame(parse, rule, first.state, events[1..], u);
    }
  }

  /** Whatever came before, a session ending in `didClose` of a uri leaves
      completion for it empty. */
  lemma EndingInCloseEmptiesCompletion(parse: Parser, rule: ColumnRule, s: DS.State, events: seq<Event>, u: Uri)
    ensures DS.CompletionAt(parse, Run(parse, rule, s, events + [Close(u)]).state, u).Visible() == []
  {
    RunAppendState(parse, rule, s, events, [Close(u)]);
  }

  /** A service nobody has connected to publishes nothing, whatever
      notifications it receives. */
  lemma FreshServiceWithoutConnectIsSilent(parse: Parser, rule: ColumnRule, events: seq<Event>)
    requires NoConnect(events)
    ensures Run(parse, rule, DS.Initial, events).published == []
  {
    PublicationsGoToClient(parse, rule, DS.Initial, events);
  }
}
