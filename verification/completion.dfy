/** Completion: one item per declaration node the visitor reaches. */
module Completion {
  import opened Wrappers
  import opened Lsp
  import opened Jdt

  /** The item kind each visited node type is given. */
  function KindOf(k: DeclKind): (c: CompletionItemKind)
    ensures c.Method? <==> k == MethodDecl
    ensures c.Class? <==> k == TypeDecl
    ensures c.Variable? <==> k == VariableFragment
  {
    match k
    case MethodDecl => Method
    case TypeDecl => Class
    case VariableFragment => Variable
  }

  /** The item created for one visited node: its identifier as label, and its kind. */
  function ItemOf(d: Decl): (item: CompletionItem)
    ensures item.labelText == d.identifier
    ensures item.kind == Some(KindOf(d.kind))
  {
    CompletionItem(d.identifier, Some(KindOf(d.kind)))
  }

  /** Reads a declaration back from an item; only the three kinds the
      visitor assigns have a declaration behind them. */
  function DeclOf(item: CompletionItem): (r: Option<Decl>)
  {
    match item.kind
    case Some(Method) => Some(Decl(MethodDecl, item.labelText))
    case Some(Class) => Some(Decl(TypeDecl, item.labelText))
    case Some(Variable) => Some(Decl(VariableFragment, item.labelText))
    case _ => None
  }

  /** The item of a declaration determines the declaration. */
  lemma DeclOfItemOf(d: Decl)
    ensures DeclOf(ItemOf(d)) == Some(d)
  {
  }

  /** The items for a traversal: one per node, in traversal order, with
      no merging of equal names. */
  function ItemsOf(decls: seq<Decl>): (items: seq<CompletionItem>)
    ensures |items| == |decls|
    ensures forall i :: 0 <= i < |items| ==> items[i] == ItemOf(decls[i])
    decreases |decls|
  {
    if decls == [] then [] else [ItemOf(decls[0])] + ItemsOf(decls[1..])
  }

  /** The Java service's visitor: items appended as the nodes are visited. */
  method VisitDeclarations(cu: CompilationUnit) returns (items: seq<CompletionItem>)
    ensures items == ItemsOf(cu.decls)
  {
    items := [];
    var i := 0;
    while i < |cu.decls|
      invariant 0 <= i <= |cu.decls|
      invariant |items| == i
      invariant forall j :: 0 <= j < i ==> items[j] == ItemOf(cu.decls[j])
    {
      var item := ItemOf(cu.decls[i]);
      items := items + [item];
      i := i + 1;
    }
  }

  /** Decoding the items gives back exactly the traversal. */
  lemma ItemsRoundTrip(decls: seq<Decl>)
    ensures forall i :: 0 <= i < |decls| ==> DeclOf(ItemsOf(decls)[i]) == Some(decls[i])
  {
  }

  /** How many declarations of one kind a traversal holds. */
  function CountDecls(decls: seq<Decl>, k: DeclKind): nat
    decreases |decls|
  {
    if decls == [] then 0
    else (if decls[0].kind == k then 1 else 0) + CountDecls(decls[1..], k)
  }

  /** How many items of one kind a list holds. */
  function CountItems(items: seq<CompletionItem>, c: CompletionItemKind): nat
    decreases |items|
  {
    if items == [] then 0
    else (if items[0].kind == Some(c) then 1 else 0) + CountItems(items[1..], c)
  }

  /** No declaration is dropped or merged: each kind keeps its count. */
  lemma {:induction false} ItemsKeepCounts(decls: seq<Decl>, k: DeclKind)
    ensures CountItems(ItemsOf(decls), KindOf(k)) == CountDecls(decls, k)
    decreases |decls|
  {
    if decls != [] {
      assert ItemsOf(decls)[1..] == ItemsOf(decls[1..]);
      ItemsKeepCounts(decls[1..], k);
    }
  }

  /** Items of consecutive stretches of the traversal concatenate. */
  lemma ItemsOfAppend(a: seq<Decl>, b: seq<Decl>)
    ensures ItemsOf(a + b) == ItemsOf(a) + ItemsOf(b)
  {
  }

  /** `resolveCompletionItem`: the item is handed back unchanged. */
  function ResolveCompletionItem(unresolved: CompletionItem): (resolved: CompletionItem)
    ensures resolved == unresolved
  {
    unresolved
  }
}
