/** Turning the parser's problems into protocol diagnostics: the body of
    `publishDiagnostics` once a client and a stored text are known. */
module Diagnostics {
  import opened Lsp
  import opened Jdt

  /** Error for an error problem, Warning for every other problem. */
  function SeverityOf(isError: bool): (s: DiagnosticSeverity)
    ensures s == Error <==> isError
    ensures s == Warning <==> !isError
  {
    if isError then Error else Warning
  }

  /** The protocol position of a source offset: the unit's 1-based line
      shifted to 0-based, and its column, already 0-based, kept as is. */
  function PositionOf(cu: CompilationUnit, offset: int): Position
  {
    Position(cu.lineNumber(offset) - 1, cu.columnNumber(offset))
  }

  /** One problem as a diagnostic, with the column correction; see
      `ToDiagnosticAsWritten` for the Java service's own arithmetic. */
  function ToDiagnostic(cu: CompilationUnit, p: Problem): (d: Diagnostic)
    ensures d.message == p.message
    ensures d.severity == Error <==> p.isError
    ensures d.severity == Warning <==> !p.isError
    ensures d.range.start.line + 1 == cu.lineNumber(p.sourceStart)
    ensures d.range.end.line + 1 == cu.lineNumber(p.sourceEnd)
    ensures d.range.start.character == cu.columnNumber(p.sourceStart)
    ensures d.range.end.character == cu.columnNumber(p.sourceEnd)
  {
    Diagnostic(Range(PositionOf(cu, p.sourceStart), PositionOf(cu, p.sourceEnd)),
               p.message, SeverityOf(p.isError))
  }

  /** The Java service's mapping as written: line and column both decremented. */
  function ToDiagnosticAsWritten(cu: CompilationUnit, p: Problem): (d: Diagnostic)
    ensures d.message == p.message
    ensures d.severity == Error <==> p.isError
    ensures d.severity == Warning <==> !p.isError
    ensures d.range.start.line + 1 == cu.lineNumber(p.sourceStart)
    ensures d.range.end.line + 1 == cu.lineNumber(p.sourceEnd)
    ensures d.range.start.character + 1 == cu.columnNumber(p.sourceStart)
    ensures d.range.end.character + 1 == cu.columnNumber(p.sourceEnd)
  {
    var start := Position(cu.lineNumber(p.sourceStart) - 1, cu.columnNumber(p.sourceStart) - 1);
    var end := Position(cu.lineNumber(p.sourceEnd) - 1, cu.columnNumber(p.sourceEnd) - 1);
    Diagnostic(Range(start, end), p.message, SeverityOf(p.isError))
  }

  /** Which column arithmetic the service publishes with: the Java code's
      own (`AsWritten`) or the corrected one. Every lifecycle operation
      takes this as a parameter, so each of its properties holds of both. */
  datatype ColumnRule = AsWritten | Corrected

  /** One problem as a diagnostic under the given column rule. */
  function Convert(rule: ColumnRule, cu: CompilationUnit, p: Problem): (d: Diagnostic)
    ensures d.message == p.message
    ensures d.severity == Error <==> p.isError
    ensures d.severity == Warning <==> !p.isError
    ensures d.range.start.line + 1 == cu.lineNumber(p.sourceStart)
    ensures d.range.end.line + 1 == cu.lineNumber(p.sourceEnd)
    ensures rule == AsWritten ==>
      && d.range.start.character + 1 == cu.columnNumber(p.sourceStart)
      && d.range.end.character + 1 == cu.columnNumber(p.sourceEnd)
    ensures rule == Corrected ==>
      && d.range.start.character == cu.columnNumber(p.sourceStart)
      && d.range.end.character == cu.columnNumber(p.sourceEnd)
  {
    match rule
    case AsWritten => ToDiagnosticAsWritten(cu, p)
    case Corrected => ToDiagnostic(cu, p)
  }

  /** A position the protocol accepts: both coordinates non-negative. */
  predicate ValidPosition(pos: Position)
  {
    pos.line >= 0 && pos.character >= 0
  }

  predicate ValidRange(r: Range)
  {
    ValidPosition(r.start) && ValidPosition(r.end)
  }

  /** The diagnostics for a list of problems: one per problem, in order. */
  function DiagnosticsOf(rule: ColumnRule, cu: CompilationUnit, problems: seq<Problem>): (ds: seq<Diagnostic>)
    ensures |ds| == |problems|
    ensures forall i :: 0 <= i < |ds| ==> ds[i] == Convert(rule, cu, problems[i])
    decreases |problems|
  {
    if problems == [] then []
    else [Convert(rule, cu, problems[0])] + DiagnosticsOf(rule, cu, problems[1..])
  }

  /** The diagnostics of a whole unit: one per problem, in problem order,
      message kept, Error iff the problem is an error and Warning otherwise,
      range as the column rule computes it. */
  function UnitDiagnostics(rule: ColumnRule, cu: CompilationUnit): (ds: seq<Diagnostic>)
    ensures |ds| == |cu.problems|
    ensures forall i :: 0 <= i < |ds| ==> ds[i] == Convert(rule, cu, cu.problems[i])
    ensures forall i :: 0 <= i < |ds| ==>
      && ds[i].message == cu.problems[i].message
      && (ds[i].severity == Error <==> cu.problems[i].isError)
      && (ds[i].severity == Warning <==> !cu.problems[i].isError)
  {
    DiagnosticsOf(rule, cu, cu.problems)
  }

  /** The Java service's loop: a diagnostic appended per problem. */
  method CollectDiagnostics(rule: ColumnRule, cu: CompilationUnit) returns (ds: seq<Diagnostic>)
    ensures ds == UnitDiagnostics(rule, cu)
  {
    ds := [];
    var i := 0;
    while i < |cu.problems|
      invariant 0 <= i <= |cu.problems|
      invariant |ds| == i
      invariant forall j :: 0 <= j < i ==> ds[j] == Convert(rule, cu, cu.problems[j])
    {
      var d := Convert(rule, cu, cu.problems[i]);
      ds := ds + [d];
      i := i + 1;
    }
  }

  /** Mapping distributes over concatenation of problem lists. */
  lemma DiagnosticsOfAppend(rule: ColumnRule, cu: CompilationUnit, a: seq<Problem>, b: seq<Problem>)
    ensures DiagnosticsOf(rule, cu, a + b) == DiagnosticsOf(rule, cu, a) + DiagnosticsOf(rule, cu, b)
  {
  }

  /** With the corrected rule, a unit whose lookups give in-range answers
      (line from 1, column from 0) for every problem offset only yields
      ranges the protocol accepts. */
  lemma CorrectedRangesValid(cu: CompilationUnit)
    requires LocatesProblems(cu)
    ensures forall d :: d in UnitDiagnostics(Corrected, cu) ==> ValidRange(d.range)
  {
  }

  /** A problem on the first column of line 1 (column 0 in the parser's
      numbering): the as-written rule gives character -1, which is not a
      protocol position, while the corrected one gives 0. */
  lemma AsWrittenColumnZeroInvalid()
    ensures var cu := CompilationUnit([], [Problem("x", true, 0, 0)], (o: int) => 1, (o: int) => 0);
      && LocatesProblems(cu)
      && !ValidRange(Convert(AsWritten, cu, cu.problems[0]).range)
      && Convert(AsWritten, cu, cu.problems[0]).range.start == Position(0, -1)
      && ValidRange(Convert(Corrected, cu, cu.problems[0]).range)
  {
  }

  /** Neither rule repairs the parser's "no such line" answer (-1): a
      problem whose offsets the unit cannot place gets an invalid range
      under both. */
  lemma SentinelInvalidUnderBothRules(rule: ColumnRule)
    ensures var cu := CompilationUnit([], [Problem("x", true, -1, -1)], (o: int) => -1, (o: int) => -1);
      && !LocatesProblems(cu)
      && !ValidRange(Convert(rule, cu, cu.problems[0]).range)
  {
  }
}
