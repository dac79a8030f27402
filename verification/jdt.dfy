/** The boundary to the Java parser. The parser itself is not modelled: the
    service receives it as a pure function from source text to a compilation
    unit, and every rule below is stated for all such functions. */
module Jdt {

  /** The three node types the completion visitor reacts to. */
  datatype DeclKind = MethodDecl | TypeDecl | VariableFragment

  /** A declaration node reached by the visitor, with its simple name. */
  datatype Decl = Decl(kind: DeclKind, identifier: string)

  /** A compiler problem: message, error flag, and the source offsets of its
      first and last character. */
  datatype Problem = Problem(message: string, isError: bool, sourceStart: int, sourceEnd: int)

  /** What the parser returns for one text. `decls` lists the declaration
      nodes in the visitor's traversal order. `lineNumber` and `columnNumber`
      are the unit's offset-to-position lookups, taken as given. */
  datatype CompilationUnit = CompilationUnit(
    decls: seq<Decl>,
    problems: seq<Problem>,
    lineNumber: int -> int,
    columnNumber: int -> int)

  /** A parser: a pure function of the text alone, re-run on every request. */
  type Parser = string -> CompilationUnit

  /** Every problem offset lies on a source line, so the unit's lookups
      give their in-range answers: lines counted from 1, columns from 0.
      The lookups also have out-of-range answers (-1 for an offset on no
      line, -2 without line information), and a problem may carry -1 as an
      unknown offset; a unit with such a problem does not satisfy this. */
  predicate LocatesProblems(cu: CompilationUnit)
  {
    forall p :: p in cu.problems ==>
      && cu.lineNumber(p.sourceStart) >= 1 && cu.columnNumber(p.sourceStart) >= 0
      && cu.lineNumber(p.sourceEnd) >= 1 && cu.columnNumber(p.sourceEnd) >= 0
  }
}
