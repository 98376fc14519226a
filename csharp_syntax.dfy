/** The part of a C# syntax tree the documentation parser looks at: declarations
    with their identifiers, leading trivia, attribute lists, base lists and
    members. Everything else a compilation unit may hold (enums, delegates,
    file-scoped namespaces, constructors, events, ...) is `OtherMember`. */
module CSharpSyntax {
  import opened Text

  /** A piece of leading trivia: a `///` documentation comment (its text as
      written, markers included) or any other trivia (`//` comments, white space). */
  datatype Trivia = DocumentationComment(text: string) | OtherTrivia(text: string)

  /** An attribute argument: `Name = expr` has a name, a positional one has none. */
  datatype Argument = Argument(nameEquals: Option<string>, expression: string)

  /** An attribute with its argument list (an absent list is an empty one). */
  datatype AttributeSyntax = AttributeSyntax(name: string, arguments: seq<Argument>)

  datatype TypeKeyword = ClassKeyword | InterfaceKeyword | StructKeyword

  datatype MemberSyntax =
    | NamespaceDeclaration(name: string, members: seq<MemberSyntax>)
    | TypeDeclaration(
        keyword: TypeKeyword,
        identifier: string,
        leadingTrivia: seq<Trivia>,
        attributeLists: seq<seq<AttributeSyntax>>,
        baseList: seq<string>,
        members: seq<MemberSyntax>)
    | MethodDeclaration(identifier: string, leadingTrivia: seq<Trivia>, attributeLists: seq<seq<AttributeSyntax>>)
    | PropertyDeclaration(identifier: string, leadingTrivia: seq<Trivia>, attributeLists: seq<seq<AttributeSyntax>>)
    | FieldDeclaration(variables: seq<string>, leadingTrivia: seq<Trivia>, attributeLists: seq<seq<AttributeSyntax>>)
    | OtherMember

  /** The top-level members of one source file. */
  type CompilationUnit = seq<MemberSyntax>

  /** trivia[k] is the first documentation comment of the trivia list. */
  predicate FirstDocComment(trivia: seq<Trivia>, k: int) {
    0 <= k < |trivia| && trivia[k].DocumentationComment? &&
    forall j :: 0 <= j < k ==> trivia[j].OtherTrivia?
  }

  /** The text of the first documentation comment among the leading trivia, or
      "" when there is none: a declaration's doc comment is the first one. */
  function DocCommentText(trivia: seq<Trivia>): (text: string)
    ensures (forall k :: 0 <= k < |trivia| ==> trivia[k].OtherTrivia?) ==> text == ""
    ensures forall k :: FirstDocComment(trivia, k) ==> text == trivia[k].text
  {
    if trivia == [] then ""
    else if trivia[0].DocumentationComment? then trivia[0].text
    else DocCommentText(trivia[1..])
  }
}
