/** DocumentationParser: walks the syntax of every source file and builds the
    documentation tree. Only declarations whose cleaned doc comment is not empty
    become items; an undocumented type is skipped together with its members.

    The imperative walk (ParseProject .. ParseFieldDeclaration) is proved against
    the value-level description TypeTree / FileMembers / ProjectSpec. */
module DocumentationParser {
  import opened Text
  import opened DocumentModel
  import opened CSharpSyntax
  import opened CommentCleaning

  // ---------------------------------------------------------------------------
  // Attributes

  /** A Dictionary<string, string> as its insertion-ordered list of entries. */
  type Parameters = seq<(string, string)>

  function Lookup(dict: Parameters, key: string): Option<string> {
    if dict == [] then None
    else if dict[0].0 == key then Some(dict[0].1)
    else Lookup(dict[1..], key)
  }

  predicate DistinctKeys(dict: Parameters) {
    forall i, j :: 0 <= i < j < |dict| ==> dict[i].0 != dict[j].0
  }

  /** `dict[key] = value`: overwrites the entry in place, or appends one. */
  function Put(dict: Parameters, key: string, value: string): (r: Parameters)
    ensures |r| == |dict| || |r| == |dict| + 1
  {
    if dict == [] then [(key, value)]
    else if dict[0].0 == key then [(key, value)] + dict[1..]
    else [dict[0]] + Put(dict[1..], key, value)
  }

  /** The dictionary key of an argument: its `Name =` or "" for a positional one. */
  function ArgumentKey(argument: Argument): string {
    match argument.nameEquals
    case Some(name) => name
    case None => ""
  }

  /** The Parameters dictionary after every argument was stored in turn. */
  function ArgumentParameters(arguments: seq<Argument>): Parameters {
    if arguments == [] then []
    else
      var last := arguments[|arguments| - 1];
      Put(ArgumentParameters(arguments[..|arguments| - 1]), ArgumentKey(last), last.expression)
  }

  /** Reference reading of the dictionary: the expression of the last argument with that key. */
  function LastArgument(arguments: seq<Argument>, key: string): Option<string> {
    if arguments == [] then None
    else if ArgumentKey(arguments[|arguments| - 1]) == key then Some(arguments[|arguments| - 1].expression)
    else LastArgument(arguments[..|arguments| - 1], key)
  }

  function AttributeInfoOf(attribute: AttributeSyntax): AttributeInfo {
    AttributeInfo(attribute.name, ArgumentParameters(attribute.arguments))
  }

  /** The AttributeInfo of each attribute of one list. */
  function ListAttributes(list: seq<AttributeSyntax>): (infos: seq<AttributeInfo>)
    ensures |infos| == |list|
  {
    seq(|list|, k requires 0 <= k < |list| => AttributeInfoOf(list[k]))
  }

  /** What ParseAttributes returns: one AttributeInfo per attribute of every
      list, lists in order and attributes in order within a list. */
  function AttributesOf(lists: seq<seq<AttributeSyntax>>): seq<AttributeInfo> {
    if lists == [] then [] else AttributesOf(lists[..|lists| - 1]) + ListAttributes(lists[|lists| - 1])
  }

  method ParseAttributes(attributeLists: seq<seq<AttributeSyntax>>) returns (attributes: seq<AttributeInfo>)
    ensures attributes == AttributesOf(attributeLists)
  {
    attributes := [];
    for i := 0 to |attributeLists|
      invariant attributes == AttributesOf(attributeLists[..i])
    {
      var attributeList := attributeLists[i];
      ghost var before := attributes;
      for j := 0 to |attributeList|
        invariant attributes == before + ListAttributes(attributeList[..j])
      {
        var attribute := attributeList[j];
        var parameters: Parameters := [];
        for k := 0 to |attribute.arguments|
          invariant parameters == ArgumentParameters(attribute.arguments[..k])
        {
          var argument := attribute.arguments[k];
          parameters := Put(parameters, ArgumentKey(argument), argument.expression);
          assert attribute.arguments[..k + 1][..k] == attribute.arguments[..k];
        }
        assert attribute.arguments[..|attribute.arguments|] == attribute.arguments;
        attributes := attributes + [AttributeInfo(attribute.name, parameters)];
        assert ListAttributes(attributeList[..j + 1]) == ListAttributes(attributeList[..j]) + [AttributeInfoOf(attribute)];
      }
      assert attributeList[..|attributeList|] == attributeList;
      assert attributeLists[..i + 1][..i] == attributeLists[..i];
    }
    assert attributeLists[..|attributeLists|] == attributeLists;
  }

  // Properties of the Parameters dictionary

  lemma {:induction false} PutLookup(dict: Parameters, key: string, value: string, other: string)
    ensures Lookup(Put(dict, key, value), key) == Some(value)
    ensures other != key ==> Lookup(Put(dict, key, value), other) == Lookup(dict, other)
  {
    if dict != [] && dict[0].0 != key {
      PutLookup(dict[1..], key, value, other);
    }
  }

  lemma {:induction false} PutKeys(dict: Parameters, key: string, value: string)
    requires DistinctKeys(dict)
    ensures DistinctKeys(Put(dict, key, value))
    ensures forall k :: 0 <= k < |Put(dict, key, value)| && Put(dict, key, value)[k].0 != key ==> Put(dict, key, value)[k] in dict
  {
    var r := Put(dict, key, value);
    if dict == [] {
    } else if dict[0].0 == key {
      forall k | 0 <= k < |r| && r[k].0 != key ensures r[k] in dict {
        assert r[k] == dict[k];
      }
      forall i, j | 0 <= i < j < |r| ensures r[i].0 != r[j].0 {
        assert r[j] == dict[j];
      }
    } else {
      var t := Put(dict[1..], key, value);
      PutKeys(dict[1..], key, value);
      assert r == [dict[0]] + t;
      forall k | 0 <= k < |r| && r[k].0 != key ensures r[k] in dict {
        if k > 0 {
          assert r[k] == t[k - 1];
          assert t[k - 1] in dict[1..];
        }
      }
      forall i, j | 0 <= i < j < |r| ensures r[i].0 != r[j].0 {
        assert r[j] == t[j - 1];
        if i > 0 {
          assert r[i] == t[i - 1];
        } else if t[j - 1].0 != key {
          assert t[j - 1] in dict[1..];
          var m :| 0 <= m < |dict[1..]| && dict[1..][m] == t[j - 1];
          assert dict[m + 1] == t[j - 1];
        }
      }
    }
  }

  /** Reading the dictionary gives the last value stored under the key: a later
      argument with the same name overwrites an earlier one. */
  lemma {:induction false} ParametersLookup(arguments: seq<Argument>, key: string)
    ensures Lookup(ArgumentParameters(arguments), key) == LastArgument(arguments, key)
  {
    if arguments != [] {
      var last := arguments[|arguments| - 1];
      ParametersLookup(arguments[..|arguments| - 1], key);
      PutLookup(ArgumentParameters(arguments[..|arguments| - 1]), ArgumentKey(last), last.expression, key);
    }
  }

  /** The dictionary never holds a key twice. */
  lemma {:induction false} ParametersDistinct(arguments: seq<Argument>)
    ensures DistinctKeys(ArgumentParameters(arguments))
  {
    if arguments != [] {
      var last := arguments[|arguments| - 1];
      ParametersDistinct(arguments[..|arguments| - 1]);
      PutKeys(ArgumentParameters(arguments[..|arguments| - 1]), ArgumentKey(last), last.expression);
    }
  }

  /** The attributes of one list follow those of the lists before it. */
  lemma AttributesOfAppend(lists: seq<seq<AttributeSyntax>>, list: seq<AttributeSyntax>)
    ensures |AttributesOf(lists + [list])| == |AttributesOf(lists)| + |list|
    ensures forall k :: 0 <= k < |list| ==> AttributesOf(lists + [list])[|AttributesOf(lists)| + k] == AttributeInfoOf(list[k])
  {
    assert (lists + [list])[..|lists|] == lists;
  }

  // ---------------------------------------------------------------------------
  // The parse as a value

  function KindOf(keyword: TypeKeyword): string {
    match keyword
    case ClassKeyword => "class"
    case InterfaceKeyword => "interface"
    case StructKeyword => "struct"
  }

  /** The cleaned doc comment of a declaration. */
  function CommentOf(trivia: seq<Trivia>): string {
    CleanedComment(DocCommentText(trivia))
  }

  /** A method or property as a member tree, when it is documented. */
  function DocumentedLeaf(name: string, kind: string, trivia: seq<Trivia>, attributeLists: seq<seq<AttributeSyntax>>): seq<Tree> {
    if CommentOf(trivia) == "" then []
    else [Tree(name, kind, CommentOf(trivia), AttributesOf(attributeLists), [], [])]
  }

  /** One field item per declared variable, all sharing the declaration's comment. */
  function FieldLeaves(variables: seq<string>, comment: string, attributes: seq<AttributeInfo>): seq<Tree> {
    seq(|variables|, k requires 0 <= k < |variables| => Tree(variables[k], "field", comment, attributes, [], []))
  }

  function FieldTrees(variables: seq<string>, trivia: seq<Trivia>, attributeLists: seq<seq<AttributeSyntax>>): seq<Tree> {
    if CommentOf(trivia) == "" then [] else FieldLeaves(variables, CommentOf(trivia), AttributesOf(attributeLists))
  }

  /** The item a type declaration becomes, if it is documented. */
  function TypeTree(d: MemberSyntax): Option<Tree>
    requires d.TypeDeclaration?
    decreases d, 1
  {
    var comment := CommentOf(d.leadingTrivia);
    if comment == "" then None
    else Some(Tree(d.identifier, KindOf(d.keyword), comment, AttributesOf(d.attributeLists), d.baseList,
      MemberTrees(d.keyword, d.members)))
  }

  /** The member items that the members of a class, interface or struct give. */
  function MemberTrees(keyword: TypeKeyword, members: seq<MemberSyntax>): seq<Tree>
    decreases members, 0
  {
    if members == [] then []
    else MemberTrees(keyword, members[..|members| - 1]) + MemberContribution(keyword, members[|members| - 1])
  }

  /** What one member contributes: classes collect methods, properties, fields
      and nested types; structs methods, properties and fields; interfaces
      methods and properties. */
  function MemberContribution(keyword: TypeKeyword, m: MemberSyntax): seq<Tree>
    decreases m, 2
  {
    match m
    case MethodDeclaration(name, trivia, lists) => DocumentedLeaf(name, "method", trivia, lists)
    case PropertyDeclaration(name, trivia, lists) => DocumentedLeaf(name, "property", trivia, lists)
    case FieldDeclaration(variables, trivia, lists) =>
      if keyword == InterfaceKeyword then [] else FieldTrees(variables, trivia, lists)
    case TypeDeclaration(_, _, _, _, _, _) =>
      if keyword != ClassKeyword then []
      else (match TypeTree(m) case None => [] case Some(t) => [t])
    case NamespaceDeclaration(_, _) => []
    case OtherMember => []
  }

  function NamespaceNames(namespaces: seq<NamespaceInfo>): (names: seq<string>)
    ensures |names| == |namespaces| && forall k :: 0 <= k < |namespaces| ==> names[k] == namespaces[k].name
  {
    seq(|namespaces|, k requires 0 <= k < |namespaces| => namespaces[k].name)
  }

  function TreeNamespaceNames(namespaces: seq<NamespaceTrees>): (names: seq<string>)
    ensures |names| == |namespaces| && forall k :: 0 <= k < |namespaces| ==> names[k] == namespaces[k].name
  {
    seq(|namespaces|, k requires 0 <= k < |namespaces| => namespaces[k].name)
  }

  /** AddToProject on references: append the item to the first namespace of that
      name, or to a new namespace appended at the end. */
  function AddItem(namespaces: seq<NamespaceInfo>, name: string, r: ItemRef): seq<NamespaceInfo> {
    var i := IndexOf(NamespaceNames(namespaces), name);
    if i < 0 then namespaces + [NamespaceInfo("", name, "", [r])]
    else namespaces[i := namespaces[i].(items := namespaces[i].items + [r])]
  }

  /** AddToProject on values. */
  function AddToNamespaces(namespaces: seq<NamespaceTrees>, name: string, t: Tree): seq<NamespaceTrees> {
    var i := IndexOf(TreeNamespaceNames(namespaces), name);
    if i < 0 then namespaces + [NamespaceTrees("", name, "", [t])]
    else namespaces[i := namespaces[i].(items := namespaces[i].items + [t])]
  }

  function AddType(namespaces: seq<NamespaceTrees>, name: string, d: MemberSyntax): seq<NamespaceTrees>
    requires d.TypeDeclaration?
  {
    match TypeTree(d)
    case None => namespaces
    case Some(t) => AddToNamespaces(namespaces, name, t)
  }

  /** The namespaces after the members of `namespace name { ... }` are parsed. */
  function NamespaceMembers(namespaces: seq<NamespaceTrees>, name: string, members: seq<MemberSyntax>): seq<NamespaceTrees>
    decreases |members|
  {
    if members == [] then namespaces
    else
      var next := if members[0].TypeDeclaration? then AddType(namespaces, name, members[0]) else namespaces;
      NamespaceMembers(next, name, members[1..])
  }

  /** The namespaces after the top-level members of a file are parsed, `current`
      being the last namespace declared so far in the file. */
  function FileMembers(namespaces: seq<NamespaceTrees>, current: string, members: seq<MemberSyntax>): seq<NamespaceTrees>
    decreases |members|
  {
    if members == [] then namespaces
    else match members[0]
      case NamespaceDeclaration(name, body) => FileMembers(NamespaceMembers(namespaces, name, body), name, members[1..])
      case TypeDeclaration(_, _, _, _, _, _) => FileMembers(AddType(namespaces, current, members[0]), current, members[1..])
      case _ => FileMembers(namespaces, current, members[1..])
  }

  function FilesMembers(namespaces: seq<NamespaceTrees>, files: seq<CompilationUnit>): seq<NamespaceTrees>
    decreases |files|
  {
    if files == [] then namespaces else FilesMembers(FileMembers(namespaces, "", files[0]), files[1..])
  }

  function WithPackage(namespaces: seq<NamespaceTrees>, packageName: string): seq<NamespaceTrees> {
    seq(|namespaces|, k requires 0 <= k < |namespaces| => namespaces[k].(packageName := packageName))
  }

  /** The project ParseProject builds from the files of a package. */
  function ProjectSpec(files: seq<CompilationUnit>, packageName: string): seq<NamespaceTrees> {
    WithPackage(FilesMembers([], files), packageName)
  }

  // ---------------------------------------------------------------------------
  // The parser

  /** The Stack<DocumentationItem> of enclosing type items. */
  class ClassStack {
    var elems: seq<ItemRef>

    constructor()
      ensures elems == []
    {
      elems := [];
    }

    function Count(): nat
      reads this
    {
      |elems|
    }

    function Peek(): ItemRef
      reads this
      requires elems != []
    {
      elems[|elems| - 1]
    }

    method Push(r: ItemRef)
      modifies this
      ensures elems == old(elems) + [r]
    {
      elems := elems + [r];
    }

    method Pop() returns (r: ItemRef)
      requires elems != []
      modifies this
      ensures r == old(elems)[|old(elems)| - 1] && elems == old(elems)[..|old(elems)| - 1]
    {
      r := elems[|elems| - 1];
      elems := elems[..|elems| - 1];
    }
  }

  ghost predicate StackAllocated(items: seq<DocumentationItem>, stack: seq<ItemRef>) {
    forall k :: 0 <= k < |stack| ==> stack[k] < |items|
  }

  /** ParseProject: parses every file, then stamps the package name on every namespace. */
  method ParseProject(heap: Heap, files: seq<CompilationUnit>, packageName: string) returns (project: DocumentationProject)
    requires Forest(heap.items)
    modifies heap
    ensures fresh(project)
    ensures Forest(heap.items) && ProjectRoots(heap.items, project.namespaces)
    ensures |heap.items| >= old(|heap.items|) && forall j :: 0 <= j < old(|heap.items|) ==> heap.items[j] == old(heap.items[j])
    ensures ProjectTrees(heap.items, project.namespaces) == ProjectSpec(files, packageName)
    ensures RootsFrom(project.namespaces, old(|heap.items|))
  {
    project := new DocumentationProject();
    for i := 0 to |files|
      invariant Forest(heap.items) && ProjectRoots(heap.items, project.namespaces)
      invariant RootsFrom(project.namespaces, old(|heap.items|))
      invariant |heap.items| >= old(|heap.items|) && forall j :: 0 <= j < old(|heap.items|) ==> heap.items[j] == old(heap.items[j])
      invariant FilesMembers(ProjectTrees(heap.items, project.namespaces), files[i..]) == FilesMembers([], files)
    {
      ParseFile(files[i], project, heap);
      assert files[i..][1..] == files[i + 1..];
    }
    ghost var parsed := project.namespaces;
    for k := 0 to |project.namespaces|
      modifies project
      invariant |project.namespaces| == |parsed|
      invariant forall j :: 0 <= j < |parsed| ==>
        project.namespaces[j] == if j < k then parsed[j].(packageName := packageName) else parsed[j]
    {
      project.namespaces := project.namespaces[k := project.namespaces[k].(packageName := packageName)];
    }
    assert ProjectRoots(heap.items, project.namespaces) && RootsFrom(project.namespaces, old(|heap.items|)) by {
      assert forall j :: 0 <= j < |parsed| ==> project.namespaces[j].items == parsed[j].items;
    }
    assert ProjectTrees(heap.items, project.namespaces) == WithPackage(ProjectTrees(heap.items, parsed), packageName);
  }

  /** ParseFile: walks the top-level members; a namespace declaration also sets
      the namespace used for later top-level types of the same file. */
  method ParseFile(file: CompilationUnit, project: DocumentationProject, heap: Heap)
    requires Forest(heap.items) && ProjectRoots(heap.items, project.namespaces)
    modifies heap, project
    ensures Forest(heap.items) && ProjectRoots(heap.items, project.namespaces)
    ensures |heap.items| >= old(|heap.items|) && forall j :: 0 <= j < old(|heap.items|) ==> heap.items[j] == old(heap.items[j])
    ensures ProjectTrees(heap.items, project.namespaces) == FileMembers(old(ProjectTrees(heap.items, project.namespaces)), "", file)
    ensures KeepsRootsFrom(old(project.namespaces), project.namespaces, old(|heap.items|))
  {
    var currentNamespace := "";
    var classStack := new ClassStack();
    for i := 0 to |file|
      invariant classStack.elems == []
      invariant KeepsRootsFrom(old(project.namespaces), project.namespaces, old(|heap.items|))
      invariant Forest(heap.items) && ProjectRoots(heap.items, project.namespaces)
      invariant |heap.items| >= old(|heap.items|) && forall j :: 0 <= j < old(|heap.items|) ==> heap.items[j] == old(heap.items[j])
      invariant FileMembers(ProjectTrees(heap.items, project.namespaces), currentNamespace, file[i..]) ==
        FileMembers(old(ProjectTrees(heap.items, project.namespaces)), "", file)
    {
      assert file[i..][1..] == file[i + 1..];
      var member := file[i];
      match member
      case NamespaceDeclaration(name, members) =>
        currentNamespace := name;
        ParseNamespaceMembers(members, project, currentNamespace, classStack, heap);
      case TypeDeclaration(_, _, _, _, _, _) =>
        ParseTypeDeclaration(member, project, currentNamespace, classStack, heap);
      case _ =>
    }
  }

  method ParseNamespaceMembers(members: seq<MemberSyntax>, project: DocumentationProject, currentNamespace: string, classStack: ClassStack, heap: Heap)
    requires classStack.elems == []
    requires Forest(heap.items) && ProjectRoots(heap.items, project.namespaces)
    modifies heap, project, classStack
    ensures classStack.elems == []
    ensures Forest(heap.items) && ProjectRoots(heap.items, project.namespaces)
    ensures |heap.items| >= old(|heap.items|) && forall j :: 0 <= j < old(|heap.items|) ==> heap.items[j] == old(heap.items[j])
    ensures ProjectTrees(heap.items, project.namespaces) ==
      NamespaceMembers(old(ProjectTrees(heap.items, project.namespaces)), currentNamespace, members)
    ensures KeepsRootsFrom(old(project.namespaces), project.namespaces, old(|heap.items|))
  {
    for i := 0 to |members|
      invariant classStack.elems == []
      invariant KeepsRootsFrom(old(project.namespaces), project.namespaces, old(|heap.items|))
      invariant Forest(heap.items) && ProjectRoots(heap.items, project.namespaces)
      invariant |heap.items| >= old(|heap.items|) && forall j :: 0 <= j < old(|heap.items|) ==> heap.items[j] == old(heap.items[j])
      invariant NamespaceMembers(ProjectTrees(heap.items, project.namespaces), currentNamespace, members[i..]) ==
        NamespaceMembers(old(ProjectTrees(heap.items, project.namespaces)), currentNamespace, members)
    {
      assert members[i..][1..] == members[i + 1..];
      if members[i].TypeDeclaration? {
        ParseTypeDeclaration(members[i], project, currentNamespace, classStack, heap);
      }
    }
  }

  /** ParseClassDeclaration, ParseInterfaceDeclaration and ParseStructDeclaration:
      a documented type becomes an item, attached to the enclosing type on the
      stack or else added to the project under the current namespace; its
      members are parsed with the item on top of the stack. */
  method ParseTypeDeclaration(d: MemberSyntax, project: DocumentationProject, currentNamespace: string, classStack: ClassStack, heap: Heap)
    requires d.TypeDeclaration?
    requires Forest(heap.items) && ProjectRoots(heap.items, project.namespaces)
    requires StackAllocated(heap.items, classStack.elems)
    modifies heap, project, classStack
    ensures classStack.elems == old(classStack.elems)
    ensures Forest(heap.items) && ProjectRoots(heap.items, project.namespaces)
    ensures |heap.items| >= old(|heap.items|)
    ensures old(classStack.elems) != [] ==>
      project.namespaces == old(project.namespaces) &&
      Grown(old(heap.items), heap.items, old(classStack.elems)[|old(classStack.elems)| - 1],
        MemberContribution(ClassKeyword, d))
    ensures old(classStack.elems) == [] ==>
      (forall j :: 0 <= j < old(|heap.items|) ==> heap.items[j] == old(heap.items[j])) &&
      ProjectTrees(heap.items, project.namespaces) ==
        AddType(old(ProjectTrees(heap.items, project.namespaces)), currentNamespace, d)
    ensures KeepsRootsFrom(old(project.namespaces), project.namespaces, old(|heap.items|))
    decreases d, 1
  {
    var xmlComment := CleanXmlComment(DocCommentText(d.leadingTrivia));
    if xmlComment == "" {
      if classStack.elems != [] {
        GrownRefl(heap.items, classStack.Peek());
      }
      return;
    }
    ParseDocumentedType(d, xmlComment, project, currentNamespace, classStack, heap);
  }

  /** The documented case of ParseTypeDeclaration: the type's item is created
      and placed, then its members are parsed into it. */
  method ParseDocumentedType(d: MemberSyntax, xmlComment: string, project: DocumentationProject, currentNamespace: string,
                             classStack: ClassStack, heap: Heap)
    requires d.TypeDeclaration? && xmlComment == CommentOf(d.leadingTrivia) && xmlComment != ""
    requires Forest(heap.items) && ProjectRoots(heap.items, project.namespaces)
    requires StackAllocated(heap.items, classStack.elems)
    modifies heap, project, classStack
    ensures classStack.elems == old(classStack.elems)
    ensures Forest(heap.items) && ProjectRoots(heap.items, project.namespaces)
    ensures |heap.items| >= old(|heap.items|)
    ensures old(classStack.elems) != [] ==>
      project.namespaces == old(project.namespaces) &&
      Grown(old(heap.items), heap.items, old(classStack.elems)[|old(classStack.elems)| - 1], [TypeTree(d).value])
    ensures old(classStack.elems) == [] ==>
      (forall j :: 0 <= j < old(|heap.items|) ==> heap.items[j] == old(heap.items[j])) &&
      ProjectTrees(heap.items, project.namespaces) ==
        AddToNamespaces(old(ProjectTrees(heap.items, project.namespaces)), currentNamespace, TypeTree(d).value)
    ensures KeepsRootsFrom(old(project.namespaces), project.namespaces, old(|heap.items|))
    decreases d, 0
  {
    var name := d.identifier;
    var attributes := ParseAttributes(d.attributeLists);
    ghost var a := heap.items;
    ghost var stack := classStack.elems;
    ghost var namespaces0 := project.namespaces;
    ghost var rec := DocumentationItem(name, KindOf(d.keyword), xmlComment, attributes, [], None, d.baseList);
    var item := CreateTypeItem(d, xmlComment, attributes, project, currentNamespace, classStack, heap);
    ghost var created := heap.items;
    classStack.Push(item);
    ParseTypeMembers(d.keyword, d.members, item, project, currentNamespace, classStack, heap);
    var _ := classStack.Pop();
    assert classStack.elems == stack;
    assert Grown(created, heap.items, item, MemberTrees(d.keyword, d.members));
    if stack != [] {
      AttachThenGrow(a, stack[|stack| - 1], rec, heap.items, MemberTrees(d.keyword, d.members));
    } else {
      AppendThenGrow(a, rec, heap.items, MemberTrees(d.keyword, d.members));
      AddItemTrees(a, heap.items, namespaces0, currentNamespace, item);
      AddItemFrom(namespaces0, currentNamespace, item);
    }
  }

  /** The first half of a type's parse: the item is created with its base types,
      then attached to the enclosing type on the stack or added to the project. */
  method CreateTypeItem(d: MemberSyntax, xmlComment: string, attributes: seq<AttributeInfo>, project: DocumentationProject,
                        currentNamespace: string, classStack: ClassStack, heap: Heap) returns (item: ItemRef)
    requires d.TypeDeclaration?
    requires Forest(heap.items) && ProjectRoots(heap.items, project.namespaces)
    requires StackAllocated(heap.items, classStack.elems)
    modifies heap, project
    ensures item == old(|heap.items|)
    ensures var rec := DocumentationItem(d.identifier, KindOf(d.keyword), xmlComment, attributes, [], None, d.baseList);
      if classStack.elems != [] then
        heap.items == Attached(old(heap.items), classStack.Peek(), rec) && project.namespaces == old(project.namespaces)
      else
        heap.items == old(heap.items) + [rec] && project.namespaces == AddItem(old(project.namespaces), currentNamespace, item)
    ensures Forest(heap.items) && ProjectRoots(heap.items, project.namespaces)
    ensures StackAllocated(heap.items, classStack.elems)
  {
    ghost var a := heap.items;
    ghost var namespaces0 := project.namespaces;
    item := CreateItem(heap, xmlComment, d.identifier, KindOf(d.keyword), attributes);
    for i := 0 to |d.baseList|
      modifies heap
      invariant heap.items == a + [DocumentationItem(d.identifier, KindOf(d.keyword), xmlComment, attributes, [], None, d.baseList[..i])]
    {
      heap.AddBaseType(item, d.baseList[i]);
      assert d.baseList[..i + 1] == d.baseList[..i] + [d.baseList[i]];
    }
    assert d.baseList[..|d.baseList|] == d.baseList;
    ghost var rec := heap.items[item];
    if classStack.Count() > 0 {
      var top := classStack.Peek();
      heap.AddMember(top, item);
      heap.SetParent(item, top);
      assert heap.items == Attached(a, top, rec);
      ForestAttach(a, top, rec);
    } else {
      ForestAppend(a, rec);
      AddToProject(project, currentNamespace, item);
      AddItemRoots(a, heap.items, namespaces0, currentNamespace, item);
    }
  }

  /** The second half of a type's parse: its members, parsed in order with the
      type's item on top of the stack. */
  method ParseTypeMembers(keyword: TypeKeyword, members: seq<MemberSyntax>, item: ItemRef, project: DocumentationProject,
                          currentNamespace: string, classStack: ClassStack, heap: Heap)
    requires Forest(heap.items) && item < |heap.items| && ProjectRoots(heap.items, project.namespaces)
    requires classStack.elems != [] && classStack.Peek() == item
    requires StackAllocated(heap.items, classStack.elems)
    modifies heap, project, classStack
    ensures classStack.elems == old(classStack.elems)
    ensures project.namespaces == old(project.namespaces)
    ensures Grown(old(heap.items), heap.items, item, MemberTrees(keyword, members))
    ensures ProjectRoots(heap.items, project.namespaces)
    ensures StackAllocated(heap.items, classStack.elems)
    decreases members, 0
  {
    ghost var b := heap.items;
    GrownRefl(b, item);
    for i := 0 to |members|
      invariant classStack.elems == old(classStack.elems)
      invariant project.namespaces == old(project.namespaces)
      invariant Grown(b, heap.items, item, MemberTrees(keyword, members[..i]))
      invariant ProjectRoots(heap.items, project.namespaces)
      invariant StackAllocated(heap.items, classStack.elems)
    {
      ghost var mid := heap.items;
      ParseMember(members[i], keyword, item, project, currentNamespace, classStack, heap);
      GrownTrans(b, mid, heap.items, item, MemberTrees(keyword, members[..i]), MemberContribution(keyword, members[i]));
      assert members[..i + 1][..i] == members[..i];
    }
    assert members[..|members|] == members;
  }

  /** One member of a type declaration, dispatched on its syntax kind as the
      enclosing type's parse method does. */
  method ParseMember(m: MemberSyntax, keyword: TypeKeyword, container: ItemRef, project: DocumentationProject,
                     currentNamespace: string, classStack: ClassStack, heap: Heap)
    requires Forest(heap.items) && container < |heap.items| && ProjectRoots(heap.items, project.namespaces)
    requires classStack.elems != [] && classStack.Peek() == container
    requires StackAllocated(heap.items, classStack.elems)
    modifies heap, project, classStack
    ensures classStack.elems == old(classStack.elems)
    ensures project.namespaces == old(project.namespaces)
    ensures Grown(old(heap.items), heap.items, container, MemberContribution(keyword, m))
    ensures ProjectRoots(heap.items, project.namespaces)
    ensures StackAllocated(heap.items, classStack.elems)
    decreases m, 2
  {
    match m
    case MethodDeclaration(_, _, _) =>
      ParseMethodDeclaration(m, container, heap);
    case PropertyDeclaration(_, _, _) =>
      ParsePropertyDeclaration(m, container, heap);
    case FieldDeclaration(_, _, _) =>
      if keyword != InterfaceKeyword {
        ParseFieldDeclaration(m, container, heap);
      } else {
        GrownRefl(heap.items, container);
      }
    case TypeDeclaration(_, _, _, _, _, _) =>
      if keyword == ClassKeyword {
        ParseTypeDeclaration(m, project, currentNamespace, classStack, heap);
      } else {
        GrownRefl(heap.items, container);
      }
    case NamespaceDeclaration(_, _) =>
      GrownRefl(heap.items, container);
    case OtherMember =>
      GrownRefl(heap.items, container);
    if m.TypeDeclaration? && keyword == ClassKeyword {
    } else {
      GrownRoots(old(heap.items), heap.items, container, MemberContribution(keyword, m), project.namespaces);
    }
  }

  /** ParseMethodDeclaration: a documented method becomes a member item. */
  method ParseMethodDeclaration(m: MemberSyntax, parentItem: ItemRef, heap: Heap)
    requires m.MethodDeclaration?
    requires Forest(heap.items) && parentItem < |heap.items|
    modifies heap
    ensures Grown(old(heap.items), heap.items, parentItem, DocumentedLeaf(m.identifier, "method", m.leadingTrivia, m.attributeLists))
  {
    var methodName := m.identifier;
    var xmlComment := CleanXmlComment(DocCommentText(m.leadingTrivia));
    if xmlComment == "" {
      GrownRefl(heap.items, parentItem);
      return;
    }
    var attributes := ParseAttributes(m.attributeLists);
    var methodItem := AttachMember(heap, parentItem, xmlComment, methodName, "method", attributes);
  }

  /** ParsePropertyDeclaration: a documented property becomes a member item. */
  method ParsePropertyDeclaration(m: MemberSyntax, parentItem: ItemRef, heap: Heap)
    requires m.PropertyDeclaration?
    requires Forest(heap.items) && parentItem < |heap.items|
    modifies heap
    ensures Grown(old(heap.items), heap.items, parentItem, DocumentedLeaf(m.identifier, "property", m.leadingTrivia, m.attributeLists))
  {
    var propertyName := m.identifier;
    var xmlComment := CleanXmlComment(DocCommentText(m.leadingTrivia));
    if xmlComment == "" {
      GrownRefl(heap.items, parentItem);
      return;
    }
    var attributes := ParseAttributes(m.attributeLists);
    var propertyItem := AttachMember(heap, parentItem, xmlComment, propertyName, "property", attributes);
  }

  /** ParseFieldDeclaration: one member item per variable of a documented field
      declaration; the loop stops at once when the comment is empty. */
  method ParseFieldDeclaration(m: MemberSyntax, parentItem: ItemRef, heap: Heap)
    requires m.FieldDeclaration?
    requires Forest(heap.items) && parentItem < |heap.items|
    modifies heap
    ensures Grown(old(heap.items), heap.items, parentItem, FieldTrees(m.variables, m.leadingTrivia, m.attributeLists))
  {
    ghost var a := heap.items;
    ghost var comment := CommentOf(m.leadingTrivia);
    ghost var attributesOf := AttributesOf(m.attributeLists);
    GrownRefl(a, parentItem);
    for i := 0 to |m.variables|
      invariant Grown(a, heap.items, parentItem, if comment == "" then [] else FieldLeaves(m.variables[..i], comment, attributesOf))
    {
      var fieldName := m.variables[i];
      var xmlComment := CleanXmlComment(DocCommentText(m.leadingTrivia));
      if xmlComment == "" {
        return;
      }
      var attributes := ParseAttributes(m.attributeLists);
      ghost var mid := heap.items;
      var fieldItem := AttachMember(heap, parentItem, xmlComment, fieldName, "field", attributes);
      GrownTrans(a, mid, heap.items, parentItem, FieldLeaves(m.variables[..i], comment, attributesOf),
        [Tree(fieldName, "field", comment, attributesOf, [], [])]);
      assert FieldLeaves(m.variables[..i + 1], comment, attributesOf) ==
        FieldLeaves(m.variables[..i], comment, attributesOf) + [Tree(fieldName, "field", comment, attributesOf, [], [])];
    }
    assert m.variables[..|m.variables|] == m.variables;
  }

  /** A fresh documented item made the last member of parentItem. */
  method AttachMember(heap: Heap, parentItem: ItemRef, xmlComment: string, name: string, kind: string, attributes: seq<AttributeInfo>)
    returns (item: ItemRef)
    requires Forest(heap.items) && parentItem < |heap.items|
    modifies heap
    ensures item == old(|heap.items|)
    ensures Grown(old(heap.items), heap.items, parentItem, [Tree(name, kind, xmlComment, attributes, [], [])])
  {
    ghost var a := heap.items;
    item := CreateItem(heap, xmlComment, name, kind, attributes);
    ghost var rec := heap.items[item];
    heap.SetParent(item, parentItem);
    heap.AddMember(parentItem, item);
    AttachLeaf(a, parentItem, rec, heap.items);
  }

  /** CreateItem: a fresh item with its attributes. */
  method CreateItem(heap: Heap, xmlComment: string, name: string, kind: string, attributes: seq<AttributeInfo>) returns (item: ItemRef)
    modifies heap
    ensures item == old(|heap.items|)
    ensures heap.items == old(heap.items) + [DocumentationItem(name, kind, xmlComment, attributes, [], None, [])]
  {
    item := heap.NewItem(name, kind, xmlComment);
    heap.AddAttributes(item, attributes);
    assert [] + attributes == attributes;
  }

  /** AddToProject: the first namespace with that name receives the item; a new
      namespace is appended when there is none. */
  method AddToProject(project: DocumentationProject, namespaceName: string, item: ItemRef)
    modifies project
    ensures project.namespaces == AddItem(old(project.namespaces), namespaceName, item)
  {
    var i := 0;
    while i < |project.namespaces| && project.namespaces[i].name != namespaceName
      invariant 0 <= i <= |project.namespaces|
      invariant namespaceName !in NamespaceNames(project.namespaces)[..i]
    {
      assert NamespaceNames(project.namespaces)[..i + 1] == NamespaceNames(project.namespaces)[..i] + [project.namespaces[i].name];
      i := i + 1;
    }
    if i == |project.namespaces| {
      assert NamespaceNames(project.namespaces)[..i] == NamespaceNames(project.namespaces);
      project.namespaces := project.namespaces + [NamespaceInfo("", namespaceName, "", [item])];
    } else {
      project.namespaces := project.namespaces[i := project.namespaces[i].(items := project.namespaces[i].items + [item])];
    }
  }

  // ---------------------------------------------------------------------------
  // Lemmas connecting the walk to its value-level description

  /** A documented leaf attached under c grows c by that leaf. */
  lemma AttachLeaf(a: seq<DocumentationItem>, c: ItemRef, rec: DocumentationItem, b: seq<DocumentationItem>)
    requires Forest(a) && c < |a| && rec.members == [] && rec.parent.None? && rec.baseTypes == []
    requires b == Attached(a, c, rec)
    ensures Grown(a, b, c, [Tree(rec.name, rec.kind, rec.xmlComment, rec.attributes, [], [])])
  {
    ForestAttach(a, c, rec);
    GrownRefl(b, |a|);
    AttachThenGrow(a, c, rec, b, []);
  }

  /** AddItem adds the one item n to the top-level items. */
  lemma AddItemFrom(namespaces: seq<NamespaceInfo>, name: string, n: ItemRef)
    ensures KeepsRootsFrom(namespaces, AddItem(namespaces, name, n), n)
  {
    var r := AddItem(namespaces, name, n);
    var i := IndexOf(NamespaceNames(namespaces), name);
    forall base | base <= n && RootsFrom(namespaces, base) ensures RootsFrom(r, base) {
      forall k, j | 0 <= k < |r| && 0 <= j < |r[k].items| ensures base <= r[k].items[j] {
        if i < 0 {
          if k < |namespaces| {
            assert r[k] == namespaces[k];
          }
        } else if k == i {
          if j < |namespaces[k].items| {
            assert r[k].items[j] == namespaces[k].items[j];
          }
        } else {
          assert r[k] == namespaces[k];
        }
      }
    }
  }

  /** AddItem keeps every top-level item parentless and listed once. */
  lemma AddItemRoots(a: seq<DocumentationItem>, b: seq<DocumentationItem>, namespaces: seq<NamespaceInfo>, name: string, n: ItemRef)
    requires ProjectRoots(a, namespaces) && n == |a| < |b| && b[n].parent.None?
    requires forall j :: 0 <= j < |a| ==> b[j] == a[j]
    ensures ProjectRoots(b, AddItem(namespaces, name, n))
  {
    var i := IndexOf(NamespaceNames(namespaces), name);
    var r := AddItem(namespaces, name, n);
    if i < 0 {
      forall k, j | 0 <= k < |r| && 0 <= j < |r[k].items|
        ensures OldOrNew(r, namespaces, n, |namespaces|, 0, k, j)
      {
        if k < |namespaces| {
          assert r[k] == namespaces[k];
        }
      }
      RootsAfterAdd(a, b, namespaces, r, n, |namespaces|, 0);
    } else {
      forall k, j | 0 <= k < |r| && 0 <= j < |r[k].items|
        ensures OldOrNew(r, namespaces, n, i, |namespaces[i].items|, k, j)
      {
        if k != i {
          assert r[k] == namespaces[k];
        }
      }
      RootsAfterAdd(a, b, namespaces, r, n, i, |namespaces[i].items|);
    }
  }

  /** Position (k, j) of r holds the new item n exactly when it is (k0, j0);
      every other position holds what namespaces holds there. */
  ghost predicate OldOrNew(r: seq<NamespaceInfo>, namespaces: seq<NamespaceInfo>, n: ItemRef, k0: nat, j0: nat, k: nat, j: nat)
    requires k < |r| && j < |r[k].items|
  {
    if k == k0 && j == j0 then r[k].items[j] == n
    else k < |namespaces| && j < |namespaces[k].items| && r[k].items[j] == namespaces[k].items[j]
  }

  lemma RootsAfterAdd(a: seq<DocumentationItem>, b: seq<DocumentationItem>, namespaces: seq<NamespaceInfo>,
                      r: seq<NamespaceInfo>, n: ItemRef, k0: nat, j0: nat)
    requires ProjectRoots(a, namespaces) && n == |a| < |b| && b[n].parent.None?
    requires forall j :: 0 <= j < |a| ==> b[j] == a[j]
    requires forall k, j :: 0 <= k < |r| && 0 <= j < |r[k].items| ==> OldOrNew(r, namespaces, n, k0, j0, k, j)
    ensures ProjectRoots(b, r)
  {
    forall k, j | 0 <= k < |r| && 0 <= j < |r[k].items|
      ensures r[k].items[j] < |b| && b[r[k].items[j]].parent.None?
    {
      assert OldOrNew(r, namespaces, n, k0, j0, k, j);
    }
    forall k, j, k', j' | 0 <= k < |r| && 0 <= j < |r[k].items| && 0 <= k' < |r| && 0 <= j' < |r[k'].items| && (k, j) != (k', j')
      ensures r[k].items[j] != r[k'].items[j']
    {
      assert OldOrNew(r, namespaces, n, k0, j0, k, j);
      assert OldOrNew(r, namespaces, n, k0, j0, k', j');
    }
  }

  /** AddToProject on references matches AddToProject on values. */
  lemma AddItemTrees(a: seq<DocumentationItem>, b: seq<DocumentationItem>, namespaces: seq<NamespaceInfo>, name: string, n: ItemRef)
    requires Closed(a) && Closed(b) && NamespacesAllocated(a, namespaces) && n == |a| < |b|
    requires forall j :: 0 <= j < |a| ==> b[j] == a[j]
    ensures NamespacesAllocated(b, AddItem(namespaces, name, n))
    ensures ProjectTrees(b, AddItem(namespaces, name, n)) == AddToNamespaces(ProjectTrees(a, namespaces), name, TreeOf(b, n))
  {
    var before := ProjectTrees(a, namespaces);
    assert TreeNamespaceNames(before) == NamespaceNames(namespaces);
    var r := AddItem(namespaces, name, n);
    assert NamespacesAllocated(b, r) by {
      assert forall k, j :: 0 <= k < |r| && 0 <= j < |r[k].items| ==>
        r[k].items[j] == n || (k < |namespaces| && j < |namespaces[k].items| && r[k].items[j] == namespaces[k].items[j]);
    }
    var after := ProjectTrees(b, r);
    var expected := AddToNamespaces(before, name, TreeOf(b, n));
    assert |after| == |expected|;
    forall k | 0 <= k < |namespaces| ensures TreesOf(b, namespaces[k].items, -1) == before[k].items {
      TreesFrame(a, b, namespaces[k].items, -1);
    }
    forall k | 0 <= k < |after| ensures after[k] == expected[k] {
      if k < |namespaces| && r[k].items == namespaces[k].items + [n] {
        TreesOfSnoc(b, namespaces[k].items, n, -1);
      }
    }
  }
}
