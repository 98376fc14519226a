/** What the value-level description of the parse promises: namespace names
    are unique within a project, a namespace's items keep discovery order, every
    item is documented, and every container holds only the kinds of member its
    declaration kind collects. */
module ParseProperties {
  import opened Text
  import opened DocumentModel
  import opened CSharpSyntax
  import opened CommentCleaning
  import opened DocumentationParser

  // ---------------------------------------------------------------------------
  // Namespaces

  predicate DistinctNames(namespaces: seq<NamespaceTrees>) {
    forall k, l :: 0 <= k < l < |namespaces| ==> namespaces[k].name != namespaces[l].name
  }

  /** The items filed under a namespace name, across all namespaces of that
      name, in namespace order. */
  function Named(namespaces: seq<NamespaceTrees>, name: string): seq<Tree> {
    if namespaces == [] then []
    else (if namespaces[0].name == name then namespaces[0].items else []) + Named(namespaces[1..], name)
  }

  /** The documented types among a list of declarations, in order. */
  function DocumentedTypes(members: seq<MemberSyntax>): seq<Tree> {
    if members == [] then []
    else
      (if members[0].TypeDeclaration? && TypeTree(members[0]).Some? then [TypeTree(members[0]).value] else []) +
      DocumentedTypes(members[1..])
  }

  lemma {:induction false} NamedAppend(namespaces: seq<NamespaceTrees>, extra: NamespaceTrees, name: string)
    ensures Named(namespaces + [extra], name) == Named(namespaces, name) + (if extra.name == name then extra.items else [])
  {
    if namespaces == [] {
      assert ([] + [extra])[1..] == [];
    } else {
      assert (namespaces + [extra])[1..] == namespaces[1..] + [extra];
      NamedAppend(namespaces[1..], extra, name);
    }
  }

  lemma {:induction false} NamedAbsent(namespaces: seq<NamespaceTrees>, name: string)
    requires name !in TreeNamespaceNames(namespaces)
    ensures Named(namespaces, name) == []
  {
    if namespaces != [] {
      assert TreeNamespaceNames(namespaces[1..]) == TreeNamespaceNames(namespaces)[1..];
      NamedAbsent(namespaces[1..], name);
    }
  }

  /** With unique names, the items under a name are those of its one namespace. */
  lemma {:induction false} NamedUnique(namespaces: seq<NamespaceTrees>, i: nat)
    requires DistinctNames(namespaces) && i < |namespaces|
    ensures Named(namespaces, namespaces[i].name) == namespaces[i].items
  {
    var name := namespaces[i].name;
    if i == 0 {
      assert name !in TreeNamespaceNames(namespaces[1..]);
      NamedAbsent(namespaces[1..], name);
    } else {
      NamedUnique(namespaces[1..], i - 1);
    }
  }

  /** Changing the items of a namespace leaves the items under other names alone. */
  lemma {:induction false} NamedUpdateOther(namespaces: seq<NamespaceTrees>, i: nat, items: seq<Tree>, name: string)
    requires i < |namespaces| && namespaces[i].name != name
    ensures Named(namespaces[i := namespaces[i].(items := items)], name) == Named(namespaces, name)
  {
    if i > 0 {
      assert namespaces[i := namespaces[i].(items := items)][1..] == namespaces[1..][i - 1 := namespaces[i].(items := items)];
      NamedUpdateOther(namespaces[1..], i - 1, items, name);
    }
  }

  /** AddToProject files the item last under its namespace name, keeps the names
      unique, and leaves what is filed under every other name as it was. */
  lemma AddToNamespacesNamed(namespaces: seq<NamespaceTrees>, name: string, t: Tree)
    requires DistinctNames(namespaces)
    ensures DistinctNames(AddToNamespaces(namespaces, name, t))
    ensures name in TreeNamespaceNames(AddToNamespaces(namespaces, name, t))
    ensures Named(AddToNamespaces(namespaces, name, t), name) == Named(namespaces, name) + [t]
    ensures forall other :: other != name ==> Named(AddToNamespaces(namespaces, name, t), other) == Named(namespaces, other)
  {
    var r := AddToNamespaces(namespaces, name, t);
    var i := IndexOf(TreeNamespaceNames(namespaces), name);
    if i < 0 {
      assert r[|namespaces|].name == name;
      NamedAbsent(namespaces, name);
      NamedAppend(namespaces, NamespaceTrees("", name, "", [t]), name);
      forall other | other != name ensures Named(r, other) == Named(namespaces, other) {
        NamedAppend(namespaces, NamespaceTrees("", name, "", [t]), other);
      }
    } else {
      assert r[i].name == name;
      NamedUnique(namespaces, i);
      NamedUnique(r, i);
      forall other | other != name ensures Named(r, other) == Named(namespaces, other) {
        NamedUpdateOther(namespaces, i, namespaces[i].items + [t], other);
      }
    }
  }

  /** The types of `namespace name { ... }` are filed under that name in
      declaration order, and nothing else is filed anywhere. */
  lemma {:induction false} NamespaceMembersNamed(namespaces: seq<NamespaceTrees>, name: string, members: seq<MemberSyntax>)
    requires DistinctNames(namespaces)
    ensures DistinctNames(NamespaceMembers(namespaces, name, members))
    ensures Named(NamespaceMembers(namespaces, name, members), name) == Named(namespaces, name) + DocumentedTypes(members)
    ensures forall other :: other != name ==> Named(NamespaceMembers(namespaces, name, members), other) == Named(namespaces, other)
    decreases |members|
  {
    if members != [] {
      var next := if members[0].TypeDeclaration? then AddType(namespaces, name, members[0]) else namespaces;
      if members[0].TypeDeclaration? && TypeTree(members[0]).Some? {
        AddToNamespacesNamed(namespaces, name, TypeTree(members[0]).value);
      }
      NamespaceMembersNamed(next, name, members[1..]);
    }
  }

  /** Parsing a file keeps namespace names unique. */
  lemma {:induction false} FileMembersDistinct(namespaces: seq<NamespaceTrees>, current: string, members: seq<MemberSyntax>)
    requires DistinctNames(namespaces)
    ensures DistinctNames(FileMembers(namespaces, current, members))
    decreases |members|
  {
    if members != [] {
      match members[0]
      case NamespaceDeclaration(name, body) =>
        NamespaceMembersNamed(namespaces, name, body);
        FileMembersDistinct(NamespaceMembers(namespaces, name, body), name, members[1..]);
      case TypeDeclaration(_, _, _, _, _, _) =>
        if TypeTree(members[0]).Some? {
          AddToNamespacesNamed(namespaces, current, TypeTree(members[0]).value);
        }
        FileMembersDistinct(AddType(namespaces, current, members[0]), current, members[1..]);
      case _ =>
        FileMembersDistinct(namespaces, current, members[1..]);
    }
  }

  lemma {:induction false} FilesMembersDistinct(namespaces: seq<NamespaceTrees>, files: seq<CompilationUnit>)
    requires DistinctNames(namespaces)
    ensures DistinctNames(FilesMembers(namespaces, files))
    decreases |files|
  {
    if files != [] {
      FileMembersDistinct(namespaces, "", files[0]);
      FilesMembersDistinct(FileMembers(namespaces, "", files[0]), files[1..]);
    }
  }

  /** Within one parsed project no two namespaces share a name, and every
      namespace carries the project's package name. */
  lemma ProjectSpecDistinct(files: seq<CompilationUnit>, packageName: string)
    ensures DistinctNames(ProjectSpec(files, packageName))
    ensures forall k :: 0 <= k < |ProjectSpec(files, packageName)| ==> ProjectSpec(files, packageName)[k].packageName == packageName
  {
    FilesMembersDistinct([], files);
  }

  // ---------------------------------------------------------------------------
  // Documented items and what each container collects

  /** The kinds of member a type of the given kind collects. */
  function AllowedMembers(kind: string): set<string> {
    if kind == "class" then {"method", "property", "field", "class", "interface", "struct"}
    else if kind == "struct" then {"method", "property", "field"}
    else if kind == "interface" then {"method", "property"}
    else {}
  }

  /** Every item of the tree has a non-empty comment, and every member's kind is
      one its container collects. */
  predicate WellNested(t: Tree)
    decreases t
  {
    t.xmlComment != "" &&
    forall k :: 0 <= k < |t.members| ==> t.members[k].kind in AllowedMembers(t.kind) && WellNested(t.members[k])
  }

  predicate FitIn(kind: string, ts: seq<Tree>) {
    forall k :: 0 <= k < |ts| ==> ts[k].kind in AllowedMembers(kind) && WellNested(ts[k])
  }

  /** A documented type declaration becomes a well-nested tree of its kind. */
  lemma {:induction false} TypeTreeWellNested(d: MemberSyntax)
    requires d.TypeDeclaration?
    ensures TypeTree(d).Some? ==> TypeTree(d).value.kind == KindOf(d.keyword) && WellNested(TypeTree(d).value)
    decreases d, 1
  {
    if TypeTree(d).Some? {
      MemberTreesWellNested(d.keyword, d.members);
    }
  }

  lemma {:induction false} MemberTreesWellNested(keyword: TypeKeyword, members: seq<MemberSyntax>)
    ensures FitIn(KindOf(keyword), MemberTrees(keyword, members))
    decreases members, 0
  {
    if members != [] {
      MemberTreesWellNested(keyword, members[..|members| - 1]);
      MemberContributionWellNested(keyword, members[|members| - 1]);
    }
  }

  lemma {:induction false} MemberContributionWellNested(keyword: TypeKeyword, m: MemberSyntax)
    ensures FitIn(KindOf(keyword), MemberContribution(keyword, m))
    decreases m, 2
  {
    match m
    case TypeDeclaration(_, _, _, _, _, _) =>
      if keyword == ClassKeyword {
        TypeTreeWellNested(m);
      }
    case _ =>
  }

  predicate TopLevelTypes(namespaces: seq<NamespaceTrees>) {
    forall k, j :: 0 <= k < |namespaces| && 0 <= j < |namespaces[k].items| ==>
      namespaces[k].items[j].kind in {"class", "interface", "struct"} && WellNested(namespaces[k].items[j])
  }

  lemma AddTypeTopLevel(namespaces: seq<NamespaceTrees>, name: string, d: MemberSyntax)
    requires d.TypeDeclaration? && TopLevelTypes(namespaces)
    ensures TopLevelTypes(AddType(namespaces, name, d))
  {
    TypeTreeWellNested(d);
  }

  lemma {:induction false} NamespaceMembersTopLevel(namespaces: seq<NamespaceTrees>, name: string, members: seq<MemberSyntax>)
    requires TopLevelTypes(namespaces)
    ensures TopLevelTypes(NamespaceMembers(namespaces, name, members))
    decreases |members|
  {
    if members != [] {
      if members[0].TypeDeclaration? {
        AddTypeTopLevel(namespaces, name, members[0]);
        NamespaceMembersTopLevel(AddType(namespaces, name, members[0]), name, members[1..]);
      } else {
        NamespaceMembersTopLevel(namespaces, name, members[1..]);
      }
    }
  }

  lemma {:induction false} FileMembersTopLevel(namespaces: seq<NamespaceTrees>, current: string, members: seq<MemberSyntax>)
    requires TopLevelTypes(namespaces)
    ensures TopLevelTypes(FileMembers(namespaces, current, members))
    decreases |members|
  {
    if members != [] {
      match members[0]
      case NamespaceDeclaration(name, body) =>
        NamespaceMembersTopLevel(namespaces, name, body);
        FileMembersTopLevel(NamespaceMembers(namespaces, name, body), name, members[1..]);
      case TypeDeclaration(_, _, _, _, _, _) =>
        AddTypeTopLevel(namespaces, current, members[0]);
        FileMembersTopLevel(AddType(namespaces, current, members[0]), current, members[1..]);
      case _ =>
        FileMembersTopLevel(namespaces, current, members[1..]);
    }
  }

  lemma {:induction false} FilesMembersTopLevel(namespaces: seq<NamespaceTrees>, files: seq<CompilationUnit>)
    requires TopLevelTypes(namespaces)
    ensures TopLevelTypes(FilesMembers(namespaces, files))
    decreases |files|
  {
    if files != [] {
      FileMembersTopLevel(namespaces, "", files[0]);
      FilesMembersTopLevel(FileMembers(namespaces, "", files[0]), files[1..]);
    }
  }

  /** Every top-level item of a parsed project is a documented class, interface
      or struct, and below it every item is documented and sits in a container
      that collects its kind. */
  lemma ProjectSpecWellNested(files: seq<CompilationUnit>, packageName: string)
    ensures TopLevelTypes(ProjectSpec(files, packageName))
  {
    FilesMembersTopLevel([], files);
    var parsed := FilesMembers([], files);
    assert forall k :: 0 <= k < |parsed| ==> ProjectSpec(files, packageName)[k].items == parsed[k].items;
  }

  /** A type whose comment cleans to "" gives no item, and none of its members
      is visited: whatever they are, the result is the same. */
  lemma UndocumentedTypeHidesMembers(d: MemberSyntax, members: seq<MemberSyntax>)
    requires d.TypeDeclaration? && CommentOf(d.leadingTrivia) == ""
    ensures TypeTree(d) == None
    ensures TypeTree(TypeDeclaration(d.keyword, d.identifier, d.leadingTrivia, d.attributeLists, d.baseList, members)) == None
  {
  }
}
